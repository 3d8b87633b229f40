# tiny-assistant: the text pipeline of the screenshot analyser

`app.py` is a small desktop tool. It takes a screenshot, runs OCR on it, and asks a local language model
for two short suggestions about what is on the screen. The reply is streamed into a read-only text box.
After each analysis, reply included, it waits twenty seconds, then takes the next screenshot. Most of the file is plumbing around Qt, OpenCV, Tesseract and Ollama. This project
models the three deterministic pieces between the OCR result and the text box, and proves their properties.

- **Text normaliser** (`normalizer.dfy`, module `TextNormalizer`): the nested `clean_text` function.
  `re.sub(r'\n+', '\n', text)` is modelled by `CollapseNewlines`. It deletes every newline that is
  directly followed by another newline. `CollapseRun` proves this is the regular expression's meaning:
  each whole run of newlines becomes exactly one newline.
  `str.strip()` is modelled by `Strip`, using the same left-then-right scans Python performs.
  Its whitespace predicate `IsSpace` is exactly Python's `str.isspace()`. That is the ASCII set
  `\t \n \x0b \x0c \r`, the separators `\x1c`-`\x1f`, space, and the Unicode spaces `U+0085`, `U+00A0`,
  `U+1680`, `U+2000`-`U+200A`, `U+2028`, `U+2029`, `U+202F`, `U+205F` and `U+3000`.
- **Prompt builder** (`prompt.dfy`, module `PromptBuilder`): the f-string sent to the model.
  `Prefix` and `Suffix` hold the template text character for character, including the leading newline,
  the twenty-space indentation and the trailing spaces of the first two lines.
  `Render(t, text)` fills any `Template(prefix, suffix)` with `Clean(text)`. `BuildPrompt` is `Render`
  applied to the template of app.py. Most prompt lemmas are stated for every template, and the
  app's own constants appear only where their content matters (the cap and the `Suggestions:` opener).
  Long literals are costly for the solver, so this split keeps every proof small.
- **Response accumulator** (`accumulator.dfy`, module `ResponseAccumulator`): the class `OutputText`
  stands for the text box, and its field `text` is the box's plain text. `Clear` is the clear at line 95.
  `UpdateTextbox` is `update_textbox`. `DisplayResponse` is the clear followed by the `for chunk in res`
  loop. `Analyze` is `capture_screenshot` from the OCR result onwards. It builds the prompt, passes it to
  the streaming call (the function parameter `chat`), and displays the reply.
  `Concat` joins the fragments in arrival order and is the reference definition the methods are proved against.

## Model

| member | source | states |
|---|---|---|
| `TextNormalizer.CollapseNewlines` | app.py:66 | the collapsed text is no longer than the input, is empty only for empty input, and starts with the input's first character |
| `TextNormalizer.CollapseNoDoubleNewline` | app.py:66 | the result of the substitution never holds two consecutive newlines |
| `TextNormalizer.CollapseKeepsOtherChars` | app.py:66 | the substitution deletes newlines only: with newlines erased, input and output are equal |
| `TextNormalizer.CollapseFixesNoDouble` | app.py:66 | a string without a doubled newline is left unchanged |
| `TextNormalizer.CollapseIdempotent` | app.py:66 | substituting twice gives the same as substituting once |
| `TextNormalizer.CollapseAppend` | app.py:66 | the substitution distributes over a split point that does not fall inside a run of newlines |
| `TextNormalizer.CollapseLeadingRun` | app.py:66 | a run of one or more newlines at the front, followed by a non-newline, becomes one newline |
| `TextNormalizer.CollapseRun` | app.py:66 | every maximal run of one or more newlines is replaced by exactly one newline, and the text on either side is processed independently (the meaning of `re.sub(r'\n+', '\n', …)`) |
| `TextNormalizer.CollapseAllSpace` | app.py:66 | the collapsed text is whitespace only exactly when the input is |
| `TextNormalizer.SkipSpace` | app.py:67 | the left scan of `strip` stops at the first non-whitespace character, having passed only whitespace |
| `TextNormalizer.SkipSpaceBack` | app.py:67 | the right scan of `strip` stops after the last non-whitespace character (not before the left scan's stop), having passed only whitespace |
| `TextNormalizer.Strip` | app.py:67 | the stripped text is no longer than the input, and neither end is whitespace |
| `TextNormalizer.StripSlice` | app.py:67 | the stripped text is a contiguous slice `s[i..j]` of the input, and everything before `i` and from `j` on is whitespace |
| `TextNormalizer.StripTrimmed` | app.py:67 | a string with no whitespace at either end is returned unchanged |
| `TextNormalizer.StripEmpty` | app.py:67 | `strip` returns `""` exactly when the input is empty or whitespace only |
| `TextNormalizer.Clean` | app.py:64-68 | `clean_text` never lengthens its input, and its result neither begins nor ends with whitespace |
| `TextNormalizer.CleanNoDoubleNewline` | app.py:64-68 | the output of `clean_text` never contains two consecutive newlines |
| `TextNormalizer.CleanIsSlice` | app.py:66-67 | `clean_text` only deletes: its output is a slice of the newline-collapsed text with whitespace-only ends cut off, and the collapse removed only newlines |
| `TextNormalizer.CleanEmpty` | app.py:66-67 | `clean_text` gives `""` exactly when its input is empty or whitespace only |
| `TextNormalizer.CleanFixedPoint` | app.py:64-68 | `clean_text` leaves a string unchanged exactly when it is trimmed and has no doubled newline |
| `TextNormalizer.CleanIdempotent` | app.py:64-68 | `clean_text(clean_text(s)) == clean_text(s)` for every `s` |
| `PromptBuilder.Render` | app.py:78-88 | the prompt's length is the prefix's, plus the cleaned text's, plus the suffix's |
| `PromptBuilder.RenderLayout` | app.py:78-88 | the prompt is the prefix at offset 0, then the cleaned text verbatim at the offset equal to the prefix's length, then the suffix |
| `PromptBuilder.RenderDeterminedByCleanText` | app.py:85 | two OCR texts give the same prompt exactly when they clean to the same text |
| `PromptBuilder.RenderOfCleanText` | app.py:85 | embedding already-cleaned text gives the same prompt as embedding the raw text |
| `PromptBuilder.RenderOfBlankText` | app.py:85 | an empty or whitespace-only OCR result still yields a prompt: the prefix directly followed by the suffix |
| `PromptBuilder.RenderKeepsSuffix` | app.py:86-88 | any word of the suffix occurs in every prompt, whatever the OCR text |
| `PromptBuilder.StripKeepsLastWord` | app.py:87-88 | a word with no whitespace at its ends, followed by whitespace only, is what the string ends with once stripped |
| `PromptBuilder.RenderEndsWith` | app.py:87-88 | if the suffix ends with an instruction followed by whitespace only, every prompt ends with that instruction once stripped of surrounding whitespace |
| `PromptBuilder.SuffixLayout` | app.py:86-88 | a proof step: the suffix's composition (which is its definition) splits off the opener instruction as its last word, and the indentation after it, up to the closing quotes, is whitespace only |
| `PromptBuilder.OpenerInstructionTrimmed` | app.py:87 | the opener instruction is non-empty and has no whitespace at either end |
| `PromptBuilder.SuffixHasCap` | app.py:87 | the suffix contains the cap "Limit yourself to two suggestions." |
| `PromptBuilder.SuffixHasOpener` | app.py:87 | the suffix contains the required opener `Suggestions:` |
| `PromptBuilder.PromptInstructions` | app.py:78-88 | every prompt, for every OCR text, contains the two-suggestion cap and the opener |
| `PromptBuilder.PromptEndsWithOpenerInstruction` | app.py:87-88 | once stripped of surrounding whitespace, every prompt ends with "Begin your response starting with Suggestions:" |
| `ResponseAccumulator.ConcatAppend` | app.py:96-97 | joining a stream split in two is joining each part and concatenating the results |
| `ResponseAccumulator.ConcatPrefix` | app.py:95-97 | the text after the first `k` fragments is a prefix of the text after all of them |
| `ResponseAccumulator.NonEmpty` | app.py:101 | the stream with empty fragments skipped holds exactly the non-empty fragments of the stream, none of them empty, and is no longer than the stream |
| `ResponseAccumulator.NonEmptyAppend` | app.py:96-101 | skipping empty fragments distributes over splitting the stream, so the kept fragments stay in arrival order |
| `ResponseAccumulator.ConcatIgnoresEmpty` | app.py:101-104 | skipping empty fragments does not change the joined text |
| `ResponseAccumulator.ExampleStream` | app.py:95-97 | the stream `["Sugg", "estion 1. ", "Suggestion 2."]` joins to `"Suggestion 1. Suggestion 2."` |
| `ResponseAccumulator.OutputText.constructor` | app.py:19-20 | a new text box holds no text |
| `ResponseAccumulator.OutputText.Clear` | app.py:95 | after `clear()` the text box is empty |
| `ResponseAccumulator.OutputText.UpdateTextbox` | app.py:100-104 | an empty fragment leaves the text unchanged; otherwise the new text is the old text followed by the fragment, which both branches of the conditional at line 103 produce |
| `ResponseAccumulator.OutputText.DisplayResponse` | app.py:95-104 | after the clear and the loop the text is all fragments joined in arrival order, whatever was shown before, and equally the join of the non-empty fragments that `update_textbox` does not skip; the text shown after each fragment is the join of the fragments so far and a prefix of the final text |
| `ResponseAccumulator.ExampleSession` | app.py:95-104 | displaying the sample stream `["Sugg", "estion 1. ", "Suggestion 2."]` leaves `"Suggestion 1. Suggestion 2."` in the text box, whatever it held before |
| `ResponseAccumulator.OutputText.Analyze` | app.py:73-97 | the prompt sent is `BuildPrompt` of the OCR text, and the text box ends holding exactly the model's reply to that prompt, joined in order |

## Left out

- Qt widgets and layout (`QWidget`, `QPushButton`, `setEnabled`, `setReadOnly`, `QApplication.processEvents`, app.py:12-31, 98, 106-110): UI only; only the text box's plain text is modelled.
- Qt's own conversions between `setPlainText` and `toPlainText` are not modelled. These include its handling of non-breaking spaces and paragraph separators. The model assumes the box returns the text it was given.
- Screenshot capture (`screencapture` subprocess, the `~/Desktop/captured.png` path, `cv2.imread`, app.py:44-54): operating-system and file I/O. On a failed capture the error branch only prints and falls through to `cv2.imread`, so no contract is stated for it.
- Image preprocessing (grayscale, inverted Otsu threshold, non-local-means denoising, app.py:57-59): foreign OpenCV numerics.
- OCR (`pytesseract.image_to_string`, app.py:62): a foreign call; its result is the arbitrary input string `ocrText` of `Analyze`.
- Model inference (`ollama.chat(..., stream=True)`, app.py:73-93): a network call. It is the function parameter `chat`, from the prompt to a finite sequence of fragments. The `chunk['message']['content']` lookup is taken to yield the fragment.
- The capture loop (`start_capture`, `capture_loop`, the `capturing` flag, `time.sleep(20)`, app.py:31-41): blocking timing behaviour with no exit, since nothing ever resets the flag. No pause, resume or exit transitions are modelled, because the code has none.
- `threading` is imported (app.py:10) but never used. The `print` calls are console output.
- Python strings may hold lone surrogate code points, which Dafny's `char` cannot. The model covers strings of Unicode scalar values.
- app.py has no pause, resume or exit transition, no interval gate, no notification when a reply is complete and no error handling beyond the capture's print, so none is modelled.
- `clean_text` collapses only runs of `'\n'` (app.py:66). Spaces, tabs and `"\r\n"` pairs inside the text are kept as they are, and `CleanFixedPoint` states exactly which strings are left unchanged.
