/** The prompt of app.py: a triple-quoted f-string with one substitution
    point, `clean_text(text)`.  The literal starts with the newline right
    after the opening quotes, and every template line keeps the twenty spaces
    of indentation it has in the source file. */
module PromptBuilder {
  import opened TextNormalizer

  const Indent: string := "                    "

  /** Everything before `{clean_text(text)}`. */
  const Prefix: string :=
    "\n"
    + Indent + "You are my quippy, insightful, and extremely creative service that analyzes screenshots and provides helpful insights or suggestions, similar to Clippy. \n"
    + Indent + "Analyze the screenshot image to identify any noteworthy elements, such as software open, text content on the screen, and user activities. \n"
    + Indent + "Keep responses short.\n"
    + Indent + "Do not give suggestions about multitasking, tabs, organization, or time management.\n"
    + Indent + "Do not give suggestions that are obvious to someone used to the internet. Provide insights that are profound and extremely creative based on what I'm doing.\n"
    + "\n"
    + Indent + "If it helps you infer what I'm doing or working on, here are the current words captured on the screen: "

  /** The token the response is told to start with. */
  const Opener: string := "Suggestions:"

  /** The instruction that fixes how the response must begin. */
  const OpenerInstruction: string := "Begin your response starting with " + Opener

  /** The cap on the number of suggestions. */
  const Cap: string := "Limit yourself to two suggestions."

  /** The blank template line between the substitution and the cap. */
  const Gap: string := "\n" + Indent + "\n" + Indent

  /** The indentation of the closing quotes. */
  const Tail: string := "\n" + Indent

  /** Everything after `{clean_text(text)}`, up to the closing quotes. */
  const Suffix: string := Gap + Cap + " " + OpenerInstruction + Tail

  /** A prompt template with one substitution point between `prefix` and `suffix`. */
  datatype Template = Template(prefix: string, suffix: string)

  /** The f-string of app.py. */
  const AppTemplate: Template := Template(Prefix, Suffix)

  /** `w` occurs in `s` starting at index `i`. */
  predicate OccursAt(s: string, w: string, i: int) {
    0 <= i && i + |w| <= |s| && s[i..i + |w|] == w
  }

  predicate Contains(s: string, w: string) {
    exists i :: 0 <= i <= |s| - |w| && OccursAt(s, w, i)
  }

  /** Once stripped of whitespace at both ends, `s` ends with `w`. */
  predicate EndsWithStripped(s: string, w: string) {
    var q := Strip(s);
    |q| >= |w| && q[|q| - |w|..] == w
  }

  /** Fills the template with the cleaned OCR text. */
  function Render(t: Template, text: string): (p: string)
    ensures |p| == |t.prefix| + |Clean(text)| + |t.suffix|
  {
    t.prefix + Clean(text) + t.suffix
  }

  /** The prompt sent to the model for the OCR text `text`. */
  function BuildPrompt(text: string): string {
    Render(AppTemplate, text)
  }

  /** The rendered prompt is the prefix, then the cleaned text verbatim at
      offset `|prefix|`, then the suffix. */
  lemma RenderLayout(t: Template, text: string)
    ensures OccursAt(Render(t, text), t.prefix, 0)
    ensures OccursAt(Render(t, text), Clean(text), |t.prefix|)
    ensures OccursAt(Render(t, text), t.suffix, |t.prefix| + |Clean(text)|)
  {
    var p := Render(t, text);
    var n := |t.prefix| + |Clean(text)|;
    assert p[..|t.prefix|] == t.prefix;
    assert p[|t.prefix|..n] == Clean(text);
    assert p[n..n + |t.suffix|] == t.suffix;
  }

  /** Two OCR texts give the same prompt exactly when they clean to the same
      text. */
  lemma RenderDeterminedByCleanText(t: Template, a: string, b: string)
    ensures Render(t, a) == Render(t, b) <==> Clean(a) == Clean(b)
  {
    if Render(t, a) == Render(t, b) {
      RenderLayout(t, a);
      RenderLayout(t, b);
    }
  }

  /** Text that is already clean is embedded unchanged. */
  lemma RenderOfCleanText(t: Template, text: string)
    ensures Render(t, Clean(text)) == Render(t, text)
  {
    CleanIdempotent(text);
  }

  /** An OCR result that is empty or whitespace only still yields a prompt:
      the template with nothing between prefix and suffix. */
  lemma RenderOfBlankText(t: Template, text: string)
    requires AllSpace(text)
    ensures Render(t, text) == t.prefix + t.suffix
  {
    CleanEmpty(text);
    assert t.prefix + [] + t.suffix == t.prefix + t.suffix;
  }

  lemma OccursAtShift(u: string, s: string, w: string, i: int)
    requires OccursAt(s, w, i)
    ensures OccursAt(u + s, w, |u| + i)
  {
    assert (u + s)[|u| + i..|u| + i + |w|] == s[i..i + |w|];
  }

  /** Every word of the suffix is in every rendered prompt. */
  lemma RenderKeepsSuffix(t: Template, text: string, w: string)
    requires Contains(t.suffix, w)
    ensures Contains(Render(t, text), w)
  {
    var i :| 0 <= i <= |t.suffix| - |w| && OccursAt(t.suffix, w, i);
    OccursAtShift(t.prefix + Clean(text), t.suffix, w, i);
  }

  /** Stripping `x + w + tail`, where `w` has no whitespace at its ends and
      `tail` is whitespace only, leaves a string that ends with `w`. */
  lemma StripKeepsLastWord(x: string, w: string, tail: string)
    requires IsTrimmed(w) && w != [] && AllSpace(tail)
    ensures EndsWithStripped(x + w + tail, w)
  {
    var p := x + w + tail;
    var e := |x| + |w|;
    assert p[|x|] == w[0] && p[e - 1] == w[|w| - 1];
    var i, j := StripSlice(p);
    assert e <= j;
    assert i <= |x|;
    assert p[i..j][j - i - |w|..] == w;
  }

  /** If the suffix ends with the instruction `w` followed by whitespace only,
      then `w` is what every rendered prompt ends with once stripped. */
  lemma RenderEndsWith(t: Template, text: string, body: string, w: string, tail: string)
    requires t.suffix == body + w + tail && AllSpace(tail)
    requires IsTrimmed(w) && w != []
    ensures EndsWithStripped(Render(t, text), w)
  {
    StripKeepsLastWord(t.prefix + Clean(text) + body, w, tail);
    assert Render(t, text) == (t.prefix + Clean(text) + body) + w + tail;
  }

  // ---------------------------------------------------------------------------
  // The template of app.py
  // ---------------------------------------------------------------------------

  lemma ContainsMiddle(a: string, w: string, b: string)
    ensures Contains(a + w + b, w)
  {
    assert (a + w + b)[|a|..|a| + |w|] == w;
    assert OccursAt(a + w + b, w, |a|);
  }

  /** A proof step for `PromptEndsWithOpenerInstruction`: the suffix, as
      composed, ends with the opener instruction followed by a tail that is
      whitespace only. */
  lemma SuffixLayout()
    ensures Suffix == (Gap + Cap + " ") + OpenerInstruction + Tail
    ensures AllSpace(Tail)
  {
  }

  lemma OpenerInstructionTrimmed()
    ensures IsTrimmed(OpenerInstruction) && OpenerInstruction != []
  {
    assert OpenerInstruction[0] == 'B';
    assert OpenerInstruction[|OpenerInstruction| - 1] == Opener[|Opener| - 1];
  }

  /** The suffix carries the two-suggestion cap ... */
  lemma SuffixHasCap()
    ensures Contains(Suffix, Cap)
  {
    ContainsMiddle(Gap, Cap, " " + OpenerInstruction + Tail);
    assert Suffix == Gap + Cap + (" " + OpenerInstruction + Tail);
  }

  /** ... and the opener the response must begin with. */
  lemma SuffixHasOpener()
    ensures Contains(Suffix, Opener)
  {
    var lead := Gap + Cap + " " + "Begin your response starting with ";
    ContainsMiddle(lead, Opener, Tail);
    assert Suffix == lead + Opener + Tail;
  }

  /** Whatever the OCR text, the prompt asks for at most two suggestions and
      for a response that starts with the opener. */
  lemma PromptInstructions(text: string)
    ensures Contains(BuildPrompt(text), Cap)
    ensures Contains(BuildPrompt(text), Opener)
  {
    SuffixHasCap();
    SuffixHasOpener();
    RenderKeepsSuffix(AppTemplate, text, Cap);
    RenderKeepsSuffix(AppTemplate, text, Opener);
  }

  /** Once stripped of surrounding whitespace, every prompt ends with the
      instruction to begin the response with the opener. */
  lemma PromptEndsWithOpenerInstruction(text: string)
    ensures EndsWithStripped(BuildPrompt(text), OpenerInstruction)
  {
    SuffixLayout();
    OpenerInstructionTrimmed();
    RenderEndsWith(AppTemplate, text, Gap + Cap + " ", OpenerInstruction, Tail);
  }
}
