/** The response display of app.py: the read-only text box is cleared, then
    every fragment of the streamed model reply is appended to its plain text
    in arrival order, empty fragments being skipped. */
module ResponseAccumulator {
  import opened PromptBuilder

  /** The fragments joined in arrival order. */
  function Concat(fragments: seq<string>): string {
    if fragments == [] then []
    else Concat(fragments[..|fragments| - 1]) + fragments[|fragments| - 1]
  }

  /** Joining distributes over splitting the stream. */
  lemma {:induction false} ConcatAppend(a: seq<string>, b: seq<string>)
    ensures Concat(a + b) == Concat(a) + Concat(b)
    decreases |b|
  {
    if b == [] {
      assert a + b == a;
    } else {
      assert (a + b)[..|a + b| - 1] == a + b[..|b| - 1];
      ConcatAppend(a, b[..|b| - 1]);
    }
  }

  /** The text after the first `k` fragments is a prefix of the final text. */
  lemma ConcatPrefix(fragments: seq<string>, k: nat)
    requires k <= |fragments|
    ensures Concat(fragments[..k]) <= Concat(fragments)
  {
    assert fragments == fragments[..k] + fragments[k..];
    ConcatAppend(fragments[..k], fragments[k..]);
  }

  /** The stream with its empty fragments left out: exactly the non-empty
      fragments are kept, and `NonEmptyAppend` shows they keep their order. */
  function NonEmpty(fragments: seq<string>): (r: seq<string>)
    ensures forall k :: 0 <= k < |r| ==> r[k] != []
    ensures forall x :: x in r <==> x in fragments && x != []
    ensures |r| <= |fragments|
  {
    if fragments == [] then []
    else
      var init, last := fragments[..|fragments| - 1], fragments[|fragments| - 1];
      assert fragments == init + [last];
      NonEmpty(init) + (if last == [] then [] else [last])
  }

  /** Filtering distributes over splitting the stream, so the kept fragments
      appear in the order in which they arrived. */
  lemma {:induction false} NonEmptyAppend(a: seq<string>, b: seq<string>)
    ensures NonEmpty(a + b) == NonEmpty(a) + NonEmpty(b)
    decreases |b|
  {
    if b == [] {
      assert a + b == a;
    } else {
      assert (a + b)[..|a + b| - 1] == a + b[..|b| - 1];
      NonEmptyAppend(a, b[..|b| - 1]);
    }
  }

  /** Skipping empty fragments changes nothing in the joined text. */
  lemma {:induction false} ConcatIgnoresEmpty(fragments: seq<string>)
    ensures Concat(NonEmpty(fragments)) == Concat(fragments)
  {
    if fragments != [] {
      var last := fragments[|fragments| - 1];
      ConcatIgnoresEmpty(fragments[..|fragments| - 1]);
      ConcatAppend(NonEmpty(fragments[..|fragments| - 1]), if last == [] then [] else [last]);
      assert Concat([last]) == last by {
        assert [last][..0] == [];
      }
    }
  }

  /** The sample stream of three fragments joins to two suggestions. */
  lemma ExampleStream()
    ensures Concat(["Sugg", "estion 1. ", "Suggestion 2."]) == "Suggestion 1. Suggestion 2."
  {
    var fs := ["Sugg", "estion 1. ", "Suggestion 2."];
    assert fs[..2] == ["Sugg", "estion 1. "];
    assert fs[..2][..1] == ["Sugg"];
    assert fs[..2][..1][..0] == [];
    assert Concat(["Sugg"]) == "Sugg";
    assert Concat(fs[..2]) == "Sugg" + "estion 1. ";
    assert Concat(fs) == "Sugg" + "estion 1. " + "Suggestion 2.";
  }

  /** The text box `output_textedit`; only its plain text is modelled. */
  class OutputText {
    var text: string

    constructor ()
      ensures text == []
    {
      text := [];
    }

    /** `output_textedit.clear()`. */
    method Clear()
      modifies this
      ensures text == []
    {
      text := [];
    }

    /** `update_textbox`: an empty fragment is ignored; otherwise the text
        becomes the old text followed by the fragment, on both branches of
        the conditional that picks the new text. */
    method UpdateTextbox(fragment: string)
      modifies this
      ensures text == old(text) + fragment
    {
      if fragment != [] {
        var current := text;
        var updated := if current != [] then current + fragment else fragment;
        text := updated;
      }
    }

    /** The clear and the `for chunk in res` loop.  `shown[k]` is the text on
        display once fragment `k` has been handled; each is a prefix of the
        final text, which is the whole stream joined in arrival order. */
    method DisplayResponse(fragments: seq<string>) returns (ghost shown: seq<string>)
      modifies this
      ensures text == Concat(fragments)
      ensures text == Concat(NonEmpty(fragments))
      ensures |shown| == |fragments|
      ensures forall k :: 0 <= k < |fragments| ==> shown[k] == Concat(fragments[..k + 1]) && shown[k] <= text
    {
      Clear();
      shown := [];
      for i := 0 to |fragments|
        invariant text == Concat(fragments[..i])
        invariant |shown| == i
        invariant forall k :: 0 <= k < i ==> shown[k] == Concat(fragments[..k + 1])
      {
        UpdateTextbox(fragments[i]);
        assert fragments[..i + 1][..i] == fragments[..i];
        shown := shown + [text];
      }
      assert fragments[..|fragments|] == fragments;
      forall k | 0 <= k < |fragments| ensures shown[k] <= text {
        ConcatPrefix(fragments, k + 1);
      }
      ConcatIgnoresEmpty(fragments);
    }

    /** `capture_screenshot` from the OCR result on: the prompt is built from
        the OCR text, sent to the model (`chat`, standing for the streaming
        call), and the reply is displayed in place of the previous one. */
    method Analyze(ocrText: string, chat: string -> seq<string>) returns (prompt: string)
      modifies this
      ensures prompt == BuildPrompt(ocrText)
      ensures text == Concat(chat(prompt))
    {
      prompt := BuildPrompt(ocrText);
      var reply := chat(prompt);
      ghost var shown := DisplayResponse(reply);
    }
  }

  /** A client of the text box: the sample stream ends as two suggestions,
      whatever was on display before. */
  method ExampleSession(out: OutputText)
    modifies out
    ensures out.text == "Suggestion 1. Suggestion 2."
  {
    ghost var shown := out.DisplayResponse(["Sugg", "estion 1. ", "Suggestion 2."]);
    ExampleStream();
    assert shown[0] == "Sugg";
  }
}
