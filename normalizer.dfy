/** The OCR text normaliser `clean_text` of app.py: every run of newlines is
    collapsed to one newline (`re.sub(r'\n+', '\n', text)`), then leading and
    trailing whitespace is removed (`str.strip()` with no argument). */
module TextNormalizer {

  /** Python's `str.isspace()`: exactly the characters `str.strip()` removes
      when it is called without an argument. */
  predicate IsSpace(c: char) {
    || ('\t' <= c <= '\r')                // tab, line feed, vertical tab, form feed, carriage return
    || ('\U{001C}' <= c <= ' ')            // file, group, record and unit separators, space
    || c == '\U{0085}' || c == '\U{00A0}' || c == '\U{1680}'
    || ('\U{2000}' <= c <= '\U{200A}')
    || c == '\U{2028}' || c == '\U{2029}' || c == '\U{202F}' || c == '\U{205F}' || c == '\U{3000}'
  }

  predicate AllSpace(s: string) {
    forall k :: 0 <= k < |s| ==> IsSpace(s[k])
  }

  /** Positions `k` and `k + 1` of `s` both hold a newline. */
  predicate DoubleNewlineAt(s: string, k: int)
    requires 0 <= k < |s| - 1
  {
    s[k] == '\n' && s[k + 1] == '\n'
  }

  /** No two adjacent newline characters. */
  predicate NoDoubleNewline(s: string) {
    forall k :: 0 <= k < |s| - 1 ==> !DoubleNewlineAt(s, k)
  }

  /** Neither end of `s` is whitespace. */
  predicate IsTrimmed(s: string) {
    s == [] || (!IsSpace(s[0]) && !IsSpace(s[|s| - 1]))
  }

  /** `s` with every newline character deleted and everything else kept in order. */
  function RemoveNewlines(s: string): string {
    if s == [] then []
    else (if s[0] == '\n' then [] else [s[0]]) + RemoveNewlines(s[1..])
  }

  // ---------------------------------------------------------------------------
  // re.sub(r'\n+', '\n', s)
  // ---------------------------------------------------------------------------

  /** A newline that is immediately followed by another newline is deleted;
      every other character is copied.  Within each run of newlines only the
      last one survives, so the run becomes a single newline (`CollapseRun`). */
  function CollapseNewlines(s: string): (r: string)
    ensures |r| <= |s|
    ensures s != [] ==> r != [] && r[0] == s[0]
  {
    if s == [] then []
    else if |s| >= 2 && s[0] == '\n' && s[1] == '\n' then CollapseNewlines(s[1..])
    else [s[0]] + CollapseNewlines(s[1..])
  }

  lemma NoDoubleNewlineCons(c: char, r: string)
    requires NoDoubleNewline(r)
    requires c != '\n' || r == [] || r[0] != '\n'
    ensures NoDoubleNewline([c] + r)
  {
    var s := [c] + r;
    forall k | 0 <= k < |s| - 1 ensures !DoubleNewlineAt(s, k) {
      if k > 0 { assert DoubleNewlineAt(s, k) == DoubleNewlineAt(r, k - 1); }
    }
  }

  lemma NoDoubleNewlineSlice(s: string, i: int, j: int)
    requires 0 <= i <= j <= |s| && NoDoubleNewline(s)
    ensures NoDoubleNewline(s[i..j])
  {
    var t := s[i..j];
    forall k | 0 <= k < |t| - 1 ensures !DoubleNewlineAt(t, k) {
      assert DoubleNewlineAt(t, k) == DoubleNewlineAt(s, i + k);
    }
  }

  lemma {:induction false} CollapseNoDoubleNewline(s: string)
    ensures NoDoubleNewline(CollapseNewlines(s))
  {
    if s == [] {
    } else if |s| >= 2 && s[0] == '\n' && s[1] == '\n' {
      CollapseNoDoubleNewline(s[1..]);
    } else {
      CollapseNoDoubleNewline(s[1..]);
      NoDoubleNewlineCons(s[0], CollapseNewlines(s[1..]));
    }
  }

  lemma RemoveNewlinesCons(c: char, s: string)
    ensures RemoveNewlines([c] + s) == (if c == '\n' then [] else [c]) + RemoveNewlines(s)
  {
    assert ([c] + s)[1..] == s;
  }

  /** The substitution deletes newline characters only: every other character
      survives, in its original order. */
  lemma {:induction false} CollapseKeepsOtherChars(s: string)
    ensures RemoveNewlines(CollapseNewlines(s)) == RemoveNewlines(s)
  {
    if s == [] {
    } else if |s| >= 2 && s[0] == '\n' && s[1] == '\n' {
      CollapseKeepsOtherChars(s[1..]);
    } else {
      CollapseKeepsOtherChars(s[1..]);
      RemoveNewlinesCons(s[0], CollapseNewlines(s[1..]));
    }
  }

  /** A string without a doubled newline is left unchanged. */
  lemma {:induction false} CollapseFixesNoDouble(s: string)
    requires NoDoubleNewline(s)
    ensures CollapseNewlines(s) == s
  {
    if s != [] {
      NoDoubleNewlineSlice(s, 1, |s|);
      assert s[1..|s|] == s[1..];
      CollapseFixesNoDouble(s[1..]);
      if |s| >= 2 { assert !DoubleNewlineAt(s, 0); }
      assert s == [s[0]] + s[1..];
    }
  }

  lemma CollapseIdempotent(s: string)
    ensures CollapseNewlines(CollapseNewlines(s)) == CollapseNewlines(s)
  {
    CollapseNoDoubleNewline(s);
    CollapseFixesNoDouble(CollapseNewlines(s));
  }

  /** Collapsing distributes over a split point that is not inside a run of newlines. */
  lemma {:induction false} CollapseAppend(x: string, y: string)
    requires x == [] || x[|x| - 1] != '\n'
    ensures CollapseNewlines(x + y) == CollapseNewlines(x) + CollapseNewlines(y)
  {
    if x == [] {
      assert x + y == y;
    } else {
      assert (x + y)[1..] == x[1..] + y;
      CollapseAppend(x[1..], y);
    }
  }

  lemma {:induction false} CollapseLeadingRun(run: string, b: string)
    requires |run| >= 1 && forall k :: 0 <= k < |run| ==> run[k] == '\n'
    requires b == [] || b[0] != '\n'
    ensures CollapseNewlines(run + b) == "\n" + CollapseNewlines(b)
  {
    assert (run + b)[1..] == run[1..] + b;
    if |run| >= 2 {
      CollapseLeadingRun(run[1..], b);
    }
  }

  /** The defining law of `re.sub(r'\n+', '\n', s)`: a whole run of one or
      more newlines, bordered by non-newlines or by the ends of the string,
      becomes exactly one newline, and the text on either side is collapsed
      independently. */
  lemma CollapseRun(a: string, run: string, b: string)
    requires a == [] || a[|a| - 1] != '\n'
    requires |run| >= 1 && forall k :: 0 <= k < |run| ==> run[k] == '\n'
    requires b == [] || b[0] != '\n'
    ensures CollapseNewlines(a + run + b) == CollapseNewlines(a) + "\n" + CollapseNewlines(b)
  {
    assert a + run + b == a + (run + b);
    CollapseAppend(a, run + b);
    CollapseLeadingRun(run, b);
  }

  /** Collapsing neither creates nor removes the only-whitespace quality. */
  lemma {:induction false} CollapseAllSpace(s: string)
    ensures AllSpace(CollapseNewlines(s)) <==> AllSpace(s)
  {
    if s != [] {
      CollapseAllSpace(s[1..]);
      assert AllSpace(s) <==> IsSpace(s[0]) && AllSpace(s[1..]) by {
        forall k | 0 <= k < |s| - 1 ensures s[k + 1] == s[1..][k] { }
      }
      if !(|s| >= 2 && s[0] == '\n' && s[1] == '\n') {
        var r := CollapseNewlines(s[1..]);
        assert CollapseNewlines(s) == [s[0]] + r;
        assert AllSpace([s[0]] + r) <==> IsSpace(s[0]) && AllSpace(r) by {
          forall k | 0 <= k < |r| ensures ([s[0]] + r)[k + 1] == r[k] { }
        }
      }
    }
  }

  // ---------------------------------------------------------------------------
  // str.strip()
  // ---------------------------------------------------------------------------

  /** The scan of `str.strip()` from the left: the first index at or after
      `i` that does not hold whitespace, or `|s|`. */
  function SkipSpace(s: string, i: nat): (n: nat)
    requires i <= |s|
    ensures i <= n <= |s|
    ensures n == |s| || !IsSpace(s[n])
    ensures forall k :: i <= k < n ==> IsSpace(s[k])
    decreases |s| - i
  {
    if i == |s| || !IsSpace(s[i]) then i else SkipSpace(s, i + 1)
  }

  /** The scan of `str.strip()` from the right, which stops at `lo`: the
      smallest `n >= lo` such that `s[n..j]` is all whitespace. */
  function SkipSpaceBack(s: string, lo: nat, j: nat): (n: nat)
    requires lo <= j <= |s|
    ensures lo <= n <= j
    ensures n == lo || !IsSpace(s[n - 1])
    ensures forall k :: n <= k < j ==> IsSpace(s[k])
  {
    if j == lo || !IsSpace(s[j - 1]) then j else SkipSpaceBack(s, lo, j - 1)
  }

  /** `str.strip()`: `s` without its leading and trailing whitespace. */
  function Strip(s: string): (r: string)
    ensures |r| <= |s|
    ensures IsTrimmed(r)
  {
    var i := SkipSpace(s, 0);
    s[i..SkipSpaceBack(s, i, |s|)]
  }

  /** `Strip(s)` is the slice `s[i..j]`, and everything cut off around it is
      whitespace. */
  lemma StripSlice(s: string) returns (i: nat, j: nat)
    ensures i <= j <= |s| && Strip(s) == s[i..j]
    ensures i < j ==> !IsSpace(s[i]) && !IsSpace(s[j - 1])
    ensures forall k :: 0 <= k < i ==> IsSpace(s[k])
    ensures forall k :: j <= k < |s| ==> IsSpace(s[k])
  {
    i := SkipSpace(s, 0);
    j := SkipSpaceBack(s, i, |s|);
  }

  lemma StripTrimmed(s: string)
    requires IsTrimmed(s)
    ensures Strip(s) == s
  {
    if s != [] {
      assert SkipSpace(s, 0) == 0;
      assert SkipSpaceBack(s, 0, |s|) == |s|;
      assert s[0..|s|] == s;
    }
  }

  lemma StripEmpty(s: string)
    ensures Strip(s) == [] <==> AllSpace(s)
  {
    var i, j := StripSlice(s);
    if AllSpace(s) {
      assert SkipSpace(s, 0) == |s|;
    }
  }

  // ---------------------------------------------------------------------------
  // clean_text
  // ---------------------------------------------------------------------------

  /** `clean_text(text)`: collapse newline runs, then strip both ends. */
  function Clean(text: string): (r: string)
    ensures |r| <= |text|
    ensures IsTrimmed(r)
  {
    Strip(CollapseNewlines(text))
  }

  /** The cleaned text never holds two consecutive newlines. */
  lemma CleanNoDoubleNewline(text: string)
    ensures NoDoubleNewline(Clean(text))
  {
    var c := CollapseNewlines(text);
    CollapseNoDoubleNewline(text);
    var i, j := StripSlice(c);
    NoDoubleNewlineSlice(c, i, j);
  }

  /** Cleaning only deletes: the result is a slice of the newline-collapsed
      text with whitespace-only ends cut off, and the collapse deleted nothing
      but newlines. */
  lemma CleanIsSlice(text: string) returns (i: nat, j: nat)
    ensures i <= j <= |CollapseNewlines(text)|
    ensures Clean(text) == CollapseNewlines(text)[i..j]
    ensures forall k :: 0 <= k < i ==> IsSpace(CollapseNewlines(text)[k])
    ensures forall k :: j <= k < |CollapseNewlines(text)| ==> IsSpace(CollapseNewlines(text)[k])
    ensures RemoveNewlines(CollapseNewlines(text)) == RemoveNewlines(text)
  {
    i, j := StripSlice(CollapseNewlines(text));
    CollapseKeepsOtherChars(text);
  }

  /** Cleaning gives "" exactly when the text is empty or whitespace only. */
  lemma CleanEmpty(text: string)
    ensures Clean(text) == [] <==> AllSpace(text)
  {
    StripEmpty(CollapseNewlines(text));
    CollapseAllSpace(text);
  }

  /** The strings cleaning leaves unchanged are exactly the trimmed strings
      without a doubled newline. */
  lemma CleanFixedPoint(text: string)
    ensures Clean(text) == text <==> IsTrimmed(text) && NoDoubleNewline(text)
  {
    CleanNoDoubleNewline(text);
    if IsTrimmed(text) && NoDoubleNewline(text) {
      CollapseFixesNoDouble(text);
      StripTrimmed(text);
    }
  }

  lemma CleanIdempotent(text: string)
    ensures Clean(Clean(text)) == Clean(text)
  {
    CleanNoDoubleNewline(text);
    CleanFixedPoint(Clean(text));
  }
}
