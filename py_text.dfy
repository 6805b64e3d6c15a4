/**
 * The parts of Python's `str` that the store's line rewrite relies on:
 * `isspace()`, `strip()`, `split()` without arguments and `startswith`,
 * and the characters that end a line when a file is read in text mode.
 */
module PyText {
  import opened Optional

  /** `c.isspace()`: the characters `strip()` and `split()` treat as whitespace. */
  predicate IsSpace(c: char) {
    var n := c as int;
    (0x09 <= n <= 0x0D) || (0x1C <= n <= 0x20) || n == 0x85 || n == 0xA0 || n == 0x1680
    || (0x2000 <= n <= 0x200A) || n == 0x2028 || n == 0x2029 || n == 0x202F
    || n == 0x205F || n == 0x3000
  }

  /** Characters that end a line under universal-newline reading. */
  predicate IsLineBreak(c: char) {
    c == '\n' || c == '\r'
  }

  /** A string that stays one line when it is printed and read back. */
  predicate NoLineBreak(s: string) {
    forall k :: 0 <= k < |s| ==> !IsLineBreak(s[k])
  }

  predicate AllSpace(s: string) {
    forall k :: 0 <= k < |s| ==> IsSpace(s[k])
  }

  predicate NoSpace(s: string) {
    forall k :: 0 <= k < |s| ==> !IsSpace(s[k])
  }

  /** What `strip()` leaves: no whitespace at either end. */
  predicate IsStripped(s: string) {
    s == [] || (!IsSpace(s[0]) && !IsSpace(s[|s| - 1]))
  }

  /** `s.lstrip()`: the suffix left after the leading whitespace. */
  function LStrip(s: string): (r: string)
    ensures |r| <= |s| && r == s[|s| - |r|..]
    ensures AllSpace(s[..|s| - |r|])
    ensures r == [] || !IsSpace(r[0])
  {
    if s != [] && IsSpace(s[0]) then
      var r := LStrip(s[1..]);
      DropLeadingSpace(s, r);
      r
    else
      s
  }

  /** A suffix of `s[1..]` after whitespace only is a suffix of `s` after whitespace only, when `s[0]` is whitespace. */
  lemma DropLeadingSpace(s: string, r: string)
    requires s != [] && IsSpace(s[0])
    requires |r| <= |s| - 1 && r == s[1..][|s| - 1 - |r|..] && AllSpace(s[1..][..|s| - 1 - |r|])
    ensures r == s[|s| - |r|..] && AllSpace(s[..|s| - |r|])
  {
    assert s[1..][|s| - 1 - |r|..] == s[|s| - |r|..];
    forall k | 1 <= k < |s| - |r| ensures IsSpace(s[k]) {
      assert s[k] == s[1..][..|s| - 1 - |r|][k - 1];
    }
  }

  /** `s.strip()`: whitespace is dropped from the front, then from the back, one character at a time. */
  function Strip(s: string): (r: string)
    ensures IsStripped(r) && |r| <= |s|
    ensures IsStripped(s) ==> r == s
    decreases |s|
  {
    if s != [] && IsSpace(s[0]) then Strip(s[1..])
    else if s != [] && IsSpace(s[|s| - 1]) then Strip(s[..|s| - 1])
    else s
  }

  /** `strip()` leaves nothing exactly when the string is all whitespace, and it never introduces a line break. */
  lemma {:induction false} StripFacts(s: string)
    ensures Strip(s) == [] <==> AllSpace(s)
    ensures NoLineBreak(s) ==> NoLineBreak(Strip(s))
    decreases |s|
  {
    if s != [] && IsSpace(s[0]) {
      StripFacts(s[1..]);
      assert forall k :: 1 <= k < |s| ==> s[k] == s[1..][k - 1];
    } else if s != [] && IsSpace(s[|s| - 1]) {
      StripFacts(s[..|s| - 1]);
      assert forall k :: 0 <= k < |s| - 1 ==> s[k] == s[..|s| - 1][k];
    }
  }

  /**
   * `strip()` removes exactly the leading and the trailing whitespace: its result is
   * a prefix of `lstrip()` whose remainder is all whitespace.
   */
  lemma {:induction false} StripIsTrim(s: string)
    ensures var r, t := Strip(s), LStrip(s); |r| <= |t| && r == t[..|r|] && AllSpace(t[|r|..])
    decreases |s|
  {
    if s != [] && IsSpace(s[0]) {
      StripIsTrim(s[1..]);
      assert LStrip(s) == LStrip(s[1..]);
    } else if s != [] && IsSpace(s[|s| - 1]) {
      var u := s[..|s| - 1];
      StripIsTrim(u);
      assert LStrip(u) == u by {
        assert u[0] == s[0];
      }
      TrimDropsLast(s, Strip(u));
    }
  }

  /** A trimmed prefix of `s` without its last, whitespace character is a trimmed prefix of `s`. */
  lemma TrimDropsLast(s: string, r: string)
    requires s != [] && IsSpace(s[|s| - 1])
    requires |r| <= |s| - 1 && r == s[..|s| - 1][..|r|] && AllSpace(s[..|s| - 1][|r|..])
    ensures r == s[..|r|] && AllSpace(s[|r|..])
  {
    assert s[..|s| - 1][..|r|] == s[..|r|];
    forall k | |r| <= k < |s| ensures IsSpace(s[k]) {
      if k < |s| - 1 {
        assert s[k] == s[..|s| - 1][|r|..][k - |r|];
      }
    }
  }

  /** The word that starts `t` (which begins with no whitespace): its characters up to the first whitespace. */
  function TakeWord(t: string): (w: string)
    ensures |w| <= |t| && w == t[..|w|] && NoSpace(w)
    ensures |w| == |t| || IsSpace(t[|w|])
  {
    if t == [] || IsSpace(t[0]) then
      []
    else
      var rest := TakeWord(t[1..]);
      assert [t[0]] + rest == t[..|rest| + 1];
      [t[0]] + rest
  }

  /**
   * `s.split()[0]`: the first maximal run of non-whitespace characters, or `None`
   * when `s.split()` is the empty list, on which the indexing raises `IndexError`.
   */
  function FirstWord(s: string): (w: Option<string>)
    ensures w.None? <==> AllSpace(s)
    ensures w.Some? ==> w.value != [] && NoSpace(w.value)
    ensures w.Some? ==> StartsWith(LStrip(s), w.value)
    ensures w.Some? ==> |w.value| == |LStrip(s)| || IsSpace(LStrip(s)[|w.value|])
  {
    var t := LStrip(s);
    if t == [] then None else Some(TakeWord(t))
  }

  /** `s.startswith(p)`. */
  predicate StartsWith(s: string, p: string) {
    |p| <= |s| && s[..|p|] == p
  }

  /** A word followed by whitespace or by nothing is the word `TakeWord` returns. */
  lemma {:induction false} TakeWordOfConcat(a: string, b: string)
    requires NoSpace(a)
    requires b == [] || IsSpace(b[0])
    ensures TakeWord(a + b) == a
  {
    if a != [] {
      assert (a + b)[1..] == a[1..] + b;
      TakeWordOfConcat(a[1..], b);
    } else {
      assert a + b == b;
    }
  }

  /** A word followed by whitespace or by nothing is what `split()[0]` returns. */
  lemma FirstWordOfConcat(a: string, b: string)
    requires a != [] && NoSpace(a)
    requires b == [] || IsSpace(b[0])
    ensures FirstWord(a + b) == Some(a)
  {
    assert !IsSpace((a + b)[0]);
    TakeWordOfConcat(a, b);
  }

  /** Trailing whitespace does not change the word `TakeWord` returns. */
  lemma {:induction false} TakeWordOfTrailingSpace(a: string, b: string)
    requires AllSpace(b)
    ensures TakeWord(a + b) == TakeWord(a)
  {
    if a != [] {
      assert (a + b)[1..] == a[1..] + b;
      TakeWordOfTrailingSpace(a[1..], b);
    } else {
      assert a + b == b;
    }
  }

  /** Leading whitespace does not change the first word. */
  lemma FirstWordOfLeadingSpace(s: string)
    requires s != [] && IsSpace(s[0])
    ensures FirstWord(s) == FirstWord(s[1..])
  {
    assert LStrip(s) == LStrip(s[1..]);
  }

  /** Trailing whitespace after a word-initial string does not change the first word. */
  lemma FirstWordOfTrailingSpace(s: string)
    requires |s| >= 2 && !IsSpace(s[0]) && IsSpace(s[|s| - 1])
    ensures FirstWord(s) == FirstWord(s[..|s| - 1])
  {
    var t := s[..|s| - 1];
    assert TakeWord(s) == TakeWord(t) by {
      assert s == t + [s[|s| - 1]];
      TakeWordOfTrailingSpace(t, [s[|s| - 1]]);
    }
    assert LStrip(t) == t by {
      assert t[0] == s[0];
    }
  }

  /** Stripping first does not change the first word. */
  lemma {:induction false} FirstWordOfStrip(s: string)
    ensures FirstWord(Strip(s)) == FirstWord(s)
    decreases |s|
  {
    if s != [] && IsSpace(s[0]) {
      FirstWordOfStrip(s[1..]);
      FirstWordOfLeadingSpace(s);
    } else if s != [] && IsSpace(s[|s| - 1]) {
      FirstWordOfStrip(s[..|s| - 1]);
      FirstWordOfTrailingSpace(s);
    }
  }
}
