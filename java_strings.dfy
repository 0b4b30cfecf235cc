/**
 * The parts of java.lang.String and java.lang.Integer that the library's logic depends on:
 * `contains`, `startsWith`, `split` on a literal separator (trailing empty strings removed),
 * literal `replace`/`replaceAll`, `toLowerCase`, `equalsIgnoreCase`, `Integer.parseInt`
 * and decimal printing of an int. Characters are restricted to ASCII case mapping and
 * ASCII digits.
 */
module JavaStrings {
  import opened Wrappers

  /** `s` begins with `p`. */
  predicate StartsWith(s: string, p: string) {
    |p| <= |s| && s[..|p|] == p
  }

  /** `t` occurs somewhere in `s`. */
  predicate Contains(s: string, t: string)
    decreases |s|
  {
    StartsWith(s, t) || (|s| > 0 && Contains(s[1..], t))
  }

  lemma {:induction false} ContainsAt(s: string, t: string, i: nat)
    requires i + |t| <= |s| && s[i..i + |t|] == t
    ensures Contains(s, t)
    decreases i
  {
    if i > 0 {
      assert s[1..][i - 1..i - 1 + |t|] == t;
      ContainsAt(s[1..], t, i - 1);
    }
  }

  /** What a string contains, any extension of it contains. */
  lemma {:induction false} ContainsPrefix(s: string, rest: string, t: string)
    requires Contains(s, t)
    ensures Contains(s + rest, t)
    decreases |s|
  {
    if StartsWith(s, t) {
      assert (s + rest)[..|t|] == s[..|t|];
    } else {
      ContainsPrefix(s[1..], rest, t);
      assert (s + rest)[1..] == s[1..] + rest;
    }
  }

  // ---------------------------------------------------------------------------
  // split

  /**
   * All the pieces between the leftmost non-overlapping occurrences of `sep`,
   * before Java drops the trailing empty ones.
   */
  function SplitAll(s: string, sep: string): (pieces: seq<string>)
    requires |sep| > 0
    ensures |pieces| >= 1
    decreases |s|
  {
    if |s| < |sep| then [s]
    else if s[..|sep|] == sep then [""] + SplitAll(s[|sep|..], sep)
    else
      var rest := SplitAll(s[1..], sep);
      [[s[0]] + rest[0]] + rest[1..]
  }

  /** A string whose first character cannot begin the separator adds that character to the first piece. */
  lemma {:induction false} SplitAllSkip(s: string, sep: string)
    requires |sep| > 0 && |s| > 0 && s[0] != sep[0]
    ensures SplitAll(s, sep) == [[s[0]] + SplitAll(s[1..], sep)[0]] + SplitAll(s[1..], sep)[1..]
  {
    if |s| >= |sep| {
      assert s[..|sep|][0] == s[0];
    } else {
      assert SplitAll(s[1..], sep) == [s[1..]];
      assert [s[0]] + s[1..] == s;
    }
  }

  /** The pieces glued back together with `sep` in between. */
  function Join(pieces: seq<string>, sep: string): string
    requires |pieces| >= 1
    decreases |pieces|
  {
    if |pieces| == 1 then pieces[0] else pieces[0] + sep + Join(pieces[1..], sep)
  }

  /** Splitting loses nothing: joining the pieces with the separator gives back the string. */
  lemma {:induction false} JoinSplitAll(s: string, sep: string)
    requires |sep| > 0
    ensures Join(SplitAll(s, sep), sep) == s
    decreases |s|
  {
    if |s| < |sep| {
    } else if s[..|sep|] == sep {
      JoinSplitAll(s[|sep|..], sep);
      assert s == sep + s[|sep|..];
    } else {
      JoinSplitAll(s[1..], sep);
      JoinConsChar(s[0], SplitAll(s[1..], sep), sep);
      assert s == [s[0]] + s[1..];
    }
  }

  /** Putting a character in front of the first piece puts it in front of the joined string. */
  lemma JoinConsChar(c: char, pieces: seq<string>, sep: string)
    requires |pieces| >= 1
    ensures Join([[c] + pieces[0]] + pieces[1..], sep) == [c] + Join(pieces, sep)
  {
    var q := [[c] + pieces[0]] + pieces[1..];
    assert q[1..] == pieces[1..];
  }

  /** Removes the empty strings at the end of a piece list. */
  function DropTrailingEmpty(pieces: seq<string>): (r: seq<string>)
    ensures |r| <= |pieces| && r == pieces[..|r|]
    ensures |r| > 0 ==> r[|r| - 1] != ""
    ensures forall i :: |r| <= i < |pieces| ==> pieces[i] == ""
    decreases |pieces|
  {
    if |pieces| > 0 && pieces[|pieces| - 1] == "" then DropTrailingEmpty(pieces[..|pieces| - 1])
    else pieces
  }

  /**
   * `s.split(sep)` for a separator with no regular-expression metacharacters: the input
   * itself when `sep` does not occur, otherwise the pieces with trailing empty strings removed.
   */
  function Split(s: string, sep: string): (r: seq<string>)
    requires |sep| > 0
  {
    var pieces := SplitAll(s, sep);
    if |pieces| == 1 then pieces else DropTrailingEmpty(pieces)
  }

  // ---------------------------------------------------------------------------
  // replace

  /** `s.replace(pat, rep)`, and `s.replaceAll(pat, rep)` when neither holds regex or `$`/`\` characters. */
  function ReplaceAll(s: string, pat: string, rep: string): string
    requires |pat| > 0
    decreases |s|
  {
    if |s| < |pat| then s
    else if s[..|pat|] == pat then rep + ReplaceAll(s[|pat|..], pat, rep)
    else [s[0]] + ReplaceAll(s[1..], pat, rep)
  }

  /** Replacing is splitting on the pattern and joining with the replacement. */
  lemma {:induction false} ReplaceAllIsJoinSplit(s: string, pat: string, rep: string)
    requires |pat| > 0
    ensures ReplaceAll(s, pat, rep) == Join(SplitAll(s, pat), rep)
    decreases |s|
  {
    if |s| < |pat| {
    } else if s[..|pat|] == pat {
      ReplaceAllIsJoinSplit(s[|pat|..], pat, rep);
    } else {
      ReplaceAllIsJoinSplit(s[1..], pat, rep);
      JoinConsChar(s[0], SplitAll(s[1..], pat), rep);
    }
  }

  /** A string in which the pattern does not occur is left as it is. */
  lemma {:induction false} ReplaceAllAbsent(s: string, pat: string, rep: string)
    requires |pat| > 0 && !Contains(s, pat)
    ensures ReplaceAll(s, pat, rep) == s
    decreases |s|
  {
    if |s| >= |pat| {
      ReplaceAllAbsent(s[1..], pat, rep);
    }
  }

  /** Deleting every occurrence of one character leaves none. */
  lemma {:induction false} DeleteCharRemovesIt(s: string, c: char)
    ensures c !in ReplaceAll(s, [c], "")
    decreases |s|
  {
    if |s| >= 1 {
      DeleteCharRemovesIt(s[1..], c);
    }
  }

  /** Deleting a character keeps every other character absent that was absent. */
  lemma {:induction false} DeleteCharKeepsAbsent(s: string, c: char, d: char)
    requires d !in s
    ensures d !in ReplaceAll(s, [c], "")
    decreases |s|
  {
    if |s| >= 1 {
      DeleteCharKeepsAbsent(s[1..], c, d);
    }
  }

  /** A string lacking the first character of `t` does not contain `t`. */
  lemma {:induction false} NotContainsHead(s: string, t: string)
    requires |t| > 0 && t[0] !in s
    ensures !Contains(s, t)
    decreases |s|
  {
    if |s| > 0 {
      assert s[0] in s;
      assert forall x :: x in s[1..] ==> x in s;
      NotContainsHead(s[1..], t);
    }
  }

  /** A string without the separator is a single piece. */
  lemma {:induction false} SplitAllAbsent(s: string, sep: string)
    requires |sep| > 0 && !Contains(s, sep)
    ensures SplitAll(s, sep) == [s]
    decreases |s|
  {
    if |s| >= |sep| {
      SplitAllAbsent(s[1..], sep);
      assert [s[0]] + s[1..] == s;
    }
  }

  /**
   * One separator after a prefix that cannot start it: the prefix is the first piece and the
   * rest is split on its own.
   */
  lemma {:induction false} SplitAfterPrefix(p: string, sep: string, q: string)
    requires |sep| > 0 && sep[0] !in p
    ensures SplitAll(p + sep + q, sep) == [p] + SplitAll(q, sep)
    decreases |p|
  {
    var s := p + sep + q;
    if |p| == 0 {
      assert s == sep + q;
      assert s[..|sep|] == sep;
      assert s[|sep|..] == q;
    } else {
      assert s[0] == p[0] && p[0] in p;
      assert forall x :: x in p[1..] ==> x in p;
      SplitAllSkip(s, sep);
      assert s[1..] == p[1..] + sep + q;
      SplitAfterPrefix(p[1..], sep, q);
      assert [p[0]] + p[1..] == p;
    }
  }

  // ---------------------------------------------------------------------------
  // case

  function LowerChar(c: char): char {
    if 'A' <= c <= 'Z' then (c as int - 'A' as int + 'a' as int) as char else c
  }

  /** `s.toLowerCase()` for ASCII letters. */
  function ToLower(s: string): (r: string)
    ensures |r| == |s|
    ensures forall i :: 0 <= i < |s| ==> r[i] == LowerChar(s[i])
  {
    seq(|s|, i requires 0 <= i < |s| => LowerChar(s[i]))
  }

  /** No upper-case ASCII letter occurs in the string. */
  predicate IsLower(s: string) {
    forall i :: 0 <= i < |s| ==> !('A' <= s[i] <= 'Z')
  }

  lemma ToLowerIsLower(s: string)
    ensures IsLower(ToLower(s))
  {
  }

  /** `a.equalsIgnoreCase(b)` for ASCII strings. */
  predicate EqualsIgnoreCase(a: string, b: string) {
    ToLower(a) == ToLower(b)
  }

  // ---------------------------------------------------------------------------
  // Integer.parseInt and Integer.toString

  const INT_MIN: int := -0x8000_0000
  const INT_MAX: int := 0x7fff_ffff

  predicate IsDigit(c: char) {
    '0' <= c <= '9'
  }

  predicate AllDigits(s: string) {
    forall i :: 0 <= i < |s| ==> IsDigit(s[i])
  }

  /** The value of a string of decimal digits. */
  function DigitsValue(s: string): nat
    requires AllDigits(s)
    decreases |s|
  {
    if |s| == 0 then 0 else DigitsValue(s[..|s| - 1]) * 10 + (s[|s| - 1] as int - '0' as int)
  }

  /**
   * `Integer.parseInt(s)`: an optional '+' or '-', then one or more ASCII digits whose
   * value lies in the 32-bit range; `None` is the NumberFormatException.
   */
  function ParseInt(s: string): (r: Option<int>)
    ensures r.Some? ==> INT_MIN <= r.value <= INT_MAX
    ensures r.Some? ==> |s| > 0 && (IsDigit(s[0]) || ((s[0] == '-' || s[0] == '+') && |s| > 1))
  {
    if |s| == 0 then None
    else
      var signed := s[0] == '-' || s[0] == '+';
      var digits := if signed then s[1..] else s;
      if |digits| == 0 || !AllDigits(digits) then None
      else
        var magnitude: int := DigitsValue(digits);
        var v: int := if s[0] == '-' then -magnitude else magnitude;
        if INT_MIN <= v <= INT_MAX then Some(v) else None
  }

  function DigitChar(d: nat): char
    requires d < 10
  {
    ('0' as int + d) as char
  }

  /** `Integer.toString(n)` for a non-negative n: decimal digits without leading zeros. */
  function NatToString(n: nat): (r: string)
    ensures |r| > 0 && AllDigits(r)
    decreases n
  {
    if n < 10 then [DigitChar(n)] else NatToString(n / 10) + [DigitChar(n % 10)]
  }

  /** `Integer.toString(v)`. */
  function IntToString(v: int): string {
    if v < 0 then "-" + NatToString(-v) else NatToString(v)
  }

  lemma {:induction false} DigitsOfNat(n: nat)
    ensures DigitsValue(NatToString(n)) == n
    decreases n
  {
    var r := NatToString(n);
    if n >= 10 {
      DigitsOfNat(n / 10);
      assert r[..|r| - 1] == NatToString(n / 10);
    }
  }

  /** Printing an int and parsing it back gives the same int. */
  lemma IntToStringParses(v: int)
    requires INT_MIN <= v <= INT_MAX
    ensures ParseInt(IntToString(v)) == Some(v)
  {
    if v < 0 {
      DigitsOfNat(-v);
      assert IntToString(v)[1..] == NatToString(-v);
    } else {
      DigitsOfNat(v);
    }
  }
}
