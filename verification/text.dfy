/** Python string primitives used by the modelled code: whitespace, `strip`,
    `split`, `lower`, `in`, `startswith`/`endswith`, `str(n)`, `int(s)` on
    digit strings, and `sep.join` / `s.split(sep)`.  A Python `str` is a
    sequence of code points, which is what a Dafny `string` is. */
module Text {
  import opened Seqs

  /** Python's `str.isspace`; `re`'s `\s`, `str.split()` and `str.strip()`
      use the same set of characters. */
  predicate IsSpace(c: char) {
    || '\t' <= c <= '\r'
    || '\U{1C}' <= c <= ' '
    || c == '\U{85}' || c == '\U{A0}' || c == '\U{1680}'
    || '\U{2000}' <= c <= '\U{200A}'
    || c == '\U{2028}' || c == '\U{2029}' || c == '\U{202F}'
    || c == '\U{205F}' || c == '\U{3000}'
  }

  predicate NoSpace(s: string) {
    forall i :: 0 <= i < |s| ==> !IsSpace(s[i])
  }

  predicate StartsWith(s: string, prefix: string) {
    |prefix| <= |s| && s[..|prefix|] == prefix
  }

  predicate EndsWith(s: string, suffix: string) {
    |suffix| <= |s| && s[|s| - |suffix|..] == suffix
  }

  /** `sub` occurs in `s` starting at index `i`. */
  predicate OccursAt(s: string, sub: string, i: nat) {
    i + |sub| <= |s| && s[i..i + |sub|] == sub
  }

  /** Python's `sub in s`. */
  predicate Contains(s: string, sub: string) {
    exists i: nat :: i <= |s| - |sub| && OccursAt(s, sub, i)
  }

  // ---------------------------------------------------------------- strip

  /** How many whitespace characters `s` starts with. */
  function LeadingSpaces(s: string): (n: nat)
    ensures n <= |s|
    ensures forall k :: 0 <= k < n ==> IsSpace(s[k])
    ensures n < |s| ==> !IsSpace(s[n])
    decreases |s|
  {
    if |s| == 0 || !IsSpace(s[0]) then 0 else 1 + LeadingSpaces(s[1..])
  }

  /** How many whitespace characters `s` ends with. */
  function TrailingSpaces(s: string): (n: nat)
    ensures n <= |s|
    ensures forall k :: |s| - n <= k < |s| ==> IsSpace(s[k])
    ensures n < |s| ==> !IsSpace(s[|s| - 1 - n])
    decreases |s|
  {
    if |s| == 0 || !IsSpace(s[|s| - 1]) then 0 else 1 + TrailingSpaces(s[..|s| - 1])
  }

  /** `s.lstrip()`. */
  function LStrip(s: string): string {
    s[LeadingSpaces(s)..]
  }

  /** `s.strip()`: the slice of `s` between its leading and its trailing
      whitespace, or `""` when `s` is all whitespace. */
  function Strip(s: string): (r: string)
    ensures |r| <= |s|
    ensures |r| > 0 ==> !IsSpace(r[0]) && !IsSpace(r[|r| - 1])
  {
    var i := LeadingSpaces(s);
    if i == |s| then "" else s[i..|s| - TrailingSpaces(s)]
  }

  /** Stripping a string without whitespace changes nothing. */
  lemma StripNoSpace(s: string)
    requires NoSpace(s)
    ensures Strip(s) == s
  {
    if |s| > 0 {
      assert LeadingSpaces(s) == 0;
      assert TrailingSpaces(s) == 0;
    }
  }

  // ---------------------------------------------------------------- split

  /** The length of the maximal whitespace-free prefix of `s`. */
  function WordLength(s: string): (n: nat)
    ensures n <= |s|
    ensures forall k :: 0 <= k < n ==> !IsSpace(s[k])
    ensures n < |s| ==> IsSpace(s[n])
    decreases |s|
  {
    if |s| == 0 || IsSpace(s[0]) then 0 else 1 + WordLength(s[1..])
  }

  /** `s.split()` with no separator: the maximal runs of non-whitespace
      characters, in order; whitespace at either end yields no empty token. */
  function Tokens(s: string): (ts: seq<string>)
    ensures forall k :: 0 <= k < |ts| ==> |ts[k]| > 0 && NoSpace(ts[k])
    decreases |s|
  {
    if |s| == 0 then []
    else if IsSpace(s[0]) then Tokens(s[1..])
    else
      var n := WordLength(s);
      [s[..n]] + Tokens(s[n..])
  }

  /** An independent count of the maximal non-whitespace runs of `s`: a
      left-to-right scan that counts each non-whitespace character whose
      predecessor is whitespace or absent (`inRun` says whether the
      character before `s` was non-whitespace). */
  function RunCount(s: string, inRun: bool): nat
    decreases |s|
  {
    if |s| == 0 then 0
    else (if !IsSpace(s[0]) && !inRun then 1 else 0) + RunCount(s[1..], !IsSpace(s[0]))
  }

  /** Scanning through a word while already inside a run counts nothing. */
  lemma {:induction false} RunCountWord(s: string)
    ensures RunCount(s, true) == RunCount(s[WordLength(s)..], false)
    decreases |s|
  {
    if |s| > 0 && !IsSpace(s[0]) {
      RunCountWord(s[1..]);
      assert s[1..][WordLength(s[1..])..] == s[WordLength(s)..];
    }
  }

  /** `len(s.split())` is the number of maximal non-whitespace runs. */
  lemma {:induction false} TokensCountRuns(s: string)
    ensures |Tokens(s)| == RunCount(s, false)
    decreases |s|
  {
    if |s| > 0 {
      if IsSpace(s[0]) {
        TokensCountRuns(s[1..]);
      } else {
        var n := WordLength(s);
        TokensCountRuns(s[n..]);
        RunCountWord(s[1..]);
        assert s[1..][WordLength(s[1..])..] == s[n..];
      }
    }
  }

  /** An empty or all-whitespace string has no tokens. */
  lemma {:induction false} TokensAllSpace(s: string)
    requires forall i :: 0 <= i < |s| ==> IsSpace(s[i])
    ensures Tokens(s) == []
    decreases |s|
  {
    if |s| > 0 {
      TokensAllSpace(s[1..]);
    }
  }

  /** Leading whitespace contributes no tokens. */
  lemma {:induction false} TokensLStrip(s: string)
    ensures Tokens(LStrip(s)) == Tokens(s)
    decreases |s|
  {
    if |s| > 0 && IsSpace(s[0]) {
      TokensLStrip(s[1..]);
      assert s[1..][LeadingSpaces(s[1..])..] == s[LeadingSpaces(s)..];
    }
  }

  /** The word at the front of `a + b` stops inside `a` unless `a` is all word. */
  lemma {:induction false} WordLengthConcat(a: string, b: string)
    ensures WordLength(a + b) == if WordLength(a) < |a| then WordLength(a) else |a| + WordLength(b)
    decreases |a|
  {
    if |a| == 0 {
      assert a + b == b;
    } else if !IsSpace(a[0]) {
      DropConcat(a, b, 1);
      WordLengthConcat(a[1..], b);
    }
  }

  /** Tokens of two strings joined at a whitespace boundary are the tokens
      of each, in order. */
  lemma {:induction false} TokensConcat(a: string, b: string)
    requires |a| == 0 || |b| == 0 || IsSpace(a[|a| - 1]) || IsSpace(b[0])
    ensures Tokens(a + b) == Tokens(a) + Tokens(b)
    decreases |a|, 1
  {
    if |a| == 0 {
      assert a + b == b;
    } else if IsSpace(a[0]) {
      TokensConcatSpace(a, b);
    } else if WordLength(a) < |a| {
      TokensConcatWord(a, b);
    } else {
      assert !IsSpace(a[|a| - 1]);
      TokensWholeWord(a, b);
    }
  }

  /** `TokensConcat` when `a` starts with whitespace. */
  lemma {:induction false} TokensConcatSpace(a: string, b: string)
    requires |a| > 0 && IsSpace(a[0])
    requires |b| == 0 || IsSpace(a[|a| - 1]) || IsSpace(b[0])
    ensures Tokens(a + b) == Tokens(a) + Tokens(b)
    decreases |a|, 0
  {
    var rest := a[1..];
    assert |rest| == 0 || rest[|rest| - 1] == a[|a| - 1];
    TokensSpaceFront(a, b);
    TokensConcat(rest, b);
  }

  /** `TokensConcat` when `a` starts with a word that ends inside it. */
  lemma {:induction false} TokensConcatWord(a: string, b: string)
    requires |a| > 0 && !IsSpace(a[0]) && WordLength(a) < |a|
    requires |b| == 0 || IsSpace(a[|a| - 1]) || IsSpace(b[0])
    ensures Tokens(a + b) == Tokens(a) + Tokens(b)
    decreases |a|, 0
  {
    var n := WordLength(a);
    var rest := a[n..];
    assert |rest| > 0 && rest[|rest| - 1] == a[|a| - 1];
    TokensFrontWord(a, b, n);
    TokensConcat(rest, b);
  }

  /** Leading whitespace of `a` is skipped in `a + b` as in `a`. */
  lemma TokensSpaceFront(a: string, b: string)
    requires |a| > 0 && IsSpace(a[0])
    ensures Tokens(a + b) == Tokens(a[1..] + b)
    ensures Tokens(a) == Tokens(a[1..])
  {
    DropConcat(a, b, 1);
  }

  /** A word that ends inside `a` is the first token of `a + b`. */
  lemma TokensFrontWord(a: string, b: string, n: nat)
    requires |a| > 0 && !IsSpace(a[0]) && n == WordLength(a) && n < |a|
    ensures Tokens(a + b) == [a[..n]] + Tokens(a[n..] + b)
    ensures Tokens(a) == [a[..n]] + Tokens(a[n..])
  {
    WordLengthConcat(a, b);
    assert (a + b)[..n] == a[..n];
    DropConcat(a, b, n);
  }

  /** A string that is one whole word, followed by a string starting with
      whitespace, gives that word and then the tokens of the rest. */
  lemma TokensWholeWord(a: string, b: string)
    requires |a| > 0 && !IsSpace(a[0]) && WordLength(a) == |a|
    requires |b| == 0 || IsSpace(b[0])
    ensures Tokens(a + b) == Tokens(a) + Tokens(b)
  {
    var s := a + b;
    assert WordLength(b) == 0;
    WordLengthConcat(a, b);
    assert s[0] == a[0];
    assert s[..|a|] == a && s[|a|..] == b;
    assert Tokens(s) == [a] + Tokens(b);
    assert a[..|a|] == a && a[|a|..] == [];
    assert Tokens(a) == [a];
  }

  /** Whitespace at either end contributes no tokens. */
  lemma TokensStrip(s: string)
    ensures Tokens(Strip(s)) == Tokens(s)
  {
    var i := LeadingSpaces(s);
    TokensLStrip(s);
    if i == |s| {
      TokensAllSpace(s);
    } else {
      TokensStripInner(s, i, TrailingSpaces(s));
    }
  }

  /** The stripped slice has the tokens of `s` with only its front stripped. */
  lemma TokensStripInner(s: string, i: nat, t: nat)
    requires i == LeadingSpaces(s) < |s| && t == TrailingSpaces(s)
    ensures Tokens(Strip(s)) == Tokens(s[i..])
  {
    var j := StripSlice(s, i, t);
    TokensDropTrailing(s[i..], j);
  }

  /** `Strip(s)` is a prefix of `s[i..]` followed there by whitespace only. */
  lemma StripSlice(s: string, i: nat, t: nat) returns (j: nat)
    requires i == LeadingSpaces(s) < |s| && t == TrailingSpaces(s)
    ensures j <= |s[i..]| && s[i..][..j] == Strip(s)
    ensures forall k :: j <= k < |s[i..]| ==> IsSpace(s[i..][k])
  {
    var l := s[i..];
    j := |s| - t - i;
    assert l[..j] == s[i..|s| - t];
    forall k | j <= k < |l|
      ensures IsSpace(l[k])
    {
      assert l[k] == s[i + k];
    }
  }

  /** Trailing whitespace contributes no tokens. */
  lemma TokensDropTrailing(l: string, j: nat)
    requires j <= |l|
    requires forall k :: j <= k < |l| ==> IsSpace(l[k])
    ensures Tokens(l[..j]) == Tokens(l)
  {
    var w, t := l[..j], l[j..];
    assert l == w + t;
    SpaceSuffix(l, j);
    TokensAllSpace(t);
    assert |t| == 0 || IsSpace(t[0]);
    TokensConcat(w, t);
    assert Tokens(w) + [] == Tokens(w);
  }

  lemma SpaceSuffix(l: string, j: nat)
    requires j <= |l|
    requires forall k :: j <= k < |l| ==> IsSpace(l[k])
    ensures forall k :: 0 <= k < |l[j..]| ==> IsSpace(l[j..][k])
  {
    forall k | 0 <= k < |l[j..]|
      ensures IsSpace(l[j..][k])
    {
      assert l[j..][k] == l[j + k];
    }
  }

  // ---------------------------------------------------------------- lower

  /** Python's `str.lower` on one character, for the characters whose lower
      case is an ASCII letter: `A`-`Z` and U+212A KELVIN SIGN (which lowers to
      `k`).  Every other character is left as it is. */
  function LowerChar(c: char): char {
    if 'A' <= c <= 'Z' then (c as int + 32) as char
    else if c == '\U{212A}' then 'k'
    else c
  }

  function Lower(s: string): (r: string)
    ensures |r| == |s|
    ensures forall i :: 0 <= i < |s| ==> r[i] == LowerChar(s[i])
  {
    seq(|s|, i requires 0 <= i < |s| => LowerChar(s[i]))
  }

  // ---------------------------------------------------------------- numbers

  predicate IsDigit(c: char) {
    '0' <= c <= '9'
  }

  predicate AllDigits(s: string) {
    forall i :: 0 <= i < |s| ==> IsDigit(s[i])
  }

  function DigitChar(d: nat): (c: char)
    requires d < 10
    ensures IsDigit(c) && c as int - '0' as int == d
  {
    ('0' as int + d) as char
  }

  function DigitValue(c: char): (d: nat)
    requires IsDigit(c)
    ensures d < 10
  {
    c as int - '0' as int
  }

  /** Python's `str(n)` (and `f"{n}"`) for a natural number: its decimal
      digits without leading zeros. */
  function NatStr(n: nat): (s: string)
    ensures |s| > 0 && AllDigits(s)
    ensures |s| > 1 ==> s[0] != '0'
    decreases n
  {
    if n < 10 then [DigitChar(n)] else NatStr(n / 10) + [DigitChar(n % 10)]
  }

  /** The value of a string of decimal digits (leading zeros allowed). */
  function ParseNat(s: string): nat
    requires AllDigits(s)
    decreases |s|
  {
    if |s| == 0 then 0 else 10 * ParseNat(s[..|s| - 1]) + DigitValue(s[|s| - 1])
  }

  /** Decimal rendering is undone by parsing. */
  lemma {:induction false} ParseNatStr(n: nat)
    ensures ParseNat(NatStr(n)) == n
    decreases n
  {
    if n >= 10 {
      var s := NatStr(n);
      assert s[..|s| - 1] == NatStr(n / 10);
      ParseNatStr(n / 10);
    }
  }

  // ---------------------------------------------------------------- join / split

  /** Python's `sep.join(parts)`. */
  function Join(sep: string, parts: seq<string>): string
    decreases |parts|
  {
    if |parts| == 0 then ""
    else if |parts| == 1 then parts[0]
    else parts[0] + sep + Join(sep, parts[1..])
  }

  /** Joining a piece in front of at least one more. */
  lemma JoinCons(sep: string, x: string, parts: seq<string>)
    requires |parts| >= 1
    ensures Join(sep, [x] + parts) == x + sep + Join(sep, parts)
  {
    assert ([x] + parts)[1..] == parts;
  }

  /** Python's `s.split(c)` for a one-character separator: the pieces
      between separators, always at least one (`"".split(c) == [""]`). */
  function SplitOn(c: char, s: string): (r: seq<string>)
    ensures |r| >= 1
    decreases |s|
  {
    if |s| == 0 then [""]
    else
      var rest := SplitOn(c, s[1..]);
      if s[0] == c then [""] + rest else [[s[0]] + rest[0]] + rest[1..]
  }

  /** A piece with no separator in it splits off as one piece. */
  lemma {:induction false} SplitOnPrefix(c: char, a: string, b: string)
    requires c !in a
    ensures SplitOn(c, a + [c] + b) == [a] + SplitOn(c, b)
    ensures SplitOn(c, a) == [a]
    decreases |a|
  {
    if |a| > 0 {
      assert (a + [c] + b)[1..] == a[1..] + [c] + b;
      SplitOnPrefix(c, a[1..], b);
      assert [a[0]] + a[1..] == a;
    } else {
      assert a + [c] + b == [c] + b;
      assert ([c] + b)[1..] == b;
    }
  }

  /** Splitting on the separator undoes joining with it, as long as there is
      at least one piece and no piece contains the separator. */
  lemma {:induction false} SplitJoin(c: char, parts: seq<string>)
    requires |parts| >= 1
    requires forall k :: 0 <= k < |parts| ==> c !in parts[k]
    ensures SplitOn(c, Join([c], parts)) == parts
    decreases |parts|
  {
    if |parts| == 1 {
      SplitOnPrefix(c, parts[0], "");
    } else {
      SplitJoin(c, parts[1..]);
      SplitOnPrefix(c, parts[0], Join([c], parts[1..]));
      assert [parts[0]] + parts[1..] == parts;
    }
  }
}
