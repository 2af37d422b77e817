/** File names of saved research reports: `_sanitize_filename`, the name
    chosen by `save_report_to_file`, and the `.md` suffix test that
    `delete_report` applies (`pathlib`'s `PurePath.suffix`). */
module FileNames {
  import opened Wrappers
  import opened Seqs
  import opened Text

  /** The longest sanitized topic kept in a file name. */
  const MaxNameLength: nat := 50

  /** The characters `_sanitize_filename` replaces by `_`. */
  predicate IsIllegal(c: char) {
    || c == '<' || c == '>' || c == ':' || c == '"' || c == '/'
    || c == '\\' || c == '|' || c == '?' || c == '*'
  }

  predicate NoIllegal(s: string) {
    forall i :: 0 <= i < |s| ==> !IsIllegal(s[i])
  }

  /** First step: every illegal character becomes `_`, all others stay. */
  function ReplaceIllegal(s: string): (r: string)
    ensures |r| == |s| && NoIllegal(r)
    ensures forall i :: 0 <= i < |s| && !IsIllegal(s[i]) ==> r[i] == s[i]
    ensures forall i :: 0 <= i < |s| && IsIllegal(s[i]) ==> r[i] == '_'
  {
    seq(|s|, i requires 0 <= i < |s| => if IsIllegal(s[i]) then '_' else s[i])
  }

  /** `re.sub(r'\s+', '_', s)`: every maximal run of whitespace becomes one `_`. */
  function CollapseSpaces(s: string): (r: string)
    ensures NoSpace(r)
    ensures |r| <= |s|
    decreases |s|
  {
    if |s| == 0 then ""
    else if IsSpace(s[0]) then "_" + CollapseSpaces(s[LeadingSpaces(s)..])
    else [s[0]] + CollapseSpaces(s[1..])
  }

  /** A string without whitespace has nothing to collapse. */
  lemma {:induction false} CollapseNoSpace(s: string)
    requires NoSpace(s)
    ensures CollapseSpaces(s) == s
    decreases |s|
  {
    if |s| > 0 {
      CollapseNoSpace(s[1..]);
      assert [s[0]] + s[1..] == s;
    }
  }

  /** The sanitized topic before truncation: illegal characters replaced,
      ends stripped, inner whitespace runs collapsed. */
  function Normalize(s: string): (r: string)
    ensures NoIllegal(r) && NoSpace(r)
  {
    var t := Strip(ReplaceIllegal(s));
    CollapseKeepsLegal(t);
    CollapseSpaces(t)
  }

  /** Collapsing only ever introduces `_`, so it introduces no illegal character. */
  lemma {:induction false} CollapseKeepsLegal(s: string)
    requires NoIllegal(s)
    ensures NoIllegal(CollapseSpaces(s))
    decreases |s|
  {
    if |s| > 0 {
      if IsSpace(s[0]) {
        CollapseKeepsLegal(s[LeadingSpaces(s)..]);
      } else {
        CollapseKeepsLegal(s[1..]);
      }
    }
  }

  /** `_sanitize_filename`: at most 50 characters, free of illegal characters
      and whitespace, and exactly the first `min(50, |Normalize(s)|)`
      characters of the normalized string. */
  function Sanitize(s: string): (r: string)
    ensures NoIllegal(r) && NoSpace(r)
    ensures |r| <= MaxNameLength
    ensures StartsWith(Normalize(s), r)
    ensures |r| == if |Normalize(s)| > MaxNameLength then MaxNameLength else |Normalize(s)|
  {
    var n := Normalize(s);
    if |n| > MaxNameLength then n[..MaxNameLength] else n
  }

  /** A name that is already clean and short enough is returned unchanged. */
  lemma SanitizeClean(s: string)
    requires NoIllegal(s) && NoSpace(s) && |s| <= MaxNameLength
    ensures Sanitize(s) == s
  {
    NormalizeClean(s);
  }

  lemma NormalizeClean(s: string)
    requires NoIllegal(s) && NoSpace(s)
    ensures Normalize(s) == s
  {
    assert ReplaceIllegal(s) == s by {
      ReplaceIllegalClean(s);
    }
    assert Strip(s) == s by {
      StripNoSpace(s);
    }
    CollapseNoSpace(s);
  }

  lemma ReplaceIllegalClean(s: string)
    requires NoIllegal(s)
    ensures ReplaceIllegal(s) == s
  {
    var r := ReplaceIllegal(s);
    assert forall i :: 0 <= i < |s| ==> r[i] == s[i];
  }

  /** Sanitizing is idempotent. */
  lemma SanitizeIdempotent(s: string)
    ensures Sanitize(Sanitize(s)) == Sanitize(s)
  {
    SanitizeClean(Sanitize(s));
  }

  /** Collapsing passes a whitespace-free prefix through unchanged. */
  lemma {:induction false} CollapseWord(w: string, x: string)
    requires NoSpace(w)
    ensures CollapseSpaces(w + x) == w + CollapseSpaces(x)
    decreases |w|
  {
    if |w| == 0 {
      assert w + x == x;
    } else {
      var wx := w + x;
      assert wx[0] == w[0] && !IsSpace(wx[0]);
      assert wx[1..] == w[1..] + x;
      CollapseWord(w[1..], x);
      var c := CollapseSpaces(x);
      assert [w[0]] + w[1..] == w;
      assert [w[0]] + (w[1..] + c) == ([w[0]] + w[1..]) + c;
    }
  }

  /** For a string without leading whitespace, collapsing the whitespace
      runs is joining its tokens with `_`, plus one `_` for trailing
      whitespace. */
  lemma {:induction false} CollapseIsJoin(u: string)
    requires |u| == 0 || !IsSpace(u[0])
    ensures CollapseSpaces(u) == Join("_", Tokens(u)) + TrailingMark(u)
    decreases |u|, 1
  {
    if |u| > 0 {
      var n := WordLength(u);
      var rest := u[n..];
      CollapseFirstWord(u);
      if |rest| == 0 {
        assert Tokens(u) == [u[..n]] by {
          assert Tokens(rest) == [];
        }
      } else if LeadingSpaces(rest) == |rest| {
        CollapseLastWord(u);
      } else {
        CollapseInnerWord(u);
      }
    }
  }

  /** One word followed by whitespace only. */
  lemma CollapseLastWord(u: string)
    requires |u| > 0 && !IsSpace(u[0])
    requires WordLength(u) < |u|
    requires LeadingSpaces(u[WordLength(u)..]) == |u| - WordLength(u)
    ensures CollapseSpaces(u) == Join("_", Tokens(u)) + TrailingMark(u)
  {
    var n := WordLength(u);
    var w, rest := u[..n], u[n..];
    CollapseFirstWord(u);
    assert CollapseSpaces(rest) == "_" by {
      assert rest[LeadingSpaces(rest)..] == [];
    }
    TokensAllSpace(rest);
    assert Tokens(u) == [w];
    assert Join("_", [w]) == w;
    assert TrailingMark(u) == "_" by {
      assert u[|u| - 1] == rest[|rest| - 1];
    }
  }

  /** One word, a whitespace run, then at least one more word. */
  lemma {:induction false} CollapseInnerWord(u: string)
    requires |u| > 0 && !IsSpace(u[0])
    requires WordLength(u) < |u|
    requires LeadingSpaces(u[WordLength(u)..]) < |u| - WordLength(u)
    ensures CollapseSpaces(u) == Join("_", Tokens(u)) + TrailingMark(u)
    decreases |u|, 0
  {
    var n := WordLength(u);
    var w, rest := u[..n], u[n..];
    var v := rest[LeadingSpaces(rest)..];
    CollapseFirstWord(u);
    assert CollapseSpaces(rest) == "_" + CollapseSpaces(v);
    TokensLStrip(rest);
    CollapseIsJoin(v);
    assert TrailingMark(v) == TrailingMark(u) by {
      assert v[|v| - 1] == u[|u| - 1];
    }
    var tv, m := Tokens(v), TrailingMark(u);
    JoinCons("_", w, tv);
    assert Tokens(u) == [w] + tv;
    var jv := Join("_", tv);
    assert CollapseSpaces(u) == w + ("_" + (jv + m));
    Regroup(w, "_", jv, m);
  }

  /** `_` when `u` ends in whitespace, which a collapse turns into a final `_`. */
  function TrailingMark(u: string): string {
    if |u| > 0 && IsSpace(u[|u| - 1]) then "_" else ""
  }

  /** Collapsing and splitting both take the first word of `u` off whole. */
  lemma CollapseFirstWord(u: string)
    requires |u| > 0 && !IsSpace(u[0])
    ensures CollapseSpaces(u) == u[..WordLength(u)] + CollapseSpaces(u[WordLength(u)..])
    ensures Tokens(u) == [u[..WordLength(u)]] + Tokens(u[WordLength(u)..])
  {
    CollapseWordPrefix(u);
  }

  lemma {:induction false} CollapseWordPrefix(u: string)
    requires |u| > 0 && !IsSpace(u[0])
    ensures CollapseSpaces(u) == u[..WordLength(u)] + CollapseSpaces(u[WordLength(u)..])
    decreases |u|, 1
  {
    var t := u[1..];
    if |t| == 0 || IsSpace(t[0]) {
      CollapseOneLetter(u);
    } else {
      CollapseWordStep(u);
    }
  }

  /** A word of one letter: collapsing keeps that letter. */
  lemma CollapseOneLetter(u: string)
    requires |u| > 0 && !IsSpace(u[0])
    requires |u| == 1 || IsSpace(u[1])
    ensures CollapseSpaces(u) == u[..WordLength(u)] + CollapseSpaces(u[WordLength(u)..])
  {
    assert WordLength(u) == 1;
    assert u[..1] == [u[0]];
  }

  /** A longer word: its first letter, then the rest of the word. */
  lemma {:induction false} CollapseWordStep(u: string)
    requires |u| > 1 && !IsSpace(u[0]) && !IsSpace(u[1])
    ensures CollapseSpaces(u) == u[..WordLength(u)] + CollapseSpaces(u[WordLength(u)..])
    decreases |u|, 0
  {
    var t := u[1..];
    var n := WordLength(u);
    var m := WordLength(t);
    CollapseWordPrefix(t);
    CollapseLetter(u);
    assert n == 1 + m;
    JoinWord(u, t, m, CollapseSpaces(t[m..]));
  }

  /** Collapsing passes a non-space first character through unchanged. */
  lemma CollapseLetter(u: string)
    requires |u| > 0 && !IsSpace(u[0])
    ensures CollapseSpaces(u) == [u[0]] + CollapseSpaces(u[1..])
  {
  }

  lemma JoinWord(u: string, t: string, m: nat, c: string)
    requires |u| > 0 && t == u[1..] && m <= |t|
    ensures [u[0]] + (t[..m] + c) == u[..m + 1] + c
    ensures t[m..] == u[m + 1..]
  {
    assert u[..m + 1] == [u[0]] + t[..m];
  }

  /** Normalizing a topic is `"_".join(ReplaceIllegal(s).split())`. */
  lemma NormalizeIsSplitJoin(s: string)
    ensures Normalize(s) == Join("_", Tokens(ReplaceIllegal(s)))
  {
    var t := ReplaceIllegal(s);
    CollapseIsJoin(Strip(t));
    TokensStrip(t);
  }

  // ------------------------------------------------------------ file name choice

  const ReportExtension := ".md"

  /** The file name `save_report_to_file` writes to.  A non-empty custom name
      is kept when it already ends in `.md` and otherwise gets `.md`
      appended; a missing or empty one (Python falsiness) gives
      `research_<sanitized topic>_<timestamp>.md`, where `stamp` is the
      report's creation time already formatted as `%Y%m%d_%H%M%S`. */
  function ChooseFilename(topic: string, stamp: string, custom: Option<string>): (name: string)
    ensures EndsWith(name, ReportExtension)
    ensures custom.Some? && custom.value != "" && EndsWith(custom.value, ReportExtension)
      ==> name == custom.value
    ensures custom.Some? && custom.value != "" && !EndsWith(custom.value, ReportExtension)
      ==> |name| == |custom.value| + 3 && StartsWith(name, custom.value)
    ensures (custom.None? || custom.value == "")
      ==> name == "research_" + Sanitize(topic) + "_" + stamp + ReportExtension
  {
    if custom.Some? && custom.value != "" then
      if EndsWith(custom.value, ReportExtension) then custom.value
      else
        var name := custom.value + ReportExtension;
        assert name[..|custom.value|] == custom.value;
        name
    else
      var name := "research_" + Sanitize(topic) + "_" + stamp + ReportExtension;
      assert name[|name| - 3..] == ReportExtension;
      name
  }

  // ------------------------------------------------------------ path suffix

  /** Python's `s.rfind(c)`: the last index of `c` in `s`, or -1. */
  function RFind(s: string, c: char): (i: int)
    ensures -1 <= i < |s|
    ensures i >= 0 ==> s[i] == c
    ensures forall k :: i < k < |s| ==> s[k] != c
    decreases |s|
  {
    if |s| == 0 then -1
    else if s[|s| - 1] == c then |s| - 1
    else RFind(s[..|s| - 1], c)
  }

  /** A path component that names no file: empty, or the single dot. */
  predicate Skipped(part: string) {
    |part| == 0 || (|part| == 1 && part[0] == '.')
  }

  /** `PurePosixPath(p).name`: the last component of `p`, where empty
      components (from repeated or trailing `/`) and `.` components are
      skipped; `""` when there is none.  `..` is kept as it is. */
  function LastPart(p: string): string
    decreases |p|
  {
    var i := RFind(p, '/');
    var tail := p[i + 1..];
    if !Skipped(tail) then tail
    else if i < 0 then ""
    else LastPart(p[..i])
  }

  predicate NoSlash(s: string) {
    forall k :: 0 <= k < |s| ==> s[k] != '/'
  }

  /** The last component holds no `/` and is either empty or a real name. */
  lemma {:induction false} LastPartShape(p: string)
    ensures NoSlash(LastPart(p))
    ensures |LastPart(p)| == 0 || !Skipped(LastPart(p))
    decreases |p|
  {
    var i := RFind(p, '/');
    if !Skipped(p[i + 1..]) {
      LastPartFound(p, i);
    } else if i >= 0 {
      LastPartEarlier(p, i);
      LastPartShape(p[..i]);
    }
  }

  /** A real name after the last `/` is the last component. */
  lemma LastPartFound(p: string, i: int)
    requires i == RFind(p, '/') && !Skipped(p[i + 1..])
    ensures LastPart(p) == p[i + 1..] && NoSlash(LastPart(p))
  {
    TailNoSlash(p, i);
  }

  /** An empty or `.` part after the last `/` is skipped. */
  lemma LastPartEarlier(p: string, i: int)
    requires i == RFind(p, '/') && Skipped(p[i + 1..]) && i >= 0
    ensures LastPart(p) == LastPart(p[..i])
  {
  }

  /** Nothing after the last `/` is a `/`. */
  lemma TailNoSlash(p: string, i: int)
    requires i == RFind(p, '/')
    ensures NoSlash(p[i + 1..])
  {
    var tail := p[i + 1..];
    forall k | 0 <= k < |tail|
      ensures tail[k] != '/'
    {
      assert tail[k] == p[i + 1 + k];
    }
  }

  /** The `name` of `Path(root) / filename`: the last component of
      `filename`, unless it has none, in which case an absolute `filename`
      names the file-system root (no name) and a relative one leaves `root`. */
  function PathName(root: string, filename: string): string {
    if |LastPart(filename)| > 0 then LastPart(filename)
    else if |filename| > 0 && filename[0] == '/' then ""
    else LastPart(root)
  }

  /** A name without `/` that is neither empty nor `.` is its own last component. */
  lemma PlainPathName(root: string, name: string)
    requires !Skipped(name) && NoSlash(name)
    ensures PathName(root, name) == name
  {
    assert RFind(name, '/') == -1;
    assert name[0..] == name;
  }

  /** The last component of a path that ends in a character other than `/`
      and `.` is everything after its last `/`. */
  lemma LastPartTail(p: string)
    requires |p| > 0 && p[|p| - 1] != '/' && p[|p| - 1] != '.'
    ensures LastPart(p) == p[RFind(p, '/') + 1..]
  {
  }

  /** `PurePath.suffix` of a single path component: from its last dot on,
      provided that dot is neither the first nor the last character;
      otherwise empty. */
  function PathSuffix(name: string): string {
    var i := RFind(name, '.');
    if 0 < i < |name| - 1 then name[i..] else ""
  }

  /** `(Path(root) / filename).suffix == '.md'`. */
  predicate HasReportSuffix(root: string, filename: string) {
    PathSuffix(PathName(root, filename)) == ReportExtension
  }

  /** A component has suffix `.md` exactly when it ends in `.md` and has at
      least one character before the dot; so `.md` alone has no suffix. */
  lemma ReportSuffixIff(name: string)
    ensures PathSuffix(name) == ReportExtension <==> EndsWith(name, ReportExtension) && |name| > 3
  {
    var i := RFind(name, '.');
    if EndsWith(name, ReportExtension) && |name| > 3 {
      assert name[|name| - 3] == '.';
      assert name[|name| - 2] == 'm' && name[|name| - 1] == 'd';
      assert i == |name| - 3;
    }
    if PathSuffix(name) == ReportExtension {
      assert 0 < i < |name| - 1;
      assert name[i..] == ".md";
    }
  }

  /** A file name ending in `.md` has suffix `.md` exactly when its last
      component is not `.md` itself: `x/.md` has none, `x/y.md` has one. */
  lemma ReportPathSuffixIff(root: string, filename: string)
    requires EndsWith(filename, ReportExtension)
    ensures HasReportSuffix(root, filename) <==> LastPart(filename) != ReportExtension
  {
    var tail := MarkdownTail(filename);
    ReportSuffixIff(tail);
    TailSuffixIff(tail);
  }

  /** The last component of a name ending in `.md` is a non-empty string
      ending in `.md`. */
  lemma MarkdownTail(filename: string) returns (tail: string)
    requires EndsWith(filename, ReportExtension)
    ensures tail == LastPart(filename) && EndsWith(tail, ReportExtension)
  {
    var n := |filename|;
    assert filename[n - 3..] == ".md";
    assert filename[n - 3] == '.' && filename[n - 2] == 'm' && filename[n - 1] == 'd';
    LastPartTail(filename);
    var i := RFind(filename, '/');
    assert i < n - 3;
    tail := filename[i + 1..];
    assert tail[|tail| - 3..] == filename[n - 3..];
  }

  lemma TailSuffixIff(tail: string)
    requires EndsWith(tail, ReportExtension)
    ensures |tail| > 3 <==> tail != ReportExtension
  {
    if |tail| == 3 {
      assert tail == tail[|tail| - 3..];
    }
  }
}
