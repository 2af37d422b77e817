/** The application runner (`run.py`): the dependency check that gates the
    start, and the resolution of the server configuration from environment
    variables. */
module Launcher {
  import opened Wrappers
  import opened Seqs
  import opened Text

  // ------------------------------------------------------------ dependencies

  /** A required module: the name to import and the package that provides it. */
  datatype Requirement = Requirement(importName: string, packageName: string)

  const RequiredModules: seq<Requirement> := [
    Requirement("fastapi", "fastapi"),
    Requirement("uvicorn", "uvicorn"),
    Requirement("jinja2", "jinja2"),
    Requirement("sqlalchemy", "sqlalchemy"),
    Requirement("langchain", "langchain"),
    Requirement("langchain_text_splitters", "langchain-text-splitters")
  ]

  /** The packages of the requirements whose module cannot be imported, in
      the order the requirements are listed. */
  function Missing(reqs: seq<Requirement>, importable: string -> bool): (missing: seq<string>)
    ensures |missing| <= |reqs|
  {
    if |reqs| == 0 then []
    else
      var last := reqs[|reqs| - 1];
      Missing(reqs[..|reqs| - 1], importable) + (if importable(last.importName) then [] else [last.packageName])
  }

  /** Nothing is missing exactly when every required module imports. */
  lemma {:induction false} MissingEmptyIff(reqs: seq<Requirement>, importable: string -> bool)
    ensures Missing(reqs, importable) == [] <==> forall k :: 0 <= k < |reqs| ==> importable(reqs[k].importName)
  {
    if |reqs| > 0 {
      var init := reqs[..|reqs| - 1];
      MissingEmptyIff(init, importable);
      assert forall k :: 0 <= k < |init| ==> init[k] == reqs[k];
    }
  }

  /** Every missing package belongs to a requirement whose module does not
      import. */
  lemma {:induction false} MissingAreUnimportable(reqs: seq<Requirement>, importable: string -> bool)
    ensures forall p :: p in Missing(reqs, importable) ==>
      exists k :: 0 <= k < |reqs| && reqs[k].packageName == p && !importable(reqs[k].importName)
  {
    if |reqs| > 0 {
      var init := reqs[..|reqs| - 1];
      MissingAreUnimportable(init, importable);
      assert forall k :: 0 <= k < |init| ==> init[k] == reqs[k];
    }
  }

  /** Conversely, the package of every requirement whose module does not
      import is listed. */
  lemma {:induction false} UnimportableAreMissing(reqs: seq<Requirement>, importable: string -> bool)
    ensures forall k :: 0 <= k < |reqs| && !importable(reqs[k].importName) ==>
      reqs[k].packageName in Missing(reqs, importable)
  {
    if |reqs| > 0 {
      var init := reqs[..|reqs| - 1];
      UnimportableAreMissing(init, importable);
      assert forall k :: 0 <= k < |init| ==> init[k] == reqs[k];
    }
  }

  /** `check_dependencies`: tries every required module in turn, where
      `importable` stands for `__import__` succeeding.  It reports success
      exactly when nothing is missing, and the missing packages in order. */
  method CheckDependencies(importable: string -> bool) returns (ok: bool, missing: seq<string>)
    ensures missing == Missing(RequiredModules, importable)
    ensures ok <==> forall k :: 0 <= k < |RequiredModules| ==> importable(RequiredModules[k].importName)
    ensures ok <==> missing == []
  {
    missing := [];
    var i := 0;
    while i < |RequiredModules|
      invariant 0 <= i <= |RequiredModules|
      invariant missing == Missing(RequiredModules[..i], importable)
    {
      var req := RequiredModules[i];
      assert RequiredModules[..i + 1][..i] == RequiredModules[..i];
      if !importable(req.importName) {
        missing := missing + [req.packageName];
      }
      i := i + 1;
    }
    assert RequiredModules[..i] == RequiredModules;
    MissingEmptyIff(RequiredModules, importable);
    ok := missing == [];
  }

  // ------------------------------------------------------------ integers

  /** `int(s)` on a string: surrounding whitespace is ignored, an optional
      sign, then decimal digits, which may be grouped by single
      underscores. */
  predicate DigitGroups(s: string) {
    && |s| > 0 && IsDigit(s[0]) && IsDigit(s[|s| - 1])
    && (forall i :: 0 <= i < |s| ==> IsDigit(s[i]) || s[i] == '_')
    && (forall i :: 0 <= i < |s| - 1 ==> s[i] == '_' ==> s[i + 1] != '_')
  }

  /** The digits of `s` with its underscores dropped. */
  function DropUnderscores(s: string): (r: string)
    ensures |r| <= |s|
    ensures (forall i :: 0 <= i < |s| ==> IsDigit(s[i]) || s[i] == '_') ==> AllDigits(r)
  {
    if |s| == 0 then ""
    else if s[0] == '_' then DropUnderscores(s[1..])
    else [s[0]] + DropUnderscores(s[1..])
  }

  lemma {:induction false} DropNoUnderscores(s: string)
    requires AllDigits(s)
    ensures DropUnderscores(s) == s
  {
    if |s| > 0 {
      DropNoUnderscores(s[1..]);
      assert [s[0]] + s[1..] == s;
    }
  }

  datatype LaunchError =
    | InvalidLiteral(text: string)
    | TooManyDigits(text: string)
    | MissingDependencies(packages: seq<string>)

  /** The longest decimal literal `int()` converts: CPython's default for
      `sys.get_int_max_str_digits()`.  Underscores do not count towards it;
      leading zeros do. */
  const MaxStrDigits: nat := 4300

  /** What follows an optional leading sign. */
  function Unsigned(t: string): (body: string)
    ensures |body| <= |t|
  {
    if |t| > 0 && (t[0] == '-' || t[0] == '+') then t[1..] else t
  }

  /** A literal too long for `int()` to convert. */
  predicate OverDigitLimit(t: string) {
    |DropUnderscores(Unsigned(t))| > MaxStrDigits
  }

  /** The value of an already stripped literal, `None` when it is not one
      or has more digits than `int()` converts. */
  function ParseLiteral(t: string): (r: Option<int>)
    ensures r.Some? <==> DigitGroups(Unsigned(t)) && !OverDigitLimit(t)
  {
    var body := Unsigned(t);
    if !DigitGroups(body) || |DropUnderscores(body)| > MaxStrDigits then None
    else
      var magnitude: int := ParseNat(DropUnderscores(body));
      Some(if |t| > 0 && t[0] == '-' then -magnitude else magnitude)
  }

  /** The whitespace `int()` strips from a literal.  Non-ASCII whitespace
      is first turned into spaces, but an ASCII character is kept as it is
      and stripped only when C's `isspace` holds for it, so the separators
      U+001C to U+001F are not stripped although `str.isspace()` holds. */
  predicate IntSpace(c: char) {
    || '\t' <= c <= '\r' || c == ' '
    || (c as int >= 128 && IsSpace(c))
  }

  lemma IntSpaceIsSpace(c: char)
    ensures IntSpace(c) ==> IsSpace(c)
  {
  }

  /** How many `int()` whitespace characters `s` starts with. */
  function IntLeading(s: string): (n: nat)
    ensures n <= |s|
    ensures forall k :: 0 <= k < n ==> IntSpace(s[k])
    ensures n < |s| ==> !IntSpace(s[n])
    decreases |s|
  {
    if |s| == 0 || !IntSpace(s[0]) then 0 else 1 + IntLeading(s[1..])
  }

  /** How many `int()` whitespace characters `s` ends with. */
  function IntTrailing(s: string): (n: nat)
    ensures n <= |s|
    ensures forall k :: |s| - n <= k < |s| ==> IntSpace(s[k])
    ensures n < |s| ==> !IntSpace(s[|s| - 1 - n])
    decreases |s|
  {
    if |s| == 0 || !IntSpace(s[|s| - 1]) then 0 else 1 + IntTrailing(s[..|s| - 1])
  }

  /** The text `int()` reads: `s` less its `int()` whitespace at both ends. */
  function IntStrip(s: string): (r: string)
    ensures |r| <= |s|
    ensures |r| > 0 ==> !IntSpace(r[0]) && !IntSpace(r[|r| - 1])
  {
    var i := IntLeading(s);
    if i == |s| then "" else s[i..|s| - IntTrailing(s)]
  }

  /** Text without any whitespace is read whole. */
  lemma IntStripNoSpace(s: string)
    requires NoSpace(s)
    ensures IntStrip(s) == s
  {
    if |s| > 0 {
      IntSpaceIsSpace(s[0]);
      IntSpaceIsSpace(s[|s| - 1]);
      assert IntLeading(s) == 0;
      assert IntTrailing(s) == 0;
    }
  }

  /** `int(s)` for a base-10 literal; anything else, and a literal over
      the digit limit, is a `ValueError`. */
  function ParseInt(s: string): (r: Result<int, LaunchError>)
    ensures r.Failure? <==> !DigitGroups(Unsigned(IntStrip(s))) || OverDigitLimit(IntStrip(s))
    ensures r.Failure? ==>
      r.error == if DigitGroups(Unsigned(IntStrip(s))) then TooManyDigits(s) else InvalidLiteral(s)
  {
    var t := IntStrip(s);
    match ParseLiteral(t)
    case None => Failure(if DigitGroups(Unsigned(t)) then TooManyDigits(s) else InvalidLiteral(s))
    case Some(v) => Success(v)
  }

  lemma DigitsAreGroups(d: string)
    requires |d| > 0 && AllDigits(d)
    ensures DigitGroups(d)
    ensures DropUnderscores(d) == d
  {
    DropNoUnderscores(d);
  }

  /** A run of digits within the limit is a literal, and so is its negation. */
  lemma LiteralDigits(d: string, v: int)
    requires 0 < |d| <= MaxStrDigits && AllDigits(d) && ParseNat(d) == v
    ensures ParseLiteral(d) == Some(v)
    ensures ParseLiteral("-" + d) == Some(-v)
  {
    DigitsAreGroups(d);
    LiteralOf(d, d, v);
    var n := "-" + d;
    assert n[0] == '-' && n[1..] == d;
    LiteralOf(n, d, v);
  }

  /** The value of a literal whose unsigned part is `body`. */
  lemma LiteralOf(t: string, body: string, m: int)
    requires Unsigned(t) == body && DigitGroups(body) && |DropUnderscores(body)| <= MaxStrDigits
    requires ParseNat(DropUnderscores(body)) == m
    ensures ParseLiteral(t) == Some(if |t| > 0 && t[0] == '-' then -m else m)
  {
  }

  /** Text that strips to a literal parses to its value. */
  lemma ParseStripped(s: string, t: string, v: int)
    requires IntStrip(s) == t && ParseLiteral(t) == Some(v)
    ensures ParseInt(s) == Success(v)
  {
  }

  lemma DigitsNoSpace(d: string)
    requires AllDigits(d)
    ensures NoSpace(d) && NoSpace("-" + d)
  {
    assert forall i :: 0 <= i < |d| ==> IsDigit(d[i]);
  }

  /** A plain run of digits within the limit, signed or not, parses to its value. */
  lemma ParseIntDigits(d: string, v: int)
    requires 0 < |d| <= MaxStrDigits && AllDigits(d) && ParseNat(d) == v
    ensures ParseInt(d) == Success(v)
    ensures ParseInt("-" + d) == Success(-v)
    ensures ParseInt(" " + d + "\n") == Success(v)
  {
    LiteralDigits(d, v);
    DigitsNoSpace(d);
    PlainDigits(d, v);
    NegatedDigits(d, v);
    PaddedDigits(d, v);
  }

  lemma PlainDigits(d: string, v: int)
    requires NoSpace(d) && ParseLiteral(d) == Some(v)
    ensures ParseInt(d) == Success(v)
  {
    IntStripNoSpace(d);
  }

  lemma NegatedDigits(d: string, v: int)
    requires NoSpace("-" + d) && ParseLiteral("-" + d) == Some(-v)
    ensures ParseInt("-" + d) == Success(-v)
  {
    IntStripNoSpace("-" + d);
  }

  lemma PaddedDigits(d: string, v: int)
    requires |d| > 0 && NoSpace(d) && ParseLiteral(d) == Some(v)
    ensures ParseInt(" " + d + "\n") == Success(v)
  {
    PaddedStrip(d);
  }

  /** The decimal rendering of a number parses back to it, with or without
      surrounding whitespace and a sign, as long as it has at most
      `MaxStrDigits` digits; a longer rendering is refused. */
  lemma ParseIntNatStr(n: nat)
    ensures |NatStr(n)| <= MaxStrDigits ==>
      && ParseInt(NatStr(n)) == Success(n)
      && ParseInt("-" + NatStr(n)) == Success(-(n as int))
      && ParseInt(" " + NatStr(n) + "\n") == Success(n)
    ensures |NatStr(n)| > MaxStrDigits ==> ParseInt(NatStr(n)) == Failure(TooManyDigits(NatStr(n)))
  {
    var d := NatStr(n);
    if |d| <= MaxStrDigits {
      RenderedNat(n, d);
    } else {
      DigitsTooLong(d);
    }
  }

  /** A run of digits past the limit is a well-formed literal that `int()` refuses. */
  lemma DigitsTooLong(d: string)
    requires |d| > MaxStrDigits && AllDigits(d)
    ensures ParseInt(d) == Failure(TooManyDigits(d))
  {
    DigitsShape(d);
    DigitsOverLimit(d);
    LiteralTooLong(d);
  }

  lemma DigitsShape(d: string)
    requires |d| > 0 && AllDigits(d)
    ensures NoSpace(d) && Unsigned(d) == d && DigitGroups(d)
  {
    DigitsAreGroups(d);
    DigitsNoSpace(d);
    assert IsDigit(d[0]);
  }

  lemma DigitsOverLimit(d: string)
    requires |d| > MaxStrDigits && AllDigits(d)
    ensures OverDigitLimit(d)
  {
    DropDigitsLength(d);
    assert IsDigit(d[0]);
    assert Unsigned(d) == d;
  }

  /** Dropping the underscores of a run of digits drops nothing. */
  lemma {:induction false} DropDigitsLength(s: string)
    requires AllDigits(s)
    ensures |DropUnderscores(s)| == |s|
  {
    if |s| > 0 {
      assert IsDigit(s[0]);
      DropDigitsLength(s[1..]);
    }
  }

  lemma LiteralTooLong(d: string)
    requires NoSpace(d) && DigitGroups(Unsigned(d)) && OverDigitLimit(d)
    ensures ParseInt(d) == Failure(TooManyDigits(d))
  {
    IntStripNoSpace(d);
  }

  lemma RenderedNat(n: nat, d: string)
    requires d == NatStr(n) && |d| <= MaxStrDigits
    ensures ParseInt(d) == Success(n)
    ensures ParseInt("-" + d) == Success(-(n as int))
    ensures ParseInt(" " + d + "\n") == Success(n)
  {
    ParseNatStr(n);
    ParseIntDigits(d, n);
  }

  lemma PaddedStrip(d: string)
    requires |d| > 0 && NoSpace(d)
    ensures IntStrip(" " + d + "\n") == d
  {
    var s := " " + d + "\n";
    IntSpaceIsSpace(s[1]);
    IntSpaceIsSpace(s[|s| - 2]);
    assert IntLeading(s) == 1 by {
      assert !IntSpace(s[1]);
    }
    assert IntTrailing(s) == 1 by {
      assert !IntSpace(s[|s| - 2]);
    }
    assert s[1..|s| - 1] == d;
  }

  /** An information separator (U+001C) around a port is not stripped, so
      `int()` refuses it, while an ideographic space (U+3000) is stripped. */
  lemma SeparatorNotStripped()
    ensures ParseInt("\U{1C}8000\U{1C}").Failure?
    ensures ResolveConfig(map["PORT" := "\U{1C}8000\U{1C}"]).Failure?
    ensures ParseInt("\U{3000}8000") == Success(8000)
  {
    var f := "\U{1C}8000\U{1C}";
    var env: Env := map["PORT" := f];
    assert GetEnv(env, "PORT", DefaultPort) == f;
    assert !IntSpace(f[0]) && !IntSpace(f[|f| - 1]);
    assert IntStrip(f) == f;
    assert Unsigned(f) == f;
    IdeographicPadding();
  }

  lemma IdeographicPadding()
    ensures ParseInt("\U{3000}8000") == Success(8000)
  {
    var p := "\U{3000}8000";
    assert IntSpace(p[0]) && !IntSpace(p[1]);
    assert IntLeading(p) == 1;
    assert IntTrailing(p) == 0;
    assert IntStrip(p) == "8000";
    PortLiteral();
    LiteralDigits("8000", 8000);
    ParseStripped(p, "8000", 8000);
  }

  /** Digit groups separated by single underscores read as the digits
      alone, as in `int("8_000") == 8000`; doubled, leading or no digits
      fail. */
  lemma GroupedDigits()
    ensures ParseInt("8_000") == Success(8000)
    ensures ParseInt("8__000").Failure? && ParseInt("_8000").Failure? && ParseInt("").Failure?
  {
    GroupedLiteral();
    DoubledUnderscore();
    LeadingUnderscore();
  }

  lemma GroupedLiteral()
    ensures ParseInt("8_000") == Success(8000)
  {
    var g := "8_000";
    assert NoSpace(g);
    GroupedShape();
    GroupedDrop();
    PortLiteral();
    LiteralOf(g, g, 8000);
    PlainDigits(g, 8000);
  }

  lemma GroupedShape()
    ensures Unsigned("8_000") == "8_000" && DigitGroups("8_000")
  {
  }

  lemma GroupedDrop()
    ensures DropUnderscores("8_000") == "8000"
  {
    var g := "8_000";
    DropNoUnderscores("000");
    assert g[1..] == "_000" && "_000"[1..] == "000";
  }

  lemma DoubledUnderscore()
    ensures ParseInt("8__000").Failure?
  {
    var g := "8__000";
    assert NoSpace(g);
    IntStripNoSpace(g);
    assert Unsigned(g) == g;
    assert g[1] == '_' && g[2] == '_';
  }

  lemma LeadingUnderscore()
    ensures ParseInt("_8000").Failure?
  {
    var g := "_8000";
    assert NoSpace(g);
    IntStripNoSpace(g);
    assert Unsigned(g) == g;
  }

  /** The default port literal. */
  lemma PortLiteral()
    ensures ParseNat("8000") == 8000
  {
    assert "8000"[..3] == "800" && "800"[..2] == "80" && "80"[..1] == "8";
  }

  // ------------------------------------------------------------ environment

  type Env = map<string, string>

  /** `os.getenv(name, default)`. */
  function GetEnv(env: Env, name: string, default: string): string {
    if name in env then env[name] else default
  }

  /** A boolean flag: its lower-cased value is one of four spellings. */
  predicate IsTruthy(v: string) {
    var l := Lower(v);
    l == "true" || l == "1" || l == "yes" || l == "on"
  }

  /** The keyword arguments `main` passes to `uvicorn.run`. */
  datatype LaunchConfig = LaunchConfig(
    app: string, host: string, port: int, reload: bool, logLevel: string, accessLog: bool)

  const AppPath := "landppt.main:app"
  const DefaultHost := "0.0.0.0"
  const DefaultPort := "8000"

  /** The configuration `main` builds from the environment.  A `PORT` that
      is not an integer literal makes `int()` raise, which ends the run. */
  function ResolveConfig(env: Env): (r: Result<LaunchConfig, LaunchError>)
    ensures r.Failure? <==> ParseInt(GetEnv(env, "PORT", DefaultPort)).Failure?
    ensures r.Success? ==>
      var c := r.value;
      var debug := IsTruthy(GetEnv(env, "DEBUG", "false"));
      && c.app == AppPath && c.accessLog
      && c.host == GetEnv(env, "HOST", DefaultHost)
      && c.port == ParseInt(GetEnv(env, "PORT", DefaultPort)).value
      && (debug ==> c.logLevel == "debug" && c.reload)
      && (!debug ==> c.logLevel == Lower(GetEnv(env, "LOG_LEVEL", "info"))
                     && (c.reload <==> IsTruthy(GetEnv(env, "RELOAD", "true"))))
  {
    var host := GetEnv(env, "HOST", DefaultHost);
    match ParseInt(GetEnv(env, "PORT", DefaultPort))
    case Failure(e) => Failure(e)
    case Success(port) =>
      var reload := IsTruthy(GetEnv(env, "RELOAD", "true"));
      var debug := IsTruthy(GetEnv(env, "DEBUG", "false"));
      var logLevel := Lower(GetEnv(env, "LOG_LEVEL", "info"));
      Success(LaunchConfig(AppPath, host, port,
        if debug then true else reload,
        if debug then "debug" else logLevel,
        true))
  }

  /** With nothing set, the server listens on 0.0.0.0:8000 with reload on
      and log level `info`. */
  lemma EmptyEnvDefaults()
    ensures ResolveConfig(map[]) == Success(LaunchConfig(AppPath, "0.0.0.0", 8000, true, "info", true))
  {
    var env: Env := map[];
    DefaultPortParses();
    DefaultFlags();
    ResolvedAs(env, 8000, true, false, "info");
  }

  /** The default flag spellings: reload on, debug off, level `info`. */
  lemma DefaultFlags()
    ensures IsTruthy("true") && !IsTruthy("false") && Lower("info") == "info"
  {
    LowerKeeps("true");
    LowerKeeps("false");
    LowerKeeps("info");
  }

  /** `ResolveConfig` once the port and the three flags are known. */
  lemma ResolvedAs(env: Env, port: int, reload: bool, debug: bool, level: string)
    requires ParseInt(GetEnv(env, "PORT", DefaultPort)) == Success(port)
    requires IsTruthy(GetEnv(env, "RELOAD", "true")) == reload
    requires IsTruthy(GetEnv(env, "DEBUG", "false")) == debug
    requires Lower(GetEnv(env, "LOG_LEVEL", "info")) == level
    ensures ResolveConfig(env) == Success(LaunchConfig(AppPath, GetEnv(env, "HOST", DefaultHost), port,
      debug || reload, if debug then "debug" else level, true))
  {
  }

  lemma DefaultPortParses()
    ensures ParseInt(DefaultPort) == Success(8000)
  {
    PortLiteral();
    DigitsNoSpace("8000");
    LiteralDigits("8000", 8000);
    PlainDigits("8000", 8000);
  }

  /** Lower-casing leaves text without upper-case letters as it is. */
  lemma LowerKeeps(s: string)
    requires forall i :: 0 <= i < |s| ==> 'a' <= s[i] <= 'z'
    ensures Lower(s) == s
  {
    var l := Lower(s);
    assert forall i :: 0 <= i < |s| ==> l[i] == s[i];
  }

  /** `DEBUG` set to a truthy value overrides `RELOAD` and `LOG_LEVEL`
      whatever they say, and whether or not they are set at all. */
  lemma DebugOverrides(env: Env, reload: string, level: string)
    requires "DEBUG" in env && IsTruthy(env["DEBUG"])
    ensures ResolveConfig(env).Success? ==>
      ResolveConfig(env).value.reload && ResolveConfig(env).value.logLevel == "debug"
    ensures ResolveConfig(env["RELOAD" := reload]["LOG_LEVEL" := level]) == ResolveConfig(env)
    ensures ResolveConfig(env - {"RELOAD", "LOG_LEVEL"}) == ResolveConfig(env)
  {
    var other := env["RELOAD" := reload]["LOG_LEVEL" := level];
    assert GetEnv(other, "PORT", DefaultPort) == GetEnv(env, "PORT", DefaultPort);
    assert GetEnv(other, "HOST", DefaultHost) == GetEnv(env, "HOST", DefaultHost);
    assert GetEnv(other, "DEBUG", "false") == GetEnv(env, "DEBUG", "false");
    var bare := env - {"RELOAD", "LOG_LEVEL"};
    assert GetEnv(bare, "PORT", DefaultPort) == GetEnv(env, "PORT", DefaultPort);
    assert GetEnv(bare, "HOST", DefaultHost) == GetEnv(env, "HOST", DefaultHost);
    assert GetEnv(bare, "DEBUG", "false") == GetEnv(env, "DEBUG", "false");
  }

  /** An empty `PORT` is not the default: `int("")` fails. */
  lemma EmptyPortFails(env: Env)
    requires "PORT" in env && env["PORT"] == ""
    ensures ResolveConfig(env).Failure?
  {
  }

  /** The outcome of `main` up to the server start: exit for missing
      dependencies (before the environment is read), exit on a bad port,
      otherwise the server starts with the resolved configuration. */
  function Launch(importable: string -> bool, env: Env): (r: Result<LaunchConfig, LaunchError>)
    ensures Missing(RequiredModules, importable) != [] ==>
      r == Failure(MissingDependencies(Missing(RequiredModules, importable)))
    ensures Missing(RequiredModules, importable) == [] ==> r == ResolveConfig(env)
  {
    var missing := Missing(RequiredModules, importable);
    if missing != [] then Failure(MissingDependencies(missing)) else ResolveConfig(env)
  }

  /** Once every dependency imports, the outcome depends on the environment
      alone. */
  lemma LaunchWithDependencies(importable: string -> bool, env: Env)
    requires forall k :: 0 <= k < |RequiredModules| ==> importable(RequiredModules[k].importName)
    ensures Launch(importable, env) == ResolveConfig(env)
  {
    MissingEmptyIff(RequiredModules, importable);
  }
}
