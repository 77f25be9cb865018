/** Specification of Main.parseArgs: the options it recognises, the values it
    takes for them, and the two process-wide properties it publishes. */
module Arguments {
  import opened Common
  import opened JavaString

  /** The four recognised options; each consumes the token after it. */
  datatype Flag = Namespace | ExecutorName | SaturnLibDir | AppLibDir

  /** The switch in parseArgs, applied to the trimmed token. */
  function FlagOf(token: string): Option<Flag> {
    if token == "-namespace" then Some(Namespace)
    else if token == "-executorName" then Some(ExecutorName)
    else if token == "-saturnLibDir" then Some(SaturnLibDir)
    else if token == "-appLibDir" then Some(AppLibDir)
    else None
  }

  /** The parameter name obtainParam reports. */
  function ParamName(f: Flag): string {
    match f
    case Namespace => "namespace"
    case ExecutorName => "executorName"
    case SaturnLibDir => "saturnLibDir"
    case AppLibDir => "appLibDir"
  }

  /** The four configuration fields of the launcher; None is Java's null. */
  datatype Options = Options(
    namespace: Option<string>,
    executorName: Option<string>,
    saturnLibDir: Option<string>,
    appLibDir: Option<string>)

  /** What parsing acts on: the options and the system properties. */
  datatype ParseState = ParseState(opts: Options, props: map<string, string>)

  /** Where parsing stopped: the state reached, and the exception if any. */
  datatype Parsed = Parsed(st: ParseState, err: Option<Error>)

  /** obtainParam: the trimmed token at `position`, which must exist and be
      non-blank. */
  function ObtainParam(args: seq<string>, position: int, paramName: string): (r: Result<string>)
    ensures r.Ok? <==> 0 <= position < |args| && !IsBlank(Some(args[position]))
    ensures r.Ok? ==> r.value == Trim(args[position]) && r.value != []
    ensures r.Err? ==> r.error == MissingValue(paramName)
  {
    var value := if 0 <= position < |args| then Some(Trim(args[position])) else None;
    if value.Some? then TrimIdempotent(args[position]); Checked(value, paramName)
    else Checked(value, paramName)
  }

  /** The isBlank test on the value obtainParam has read. */
  function Checked(value: Option<string>, paramName: string): Result<string> {
    if IsBlank(value) then Err(MissingValue(paramName)) else Ok(value.value)
  }

  /** The effect of one recognised option with its value. For `-namespace`
      the value is also published as both `app.instance.name` and
      `namespace`. */
  function Assign(st: ParseState, f: Flag, v: string): ParseState {
    match f
    case Namespace =>
      ParseState(st.opts.(namespace := Some(v)),
                 st.props["app.instance.name" := v]["namespace" := v])
    case ExecutorName => st.(opts := st.opts.(executorName := Some(v)))
    case SaturnLibDir => st.(opts := st.opts.(saturnLibDir := Some(v)))
    case AppLibDir => st.(opts := st.opts.(appLibDir := Some(v)))
  }

  /** The configuration field that option `f` sets. */
  function Field(opts: Options, f: Flag): Option<string> {
    match f
    case Namespace => opts.namespace
    case ExecutorName => opts.executorName
    case SaturnLibDir => opts.saturnLibDir
    case AppLibDir => opts.appLibDir
  }

  /** The loop of parseArgs over the tokens still to be read. An unknown
      token is skipped; an option either takes the next token or throws,
      leaving what earlier tokens set in place. */
  function Scan(args: seq<string>, st: ParseState): Parsed
    decreases |args|
  {
    if args == [] then Parsed(st, None)
    else match FlagOf(Trim(args[0]))
      case None => Scan(args[1..], st)
      case Some(f) =>
        match ObtainParam(args, 1, ParamName(f))
        case Err(e) => Parsed(st, Some(e))
        case Ok(v) => Scan(args[2..], Assign(st, f, v))
  }

  /** parseArgs: the scan, then validateMandatoryParameters. */
  function Parse(args: seq<string>, st: ParseState): Parsed {
    var s := Scan(args, st);
    if s.err.None? && IsBlank(s.st.opts.namespace) then Parsed(s.st, Some(MissingRequired))
    else s
  }

  /** A token no option recognises, which parsing skips. */
  predicate Unrecognised(token: string) {
    FlagOf(Trim(token)).None?
  }

  /** Scanning a + b is scanning a, then b from where a stopped, provided a
      ends on a token boundary without an exception. */
  lemma {:induction false} ScanAppend(a: seq<string>, b: seq<string>, st: ParseState)
    requires Scan(a, st).err.None?
    ensures Scan(a + b, st) == Scan(b, Scan(a, st).st)
    decreases |a|
  {
    if a == [] {
      assert a + b == b;
    } else {
      var ab := a + b;
      assert ab[0] == a[0];
      var flag := FlagOf(Trim(a[0]));
      if flag.None? {
        assert Scan(a, st) == Scan(a[1..], st);
        assert ab[1..] == a[1..] + b;
        assert Scan(ab, st) == Scan(ab[1..], st);
        ScanAppend(a[1..], b, st);
      } else {
        var f := flag.value;
        var v := ObtainParam(a, 1, ParamName(f));
        assert v.Ok?;
        assert ab[1] == a[1];
        assert ObtainParam(ab, 1, ParamName(f)) == v;
        var st' := Assign(st, f, v.value);
        assert Scan(a, st) == Scan(a[2..], st');
        assert ab[2..] == a[2..] + b;
        assert Scan(ab, st) == Scan(ab[2..], st');
        ScanAppend(a[2..], b, st');
      }
    }
  }

  /** After a correctly parsed prefix, an unrecognised token changes nothing:
      the result is that of the tokens without it. */
  lemma UnrecognisedIgnored(a: seq<string>, t: string, b: seq<string>, st: ParseState)
    requires Scan(a, st).err.None?
    requires Unrecognised(t)
    ensures Scan(a + [t] + b, st) == Scan(a + b, st)
  {
    assert a + [t] + b == a + ([t] + b);
    ScanAppend(a, [t] + b, st);
    ScanAppend(a, b, st);
    assert ([t] + b)[1..] == b;
  }

  /** An option that is the last token throws MissingValue for it, keeping
      what the tokens before it set. */
  lemma FlagWithoutValue(a: seq<string>, t: string, st: ParseState)
    requires Scan(a, st).err.None?
    requires FlagOf(Trim(t)).Some?
    ensures Parse(a + [t], st) == Parsed(Scan(a, st).st, Some(MissingValue(ParamName(FlagOf(Trim(t)).value))))
  {
    ScanAppend(a, [t], st);
  }

  /** An option followed by a blank token throws MissingValue for it, whatever
      follows. */
  lemma FlagWithBlankValue(a: seq<string>, t: string, v: string, b: seq<string>, st: ParseState)
    requires Scan(a, st).err.None?
    requires FlagOf(Trim(t)).Some?
    requires IsBlank(Some(v))
    ensures Parse(a + [t, v] + b, st) == Parsed(Scan(a, st).st, Some(MissingValue(ParamName(FlagOf(Trim(t)).value))))
  {
    assert a + [t, v] + b == a + ([t, v] + b);
    ScanAppend(a, [t, v] + b, st);
  }

  /** An option followed by a non-blank token sets its field to the trimmed
      token and skips it; parsing carries on after the value. */
  lemma FlagTakesValue(a: seq<string>, t: string, v: string, b: seq<string>, st: ParseState)
    requires Scan(a, st).err.None?
    requires FlagOf(Trim(t)).Some?
    requires !IsBlank(Some(v))
    ensures Scan(a + [t, v] + b, st) == Scan(b, Assign(Scan(a, st).st, FlagOf(Trim(t)).value, Trim(v)))
  {
    assert a + [t, v] + b == a + ([t, v] + b);
    ScanAppend(a, [t, v] + b, st);
    assert ([t, v] + b)[2..] == b;
  }

  /** When an option repeats, the last occurrence's value wins: whatever
      follows it, as long as no later token is that option again. */
  lemma LastOccurrenceWins(a: seq<string>, t: string, v: string, b: seq<string>, st: ParseState)
    requires Scan(a, st).err.None?
    requires FlagOf(Trim(t)).Some?
    requires !IsBlank(Some(v))
    requires forall k :: 0 <= k < |b| ==> FlagOf(Trim(b[k])) != FlagOf(Trim(t))
    ensures Field(Parse(a + [t, v] + b, st).st.opts, FlagOf(Trim(t)).value) == Some(Trim(v))
  {
    var f := FlagOf(Trim(t)).value;
    FlagTakesValue(a, t, v, b, st);
    FieldKept(b, Assign(Scan(a, st).st, f, Trim(v)), f);
  }

  /** Tokens none of which is option `f` leave the field of `f` as it was. */
  lemma {:induction false} FieldKept(args: seq<string>, st: ParseState, f: Flag)
    requires forall k :: 0 <= k < |args| ==> FlagOf(Trim(args[k])) != Some(f)
    ensures Field(Scan(args, st).st.opts, f) == Field(st.opts, f)
    decreases |args|
  {
    if args != [] {
      match FlagOf(Trim(args[0]))
      case None =>
        assert forall k :: 0 <= k < |args[1..]| ==> args[1..][k] == args[k + 1];
        FieldKept(args[1..], st, f);
      case Some(g) =>
        match ObtainParam(args, 1, ParamName(g))
        case Err(_) =>
        case Ok(v) =>
          assert forall k :: 0 <= k < |args[2..]| ==> args[2..][k] == args[k + 2];
          FieldKept(args[2..], Assign(st, g, v), f);
    }
  }

  /** `-namespace X` publishes trimmed X as both `app.instance.name` and
      `namespace`, and parsing then succeeds with namespace X. */
  lemma NamespaceBindings(a: seq<string>, t: string, x: string, st: ParseState)
    requires Scan(a, st).err.None?
    requires Trim(t) == "-namespace"
    requires !IsBlank(Some(x))
    ensures var r := Parse(a + [t, x], st);
      && r.err.None?
      && r.st.opts.namespace == Some(Trim(x))
      && r.st.props == Scan(a, st).st.props["app.instance.name" := Trim(x)]["namespace" := Trim(x)]
  {
    FlagTakesValue(a, t, x, [], st);
    assert a + [t, x] + [] == a + [t, x];
  }

  /** A successful parse leaves a non-blank namespace; a scan that completes
      with a blank namespace throws MissingRequired. */
  lemma ParseValidates(args: seq<string>, st: ParseState)
    ensures Parse(args, st).err.None? ==> !IsBlank(Parse(args, st).st.opts.namespace)
    ensures Scan(args, st).err.None? && IsBlank(Scan(args, st).st.opts.namespace) ==>
      Parse(args, st).err == Some(MissingRequired)
  {
  }

  /** Without any `-namespace` token the properties are untouched and the
      namespace keeps its value; so from an unset namespace parsing throws. */
  lemma {:induction false} NoNamespaceOption(args: seq<string>, st: ParseState)
    requires forall k :: 0 <= k < |args| ==> Trim(args[k]) != "-namespace"
    ensures Scan(args, st).st.props == st.props
    ensures Scan(args, st).st.opts.namespace == st.opts.namespace
    ensures st.opts.namespace.None? ==> Parse(args, st).err.Some?
    decreases |args|
  {
    if args != [] {
      match FlagOf(Trim(args[0]))
      case None =>
        NoNamespaceOption(args[1..], st);
      case Some(f) =>
        match ObtainParam(args, 1, ParamName(f))
        case Err(_) =>
        case Ok(v) =>
          assert forall k :: 0 <= k < |args[2..]| ==> args[2..][k] == args[k + 2];
          NoNamespaceOption(args[2..], Assign(st, f, v));
    }
  }
}
