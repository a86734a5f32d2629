/**
 * The server settings (server/src/config.rs): the record, its defaults, and
 * its derived `Deserialize`, in which every member is optional and a missing
 * member takes the default's value (`#[serde(default)]`), names are camelCase
 * and the two enums are spelled in lower case.
 */
module Configuration {
  import opened Wrappers
  import opened Json

  /** `FormattingTool`; its third case is `None` in the source. */
  datatype FormattingTool = Ktfmt | Ktlint | NoFormatter

  datatype TraceLevel = Off | Messages | Verbose

  datatype Config = Config(
    javaHome: Option<string>,
    compilerFlags: seq<string>,
    formattingTool: FormattingTool,
    formattingStyle: string,
    sidecarMaxMemory: string,
    traceServer: TraceLevel)

  /** `Config::default()`. */
  function DefaultConfig(): Config {
    Config(None, [], Ktfmt, "google", "512m", Off)
  }

  function DecodeFormattingTool(v: Value): Option<FormattingTool> {
    match v
    case Str("ktfmt") => Some(Ktfmt)
    case Str("ktlint") => Some(Ktlint)
    case Str("none") => Some(NoFormatter)
    case _ => None
  }

  function DecodeTraceLevel(v: Value): Option<TraceLevel> {
    match v
    case Str("off") => Some(Off)
    case Str("messages") => Some(Messages)
    case Str("verbose") => Some(Verbose)
    case _ => None
  }

  /** `Vec<String>`: an array whose every item is a string. */
  function DecodeStrings(v: Value): (r: Option<seq<string>>)
    ensures r.Some? ==> v.Arr? && |r.value| == |v.items|
  {
    if !v.Arr? then None else StringItems(v.items)
  }

  function StringItems(items: seq<Value>): (r: Option<seq<string>>)
    ensures r.Some? ==> |r.value| == |items| && forall i :: 0 <= i < |items| ==> items[i] == Str(r.value[i])
  {
    if items == [] then Some([])
    else if !items[0].Str? then None
    else match StringItems(items[1..])
      case None => None
      case Some(rest) => Some([items[0].s] + rest)
  }

  /** A member under `#[serde(default)]`: absent gives `default`; present must decode. */
  function DefaultedField<T>(fields: map<string, Value>, key: string, default: T, decode: Value -> Option<T>): Option<T> {
    if key !in fields then Some(default) else decode(fields[key])
  }

  /** The derived `Deserialize` of `Config`. */
  function DecodeConfig(v: Value): Option<Config> {
    if !v.Obj? then None
    else
      var f := v.fields;
      var d := DefaultConfig();
      match (DefaultedField(f, "javaHome", d.javaHome, (x: Value) => if x == Null then Some(None) else if x.Str? then Some(Some(x.s)) else None),
             DefaultedField(f, "compilerFlags", d.compilerFlags, DecodeStrings),
             DefaultedField(f, "formattingTool", d.formattingTool, DecodeFormattingTool),
             DefaultedField(f, "formattingStyle", d.formattingStyle, DecodeString),
             DefaultedField(f, "sidecarMaxMemory", d.sidecarMaxMemory, DecodeString),
             DefaultedField(f, "traceServer", d.traceServer, DecodeTraceLevel))
      case (Some(jh), Some(cf), Some(ft), Some(fs), Some(mm), Some(ts)) => Some(Config(jh, cf, ft, fs, mm, ts))
      case _ => None
  }

  /** The empty object reads as the defaults. */
  lemma EmptyObjectIsDefault()
    ensures DecodeConfig(Obj(map[])) == Some(DefaultConfig())
  {
  }

  /** Every member a settings object leaves out keeps its default value. */
  lemma MissingMembersDefault(v: Value)
    requires DecodeConfig(v).Some?
    ensures var c := DecodeConfig(v).value; var d := DefaultConfig();
      && v.Obj?
      && ("javaHome" !in v.fields ==> c.javaHome == d.javaHome)
      && ("compilerFlags" !in v.fields ==> c.compilerFlags == d.compilerFlags)
      && ("formattingTool" !in v.fields ==> c.formattingTool == d.formattingTool)
      && ("formattingStyle" !in v.fields ==> c.formattingStyle == d.formattingStyle)
      && ("sidecarMaxMemory" !in v.fields ==> c.sidecarMaxMemory == d.sidecarMaxMemory)
      && ("traceServer" !in v.fields ==> c.traceServer == d.traceServer)
  {
  }

  /** A settings object naming only the JDK changes only `javaHome`. */
  lemma OnlyJavaHome(path: string)
    ensures DecodeConfig(Obj(map["javaHome" := Str(path)])) == Some(DefaultConfig().(javaHome := Some(path)))
  {
  }

  /** Flags given as an array of strings are kept in order. */
  lemma {:induction false} FlagsKeptInOrder(flags: seq<string>)
    ensures DecodeStrings(Arr(seq(|flags|, i requires 0 <= i < |flags| => Str(flags[i])))) == Some(flags)
  {
    StringsRoundTrip(flags);
  }

  lemma {:induction false} StringsRoundTrip(flags: seq<string>)
    ensures StringItems(seq(|flags|, i requires 0 <= i < |flags| => Str(flags[i]))) == Some(flags)
  {
    var items := seq(|flags|, i requires 0 <= i < |flags| => Str(flags[i]));
    if flags != [] {
      assert items[1..] == seq(|flags[1..]|, i requires 0 <= i < |flags[1..]| => Str(flags[1..][i]));
      StringsRoundTrip(flags[1..]);
      assert [flags[0]] + flags[1..] == flags;
    }
  }
}
