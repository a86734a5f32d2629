/**
 * The converters of server/src/server.rs that turn a sidecar result (a JSON
 * tree) into Language Server Protocol records. Line numbers arrive 1-based
 * and leave 0-based; every coordinate is cast to `u32`, which keeps the low
 * 32 bits. `Url::parse` is the parameter `parseUri`, which yields the parsed
 * URI's text or nothing.
 */
module Converters {
  import opened Wrappers
  import opened Json
  import opened Text
  import opened Seqs
  import opened Lsp
  import opened Configuration
  import opened Errors

  // ---------------------------------------------------------------- tables

  /** The severity names the sidecar uses; any other string is an error. */
  const SEVERITY_NAMES: map<string, DiagnosticSeverity> := map[
    "ERROR" := SeverityError, "WARNING" := SeverityWarning, "INFO" := SeverityInformation,
    "INFORMATION" := SeverityInformation, "HINT" := SeverityHint]

  function SeverityOf(name: string): DiagnosticSeverity {
    match name
    case "ERROR" => SeverityError
    case "WARNING" => SeverityWarning
    case "INFO" => SeverityInformation
    case "INFORMATION" => SeverityInformation
    case "HINT" => SeverityHint
    case _ => SeverityError
  }

  /** The severity match is the table, with `Error` for every name outside it. */
  lemma SeverityTable(name: string)
    ensures SeverityOf(name) == if name in SEVERITY_NAMES then SEVERITY_NAMES[name] else SeverityError
  {
  }

  const COMPLETION_KINDS: map<string, CompletionItemKind> := map[
    "function" := KindFunction, "method" := KindFunction, "property" := KindField, "field" := KindField,
    "class" := KindClass, "interface" := KindInterface, "variable" := KindVariable, "local" := KindVariable,
    "keyword" := KindKeyword, "snippet" := KindSnippet, "module" := KindModule, "package" := KindModule,
    "enum" := KindEnum, "constant" := KindConstant]

  function CompletionKindOf(name: string): CompletionItemKind {
    match name
    case "function" => KindFunction
    case "method" => KindFunction
    case "property" => KindField
    case "field" => KindField
    case "class" => KindClass
    case "interface" => KindInterface
    case "variable" => KindVariable
    case "local" => KindVariable
    case "keyword" => KindKeyword
    case "snippet" => KindSnippet
    case "module" => KindModule
    case "package" => KindModule
    case "enum" => KindEnum
    case "constant" => KindConstant
    case _ => KindText
  }

  /** The completion-kind match is the table, with `Text` for every name outside it. */
  lemma CompletionKindTable(name: string)
    ensures CompletionKindOf(name) == if name in COMPLETION_KINDS then COMPLETION_KINDS[name] else KindText
  {
  }

  const SYMBOL_KINDS: map<string, SymbolKind> := map[
    "class" := SymbolClass, "interface" := SymbolInterface, "function" := SymbolFunction,
    "method" := SymbolFunction, "property" := SymbolProperty, "field" := SymbolProperty,
    "variable" := SymbolVariable, "local" := SymbolVariable, "enum" := SymbolEnum,
    "enumMember" := SymbolEnumMember, "module" := SymbolModule, "package" := SymbolModule,
    "constructor" := SymbolConstructor, "constant" := SymbolConstant, "object" := SymbolObject]

  /** `map_symbol_kind`. */
  function MapSymbolKind(kind: string): SymbolKind {
    match kind
    case "class" => SymbolClass
    case "interface" => SymbolInterface
    case "function" => SymbolFunction
    case "method" => SymbolFunction
    case "property" => SymbolProperty
    case "field" => SymbolProperty
    case "variable" => SymbolVariable
    case "local" => SymbolVariable
    case "enum" => SymbolEnum
    case "enumMember" => SymbolEnumMember
    case "module" => SymbolModule
    case "package" => SymbolModule
    case "constructor" => SymbolConstructor
    case "constant" => SymbolConstant
    case "object" => SymbolObject
    case _ => SymbolVariable
  }

  /** `map_symbol_kind` is total: the table for the names it knows, `Variable` for the rest. */
  lemma SymbolKindTable(kind: string)
    ensures MapSymbolKind(kind) == if kind in SYMBOL_KINDS then SYMBOL_KINDS[kind] else SymbolVariable
  {
  }

  // ---------------------------------------------------------------- diagnostics

  /** A 1-based line from the sidecar as a 0-based `u32` line. */
  function ZeroBasedLine(line: nat): (r: nat)
    ensures r < U32_LIMIT
    ensures 0 < line <= U32_LIMIT ==> r + 1 == line
    ensures line == 0 ==> r == 0
  {
    TruncU32(SaturatingPred(line))
  }

  /**
   * One entry of `parse_diagnostics_static`; `None` drops it. The end column
   * is `column + 1` as a `u32`, which is what the release build's wrapping
   * addition followed by the cast gives.
   */
  function DiagnosticOf(d: Value): (r: Option<Diagnostic>)
    ensures r.Some? <==> AsStr(Get(d, "severity")).Some? && AsStr(Get(d, "message")).Some? && AsU64(Get(d, "line")).Some?
  {
    match (AsStr(Get(d, "severity")), AsStr(Get(d, "message")), AsU64(Get(d, "line")))
    case (Some(severity), Some(message), Some(line)) =>
      var startLine := ZeroBasedLine(line);
      var col := AsU64(Get(d, "column")).GetOr(0);
      var endLine := match AsU64(Get(d, "endLine")) case Some(l) => ZeroBasedLine(l) case None => startLine;
      var endCol := TruncU32(AsU64(Get(d, "endColumn")).GetOr(col + 1));
      Some(Diagnostic(
        Range(Position(startLine, TruncU32(col)), Position(endLine, endCol)),
        Some(SeverityOf(severity)),
        AsStr(Get(d, "code")),
        Some("kotlin-analyzer"),
        message))
    case _ => None
  }

  /**
   * The positions of a kept diagnostic: lines move down by one (0 stays 0),
   * a missing end line is the start line, a missing column is 0 and a missing
   * end column is one past the column.
   */
  lemma DiagnosticPositions(d: Value)
    requires DiagnosticOf(d).Some?
    ensures var r := DiagnosticOf(d).value.range; var line := AsU64(Get(d, "line")).value;
      && (0 < line <= U32_LIMIT ==> r.start.line + 1 == line)
      && (line == 0 ==> r.start.line == 0)
      && (Get(d, "endLine").None? ==> r.end.line == r.start.line)
      && (Get(d, "column").None? ==> r.start.character == 0)
      && (Get(d, "endColumn").None? && AsU64(Get(d, "column")).Some? && AsU64(Get(d, "column")).value + 1 < U32_LIMIT ==>
          r.end.character == r.start.character + 1)
      && (Get(d, "endColumn").None? && Get(d, "column").None? ==> r.end.character == 1)
  {
  }

  /** Every kept diagnostic is labelled with the server's name and keeps the sidecar's message. */
  lemma DiagnosticSource(d: Value)
    requires DiagnosticOf(d).Some?
    ensures DiagnosticOf(d).value.source == Some("kotlin-analyzer")
    ensures Get(d, "message") == Some(Str(DiagnosticOf(d).value.message))
    ensures DiagnosticOf(d).value.severity == Some(SeverityOf(AsStr(Get(d, "severity")).value))
  {
  }

  /** `parse_diagnostics_static`. */
  function ParseDiagnostics(result: Value): (r: seq<Diagnostic>)
    ensures AsArray(Get(result, "diagnostics")).None? ==> r == []
    ensures AsArray(Get(result, "diagnostics")).Some? ==> |r| <= |AsArray(Get(result, "diagnostics")).value|
  {
    match AsArray(Get(result, "diagnostics"))
    case None => []
    case Some(entries) => FilterMap(entries, DiagnosticOf)
  }

  /** A malformed entry is dropped and its neighbours keep their order. */
  lemma {:induction false} MalformedDiagnosticDropped(before: seq<Value>, d: Value, after: seq<Value>)
    requires DiagnosticOf(d).None?
    ensures ParseDiagnostics(Obj(map["diagnostics" := Arr(before + [d] + after)]))
      == ParseDiagnostics(Obj(map["diagnostics" := Arr(before)])) + ParseDiagnostics(Obj(map["diagnostics" := Arr(after)]))
  {
    FilterMapSkip(before, d, after, DiagnosticOf);
  }

  /** When every entry is well formed, the i-th diagnostic comes from the i-th entry. */
  lemma {:induction false} WellFormedDiagnosticsKept(entries: seq<Value>)
    requires forall i :: 0 <= i < |entries| ==> DiagnosticOf(entries[i]).Some?
    ensures var r := ParseDiagnostics(Obj(map["diagnostics" := Arr(entries)]));
      |r| == |entries| && forall i :: 0 <= i < |entries| ==> r[i] == DiagnosticOf(entries[i]).value
  {
    FilterMapAll(entries, DiagnosticOf);
  }

  // ---------------------------------------------------------------- locations and goto

  /** One entry of `parse_locations`: an empty range at the 0-based line and the column. */
  function LocationOf(loc: Value, parseUri: string -> Option<string>): (r: Option<Location>)
    ensures r.Some? <==>
      (AsStr(Get(loc, "uri")).Some? && parseUri(AsStr(Get(loc, "uri")).value).Some? && AsU64(Get(loc, "line")).Some?)
    ensures r.Some? ==> r.value.range.start == r.value.range.end
  {
    match AsStr(Get(loc, "uri"))
    case None => None
    case Some(text) =>
      match (parseUri(text), AsU64(Get(loc, "line")))
      case (Some(uri), Some(line)) =>
        var p := Position(ZeroBasedLine(line), TruncU32(AsU64(Get(loc, "column")).GetOr(0)));
        Some(Location(uri, Range(p, p)))
      case _ => None
  }

  /** `parse_locations`. */
  function ParseLocations(result: Value, parseUri: string -> Option<string>): (r: seq<Location>)
    ensures AsArray(Get(result, "locations")).None? ==> r == []
    ensures AsArray(Get(result, "locations")).Some? ==> |r| <= |AsArray(Get(result, "locations")).value|
  {
    match AsArray(Get(result, "locations"))
    case None => []
    case Some(entries) => FilterMap(entries, (loc: Value) => LocationOf(loc, parseUri))
  }

  /** When every entry has a parsable `uri` and a `line`, all are kept, in order. */
  lemma {:induction false} WellFormedLocationsKept(entries: seq<Value>, parseUri: string -> Option<string>)
    requires forall i :: 0 <= i < |entries| ==> LocationOf(entries[i], parseUri).Some?
    ensures var r := ParseLocations(Obj(map["locations" := Arr(entries)]), parseUri);
      |r| == |entries| && forall i :: 0 <= i < |entries| ==> r[i] == LocationOf(entries[i], parseUri).value
  {
    FilterMapAll(entries, (loc: Value) => LocationOf(loc, parseUri));
  }

  /** The shaping of a `definition` result: nothing, one location, or several. */
  function GotoShape(locations: seq<Location>): (r: Option<GotoDefinitionResponse>)
    ensures r.None? <==> locations == []
    ensures |locations| == 1 ==> r == Some(Scalar(locations[0]))
    ensures |locations| > 1 ==> r == Some(Array(locations))
  {
    if locations == [] then None
    else if |locations| == 1 then Some(Scalar(locations[0]))
    else Some(Array(locations))
  }

  /** The locations a goto response carries. */
  function GotoLocations(r: Option<GotoDefinitionResponse>): seq<Location> {
    match r
    case None => []
    case Some(Scalar(l)) => [l]
    case Some(Array(ls)) => ls
  }

  /** Shaping loses no location and invents none. */
  lemma GotoShapeKeepsLocations(locations: seq<Location>)
    ensures GotoLocations(GotoShape(locations)) == locations
  {
    if |locations| == 1 {
      assert [locations[0]] == locations;
    }
  }

  /** `goto_definition`'s result: a failed request gives no answer. */
  function GotoDefinition(outcome: Result<Value, Error>, parseUri: string -> Option<string>): (r: Option<GotoDefinitionResponse>)
    ensures outcome.Err? ==> r.None?
    ensures outcome.Ok? ==> GotoLocations(r) == ParseLocations(outcome.value, parseUri)
  {
    match outcome
    case Err(_) => None
    case Ok(v) => GotoShapeKeepsLocations(ParseLocations(v, parseUri)); GotoShape(ParseLocations(v, parseUri))
  }

  // ---------------------------------------------------------------- completion

  /** One entry of `parse_completion_items`: a string `label` is required; everything else is optional. */
  function CompletionItemOf(item: Value): (r: Option<CompletionItem>)
    ensures r.Some? <==> AsStr(Get(item, "label")).Some?
    ensures r.Some? ==> (r.value.kind.Some? <==> AsStr(Get(item, "kind")).Some?)
  {
    match AsStr(Get(item, "label"))
    case None => None
    case Some(name) =>
      var kind := match AsStr(Get(item, "kind")) case Some(k) => Some(CompletionKindOf(k)) case None => None;
      Some(CompletionItem(name, kind, AsStr(Get(item, "detail")), AsStr(Get(item, "insertText"))))
  }

  /** `parse_completion_items`. */
  function ParseCompletionItems(result: Value): (r: seq<CompletionItem>)
    ensures AsArray(Get(result, "items")).None? ==> r == []
    ensures AsArray(Get(result, "items")).Some? ==> |r| <= |AsArray(Get(result, "items")).value|
  {
    match AsArray(Get(result, "items"))
    case None => []
    case Some(entries) => FilterMap(entries, CompletionItemOf)
  }

  /** When every item has a string `label`, all are kept, in order, each with that label. */
  lemma {:induction false} LabelledCompletionItemsKept(items: seq<Value>)
    requires forall i :: 0 <= i < |items| ==> AsStr(Get(items[i], "label")).Some?
    ensures var r := ParseCompletionItems(Obj(map["items" := Arr(items)]));
      |r| == |items| &&
      forall i :: 0 <= i < |items| ==>
        r[i] == CompletionItemOf(items[i]).value && r[i].label_ == AsStr(Get(items[i], "label")).value
  {
    FilterMapAll(items, CompletionItemOf);
  }

  /** A kind the table does not know is plain text, not a dropped item. */
  lemma UnknownCompletionKindIsText(name: string, kind: string)
    requires kind !in COMPLETION_KINDS
    ensures ParseCompletionItems(Obj(map["items" := Arr([Obj(map["label" := Str(name), "kind" := Str(kind)])])]))
      == [CompletionItem(name, Some(KindText), None, None)]
  {
    var item := Obj(map["label" := Str(name), "kind" := Str(kind)]);
    CompletionKindTable(kind);
    assert FilterMap([item], CompletionItemOf) == [CompletionItemOf(item).value] + FilterMap([item][1..], CompletionItemOf);
  }

  // ---------------------------------------------------------------- semantic tokens

  /** The server's own token-type legend, announced at `initialize`. */
  const LOCAL_LEGEND: seq<string> := [
    "function", "parameter", "variable", "property", "class", "type", "string",
    "comment", "keyword", "decorator", "number", "enumMember", "typeParameter"]

  /** `data[i].as_u64().unwrap_or(0) as u32`. */
  function U32At(data: seq<Value>, i: nat): (r: nat)
    requires i < |data|
    ensures r < U32_LIMIT
  {
    TruncU32(AsU64(Some(data[i])).GetOr(0))
  }

  /** The sidecar's legend, `result.legend.tokenTypes`, when it is an array. */
  function LegendTypes(result: Value): Option<seq<Value>> {
    match Get(result, "legend")
    case None => None
    case Some(legend) => AsArray(Get(legend, "tokenTypes"))
  }

  /** The remapping of a sidecar token type into the local legend. */
  function MapTokenType(raw: nat, legend: Option<seq<Value>>): nat {
    match legend
    case None => raw
    case Some(types) =>
      if raw < |types| && types[raw].Str? then IndexOf(LOCAL_LEGEND, types[raw].s).GetOr(0) else raw
  }

  /**
   * With a legend entry naming the type, the result indexes the local legend at
   * that name, or is 0 when the local legend lacks it; otherwise the raw type
   * passes through unchanged.
   */
  lemma MapTokenTypeMeaning(raw: nat, legend: Option<seq<Value>>)
    ensures var r := MapTokenType(raw, legend);
      && (legend.Some? && raw < |legend.value| && legend.value[raw].Str? ==>
          r < |LOCAL_LEGEND| &&
          (legend.value[raw].s in LOCAL_LEGEND ==> LOCAL_LEGEND[r] == legend.value[raw].s) &&
          (legend.value[raw].s !in LOCAL_LEGEND ==> r == 0))
      && (!(legend.Some? && raw < |legend.value| && legend.value[raw].Str?) ==> r == raw)
  {
  }

  /** The token built from the five values starting at `i`. */
  function TokenAt(data: seq<Value>, i: nat, legend: Option<seq<Value>>): SemanticToken
    requires i + 4 < |data|
  {
    SemanticToken(U32At(data, i), U32At(data, i + 1), U32At(data, i + 2),
                  MapTokenType(U32At(data, i + 3), legend), U32At(data, i + 4))
  }

  /**
   * `parse_semantic_tokens`: one token per complete group of five values, in
   * order; a trailing partial group is dropped.
   */
  method ParseSemanticTokens(result: Value) returns (tokens: seq<SemanticToken>)
    ensures AsArray(Get(result, "data")).None? ==> tokens == []
    ensures AsArray(Get(result, "data")).Some? ==>
      (var data := AsArray(Get(result, "data")).value;
       |tokens| == |data| / 5 &&
       forall k :: 0 <= k < |tokens| ==> 5 * k + 4 < |data| && tokens[k] == TokenAt(data, 5 * k, LegendTypes(result)))
  {
    var found := AsArray(Get(result, "data"));
    if found.None? {
      return [];
    }
    var data := found.value;
    var legend := LegendTypes(result);
    tokens := [];
    var i := 0;
    while i + 4 < |data|
      invariant i == 5 * |tokens| && i <= |data|
      invariant forall k :: 0 <= k < |tokens| ==> 5 * k + 4 < |data| && tokens[k] == TokenAt(data, 5 * k, legend)
    {
      tokens := tokens + [TokenAt(data, i, legend)];
      i := i + 5;
    }
    GroupsOfFive(|data|, |tokens|);
  }

  /** Stopping at the first incomplete group leaves `n / 5` complete ones. */
  lemma GroupsOfFive(n: nat, groups: nat)
    requires 5 * groups <= n < 5 * groups + 5
    ensures n / 5 == groups
  {
  }

  // ---------------------------------------------------------------- workspace edits

  /** One entry of `parse_workspace_edits`: its URI and edit, or `None` when it is skipped. */
  function EditOf(edit: Value, parseUri: string -> Option<string>): (r: Option<(string, TextEdit)>)
    ensures r.Some? <==>
      (AsStr(Get(edit, "uri")).Some? && parseUri(AsStr(Get(edit, "uri")).value).Some? &&
       Get(edit, "range").Some? && AsStr(Get(edit, "newText")).Some?)
  {
    match (AsStr(Get(edit, "uri")), Get(edit, "range"), AsStr(Get(edit, "newText")))
    case (Some(text), Some(range), Some(newText)) =>
      (match parseUri(text)
      case None => None
      case Some(uri) =>
        var startLine := match AsU64(Get(range, "startLine")) case Some(l) => ZeroBasedLine(l) case None => 0;
        var startCol := TruncU32(AsU64(Get(range, "startColumn")).GetOr(0));
        var endLine := match AsU64(Get(range, "endLine")) case Some(l) => ZeroBasedLine(l) case None => startLine;
        var endCol := TruncU32(AsU64(Get(range, "endColumn")).GetOr(0));
        Some((uri, TextEdit(Range(Position(startLine, startCol), Position(endLine, endCol)), newText))))
    case _ => None
  }

  /** A kept edit without an end line ends on its start line; missing columns are 0. */
  lemma EditDefaults(edit: Value, parseUri: string -> Option<string>)
    requires EditOf(edit, parseUri).Some?
    ensures var r := EditOf(edit, parseUri).value.1.range; var range := Get(edit, "range").value;
      && (Get(range, "endLine").None? ==> r.end.line == r.start.line)
      && (Get(range, "startLine").None? ==> r.start.line == 0)
      && (Get(range, "startColumn").None? ==> r.start.character == 0)
      && (Get(range, "endColumn").None? ==> r.end.character == 0)
  {
  }

  /** The edit of an entry when it belongs to `uri`. */
  function EditFor(parseUri: string -> Option<string>, uri: string): Value -> Option<TextEdit> {
    (edit: Value) =>
      match EditOf(edit, parseUri)
      case Some((u, e)) => if u == uri then Some(e) else None
      case None => None
  }

  /** The reference grouping: the edits of `uri`, in input order. */
  function EditsFor(edits: seq<Value>, parseUri: string -> Option<string>, uri: string): seq<TextEdit> {
    FilterMap(edits, EditFor(parseUri, uri))
  }

  /** The `edits` array of a result, or nothing. */
  function EditEntries(result: Value): seq<Value> {
    AsArray(Get(result, "edits")).GetOr([])
  }

  /** `changes` holds, for every URI, exactly the edits `edits` has for it, in order. */
  ghost predicate Grouped(changes: map<string, seq<TextEdit>>, edits: seq<Value>, parseUri: string -> Option<string>) {
    && (forall uri :: uri in changes <==> EditsFor(edits, parseUri, uri) != [])
    && (forall uri :: uri in changes ==> changes[uri] == EditsFor(edits, parseUri, uri))
  }

  /**
   * `parse_workspace_edits`: every URI that some kept edit names maps to all
   * of that URI's edits in input order, and no other URI appears.
   */
  method ParseWorkspaceEdits(result: Value, parseUri: string -> Option<string>) returns (changes: map<string, seq<TextEdit>>)
    ensures forall uri :: uri in changes <==> EditsFor(EditEntries(result), parseUri, uri) != []
    ensures forall uri :: uri in changes ==> changes[uri] == EditsFor(EditEntries(result), parseUri, uri)
  {
    var edits := EditEntries(result);
    changes := map[];
    for i := 0 to |edits|
      invariant Grouped(changes, edits[..i], parseUri)
    {
      assert edits[..i + 1] == edits[..i] + [edits[i]];
      var entry := EditOf(edits[i], parseUri);
      if entry.Some? {
        var (uri, edit) := entry.value;
        GroupedAdd(changes, edits[..i], edits[i], parseUri);
        changes := changes[uri := (if uri in changes then changes[uri] else []) + [edit]];
      } else {
        GroupedSkip(changes, edits[..i], edits[i], parseUri);
      }
    }
    assert edits[..|edits|] == edits;
  }

  /** An entry that is skipped leaves the grouping as it was. */
  lemma GroupedSkip(changes: map<string, seq<TextEdit>>, done: seq<Value>, entry: Value, parseUri: string -> Option<string>)
    requires Grouped(changes, done, parseUri) && EditOf(entry, parseUri).None?
    ensures Grouped(changes, done + [entry], parseUri)
  {
    forall uri ensures EditsFor(done + [entry], parseUri, uri) == EditsFor(done, parseUri, uri) {
      FilterMapAppend(done, [entry], EditFor(parseUri, uri));
      SingleEdit(entry, parseUri, uri);
    }
  }

  /** A kept entry is appended to its own URI's list, which is created when missing. */
  lemma GroupedAdd(changes: map<string, seq<TextEdit>>, done: seq<Value>, entry: Value, parseUri: string -> Option<string>)
    requires Grouped(changes, done, parseUri) && EditOf(entry, parseUri).Some?
    ensures var (uri, edit) := EditOf(entry, parseUri).value;
      Grouped(changes[uri := (if uri in changes then changes[uri] else []) + [edit]], done + [entry], parseUri)
  {
    var (uri, edit) := EditOf(entry, parseUri).value;
    forall u ensures EditsFor(done + [entry], parseUri, u) == EditsFor(done, parseUri, u) + (if u == uri then [edit] else []) {
      FilterMapAppend(done, [entry], EditFor(parseUri, u));
      SingleEdit(entry, parseUri, u);
    }
  }

  /** A single entry contributes its edit to its own URI and nothing to any other. */
  lemma SingleEdit(entry: Value, parseUri: string -> Option<string>, uri: string)
    ensures EditsFor([entry], parseUri, uri) ==
      if EditOf(entry, parseUri).Some? && EditOf(entry, parseUri).value.0 == uri then [EditOf(entry, parseUri).value.1] else []
  {
    assert [entry][1..] == [];
  }

  // ---------------------------------------------------------------- formatting

  /** What running the configured formatter on the document gave. */
  datatype FormatterRun = Formatted(text: string) | NoOutput | Failed(reason: string)

  /**
   * `formatting`: one edit replacing the whole document with the formatter's
   * output, from (0, 0) to the start of the line after the last one.
   */
  function FormattingEdits(document: Option<string>, tool: FormattingTool, run: FormatterRun): Option<seq<TextEdit>> {
    if document.None? || tool == NoFormatter then None
    else match run
      case Formatted(text) =>
        if text == document.value then None
        else Some([TextEdit(Range(Position(0, 0), Position(TruncU32(|Lines(document.value)|), 0)), text)])
      case _ => None
  }

  /**
   * An edit is produced exactly when the document is open, a formatter is
   * configured and it produced different text; the edit spans every line.
   */
  lemma FormattingEditsMeaning(document: Option<string>, tool: FormattingTool, run: FormatterRun)
    ensures var r := FormattingEdits(document, tool, run);
      && (r.Some? <==> document.Some? && tool != NoFormatter && run.Formatted? && run.text != document.value)
      && (r.Some? ==>
          |r.value| == 1 && r.value[0].newText == run.text && r.value[0].range.start == Position(0, 0) &&
          (|Lines(document.value)| < U32_LIMIT ==>
             r.value[0].range.end == Position(|Lines(document.value)|, 0)))
  {
  }

  /** The number of `c` in `s`. */
  function Count(s: string, c: char): nat {
    if s == [] then 0 else (if s[0] == c then 1 else 0) + Count(s[1..], c)
  }

  lemma {:induction false} CountAppend(a: string, b: string, c: char)
    ensures Count(a + b, c) == Count(a, c) + Count(b, c)
  {
    if a != [] {
      assert (a + b)[1..] == a[1..] + b;
      CountAppend(a[1..], b, c);
    } else {
      assert a + b == b;
    }
  }

  lemma {:induction false} CountAbsent(s: string, c: char)
    requires c !in s
    ensures Count(s, c) == 0
  {
    if s != [] {
      CountAbsent(s[1..], c);
    }
  }

  /**
   * The line count the whole-document edit uses: one line per line feed, and
   * one more when the text does not end with a line feed.
   */
  lemma {:induction false} LineCount(s: string)
    ensures |Lines(s)| == Count(s, '\n') + (if s != [] && s[|s| - 1] != '\n' then 1 else 0)
    decreases |s|
  {
    if s != [] {
      FindCharSpec(s, '\n');
      match FindChar(s, '\n')
      case None =>
        CountAbsent(s, '\n');
      case Some(i) =>
        assert s == s[..i] + [s[i]] + s[i + 1..];
        CountAppend(s[..i] + [s[i]], s[i + 1..], '\n');
        CountAppend(s[..i], [s[i]], '\n');
        CountAbsent(s[..i], '\n');
        assert Count([s[i]], '\n') == 1;
        LineCount(s[i + 1..]);
        if s[i + 1..] == [] {
          assert s[|s| - 1] == '\n';
        } else {
          assert s[|s| - 1] == s[i + 1..][|s[i + 1..]| - 1];
        }
    }
  }
}
