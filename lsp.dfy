/** The Language Server Protocol records the server builds (as `lsp_types` defines them), reduced to the fields it sets. */
module Lsp {
  import opened Wrappers
  import opened Json

  /** A zero-based position; both coordinates are `u32`. */
  datatype Position = Position(line: nat, character: nat)

  datatype Range = Range(start: Position, end: Position)

  datatype DiagnosticSeverity = SeverityError | SeverityWarning | SeverityInformation | SeverityHint

  datatype Diagnostic = Diagnostic(
    range: Range,
    severity: Option<DiagnosticSeverity>,
    code: Option<string>,
    source: Option<string>,
    message: string)

  /** A location; its `uri` is the text `Url::parse` produced. */
  datatype Location = Location(uri: string, range: Range)

  datatype TextEdit = TextEdit(range: Range, newText: string)

  datatype CompletionItemKind =
    | KindText | KindFunction | KindField | KindClass | KindInterface | KindVariable
    | KindKeyword | KindSnippet | KindModule | KindEnum | KindConstant

  datatype CompletionItem = CompletionItem(
    label_: string,
    kind: Option<CompletionItemKind>,
    detail: Option<string>,
    insertText: Option<string>)

  datatype SymbolKind =
    | SymbolClass | SymbolInterface | SymbolFunction | SymbolProperty | SymbolVariable | SymbolEnum
    | SymbolEnumMember | SymbolModule | SymbolConstructor | SymbolConstant | SymbolObject

  /** One semantic token in the relative encoding; every field is a `u32`. */
  datatype SemanticToken = SemanticToken(
    deltaLine: nat,
    deltaStart: nat,
    length: nat,
    tokenType: nat,
    tokenModifiersBitset: nat)

  datatype GotoDefinitionResponse = Scalar(location: Location) | Array(locations: seq<Location>)
}
