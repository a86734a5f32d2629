/**
 * The server's side of the sidecar wire format (server/src/jsonrpc.rs):
 * JSON-RPC 2.0 request and response records, their derived serde mappings to
 * JSON values, writing Content-Length framed messages, and reading them back
 * from the sidecar's standard output.
 *
 * JSON text is not modelled: `serde_json::to_string` is the parameter `dumps`
 * and `serde_json::from_slice` to a value is the parameter `parse`.
 */
module JsonRpc {
  import opened Wrappers
  import opened Text
  import opened Json
  import opened Framing
  import opened Errors
  import Stream

  /** A Request object (JSON-RPC 2.0, section 4); without an id it is a Notification (section 4.1). */
  datatype Request = Request(jsonrpc: string, id: Option<u64>, method_: string, params: Option<Value>)

  /** The Error object of a response (JSON-RPC 2.0, section 5.1). */
  datatype ResponseError = ResponseError(code: i32, message: string, data: Option<Value>)

  /** A Response object (JSON-RPC 2.0, section 5). */
  datatype Response = Response(jsonrpc: string, id: Option<u64>, result: Option<Value>, error: Option<ResponseError>)

  const CONTENT_LENGTH_PREFIX: string := "Content-Length: "

  // ---------------------------------------------------------------- requests

  /** `Request::new`: a request carrying `id`. */
  function NewRequest(id: u64, method_: string, params: Option<Value>): (r: Request)
    ensures r.jsonrpc == "2.0" && r.id == Some(id) && r.method_ == method_ && r.params == params
  {
    Request("2.0", Some(id), method_, params)
  }

  /** `Request::notification`: the same record with no id. */
  function Notification(method_: string, params: Option<Value>): (r: Request)
    ensures r.jsonrpc == "2.0" && r.id.None? && r.method_ == method_ && r.params == params
  {
    Request("2.0", None, method_, params)
  }

  /** The derived `Serialize` of `Request`: `id` and `params` are skipped when `None`. */
  function RequestToJson(r: Request): Value {
    var base := map["jsonrpc" := Str(r.jsonrpc), "method" := Str(r.method_)];
    var withId := if r.id.Some? then base["id" := Num(r.id.value)] else base;
    Obj(if r.params.Some? then withId["params" := r.params.value] else withId)
  }

  /** The derived `Deserialize` of `Request`. */
  function DecodeRequest(v: Value): Option<Request> {
    if !v.Obj? then None
    else
      var f := v.fields;
      match (RequiredField(f, "jsonrpc", DecodeString), OptionalField(f, "id", DecodeU64),
             RequiredField(f, "method", DecodeString), OptionalField(f, "params", DecodeAny))
      case (Some(j), Some(id), Some(m), Some(p)) => Some(Request(j, id, m, p))
      case _ => None
  }

  /** A serialised request names its version, method and id; a notification has no `id` member. */
  lemma RequestJsonShape(id: u64, method_: string, params: Option<Value>)
    ensures var v := RequestToJson(NewRequest(id, method_, params));
      v.Obj? && v.fields["jsonrpc"] == Str("2.0") && v.fields["id"] == Num(id) && v.fields["method"] == Str(method_)
    ensures var v := RequestToJson(Notification(method_, params));
      v.Obj? && "id" !in v.fields && v.fields["jsonrpc"] == Str("2.0") && v.fields["method"] == Str(method_)
    ensures "params" in RequestToJson(Notification(method_, params)).fields <==> params.Some?
  {
  }

  /** Serialising a request and deserialising it gives it back, unless its params are JSON `null`. */
  lemma RequestJsonRoundTrip(r: Request)
    requires r.params != Some(Null)
    ensures DecodeRequest(RequestToJson(r)) == Some(r)
  {
    var f := RequestToJson(r).fields;
    assert RequiredField(f, "jsonrpc", DecodeString) == Some(r.jsonrpc);
    assert RequiredField(f, "method", DecodeString) == Some(r.method_);
    assert OptionalField(f, "id", DecodeU64) == Some(r.id);
    assert OptionalField(f, "params", DecodeAny) == Some(r.params);
  }

  /** `params: Some(null)` is written as `"params": null`, which reads back as no params at all. */
  lemma NullParamsReadAsAbsent(r: Request)
    requires r.params == Some(Null)
    ensures DecodeRequest(RequestToJson(r)) == Some(r.(params := None))
  {
    var f := RequestToJson(r).fields;
    assert RequiredField(f, "jsonrpc", DecodeString) == Some(r.jsonrpc);
    assert RequiredField(f, "method", DecodeString) == Some(r.method_);
    assert OptionalField(f, "id", DecodeU64) == Some(r.id);
  }

  // ---------------------------------------------------------------- responses

  function DecodeResponseError(v: Value): Option<ResponseError> {
    if !v.Obj? then None
    else
      var f := v.fields;
      match (RequiredField(f, "code", DecodeI32), RequiredField(f, "message", DecodeString),
             OptionalField(f, "data", DecodeAny))
      case (Some(c), Some(m), Some(d)) => Some(ResponseError(c, m, d))
      case _ => None
  }

  /**
   * The derived `Deserialize` of `Response`: an object with a string `jsonrpc`;
   * `id`, `result` and `error` may each be absent or `null`; other members are ignored.
   */
  function DecodeResponse(v: Value): Option<Response> {
    if !v.Obj? then None
    else
      var f := v.fields;
      match (RequiredField(f, "jsonrpc", DecodeString), OptionalField(f, "id", DecodeU64),
             OptionalField(f, "result", DecodeAny), OptionalField(f, "error", DecodeResponseError))
      case (Some(j), Some(id), Some(res), Some(err)) => Some(Response(j, id, res, err))
      case _ => None
  }

  /** A success response keeps its id and result and has no error (JSON-RPC 2.0, section 5). */
  lemma SuccessResponseDecodes(id: u64, result: Value)
    requires result != Null
    ensures DecodeResponse(Obj(map["jsonrpc" := Str("2.0"), "id" := Num(id), "result" := result]))
         == Some(Response("2.0", Some(id), Some(result), None))
  {
    var f := map["jsonrpc" := Str("2.0"), "id" := Num(id), "result" := result];
    assert RequiredField(f, "jsonrpc", DecodeString) == Some("2.0");
    assert OptionalField(f, "id", DecodeU64) == Some(Some(id));
    assert OptionalField(f, "result", DecodeAny) == Some(Some(result));
  }

  /** An error response keeps its code and message and has no result (JSON-RPC 2.0, section 5.1). */
  lemma ErrorResponseDecodes(id: u64, code: i32, message: string)
    ensures var e := Obj(map["code" := Num(code), "message" := Str(message)]);
      DecodeResponse(Obj(map["jsonrpc" := Str("2.0"), "id" := Num(id), "error" := e]))
         == Some(Response("2.0", Some(id), None, Some(ResponseError(code, message, None))))
  {
    var ef := map["code" := Num(code), "message" := Str(message)];
    assert RequiredField(ef, "code", DecodeI32) == Some(code);
    assert RequiredField(ef, "message", DecodeString) == Some(message);
    assert DecodeResponseError(Obj(ef)) == Some(ResponseError(code, message, None));
    var f := map["jsonrpc" := Str("2.0"), "id" := Num(id), "error" := Obj(ef)];
    assert RequiredField(f, "jsonrpc", DecodeString) == Some("2.0");
    assert OptionalField(f, "id", DecodeU64) == Some(Some(id));
    assert OptionalField(f, "error", DecodeResponseError) == Some(Some(ResponseError(code, message, None)));
  }

  /** Only an object with a string `jsonrpc` member is a response. */
  lemma ResponseNeedsVersion(v: Value)
    requires !v.Obj? || "jsonrpc" !in v.fields || !v.fields["jsonrpc"].Str?
    ensures DecodeResponse(v).None?
  {
  }

  /** `serde_json::from_slice::<Response>`: empty input is never JSON; the rest is up to `parse`. */
  function ResponseFromBytes(body: seq<byte>, parse: seq<byte> -> Option<Value>): (r: Result<Response, Error>)
    ensures body == [] ==> r == Err(Protocol(JsonParse))
    ensures r.Ok? ==> parse(body).Some? && DecodeResponse(parse(body).value) == Some(r.value)
    ensures r.Err? ==> r.error == Protocol(JsonParse)
  {
    if body == [] then Err(Protocol(JsonParse))
    else match parse(body)
      case None => Err(Protocol(JsonParse))
      case Some(v) =>
        match DecodeResponse(v)
        case None => Err(Protocol(JsonParse))
        case Some(resp) => Ok(resp)
  }

  // ---------------------------------------------------------------- writing

  /**
   * `encode_message` (and the bytes `write_message` writes): the header
   * announcing the body's byte length, then the body's bytes.
   */
  method EncodeMessage(message: Request, dumps: Value -> string) returns (buf: seq<byte>)
    ensures buf == FrameOf(Utf8Encode(dumps(RequestToJson(message))))
    ensures |buf| == |Header(|Utf8Encode(dumps(RequestToJson(message)))|)| + |Utf8Encode(dumps(RequestToJson(message)))|
  {
    buf := EncodeText(dumps(RequestToJson(message)));
  }

  /** The buffer `encode_message` fills for already serialised text. */
  method EncodeText(body: string) returns (buf: seq<byte>)
    ensures buf == FrameOf(Utf8Encode(body))
    ensures |buf| == |Header(|Utf8Encode(body)|)| + |Utf8Encode(body)|
  {
    var bytes := Utf8Encode(body);
    // the header is ASCII, so `as_bytes` gives its character codes (`HeaderUtf8`)
    var headerBytes := HeaderBytes(|bytes|);
    buf := [];
    buf := buf + headerBytes;
    buf := buf + bytes;
  }

  /** `write_message`: writes the header, then the body. */
  method WriteMessage(writer: Stream.Writer, message: Request, dumps: Value -> string)
    modifies writer
    ensures writer.written == old(writer.written) + FrameOf(Utf8Encode(dumps(RequestToJson(message))))
  {
    WriteText(writer, dumps(RequestToJson(message)));
  }

  /** The two writes of `write_message` for already serialised text. */
  method WriteText(writer: Stream.Writer, body: string)
    modifies writer
    ensures writer.written == old(writer.written) + FrameOf(Utf8Encode(body))
  {
    var bytes := Utf8Encode(body);
    // the header is ASCII, so `as_bytes` gives its character codes (`HeaderUtf8`)
    var headerBytes := HeaderBytes(|bytes|);
    writer.WriteAll(headerBytes);
    writer.WriteAll(bytes);
  }

  // ---------------------------------------------------------------- reading

  /** Rust's `str::trim`. */
  function RustTrim(s: string): string {
    Trim(s, RUST_WHITESPACE)
  }

  /** `str::parse::<usize>` on a 64-bit target: an optional `+`, then at least one ASCII digit, below 2^64. */
  function ParseUsize(s: string): (r: Option<nat>)
    ensures r.Some? <==>
      (var d := if s != [] && s[0] == '+' then s[1..] else s; d != [] && AllDigits(d) && DecimalValue(d) < U64_LIMIT)
    ensures r.Some? ==> r.value < U64_LIMIT
    ensures r.Some? ==> r.value == DecimalValue(if s != [] && s[0] == '+' then s[1..] else s)
    ensures s != [] && AllDigits(s) && DecimalValue(s) < U64_LIMIT ==> r == Some(DecimalValue(s))
    ensures s == [] || s == "+" ==> r.None?
  {
    var digits := if s != [] && s[0] == '+' then s[1..] else s;
    if digits != [] && AllDigits(digits) && DecimalValue(digits) < U64_LIMIT then Some(DecimalValue(digits))
    else None
  }

  /** The error `read_content_length` reports for a Content-Length value that does not parse. */
  function InvalidLength(value: string): Error {
    Protocol(InvalidJsonRpc("invalid Content-Length: " + value))
  }

  /**
   * `read_content_length` from `pos`, with `found` the length seen so far: the
   * outcome and where the stream is left. End of stream before the blank line
   * is `Ok(None)`; the blank line without a length is `MissingContentLength`; a
   * value that does not parse is `InvalidJsonRpc`; a later length overwrites an
   * earlier one; lines are trimmed first, and other lines are skipped.
   */
  function ScanHeaders(data: seq<byte>, pos: nat, found: Option<nat>): (r: (Result<Option<nat>, Error>, nat))
    requires pos <= |data|
    ensures pos <= r.1 <= |data|
    decreases |data| - pos
  {
    var e := Stream.LineEnd(data, pos);
    if e == pos then (Ok(None), pos)
    else
      var line := RustTrim(Latin1(data[pos..e]));
      if line == "" then
        match found
        case Some(n) => (Ok(Some(n)), e)
        case None => (Err(Protocol(MissingContentLength)), e)
      else if HasPrefix(line, CONTENT_LENGTH_PREFIX) then
        var value := line[|CONTENT_LENGTH_PREFIX|..];
        match ParseUsize(value)
        case None => (Err(InvalidLength(value)), e)
        case Some(n) => ScanHeaders(data, e, Some(n))
      else ScanHeaders(data, e, found)
  }

  /**
   * `read_message` from `pos`: after the headers, exactly the announced number
   * of bytes is the body; a stream that ends inside the body is `Ok(None)`,
   * never a partial message.
   */
  function ReadMessageSpec(data: seq<byte>, pos: nat, parse: seq<byte> -> Option<Value>): (r: (Result<Option<Response>, Error>, nat))
    requires pos <= |data|
    ensures pos <= r.1 <= |data|
  {
    var (h, p) := ScanHeaders(data, pos, None);
    MessageAfterHeaders(data, h, p, parse)
  }

  /** The rest of `read_message`, given the outcome of the header scan and where it stopped. */
  function MessageAfterHeaders(data: seq<byte>, h: Result<Option<nat>, Error>, p: nat, parse: seq<byte> -> Option<Value>)
    : (r: (Result<Option<Response>, Error>, nat))
    requires p <= |data|
    ensures p <= r.1 <= |data|
  {
    match h
    case Err(e) => (Err(e), p)
    case Ok(None) => (Ok(None), p)
    case Ok(Some(n)) =>
      if p + n > |data| then (Ok(None), |data|)
      else (Delivered(ResponseFromBytes(data[p..p + n], parse)), p + n)
  }

  /** A decoded body as `read_message` returns it. */
  function Delivered(r: Result<Response, Error>): Result<Option<Response>, Error> {
    match r
    case Ok(resp) => Ok(Some(resp))
    case Err(e) => Err(e)
  }

  /** `read_content_length`: reads header lines until the blank line or the end of the stream. */
  method ReadContentLength(reader: Stream.Reader) returns (r: Result<Option<nat>, Error>)
    requires reader.Valid()
    modifies reader`pos
    ensures reader.Valid()
    ensures (r, reader.pos) == ScanHeaders(reader.data, old(reader.pos), None)
  {
    var contentLength: Option<nat> := None;
    while true
      invariant reader.Valid() && old(reader.pos) <= reader.pos
      invariant ScanHeaders(reader.data, old(reader.pos), None) == ScanHeaders(reader.data, reader.pos, contentLength)
      decreases |reader.data| - reader.pos
    {
      var start := reader.pos;
      var line := reader.ReadLine();
      if |line| == 0 {
        return Ok(None);
      }
      var trimmed := RustTrim(Latin1(line));
      if trimmed == "" {
        break;
      }
      if HasPrefix(trimmed, CONTENT_LENGTH_PREFIX) {
        var value := trimmed[|CONTENT_LENGTH_PREFIX|..];
        var parsed := ParseUsize(value);
        if parsed.None? {
          return Err(InvalidLength(value));
        }
        contentLength := parsed;
      }
    }
    match contentLength
    case Some(n) => r := Ok(Some(n));
    case None => r := Err(Protocol(MissingContentLength));
  }

  /** The body buffer of `read_message`, filled in place from the bytes read. */
  method CopyBody(chunk: seq<byte>) returns (body: array<byte>)
    ensures fresh(body) && body[..] == chunk
  {
    body := new byte[|chunk|];
    var i := 0;
    while i < |chunk|
      invariant 0 <= i <= |chunk|
      invariant body[..i] == chunk[..i]
    {
      body[i] := chunk[i];
      i := i + 1;
    }
  }

  /** `read_message`: the headers, then `read_exact` of the body into a buffer of the announced size. */
  method ReadMessage(reader: Stream.Reader, parse: seq<byte> -> Option<Value>) returns (r: Result<Option<Response>, Error>)
    requires reader.Valid()
    modifies reader`pos
    ensures reader.Valid()
    ensures (r, reader.pos) == ReadMessageSpec(reader.data, old(reader.pos), parse)
  {
    var length := ReadContentLength(reader);
    if length.Err? {
      return Err(length.error);
    }
    if length.value.None? {
      return Ok(None);
    }
    var n := length.value.value;
    var start := reader.pos;
    var chunk := reader.Read(n);
    if |chunk| < n {
      return Ok(None);
    }
    var body := CopyBody(chunk);
    r := Delivered(ResponseFromBytes(body[..], parse));
  }

  // ---------------------------------------------------------------- properties of reading

  /** `trim` takes the `\r\n` off a length line whose value ends in a non-blank character, and nothing else. */
  lemma RustTrimHeaderLine(d: string)
    requires d != [] && d[|d| - 1] !in RUST_WHITESPACE
    ensures RustTrim("Content-Length: " + d + "\r\n") == "Content-Length: " + d
  {
    var s := "Content-Length: " + d;
    assert s + "\r\n" == "Content-Length: " + d + "\r\n";
    assert s[0] == 'C';
    assert s[|s| - 1] == d[|d| - 1];
    TrimDropsTail(s, "\r\n", RUST_WHITESPACE);
  }

  /** The value of a length line, as `read_content_length` sees it after trimming. */
  lemma LengthLineValue(data: seq<byte>, pos: nat, next: nat, v: string)
    requires v != [] && v[|v| - 1] !in RUST_WHITESPACE && '\n' !in v
    requires HoldsText(data, pos, "Content-Length: " + v + "\r\n") && next == pos + |v| + 18
    ensures Stream.LineEnd(data, pos) == next
    ensures var line := RustTrim(Latin1(data[pos..next]));
      HasPrefix(line, CONTENT_LENGTH_PREFIX) && line[|CONTENT_LENGTH_PREFIX|..] == v
  {
    var t := "Content-Length: " + v + "\r\n";
    HeaderLineHasOneNewline(v);
    HeldLine(data, pos, t);
    RustTrimHeaderLine(v);
    var line := "Content-Length: " + v;
    assert HasPrefix(line, CONTENT_LENGTH_PREFIX) && line[|CONTENT_LENGTH_PREFIX|..] == v;
  }

  /** A `Content-Length: N` line records N as the length found so far, whatever was found before. */
  lemma LengthLine(data: seq<byte>, pos: nat, next: nat, d: string, found: Option<nat>)
    requires d != [] && AllDigits(d) && DecimalValue(d) < U64_LIMIT
    requires HoldsText(data, pos, "Content-Length: " + d + "\r\n") && next == pos + |d| + 18
    ensures ScanHeaders(data, pos, found) == ScanHeaders(data, next, Some(DecimalValue(d)))
  {
    assert IsDigit(d[|d| - 1]);
    LengthLineValue(data, pos, next, d);
  }

  /**
   * A length line whose value does not parse ends the headers with
   * `InvalidJsonRpc`, naming the value, right after that line.
   */
  lemma BadLengthLine(data: seq<byte>, pos: nat, next: nat, v: string, found: Option<nat>)
    requires v != [] && v[|v| - 1] !in RUST_WHITESPACE && '\n' !in v && ParseUsize(v).None?
    requires HoldsText(data, pos, "Content-Length: " + v + "\r\n") && next == pos + |v| + 18
    ensures ScanHeaders(data, pos, found) == (Err(InvalidLength(v)), next)
  {
    LengthLineValue(data, pos, next, v);
  }

  /** The blank line ends the headers: with a length found it is the result, without one the length is missing. */
  lemma BlankLine(data: seq<byte>, pos: nat, found: Option<nat>)
    requires HoldsText(data, pos, "\r\n")
    ensures ScanHeaders(data, pos, found) ==
      (if found.Some? then Ok(Some(found.value)) else Err(Protocol(MissingContentLength)), pos + 2)
  {
    HeldLine(data, pos, "\r\n");
    BlankTrimsToEmpty("\r\n", RUST_WHITESPACE);
  }

  /** Headers that start with the blank line announce no length: `MissingContentLength`. */
  lemma NoLengthBeforeBlank(data: seq<byte>, pos: nat)
    requires HoldsText(data, pos, "\r\n")
    ensures ScanHeaders(data, pos, None) == (Err(Protocol(MissingContentLength)), pos + 2)
  {
    BlankLine(data, pos, None);
  }

  /**
   * The lines from `pos` to the end of `data` are all header lines that
   * `read_content_length` reads past: none trims to nothing, and every length
   * value among them parses.
   */
  predicate HeadersRunOut(data: seq<byte>, pos: nat)
    requires pos <= |data|
    decreases |data| - pos
  {
    var e := Stream.LineEnd(data, pos);
    e == pos ||
    (var line := RustTrim(Latin1(data[pos..e]));
     line != "" &&
     (HasPrefix(line, CONTENT_LENGTH_PREFIX) ==> ParseUsize(line[|CONTENT_LENGTH_PREFIX|..]).Some?) &&
     HeadersRunOut(data, e))
  }

  /** The stream ending before the blank line is end of stream, not an error, whatever lengths were read. */
  lemma {:induction false} EofInsideHeaders(data: seq<byte>, pos: nat, found: Option<nat>)
    requires pos <= |data| && HeadersRunOut(data, pos)
    ensures ScanHeaders(data, pos, found) == (Ok(None), |data|)
    decreases |data| - pos
  {
    var e := Stream.LineEnd(data, pos);
    if e != pos {
      var line := RustTrim(Latin1(data[pos..e]));
      if HasPrefix(line, CONTENT_LENGTH_PREFIX) {
        EofInsideHeaders(data, e, ParseUsize(line[|CONTENT_LENGTH_PREFIX|..]));
      } else {
        EofInsideHeaders(data, e, found);
      }
    }
  }

  /** A single length line and then the end of the stream: end of stream, even though a length was read. */
  lemma EofAfterLengthLine(data: seq<byte>, pos: nat, d: string)
    requires d != [] && AllDigits(d) && DecimalValue(d) < U64_LIMIT
    requires HoldsText(data, pos, "Content-Length: " + d + "\r\n") && |data| == pos + |d| + 18
    ensures ScanHeaders(data, pos, None) == (Ok(None), |data|)
  {
    LengthLine(data, pos, |data|, d, None);
  }

  /** A length line followed by the blank line: the headers announce that length. */
  lemma LengthThenBlank(data: seq<byte>, pos: nat, mid: nat, end: nat, d: string, found: Option<nat>)
    requires d != [] && AllDigits(d) && DecimalValue(d) < U64_LIMIT
    requires HoldsText(data, pos, "Content-Length: " + d + "\r\n") && mid == pos + |d| + 18
    requires HoldsText(data, mid, "\r\n") && end == mid + 2
    ensures ScanHeaders(data, pos, found) == (Ok(Some(DecimalValue(d))), end)
  {
    LengthLine(data, pos, mid, d, found);
    BlankLine(data, mid, Some(DecimalValue(d)));
  }

  /** Of two Content-Length lines, the later one is the length. */
  lemma LaterLengthWins(data: seq<byte>, pos: nat, mid: nat, end: nat, d1: string, d2: string)
    requires d1 != [] && AllDigits(d1) && DecimalValue(d1) < U64_LIMIT
    requires d2 != [] && AllDigits(d2) && DecimalValue(d2) < U64_LIMIT
    requires HoldsText(data, pos, "Content-Length: " + d1 + "\r\n") && mid == pos + |d1| + 18
    requires HoldsText(data, mid, "Content-Length: " + d2 + "\r\n" + "\r\n") && end == mid + |d2| + 20
    ensures ScanHeaders(data, pos, None) == (Ok(Some(DecimalValue(d2))), end)
  {
    var l2 := "Content-Length: " + d2 + "\r\n";
    HoldsSplit(data, mid, l2, "\r\n");
    LengthLine(data, pos, mid, d1, None);
    LengthThenBlank(data, mid, mid + |d2| + 18, end, d2, Some(DecimalValue(d1)));
  }

  /** The header of a frame around `n` bytes is read as the length `n`, and reading stops right after it. */
  lemma ScanFrameHeader(data: seq<byte>, pos: nat, n: nat)
    requires n < U64_LIMIT && HoldsText(data, pos, Header(n))
    ensures ScanHeaders(data, pos, None) == (Ok(Some(n)), pos + |Header(n)|)
  {
    var d := NatToDecimal(n);
    var l1 := "Content-Length: " + d + "\r\n";
    assert Header(n) == l1 + "\r\n";
    HoldsSplit(data, pos, l1, "\r\n");
    LengthThenBlank(data, pos, pos + |d| + 18, pos + |d| + 20, d, None);
  }

  /**
   * Round trip: on a stream holding at `pos` the frame `encode_message` makes
   * around `body`, `read_message` decodes exactly `body` and stops right after it.
   */
  lemma ReadFramedMessage(data: seq<byte>, pos: nat, next: nat, body: seq<byte>, parse: seq<byte> -> Option<Value>)
    requires FramedAt(data, pos, body) && |body| < U64_LIMIT && next == pos + |FrameOf(body)|
    ensures ReadMessageSpec(data, pos, parse) == (Delivered(ResponseFromBytes(body, parse)), next)
  {
    var p := pos + |HeaderBytes(|body|)|;
    FramedHeaders(data, pos, p, body);
    ReadAnnouncedBody(data, pos, |body|, p, parse);
  }

  /** The headers of a frame announce its body's length and end where the body starts. */
  lemma FramedHeaders(data: seq<byte>, pos: nat, p: nat, body: seq<byte>)
    requires FramedAt(data, pos, body) && |body| < U64_LIMIT && p == pos + |HeaderBytes(|body|)|
    ensures ScanHeaders(data, pos, None) == (Ok(Some(|body|)), p)
    ensures p + |body| <= |data| && data[p..p + |body|] == body
  {
    FramedParts(data, pos, p, body);
    ScanFrameHeader(data, pos, |body|);
  }

  /** After headers announcing `n` bytes that are all there, `read_message` decodes exactly those bytes. */
  lemma ReadAnnouncedBody(data: seq<byte>, pos: nat, n: nat, p: nat, parse: seq<byte> -> Option<Value>)
    requires pos <= |data| && p + n <= |data|
    requires ScanHeaders(data, pos, None) == (Ok(Some(n)), p)
    ensures ReadMessageSpec(data, pos, parse) == (Delivered(ResponseFromBytes(data[p..p + n], parse)), p + n)
  {
    assert ReadMessageSpec(data, pos, parse) == MessageAfterHeaders(data, Ok(Some(n)), p, parse);
  }

  /** A stream that ends inside a body gives `Ok(None)` and is consumed to its end. */
  lemma TruncatedBody(data: seq<byte>, pos: nat, body: seq<byte>, parse: seq<byte> -> Option<Value>)
    requires |body| < U64_LIMIT
    requires pos + |HeaderBytes(|body|)| <= |data| < pos + |FrameOf(body)|
    requires data[pos..] == FrameOf(body)[..|data| - pos]
    ensures ReadMessageSpec(data, pos, parse) == (Ok(None), |data|)
  {
    var n := |body|;
    var h := HeaderBytes(n);
    HeaderBytesAreChars(n);
    forall i | 0 <= i < |h| ensures data[pos + i] == Header(n)[i] as int {
      assert data[pos..][i] == FrameOf(body)[i];
    }
    ScanFrameHeader(data, pos, n);
  }

  /** Encoding a request and reading the bytes back gives the response `parse` makes of its serialisation. */
  lemma EncodeThenRead(message: Request, dumps: Value -> string, parse: seq<byte> -> Option<Value>)
    requires |Utf8Encode(dumps(RequestToJson(message)))| < U64_LIMIT
    ensures var body := Utf8Encode(dumps(RequestToJson(message)));
      ReadMessageSpec(FrameOf(body), 0, parse) == (Delivered(ResponseFromBytes(body, parse)), |FrameOf(body)|)
  {
    var body := Utf8Encode(dumps(RequestToJson(message)));
    assert FrameOf(body)[0..|FrameOf(body)|] == FrameOf(body);
    ReadFramedMessage(FrameOf(body), 0, |FrameOf(body)|, body, parse);
  }

  /** Every error `read_content_length` reports is a missing or an unparsable length; every length fits in a `usize`. */
  lemma {:induction false} ScanHeadersOutcomes(data: seq<byte>, pos: nat, found: Option<nat>)
    requires pos <= |data| && (found.Some? ==> found.value < U64_LIMIT)
    ensures var r := ScanHeaders(data, pos, found).0;
      && (r.Err? ==> r.error == Protocol(MissingContentLength) || (r.error.Protocol? && r.error.protocol.InvalidJsonRpc?))
      && (r.Ok? && r.value.Some? ==> r.value.value < U64_LIMIT)
    decreases |data| - pos
  {
    var e := Stream.LineEnd(data, pos);
    if e > pos {
      var line := RustTrim(Latin1(data[pos..e]));
      if line != "" {
        if HasPrefix(line, CONTENT_LENGTH_PREFIX) {
          var value := line[|CONTENT_LENGTH_PREFIX|..];
          if ParseUsize(value).Some? {
            ScanHeadersOutcomes(data, e, ParseUsize(value));
          }
        } else {
          ScanHeadersOutcomes(data, e, found);
        }
      }
    }
  }
}
