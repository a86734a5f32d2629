/**
 * The manual LSP test client (`LSPClient` in scripts/test-lsp-manually.py).
 *
 * It writes Content-Length framed JSON-RPC 2.0 requests and notifications to the
 * server's standard input, reads framed messages back from its standard output
 * until the response carrying the id it just sent arrives, and drains whatever
 * log lines are ready on standard error without waiting.
 *
 * `json.dumps` and `json.loads(bytes.decode('utf-8'))` are the client's two
 * constants `dumps` and `loads`; the child process is replaced by its three
 * streams.
 */
module LspClient {
  import opened Wrappers
  import opened Text
  import opened Json
  import opened Framing
  import Stream

  /** The exceptions `_read_message` and `send_request` let escape. */
  datatype PyError =
    | IntParseError(literal: string)  // `int()` of a Content-Length value that is not an integer
    | JsonDecodeError                 // `json.loads` of a body that is not UTF-8 JSON text
    | NotAnObject                     // `in` / `.get` on a decoded body that is neither a dict nor `null`

  /** What `_read_message` does: return a decoded message, return None, or raise. */
  datatype ReadResult = Message(msg: Value) | NoMessage | Raised(err: PyError)

  const CONTENT_LENGTH: string := "Content-Length"

  // ---------------------------------------------------------------- envelopes

  /** The dict `send_request` serialises: a Request object (JSON-RPC 2.0, section 4). */
  function RequestEnvelope(id: int, method_: string, params: Value): (v: Value)
    ensures v.Obj? && v.fields.Keys == {"jsonrpc", "id", "method", "params"}
    ensures v.fields["jsonrpc"] == Str("2.0") && v.fields["id"] == Num(id)
    ensures v.fields["method"] == Str(method_) && v.fields["params"] == params
  {
    Obj(map["jsonrpc" := Str("2.0"), "id" := Num(id), "method" := Str(method_), "params" := params])
  }

  /** The dict `send_notification` serialises: a Notification (JSON-RPC 2.0, section 4.1), which has no id. */
  function NotificationEnvelope(method_: string, params: Value): (v: Value)
    ensures v.Obj? && v.fields.Keys == {"jsonrpc", "method", "params"}
    ensures v.fields["jsonrpc"] == Str("2.0") && v.fields["method"] == Str(method_)
  {
    Obj(map["jsonrpc" := Str("2.0"), "method" := Str(method_), "params" := params])
  }

  // ---------------------------------------------------------------- framing

  /** `(header + message).encode('utf-8')`, where the header counts the message's UTF-8 bytes. */
  function Frame(message: string): seq<byte> {
    Utf8Encode(Header(|Utf8Encode(message)|) + message)
  }

  /** A frame is its ASCII header followed by the body's UTF-8 bytes. */
  lemma FrameIsFrameOf(message: string)
    ensures Frame(message) == FrameOf(Utf8Encode(message))
  {
    var n := |Utf8Encode(message)|;
    Utf8Append(Header(n), message);
    HeaderIsAscii(n);
    HeaderBytesAreChars(n);
    assert Utf8Encode(Header(n)) == HeaderBytes(n);
  }

  /**
   * The Content-Length a frame announces is the body's byte count: never less
   * than its character count, and equal to it only for ASCII text.
   */
  lemma FrameLayout(message: string)
    ensures var n := |Utf8Encode(message)|;
      && |Frame(message)| == |Header(n)| + n
      && n >= |message| && (n == |message| <==> IsAscii(message))
  {
    FrameIsFrameOf(message);
  }

  // ---------------------------------------------------------------- reading

  /** Python's argument-less `str.strip()`. */
  function PyStrip(s: string): string {
    Trim(s, PY_WHITESPACE)
  }

  /** Python's argument-less `str.rstrip()`. */
  function PyRStrip(s: string): string {
    TrimEnd(s, PY_WHITESPACE)
  }

  /** A stripped header line with a ':' gives `(key.strip(), value.strip())`, split at the first ':'. */
  function HeaderEntry(line: string): Option<(string, string)> {
    match FindChar(line, ':')
    case None => None
    case Some(i) => Some((PyStrip(line[..i]), PyStrip(line[i + 1..])))
  }

  /**
   * The header loop of `_read_message`: read lines until one strips to nothing
   * (a blank line, or end of stream); lines without ':' are ignored and a later
   * header overwrites an earlier one with the same key.
   */
  function ReadHeaders(data: seq<byte>, pos: nat, headers: map<string, string>): (r: (map<string, string>, nat))
    requires pos <= |data|
    ensures pos <= r.1 <= |data|
    decreases |data| - pos
  {
    var e := Stream.LineEnd(data, pos);
    var line := PyStrip(Latin1(data[pos..e]));
    if line == "" then (headers, e)
    else
      var next := match HeaderEntry(line)
        case None => headers
        case Some(kv) => headers[kv.0 := kv.1];
      ReadHeaders(data, e, next)
  }

  /**
   * The digits `int()` accepts after the sign: a run of ASCII digits in which a
   * single `_` may separate two digits.
   */
  predicate PyDigits(s: string) {
    s != [] && IsDigit(s[0]) &&
    (|s| == 1 || PyDigits(s[1..]) || (s[1] == '_' && PyDigits(s[2..])))
  }

  /** Plain decimal digits are always accepted. */
  lemma {:induction false} DigitsArePyDigits(s: string)
    ensures s != [] && AllDigits(s) ==> PyDigits(s)
  {
    if |s| > 1 && AllDigits(s) {
      DigitsArePyDigits(s[1..]);
    }
  }

  /** The digits with the separators removed. */
  function DropUnderscores(s: string): (r: string)
    ensures |r| <= |s|
    ensures AllDigits(s) ==> r == s
  {
    if s == [] then [] else (if s[0] == '_' then [] else [s[0]]) + DropUnderscores(s[1..])
  }

  /** Removing the separators from accepted digits leaves plain decimal digits. */
  lemma {:induction false} DroppedDigits(s: string)
    ensures PyDigits(s) ==> DropUnderscores(s) != [] && AllDigits(DropUnderscores(s))
  {
    if PyDigits(s) && |s| > 1 {
      assert s[0] != '_';
      if PyDigits(s[1..]) {
        DroppedDigits(s[1..]);
      } else {
        DroppedDigits(s[2..]);
        assert DropUnderscores(s[1..]) == DropUnderscores(s[2..]) by { assert s[1..][1..] == s[2..]; }
      }
      assert DropUnderscores(s) == [s[0]] + DropUnderscores(s[1..]);
    }
  }

  /** What follows an optional leading sign. */
  function Unsigned(s: string): string {
    if s != [] && (s[0] == '+' || s[0] == '-') then s[1..] else s
  }

  /** Python's `int(s)` for an already stripped `s`: an optional sign, then digits with optional `_` separators. */
  function PyInt(s: string): (r: Option<int>)
    ensures r.Some? <==> PyDigits(Unsigned(s))
    ensures AllDigits(s) && s != [] ==> r == Some(DecimalValue(s))
  {
    var digits := Unsigned(s);
    DigitsArePyDigits(s);
    DroppedDigits(Unsigned(s));
    if PyDigits(digits) then
      var magnitude: int := DecimalValue(DropUnderscores(digits));
      Some(if s[0] == '-' then -magnitude else magnitude)
    else None
  }

  /** `int()` reads a `_` between two digits as a separator. */
  lemma UnderscoreSeparator()
    ensures PyInt("1_0") == Some(10)
  {
    assert PyDigits("1_0") by { assert "1_0"[2..] == "0" && PyDigits("0"); }
    assert DropUnderscores("1_0") == "10" by { assert "1_0"[1..] == "_0"; }
    assert DecimalValue("10") == 10;
  }

  /** The separator works after a sign too. */
  lemma SignedUnderscoreSeparator()
    ensures PyInt("-2_5") == Some(-25)
  {
    assert Unsigned("-2_5") == "2_5";
    assert PyDigits("2_5") by { assert "2_5"[2..] == "5" && PyDigits("5"); }
    assert DropUnderscores("2_5") == "25" by { assert "2_5"[1..] == "_5"; }
    assert DecimalValue("25") == 25;
  }

  /** A `_` anywhere but between two digits, or a sign with no digits, makes `int()` raise. */
  lemma MisplacedUnderscores()
    ensures PyInt("1__0").None? && PyInt("_1").None? && PyInt("1_").None? && PyInt("+").None?
  {
    assert !PyDigits("_0") && !PyDigits("__0") && !PyDigits("") && !PyDigits("_");
    assert "1__0"[1..] == "__0" && "1__0"[2..] == "_0" && "1_"[1..] == "_" && "1_"[2..] == "";
  }

  /** `json.loads` never accepts empty text; every other body is up to `loads`. */
  function DecodeBody(body: seq<byte>, loads: seq<byte> -> Option<Value>): (r: ReadResult)
    ensures r.Message? || r == Raised(JsonDecodeError)
  {
    if body == [] then Raised(JsonDecodeError)
    else match loads(body)
      case None => Raised(JsonDecodeError)
      case Some(v) => Message(v)
  }

  /** `int(headers.get('Content-Length', 0))`: a missing header counts as 0. */
  function AnnouncedLength(headers: map<string, string>): Option<int> {
    if CONTENT_LENGTH in headers then PyInt(headers[CONTENT_LENGTH]) else Some(0)
  }

  /**
   * `_read_message` on the stream at `pos`: what it returns or raises and where
   * it leaves the stream. A message always consumes at least one byte.
   */
  function NextMessage(data: seq<byte>, pos: nat, loads: seq<byte> -> Option<Value>): (r: (ReadResult, nat))
    requires pos <= |data|
    ensures pos <= r.1 <= |data|
    ensures r.0.Message? ==> pos < r.1
  {
    var (headers, p) := ReadHeaders(data, pos, map[]);
    MessageAfter(data, headers, p, loads)
  }

  /**
   * The rest of `_read_message`, once the headers are read up to `p`: the
   * announced length, then a read of that many bytes (fewer at end of stream).
   */
  function MessageAfter(data: seq<byte>, headers: map<string, string>, p: nat, loads: seq<byte> -> Option<Value>)
    : (r: (ReadResult, nat))
    requires p <= |data|
    ensures p <= r.1 <= |data|
    ensures r.0.Message? ==> p < r.1
  {
    match AnnouncedLength(headers)
    case None => (Raised(IntParseError(headers[CONTENT_LENGTH])), p)
    case Some(n) =>
      if n > 0 then
        var q := if p + n <= |data| then p + n else |data|;
        (DecodeBody(data[p..q], loads), q)
      else (NoMessage, p)
  }

  lemma StripHeaderLine(d: string)
    requires d != [] && AllDigits(d)
    ensures PyStrip("Content-Length: " + d + "\r\n") == "Content-Length: " + d
  {
    var s := "Content-Length: " + d;
    assert s + "\r\n" == "Content-Length: " + d + "\r\n";
    assert s[0] == 'C';
    assert s[|s| - 1] == d[|d| - 1];
    TrimDropsTail(s, "\r\n", PY_WHITESPACE);
  }

  lemma FirstColon(d: string)
    requires d != [] && AllDigits(d)
    ensures FindChar("Content-Length: " + d, ':') == Some(14)
  {
    var s := "Content-Length: " + d;
    assert s[14] == ':' && ':' !in s[..14];
    FindCharFirst(s, ':', 14);
  }

  lemma StripValue(d: string)
    requires d != [] && AllDigits(d)
    ensures PyStrip(" " + d) == d
  {
    var ws := PY_WHITESPACE;
    assert d[0] !in ws && d[|d| - 1] !in ws by {
      assert IsDigit(d[0]) && IsDigit(d[|d| - 1]);
    }
    assert TrimStart(d, ws) == d;
    assert (" " + d)[0] in ws;
    assert (" " + d)[1..] == d;
    assert TrimStart(" " + d, ws) == d;
    TrimNoop(d, ws);
  }

  /** The first line of a frame header strips to `Content-Length: N` and gives that one header. */
  lemma ContentLengthLine(d: string)
    requires d != [] && AllDigits(d)
    ensures PyStrip("Content-Length: " + d + "\r\n") == "Content-Length: " + d
    ensures HeaderEntry("Content-Length: " + d) == Some((CONTENT_LENGTH, d))
  {
    StripHeaderLine(d);
    FirstColon(d);
    HeaderKey(d);
    HeaderValue(d);
  }

  lemma HeaderKey(d: string)
    ensures PyStrip(("Content-Length: " + d)[..14]) == CONTENT_LENGTH
  {
    assert ("Content-Length: " + d)[..14] == CONTENT_LENGTH;
    TrimNoop(CONTENT_LENGTH, PY_WHITESPACE);
  }

  lemma HeaderValue(d: string)
    requires d != [] && AllDigits(d)
    ensures PyStrip(("Content-Length: " + d)[15..]) == d
  {
    assert ("Content-Length: " + d)[15..] == " " + d;
    StripValue(d);
  }

  /** One `readline` giving the text `t` that strips to a `key: value` line records that header. */
  lemma ReadHeadersLine(data: seq<byte>, pos: nat, next: nat, headers: map<string, string>, t: string,
                        key: string, value: string)
    requires next == pos + |t| && next <= |data| && Stream.LineEnd(data, pos) == next
    requires Latin1(data[pos..next]) == t && PyStrip(t) != ""
    requires HeaderEntry(PyStrip(t)) == Some((key, value))
    ensures ReadHeaders(data, pos, headers) == ReadHeaders(data, next, headers[key := value])
  {
  }

  /** One `readline` giving a text that strips to nothing ends the headers. */
  lemma ReadHeadersBlank(data: seq<byte>, pos: nat, next: nat, headers: map<string, string>, t: string)
    requires next == pos + |t| && next <= |data| && Stream.LineEnd(data, pos) == next
    requires Latin1(data[pos..next]) == t && PyStrip(t) == ""
    ensures ReadHeaders(data, pos, headers) == (headers, next)
  {
  }

  lemma FirstHeaderLine(data: seq<byte>, pos: nat, next: nat, d: string)
    requires d != [] && AllDigits(d)
    requires HoldsText(data, pos, "Content-Length: " + d + "\r\n") && next == pos + |d| + 18
    ensures ReadHeaders(data, pos, map[]) == ReadHeaders(data, next, map[CONTENT_LENGTH := d])
  {
    var line1 := "Content-Length: " + d + "\r\n";
    HeaderLineHasOneNewline(d);
    HeldLine(data, pos, line1);
    ContentLengthLine(d);
    ReadHeadersLine(data, pos, next, map[], line1, CONTENT_LENGTH, d);
  }

  lemma BlankHeaderLine(data: seq<byte>, pos: nat, headers: map<string, string>)
    requires HoldsText(data, pos, "\r\n")
    ensures ReadHeaders(data, pos, headers) == (headers, pos + 2)
  {
    HeldLine(data, pos, "\r\n");
    BlankTrimsToEmpty("\r\n", PY_WHITESPACE);
    ReadHeadersBlank(data, pos, pos + 2, headers, "\r\n");
  }

  /** A `Content-Length: N` line followed by a blank line is read as that one header. */
  lemma HeaderBlock(data: seq<byte>, pos: nat, d: string)
    requires d != [] && AllDigits(d)
    requires HoldsText(data, pos, "Content-Length: " + d + "\r\n" + "\r\n")
    ensures ReadHeaders(data, pos, map[]) == (map[CONTENT_LENGTH := d], pos + |d| + 20)
  {
    var line1 := "Content-Length: " + d + "\r\n";
    var e1 := pos + |d| + 18;
    HoldsSplit(data, pos, line1, "\r\n");
    FirstHeaderLine(data, pos, e1, d);
    BlankHeaderLine(data, e1, map[CONTENT_LENGTH := d]);
  }

  /** Reading a header block `Content-Length: N` yields exactly that header and stops after the blank line. */
  lemma ReadHeaderBlock(data: seq<byte>, pos: nat, p: nat, n: nat)
    requires HoldsText(data, pos, Header(n)) && p == pos + |Header(n)|
    ensures ReadHeaders(data, pos, map[]) == (map[CONTENT_LENGTH := NatToDecimal(n)], p)
  {
    assert Header(n) == "Content-Length: " + NatToDecimal(n) + "\r\n" + "\r\n";
    HeaderBlock(data, pos, NatToDecimal(n));
  }

  /** After headers announcing N > 0 bytes that are all there, `_read_message` decodes exactly those N bytes. */
  lemma ReadAnnouncedBody(data: seq<byte>, pos: nat, p: nat, next: nat, body: seq<byte>, loads: seq<byte> -> Option<Value>)
    requires pos <= |data| && body != [] && next == p + |body| <= |data| && data[p..next] == body
    requires ReadHeaders(data, pos, map[]) == (map[CONTENT_LENGTH := NatToDecimal(|body|)], p)
    ensures NextMessage(data, pos, loads) == (DecodeBody(body, loads), next)
  {
    DecimalLength(|body|);
    AnnouncedBody(data, map[CONTENT_LENGTH := NatToDecimal(|body|)], p, next, body, loads);
  }

  /** After headers announcing N > 0 bytes that are all there, the body read is exactly those N bytes. */
  lemma AnnouncedBody(data: seq<byte>, headers: map<string, string>, p: nat, next: nat, body: seq<byte>,
                      loads: seq<byte> -> Option<Value>)
    requires body != [] && next == p + |body| <= |data| && data[p..next] == body
    requires AnnouncedLength(headers) == Some(|body|)
    ensures MessageAfter(data, headers, p, loads) == (DecodeBody(body, loads), next)
  {
  }

  /** The header `send_request` writes announces exactly the length it was given. */
  lemma DecimalLength(n: nat)
    ensures AnnouncedLength(map[CONTENT_LENGTH := NatToDecimal(n)]) == Some(n)
  {
    var s := NatToDecimal(n);
    assert s != [] && AllDigits(s) && DecimalValue(s) == n;
  }

  /**
   * Round trip: on a stream holding the frame around a non-empty encoded body at
   * `pos`, `_read_message` returns what `json.loads` makes of exactly that body
   * and consumes the header and the N body bytes, nothing more. With
   * `FrameIsFrameOf`, this covers every frame `send_request` and
   * `send_notification` write.
   */
  lemma FrameRoundTrip(data: seq<byte>, pos: nat, next: nat, body: seq<byte>, loads: seq<byte> -> Option<Value>)
    requires FramedAt(data, pos, body) && body != [] && next == pos + |FrameOf(body)|
    ensures NextMessage(data, pos, loads) == (DecodeBody(body, loads), next)
  {
    var p := pos + |HeaderBytes(|body|)|;
    FramedParts(data, pos, p, body);
    ReadHeaderBlock(data, pos, p, |body|);
    ReadAnnouncedBody(data, pos, p, next, body, loads);
  }

  /** At end of stream `readline` yields nothing, so `_read_message` returns None without consuming anything. */
  lemma EndOfStream(data: seq<byte>, loads: seq<byte> -> Option<Value>)
    ensures NextMessage(data, |data|, loads) == (NoMessage, |data|)
  {
    assert Latin1(data[|data|..|data|]) == [];
  }

  /** A Content-Length that is absent, zero or negative makes `_read_message` return None after the headers. */
  lemma NoPositiveLength(data: seq<byte>, pos: nat, loads: seq<byte> -> Option<Value>)
    requires pos <= |data|
    requires var h := ReadHeaders(data, pos, map[]).0;
      CONTENT_LENGTH !in h || (PyInt(h[CONTENT_LENGTH]).Some? && PyInt(h[CONTENT_LENGTH]).value <= 0)
    ensures NextMessage(data, pos, loads) == (NoMessage, ReadHeaders(data, pos, map[]).1)
  {
  }

  /** A Content-Length value `int()` rejects makes `_read_message` raise, quoting the value. */
  lemma NonIntegerLength(data: seq<byte>, pos: nat, loads: seq<byte> -> Option<Value>)
    requires pos <= |data|
    requires var h := ReadHeaders(data, pos, map[]).0;
      CONTENT_LENGTH in h && PyInt(h[CONTENT_LENGTH]).None?
    ensures var h := ReadHeaders(data, pos, map[]).0;
      NextMessage(data, pos, loads).0 == Raised(IntParseError(h[CONTENT_LENGTH]))
  {
  }

  // ---------------------------------------------------------------- correlation

  /** Python's `msg["id"] == request_id` for a JSON id: `True == 1` and `False == 0` hold too. */
  predicate IdEquals(v: Value, id: int) {
    match v
    case Num(n) => n == id
    case Bool(b) => (if b then 1 else 0) == id
    case _ => false
  }

  /** `"id" in msg and msg["id"] == request_id`. */
  predicate Answers(msg: Value, id: int) {
    msg.Obj? && "id" in msg.fields && IdEquals(msg.fields["id"], id)
  }

  /** A request envelope is answered by its own id; a notification can answer none. */
  lemma EnvelopeIds(id: int, method_: string, params: Value)
    ensures Answers(RequestEnvelope(id, method_, params), id)
    ensures forall other :: !Answers(NotificationEnvelope(method_, params), other)
  {
  }

  /**
   * The read loop of `send_request`: messages that do not answer `id`
   * (notifications, responses to other requests) are consumed and skipped; the
   * first answer is returned; a None from `_read_message`, or a body that
   * `json.loads` reads as `None` (JSON `null`), ends the loop with `{}`. The
   * stream shrinks on every skip, so the loop always ends.
   */
  function AwaitResponse(data: seq<byte>, pos: nat, id: int, loads: seq<byte> -> Option<Value>)
    : (r: (Result<Value, PyError>, nat))
    requires pos <= |data|
    ensures pos <= r.1 <= |data|
    ensures r.0.Ok? ==> r.0.value == Obj(map[]) || Answers(r.0.value, id)
    decreases |data| - pos
  {
    var (m, p) := NextMessage(data, pos, loads);
    match m
    case NoMessage => (Ok(Obj(map[])), p)
    case Raised(e) => (Err(e), p)
    case Message(v) =>
      if v == Null then (Ok(Obj(map[])), p)
      else if !v.Obj? then (Err(NotAnObject), p)
      else if Answers(v, id) then (Ok(v), p)
      else AwaitResponse(data, p, id, loads)
  }

  /** A stream that is already exhausted answers with `{}` at once. */
  lemma AwaitAtEnd(data: seq<byte>, id: int, loads: seq<byte> -> Option<Value>)
    ensures AwaitResponse(data, |data|, id, loads) == (Ok(Obj(map[])), |data|)
  {
    EndOfStream(data, loads);
  }

  /** A framed message that does not answer `id` is skipped: waiting resumes right after it, at `next`. */
  lemma AwaitSkips(data: seq<byte>, pos: nat, next: nat, body: seq<byte>, v: Value, id: int,
                   loads: seq<byte> -> Option<Value>)
    requires FramedAt(data, pos, body) && body != [] && next == pos + |FrameOf(body)|
    requires loads(body) == Some(v) && v.Obj? && !Answers(v, id)
    ensures AwaitResponse(data, pos, id, loads) == AwaitResponse(data, next, id, loads)
  {
    FrameRoundTrip(data, pos, next, body, loads);
  }

  /** A framed message that answers `id` is returned, and nothing after it (from `next` on) is read. */
  lemma AwaitMatches(data: seq<byte>, pos: nat, next: nat, body: seq<byte>, v: Value, id: int,
                     loads: seq<byte> -> Option<Value>)
    requires FramedAt(data, pos, body) && body != [] && next == pos + |FrameOf(body)|
    requires loads(body) == Some(v) && Answers(v, id)
    ensures AwaitResponse(data, pos, id, loads) == (Ok(v), next)
  {
    FrameRoundTrip(data, pos, next, body, loads);
  }

  /** A framed body that `json.loads` reads as `None` ends the wait with `{}`, right after that frame. */
  lemma NullReplyEndsWait(data: seq<byte>, pos: nat, next: nat, body: seq<byte>, id: int,
                          loads: seq<byte> -> Option<Value>)
    requires FramedAt(data, pos, body) && body != [] && next == pos + |FrameOf(body)|
    requires loads(body) == Some(Null)
    ensures AwaitResponse(data, pos, id, loads) == (Ok(Obj(map[])), next)
  {
    FrameRoundTrip(data, pos, next, body, loads);
  }

  /**
   * Two notifications written before the response do not keep the response from
   * being matched: the call returns it and the stream ends up just past it.
   */
  lemma InterleavedNotifications(data: seq<byte>, p1: nat, p2: nat, p3: nat, end: nat,
                                 b1: seq<byte>, b2: seq<byte>, b3: seq<byte>,
                                 v1: Value, v2: Value, r: Value, id: int, loads: seq<byte> -> Option<Value>)
    requires b1 != [] && b2 != [] && b3 != []
    requires FramedAt(data, p1, b1) && p2 == p1 + |FrameOf(b1)|
    requires FramedAt(data, p2, b2) && p3 == p2 + |FrameOf(b2)|
    requires FramedAt(data, p3, b3) && end == p3 + |FrameOf(b3)|
    requires loads(b1) == Some(v1) && v1.Obj? && "id" !in v1.fields
    requires loads(b2) == Some(v2) && v2.Obj? && "id" !in v2.fields
    requires loads(b3) == Some(r) && Answers(r, id)
    ensures AwaitResponse(data, p1, id, loads) == (Ok(r), end)
  {
    AwaitSkips(data, p1, p2, b1, v1, id, loads);
    AwaitSkips(data, p2, p3, b2, v2, id, loads);
    AwaitMatches(data, p3, end, b3, r, id, loads);
  }

  // ---------------------------------------------------------------- standard error

  /** `line.decode('utf-8').rstrip()` for each ready line, in arrival order. */
  function RStripAll(lines: seq<string>): (r: seq<string>)
    ensures |r| == |lines|
    ensures forall k :: 0 <= k < |lines| ==> r[k] == PyRStrip(lines[k])
  {
    if lines == [] then [] else [PyRStrip(lines[0])] + RStripAll(lines[1..])
  }

  // ---------------------------------------------------------------- the client

  class Client {
    const dumps: Value -> string
    const loads: seq<byte> -> Option<Value>
    /** The server's standard output. */
    const stdout: Stream.Reader
    /** Everything written to the server's standard input so far. */
    var stdin: seq<byte>
    /** The standard error lines that are ready to be read now, oldest first. */
    var stderrReady: seq<string>
    /** The last id handed out; 0 before the first request. */
    var requestId: nat
    var running: bool

    ghost predicate Valid()
      reads this, stdout
    {
      stdout.Valid()
    }

    /** `__init__`: the process is started and no id has been used yet. */
    constructor (output: seq<byte>, errors: seq<string>, dumps: Value -> string, loads: seq<byte> -> Option<Value>)
      ensures Valid() && fresh(stdout)
      ensures stdout.data == output && stdout.pos == 0 && stderrReady == errors
      ensures requestId == 0 && stdin == [] && running
      ensures this.dumps == dumps && this.loads == loads
    {
      this.dumps := dumps;
      this.loads := loads;
      stdout := new Stream.Reader(output);
      stdin := [];
      stderrReady := errors;
      requestId := 0;
      running := true;
    }

    /** The header loop of `_read_message`. */
    method ReadHeaderLines() returns (headers: map<string, string>)
      requires Valid()
      modifies stdout
      ensures Valid()
      ensures (headers, stdout.pos) == ReadHeaders(stdout.data, old(stdout.pos), map[])
    {
      headers := map[];
      var done := false;
      while !done
        invariant stdout.Valid() && old(stdout.pos) <= stdout.pos
        invariant !done ==> ReadHeaders(stdout.data, old(stdout.pos), map[]) == ReadHeaders(stdout.data, stdout.pos, headers)
        invariant done ==> ReadHeaders(stdout.data, old(stdout.pos), map[]) == (headers, stdout.pos)
        decreases |stdout.data| - stdout.pos, if done then 0 else 1
      {
        var raw := stdout.ReadLine();
        var line := PyStrip(Latin1(raw));
        if line == "" {
          done := true;
        } else {
          match FindChar(line, ':')
          case Some(i) =>
            headers := headers[PyStrip(line[..i]) := PyStrip(line[i + 1..])];
          case None =>
        }
      }
    }

    /** `_read_message`. */
    method ReadMessage() returns (r: ReadResult)
      requires Valid()
      modifies stdout
      ensures Valid()
      ensures (r, stdout.pos) == NextMessage(stdout.data, old(stdout.pos), loads)
    {
      var headers := ReadHeaderLines();
      r := ReadBody(headers);
    }

    /** The rest of `_read_message`, after the headers. */
    method ReadBody(headers: map<string, string>) returns (r: ReadResult)
      requires Valid()
      modifies stdout
      ensures Valid()
      ensures (r, stdout.pos) == MessageAfter(stdout.data, headers, old(stdout.pos), loads)
    {
      var length := AnnouncedLength(headers);
      if length.None? {
        return Raised(IntParseError(headers[CONTENT_LENGTH]));
      }
      var contentLength := length.value;
      if contentLength > 0 {
        var body := stdout.Read(contentLength);
        if body == [] {
          return Raised(JsonDecodeError);
        }
        var decoded := loads(body);
        if decoded.None? {
          return Raised(JsonDecodeError);
        }
        return Message(decoded.value);
      }
      return NoMessage;
    }

    /**
     * `send_request`: takes the next id, writes the framed request, then reads
     * until the answer to that id (or `{}` when the stream gives out).
     */
    method SendRequest(method_: string, params: Value) returns (r: Result<Value, PyError>)
      requires Valid()
      modifies this, stdout
      ensures Valid()
      ensures requestId == old(requestId) + 1
      ensures stdin == old(stdin) + Frame(dumps(RequestEnvelope(requestId, method_, params)))
      ensures (r, stdout.pos) == AwaitResponse(stdout.data, old(stdout.pos), requestId, loads)
      ensures stderrReady == old(stderrReady) && running == old(running)
    {
      requestId := requestId + 1;
      var id := requestId;
      var message := dumps(RequestEnvelope(id, method_, params));
      var contentLength := |Utf8Encode(message)|;
      var header := "Content-Length: " + NatToDecimal(contentLength) + "\r\n\r\n";
      stdin := stdin + Utf8Encode(header + message);
      r := AwaitReply(id);
    }

    /** The read loop of `send_request`: skips every message that does not answer `id`. */
    method AwaitReply(id: int) returns (r: Result<Value, PyError>)
      requires Valid()
      modifies stdout
      ensures Valid()
      ensures (r, stdout.pos) == AwaitResponse(stdout.data, old(stdout.pos), id, loads)
    {
      while true
        invariant stdout.Valid() && old(stdout.pos) <= stdout.pos
        invariant AwaitResponse(stdout.data, old(stdout.pos), id, loads) == AwaitResponse(stdout.data, stdout.pos, id, loads)
        decreases |stdout.data| - stdout.pos
      {
        var msg := ReadMessage();
        match msg
        case NoMessage =>
          return Ok(Obj(map[]));
        case Raised(e) =>
          return Err(e);
        case Message(v) =>
          if v == Null {
            return Ok(Obj(map[]));
          }
          if !v.Obj? {
            return Err(NotAnObject);
          }
          if "id" in v.fields && IdEquals(v.fields["id"], id) {
            return Ok(v);
          }
          // a notification, or the response to another request: skipped
      }
    }

    /** `send_notification`: writes the framed notification; no id is used and nothing is read. */
    method SendNotification(method_: string, params: Value)
      requires Valid()
      modifies this
      ensures Valid()
      ensures stdin == old(stdin) + Frame(dumps(NotificationEnvelope(method_, params)))
      ensures requestId == old(requestId) && stderrReady == old(stderrReady) && running == old(running)
    {
      var message := dumps(NotificationEnvelope(method_, params));
      var contentLength := |Utf8Encode(message)|;
      var header := "Content-Length: " + NatToDecimal(contentLength) + "\r\n\r\n";
      stdin := stdin + Utf8Encode(header + message);
    }

    /**
     * `read_stderr`: takes every line that is ready, stripped of trailing
     * whitespace, in arrival order; with nothing ready it returns `[]` at once.
     */
    method ReadStderr() returns (lines: seq<string>)
      requires Valid()
      modifies this`stderrReady
      ensures Valid()
      ensures lines == RStripAll(old(stderrReady)) && stderrReady == []
    {
      lines := [];
      ghost var waiting := stderrReady;
      // `select` with timeout 0 reports ready exactly while a line is waiting
      while stderrReady != []
        invariant |lines| + |stderrReady| == |waiting| && stderrReady == waiting[|lines|..]
        invariant forall k :: 0 <= k < |lines| ==> lines[k] == PyRStrip(waiting[k])
        decreases |stderrReady|
      {
        lines := lines + [PyRStrip(stderrReady[0])];
        stderrReady := stderrReady[1..];
      }
      assert lines == RStripAll(waiting);
    }

    /** `close`: terminates the process and waits for it. */
    method Close()
      modifies this`running
      ensures !running
    {
      running := false;
    }
  }
}
