/**
 * The Content-Length framing of the Language Server Protocol's base protocol
 * ("Header Part", Language Server Protocol Specification 3.17): an ASCII header
 * `Content-Length: N` ended by an empty line, then N bytes of content. Both the
 * Python client and the Rust server write exactly this shape.
 */
module Framing {
  import opened Text
  import Stream

  /** `f"Content-Length: {content_length}\r\n\r\n"`. */
  function Header(length: nat): string {
    "Content-Length: " + NatToDecimal(length) + "\r\n\r\n"
  }

  lemma HeaderIsAscii(n: nat)
    ensures IsAscii(Header(n))
  {
    AsciiAppend("Content-Length: ", NatToDecimal(n));
    AsciiAppend("Content-Length: " + NatToDecimal(n), "\r\n\r\n");
  }

  /** The header announcing `n` bytes, as the bytes of its (ASCII) characters. */
  function HeaderBytes(n: nat): (bs: seq<byte>)
    ensures |bs| == |Header(n)|
  {
    HeaderIsAscii(n);
    var h := Header(n);
    seq(|h|, i requires 0 <= i < |h| => h[i] as int)
  }

  lemma HeaderBytesAreChars(n: nat)
    ensures forall i :: 0 <= i < |HeaderBytes(n)| ==> HeaderBytes(n)[i] == Header(n)[i] as int
  {
  }

  /** The header's UTF-8 encoding is its bytes. */
  lemma HeaderUtf8(n: nat)
    ensures Utf8Encode(Header(n)) == HeaderBytes(n)
  {
    HeaderIsAscii(n);
    HeaderBytesAreChars(n);
  }

  /** A frame around already encoded body bytes. */
  function FrameOf(body: seq<byte>): seq<byte> {
    HeaderBytes(|body|) + body
  }

  /** `data` holds, at `pos`, the frame around `body`. */
  ghost predicate FramedAt(data: seq<byte>, pos: nat, body: seq<byte>) {
    pos + |FrameOf(body)| <= |data| && data[pos..pos + |FrameOf(body)|] == FrameOf(body)
  }

  /** A frame in the stream holds its header's text, and its body right after. */
  lemma FramedParts(data: seq<byte>, pos: nat, p: nat, body: seq<byte>)
    requires FramedAt(data, pos, body) && p == pos + |HeaderBytes(|body|)|
    ensures HoldsText(data, pos, Header(|body|))
    ensures p + |body| <= |data| && data[p..p + |body|] == body
  {
    var n := |body|;
    var h := HeaderBytes(n);
    var f := data[pos..pos + |FrameOf(body)|];
    HeaderBytesAreChars(n);
    forall i | 0 <= i < |h| ensures data[pos + i] == Header(n)[i] as int {
      assert f[i] == h[i];
    }
    assert f[|h|..] == body;
  }

  /** `data` holds the bytes of the ASCII text `t` starting at `pos`. */
  ghost predicate HoldsText(data: seq<byte>, pos: nat, t: string) {
    pos + |t| <= |data| && forall i :: 0 <= i < |t| ==> data[pos + i] == t[i] as int
  }

  lemma HoldsSplit(data: seq<byte>, pos: nat, a: string, b: string)
    requires HoldsText(data, pos, a + b)
    ensures HoldsText(data, pos, a) && HoldsText(data, pos + |a|, b)
  {
    forall i | 0 <= i < |a| ensures data[pos + i] == a[i] as int {
      assert (a + b)[i] == a[i];
    }
    forall i | 0 <= i < |b| ensures data[pos + |a| + i] == b[i] as int {
      assert (a + b)[|a| + i] == b[i];
    }
  }

  /** Held text reads back as itself, and a held line ending in its only line feed is exactly one `readline`. */
  lemma HeldLine(data: seq<byte>, pos: nat, t: string)
    requires HoldsText(data, pos, t) && t != [] && t[|t| - 1] == '\n' && '\n' !in t[..|t| - 1]
    ensures Stream.LineEnd(data, pos) == pos + |t|
    ensures Latin1(data[pos..pos + |t|]) == t
  {
    var k := |t| - 1;
    assert LF !in data[pos..pos + k] by {
      forall i | pos <= i < pos + k ensures data[i] != LF {
        assert data[pos + (i - pos)] == t[i - pos] as int;
        assert t[i - pos] == t[..k][i - pos];
      }
    }
    assert data[pos + k] == t[k] as int;
    Stream.LineEndAt(data, pos, k);
    var r := Latin1(data[pos..pos + |t|]);
    Latin1Chars(data[pos..pos + |t|]);
    forall i | 0 <= i < |t| ensures r[i] == t[i] {
      assert r[i] as int == data[pos + i];
    }
  }

  /** A `Content-Length` header line has its line feed at the end and nowhere else. */
  lemma HeaderLineHasOneNewline(d: string)
    requires '\n' !in d
    ensures var t := "Content-Length: " + d + "\r\n"; t[|t| - 1] == '\n' && '\n' !in t[..|t| - 1]
  {
    var t := "Content-Length: " + d + "\r\n";
    forall i | 0 <= i < |t| - 1 ensures t[i] != '\n' {
      if 16 <= i < 16 + |d| { assert t[i] == d[i - 16]; }
    }
  }
}
