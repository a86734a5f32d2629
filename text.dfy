/**
 * Bytes, characters and the small text utilities shared by the Python client and
 * the Rust server: UTF-8 encoding, decimal numerals, whitespace stripping as each
 * language defines it, prefixes, and Rust's `str::lines`.
 */
module Text {
  import opened Wrappers

  type byte = b: int | 0 <= b < 256

  const LF: byte := 10

  /** UTF-8 encoding of one Unicode scalar value (RFC 3629, section 3). */
  function Utf8Char(c: char): (bs: seq<byte>)
    ensures 1 <= |bs| <= 4
    ensures |bs| == 1 <==> c as int < 0x80
    ensures c as int < 0x80 ==> bs == [c as int]
    ensures |bs| > 1 ==> forall k :: 0 <= k < |bs| ==> bs[k] >= 0x80
  {
    var cp := c as int;
    if cp < 0x80 then [cp]
    else if cp < 0x800 then [0xC0 + cp / 64, 0x80 + cp % 64]
    else if cp < 0x10000 then [0xE0 + cp / 4096, 0x80 + (cp / 64) % 64, 0x80 + cp % 64]
    else [0xF0 + cp / 262144, 0x80 + (cp / 4096) % 64, 0x80 + (cp / 64) % 64, 0x80 + cp % 64]
  }

  predicate IsAscii(s: string) {
    forall i :: 0 <= i < |s| ==> s[i] as int < 0x80
  }

  /**
   * `s.encode('utf-8')` in Python, `s.as_bytes()` in Rust. The encoding is never
   * shorter than the text, and it has exactly one byte per character precisely
   * when the text is ASCII; ASCII text encodes to its character codes.
   */
  function Utf8Encode(s: string): (bs: seq<byte>)
    ensures |bs| >= |s|
    ensures |bs| == |s| <==> IsAscii(s)
    ensures IsAscii(s) ==> forall i :: 0 <= i < |s| ==> bs[i] == s[i] as int
  {
    if s == [] then [] else Utf8Char(s[0]) + Utf8Encode(s[1..])
  }

  lemma {:induction false} Utf8Append(a: string, b: string)
    ensures Utf8Encode(a + b) == Utf8Encode(a) + Utf8Encode(b)
  {
    if a != [] {
      assert (a + b)[1..] == a[1..] + b;
      Utf8Append(a[1..], b);
    } else {
      assert a + b == b;
    }
  }

  /** Bytes read back as characters one for one (ISO 8859-1); exact for ASCII. */
  function Latin1(bs: seq<byte>): (s: string)
    ensures |s| == |bs|
  {
    seq(|bs|, i requires 0 <= i < |bs| => bs[i] as char)
  }

  lemma Latin1Chars(bs: seq<byte>)
    ensures forall i :: 0 <= i < |bs| ==> Latin1(bs)[i] as int == bs[i]
  {
  }

  lemma AsciiAppend(a: string, b: string)
    requires IsAscii(a) && IsAscii(b)
    ensures IsAscii(a + b)
  {
    forall i | 0 <= i < |a + b| ensures (a + b)[i] as int < 0x80 {
      if i >= |a| { assert (a + b)[i] == b[i - |a|]; }
    }
  }

  /** ASCII text survives encoding to UTF-8 and reading back byte by byte. */
  lemma AsciiRoundTrip(s: string)
    requires IsAscii(s)
    ensures Latin1(Utf8Encode(s)) == s
  {
    var r := Latin1(Utf8Encode(s));
    Latin1Chars(Utf8Encode(s));
    forall i | 0 <= i < |s| ensures r[i] == s[i] {
      assert r[i] as int == s[i] as int;
    }
  }

  // ---------------------------------------------------------------- decimal numerals

  predicate IsDigit(c: char) { '0' <= c <= '9' }

  predicate AllDigits(s: string) { forall i :: 0 <= i < |s| ==> IsDigit(s[i]) }

  function DigitChar(d: nat): (c: char)
    requires d < 10
    ensures IsDigit(c) && c as int - '0' as int == d
  {
    ('0' as int + d) as char
  }

  /** The value of a numeral of ASCII digits (leading zeros allowed); 0 for "". */
  function DecimalValue(s: string): nat
    requires AllDigits(s)
  {
    if s == [] then 0 else DecimalValue(s[..|s| - 1]) * 10 + (s[|s| - 1] as int - '0' as int)
  }

  /** `format!("{}", n)` / `f"{n}"`: the shortest decimal numeral of `n`. */
  function NatToDecimal(n: nat): (s: string)
    ensures 1 <= |s| && AllDigits(s) && IsAscii(s)
    ensures DecimalValue(s) == n
    decreases n
  {
    if n < 10 then [DigitChar(n)]
    else
      var s := NatToDecimal(n / 10) + [DigitChar(n % 10)];
      assert s[..|s| - 1] == NatToDecimal(n / 10);
      s
  }

  /** `format!("{}", i)` for a signed integer. */
  function IntToDecimal(i: int): (s: string)
    ensures i >= 0 ==> s == NatToDecimal(i)
    ensures i < 0 ==> s == "-" + NatToDecimal(-i)
  {
    if i >= 0 then NatToDecimal(i) else "-" + NatToDecimal(-i)
  }

  // ---------------------------------------------------------------- whitespace

  /** The ASCII characters Python's `str.strip`/`str.rstrip` remove by default. */
  const PY_WHITESPACE: set<char> :=
    {' ', '\t', '\n', '\r', '\U{0B}', '\U{0C}', '\U{1C}', '\U{1D}', '\U{1E}', '\U{1F}'}

  /** The ASCII characters Rust's `char::is_whitespace` accepts (so `str::trim` removes). */
  const RUST_WHITESPACE: set<char> := {' ', '\t', '\n', '\r', '\U{0B}', '\U{0C}'}

  /** Drops the leading characters in `ws`. */
  function TrimStart(s: string, ws: set<char>): string {
    if s != [] && s[0] in ws then TrimStart(s[1..], ws) else s
  }

  /** Drops the trailing characters in `ws`. */
  function TrimEnd(s: string, ws: set<char>): string {
    if s != [] && s[|s| - 1] in ws then TrimEnd(s[..|s| - 1], ws) else s
  }

  function Trim(s: string, ws: set<char>): string {
    TrimEnd(TrimStart(s, ws), ws)
  }

  /** Left trimming removes exactly the longest prefix of whitespace: what is left is a suffix not starting with it. */
  lemma {:induction false} TrimStartSpec(s: string, ws: set<char>)
    ensures var r := TrimStart(s, ws);
      && |r| <= |s| && r == s[|s| - |r|..]
      && (forall k :: 0 <= k < |s| - |r| ==> s[k] in ws)
      && (r != [] ==> r[0] !in ws)
  {
    if s != [] && s[0] in ws {
      TrimStartSpec(s[1..], ws);
      var r := TrimStart(s, ws);
      forall k | 0 <= k < |s| - |r| ensures s[k] in ws {
        if k > 0 { assert s[k] == s[1..][k - 1]; }
      }
    }
  }

  /** Right trimming removes exactly the longest suffix of whitespace: what is left is a prefix not ending with it. */
  lemma {:induction false} TrimEndSpec(s: string, ws: set<char>)
    ensures var r := TrimEnd(s, ws);
      && |r| <= |s| && r == s[..|r|]
      && (forall k :: |r| <= k < |s| ==> s[k] in ws)
      && (r != [] ==> r[|r| - 1] !in ws)
  {
    if s != [] && s[|s| - 1] in ws {
      var p := s[..|s| - 1];
      TrimEndSpec(p, ws);
      var r := TrimEnd(s, ws);
      forall k | |r| <= k < |s| ensures s[k] in ws {
        if k < |s| - 1 { assert s[k] == p[k]; }
      }
      assert r == p[..|r|] == s[..|r|];
    }
  }

  /** Trimming changes nothing when neither end is whitespace. */
  lemma TrimNoop(s: string, ws: set<char>)
    requires s != [] && s[0] !in ws && s[|s| - 1] !in ws
    ensures Trim(s, ws) == s
  {
  }

  /** Trailing whitespace does not survive trimming of a text whose ends are not whitespace. */
  lemma {:induction false} TrimDropsTail(s: string, tail: string, ws: set<char>)
    requires s != [] && s[0] !in ws && s[|s| - 1] !in ws
    requires forall k :: 0 <= k < |tail| ==> tail[k] in ws
    ensures Trim(s + tail, ws) == s
  {
    assert (s + tail)[0] == s[0];
    assert TrimStart(s + tail, ws) == s + tail;
    if tail != [] {
      var t := tail[..|tail| - 1];
      assert (s + tail)[..|s + tail| - 1] == s + t;
      TrimDropsTail(s, t, ws);
      assert (s + t)[0] == s[0];
      assert TrimStart(s + t, ws) == s + t;
    }
  }

  /** A text of whitespace only trims to the empty text. */
  lemma {:induction false} BlankTrimsToEmpty(s: string, ws: set<char>)
    requires forall k :: 0 <= k < |s| ==> s[k] in ws
    ensures Trim(s, ws) == ""
  {
    if s != [] {
      assert s[0] in ws;
      BlankTrimsToEmpty(s[1..], ws);
      assert TrimStart(s, ws) == TrimStart(s[1..], ws);
    }
  }

  // ---------------------------------------------------------------- searching

  predicate HasPrefix(s: string, p: string) {
    |p| <= |s| && s[..|p|] == p
  }

  /** Index of the first occurrence of `c` in `s` (`str.find`, `str::find`). */
  function FindChar(s: string, c: char): (r: Option<nat>)
    ensures r.Some? ==> r.value < |s|
  {
    if s == [] then None
    else if s[0] == c then Some(0)
    else match FindChar(s[1..], c)
      case None => None
      case Some(i) => Some(i + 1)
  }

  /** `FindChar` finds `c` exactly when it occurs, and then at its first occurrence. */
  lemma {:induction false} FindCharSpec(s: string, c: char)
    ensures FindChar(s, c).None? <==> c !in s
    ensures FindChar(s, c).Some? ==> s[FindChar(s, c).value] == c && c !in s[..FindChar(s, c).value]
  {
    if s != [] && s[0] != c {
      FindCharSpec(s[1..], c);
      assert s == [s[0]] + s[1..];
      match FindChar(s[1..], c)
      case None =>
      case Some(i) => assert s[..i + 1] == [s[0]] + s[1..][..i];
    }
  }

  /** The first occurrence of `c` is what `FindChar` reports. */
  lemma {:induction false} FindCharFirst(s: string, c: char, i: nat)
    requires i < |s| && s[i] == c && c !in s[..i]
    ensures FindChar(s, c) == Some(i)
  {
    if i > 0 {
      assert s[0] == s[..i][0];
      assert s[1..][..i - 1] == s[..i][1..];
      FindCharFirst(s[1..], c, i - 1);
    }
  }

  // ---------------------------------------------------------------- Rust `str::lines`

  /**
   * Rust's `str::lines`: the pieces between line feeds, each without a `\r` that
   * ends a `\r\n`; a line feed at the very end does not start another line.
   */
  function Lines(s: string): (ls: seq<string>)
    ensures s == [] <==> ls == []
    ensures forall k :: 0 <= k < |ls| ==> '\n' !in ls[k]
    decreases |s|
  {
    if s == [] then []
    else match FindChar(s, '\n')
      case None => FindCharSpec(s, '\n'); [s]
      case Some(i) =>
        var line := if i > 0 && s[i - 1] == '\r' then s[..i - 1] else s[..i];
        assert '\n' !in line by {
          FindCharSpec(s, '\n');
          assert line == s[..i][..|line|];
        }
        [line] + Lines(s[i + 1..])
  }
}
