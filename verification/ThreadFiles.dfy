/** Transcript file names: lower-case hex of the thread id, so that no two threads share a file. */
module ThreadFiles {
  import opened Types
  import opened Text

  type Byte = b: int | 0 <= b < 256

  const HEX: string := "0123456789abcdef"

  function HexValue(c: char): int {
    if c <= '9' then c as int - '0' as int else c as int - 'a' as int + 10
  }

  function HexDigit(n: nat): (c: char)
    requires n < 16
    ensures HexValue(c) == n && ('0' <= c <= '9' || 'a' <= c <= 'f')
  {
    HEX[n]
  }

  function HexOf(bytes: seq<Byte>): (r: string)
    ensures |r| == 2 * |bytes|
  {
    if bytes == [] then ""
    else
      var b := bytes[|bytes| - 1];
      HexOf(bytes[..|bytes| - 1]) + [HexDigit(b / 16), HexDigit(b % 16)]
  }

  method HexEncode(bytes: seq<Byte>) returns (out: string)
    ensures out == HexOf(bytes)
  {
    out := "";
    for i := 0 to |bytes|
      invariant out == HexOf(bytes[..i])
    {
      assert bytes[..i + 1][..i] == bytes[..i];
      out := out + [HexDigit(bytes[i] / 16)];
      out := out + [HexDigit(bytes[i] % 16)];
    }
    assert bytes[..|bytes|] == bytes;
  }

  function Unhex(s: string): seq<int> {
    if |s| < 2 then []
    else Unhex(s[..|s| - 2]) + [16 * HexValue(s[|s| - 2]) + HexValue(s[|s| - 1])]
  }

  /** The id can be read back from its file name, so different ids have different files. */
  lemma {:induction false} HexRoundTrip(bytes: seq<Byte>)
    ensures Unhex(HexOf(bytes)) == bytes
  {
    if bytes != [] {
      var n, s := |bytes| - 1, HexOf(bytes);
      assert s[..|s| - 2] == HexOf(bytes[..n]);
      HexRoundTrip(bytes[..n]);
    }
  }

  lemma HexInjective(a: seq<Byte>, b: seq<Byte>)
    ensures HexOf(a) == HexOf(b) <==> a == b
  {
    HexRoundTrip(a);
    HexRoundTrip(b);
  }

  /** Every name is made of lower-case hex digits. */
  lemma {:induction false} HexIsSafe(bytes: seq<Byte>, k: nat)
    requires k < 2 * |bytes|
    ensures '0' <= HexOf(bytes)[k] <= '9' || 'a' <= HexOf(bytes)[k] <= 'f'
  {
    if k < 2 * (|bytes| - 1) {
      HexIsSafe(bytes[..|bytes| - 1], k);
    }
  }

  // ---- Thread ids -------------------------------------------------------------------------------

  /** A continuation byte: the low six bits. */
  function Tail(u: nat): Byte {
    0x80 + u % 64
  }

  /** A character in UTF-8 (section 3 of RFC 3629). */
  function Utf8Char(c: char): (r: seq<Byte>)
    ensures |r| == Utf8Width(c)
  {
    var u := c as int;
    if u < 0x80 then [u]
    else if u < 0x800 then [0xC0 + u / 64, Tail(u)]
    else if u < 0x1_0000 then [0xE0 + u / 64 / 64, Tail(u / 64), Tail(u)]
    else [0xF0 + u / 64 / 64 / 64, Tail(u / 64 / 64), Tail(u / 64), Tail(u)]
  }

  function Utf8(s: string): seq<Byte> {
    if s == [] then [] else Utf8Char(s[0]) + Utf8(s[1..])
  }

  /** The byte length the search uses is the length of the encoding. */
  lemma {:induction false} Utf8LenIsLength(s: string)
    ensures Utf8Len(s) == |Utf8(s)|
  {
    if s != [] {
      Utf8LenIsLength(s[1..]);
    }
  }

  /** The code point at the start of some bytes. */
  function FirstCodePoint(b: seq<Byte>): int
    requires |b| > 0
  {
    if b[0] < 0xC0 || |b| < 2 then b[0]
    else if b[0] < 0xE0 || |b| < 3 then (b[0] as int - 0xC0) * 64 + (b[1] as int - 0x80)
    else if b[0] < 0xF0 || |b| < 4 then ((b[0] as int - 0xE0) * 64 + (b[1] as int - 0x80)) * 64 + (b[2] as int - 0x80)
    else (((b[0] as int - 0xF0) * 64 + (b[1] as int - 0x80)) * 64 + (b[2] as int - 0x80)) * 64 + (b[3] as int - 0x80)
  }

  lemma FirstCodePointOf(c: char, rest: seq<Byte>)
    ensures FirstCodePoint(Utf8Char(c) + rest) == c as int
  {
    var b := Utf8Char(c) + rest;
    assert forall i | 0 <= i < |Utf8Char(c)| :: b[i] == Utf8Char(c)[i];
  }

  lemma {:induction false} Utf8Injective(s: string, t: string)
    requires Utf8(s) == Utf8(t)
    ensures s == t
  {
    if s != [] && t != [] {
      FirstCodePointOf(s[0], Utf8(s[1..]));
      FirstCodePointOf(t[0], Utf8(t[1..]));
      assert s[0] == t[0];
      var n := |Utf8Char(s[0])|;
      assert Utf8(s)[n..] == Utf8(s[1..]) && Utf8(t)[n..] == Utf8(t[1..]);
      Utf8Injective(s[1..], t[1..]);
    }
  }

  /** The stem of a thread's transcript file. */
  function FileStem(t: ThreadId): string {
    HexOf(Utf8(t))
  }

  /** Two threads never share a transcript file. */
  lemma FilesDiffer(t: ThreadId, u: ThreadId)
    ensures FileStem(t) == FileStem(u) <==> t == u
  {
    HexInjective(Utf8(t), Utf8(u));
    if Utf8(t) == Utf8(u) {
      Utf8Injective(t, u);
    }
  }
}
