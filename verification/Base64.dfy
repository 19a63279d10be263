/** The base64 text a pane's output travels as, and that it reads back as the same bytes. */
module Base64 {
  import opened Wrappers

  type byte = b: int | 0 <= b < 256

  /** The alphabet of RFC 4648, section 4. */
  function Symbol(v: int): char
    requires 0 <= v < 64
  {
    if v < 26 then ('A' as int + v) as char
    else if v < 52 then ('a' as int + v - 26) as char
    else if v < 62 then ('0' as int + v - 52) as char
    else if v == 62 then '+'
    else '/'
  }

  function Value(c: char): (r: Option<int>)
    ensures r.Some? ==> 0 <= r.value < 64 && Symbol(r.value) == c
  {
    if 'A' <= c <= 'Z' then Some(c as int - 'A' as int)
    else if 'a' <= c <= 'z' then Some(c as int - 'a' as int + 26)
    else if '0' <= c <= '9' then Some(c as int - '0' as int + 52)
    else if c == '+' then Some(62)
    else if c == '/' then Some(63)
    else None
  }

  lemma ValueOfSymbol(v: int)
    requires 0 <= v < 64
    ensures Value(Symbol(v)) == Some(v) && Symbol(v) != '=' && Symbol(v) != '{'
  {
  }

  /** One to three bytes as a 24-bit number, missing ones zero. */
  function Packed(chunk: seq<byte>): int
    requires 1 <= |chunk| <= 3
  {
    chunk[0] as int * 65536 + (if |chunk| > 1 then chunk[1] as int * 256 else 0) + (if |chunk| > 2 then chunk[2] as int else 0)
  }

  function EncodeChunk(chunk: seq<byte>): (s: string)
    requires 1 <= |chunk| <= 3
    ensures |s| == 4
  {
    var n := Packed(chunk);
    [Symbol(n / 262144 % 64), Symbol(n / 4096 % 64),
     if |chunk| > 1 then Symbol(n / 64 % 64) else '=',
     if |chunk| > 2 then Symbol(n % 64) else '=']
  }

  function Head(input: seq<byte>): seq<byte> {
    if |input| > 3 then input[..3] else input
  }

  function Encode(input: seq<byte>): string {
    if |input| == 0 then "" else EncodeChunk(Head(input)) + Encode(input[|Head(input)|..])
  }

  /** Four characters back to one to three bytes. */
  function DecodeChunk(s: string): Option<seq<byte>>
    requires |s| == 4
  {
    var a, b := Value(s[0]), Value(s[1]);
    if a.None? || b.None? then None
    else if s[2] == '=' then
      if s[3] != '=' then None else Some([(a.value * 64 + b.value) / 16])
    else
      var c := Value(s[2]);
      if c.None? then None
      else if s[3] == '=' then
        var n := a.value * 4096 + b.value * 64 + c.value;
        Some([n / 1024, n / 4 % 256])
      else
        var d := Value(s[3]);
        if d.None? then None
        else
          var n := a.value * 262144 + b.value * 4096 + c.value * 64 + d.value;
          Some([n / 65536, n / 256 % 256, n % 256])
  }

  function Decode(s: string): Option<seq<byte>> {
    if |s| == 0 then Some([])
    else if |s| < 4 then None
    else
      var head := DecodeChunk(s[..4]);
      var rest := Decode(s[4..]);
      if head.None? || rest.None? then None else Some(head.value + rest.value)
  }

  lemma Digits(n: int)
    requires 0 <= n < 16777216
    ensures n / 262144 % 64 * 262144 + n / 4096 % 64 * 4096 + n / 64 % 64 * 64 + n % 64 == n
  {
  }

  lemma OneByte(b0: int)
    requires 0 <= b0 < 256
    ensures var n := b0 * 65536; (n / 262144 % 64 * 64 + n / 4096 % 64) / 16 == b0
  {
  }

  /** The three digits of two bytes, each byte as its high and low part. */
  lemma TwoByteDigits(h0: int, l0: int, h1: int, l1: int)
    requires 0 <= h0 < 64 && 0 <= l0 < 4 && 0 <= h1 < 16 && 0 <= l1 < 16
    ensures var n := 262144 * h0 + 65536 * l0 + 4096 * h1 + 256 * l1;
            n / 262144 % 64 == h0 && n / 4096 % 64 == 16 * l0 + h1 && n / 64 % 64 == 4 * l1
  {
    var n := 262144 * h0 + 65536 * l0 + 4096 * h1 + 256 * l1;
    assert n / 262144 == h0;
    assert n / 4096 == 64 * h0 + (16 * l0 + h1);
    assert n / 64 == 64 * (64 * h0 + 16 * l0 + h1) + 4 * l1;
  }

  lemma TwoBytes(b0: int, b1: int)
    requires 0 <= b0 < 256 && 0 <= b1 < 256
    ensures var n: int := b0 * 65536 + b1 * 256;
            var m := n / 262144 % 64 * 4096 + n / 4096 % 64 * 64 + n / 64 % 64;
            m / 1024 == b0 && m / 4 % 256 == b1
  {
    var h0, l0, h1, l1 := b0 / 4, b0 % 4, b1 / 16, b1 % 16;
    assert b0 * 65536 + b1 * 256 == 262144 * h0 + 65536 * l0 + 4096 * h1 + 256 * l1;
    TwoByteDigits(h0, l0, h1, l1);
    TwoDigitsBack(4 * h0 + l0, 16 * h1 + l1);
    assert 4096 * h0 + 64 * (16 * l0 + h1) + 4 * l1 == 1024 * (4 * h0 + l0) + 4 * (16 * h1 + l1);
  }

  lemma TwoDigitsBack(b0: int, b1: int)
    requires 0 <= b0 < 256 && 0 <= b1 < 256
    ensures (1024 * b0 + 4 * b1) / 1024 == b0 && (1024 * b0 + 4 * b1) / 4 % 256 == b1
  {
    assert (1024 * b0 + 4 * b1) / 4 == 256 * b0 + b1;
  }

  lemma ThreeBytes(b0: int, b1: int, b2: int)
    requires 0 <= b0 < 256 && 0 <= b1 < 256 && 0 <= b2 < 256
    ensures var n: int := b0 * 65536 + b1 * 256 + b2;
            n / 65536 == b0 && n / 256 % 256 == b1 && n % 256 == b2
  {
  }

  /** Four digits read back as the number they came from. */
  lemma DecodeDigits(v0: int, v1: int, v2: int, v3: int)
    requires 0 <= v0 < 64 && 0 <= v1 < 64 && 0 <= v2 < 64 && 0 <= v3 < 64
    ensures DecodeChunk([Symbol(v0), Symbol(v1), '=', '=']) == Some([(v0 * 64 + v1) / 16])
    ensures var n := v0 * 4096 + v1 * 64 + v2;
            DecodeChunk([Symbol(v0), Symbol(v1), Symbol(v2), '=']) == Some([n / 1024, n / 4 % 256])
    ensures var n := v0 * 262144 + v1 * 4096 + v2 * 64 + v3;
            DecodeChunk([Symbol(v0), Symbol(v1), Symbol(v2), Symbol(v3)]) == Some([n / 65536, n / 256 % 256, n % 256])
  {
    ValueOfSymbol(v0);
    ValueOfSymbol(v1);
    ValueOfSymbol(v2);
    ValueOfSymbol(v3);
  }

  lemma TwoByteChunk(b0: byte, b1: byte)
    ensures DecodeChunk(EncodeChunk([b0, b1])) == Some([b0, b1])
  {
    var n: int := b0 * 65536 + b1 * 256;
    assert Packed([b0, b1]) == n;
    TwoBytes(b0, b1);
    DecodeDigits(n / 262144 % 64, n / 4096 % 64, n / 64 % 64, 0);
  }

  lemma ThreeByteChunk(b0: byte, b1: byte, b2: byte)
    ensures DecodeChunk(EncodeChunk([b0, b1, b2])) == Some([b0, b1, b2])
  {
    var n: int := b0 * 65536 + b1 * 256 + b2;
    assert Packed([b0, b1, b2]) == n;
    Digits(n);
    ThreeBytes(b0, b1, b2);
    DecodeDigits(n / 262144 % 64, n / 4096 % 64, n / 64 % 64, n % 64);
  }

  lemma ChunkRoundTrip(chunk: seq<byte>)
    requires 1 <= |chunk| <= 3
    ensures DecodeChunk(EncodeChunk(chunk)) == Some(chunk)
  {
    if |chunk| == 1 {
      var n := chunk[0] as int * 65536;
      OneByte(chunk[0]);
      DecodeDigits(n / 262144 % 64, n / 4096 % 64, 0, 0);
      assert chunk == [chunk[0]];
    } else if |chunk| == 2 {
      assert chunk == [chunk[0], chunk[1]];
      TwoByteChunk(chunk[0], chunk[1]);
    } else {
      assert chunk == [chunk[0], chunk[1], chunk[2]];
      ThreeByteChunk(chunk[0], chunk[1], chunk[2]);
    }
  }

  /** Every byte string survives the trip. */
  lemma {:induction false} RoundTrip(input: seq<byte>)
    ensures Decode(Encode(input)) == Some(input)
  {
    if |input| != 0 {
      var head, rest := Head(input), input[|Head(input)|..];
      ChunkRoundTrip(head);
      RoundTrip(rest);
      assert Encode(input)[..4] == EncodeChunk(head);
      assert Encode(input)[4..] == Encode(rest);
      assert input == head + rest;
    }
  }

  /** Output text is never taken for a control frame, which starts with a brace. */
  lemma NeverAControlFrame(input: seq<byte>)
    requires |input| > 0
    ensures |Encode(input)| > 0 && Encode(input)[0] != '{'
  {
    ValueOfSymbol(Packed(Head(input)) / 262144 % 64);
  }

  method EncodeOne(chunk: seq<byte>) returns (text: string)
    requires 1 <= |chunk| <= 3
    ensures text == EncodeChunk(chunk)
  {
    var b0 := chunk[0] as int;
    var b1 := if |chunk| > 1 then chunk[1] as int else 0;
    var b2 := if |chunk| > 2 then chunk[2] as int else 0;
    var n: int := b0 * 65536 + b1 * 256 + b2;
    text := [Symbol(n / 262144 % 64), Symbol(n / 4096 % 64)];
    text := text + [if |chunk| > 1 then Symbol(n / 64 % 64) else '='];
    text := text + [if |chunk| > 2 then Symbol(n % 64) else '='];
  }

  lemma EncodeStep(input: seq<byte>, i: nat, out: string)
    requires i < |input| && Encode(input) == out + Encode(input[i..])
    ensures var chunk := Head(input[i..]);
            i + |chunk| <= |input| && Encode(input) == (out + EncodeChunk(chunk)) + Encode(input[i + |chunk|..])
  {
    var chunk := Head(input[i..]);
    assert input[i..][|chunk|..] == input[i + |chunk|..];
  }

  /** Three bytes at a time. */
  method B64Encode(input: seq<byte>) returns (out: string)
    ensures out == Encode(input)
  {
    out := "";
    var i := 0;
    assert input[0..] == input;
    while i < |input|
      invariant i <= |input|
      invariant Encode(input) == out + Encode(input[i..])
    {
      var chunk := if |input| - i > 3 then input[i..i + 3] else input[i..];
      assert chunk == Head(input[i..]);
      EncodeStep(input, i, out);
      var text := EncodeOne(chunk);
      out := out + text;
      i := i + |chunk|;
    }
  }
}
