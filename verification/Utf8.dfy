/** The UTF-8 encoding used for the string fields of IPC messages. */
module Utf8 {
  import opened Base

  predicate Continuation(b: byte) {
    0x80 <= b < 0xC0
  }

  function EncodeChar(c: char): (r: seq<byte>)
    ensures 1 <= |r| <= 4
  {
    var n := c as int;
    if n < 0x80 then [n]
    else if n < 0x800 then [0xC0 + n / 64, 0x80 + n % 64]
    else if n < 0x10000 then [0xE0 + n / 4096, 0x80 + n / 64 % 64, 0x80 + n % 64]
    else [0xF0 + n / 262144, 0x80 + n / 4096 % 64, 0x80 + n / 64 % 64, 0x80 + n % 64]
  }

  function Encode(s: string): seq<byte> {
    if s == [] then [] else EncodeChar(s[0]) + Encode(s[1..])
  }

  predicate Scalar(n: int) {
    0 <= n < 0xD800 || 0xE000 <= n < 0x110000
  }

  /** The first code point of a byte string and the number of bytes it takes, if it is well formed. */
  function First(b: seq<byte>): (r: Option<(int, nat)>)
    requires b != []
    ensures r.Some? ==> Scalar(r.value.0) && 1 <= r.value.1 <= |b|
  {
    if b[0] < 0x80 then Some((b[0], 1))
    else if b[0] < 0xC0 then None
    else if b[0] < 0xE0 then
      if |b| < 2 || !Continuation(b[1]) then None
      else
        var n: int := (b[0] as int - 0xC0) * 64 + (b[1] as int - 0x80);
        if n < 0x80 then None else Some((n, 2))
    else if b[0] < 0xF0 then
      if |b| < 3 || !Continuation(b[1]) || !Continuation(b[2]) then None
      else
        var n: int := (b[0] as int - 0xE0) * 4096 + (b[1] as int - 0x80) * 64 + (b[2] as int - 0x80);
        if n < 0x800 || !Scalar(n) then None else Some((n, 3))
    else
      if |b| < 4 || !Continuation(b[1]) || !Continuation(b[2]) || !Continuation(b[3]) then None
      else
        var n: int :=
          (b[0] as int - 0xF0) * 262144 + (b[1] as int - 0x80) * 4096
          + (b[2] as int - 0x80) * 64 + (b[3] as int - 0x80);
        if n < 0x10000 || !Scalar(n) then None else Some((n, 4))
  }

  /** Strict decoding; `None` is a UnicodeDecodeError. */
  function Decode(b: seq<byte>): Option<string>
    decreases |b|
  {
    if b == [] then Some([])
    else
      var f := First(b);
      if f.None? then None
      else
        var rest := Decode(b[f.value.1..]);
        if rest.None? then None else Some([f.value.0 as char] + rest.value)
  }

  lemma {:induction false} FirstOfEncoded(c: char, rest: seq<byte>)
    ensures First(EncodeChar(c) + rest) == Some((c as int, |EncodeChar(c)|))
  {
    var n := c as int;
    var b := EncodeChar(c) + rest;
    assert Scalar(n);
    assert n == n / 64 * 64 + n % 64;
    assert n / 64 == n / 64 / 64 * 64 + n / 64 % 64 && n / 64 / 64 == n / 4096;
    assert n / 4096 == n / 4096 / 64 * 64 + n / 4096 % 64 && n / 4096 / 64 == n / 262144;
    assert forall i :: 0 <= i < |EncodeChar(c)| ==> b[i] == EncodeChar(c)[i];
  }

  lemma {:induction false} RoundTrip(s: string)
    ensures Decode(Encode(s)) == Some(s)
  {
    if s != [] {
      var head, rest := EncodeChar(s[0]), Encode(s[1..]);
      FirstOfEncoded(s[0], rest);
      assert (head + rest)[|head|..] == rest;
      RoundTrip(s[1..]);
      assert s == [s[0]] + s[1..];
    }
  }

  /** The byte patterns of section 3 of RFC 3629, by the size of the code point. */
  lemma {:induction false} BytePatterns(c: char)
    ensures var n, r := c as int, EncodeChar(c);
            && (n <= 0x7F ==> r == [n])
            && (0x80 <= n <= 0x7FF ==>
                  |r| == 2 && 0xC2 <= r[0] <= 0xDF && Tail(r[1]) && n == Six(r[0], 0xC0) * 64 + Six(r[1], 0x80))
            && (0x800 <= n <= 0xFFFF ==>
                  |r| == 3 && 0xE0 <= r[0] <= 0xEF && Tail(r[1]) && Tail(r[2])
                  && n == Six(r[0], 0xE0) * 4096 + Six(r[1], 0x80) * 64 + Six(r[2], 0x80))
            && (0x10000 <= n ==>
                  |r| == 4 && 0xF0 <= r[0] <= 0xF4 && Tail(r[1]) && Tail(r[2]) && Tail(r[3])
                  && n == Six(r[0], 0xF0) * 262144 + Six(r[1], 0x80) * 4096 + Six(r[2], 0x80) * 64 + Six(r[3], 0x80))
  {
    FirstOfEncoded(c, []);
    assert EncodeChar(c) + [] == EncodeChar(c);
  }

  /** The bits of a byte below its marker. */
  function Six(b: byte, marker: int): int {
    b as int - marker
  }

  /** A byte 10xxxxxx. */
  predicate Tail(b: byte) {
    b / 64 == 2
  }

  lemma {:induction false} Samples()
    ensures EncodeChar('A') == [0x41] && EncodeChar('\U{E9}') == [0xC3, 0xA9]
    ensures EncodeChar('\U{20AC}') == [0xE2, 0x82, 0xAC] && EncodeChar('\U{1F600}') == [0xF0, 0x9F, 0x98, 0x80]
  {}

  lemma {:induction false} Digits(hi: nat, lo: nat)
    requires lo < 64
    ensures (hi * 64 + lo) / 64 == hi && (hi * 64 + lo) % 64 == lo
  {}

  /** What is read as a first code point is its encoding: overlong forms and surrogates are refused. */
  lemma {:induction false} FirstIsEncoded(b: seq<byte>)
    requires b != [] && First(b).Some?
    ensures EncodeChar(First(b).value.0 as char) == b[..First(b).value.1]
  {
    var n, k := First(b).value.0, First(b).value.1;
    if k == 1 {
      assert b[..1] == [b[0]];
    } else if k == 2 {
      Digits(b[0] - 0xC0, b[1] - 0x80);
      assert b[..2] == [b[0], b[1]];
    } else if k == 3 {
      ThreeBytes(b, n);
    } else {
      FourBytes(b, n);
    }
  }

  lemma {:induction false} ThreeBytes(b: seq<byte>, n: int)
    requires b != [] && First(b) == Some((n, 3))
    ensures EncodeChar(n as char) == b[..3]
  {
    var x, y, z := b[0] as int - 0xE0, b[1] as int - 0x80, b[2] as int - 0x80;
    Digits(x, y);
    Digits(x * 64 + y, z);
    assert n == (x * 64 + y) * 64 + z && n / 4096 == n / 64 / 64;
    assert b[..3] == [b[0], b[1], b[2]];
  }

  lemma {:induction false} FourBytes(b: seq<byte>, n: int)
    requires b != [] && First(b) == Some((n, 4))
    ensures EncodeChar(n as char) == b[..4]
  {
    var w, x, y, z := b[0] as int - 0xF0, b[1] as int - 0x80, b[2] as int - 0x80, b[3] as int - 0x80;
    Digits(w, x);
    Digits(w * 64 + x, y);
    Digits((w * 64 + x) * 64 + y, z);
    assert n == ((w * 64 + x) * 64 + y) * 64 + z;
    assert n / 4096 == n / 64 / 64 && n / 262144 == n / 64 / 64 / 64;
    assert b[..4] == [b[0], b[1], b[2], b[3]];
  }

  /** Strict decoding accepts nothing but encodings. */
  lemma {:induction false} DecodeIsStrict(b: seq<byte>)
    requires Decode(b).Some?
    ensures Encode(Decode(b).value) == b
    decreases |b|
  {
    if b != [] {
      FirstIsEncoded(b);
      var n, k := First(b).value.0, First(b).value.1;
      DecodeIsStrict(b[k..]);
      var rest := Decode(b[k..]).value;
      assert ([n as char] + rest)[1..] == rest;
      assert b == b[..k] + b[k..];
    }
  }
}
