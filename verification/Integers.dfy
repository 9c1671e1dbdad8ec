/** Little-endian integers as struct.pack("<...") and the packed C layouts write them. */
module Integers {
  import opened Base

  /** 256 to the power `size`. */
  function Span(size: nat): (r: nat)
    ensures r >= 1
  {
    if size == 0 then 1 else 256 * Span(size - 1)
  }

  function LittleEndian(n: nat, size: nat): (r: seq<byte>)
    ensures |r| == size
    decreases size
  {
    if size == 0 then [] else [n % 256] + LittleEndian(n / 256, size - 1)
  }

  function FromLittleEndian(b: seq<byte>): (n: nat)
    ensures n < Span(|b|)
  {
    if b == [] then 0 else b[0] + 256 * FromLittleEndian(b[1..])
  }

  lemma {:induction false} ReadsBack(n: nat, size: nat)
    requires n < Span(size)
    ensures FromLittleEndian(LittleEndian(n, size)) == n
    decreases size
  {
    if size > 0 {
      ReadsBack(n / 256, size - 1);
      assert LittleEndian(n, size)[1..] == LittleEndian(n / 256, size - 1);
    }
  }

  lemma {:induction false} WritesBack(b: seq<byte>)
    ensures LittleEndian(FromLittleEndian(b), |b|) == b
  {
    if b != [] {
      WritesBack(b[1..]);
      Digits(b[0], FromLittleEndian(b[1..]));
      assert b == [b[0]] + b[1..];
    }
  }

  /** The last digit in base 256 and the rest. */
  lemma {:induction false} Digits(d: byte, n: nat)
    ensures (d + 256 * n) % 256 == d && (d + 256 * n) / 256 == n
  {}

  /** An integer type of a fixed size in bytes. */
  datatype IntType = IntType(size: nat, signed: bool) {
    predicate Fits(v: int) {
      if signed then size > 0 && 0 <= 2 * v + Span(size) < 2 * Span(size) else 0 <= v < Span(size)
    }

    /** struct.pack of one value; `None` is its struct.error. */
    function Encode(v: int): (r: Option<seq<byte>>)
      ensures r.Some? <==> Fits(v)
      ensures r.Some? ==> |r.value| == size
    {
      if !Fits(v) then None else Some(LittleEndian(if v < 0 then v + Span(size) else v, size))
    }

    /** struct.unpack of one value; `None` when the length is wrong. */
    function Decode(b: seq<byte>): (r: Option<int>)
      ensures r.Some? <==> |b| == size
    {
      if |b| != size then None
      else
        var n := FromLittleEndian(b);
        Some(if signed && 2 * n >= Span(size) then n - Span(size) else n)
    }

    /** Two's complement: the unsigned number in the bytes differs from the value by none or one full span. */
    lemma {:induction false} TwosComplement(v: int)
      requires Fits(v)
      ensures FromLittleEndian(Encode(v).value) == if v < 0 then v + Span(size) else v
    {
      ReadsBack(if v < 0 then v + Span(size) else v, size);
    }

    /** Decoding undoes encoding. */
    lemma {:induction false} DecodeEncode(v: int)
      requires Fits(v)
      ensures Decode(Encode(v).value) == Some(v)
    {
      ReadsBack(if v < 0 then v + Span(size) else v, size);
    }

    /** Every byte string of the right length is the encoding of exactly the value it decodes to. */
    lemma {:induction false} EncodeDecode(b: seq<byte>)
      requires |b| == size > 0
      ensures Fits(Decode(b).value) && Encode(Decode(b).value) == Some(b)
    {
      WritesBack(b);
    }
  }

  const U8 := IntType(1, false)
  const U16 := IntType(2, false)

  lemma {:induction false} Spans()
    ensures Span(1) == 256 && Span(2) == 65536
  {
    assert Span(2) == 256 * Span(1);
  }

  /** Little-endian: the byte at position `i` is the digit for 256 to the power `i`. */
  lemma {:induction false} LowByteFirst(n: nat, size: nat, i: nat)
    requires i < size
    ensures LittleEndian(n, size)[i] == n / Span(i) % 256
    decreases size
  {
    if i > 0 {
      LowByteFirst(n / 256, size - 1, i - 1);
      DivTwice(n, Span(i - 1));
    } else {
      assert Span(0) == 1;
    }
  }

  lemma {:induction false} DivTwice(n: nat, d: nat)
    requires d > 0
    ensures n / 256 / d == n / (256 * d)
  {
    var q, r := n / (256 * d), n % (256 * d);
    assert n == 256 * d * q + r;
    assert n / 256 == d * q + r / 256 by {
      assert n == 256 * (d * q) + r;
    }
    assert r / 256 < d;
    DivUnique(d * q + r / 256, d, q, r / 256);
  }

  lemma {:induction false} DivUnique(n: nat, d: nat, q: nat, r: nat)
    requires d > 0 && n == d * q + r && r < d
    ensures n / d == q
  {
    var a, b := n / d, n % d;
    assert n == d * a + b;
    assert d * (a - q) == r - b;
    OnlyZero(d, a - q);
  }

  lemma {:induction false} OnlyZero(d: int, x: int)
    requires -d < d * x < d
    ensures x == 0
  {
    assert x >= 1 ==> d * x >= d;
    assert x <= -1 ==> d * x <= -d;
  }

  /** The ranges of the integer types of one, two, four and eight bytes, and the sign of the top bit. */
  lemma {:induction false} Ranges(v: int)
    ensures IntType(1, false).Fits(v) <==> 0 <= v <= 255
    ensures IntType(1, true).Fits(v) <==> -128 <= v <= 127
    ensures IntType(2, false).Fits(v) <==> 0 <= v <= 65535
    ensures IntType(2, true).Fits(v) <==> -32768 <= v <= 32767
    ensures IntType(4, false).Fits(v) <==> 0 <= v <= 0xFFFF_FFFF
    ensures IntType(4, true).Fits(v) <==> -0x8000_0000 <= v <= 0x7FFF_FFFF
    ensures IntType(8, false).Fits(v) <==> 0 <= v <= 0xFFFF_FFFF_FFFF_FFFF
    ensures IntType(8, true).Fits(v) <==> -0x8000_0000_0000_0000 <= v <= 0x7FFF_FFFF_FFFF_FFFF
  {
    Spans();
    assert Span(3) == 256 * Span(2) && Span(4) == 256 * Span(3) == 0x1_0000_0000;
    assert Span(5) == 256 * Span(4) && Span(6) == 256 * Span(5);
    assert Span(7) == 256 * Span(6) && Span(8) == 256 * Span(7) == 0x1_0000_0000_0000_0000;
  }

  lemma {:induction false} TopBit(b: byte)
    ensures IntType(1, false).Decode([b]) == Some(b)
    ensures IntType(1, true).Decode([b]) == Some(if b < 128 then b else b - 256)
  {
    Spans();
    assert FromLittleEndian([b]) == b;
  }
}
