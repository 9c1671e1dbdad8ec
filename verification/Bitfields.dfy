/** The bit fields of libs/python/oresat_cand/entry.py on unbounded integers. */
module Bitfields {
  import opened Base

  /** x << n. */
  function Shl(x: nat, n: nat): nat {
    if n == 0 then x else 2 * Shl(x, n - 1)
  }

  /** x >> n. */
  function Shr(x: nat, n: nat): nat
    decreases n
  {
    if n == 0 then x else Shr(x / 2, n - 1)
  }

  /** 1 << n. */
  function Pow(n: nat): (r: nat)
    ensures r >= 1
  {
    if n == 0 then 1 else 2 * Pow(n - 1)
  }

  function Bit(a: nat, b: nat): nat {
    if a % 2 == 1 && b % 2 == 1 then 1 else 0
  }

  /** a & b. */
  function And(a: nat, b: nat): nat
    decreases a
  {
    if a == 0 then 0 else Bit(a, b) + 2 * And(a / 2, b / 2)
  }

  datatype Field = Field(bits: nat, offset: nat) {
    /** ((1 << bits) - 1) << offset. */
    function Mask(): nat {
      Shl(Pow(bits) - 1, offset)
    }

    /** The test bitfield_to_value makes on a part: not above bits << 1. */
    predicate Accepts(v: int) {
      0 <= v <= 2 * bits
    }
  }

  // ---------------------------------------------------------------- bit arithmetic

  lemma {:induction false} AndZero(a: nat)
    ensures And(a, 0) == 0
    decreases a
  {
    if a != 0 {
      AndZero(a / 2);
    }
  }

  lemma {:induction false} AndCommutes(a: nat, b: nat)
    ensures And(a, b) == And(b, a)
    decreases a + b
  {
    if a == 0 {
      AndZero(b);
    } else if b == 0 {
      AndZero(a);
    } else {
      AndCommutes(a / 2, b / 2);
    }
  }

  /** Adding numbers without common bits is bitwise or: `and` distributes over it. */
  lemma {:induction false} AndDistributes(m: nat, a: nat, b: nat)
    requires And(a, b) == 0
    ensures And(m, a + b) == And(m, a) + And(m, b)
    decreases m
  {
    if a == 0 {
      AndZero(m);
    } else if m != 0 {
      assert (a + b) / 2 == a / 2 + b / 2;
      AndDistributes(m / 2, a / 2, b / 2);
    }
  }

  /** A part of `m` has no bits in common with anything disjoint from `m`. */
  lemma {:induction false} PartIsDisjoint(x: nat, m: nat, n: nat)
    requires And(x, m) == x && And(m, n) == 0
    ensures And(x, n) == 0
    decreases x
  {
    if x != 0 {
      if m == 0 {
        AndZero(x);
      } else {
        PartIsDisjoint(x / 2, m / 2, n / 2);
      }
    }
  }

  /** The low `bits` bits of a number. */
  function Low(v: nat, bits: nat): (r: nat)
    ensures r < Pow(bits)
    decreases bits
  {
    if bits == 0 then 0 else v % 2 + 2 * Low(v / 2, bits - 1)
  }

  lemma {:induction false} LowOfSmall(v: nat, bits: nat)
    requires v < Pow(bits)
    ensures Low(v, bits) == v
    decreases bits
  {
    if bits > 0 {
      LowOfSmall(v / 2, bits - 1);
    }
  }

  lemma {:induction false} AndLow(v: nat, bits: nat)
    ensures And(v, Pow(bits) - 1) == Low(v, bits)
    decreases bits
  {
    if bits == 0 {
      AndZero(v);
    } else {
      AndLow(v / 2, bits - 1);
    }
  }

  lemma {:induction false} ShiftBack(x: nat, n: nat)
    ensures Shr(Shl(x, n), n) == x
  {
    if n > 0 {
      assert Shl(x, n) / 2 == Shl(x, n - 1);
      ShiftBack(x, n - 1);
    }
  }

  /** value & mask is the field's bits in place. */
  lemma {:induction false} AndMask(v: nat, f: Field)
    ensures And(v, f.Mask()) == Shl(Low(Shr(v, f.offset), f.bits), f.offset)
    decreases f.offset
  {
    if f.offset == 0 {
      AndLow(v, f.bits);
    } else {
      var g := Field(f.bits, f.offset - 1);
      assert f.Mask() == 2 * g.Mask();
      AndMask(v / 2, g);
    }
  }

  // ---------------------------------------------------------------- the two conversions

  /** A dictionary of field values, in its iteration order. */
  type Items = seq<(Field, int)>

  /** (value & mask) >> offset. */
  function Part(v: nat, f: Field): nat {
    Shr(And(v, f.Mask()), f.offset)
  }

  function Split(v: nat, fs: seq<Field>): (r: Items)
    ensures |r| == |fs|
    ensures forall i :: 0 <= i < |fs| ==> r[i] == (fs[i], Part(v, fs[i]))
  {
    if fs == [] then [] else [(fs[0], Part(v, fs[0]))] + Split(v, fs[1..])
  }

  /** bitfield_to_value; `None` is its ValueError. */
  function Join(items: Items): Option<nat> {
    if items == [] then Some(0)
    else if !items[0].0.Accepts(items[0].1) then None
    else
      var rest := Join(items[1..]);
      if rest.None? then None else Some(Shl(items[0].1, items[0].0.offset) + rest.value)
  }

  /** bitfield_to_value's loop. */
  method BitfieldToValue(items: Items) returns (r: Option<nat>)
    ensures r == Join(items)
  {
    var tmp: nat := 0;
    assert items[0..] == items;
    for k := 0 to |items|
      invariant var rest := Join(items[k..]);
                Join(items) == if rest.None? then None else Some(tmp + rest.value)
    {
      var (f, value) := items[k];
      assert items[k..][1..] == items[k + 1..];
      if value < 0 {
        return None;
      }
      if value > 2 * f.bits {
        return None;
      }
      tmp := tmp + Shl(value, f.offset);
    }
    r := Some(tmp);
  }

  /** value_to_bitfield's loop; `None` is its ValueError on a negative value. */
  method ValueToBitfield(v: int, fs: seq<Field>) returns (r: Option<map<Field, nat>>)
    ensures r.None? <==> v < 0
    ensures r.Some? ==> r.value.Keys == (set f | f in fs) && forall f :: f in fs ==> r.value[f] == Part(v, f)
  {
    if v < 0 {
      return None;
    }
    var values: map<Field, nat> := map[];
    for k := 0 to |fs|
      invariant values.Keys == set f | f in fs[..k]
      invariant forall f :: f in values ==> values[f] == Part(v, f)
    {
      values := values[fs[k] := Shr(And(v, fs[k].Mask()), fs[k].offset)];
      assert fs[..k + 1] == fs[..k] + [fs[k]];
    }
    assert fs[..|fs|] == fs;
    r := Some(values);
  }

  // ---------------------------------------------------------------- inversion

  predicate Disjoint(fs: seq<Field>) {
    forall i, j :: 0 <= i < j < |fs| ==> And(fs[i].Mask(), fs[j].Mask()) == 0
  }

  /** The union of the masks; a sum, since the fields are disjoint. */
  function Union(fs: seq<Field>): nat {
    if fs == [] then 0 else fs[0].Mask() + Union(fs[1..])
  }

  lemma {:induction false} FieldsTail(fs: seq<Field>)
    requires fs != [] && Disjoint(fs)
    ensures Disjoint(fs[1..])
    ensures forall i :: 0 <= i < |fs| - 1 ==> fs[1..][i] == fs[i + 1] && And(fs[0].Mask(), fs[1..][i].Mask()) == 0
  {}

  lemma {:induction false} UnionIsDisjoint(m: nat, fs: seq<Field>)
    requires Disjoint(fs) && forall i :: 0 <= i < |fs| ==> And(m, fs[i].Mask()) == 0
    ensures And(m, Union(fs)) == 0
    decreases |fs|
  {
    if fs == [] {
      AndZero(m);
    } else {
      var f, u := fs[0].Mask(), Union(fs[1..]);
      assert And(f, u) == 0 && And(m, u) == 0 by {
        FieldsTail(fs);
        UnionIsDisjoint(f, fs[1..]);
        UnionIsDisjoint(m, fs[1..]);
      }
      MaskSum(m, f, u);
    }
  }

  /** A mask and one disjoint from it, under a third value. */
  lemma {:induction false} MaskSum(m: nat, f: nat, u: nat)
    requires And(f, u) == 0
    ensures And(m, f + u) == And(m, f) + And(m, u)
  {
    AndDistributes(m, f, u);
  }

  /** A part put back in place is the value under the field's mask. */
  lemma {:induction false} PartInPlace(v: nat, f: Field)
    ensures Part(v, f) == Low(Shr(v, f.offset), f.bits) < Pow(f.bits)
    ensures Shl(Part(v, f), f.offset) == And(v, f.Mask())
  {
    AndMask(v, f);
    ShiftBack(Low(Shr(v, f.offset), f.bits), f.offset);
  }

  /** Every part of the value passes the size test. */
  predicate Passes(v: nat, fs: seq<Field>) {
    forall i :: 0 <= i < |fs| ==> Part(v, fs[i]) <= 2 * fs[i].bits
  }

  lemma {:induction false} JoinCons(items: Items)
    requires items != [] && Join(items).Some?
    ensures items[0].1 >= 0 && Join(items[1..]).Some?
    ensures Join(items).value == Shl(items[0].1, items[0].0.offset) + Join(items[1..]).value
  {}

  lemma {:induction false} SplitTail(v: nat, fs: seq<Field>)
    requires fs != []
    ensures Split(v, fs)[0] == (fs[0], Part(v, fs[0])) && Split(v, fs)[1..] == Split(v, fs[1..])
  {}

  lemma {:induction false} SplitAccepted(v: nat, fs: seq<Field>)
    ensures Join(Split(v, fs)).Some? <==> Passes(v, fs)
    decreases |fs|
  {
    if fs != [] {
      SplitAccepted(v, fs[1..]);
      SplitTail(v, fs);
      assert Passes(v, fs) <==> Part(v, fs[0]) <= 2 * fs[0].bits && Passes(v, fs[1..]) by {
        assert forall i :: 1 <= i < |fs| ==> fs[i] == fs[1..][i - 1];
        assert forall i :: 0 <= i < |fs[1..]| ==> fs[1..][i] == fs[i + 1];
      }
    }
  }

  lemma {:induction false} SplitJoins(v: nat, fs: seq<Field>)
    requires Disjoint(fs) && Join(Split(v, fs)).Some?
    ensures Join(Split(v, fs)) == Some(And(v, Union(fs)))
    decreases |fs|
  {
    if fs == [] {
      AndZero(v);
    } else {
      FieldsTail(fs);
      SplitTail(v, fs);
      JoinCons(Split(v, fs));
      SplitJoins(v, fs[1..]);
      HeadUnderUnion(v, fs);
    }
  }

  lemma {:induction false} HeadUnderUnion(v: nat, fs: seq<Field>)
    requires fs != [] && Disjoint(fs)
    ensures And(v, Union(fs)) == Shl(Part(v, fs[0]), fs[0].offset) + And(v, Union(fs[1..]))
  {
    var f, u := fs[0].Mask(), Union(fs[1..]);
    assert And(f, u) == 0 by {
      FieldsTail(fs);
      UnionIsDisjoint(f, fs[1..]);
    }
    assert Shl(Part(v, fs[0]), fs[0].offset) == And(v, f) by {
      PartInPlace(v, fs[0]);
    }
    MaskSum(v, f, u);
  }

  /** Splitting and joining: the split of a value is accepted exactly when every part passes the size test,
      and then it joins to the value masked by the union of the fields. */
  lemma {:induction false} JoinOfSplit(v: nat, fs: seq<Field>)
    requires Disjoint(fs)
    ensures Join(Split(v, fs)).Some? <==> forall i :: 0 <= i < |fs| ==> Part(v, fs[i]) <= 2 * fs[i].bits
    ensures Join(Split(v, fs)).Some? ==> Join(Split(v, fs)) == Some(And(v, Union(fs)))
  {
    SplitAccepted(v, fs);
    if Join(Split(v, fs)).Some? {
      SplitJoins(v, fs);
    }
  }

  /** Every value is accepted when it comes back. */
  ghost predicate AlwaysAccepted(fs: seq<Field>) {
    forall v: nat :: Join(Split(v, fs)).Some?
  }

  /** The size test is bits << 1 where 1 << bits was meant: every value survives the round trip exactly when
      no field is wider than two bits. */
  lemma {:induction false} WideFieldsRejectValues(fs: seq<Field>)
    ensures AlwaysAccepted(fs) <==> forall i :: 0 <= i < |fs| ==> fs[i].bits <= 2
  {
    if forall i :: 0 <= i < |fs| ==> fs[i].bits <= 2 {
      forall v: nat
        ensures Join(Split(v, fs)).Some?
      {
        SplitAccepted(v, fs);
        forall i | 0 <= i < |fs|
          ensures Part(v, fs[i]) <= 2 * fs[i].bits
        {
          PartInPlace(v, fs[i]);
          SizeTest(fs[i].bits);
        }
      }
    } else {
      var i :| 0 <= i < |fs| && fs[i].bits > 2;
      var v := fs[i].Mask();
      SplitAccepted(v, fs);
      FullField(fs[i]);
      SizeTest(fs[i].bits);
      assert Part(v, fs[i]) > 2 * fs[i].bits;
    }
  }

  lemma {:induction false} FullField(f: Field)
    ensures Part(f.Mask(), f) == Pow(f.bits) - 1
  {
    PartInPlace(f.Mask(), f);
    ShiftBack(Pow(f.bits) - 1, f.offset);
    LowOfSmall(Pow(f.bits) - 1, f.bits);
  }

  lemma {:induction false} SizeTest(bits: nat)
    ensures Pow(bits) - 1 <= 2 * bits <==> bits <= 2
    decreases bits
  {
    if bits <= 3 {
      assert Pow(0) == 1 && Pow(1) == 2 && Pow(2) == 4 && Pow(3) == 8;
    } else {
      SizeTest(bits - 1);
    }
  }

  /** Every part fits the width of its field. */
  predicate Fits(items: Items) {
    forall i :: 0 <= i < |items| ==> 0 <= items[i].1 < Pow(items[i].0.bits)
  }

  function FieldsOf(items: Items): (r: seq<Field>)
    ensures |r| == |items|
    ensures forall i :: 0 <= i < |items| ==> r[i] == items[i].0
  {
    if items == [] then [] else [items[0].0] + FieldsOf(items[1..])
  }

  /** A fitting part in place lies under the mask of its field. */
  lemma {:induction false} PlacedPart(f: Field, x: nat)
    requires x < Pow(f.bits)
    ensures And(Shl(x, f.offset), f.Mask()) == Shl(x, f.offset)
  {
    AndMask(Shl(x, f.offset), f);
    ShiftBack(x, f.offset);
    LowOfSmall(x, f.bits);
  }

  lemma {:induction false} DisjointTail(items: Items)
    requires items != [] && Disjoint(FieldsOf(items))
    ensures Disjoint(FieldsOf(items[1..])) && (Fits(items) ==> Fits(items[1..]))
    ensures forall i :: 0 <= i < |items| - 1 ==> items[1..][i] == items[i + 1]
  {
    assert FieldsOf(items)[1..] == FieldsOf(items[1..]);
  }

  /** What is disjoint from every mask is disjoint from the joined value. */
  lemma {:induction false} JoinIsDisjoint(m: nat, items: Items)
    requires Fits(items) && Join(items).Some? && Disjoint(FieldsOf(items))
    requires forall i :: 0 <= i < |items| ==> And(m, items[i].0.Mask()) == 0
    ensures And(m, Join(items).value) == 0
    decreases |items|, 1
  {
    if items == [] {
      AndZero(m);
    } else {
      var (f, x) := items[0];
      var rest, placed := items[1..], Shl(x, f.offset);
      DisjointTail(items);
      JoinIsDisjoint(m, rest);
      HeadIsDisjoint(items);
      assert And(m, placed) == 0 by {
        PlacedPart(f, x);
        AndCommutes(m, f.Mask());
        PartIsDisjoint(placed, f.Mask(), m);
        AndCommutes(m, placed);
      }
      AndDistributes(m, placed, Join(rest).value);
    }
  }

  lemma {:induction false} HeadIsDisjoint(items: Items)
    requires items != [] && Fits(items) && Join(items).Some? && Disjoint(FieldsOf(items))
    ensures And(Shl(items[0].1, items[0].0.offset), Join(items[1..]).value) == 0
    decreases |items|, 0
  {
    var (f, x) := items[0];
    var rest := items[1..];
    DisjointTail(items);
    OthersAreDisjoint(items);
    JoinIsDisjoint(f.Mask(), rest);
    PlacedPart(f, x);
    PartIsDisjoint(Shl(x, f.offset), f.Mask(), Join(rest).value);
  }

  lemma {:induction false} OthersAreDisjoint(items: Items)
    requires items != [] && Disjoint(FieldsOf(items))
    ensures forall i :: 1 <= i < |items| ==> And(items[0].0.Mask(), items[i].0.Mask()) == 0
  {
    forall i | 1 <= i < |items|
      ensures And(items[0].0.Mask(), items[i].0.Mask()) == 0
    {
      assert FieldsOf(items)[0] == items[0].0 && FieldsOf(items)[i] == items[i].0;
    }
  }

  lemma {:induction false} JoinKeepsField(items: Items, k: nat)
    requires k < |items| && Fits(items) && Join(items).Some? && Disjoint(FieldsOf(items))
    ensures And(items[k].0.Mask(), Join(items).value) == Shl(items[k].1, items[k].0.offset)
    decreases |items|
  {
    var (f, x) := items[0];
    var rest, m, placed := items[1..], items[k].0.Mask(), Shl(x, f.offset);
    DisjointTail(items);
    OthersAreDisjoint(items);
    assert And(m, Join(items).value) == And(m, placed) + And(m, Join(rest).value) by {
      HeadIsDisjoint(items);
      AndDistributes(m, placed, Join(rest).value);
    }
    assert And(m, placed) == if k == 0 then placed else 0 by {
      PlacedPart(f, x);
      AndCommutes(m, placed);
      if k > 0 {
        PartIsDisjoint(placed, f.Mask(), m);
      }
    }
    if k == 0 {
      JoinIsDisjoint(m, rest);
    } else {
      JoinKeepsField(rest, k - 1);
    }
  }

  /** Joining and splitting: an accepted assignment to disjoint fields is recovered exactly when every part
      fits the width of its field. */
  lemma {:induction false} SplitOfJoin(items: Items)
    requires Join(items).Some? && Disjoint(FieldsOf(items))
    ensures Split(Join(items).value, FieldsOf(items)) == items <==> Fits(items)
  {
    var v, fs := Join(items).value, FieldsOf(items);
    if Fits(items) {
      forall k | 0 <= k < |items|
        ensures Split(v, fs)[k] == items[k]
      {
        JoinKeepsField(items, k);
        AndCommutes(v, fs[k].Mask());
        ShiftBack(items[k].1, fs[k].offset);
      }
    } else {
      var k :| 0 <= k < |items| && !(0 <= items[k].1 < Pow(items[k].0.bits));
      PartInPlace(v, fs[k]);
      assert Split(v, fs)[k] == (fs[k], Part(v, fs[k]));
      assert Split(v, fs)[k] != items[k];
    }
  }

  // ---------------------------------------------------------------- the operators in plain arithmetic

  lemma {:induction false} Doubled(x: nat, p: nat)
    ensures x * (2 * p) == 2 * (x * p)
  {}

  /** Shifting left multiplies by a power of two. */
  lemma {:induction false} ShlIsTimes(x: nat, n: nat)
    ensures Shl(x, n) == x * Pow(n)
  {
    if n > 0 {
      ShlIsTimes(x, n - 1);
      Doubled(x, Pow(n - 1));
    }
  }

  /** Shifting right is the quotient, and what is lost the remainder. */
  lemma {:induction false} ShrIsDiv(x: nat, n: nat)
    ensures x == Shl(Shr(x, n), n) + Low(x, n) && Low(x, n) < Pow(n)
    decreases n
  {
    if n > 0 {
      ShrIsDiv(x / 2, n - 1);
    }
  }

  lemma {:induction false} Powers()
    ensures Pow(0) == 1 && Pow(1) == 2 && Pow(2) == 4 && Pow(3) == 8 && Pow(8) == 256
    ensures forall n: nat :: Pow(n + 1) == 2 * Pow(n)
  {
    assert Pow(4) == 2 * Pow(3) && Pow(5) == 2 * Pow(4) && Pow(6) == 2 * Pow(5);
    assert Pow(7) == 2 * Pow(6) && Pow(8) == 2 * Pow(7);
  }

  /** Bit `i` of a number. */
  predicate HasBit(a: nat, i: nat) {
    Shr(a, i) % 2 == 1
  }

  /** And has exactly the common bits. */
  lemma {:induction false} AndBits(a: nat, b: nat, i: nat)
    ensures HasBit(And(a, b), i) <==> HasBit(a, i) && HasBit(b, i)
    decreases i
  {
    if a == 0 {
      ZeroHasNoBits(i);
    } else {
      assert And(a, b) / 2 == And(a / 2, b / 2) && And(a, b) % 2 == Bit(a, b);
      if i > 0 {
        AndBits(a / 2, b / 2, i - 1);
      }
    }
  }

  lemma {:induction false} ZeroHasNoBits(i: nat)
    ensures !HasBit(0, i)
  {
    if i > 0 {
      ZeroHasNoBits(i - 1);
    }
  }

  /** A part is the digit between what lies above the field and what lies below it. */
  lemma {:induction false} PartMeans(v: nat, f: Field) returns (above: nat, below: nat)
    ensures below < Pow(f.offset) && Part(v, f) < Pow(f.bits)
    ensures v == Shl(Shl(above, f.bits) + Part(v, f), f.offset) + below
  {
    PartInPlace(v, f);
    ShrIsDiv(v, f.offset);
    ShrIsDiv(Shr(v, f.offset), f.bits);
    above, below := Shr(Shr(v, f.offset), f.bits), Low(v, f.offset);
  }

  /** An assignment is accepted exactly when no value is negative or above twice the width of its field. */
  lemma {:induction false} JoinAccepts(items: Items)
    ensures Join(items).Some? <==> forall i :: 0 <= i < |items| ==> 0 <= items[i].1 <= 2 * items[i].0.bits
    decreases |items|
  {
    if items != [] {
      JoinAccepts(items[1..]);
      assert forall i :: 1 <= i < |items| ==> items[i] == items[1..][i - 1];
      assert forall i :: 0 <= i < |items| - 1 ==> items[1..][i] == items[i + 1];
    }
  }

  /** The joined value is the sum of the values times 2 to their offsets. */
  function Weighted(items: Items): int {
    if items == [] then 0 else items[0].1 * Pow(items[0].0.offset) + Weighted(items[1..])
  }

  lemma {:induction false} JoinIsSum(items: Items)
    requires Join(items).Some?
    ensures Join(items).value == Weighted(items)
    decreases |items|
  {
    if items != [] {
      JoinIsSum(items[1..]);
      ShlIsTimes(items[0].1, items[0].0.offset);
    }
  }
}
