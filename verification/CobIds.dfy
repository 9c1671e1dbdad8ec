/** The COB-ID assignment of fix_cob_ids in src/main.c (pre-defined connection set, section 7.3.5 of CiA 301). */
module CobIds {
  import opened Base

  /** A dictionary entry as far as this code sees it: its index and, if it has one, its COB-ID (subindex 1). */
  datatype Pdo = Pdo(index: nat, cob: Option<nat>)

  const WORD := 0x1_0000_0000      // uint32_t

  predicate Rpdo(index: nat) {
    0x1400 <= index < 0x1600
  }

  predicate Tpdo(index: nat) {
    0x1800 <= index < 0x1A00
  }

  /** The identifier bits of a COB-ID; the bits above are flags. */
  function Identifier(cob: nat): nat {
    cob % 0x800
  }

  function Flags(cob: nat): nat {
    cob / 0x800
  }

  function Number(index: nat): nat
    requires Rpdo(index) || Tpdo(index)
  {
    if Rpdo(index) then index - 0x1400 else index - 0x1800
  }

  /** The default identifier of a PDO before the node id is added. */
  function Default(index: nat): nat
    requires Rpdo(index) || Tpdo(index)
  {
    var i := Number(index);
    (if Rpdo(index) then 0x200 else 0x180) + 0x100 * (i % 4) + i / 4
  }

  /** The entry holds its default identifier. */
  predicate Defaulted(p: Pdo) {
    (Rpdo(p.index) || Tpdo(p.index)) && p.cob.Some? && Identifier(p.cob.value) == Default(p.index)
  }

  function Fixed(p: Pdo, node: byte): Pdo {
    if Defaulted(p) then p.(cob := Some((p.cob.value + node) % WORD)) else p
  }

  function FixedAll(od: seq<Pdo>, node: byte): (r: seq<Pdo>)
    ensures |r| == |od| && forall e :: 0 <= e < |od| ==> r[e] == Fixed(od[e], node)
  {
    seq(|od|, e requires 0 <= e < |od| => Fixed(od[e], node))
  }

  /** fix_cob_ids, in place. */
  method FixCobIds(od: array<Pdo>, node: byte)
    modifies od
    ensures od[..] == FixedAll(old(od[..]), node)
  {
    for e := 0 to od.Length
      invariant forall j :: 0 <= j < e ==> od[j] == Fixed(old(od[j]), node)
      invariant forall j :: e <= j < od.Length ==> od[j] == old(od[j])
    {
      var index := od[e].index;
      if 0x1400 <= index < 0x1600 && od[e].cob.Some? {
        var i := index - 0x1400;
        var cob := od[e].cob.value;
        if cob % 0x800 == 0x200 + (0x100 * (i % 4) + i / 4) {
          od[e] := od[e].(cob := Some((cob + node) % WORD));
        }
      }
      if 0x1800 <= index < 0x1A00 && od[e].cob.Some? {
        var i := index - 0x1800;
        var cob := od[e].cob.value;
        if cob % 0x800 == 0x180 + (0x100 * (i % 4) + i / 4) {
          od[e] := od[e].(cob := Some((cob + node) % WORD));
        }
      }
    }
  }

  /** A defaulted entry gets its default identifier plus the node id, still within 11 bits, and keeps its
      flags; any other entry is unchanged. */
  lemma {:induction false} FixedIdentifier(p: Pdo, node: byte)
    requires p.cob.Some? ==> p.cob.value < WORD
    ensures !Defaulted(p) ==> Fixed(p, node) == p
    ensures Defaulted(p) ==>
              var c := Fixed(p, node).cob.value;
              && Identifier(c) == Default(p.index) + node < 0x800
              && Flags(c) == Flags(p.cob.value) && c < WORD
  {
    if Defaulted(p) {
      var c := p.cob.value;
      assert Default(p.index) < 0x580 by { assert Number(p.index) < 512; }
      assert c == 0x800 * Flags(c) + Identifier(c);
      SplitWord(Flags(c), Identifier(c) + node);
      assert c + node < WORD;
    }
  }

  lemma {:induction false} SplitWord(flags: nat, id: nat)
    requires id < 0x800
    ensures (0x800 * flags + id) % 0x800 == id && (0x800 * flags + id) / 0x800 == flags
  {}

  /** Different PDOs have different defaults, receive and transmit together. */
  lemma {:induction false} DefaultsDiffer(a: nat, b: nat)
    requires (Rpdo(a) || Tpdo(a)) && (Rpdo(b) || Tpdo(b)) && a != b
    ensures Default(a) != Default(b)
  {
    var i, j := Number(a), Number(b);
    assert i == 4 * (i / 4) + i % 4 && j == 4 * (j / 4) + j % 4;
    assert i / 4 < 128 && j / 4 < 128;
    if Rpdo(a) == Rpdo(b) {
      assert i != j;
    }
  }

  lemma {:induction false} FixedTwice(p: Pdo, node: byte)
    requires p.cob.Some? ==> p.cob.value < WORD
    ensures Fixed(Fixed(p, node), node) == Fixed(p, node)
  {
    FixedIdentifier(p, node);
  }

  /** COB-ID assignment on a whole dictionary of distinct indexes, for every node id a byte can hold: the
      entries that held their default get pairwise distinct 11-bit identifiers with their flags kept, the
      others are unchanged, and a second application changes nothing. */
  lemma {:induction false} CobIdsAssigned(od: seq<Pdo>, node: byte)
    requires forall i, j :: 0 <= i < j < |od| ==> od[i].index != od[j].index
    requires forall i :: 0 <= i < |od| && od[i].cob.Some? ==> od[i].cob.value < 0x1_0000_0000
    ensures FixedAll(FixedAll(od, node), node) == FixedAll(od, node)
    ensures var r := FixedAll(od, node);
            && (forall e :: 0 <= e < |od| && Defaulted(od[e]) ==>
                  && r[e].index == od[e].index && r[e].cob.Some?
                  && Identifier(r[e].cob.value) == Default(od[e].index) + node < 0x800
                  && Flags(r[e].cob.value) == Flags(od[e].cob.value))
            && (forall e :: 0 <= e < |od| && !Defaulted(od[e]) ==> r[e] == od[e])
            && (forall d, e :: 0 <= d < e < |od| && Defaulted(od[d]) && Defaulted(od[e]) ==>
                  Identifier(r[d].cob.value) != Identifier(r[e].cob.value))
  {
    var r := FixedAll(od, node);
    forall e | 0 <= e < |od|
      ensures FixedAll(r, node)[e] == r[e]
    {
      FixedTwice(od[e], node);
    }
    forall e | 0 <= e < |od| && Defaulted(od[e])
      ensures Identifier(r[e].cob.value) == Default(od[e].index) + node < 0x800
      ensures Flags(r[e].cob.value) == Flags(od[e].cob.value)
    {
      FixedIdentifier(od[e], node);
    }
    forall d, e | 0 <= d < e < |od| && Defaulted(od[d]) && Defaulted(od[e])
      ensures Identifier(r[d].cob.value) != Identifier(r[e].cob.value)
    {
      DefaultsDiffer(od[d].index, od[e].index);
    }
  }

  /** The pre-defined connection set of section 7.3.5 of CiA 301, in its own numbers: PDO number i of a kind
      has its identifier at 0x200 (receive) or 0x180 (transmit), plus 0x100 for each of the first four and one
      for every further four. An entry that has just that gets the node id added; nothing else changes. */
  lemma {:induction false} PredefinedConnectionSet(i: nat, cob: nat, node: byte)
    requires i < 512 && cob < 0x1_0000_0000
    ensures Fixed(Pdo(0x1400 + i, Some(cob)), node)
            == Pdo(0x1400 + i, Some(if cob % 0x800 == 0x200 + 0x100 * (i % 4) + i / 4 then cob + node else cob))
    ensures Fixed(Pdo(0x1800 + i, Some(cob)), node)
            == Pdo(0x1800 + i, Some(if cob % 0x800 == 0x180 + 0x100 * (i % 4) + i / 4 then cob + node else cob))
  {
    FixedIdentifier(Pdo(0x1400 + i, Some(cob)), node);
    FixedIdentifier(Pdo(0x1800 + i, Some(cob)), node);
    NoWrap(cob, node);
  }

  lemma {:induction false} NoWrap(cob: nat, node: byte)
    requires cob < 0x1_0000_0000
    ensures cob % 0x800 < 0x700 ==> cob + node < 0x1_0000_0000
  {
    assert cob == 0x800 * (cob / 0x800) + cob % 0x800;
  }

  /** Entries outside both ranges, and entries without a COB-ID, are left alone. */
  lemma {:induction false} OtherEntriesKept(p: Pdo, node: byte)
    requires p.index < 0x1400 || 0x1600 <= p.index < 0x1800 || p.index >= 0x1A00 || p.cob.None?
    ensures Fixed(p, node) == p
  {}

  /** The identifier of transmit PDO number `i` of a node. */
  function TpdoIdentifier(node: nat, i: nat): nat
    requires i < 512
  {
    Default(0x1800 + i) + node
  }

  /** It is what the entry holds after its default has been fixed. */
  lemma {:induction false} TpdoIdentifierMeans(node: byte, i: nat)
    requires i < 512
    ensures TpdoIdentifier(node, i) == 0x180 + 0x100 * (i % 4) + i / 4 + node
    ensures Fixed(Pdo(0x1800 + i, Some(0x180 + 0x100 * (i % 4) + i / 4)), node).cob == Some(TpdoIdentifier(node, i))
  {
    PredefinedConnectionSet(i, 0x180 + 0x100 * (i % 4) + i / 4, node);
  }

  /** The node-id range a node occupies with its first `k` transmit PDOs. */
  function Width(k: nat): nat {
    (k + 3) / 4
  }

  /** Some identifier is used by both nodes. */
  ghost predicate Share(n: nat, k: nat, m: nat, l: nat)
    requires k <= 512 && l <= 512
  {
    exists i, j :: 0 <= i < k && 0 <= j < l && TpdoIdentifier(n, i) == TpdoIdentifier(m, j)
  }

  lemma {:induction false} SameIdentifier(n: nat, i: nat, m: nat, j: nat)
    requires i < 512 && j < 512 && n + i / 4 <= 127 && m + j / 4 <= 127
    ensures TpdoIdentifier(n, i) == TpdoIdentifier(m, j) <==> i % 4 == j % 4 && n + i / 4 == m + j / 4
  {}

  /** Two nodes whose ranges stay at or below 127 share a transmit identifier exactly when their ranges
      [n, n + ceil(k / 4)) and [m, m + ceil(l / 4)) overlap. */
  lemma {:induction false} NodesShareIffRangesOverlap(n: nat, k: nat, m: nat, l: nat)
    requires 0 < k <= 512 && 0 < l <= 512 && n + Width(k) <= 128 && m + Width(l) <= 128
    ensures Share(n, k, m, l) <==> n < m + Width(l) && m < n + Width(k)
  {
    if Share(n, k, m, l) {
      var i, j :| 0 <= i < k && 0 <= j < l && TpdoIdentifier(n, i) == TpdoIdentifier(m, j);
      SameIdentifier(n, i, m, j);
    }
    if n < m + Width(l) && m < n + Width(k) {
      var y := if n < m then m else n;
      var i, j := 4 * (y - n), 4 * (y - m);
      assert i < k && j < l;
      SameIdentifier(n, i, m, j);
    }
  }
}
