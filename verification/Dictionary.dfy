/** The merge of the built-in object dictionary with the rows of a configuration file, as od_config_load of
    src/load_configs.c does it, and the PDO counting walk of src/canopenlinux/config.c over the result. */
module Dictionary {
  import opened Base

  type Index = i: int | 0 <= i < 65536

  /** A subindex of a record: zeroed memory, or a filled-in variable. */
  datatype Sub = Blank | Sub(subindex: nat, data: seq<byte>)

  datatype Object = Builtin(id: nat) | Var(data: seq<byte>) | Rec(subs: seq<Sub>)

  datatype Entry = Entry(index: Index, body: Object)

  /** A parsed line: one without a subindex starts an object, one with a subindex fills it in. A default
      that cannot be parsed is `None`. */
  datatype Row =
    | VarRow(index: Index, data: Option<seq<byte>>)
    | RecRow(index: Index, total: nat)
    | BadRow(index: Index)
    | SubRow(index: Index, subindex: nat, data: Option<seq<byte>>)

  /** The loop's variables: the allocated list, `e`, `size`, `entry`, `internal_od_offset`,
      `last_interal_index` and `sub_offset`. */
  datatype Loader = Loader(
    slots: seq<Option<Entry>>, e: int, size: int, entry: Option<nat>, offset: nat, last: nat, sub: nat)

  /** Undefined: the C code would use memory outside the allocation or not yet written. */
  datatype Load = Loaded(st: Loader) | Failed | Undefined

  // ---------------------------------------------------------------- the loop body

  function Put(slots: seq<Option<Entry>>, e: int, x: Entry): Option<seq<Option<Entry>>> {
    if 0 <= e < |slots| then Some(slots[e := Some(x)]) else None
  }

  /** The inner loop: copy built-in entries up to and including `index`. */
  function CopyBuiltins(builtin: seq<Entry>, st: Loader, index: Index): (r: Load)
    ensures !r.Failed?
    decreases |builtin| - st.offset
  {
    if st.offset < |builtin| && index >= builtin[st.offset].index then
      var slots := Put(st.slots, st.e, builtin[st.offset]);
      if slots.None? then Undefined
      else
        CopyBuiltins(builtin, st.(slots := slots.value, e := st.e + 1, last := builtin[st.offset].index,
                                  offset := st.offset + 1), index)
    else Loaded(st)
  }

  /** fill_entry_index. */
  function NewEntry(row: Row): Option<Entry>
    requires !row.SubRow?
  {
    match row
    case VarRow(i, d) => if d.None? then None else Some(Entry(i, Var(d.value)))
    case RecRow(i, n) => Some(Entry(i, Rec(seq(n, _ => Blank))))
    case BadRow(_) => None
  }

  function IndexStep(builtin: seq<Entry>, extend: bool, st: Loader, row: Row): Load
    requires !row.SubRow?
  {
    var copied := if extend then CopyBuiltins(builtin, st.(e := st.e + 1), row.index) else Loaded(st.(e := st.e + 1));
    if copied.Undefined? then Undefined
    else
      var st1 := copied.st;
      if extend && row.index == st1.last then
        // the configuration redefines a built-in entry: drop it and shrink the list
        if st1.size < 0 || st1.size > |st1.slots| then Undefined
        else
          Checked(st1.(e := st1.e - 1, size := st1.size - 1, slots := st1.slots[..st1.size], entry := None, sub := 0))
      else
        var x := NewEntry(row);
        if x.None? then Failed
        else
          var slots := Put(st1.slots, st1.e, x.value);
          if slots.None? then Undefined
          else Checked(st1.(slots := slots.value, entry := Some(st1.e), sub := 0))
  }

  /** The check at the end of the loop body; `e` is unsigned, so it also catches a negative one. */
  function Checked(st: Loader): Load {
    if st.e < 0 || st.e > st.size then Failed else Loaded(st)
  }

  function SubStep(extend: bool, st: Loader, row: Row): Load
    requires row.SubRow?
  {
    if extend && row.index == st.last then Checked(st.(sub := st.sub + 1))
    else if st.entry.None? || st.entry.value >= |st.slots| || st.slots[st.entry.value].None? then Undefined
    else
      var x := st.slots[st.entry.value].value;
      if !x.body.Rec? then Failed
      else if st.sub >= |x.body.subs| then Undefined
      else if row.data.None? then Failed
      else
        var subs := x.body.subs[st.sub := Sub(row.subindex, row.data.value)];
        Checked(st.(slots := st.slots[st.entry.value := Some(x.(body := Rec(subs)))], sub := st.sub + 1))
  }

  function RowStep(builtin: seq<Entry>, extend: bool, st: Loader, row: Row): Load {
    if row.SubRow? then SubStep(extend, st, row) else IndexStep(builtin, extend, st, row)
  }

  function LoadRows(builtin: seq<Entry>, extend: bool, st: Loader, rows: seq<Row>): Load
    decreases |rows|
  {
    if rows == [] then Loaded(st)
    else
      match RowStep(builtin, extend, st, rows[0])
      case Loaded(st1) => LoadRows(builtin, extend, st1, rows[1..])
      case Failed => Failed
      case Undefined => Undefined
  }

  /** The state after the ";objects=" line. */
  function Opened(builtin: seq<Entry>, extend: bool, declared: nat): Loader {
    var size := if extend then |builtin| + declared else declared;
    Loader(seq(size + 1, _ => None), -1, size, None, 0, 0, 0)
  }

  /** The row loop of od_config_load. */
  method LoadConfig(builtin: seq<Entry>, extend: bool, declared: nat, rows: seq<Row>) returns (r: Load)
    ensures r == LoadRows(builtin, extend, Opened(builtin, extend, declared), rows)
  {
    var size := if extend then |builtin| + declared else declared;
    var st := Loader(seq(size + 1, _ => None), -1, size, None, 0, 0, 0);
    var k := 0;
    assert rows[0..] == rows;
    while k < |rows|
      invariant k <= |rows|
      invariant LoadRows(builtin, extend, Opened(builtin, extend, declared), rows)
                == LoadRows(builtin, extend, st, rows[k..])
    {
      assert rows[k..][1..] == rows[k + 1..];
      var row := rows[k];
      if row.SubRow? {
        r := SubStep(extend, st, row);
      } else {
        var st1 := st.(e := st.e + 1);
        ghost var st0 := st1;
        while extend && st1.offset < |builtin| && row.index >= builtin[st1.offset].index
          invariant CopyBuiltins(builtin, st0, row.index) == CopyBuiltins(builtin, st1, row.index)
          invariant !extend ==> st1 == st0
          decreases |builtin| - st1.offset
        {
          var slots := Put(st1.slots, st1.e, builtin[st1.offset]);
          if slots.None? {
            return Undefined;
          }
          st1 := st1.(slots := slots.value, e := st1.e + 1, last := builtin[st1.offset].index,
                      offset := st1.offset + 1);
        }
        if extend && row.index == st1.last {
          if st1.size < 0 || st1.size > |st1.slots| {
            return Undefined;
          }
          r := Checked(st1.(e := st1.e - 1, size := st1.size - 1, slots := st1.slots[..st1.size],
                            entry := None, sub := 0));
        } else {
          var x := NewEntry(row);
          if x.None? {
            return Failed;
          }
          var slots := Put(st1.slots, st1.e, x.value);
          if slots.None? {
            return Undefined;
          }
          r := Checked(st1.(slots := slots.value, entry := Some(st1.e), sub := 0));
        }
      }
      if !r.Loaded? {
        return;
      }
      st := r.st;
      k := k + 1;
    }
    r := Loaded(st);
  }

  // ---------------------------------------------------------------- what a merge is

  predicate Sorted(s: seq<Entry>) {
    forall i, j :: 0 <= i < j < |s| ==> s[i].index < s[j].index
  }

  predicate HasIndex(s: seq<Entry>, index: int) {
    exists i :: 0 <= i < |s| && s[i].index == index
  }

  /** The union of two dictionaries in index order, in which the built-in definition wins every clash. */
  ghost predicate MergeOf(builtin: seq<Entry>, config: seq<Entry>, r: seq<Entry>) {
    && Sorted(r)
    && forall x :: x in r <==> x in builtin || (x in config && !HasIndex(builtin, x.index))
  }

  /** A configured object: a variable, or a record with every subindex present. */
  predicate Configured(x: Entry) {
    && x.index > 0
    && (x.body.Var? || (x.body.Rec? && forall i :: 0 <= i < |x.body.subs| ==> x.body.subs[i].Sub?))
  }

  predicate Configuration(config: seq<Entry>) {
    Sorted(config) && forall i :: 0 <= i < |config| ==> Configured(config[i])
  }

  /** The rows that define an object. */
  function SubRows(x: Entry, from: nat): (r: seq<Row>)
    requires x.body.Rec? && from <= |x.body.subs| && Configured(x)
    ensures forall i :: 0 <= i < |r| ==> r[i].SubRow? && r[i].index == x.index
    decreases |x.body.subs| - from
  {
    if from == |x.body.subs| then []
    else
      var s := x.body.subs[from];
      [SubRow(x.index, s.subindex, Some(s.data))] + SubRows(x, from + 1)
  }

  function RowsOf(x: Entry): seq<Row>
    requires Configured(x)
  {
    if x.body.Var? then [VarRow(x.index, Some(x.body.data))]
    else [RecRow(x.index, |x.body.subs|)] + SubRows(x, 0)
  }

  function Rows(config: seq<Entry>): seq<Row>
    requires forall i :: 0 <= i < |config| ==> Configured(config[i])
  {
    if config == [] then [] else RowsOf(config[0]) + Rows(config[1..])
  }

  // ---------------------------------------------------------------- the loop invariant

  /** A list of entries followed by slots that nothing has been written to. */
  function Pad(list: seq<Entry>, n: int): (r: seq<Option<Entry>>)
    requires |list| <= n
    ensures |r| == n
    ensures forall i :: 0 <= i < n ==> r[i] == if i < |list| then Some(list[i]) else None
  {
    seq(n, i => if 0 <= i < |list| then Some(list[i]) else None)
  }

  lemma {:induction false} PadPut(list: seq<Entry>, n: int, x: Entry)
    requires |list| < n
    ensures Put(Pad(list, n), |list|, x) == Some(Pad(list + [x], n))
  {
    assert Pad(list, n)[|list| := Some(x)] == Pad(list + [x], n);
  }

  function Last(s: seq<Entry>): int {
    if s == [] then 0 else s[|s| - 1].index
  }

  /** The last built-in index copied, or 0 when none has been. */
  function CopiedLast(builtin: seq<Entry>, offset: nat): int
    requires offset <= |builtin|
  {
    if offset == 0 then 0 else builtin[offset - 1].index
  }

  /** Built-in entries up to `d` are in, later ones are not. */
  predicate Frontier(builtin: seq<Entry>, offset: nat, d: int) {
    && offset <= |builtin|
    && (forall i :: 0 <= i < offset ==> builtin[i].index <= d)
    && (forall i :: offset <= i < |builtin| ==> builtin[i].index > d)
  }

  /** The loader's variables while `list` is in the slots and the built-in entries up to `d` are in it. */
  ghost predicate Placed(builtin: seq<Entry>, d: int, st: Loader, list: seq<Entry>) {
    && Frontier(builtin, st.offset, d)
    && st.e + 1 == |list| <= st.size + 1 && st.slots == Pad(list, st.size + 1)
    && st.last == CopiedLast(builtin, st.offset)
  }

  /** The list is the merge of `done` with the built-in entries up to its last index. */
  ghost predicate Holds(builtin: seq<Entry>, offset: nat, done: seq<Entry>, list: seq<Entry>) {
    && offset <= |builtin| && MergeOf(builtin[..offset], done, list)
    && (forall i :: 0 <= i < |list| ==> list[i].index <= Last(done))
  }

  /** After the rows of `done`, with `todo` more objects announced (fewer than none when the announced count
      has been passed): the free slots are those for what is still announced. */
  ghost predicate Inv(builtin: seq<Entry>, done: seq<Entry>, todo: int, st: Loader, list: seq<Entry>) {
    && Placed(builtin, Last(done), st, list)
    && st.size - |list| == |builtin| - st.offset + todo
    && Holds(builtin, st.offset, done, list)
  }

  /** Where the built-in entries from a position on first exceed an index. */
  function Reach(builtin: seq<Entry>, from: nat, index: int): (q: nat)
    requires from <= |builtin|
    ensures from <= q <= |builtin|
    ensures forall i :: from <= i < q ==> builtin[i].index <= index
    ensures q < |builtin| ==> builtin[q].index > index
    decreases |builtin| - from
  {
    if from < |builtin| && index >= builtin[from].index then Reach(builtin, from + 1, index) else from
  }

  /** The inner loop copies what lies up to the index, or leaves the allocation when that does not fit. */
  lemma {:induction false} Copies(builtin: seq<Entry>, st: Loader, list: seq<Entry>, n: int, index: Index)
    requires st.offset <= |builtin| && |list| <= n && st.slots == Pad(list, n) && st.e == |list|
    ensures var q := Reach(builtin, st.offset, index);
            var all := list + builtin[st.offset..q];
            CopyBuiltins(builtin, st, index)
            == if |all| > n then Undefined
               else Loaded(st.(slots := Pad(all, n), e := |all|, offset := q,
                               last := if q == st.offset then st.last else builtin[q - 1].index))
    decreases |builtin| - st.offset
  {
    var q := Reach(builtin, st.offset, index);
    if st.offset < |builtin| && index >= builtin[st.offset].index {
      var x := builtin[st.offset];
      if |list| < n {
        PadPut(list, n, x);
        var st1 := st.(slots := Pad(list + [x], n), e := st.e + 1, last := x.index, offset := st.offset + 1);
        Copies(builtin, st1, list + [x], n, index);
        assert list + [x] + builtin[st.offset + 1..q] == list + builtin[st.offset..q];
      }
    } else {
      assert list + builtin[st.offset..q] == list;
    }
  }

  /** Appending the built-in entries between two configured indexes. */
  lemma {:induction false} MergeCatchesUp(
    builtin: seq<Entry>, done: seq<Entry>, list: seq<Entry>, p: nat, q: nat, d: int)
    requires Sorted(builtin) && p <= q <= |builtin|
    requires MergeOf(builtin[..p], done, list)
    requires forall i :: 0 <= i < |list| ==> list[i].index <= d
    requires forall i :: 0 <= i < |done| ==> done[i].index <= d
    requires forall i :: p <= i < q ==> d < builtin[i].index
    ensures MergeOf(builtin[..q], done, list + builtin[p..q])
  {
    var older, newer, all := builtin[..p], builtin[p..q], list + builtin[p..q];
    assert builtin[..q] == older + newer;
    SortedJoin(list, newer, d);
    forall y
      ensures y in all <==> y in older + newer || (y in done && !HasIndex(older + newer, y.index))
    {
      assert y in all <==> y in list || y in newer;
      assert y in older + newer <==> y in older || y in newer;
      if y in done {
        NewerMiss(builtin, p, q, y.index, d);
      }
    }
  }

  lemma {:induction false} SortedJoin(list: seq<Entry>, newer: seq<Entry>, d: int)
    requires Sorted(list) && Sorted(newer)
    requires forall i :: 0 <= i < |list| ==> list[i].index <= d
    requires forall i :: 0 <= i < |newer| ==> newer[i].index > d
    ensures Sorted(list + newer)
  {}

  /** Adding one more configured entry, after everything else: it counts unless it is already built in. */
  lemma {:induction false} MergeAdds(builtin: seq<Entry>, done: seq<Entry>, list: seq<Entry>, x: Entry)
    requires MergeOf(builtin, done, list)
    requires !HasIndex(builtin, x.index) ==> forall i :: 0 <= i < |list| ==> list[i].index < x.index
    ensures MergeOf(builtin, done + [x], if HasIndex(builtin, x.index) then list else list + [x])
  {
    var r := if HasIndex(builtin, x.index) then list else list + [x];
    forall y
      ensures y in r <==> y in builtin || (y in done + [x] && !HasIndex(builtin, y.index))
    {
      assert y in done + [x] <==> y in done || y == x;
      assert y in list + [x] <==> y in list || y == x;
    }
  }

  lemma {:induction false} NewerMiss(builtin: seq<Entry>, p: nat, q: nat, index: int, d: int)
    requires p <= q <= |builtin| && index <= d
    requires forall i :: p <= i < q ==> d < builtin[i].index
    ensures HasIndex(builtin[..p], index) <==> HasIndex(builtin[..q], index)
  {
    if HasIndex(builtin[..p], index) {
      var i :| 0 <= i < p && builtin[..p][i].index == index;
      assert builtin[..q][i].index == index;
    }
    if HasIndex(builtin[..q], index) {
      var i :| 0 <= i < q && builtin[..q][i].index == index;
      assert builtin[..p][i].index == index;
    }
  }

  // ---------------------------------------------------------------- preservation

  lemma {:induction false} LoadAppend(builtin: seq<Entry>, st: Loader, a: seq<Row>, b: seq<Row>)
    ensures var r := LoadRows(builtin, true, st, a);
            LoadRows(builtin, true, st, a + b) == if r.Loaded? then LoadRows(builtin, true, r.st, b) else r
    decreases |a|
  {
    if a == [] {
      assert a + b == b;
    } else {
      assert (a + b)[1..] == a[1..] + b;
      var r := RowStep(builtin, true, st, a[0]);
      if r.Loaded? {
        LoadAppend(builtin, r.st, a[1..], b);
      }
    }
  }

  /** The rows below a dropped object are dropped too. */
  lemma {:induction false} SubRowsDropped(builtin: seq<Entry>, st: Loader, rows: seq<Row>)
    requires forall i :: 0 <= i < |rows| ==> rows[i].SubRow? && rows[i].index == st.last
    requires 0 <= st.e <= st.size
    ensures LoadRows(builtin, true, st, rows) == Loaded(st.(sub := st.sub + |rows|))
    decreases |rows|
  {
    if rows != [] {
      SubRowsDropped(builtin, st.(sub := st.sub + 1), rows[1..]);
    }
  }

  /** A record with its first subindexes filled in. */
  function Partly(x: Entry, k: nat): Entry
    requires x.body.Rec? && k <= |x.body.subs|
  {
    x.(body := Rec(x.body.subs[..k] + seq(|x.body.subs| - k, _ => Blank)))
  }

  /** The rows below a new record fill it in, one after the other. */
  lemma {:induction false} SubRowsFill(builtin: seq<Entry>, st: Loader, list: seq<Entry>, x: Entry, k: nat)
    requires Configured(x) && x.body.Rec? && k <= |x.body.subs| && x.index != st.last
    requires 0 <= st.e == |list| <= st.size && st.entry == Some(|list|) && st.sub == k
    requires st.slots == Pad(list + [Partly(x, k)], st.size + 1)
    ensures LoadRows(builtin, true, st, SubRows(x, k))
            == Loaded(st.(slots := Pad(list + [x], st.size + 1), sub := |x.body.subs|))
    decreases |x.body.subs| - k
  {
    var n := |x.body.subs|;
    if k == n {
      assert x.body.subs[..n] + seq(0, _ => Blank) == x.body.subs;
    } else {
      var s := x.body.subs[k];
      var filled := Partly(x, k).body.subs[k := Sub(s.subindex, s.data)];
      assert filled == Partly(x, k + 1).body.subs;
      var slots := st.slots[|list| := Some(Partly(x, k + 1))];
      assert slots == Pad(list + [Partly(x, k + 1)], st.size + 1);
      var row := SubRow(x.index, s.subindex, Some(s.data));
      assert SubStep(true, st, row) == Loaded(st.(slots := slots, sub := k + 1));
      assert SubRows(x, k)[0] == row && SubRows(x, k)[1..] == SubRows(x, k + 1);
      SubRowsFill(builtin, st.(slots := slots, sub := k + 1), list, x, k + 1);
    }
  }

  /** All the rows of one new object. */
  lemma {:induction false} NewObject(builtin: seq<Entry>, st: Loader, st1: Loader, all: seq<Entry>, x: Entry)
    requires Configured(x) && |all| <= st1.size && st1.e == |all| && st1.slots == Pad(all, st1.size + 1)
    requires CopyBuiltins(builtin, st.(e := st.e + 1), x.index) == Loaded(st1) && x.index != st1.last
    ensures LoadRows(builtin, true, st, RowsOf(x)).Loaded?
    ensures var t := LoadRows(builtin, true, st, RowsOf(x)).st;
            t == st1.(slots := Pad(all + [x], st1.size + 1), entry := t.entry, sub := t.sub)
  {
    var first := RowsOf(x)[0];
    var y := NewEntry(first).value;
    PadPut(all, st1.size + 1, y);
    var st2 := st1.(slots := Pad(all + [y], st1.size + 1), entry := Some(st1.e), sub := 0);
    assert RowStep(builtin, true, st, first) == Loaded(st2);
    if x.body.Var? {
      assert RowsOf(x)[1..] == [];
    } else {
      assert RowsOf(x)[1..] == SubRows(x, 0);
      assert Partly(x, 0).body.subs == seq(|x.body.subs|, _ => Blank);
      assert y == Partly(x, 0);
      SubRowsFill(builtin, st2, all, x, 0);
    }
  }

  /** All the rows of an object that is already built in. */
  lemma {:induction false} DroppedObject(builtin: seq<Entry>, st: Loader, st1: Loader, all: seq<Entry>, x: Entry)
    requires Configured(x) && 0 < |all| <= st1.size && st1.e == |all| && st1.slots == Pad(all, st1.size + 1)
    requires CopyBuiltins(builtin, st.(e := st.e + 1), x.index) == Loaded(st1) && x.index == st1.last
    ensures LoadRows(builtin, true, st, RowsOf(x)).Loaded?
    ensures var t := LoadRows(builtin, true, st, RowsOf(x)).st;
            t == st1.(e := |all| - 1, size := st1.size - 1, slots := Pad(all, st1.size), entry := t.entry, sub := t.sub)
  {
    var first, rest := RowsOf(x)[0], RowsOf(x)[1..];
    assert st1.slots[..st1.size] == Pad(all, st1.size);
    var st2 := st1.(e := |all| - 1, size := st1.size - 1, slots := Pad(all, st1.size), entry := None, sub := 0);
    assert RowStep(builtin, true, st, first) == Loaded(st2);
    assert rest == if x.body.Var? then [] else SubRows(x, 0);
    SubRowsDropped(builtin, st2, rest);
  }

  /** What the inner loop in front of an object leaves in the list. */
  function CaughtUp(builtin: seq<Entry>, st: Loader, list: seq<Entry>, x: Entry): seq<Entry>
    requires st.offset <= |builtin|
  {
    list + builtin[st.offset..Reach(builtin, st.offset, x.index)]
  }

  /** The list with the object: it counts unless the built-in entry copied last has its index. */
  function WithObject(builtin: seq<Entry>, st: Loader, list: seq<Entry>, x: Entry): seq<Entry>
    requires st.offset <= |builtin|
  {
    var all := CaughtUp(builtin, st, list, x);
    if x.index == CopiedLast(builtin, Reach(builtin, st.offset, x.index)) then all else all + [x]
  }

  /** The inner loop in front of an object. */
  lemma {:induction false} CatchUp(builtin: seq<Entry>, d: int, st: Loader, list: seq<Entry>, x: Entry)
    requires Sorted(builtin) && d < x.index && Placed(builtin, d, st, list)
    ensures var q, all := Reach(builtin, st.offset, x.index), CaughtUp(builtin, st, list, x);
            && Frontier(builtin, q, x.index)
            && CopyBuiltins(builtin, st.(e := st.e + 1), x.index)
               == if |all| > st.size + 1 then Undefined
                  else Loaded(st.(slots := Pad(all, st.size + 1), e := |all|, offset := q,
                                  last := CopiedLast(builtin, q)))
  {
    Copies(builtin, st.(e := st.e + 1), list, st.size + 1, x.index);
  }

  /** What the object makes of the merge. */
  lemma {:induction false} ObjectMerges(builtin: seq<Entry>, done: seq<Entry>, st: Loader, list: seq<Entry>, x: Entry)
    requires Sorted(builtin) && Configured(x) && Last(done) < x.index && Frontier(builtin, st.offset, Last(done))
    requires forall i :: 0 <= i < |done| ==> done[i].index <= Last(done)
    requires Holds(builtin, st.offset, done, list)
    ensures var q := Reach(builtin, st.offset, x.index);
            && Holds(builtin, q, done + [x], WithObject(builtin, st, list, x))
            && (x.index == CopiedLast(builtin, q) ==> CaughtUp(builtin, st, list, x) != [])
  {
    var p, q, all := st.offset, Reach(builtin, st.offset, x.index), CaughtUp(builtin, st, list, x);
    Clash(builtin, p, q, all, list, x, Last(done));
    MergeOne(builtin, done, list, p, q, x);
    assert Last(done + [x]) == x.index;
    assert WithObject(builtin, st, list, x) == if HasIndex(builtin[..q], x.index) then all else all + [x];
  }

  lemma {:induction false} MergeOne(builtin: seq<Entry>, done: seq<Entry>, list: seq<Entry>, p: nat, q: nat, x: Entry)
    requires Sorted(builtin) && p <= q <= |builtin| && Last(done) < x.index
    requires Holds(builtin, p, done, list)
    requires forall i :: 0 <= i < |done| ==> done[i].index <= Last(done)
    requires forall i :: p <= i < q ==> Last(done) < builtin[i].index
    requires var all := list + builtin[p..q];
             !HasIndex(builtin[..q], x.index) ==> forall i :: 0 <= i < |all| ==> all[i].index < x.index
    ensures var all := list + builtin[p..q];
            MergeOf(builtin[..q], done + [x], if HasIndex(builtin[..q], x.index) then all else all + [x])
  {
    MergeCatchesUp(builtin, done, list, p, q, Last(done));
    MergeAdds(builtin[..q], done, list + builtin[p..q], x);
  }

  /** What an accepted object does to the loader: a slot less to fill, or one less to have. */
  ghost predicate Accepted(builtin: seq<Entry>, st: Loader, t: Loader, x: Entry, q: nat, all: seq<Entry>)
    requires q <= |builtin|
  {
    var list := if x.index == CopiedLast(builtin, q) then all else all + [x];
    && t.offset == q && t.last == CopiedLast(builtin, q)
    && t.size == (if x.index == CopiedLast(builtin, q) then st.size - 1 else st.size)
    && t.e + 1 == |list| <= t.size + 1 && t.slots == Pad(list, t.size + 1)
  }

  /** All the rows of one object, after the inner loop has caught up. */
  lemma {:induction false} Advance(
    builtin: seq<Entry>, st: Loader, x: Entry, q: nat, all: seq<Entry>) returns (t: Loader)
    requires Configured(x) && q <= |builtin| && |all| <= st.size
    requires CopyBuiltins(builtin, st.(e := st.e + 1), x.index)
             == Loaded(st.(slots := Pad(all, st.size + 1), e := |all|, offset := q, last := CopiedLast(builtin, q)))
    requires x.index == CopiedLast(builtin, q) ==> 0 < |all|
    ensures LoadRows(builtin, true, st, RowsOf(x)) == Loaded(t) && Accepted(builtin, st, t, x, q, all)
  {
    var st1 := CopyBuiltins(builtin, st.(e := st.e + 1), x.index).st;
    if x.index == CopiedLast(builtin, q) {
      DroppedObject(builtin, st, st1, all, x);
    } else {
      NewObject(builtin, st, st1, all, x);
    }
    t := LoadRows(builtin, true, st, RowsOf(x)).st;
  }

  /** With every slot used, the terminator's included, a new object is stored past the allocation, and one that
      is already built in fails the check at the end of the loop body. */
  lemma {:induction false} NoRoom(builtin: seq<Entry>, st: Loader, st1: Loader, x: Entry)
    requires Configured(x) && CopyBuiltins(builtin, st.(e := st.e + 1), x.index) == Loaded(st1)
    requires st1.e == |st1.slots| == st1.size + 1 && (x.index == st1.last ==> st1.e > 0)
    ensures LoadRows(builtin, true, st, RowsOf(x)) == if x.index == st1.last then Failed else Undefined
  {
    assert RowStep(builtin, true, st, RowsOf(x)[0]) == if x.index == st1.last then Failed else Undefined;
  }

  /** One more object, when the caught-up list leaves a slot besides the terminator's. */
  lemma {:induction false} ObjectFits(builtin: seq<Entry>, d: int, st: Loader, list: seq<Entry>, x: Entry)
    requires Sorted(builtin) && Configured(x) && d < x.index && Placed(builtin, d, st, list)
    requires x.index == CopiedLast(builtin, Reach(builtin, st.offset, x.index)) ==> CaughtUp(builtin, st, list, x) != []
    requires |CaughtUp(builtin, st, list, x)| <= st.size
    ensures var r, more := LoadRows(builtin, true, st, RowsOf(x)), WithObject(builtin, st, list, x);
            && r.Loaded? && r.st.offset == Reach(builtin, st.offset, x.index) && Placed(builtin, x.index, r.st, more)
            && r.st.size - |more| == st.size - |CaughtUp(builtin, st, list, x)| - 1
  {
    CatchUp(builtin, d, st, list, x);
    var t := Advance(builtin, st, x, Reach(builtin, st.offset, x.index), CaughtUp(builtin, st, list, x));
  }

  /** One more object, when it does not. */
  lemma {:induction false} ObjectRefused(builtin: seq<Entry>, d: int, st: Loader, list: seq<Entry>, x: Entry)
    requires Sorted(builtin) && Configured(x) && d < x.index && Placed(builtin, d, st, list)
    requires x.index == CopiedLast(builtin, Reach(builtin, st.offset, x.index)) ==> CaughtUp(builtin, st, list, x) != []
    requires |CaughtUp(builtin, st, list, x)| > st.size
    ensures LoadRows(builtin, true, st, RowsOf(x))
            == if |CaughtUp(builtin, st, list, x)| == st.size + 1
                  && x.index == CopiedLast(builtin, Reach(builtin, st.offset, x.index))
               then Failed else Undefined
  {
    CatchUp(builtin, d, st, list, x);
    if |CaughtUp(builtin, st, list, x)| == st.size + 1 {
      NoRoom(builtin, st, CopyBuiltins(builtin, st.(e := st.e + 1), x.index).st, x);
    } else {
      assert RowStep(builtin, true, st, RowsOf(x)[0]) == Undefined;
    }
  }

  /** One more object is accepted exactly when the caught-up list leaves a slot besides the terminator's. */
  lemma {:induction false} ObjectLoads(builtin: seq<Entry>, d: int, st: Loader, list: seq<Entry>, x: Entry)
    requires Sorted(builtin) && Configured(x) && d < x.index && Placed(builtin, d, st, list)
    requires x.index == CopiedLast(builtin, Reach(builtin, st.offset, x.index)) ==> CaughtUp(builtin, st, list, x) != []
    ensures var r, q := LoadRows(builtin, true, st, RowsOf(x)), Reach(builtin, st.offset, x.index);
            && Frontier(builtin, q, x.index)
            && (r.Loaded? <==> |list| + q - st.offset <= st.size)
            && (r.Loaded? ==>
                  && r.st.offset == q && Placed(builtin, x.index, r.st, WithObject(builtin, st, list, x))
                  && r.st.size - |WithObject(builtin, st, list, x)| == st.size - |list| - (q - st.offset) - 1)
            && (!r.Loaded? ==>
                  r == if |list| + q - st.offset == st.size + 1 && x.index == CopiedLast(builtin, q)
                       then Failed else Undefined)
  {
    CatchUp(builtin, d, st, list, x);
    if |CaughtUp(builtin, st, list, x)| <= st.size {
      ObjectFits(builtin, d, st, list, x);
    } else {
      ObjectRefused(builtin, d, st, list, x);
    }
  }

  /** The built-in entry copied last is the only one that can have the object's index. */
  lemma {:induction false} ClashIsBuiltin(builtin: seq<Entry>, q: nat, x: Entry)
    requires Sorted(builtin) && Frontier(builtin, q, x.index) && x.index > 0
    ensures HasIndex(builtin, x.index) <==> x.index == CopiedLast(builtin, q)
  {
    if HasIndex(builtin, x.index) {
      var i :| 0 <= i < |builtin| && builtin[i].index == x.index;
      assert i < q;
    }
  }

  lemma {:induction false} ObjectKeepsInv(
    builtin: seq<Entry>, done: seq<Entry>, todo: int, st: Loader, list: seq<Entry>, x: Entry)
    requires Sorted(builtin) && Configured(x) && Last(done) < x.index
    requires forall i :: 0 <= i < |done| ==> done[i].index <= Last(done)
    requires Inv(builtin, done, todo + 1, st, list)
    ensures var r, q := LoadRows(builtin, true, st, RowsOf(x)), Reach(builtin, st.offset, x.index);
            && Frontier(builtin, q, x.index)
            && (r.Loaded? <==> |builtin| - q + todo >= -1)
            && (r.Loaded? ==> Inv(builtin, done + [x], todo, r.st, WithObject(builtin, st, list, x)))
            && (!r.Loaded? ==>
                  r == if |builtin| - q + todo == -2 && HasIndex(builtin, x.index) then Failed else Undefined)
  {
    ObjectMerges(builtin, done, st, list, x);
    ObjectLoads(builtin, Last(done), st, list, x);
    ClashIsBuiltin(builtin, Reach(builtin, st.offset, x.index), x);
    assert Last(done + [x]) == x.index;
  }

  /** A configured index clashes exactly when it is the last built-in index copied. */
  lemma {:induction false} Clash(
    builtin: seq<Entry>, p: nat, q: nat, all: seq<Entry>, list: seq<Entry>, x: Entry, d: int)
    requires Sorted(builtin) && p <= q <= |builtin| && d < x.index && all == list + builtin[p..q] && x.index > 0
    requires forall i :: 0 <= i < |list| ==> list[i].index <= d
    requires forall i :: 0 <= i < p ==> builtin[i].index <= d
    requires forall i :: p <= i < q ==> builtin[i].index <= x.index
    ensures HasIndex(builtin[..q], x.index) <==> x.index == CopiedLast(builtin, q)
    ensures x.index == CopiedLast(builtin, q) ==> all != []
    ensures forall i :: 0 <= i < |all| ==> all[i].index <= x.index
    ensures !HasIndex(builtin[..q], x.index) ==> forall i :: 0 <= i < |all| ==> all[i].index < x.index
  {
    if q > p && builtin[q - 1].index == x.index {
      assert builtin[..q][q - 1].index == x.index;
    }
  }

  lemma {:induction false} FirstObject(builtin: seq<Entry>, rest: seq<Entry>, st: Loader)
    requires rest != [] && Configuration(rest)
    ensures var r := LoadRows(builtin, true, st, RowsOf(rest[0]));
            LoadRows(builtin, true, st, Rows(rest))
            == if r.Loaded? then LoadRows(builtin, true, r.st, Rows(rest[1..])) else r
  {
    LoadAppend(builtin, st, RowsOf(rest[0]), Rows(rest[1..]));
  }

  lemma {:induction false} Pieces(config: seq<Entry>, k: nat)
    requires k < |config|
    ensures config[..k] + [config[k]] == config[..k + 1]
    ensures config[k..][0] == config[k] && config[k..][1..] == config[k + 1..]
    ensures Configuration(config) ==> Configuration(config[k..])
    ensures Configuration(config) ==>
              && Configured(config[k]) && Last(config[..k]) < config[k].index
              && forall i :: 0 <= i < k ==> config[..k][i].index <= Last(config[..k])
  {}

  /** How many built-in entries lie above an index. */
  function Above(builtin: seq<Entry>, d: int): (n: nat)
    ensures n <= |builtin|
  {
    if builtin == [] then 0 else (if builtin[0].index > d then 1 else 0) + Above(builtin[1..], d)
  }

  lemma {:induction false} AboveFrontier(builtin: seq<Entry>, q: nat, d: int)
    requires Frontier(builtin, q, d)
    ensures Above(builtin, d) == |builtin| - q
    decreases |builtin|
  {
    if builtin != [] {
      AboveFrontier(builtin[1..], if q == 0 then 0 else q - 1, d);
    }
  }

  lemma {:induction false} AboveFalls(builtin: seq<Entry>, d: int, d1: int)
    requires d <= d1
    ensures Above(builtin, d1) <= Above(builtin, d)
    decreases |builtin|
  {
    if builtin != [] {
      AboveFalls(builtin[1..], d, d1);
    }
  }

  /** The free slots once the configuration is loaded, the terminator's not counted; -1 when even that one
      is used. */
  function Spare(builtin: seq<Entry>, config: seq<Entry>, declared: nat): int {
    declared + Above(builtin, Last(config)) - |config|
  }

  /** The configured object, by position, that no slot is left for. */
  predicate Refuses(builtin: seq<Entry>, config: seq<Entry>, declared: nat, k: nat) {
    && k < |config|
    && Spare(builtin, config[..k], declared) >= -1 && Spare(builtin, config[..k + 1], declared) < -1
  }

  /** What becomes of a load at that object: a clean failure only if it is already built in and exactly one
      slot is missing; otherwise an entry is stored past the allocation before anything is checked. */
  function Refusal(builtin: seq<Entry>, config: seq<Entry>, declared: nat, k: nat): Load
    requires k < |config|
  {
    if Spare(builtin, config[..k + 1], declared) == -2 && HasIndex(builtin, config[k].index) then Failed else Undefined
  }

  lemma {:induction false} LoadFrom(
    builtin: seq<Entry>, config: seq<Entry>, declared: nat, k: nat, st: Loader, list: seq<Entry>)
    returns (all: seq<Entry>, bad: nat)
    requires Sorted(builtin) && Configuration(config) && k <= |config|
    requires Inv(builtin, config[..k], declared - k, st, list)
    ensures var r := LoadRows(builtin, true, st, Rows(config[k..]));
            && (r.Loaded? <==> Spare(builtin, config, declared) >= -1)
            && (r.Loaded? ==> Inv(builtin, config, declared - |config|, r.st, all))
            && (!r.Loaded? ==> Refuses(builtin, config, declared, bad) && r == Refusal(builtin, config, declared, bad))
    decreases |config| - k
  {
    all, bad := list, k;
    AboveFrontier(builtin, st.offset, Last(config[..k]));
    if k == |config| {
      assert config[..k] == config;
    } else {
      Pieces(config, k);
      var x := config[k];
      ObjectKeepsInv(builtin, config[..k], declared - k - 1, st, list, x);
      FirstObject(builtin, config[k..], st);
      var r := LoadRows(builtin, true, st, RowsOf(x));
      if r.Loaded? {
        all, bad := LoadFrom(builtin, config, declared, k + 1, r.st, WithObject(builtin, st, list, x));
      } else {
        SpareAt(builtin, config, declared, k, Reach(builtin, st.offset, x.index));
      }
    }
  }

  /** The free slots after one more object, and that they only get fewer. */
  lemma {:induction false} SpareAt(builtin: seq<Entry>, config: seq<Entry>, declared: nat, k: nat, q: nat)
    requires Configuration(config) && k < |config| && Frontier(builtin, q, config[k].index)
    ensures Spare(builtin, config[..k + 1], declared) == declared + |builtin| - q - k - 1
    ensures Spare(builtin, config, declared) <= Spare(builtin, config[..k + 1], declared)
  {
    var x := config[k];
    assert Last(config[..k + 1]) == x.index;
    AboveFrontier(builtin, q, x.index);
    AboveFalls(builtin, x.index, Last(config));
  }

  /** The entries at the front of a list, up to the first slot that was never written. */
  function Entries(slots: seq<Option<Entry>>): seq<Entry> {
    if slots == [] || slots[0].None? then [] else [slots[0].value] + Entries(slots[1..])
  }

  lemma {:induction false} PadTail(list: seq<Entry>, n: int)
    requires 0 < |list| <= n
    ensures Pad(list, n)[0] == Some(list[0]) && Pad(list, n)[1..] == Pad(list[1..], n - 1)
  {}

  lemma {:induction false} EntriesOfPad(list: seq<Entry>, n: int)
    requires |list| <= n
    ensures Entries(Pad(list, n)) == list
    decreases |list|
  {
    if list != [] {
      PadTail(list, n);
      EntriesOfPad(list[1..], n - 1);
      assert list == [list[0]] + list[1..];
    }
  }

  /** The rows of a configuration, loaded over the built-in dictionary with some number of objects declared. */
  function Merged(builtin: seq<Entry>, config: seq<Entry>, declared: nat): Load
    requires Configuration(config)
  {
    LoadRows(builtin, true, Opened(builtin, true, declared), Rows(config))
  }

  predicate Dictionaries(builtin: seq<Entry>, config: seq<Entry>) {
    Sorted(builtin) && (forall i :: 0 <= i < |builtin| ==> builtin[i].index > 0) && Configuration(config)
  }

  /** Dictionary merge, whatever count is declared. For strictly increasing built-in and configured indexes
      loading succeeds exactly when at most one object too many is configured for the slots, and then the
      list holds the sorted union, in which built-in definitions win, of the configuration and the built-in
      entries up to its last index. The last slot of the list is free for the terminator, and `size` covers
      every entry, exactly when `Spare` is not negative. */
  lemma {:induction false} MergeLoads(builtin: seq<Entry>, config: seq<Entry>, declared: nat)
    requires Dictionaries(builtin, config)
    ensures var r, spare := Merged(builtin, config, declared), Spare(builtin, config, declared);
            && (r.Loaded? <==> spare >= -1)
            && (r.Loaded? ==>
                  var list := Entries(r.st.slots);
                  && r.st.size - |list| == spare && |r.st.slots| == r.st.size + 1
                  && MergeOf(builtin[..|builtin| - Above(builtin, Last(config))], config, list))
  {
    Opens(builtin, declared);
    assert config[..0] == [] && config[0..] == config;
    var list, bad := LoadFrom(builtin, config, declared, 0, Opened(builtin, true, declared), []);
    var r := Merged(builtin, config, declared);
    if r.Loaded? {
      EntriesOfInv(builtin, config, declared - |config|, r.st, list);
    }
  }

  /** How a load with too many objects ends, at the first object no slot is left for. */
  lemma {:induction false} MergeRefuses(builtin: seq<Entry>, config: seq<Entry>, declared: nat) returns (k: nat)
    requires Dictionaries(builtin, config) && Spare(builtin, config, declared) < -1
    ensures Refuses(builtin, config, declared, k)
    ensures Merged(builtin, config, declared) == Refusal(builtin, config, declared, k)
  {
    Opens(builtin, declared);
    assert config[..0] == [] && config[0..] == config;
    var list;
    list, k := LoadFrom(builtin, config, declared, 0, Opened(builtin, true, declared), []);
  }

  lemma {:induction false} Opens(builtin: seq<Entry>, declared: nat)
    requires forall i :: 0 <= i < |builtin| ==> builtin[i].index > 0
    ensures Inv(builtin, [], declared, Opened(builtin, true, declared), [])
  {}

  lemma {:induction false} EntriesOfInv(
    builtin: seq<Entry>, config: seq<Entry>, todo: int, st: Loader, list: seq<Entry>)
    requires Inv(builtin, config, todo, st, list)
    ensures Entries(st.slots) == list && |st.slots| == st.size + 1
    ensures |builtin| - st.offset == Above(builtin, Last(config))
    ensures MergeOf(builtin[..|builtin| - Above(builtin, Last(config))], config, list)
  {
    EntriesPlaced(builtin, Last(config), st, list);
    HoldsUpTo(builtin, st.offset, config, list);
  }

  lemma {:induction false} EntriesPlaced(builtin: seq<Entry>, d: int, st: Loader, list: seq<Entry>)
    requires Placed(builtin, d, st, list)
    ensures Entries(st.slots) == list && |st.slots| == st.size + 1
  {
    EntriesOfPad(list, st.size + 1);
  }

  lemma {:induction false} HoldsUpTo(builtin: seq<Entry>, q: nat, config: seq<Entry>, list: seq<Entry>)
    requires Frontier(builtin, q, Last(config)) && Holds(builtin, q, config, list)
    ensures |builtin| - q == Above(builtin, Last(config))
    ensures MergeOf(builtin[..|builtin| - Above(builtin, Last(config))], config, list)
  {
    AboveFrontier(builtin, q, Last(config));
  }

  /** With the right count declared, loading succeeds and stays inside the allocation; the list is filled to
      its final size exactly when the last configured index is no lower than the last built-in one, and then
      it is the union of both dictionaries. */
  lemma {:induction false} MergeIsUnion(builtin: seq<Entry>, config: seq<Entry>)
    requires Dictionaries(builtin, config)
    ensures Merged(builtin, config, |config|).Loaded?
    ensures var st := Merged(builtin, config, |config|).st;
            var list := Entries(st.slots);
            && Sorted(list) && |list| <= st.size < |st.slots|
            && (|list| == st.size <==> Last(builtin) <= Last(config))
            && (|list| == st.size ==> MergeOf(builtin, config, list))
  {
    MergeLoads(builtin, config, |config|);
    NoneAbove(builtin, Last(config));
    assert builtin[..|builtin|] == builtin;
  }

  lemma {:induction false} NoneAbove(builtin: seq<Entry>, d: int)
    requires Sorted(builtin) && d >= 0
    ensures Above(builtin, d) == 0 <==> Last(builtin) <= d
    decreases |builtin|
  {
    if builtin != [] {
      NoneAbove(builtin[1..], d);
    }
  }

  /** A merge is determined by its two dictionaries. */
  lemma {:induction false} SameEntries(a: seq<Entry>, b: seq<Entry>)
    requires Sorted(a) && Sorted(b) && forall x :: x in a <==> x in b
    ensures a == b
    decreases |a|
  {
    assert b != [] ==> b[0] in a;
    if a != [] {
      assert a[0] in b;
      assert b[0] in a;
      forall x
        ensures x in a[1..] <==> x in b[1..]
      {
        assert x in a <==> x == a[0] || x in a[1..];
        assert x in b <==> x == b[0] || x in b[1..];
      }
      SameEntries(a[1..], b[1..]);
    }
  }

  lemma {:induction false} RowsArePositive(config: seq<Entry>)
    requires Configuration(config)
    ensures forall i :: 0 <= i < |Rows(config)| ==> Rows(config)[i].index > 0
    decreases |config|
  {
    if config != [] {
      RowsArePositive(config[1..]);
      assert forall i :: 0 <= i < |RowsOf(config[0])| ==> RowsOf(config[0])[i].index == config[0].index;
    }
  }

  /** Loading without the built-in dictionary is merging with an empty one. */
  lemma {:induction false} PlainIsEmptyMerge(builtin: seq<Entry>, st: Loader, rows: seq<Row>)
    requires st.offset == 0 && st.last == 0 && forall i :: 0 <= i < |rows| ==> rows[i].index > 0
    ensures LoadRows(builtin, false, st, rows) == LoadRows([], true, st, rows)
    decreases |rows|
  {
    if rows != [] {
      var r := RowStep(builtin, false, st, rows[0]);
      assert r == RowStep([], true, st, rows[0]);
      if r.Loaded? {
        PlainIsEmptyMerge(builtin, r.st, rows[1..]);
      }
    }
  }

  /** Without the built-in dictionary, loading succeeds exactly when at most one object too many follows
      the declared count, and gives the configured objects themselves. */
  lemma {:induction false} PlainLoad(builtin: seq<Entry>, config: seq<Entry>, declared: nat)
    requires Configuration(config)
    ensures var r := LoadRows(builtin, false, Opened(builtin, false, declared), Rows(config));
            && (r.Loaded? <==> |config| <= declared + 1)
            && (r.Loaded? ==> Entries(r.st.slots) == config && r.st.size == declared)
  {
    RowsArePositive(config);
    PlainIsEmptyMerge(builtin, Opened(builtin, false, declared), Rows(config));
    assert Opened(builtin, false, declared) == Opened([], true, declared);
    MergeLoads([], config, declared);
    var r := Merged([], config, declared);
    if r.Loaded? {
      SameEntries(Entries(r.st.slots), config);
    }
  }

  /** A merge in the small: of two configured objects one is built in already. */
  lemma {:induction false} SampleMerge(id: nat, data: seq<byte>)
    ensures var builtin, config := [Entry(0x1000, Builtin(id))], [Entry(0x1000, Var([])), Entry(0x4000, Var(data))];
            && Dictionaries(builtin, config) && Merged(builtin, config, 2).Loaded?
            && Entries(Merged(builtin, config, 2).st.slots)
               == [Entry(0x1000, Builtin(id)), Entry(0x4000, Var(data))]
            && Merged(builtin, config, 2).st.size == 2
  {
    var b, c, x := Entry(0x1000, Builtin(id)), Entry(0x1000, Var([])), Entry(0x4000, Var(data));
    var builtin, config := [b], [c, x];
    MergeIsUnion(builtin, config);
    MergeLoads(builtin, config, 2);
    assert [b][1..] == [] && Above(builtin, Last(config)) == 0;
    var list := Entries(Merged(builtin, config, 2).st.slots);
    assert builtin[0].index == 0x1000 && HasIndex(builtin, 0x1000) && !HasIndex(builtin, 0x4000);
    forall y
      ensures y in list <==> y in [b, x]
    {
      assert y in config <==> y == c || y == x;
    }
    SameEntries(list, [b, x]);
  }

  // ---------------------------------------------------------------- rows that cannot be used

  /** An object that cannot be parsed fails the load, unless it is built in: then it is dropped like any other. */
  lemma {:induction false} UnparsedObjectFails(builtin: seq<Entry>, d: int, st: Loader, list: seq<Entry>, row: Row)
    requires Sorted(builtin) && d < row.index && row.index > 0 && Placed(builtin, d, st, list)
    requires row.BadRow? || (row.VarRow? && row.data.None?)
    requires |CaughtUp(builtin, st, list, Entry(row.index, Var([])))| <= st.size
    ensures !HasIndex(builtin, row.index) ==> RowStep(builtin, true, st, row) == Failed
    ensures HasIndex(builtin, row.index) ==>
              var r := RowStep(builtin, true, st, row);
              && r.Loaded? && r.st.size == st.size - 1 && r.st.entry == None
              && r.st.slots == Pad(CaughtUp(builtin, st, list, Entry(row.index, Var([]))), st.size)
  {
    var x := Entry(row.index, Var([]));
    var q, all := Reach(builtin, st.offset, x.index), CaughtUp(builtin, st, list, x);
    CatchUp(builtin, d, st, list, x);
    ClashIsBuiltin(builtin, q, x);
    if HasIndex(builtin, row.index) {
      assert Pad(all, st.size + 1)[..st.size] == Pad(all, st.size);
      BuiltinIsThere(builtin, st, list, x, d);
    }
  }

  lemma {:induction false} BuiltinIsThere(builtin: seq<Entry>, st: Loader, list: seq<Entry>, x: Entry, d: int)
    requires Sorted(builtin) && d < x.index && Placed(builtin, d, st, list) && HasIndex(builtin, x.index)
    ensures CaughtUp(builtin, st, list, x) != []
  {
    var i :| 0 <= i < |builtin| && builtin[i].index == x.index;
    assert st.offset <= i < Reach(builtin, st.offset, x.index);
  }

  /** Without the built-in dictionary every unparsed object fails the load. */
  lemma {:induction false} UnparsedPlainFails(builtin: seq<Entry>, st: Loader, row: Row)
    requires row.BadRow? || (row.VarRow? && row.data.None?)
    ensures RowStep(builtin, false, st, row) == Failed
  {}

  /** A subindex row fails the load when it follows a variable, or when its default cannot be parsed; one more
      than the record announces is stored past its end. */
  lemma {:induction false} SubRowRefused(builtin: seq<Entry>, st: Loader, row: Row, x: Entry)
    requires row.SubRow? && row.index != st.last && st.entry.Some? && st.entry.value < |st.slots|
    requires st.slots[st.entry.value] == Some(x)
    ensures !x.body.Rec? ==> RowStep(builtin, true, st, row) == Failed
    ensures x.body.Rec? && st.sub >= |x.body.subs| ==> RowStep(builtin, true, st, row) == Undefined
    ensures x.body.Rec? && st.sub < |x.body.subs| && row.data.None? ==> RowStep(builtin, true, st, row) == Failed
  {}

  /** One refused row is enough, wherever it comes: nothing after it is looked at. */
  lemma {:induction false} RefusalEnds(builtin: seq<Entry>, st: Loader, a: seq<Row>, row: Row, b: seq<Row>)
    requires LoadRows(builtin, true, st, a).Loaded?
    requires !RowStep(builtin, true, LoadRows(builtin, true, st, a).st, row).Loaded?
    ensures LoadRows(builtin, true, st, a + [row] + b)
            == RowStep(builtin, true, LoadRows(builtin, true, st, a).st, row)
  {
    LoadAppend(builtin, st, a, [row] + b);
    assert a + ([row] + b) == a + [row] + b && ([row] + b)[0] == row;
  }

  // ---------------------------------------------------------------- counting PDOs

  /** The pointer walk: entries from a position on, up to the first at or above the bound; `None` when the
      pointer leaves the list. */
  function Walk(list: seq<Entry>, from: nat, bound: int): Option<nat>
    decreases |list| - from
  {
    if from >= |list| then None
    else if list[from].index >= bound then Some(0)
    else
      var rest := Walk(list, from + 1, bound);
      if rest.None? then None else Some(rest.value + 1)
  }

  /** OD_find. */
  function Find(list: seq<Entry>, index: int): (r: Option<nat>)
    ensures r.Some? ==> r.value < |list| && list[r.value].index == index
    ensures r.None? ==> !HasIndex(list, index)
  {
    if list == [] then None
    else if list[0].index == index then Some(0)
    else
      var r := Find(list[1..], index);
      assert r.None? ==> forall i :: 1 <= i < |list| ==> list[i] == list[1..][i - 1];
      if r.None? then None else Some(r.value + 1)
  }

  /** One of the two counts of fill_config. */
  method CountPdos(list: seq<Entry>, first: int, bound: int) returns (count: Option<nat>)
    ensures var p := Find(list, first);
            count == if p.None? then Some(0) else Walk(list, p.value, bound)
  {
    var n := 0;
    var p := Find(list, first);
    if p.None? {
      return Some(0);
    }
    var entry := p.value;
    while entry < |list| && list[entry].index < bound
      invariant p.value <= entry <= |list| && n == entry - p.value
      invariant var rest := Walk(list, entry, bound);
                Walk(list, p.value, bound) == if rest.None? then None else Some(n + rest.value)
    {
      n := n + 1;
      entry := entry + 1;
    }
    count := if entry < |list| then Some(n) else None;
  }

  function Indexes(s: seq<Entry>): set<int> {
    set i | 0 <= i < |s| :: s[i].index as int
  }

  function Within(indexes: set<int>, lo: int, hi: int): set<int> {
    set i | i in indexes && lo <= i < hi
  }

  function Rest(list: seq<Entry>, from: nat, bound: int): set<int> {
    set j | from <= j < |list| && list[j].index < bound :: list[j].index as int
  }

  lemma {:induction false} WalkCounts(list: seq<Entry>, from: nat, bound: int)
    requires Sorted(list) && from <= |list|
    ensures Walk(list, from, bound).Some? <==> exists j :: from <= j < |list| && list[j].index >= bound
    ensures Walk(list, from, bound).Some? ==> Walk(list, from, bound).value == |Rest(list, from, bound)|
    decreases |list| - from
  {
    if from < |list| {
      if list[from].index >= bound {
        assert Rest(list, from, bound) == {};
      } else {
        WalkCounts(list, from + 1, bound);
        assert Rest(list, from, bound) == {list[from].index as int} + Rest(list, from + 1, bound);
      }
    }
  }

  lemma {:induction false} WalkFromFound(list: seq<Entry>, p: nat, lo: int, hi: int)
    requires Sorted(list) && p < |list| && list[p].index == lo
    ensures Rest(list, p, hi) == Within(Indexes(list), lo, hi)
  {
    forall i | i in Within(Indexes(list), lo, hi)
      ensures i in Rest(list, p, hi)
    {
      var j :| 0 <= j < |list| && list[j].index == i;
      assert p <= j;
    }
  }

  lemma {:induction false} MergedIndexes(builtin: seq<Entry>, config: seq<Entry>, list: seq<Entry>)
    requires MergeOf(builtin, config, list)
    ensures Indexes(list) == Indexes(builtin) + Indexes(config)
  {
    forall i | i in Indexes(list)
      ensures i in Indexes(builtin) + Indexes(config)
    {
      var j :| 0 <= j < |list| && list[j].index == i;
      assert list[j] in list;
    }
    forall i | i in Indexes(builtin)
      ensures i in Indexes(list)
    {
      var j :| 0 <= j < |builtin| && builtin[j].index == i;
      assert builtin[j] in list;
    }
    forall i | i in Indexes(config)
      ensures i in Indexes(list)
    {
      var j :| 0 <= j < |config| && config[j].index == i;
      if HasIndex(builtin, i) {
        var k :| 0 <= k < |builtin| && builtin[k].index == i;
        assert builtin[k] in list;
      } else {
        assert config[j] in list;
      }
    }
  }

  /** PDO counts after the merge: with the first PDO index present, the walk stays inside the list exactly
      when some entry of either dictionary lies at or above the bound, and then it counts exactly the
      distinct indexes of both dictionaries in the range. */
  lemma {:induction false} PdoCount(builtin: seq<Entry>, config: seq<Entry>, lo: int, hi: int)
    requires Dictionaries(builtin, config) && Last(builtin) <= Last(config) && lo <= hi
    requires lo in Indexes(builtin) + Indexes(config)
    ensures Merged(builtin, config, |config|).Loaded?
    ensures var list := Entries(Merged(builtin, config, |config|).st.slots);
            var p, all := Find(list, lo), Indexes(builtin) + Indexes(config);
            && p.Some?
            && (Walk(list, p.value, hi).Some? <==> exists i :: i in all && i >= hi)
            && (Walk(list, p.value, hi).Some? ==> Walk(list, p.value, hi) == Some(|Within(all, lo, hi)|))
  {
    MergeIsUnion(builtin, config);
    var list := Entries(Merged(builtin, config, |config|).st.slots);
    MergedIndexes(builtin, config, list);
    var j :| 0 <= j < |list| && list[j].index == lo;
    var p := Find(list, lo);
    WalkCounts(list, p.value, hi);
    WalkFromFound(list, p.value, lo, hi);
    if i :| i in Indexes(list) && i >= hi {
      var k :| 0 <= k < |list| && list[k].index == i;
      assert p.value <= k;
    }
    if k :| p.value <= k < |list| && list[k].index >= hi {
      assert list[k].index in Indexes(list);
    }
  }

  /** The two counts of fill_config: the receive PDOs from 0x1400 up to 0x1600, the transmit PDOs from 0x1800 up
      to 0x1A00. */
  method FillPdoCounts(list: seq<Entry>) returns (rpdos: Option<nat>, tpdos: Option<nat>)
    ensures HasIndex(list, 0x1400) ==> rpdos == Walk(list, Find(list, 0x1400).value, 0x1600)
    ensures !HasIndex(list, 0x1400) ==> rpdos == Some(0)
    ensures HasIndex(list, 0x1800) ==> tpdos == Walk(list, Find(list, 0x1800).value, 0x1A00)
    ensures !HasIndex(list, 0x1800) ==> tpdos == Some(0)
  {
    rpdos := CountPdos(list, 0x1400, 0x1600);
    tpdos := CountPdos(list, 0x1800, 0x1A00);
  }

  /** The counts of a merged dictionary, in the numbers of CiA 301. */
  lemma {:induction false} PdosCounted(builtin: seq<Entry>, config: seq<Entry>)
    requires Dictionaries(builtin, config) && Last(builtin) <= Last(config)
    requires var all := Indexes(builtin) + Indexes(config);
             0x1400 in all && 0x1800 in all && exists i :: i in all && i >= 0x1A00
    ensures Merged(builtin, config, |config|).Loaded?
    ensures var list, all := Entries(Merged(builtin, config, |config|).st.slots), Indexes(builtin) + Indexes(config);
            && HasIndex(list, 0x1400) && HasIndex(list, 0x1800)
            && Walk(list, Find(list, 0x1400).value, 0x1600) == Some(|Within(all, 0x1400, 0x1600)|)
            && Walk(list, Find(list, 0x1800).value, 0x1A00) == Some(|Within(all, 0x1800, 0x1A00)|)
  {
    PdoCount(builtin, config, 0x1400, 0x1600);
    PdoCount(builtin, config, 0x1800, 0x1A00);
  }
}
