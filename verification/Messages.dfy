/** The format-driven packer and unpacker of libs/python/oresat_cand/message.py. */
module Messages {
  import opened Base
  import opened Integers
  import Utf8

  const VERSION: byte := 0

  /** One item of a message's format list: a group of struct codes, or a counted byte string or text. */
  datatype Format = Group(types: seq<IntType>) | DynBytes | DynStr

  datatype Value = Num(n: int) | Raw(bytes: seq<byte>) | Text(text: string)

  datatype Error = BadVersion | BadId | BadFields | TooShort
  datatype Result<+T> = Ok(value: T) | Err(error: Error)

  /** The characters str.strip removes. */
  predicate Space(c: char) {
    var n := c as int;
    || 9 <= n <= 13 || 28 <= n <= 32 || n == 0x85 || n == 0xA0 || n == 0x1680 || 0x2000 <= n <= 0x200A
    || n == 0x2028 || n == 0x2029 || n == 0x202F || n == 0x205F || n == 0x3000
  }

  function Strip(s: string): (r: string)
    ensures |r| <= |s|
  {
    if s == [] then []
    else if Space(s[0]) then Strip(s[1..])
    else if Space(s[|s| - 1]) then Strip(s[..|s| - 1])
    else s
  }

  /** No whitespace at either end. */
  predicate Trim(s: string) {
    s == [] || (!Space(s[0]) && !Space(s[|s| - 1]))
  }

  lemma {:induction false} StripIsTrim(s: string)
    ensures Trim(Strip(s)) && (Strip(s) == s <==> Trim(s))
    decreases |s|
  {
    if s != [] {
      if Space(s[0]) {
        StripIsTrim(s[1..]);
      } else if Space(s[|s| - 1]) {
        StripIsTrim(s[..|s| - 1]);
      }
    }
  }

  predicate AllSpaces(s: string) {
    forall i :: 0 <= i < |s| ==> Space(s[i])
  }

  /** Stripping takes away nothing but whitespace, and only at the ends. */
  lemma {:induction false} StripTakesSpaces(s: string) returns (before: string, after: string)
    ensures s == before + Strip(s) + after && AllSpaces(before) && AllSpaces(after)
    decreases |s|
  {
    if s != [] && Space(s[0]) {
      before, after := StripTakesSpaces(s[1..]);
      SpaceInFront(s, before, Strip(s[1..]), after);
      before := [s[0]] + before;
    } else if s != [] && Space(s[|s| - 1]) {
      before, after := StripTakesSpaces(s[..|s| - 1]);
      SpaceBehind(s, before, Strip(s[..|s| - 1]), after);
      after := after + [s[|s| - 1]];
    } else {
      before, after := [], [];
    }
  }

  lemma {:induction false} SpaceInFront(s: string, before: string, inner: string, after: string)
    requires s != [] && s[1..] == before + inner + after
    ensures s == [s[0]] + before + inner + after
  {
    assert s == [s[0]] + s[1..];
  }

  lemma {:induction false} SpaceBehind(s: string, before: string, inner: string, after: string)
    requires s != [] && s[..|s| - 1] == before + inner + after
    ensures s == before + inner + (after + [s[|s| - 1]])
  {
    assert s == s[..|s| - 1] + [s[|s| - 1]];
  }

  /** The 29 characters for which str.isspace holds. */
  lemma {:induction false} Spaces(c: char)
    ensures Space(c) <==>
              c as int in {0x09, 0x0A, 0x0B, 0x0C, 0x0D, 0x1C, 0x1D, 0x1E, 0x1F, 0x20, 0x85, 0xA0, 0x1680, 0x2000,
                           0x2001, 0x2002, 0x2003, 0x2004, 0x2005, 0x2006, 0x2007, 0x2008, 0x2009, 0x200A, 0x2028,
                           0x2029, 0x202F, 0x205F, 0x3000}
  {}

  // ---------------------------------------------------------------- packing

  function PackGroup(types: seq<IntType>, values: seq<Value>): (r: Option<seq<byte>>)
    ensures r.Some? ==> |r.value| == GroupSize(types)
    decreases |types|
  {
    if types == [] then Some([])
    else if values == [] || !values[0].Num? then None
    else
      var head, rest := types[0].Encode(values[0].n), PackGroup(types[1..], values[1..]);
      if head.None? || rest.None? then None else Some(head.value + rest.value)
  }

  function GroupSize(types: seq<IntType>): nat {
    if types == [] then 0 else types[0].size + GroupSize(types[1..])
  }

  function Arity(f: Format): nat {
    if f.Group? then |f.types| else 1
  }

  function Arities(fmts: seq<Format>): nat {
    if fmts == [] then 0 else Arity(fmts[0]) + Arities(fmts[1..])
  }

  /** The bytes of one format item; `None` is any exception inside pack's loop. */
  function PackItem(f: Format, values: seq<Value>): Option<seq<byte>> {
    match f
    case Group(types) => PackGroup(types, values)
    case DynBytes =>
      if values == [] || !values[0].Raw? || |values[0].bytes| > 255 then None
      else Some([|values[0].bytes|] + values[0].bytes)
    case DynStr =>
      if values == [] || !values[0].Text? || |Utf8.Encode(values[0].text)| > 255 then None
      else Some([|Utf8.Encode(values[0].text)|] + Utf8.Encode(values[0].text))
  }

  function PackItems(fmts: seq<Format>, values: seq<Value>): Option<seq<byte>>
    decreases |fmts|
  {
    if fmts == [] then Some([])
    else
      var head := PackItem(fmts[0], values);
      if head.None? || |values| < Arity(fmts[0]) then None
      else
        var rest := PackItems(fmts[1..], values[Arity(fmts[0])..]);
        if rest.None? then None else Some(head.value + rest.value)
  }

  function Pack(id: byte, fmts: seq<Format>, values: seq<Value>): Result<seq<byte>> {
    var body := PackItems(fmts, values);
    if body.None? then Err(BadFields) else Ok([VERSION, id] + body.value)
  }

  // ---------------------------------------------------------------- what packs, and to what

  /** A format list taken apart: one slot for each value. */
  datatype Slot = Number(t: IntType) | Bytes | String

  function SlotsOf(f: Format): (r: seq<Slot>)
    ensures |r| == Arity(f)
  {
    match f
    case Group(types) => seq(|types|, i requires 0 <= i < |types| => Number(types[i]))
    case DynBytes => [Bytes]
    case DynStr => [String]
  }

  function Slots(fmts: seq<Format>): (r: seq<Slot>)
    ensures |r| == Arities(fmts)
  {
    if fmts == [] then [] else SlotsOf(fmts[0]) + Slots(fmts[1..])
  }

  /** The value is of the slot's kind and fits it: one length byte counts up to 255 bytes. */
  predicate Carries(slot: Slot, v: Value) {
    match slot
    case Number(t) => v.Num? && t.Fits(v.n)
    case Bytes => v.Raw? && |v.bytes| <= 255
    case String => v.Text? && |Utf8.Encode(v.text)| <= 255
  }

  predicate AllCarry(slots: seq<Slot>, values: seq<Value>) {
    |slots| == |values| && forall i :: 0 <= i < |slots| ==> Carries(slots[i], values[i])
  }

  function SlotBytes(slot: Slot, v: Value): seq<byte>
    requires Carries(slot, v)
  {
    match slot
    case Number(t) => t.Encode(v.n).value
    case Bytes => [|v.bytes|] + v.bytes
    case String => [|Utf8.Encode(v.text)|] + Utf8.Encode(v.text)
  }

  function Layout(slots: seq<Slot>, values: seq<Value>): seq<byte>
    requires AllCarry(slots, values)
  {
    if slots == [] then [] else SlotBytes(slots[0], values[0]) + Layout(slots[1..], values[1..])
  }

  lemma {:induction false} LayoutAppend(a: seq<Slot>, x: seq<Value>, b: seq<Slot>, y: seq<Value>)
    requires |a| == |x|
    ensures AllCarry(a + b, x + y) <==> AllCarry(a, x) && AllCarry(b, y)
    ensures AllCarry(a + b, x + y) ==> Layout(a + b, x + y) == Layout(a, x) + Layout(b, y)
    decreases |a|
  {
    CarryAppend(a, x, b, y);
    if a == [] {
      assert a + b == b && x + y == y;
    } else if AllCarry(a + b, x + y) {
      assert (a + b)[1..] == a[1..] + b && (x + y)[1..] == x[1..] + y;
      LayoutAppend(a[1..], x[1..], b, y);
      Assoc(SlotBytes(a[0], x[0]), Layout(a[1..], x[1..]), Layout(b, y));
    }
  }

  lemma {:induction false} CarryAppend(a: seq<Slot>, x: seq<Value>, b: seq<Slot>, y: seq<Value>)
    requires |a| == |x|
    ensures AllCarry(a + b, x + y) <==> AllCarry(a, x) && AllCarry(b, y)
  {
    if AllCarry(a + b, x + y) {
      assert forall i :: 0 <= i < |a| ==> (a + b)[i] == a[i] && (x + y)[i] == x[i];
      assert forall i :: 0 <= i < |b| ==> (a + b)[|a| + i] == b[i];
      assert forall i :: 0 <= i < |y| ==> (x + y)[|a| + i] == y[i];
    }
  }

  lemma {:induction false} GroupIs(types: seq<IntType>, values: seq<Value>)
    requires |values| >= |types|
    ensures var slots, own := SlotsOf(Group(types)), values[..|types|];
            PackGroup(types, values) == if AllCarry(slots, own) then Some(Layout(slots, own)) else None
    decreases |types|
  {
    var slots, own := SlotsOf(Group(types)), values[..|types|];
    if types != [] {
      GroupIs(types[1..], values[1..]);
      assert slots == [Number(types[0])] + SlotsOf(Group(types[1..]));
      assert own == [values[0]] + values[1..][..|types| - 1];
      LayoutAppend([Number(types[0])], [values[0]], SlotsOf(Group(types[1..])), values[1..][..|types| - 1]);
      OneSlot(Number(types[0]), values[0]);
    }
  }

  lemma {:induction false} OneSlot(slot: Slot, v: Value)
    ensures AllCarry([slot], [v]) <==> Carries(slot, v)
    ensures Carries(slot, v) ==> Layout([slot], [v]) == SlotBytes(slot, v)
  {
    assert [slot][0] == slot && [v][0] == v && [slot][1..] == [] && [v][1..] == [];
    assert Carries(slot, v) ==> SlotBytes(slot, v) + [] == SlotBytes(slot, v);
  }

  lemma {:induction false} ItemIs(f: Format, values: seq<Value>)
    requires |values| >= Arity(f)
    ensures var own := values[..Arity(f)];
            PackItem(f, values) == if AllCarry(SlotsOf(f), own) then Some(Layout(SlotsOf(f), own)) else None
  {
    match f
    case Group(types) => GroupIs(types, values);
    case DynBytes =>
      assert values[..1] == [values[0]];
      OneSlot(Bytes, values[0]);
    case DynStr =>
      assert values[..1] == [values[0]];
      OneSlot(String, values[0]);
  }

  lemma {:induction false} ItemsAre(fmts: seq<Format>, values: seq<Value>)
    requires |values| == |Slots(fmts)|
    ensures PackItems(fmts, values)
            == if AllCarry(Slots(fmts), values) then Some(Layout(Slots(fmts), values)) else None
    decreases |fmts|
  {
    if fmts != [] {
      var n := Arity(fmts[0]);
      ItemIs(fmts[0], values);
      ItemsAre(fmts[1..], values[n..]);
      assert values == values[..n] + values[n..];
      LayoutAppend(SlotsOf(fmts[0]), values[..n], Slots(fmts[1..]), values[n..]);
    }
  }

  /** When packing succeeds, and what it gives: every number fits its type, and every byte string and encoded
      text has at most 255 bytes; the version 0, the id, and the values follow each other in order. */
  lemma {:induction false} PackIs(id: byte, fmts: seq<Format>, values: seq<Value>)
    requires |values| == |Slots(fmts)|
    ensures Pack(id, fmts, values)
            == if AllCarry(Slots(fmts), values) then Ok([0, id] + Layout(Slots(fmts), values)) else Err(BadFields)
  {
    ItemsAre(fmts, values);
  }

  /** With too few values nothing is packed. */
  lemma {:induction false} TooFewValues(id: byte, fmts: seq<Format>, values: seq<Value>)
    requires |values| < |Slots(fmts)|
    ensures Pack(id, fmts, values) == Err(BadFields)
  {
    TooFewItems(fmts, values);
  }

  lemma {:induction false} TooFewItems(fmts: seq<Format>, values: seq<Value>)
    requires |values| < |Slots(fmts)|
    ensures PackItems(fmts, values) == None
    decreases |fmts|
  {
    if |values| >= Arity(fmts[0]) {
      TooFewItems(fmts[1..], values[Arity(fmts[0])..]);
    }
  }

  // ---------------------------------------------------------------- unpacking

  /** Python's raw[from : from + n], which never fails. */
  function Slice(raw: seq<byte>, from: nat, n: nat): (r: seq<byte>)
    ensures |r| <= n
    ensures from + n <= |raw| ==> r == raw[from..from + n]
  {
    if from >= |raw| then [] else if from + n > |raw| then raw[from..] else raw[from..from + n]
  }

  function UnpackGroup(types: seq<IntType>, raw: seq<byte>): Option<seq<Value>>
    decreases |types|
  {
    if types == [] then (if raw == [] then Some([]) else None)
    else if |raw| < types[0].size then None
    else
      var head, rest := types[0].Decode(raw[..types[0].size]), UnpackGroup(types[1..], raw[types[0].size..]);
      if head.None? || rest.None? then None else Some([Num(head.value)] + rest.value)
  }

  /** The values of one format item and the offset after it; `None` is any exception inside unpack's loop. */
  function UnpackItem(f: Format, raw: seq<byte>, offset: nat): Option<(seq<Value>, nat)> {
    match f
    case Group(types) =>
      var vs := UnpackGroup(types, Slice(raw, offset, GroupSize(types)));
      if vs.None? then None else Some((vs.value, offset + GroupSize(types)))
    case DynBytes =>
      var size := FromLittleEndian(Slice(raw, offset, 1));
      Some(([Raw(Slice(raw, offset + 1, size))], offset + 1 + size))
    case DynStr =>
      var size := FromLittleEndian(Slice(raw, offset, 1));
      var text := Utf8.Decode(Slice(raw, offset + 1, size));
      if text.None? then None else Some(([Text(Strip(text.value))], offset + 1 + size))
  }

  function UnpackItems(fmts: seq<Format>, raw: seq<byte>, offset: nat): Option<seq<Value>>
    decreases |fmts|
  {
    if fmts == [] then Some([])
    else
      var head := UnpackItem(fmts[0], raw, offset);
      if head.None? then None
      else
        var rest := UnpackItems(fmts[1..], raw, head.value.1);
        if rest.None? then None else Some(head.value.0 + rest.value)
  }

  function Unpack(id: byte, fmts: seq<Format>, raw: seq<byte>): Result<seq<Value>> {
    if |raw| == 0 then Err(TooShort)
    else if raw[0] != VERSION then Err(BadVersion)
    else if |raw| == 1 then Err(TooShort)
    else if raw[1] != id then Err(BadId)
    else
      var vs := UnpackItems(fmts, raw, 2);
      if vs.None? then Err(BadFields) else Ok(vs.value)
  }

  // ---------------------------------------------------------------- what does not unpack

  /** The header decides first: version 0, then the message's own id. */
  lemma {:induction false} HeaderDecides(id: byte, fmts: seq<Format>, raw: seq<byte>)
    ensures |raw| < 2 ==> Unpack(id, fmts, raw).Err?
    ensures |raw| >= 1 ==> (Unpack(id, fmts, raw) == Err(BadVersion) <==> raw[0] != 0)
    ensures |raw| >= 2 && raw[0] == 0 ==> (Unpack(id, fmts, raw) == Err(BadId) <==> raw[1] != id)
    ensures Unpack(id, fmts, raw).Ok? ==> |raw| >= 2 && raw[0] == 0 && raw[1] == id
  {}

  /** A group of numbers needs all of its bytes. */
  lemma {:induction false} GroupNeedsBytes(id: byte, types: seq<IntType>, rest: seq<byte>)
    ensures |rest| < GroupSize(types) ==> Unpack(id, [Group(types)], [0, id] + rest) == Err(BadFields)
  {
    var raw := [0, id] + rest;
    if |rest| < GroupSize(types) {
      assert |Slice(raw, 2, GroupSize(types))| < GroupSize(types);
      GroupTooShort(types, Slice(raw, 2, GroupSize(types)));
    }
  }

  lemma {:induction false} GroupTooShort(types: seq<IntType>, raw: seq<byte>)
    requires |raw| != GroupSize(types)
    ensures UnpackGroup(types, raw) == None
    decreases |types|
  {
    if types != [] && |raw| >= types[0].size {
      GroupTooShort(types[1..], raw[types[0].size..]);
    }
  }

  /** Python's slices do not fail: counted bytes cut short come out shorter, also without a length byte. */
  lemma {:induction false} CountedBytesCutShort(id: byte, size: byte, rest: seq<byte>)
    requires |rest| <= size
    ensures Unpack(id, [DynBytes], [0, id, size] + rest) == Ok([Raw(rest)])
    ensures Unpack(id, [DynBytes], [0, id]) == Ok([Raw([])])
  {
    var raw := [0, id, size] + rest;
    assert [DynBytes][1..] == [];
    assert Slice(raw, 2, 1) == [size] && FromLittleEndian([size]) == size;
    assert raw[3..] == rest && (|rest| == size ==> raw[3..3 + size] == rest);
    assert Slice(raw, 3, size) == rest;
    assert [Raw(rest)] + [] == [Raw(rest)] && [Raw([])] + [] == [Raw([])];
    assert Slice([0, id], 2, 1) == [] && Slice([0, id], 3, 0) == [];
  }

  /** A counted text that is not UTF-8 is refused. */
  lemma {:induction false} TextMustDecode(id: byte, text: seq<byte>)
    requires |text| <= 255 && Utf8.Decode(text).None?
    ensures Unpack(id, [DynStr], [0, id, |text|] + text) == Err(BadFields)
  {
    var raw := [0, id, |text|] + text;
    assert Slice(raw, 2, 1) == [|text|] && FromLittleEndian([|text|]) == |text|;
    assert raw[3..3 + |text|] == text;
  }

  // ---------------------------------------------------------------- the round trip

  /** What survives a round trip: everything but the whitespace around texts. */
  function StripValue(v: Value): Value {
    if v.Text? then Text(Strip(v.text)) else v
  }

  function Stripped(values: seq<Value>): (r: seq<Value>)
    ensures |r| == |values|
    ensures forall i :: 0 <= i < |values| ==> r[i] == StripValue(values[i])
  {
    if values == [] then [] else [StripValue(values[0])] + Stripped(values[1..])
  }

  lemma {:induction false} GroupRoundTrip(types: seq<IntType>, values: seq<Value>)
    requires PackGroup(types, values).Some?
    ensures |types| <= |values|
    ensures UnpackGroup(types, PackGroup(types, values).value) == Some(values[..|types|])
    ensures Stripped(values[..|types|]) == values[..|types|]
    decreases |types|
  {
    if types != [] {
      var head, rest := types[0].Encode(values[0].n).value, PackGroup(types[1..], values[1..]).value;
      types[0].DecodeEncode(values[0].n);
      GroupRoundTrip(types[1..], values[1..]);
      assert (head + rest)[..types[0].size] == head && (head + rest)[types[0].size..] == rest;
      assert values[..|types|] == [values[0]] + values[1..][..|types| - 1];
    }
  }

  /** `p` is found in `raw` at `offset`. */
  predicate Found(raw: seq<byte>, offset: nat, p: seq<byte>) {
    offset + |p| <= |raw| && raw[offset..offset + |p|] == p
  }

  lemma {:induction false} FoundParts(raw: seq<byte>, offset: nat, p: seq<byte>, q: seq<byte>)
    requires Found(raw, offset, p + q)
    ensures Found(raw, offset, p) && Found(raw, offset + |p|, q)
  {
    var s := raw[offset..offset + |p + q|];
    assert raw[offset..offset + |p|] == s[..|p|] && raw[offset + |p|..offset + |p| + |q|] == s[|p|..];
  }

  /** One packed item, found anywhere in a byte string, is read back and the offset moves just past it. */
  lemma {:induction false} ItemRoundTrip(f: Format, values: seq<Value>, raw: seq<byte>, offset: nat)
    requires |values| >= Arity(f) && PackItem(f, values).Some? && Found(raw, offset, PackItem(f, values).value)
    ensures UnpackItem(f, raw, offset)
            == Some((Stripped(values[..Arity(f)]), offset + |PackItem(f, values).value|))
  {
    match f {
      case Group(types) =>
        GroupRoundTrip(types, values);
      case DynBytes =>
        CountedRoundTrip(values[0].bytes, raw, offset);
        assert Stripped(values[..1]) == [values[0]];
      case DynStr =>
        CountedRoundTrip(Utf8.Encode(values[0].text), raw, offset);
        Utf8.RoundTrip(values[0].text);
        assert Stripped(values[..1]) == [Text(Strip(values[0].text))];
    }
  }

  lemma {:induction false} CountedRoundTrip(body: seq<byte>, raw: seq<byte>, offset: nat)
    requires |body| < 256 && Found(raw, offset, [|body|] + body)
    ensures FromLittleEndian(Slice(raw, offset, 1)) == |body| && Slice(raw, offset + 1, |body|) == body
  {
    FoundParts(raw, offset, [|body|], body);
    assert FromLittleEndian([|body|]) == |body|;
  }

  lemma {:induction false} PackCons(fmts: seq<Format>, values: seq<Value>)
    requires fmts != [] && PackItems(fmts, values).Some?
    ensures |values| >= Arity(fmts[0]) && PackItem(fmts[0], values).Some?
    ensures var rest := PackItems(fmts[1..], values[Arity(fmts[0])..]);
            rest.Some? && PackItems(fmts, values).value == PackItem(fmts[0], values).value + rest.value
  {}

  lemma {:induction false} ItemsRoundTrip(fmts: seq<Format>, values: seq<Value>, raw: seq<byte>, offset: nat)
    requires |values| == Arities(fmts) && PackItems(fmts, values).Some?
    requires Found(raw, offset, PackItems(fmts, values).value)
    ensures UnpackItems(fmts, raw, offset) == Some(Stripped(values))
    decreases |fmts|
  {
    if fmts != [] {
      var next := FirstItemRoundTrip(fmts, values, raw, offset);
      ItemsRoundTrip(fmts[1..], values[Arity(fmts[0])..], raw, next);
      RoundTripCons(fmts, values, raw, offset, next);
    }
  }

  lemma {:induction false} RoundTripCons(fmts: seq<Format>, values: seq<Value>, raw: seq<byte>, offset: nat, next: nat)
    requires fmts != [] && |values| >= Arity(fmts[0])
    requires UnpackItem(fmts[0], raw, offset) == Some((Stripped(values[..Arity(fmts[0])]), next))
    requires UnpackItems(fmts[1..], raw, next) == Some(Stripped(values[Arity(fmts[0])..]))
    ensures UnpackItems(fmts, raw, offset) == Some(Stripped(values))
  {
    var n := Arity(fmts[0]);
    UnpackCons(fmts, raw, offset, Stripped(values[..n]), next, Stripped(values[n..]));
    StrippedSplits(values, n);
  }

  lemma {:induction false} FirstItemRoundTrip(fmts: seq<Format>, values: seq<Value>, raw: seq<byte>, offset: nat)
    returns (next: nat)
    requires fmts != [] && |values| == Arities(fmts) && PackItems(fmts, values).Some?
    requires Found(raw, offset, PackItems(fmts, values).value)
    ensures |values| >= Arity(fmts[0]) && |values[Arity(fmts[0])..]| == Arities(fmts[1..])
    ensures PackItems(fmts[1..], values[Arity(fmts[0])..]).Some?
    ensures UnpackItem(fmts[0], raw, offset) == Some((Stripped(values[..Arity(fmts[0])]), next))
    ensures Found(raw, next, PackItems(fmts[1..], values[Arity(fmts[0])..]).value)
  {
    PackCons(fmts, values);
    next := offset + |PackItem(fmts[0], values).value|;
    FoundParts(raw, offset, PackItem(fmts[0], values).value, PackItems(fmts[1..], values[Arity(fmts[0])..]).value);
    ItemRoundTrip(fmts[0], values, raw, offset);
  }

  lemma {:induction false} UnpackCons(
    fmts: seq<Format>, raw: seq<byte>, offset: nat, vs: seq<Value>, next: nat, rest: seq<Value>)
    requires fmts != [] && UnpackItem(fmts[0], raw, offset) == Some((vs, next))
    requires UnpackItems(fmts[1..], raw, next) == Some(rest)
    ensures UnpackItems(fmts, raw, offset) == Some(vs + rest)
  {}

  lemma {:induction false} StrippedSplits(values: seq<Value>, n: nat)
    requires n <= |values|
    ensures Stripped(values[..n]) + Stripped(values[n..]) == Stripped(values)
  {}

  /** Generic message round trip, for every format list, every fitting values and every suffix: unpacking
      gives the values with their texts stripped, so it gives back the message exactly when every text is
      free of surrounding whitespace. */
  lemma {:induction false} MessageRoundTrip(id: byte, fmts: seq<Format>, values: seq<Value>, suffix: seq<byte>)
    requires |values| == Arities(fmts) && Pack(id, fmts, values).Ok?
    ensures var back := Unpack(id, fmts, Pack(id, fmts, values).value + suffix);
            && back == Ok(Stripped(values))
            && (back == Ok(values) <==> forall i :: 0 <= i < |values| && values[i].Text? ==> Trim(values[i].text))
  {
    var raw := Pack(id, fmts, values).value + suffix;
    ItemsRoundTrip(fmts, values, raw, 2);
    forall i | 0 <= i < |values| && values[i].Text?
      ensures Stripped(values)[i] == values[i] <==> Trim(values[i].text)
    {
      StripIsTrim(values[i].text);
    }
    if Stripped(values) == values {
      assert forall i :: 0 <= i < |values| ==> Stripped(values)[i] == values[i];
    } else {
      assert exists i :: 0 <= i < |values| && Stripped(values)[i] != values[i];
    }
  }

  lemma {:induction false} SameLengthSplit(p: seq<byte>, s: seq<byte>, q: seq<byte>, t: seq<byte>)
    requires p + s == q + t && |p| == |q|
    ensures p == q && s == t
  {
    assert p == (p + s)[..|p|] && q == (q + t)[..|q|];
    assert s == (p + s)[|p|..] && t == (q + t)[|q|..];
  }

  lemma {:induction false} CountedIsPrefixFree(p: seq<byte>, s: seq<byte>, q: seq<byte>, t: seq<byte>)
    requires |p| < 256 && |q| < 256 && [|p|] + p + s == [|q|] + q + t
    ensures p == q && s == t
  {
    assert ([|p|] + p + s)[0] == |p| && ([|q|] + q + t)[0] == |q|;
    SameLengthSplit([|p|] + p, s, [|q|] + q, t);
    assert p == ([|p|] + p)[1..] && q == ([|q|] + q)[1..];
  }

  lemma {:induction false} GroupLength(types: seq<IntType>, values: seq<Value>)
    requires PackGroup(types, values).Some?
    ensures |PackGroup(types, values).value| == GroupSize(types)
    decreases |types|
  {
    if types != [] {
      GroupLength(types[1..], values[1..]);
    }
  }

  lemma {:induction false} ItemIsPrefixFree(f: Format, a: seq<Value>, b: seq<Value>, s: seq<byte>, t: seq<byte>)
    requires |a| >= Arity(f) && |b| >= Arity(f) && PackItem(f, a).Some? && PackItem(f, b).Some?
    requires PackItem(f, a).value + s == PackItem(f, b).value + t
    ensures a[..Arity(f)] == b[..Arity(f)] && s == t
  {
    match f {
      case Group(types) =>
        GroupLength(types, a);
        GroupLength(types, b);
        SameLengthSplit(PackGroup(types, a).value, s, PackGroup(types, b).value, t);
        GroupRoundTrip(types, a);
        GroupRoundTrip(types, b);
      case DynBytes =>
        CountedIsPrefixFree(a[0].bytes, s, b[0].bytes, t);
      case DynStr =>
        CountedIsPrefixFree(Utf8.Encode(a[0].text), s, Utf8.Encode(b[0].text), t);
        Utf8.RoundTrip(a[0].text);
        Utf8.RoundTrip(b[0].text);
    }
  }

  lemma {:induction false} ItemsArePrefixFree(
    fmts: seq<Format>, a: seq<Value>, b: seq<Value>, s: seq<byte>, t: seq<byte>)
    requires |a| == |b| == Arities(fmts) && PackItems(fmts, a).Some? && PackItems(fmts, b).Some?
    requires PackItems(fmts, a).value + s == PackItems(fmts, b).value + t
    ensures a == b && s == t
    decreases |fmts|
  {
    if fmts == [] {
      assert [] + s == s && [] + t == t;
    } else {
      var n := Arity(fmts[0]);
      FirstItemIsPrefixFree(fmts, a, b, s, t);
      ItemsArePrefixFree(fmts[1..], a[n..], b[n..], s, t);
      SameParts(a, b, n);
    }
  }

  lemma {:induction false} FirstItemIsPrefixFree(
    fmts: seq<Format>, a: seq<Value>, b: seq<Value>, s: seq<byte>, t: seq<byte>)
    requires fmts != [] && PackItems(fmts, a).Some? && PackItems(fmts, b).Some?
    requires PackItems(fmts, a).value + s == PackItems(fmts, b).value + t
    ensures var n := Arity(fmts[0]);
            && n <= |a| && n <= |b| && a[..n] == b[..n]
            && PackItems(fmts[1..], a[n..]).Some? && PackItems(fmts[1..], b[n..]).Some?
            && PackItems(fmts[1..], a[n..]).value + s == PackItems(fmts[1..], b[n..]).value + t
  {
    PackCons(fmts, a);
    PackCons(fmts, b);
    var n := Arity(fmts[0]);
    var ps, qs := PackItems(fmts[1..], a[n..]).value, PackItems(fmts[1..], b[n..]).value;
    Assoc(PackItem(fmts[0], a).value, ps, s);
    Assoc(PackItem(fmts[0], b).value, qs, t);
    ItemIsPrefixFree(fmts[0], a, b, ps + s, qs + t);
  }

  lemma {:induction false} SameParts(a: seq<Value>, b: seq<Value>, n: nat)
    requires n <= |a| && n <= |b| && a[..n] == b[..n] && a[n..] == b[n..]
    ensures a == b
  {
    assert a == a[..n] + a[n..] && b == b[..n] + b[n..];
  }

  /** Packing is injective and self-delimiting: two messages of one type, packed and followed by anything,
      are equal as soon as the byte strings are, whatever whitespace their texts carry. */
  lemma {:induction false} PackingIsPrefixFree(
    id: byte, fmts: seq<Format>, a: seq<Value>, b: seq<Value>, s: seq<byte>, t: seq<byte>)
    requires |a| == |b| == Arities(fmts) && Pack(id, fmts, a).Ok? && Pack(id, fmts, b).Ok?
    requires Pack(id, fmts, a).value + s == Pack(id, fmts, b).value + t
    ensures a == b && s == t
  {
    var head, p, q := [VERSION, id], PackItems(fmts, a).value, PackItems(fmts, b).value;
    Assoc(head, p, s);
    Assoc(head, q, t);
    SameLengthSplit(head, p + s, head, q + t);
    ItemsArePrefixFree(fmts, a, b, s, t);
  }

  // ---------------------------------------------------------------- the Python loops

  /** What is packed so far, with the rest or the error that follows. */
  function Joined(raw: seq<byte>, rest: Option<seq<byte>>): Result<seq<byte>> {
    if rest.None? then Err(BadFields) else Ok(raw + rest.value)
  }

  lemma {:induction false} PackStep(raw: seq<byte>, fmts: seq<Format>, values: seq<Value>)
    requires fmts != []
    ensures var item := PackItem(fmts[0], values);
            Joined(raw, PackItems(fmts, values))
            == if item.None? || |values| < Arity(fmts[0]) then Err(BadFields)
               else Joined(raw + item.value, PackItems(fmts[1..], values[Arity(fmts[0])..]))
  {
    if PackItems(fmts, values).Some? {
      PackCons(fmts, values);
      Assoc(raw, PackItem(fmts[0], values).value, PackItems(fmts[1..], values[Arity(fmts[0])..]).value);
    }
  }

  lemma {:induction false} PackStepAt(raw: seq<byte>, fmts: seq<Format>, k: nat, values: seq<Value>, offset: nat)
    requires k < |fmts| && offset <= |values|
    ensures var item := PackItem(fmts[k], values[offset..]);
            Joined(raw, PackItems(fmts[k..], values[offset..]))
            == if item.None? || |values| - offset < Arity(fmts[k]) then Err(BadFields)
               else Joined(raw + item.value, PackItems(fmts[k + 1..], values[offset + Arity(fmts[k])..]))
  {
    assert fmts[k..][0] == fmts[k] && fmts[k..][1..] == fmts[k + 1..];
    PackStep(raw, fmts[k..], values[offset..]);
    if |values| - offset >= Arity(fmts[k]) {
      assert values[offset..][Arity(fmts[k])..] == values[offset + Arity(fmts[k])..];
    }
  }

  /** Message.pack. */
  method PackLoop(id: byte, fmts: seq<Format>, values: seq<Value>) returns (r: Result<seq<byte>>)
    ensures r == Pack(id, fmts, values)
  {
    var raw: seq<byte> := [VERSION, id];
    var offset: nat := 0;
    PackOpens(id, fmts, values);
    for k := 0 to |fmts|
      invariant offset <= |values|
      invariant Pack(id, fmts, values) == Joined(raw, PackItems(fmts[k..], values[offset..]))
    {
      var item := PackItem(fmts[k], values[offset..]);
      PackStepAt(raw, fmts, k, values, offset);
      if item.None? || |values| - offset < Arity(fmts[k]) {
        return Err(BadFields);
      }
      raw := raw + item.value;
      offset := offset + Arity(fmts[k]);
    }
    PackCloses(raw, fmts, values[offset..]);
    return Ok(raw);
  }

  lemma {:induction false} PackOpens(id: byte, fmts: seq<Format>, values: seq<Value>)
    ensures Pack(id, fmts, values) == Joined([VERSION, id], PackItems(fmts[0..], values[0..]))
  {
    assert fmts[0..] == fmts && values[0..] == values;
  }

  lemma {:induction false} PackCloses(raw: seq<byte>, fmts: seq<Format>, values: seq<Value>)
    ensures Joined(raw, PackItems(fmts[|fmts|..], values)) == Ok(raw)
  {
    assert raw + [] == raw;
  }

  /** Message.unpack. */
  method UnpackLoop(id: byte, fmts: seq<Format>, raw: seq<byte>) returns (r: Result<seq<Value>>)
    ensures r == Unpack(id, fmts, raw)
  {
    if |raw| == 0 {
      return Err(TooShort);
    }
    if raw[0] != VERSION {
      return Err(BadVersion);
    }
    if |raw| == 1 {
      return Err(TooShort);
    }
    if raw[1] != id {
      return Err(BadId);
    }
    var offset := 2;
    var values: seq<Value> := [];
    assert fmts[0..] == fmts;
    assert forall vs: seq<Value> :: [] + vs == vs;
    for k := 0 to |fmts|
      invariant var rest := UnpackItems(fmts[k..], raw, offset);
                Unpack(id, fmts, raw) == if rest.None? then Err(BadFields) else Ok(values + rest.value)
    {
      var item := UnpackItem(fmts[k], raw, offset);
      assert fmts[k..][1..] == fmts[k + 1..];
      if item.None? {
        return Err(BadFields);
      }
      ghost var rest := UnpackItems(fmts[k + 1..], raw, item.value.1);
      assert rest.Some? ==> values + (item.value.0 + rest.value) == values + item.value.0 + rest.value;
      values := values + item.value.0;
      offset := item.value.1;
    }
    assert values + [] == values;
    return Ok(values);
  }
}
