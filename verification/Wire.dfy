/** The two ends of the IPC wire: message formats of libs/python/oresat_cand/message.py against the packed
    layouts of src/ipc/ipc_msg.h and the C code that reads and writes them. */
module Wire {
  import opened Base
  import opened Integers
  import opened Messages
  import Utf8

  const ID_TPDO_SEND: byte := 1
  const ID_OD_WRITE: byte := 2
  const ID_SDO_WRITE: byte := 4
  const ID_CONFIG: byte := 12

  const MSG_MAX_LEN := 1000       // the static receive buffer
  const HEADER_LEN := 2
  const STR_MAX_LEN := 255
  const OD_MIN_LEN := 6
  const OD_LEN := 261             // sizeof(ipc_msg_od_t)
  const SDO_MIN_LEN := 7
  const SDO_LEN := 262            // sizeof(ipc_msg_sdo_t)
  const TPDO_LEN := 3
  const FILE_MIN_LEN := 3
  const FILE_LEN := 258           // sizeof(ipc_msg_file_t)

  datatype OdWrite = OdWrite(index: nat, subindex: nat, data: seq<byte>) {
    predicate Fits() {
      index < 65536 && subindex < 256 && |data| <= STR_MAX_LEN
    }
  }

  datatype SdoWrite = SdoWrite(node: nat, od: OdWrite) {
    predicate Fits() {
      node < 256 && od.Fits()
    }
  }

  // ---------------------------------------------------------------- the Python end

  const OD_FORMAT := [Group([U16, U8]), DynBytes]
  const SDO_FORMAT := [Group([U8, U16, U8]), DynBytes]
  const TPDO_FORMAT := [Group([U8])]
  const CONFIG_FORMAT := [DynStr]

  function OdValues(m: OdWrite): seq<Value> {
    [Num(m.index), Num(m.subindex), Raw(m.data)]
  }

  function SdoValues(m: SdoWrite): seq<Value> {
    [Num(m.node), Num(m.od.index), Num(m.od.subindex), Raw(m.od.data)]
  }

  function PyOdWrite(m: OdWrite): Result<seq<byte>> {
    Pack(ID_OD_WRITE, OD_FORMAT, OdValues(m))
  }

  function PySdoWrite(m: SdoWrite): Result<seq<byte>> {
    Pack(ID_SDO_WRITE, SDO_FORMAT, SdoValues(m))
  }

  function PyTpdoSend(number: nat): Result<seq<byte>> {
    Pack(ID_TPDO_SEND, TPDO_FORMAT, [Num(number)])
  }

  function PyConfig(path: string): Result<seq<byte>> {
    Pack(ID_CONFIG, CONFIG_FORMAT, [Text(path)])
  }

  /** The OD-write branch of the client's consume loop, up to the lookup of the entry. */
  function PyReadOdWrite(raw: seq<byte>): Option<OdWrite> {
    if |raw| < 3 || raw[1] != ID_OD_WRITE then None
    else
      match Unpack(ID_OD_WRITE, OD_FORMAT, raw)
      case Err(_) => None
      case Ok(vs) =>
        if |vs| == 3 && vs[0].Num? && vs[0].n >= 0 && vs[1].Num? && vs[1].n >= 0 && vs[2].Raw?
        then Some(OdWrite(vs[0].n, vs[1].n, vs[2].bytes)) else None
  }

  // ---------------------------------------------------------------- the C end

  /** What the static receive buffer holds after a message has arrived over an older one. */
  function Received(stale: seq<byte>, raw: seq<byte>): (r: seq<byte>)
    requires |stale| == MSG_MAX_LEN
    ensures |r| == MSG_MAX_LEN
  {
    if |raw| > MSG_MAX_LEN then raw[..MSG_MAX_LEN] else raw + stale[|raw|..]
  }

  /** The checks of ipc_consume_process before its switch. */
  predicate Dispatched(buffer: seq<byte>, nbytes: nat, id: byte)
    requires |buffer| == MSG_MAX_LEN
  {
    nbytes > HEADER_LEN && buffer[0] == VERSION && buffer[1] == id
  }

  /** ipc_consume_od_write's gate and its view of the buffer as ipc_msg_od_t. */
  function COdWrite(stale: seq<byte>, raw: seq<byte>): Option<OdWrite>
    requires |stale| == MSG_MAX_LEN
  {
    var b := Received(stale, raw);
    if !Dispatched(b, |raw|, ID_OD_WRITE) || |raw| < OD_MIN_LEN || |raw| > OD_LEN then None
    else Some(OdWrite(FromLittleEndian(b[2..4]), b[4], b[6..6 + b[5]]))
  }

  /** ipc_respond_sdo_write's gate and its view of the buffer as ipc_msg_sdo_t. */
  function CSdoWrite(stale: seq<byte>, raw: seq<byte>): Option<SdoWrite>
    requires |stale| == MSG_MAX_LEN
  {
    var b := Received(stale, raw);
    if !Dispatched(b, |raw|, ID_SDO_WRITE) || |raw| < SDO_MIN_LEN || |raw| > SDO_LEN then None
    else Some(SdoWrite(b[2], OdWrite(FromLittleEndian(b[3..5]), b[5], b[7..7 + b[6]])))
  }

  /** ipc_consume_tpdo_send's gate and its view of the buffer as ipc_msg_tpdo_send_t. */
  function CTpdoSend(stale: seq<byte>, raw: seq<byte>): Option<nat>
    requires |stale| == MSG_MAX_LEN
  {
    var b := Received(stale, raw);
    if !Dispatched(b, |raw|, ID_TPDO_SEND) || |raw| != TPDO_LEN then None else Some(b[2])
  }

  /** ipc_consume_config's gate and the C string it finds once it has terminated the path. */
  function CConfig(stale: seq<byte>, raw: seq<byte>): Option<seq<byte>>
    requires |stale| == MSG_MAX_LEN
  {
    var b := Received(stale, raw);
    if !Dispatched(b, |raw|, ID_CONFIG) || |raw| < FILE_MIN_LEN || |raw| > FILE_LEN then None
    else Some(CText(b[3..3 + b[2]] + [NUL]))
  }

  /** The message ipc_broadcast_data sends after a single-segment write; `None` when it sends nothing. */
  function CBroadcast(m: OdWrite): Option<seq<byte>> {
    if |m.data| == 0 || |m.data| > STR_MAX_LEN || !m.Fits() then None
    else Some([VERSION, ID_OD_WRITE] + LittleEndian(m.index, 2) + [m.subindex, |m.data|] + m.data)
  }

  // ---------------------------------------------------------------- agreement

  lemma {:induction false} GroupOfTwo(a: IntType, b: IntType, x: int, y: int, rest: seq<Value>)
    requires a.Fits(x) && b.Fits(y)
    ensures PackGroup([a, b], [Num(x), Num(y)] + rest) == Some(a.Encode(x).value + b.Encode(y).value)
  {
    assert ([Num(x), Num(y)] + rest)[1..] == [Num(y)] + rest && [a, b][1..] == [b] && [b][1..] == [];
    assert PackGroup([b], [Num(y)] + rest) == Some(b.Encode(y).value + []);
    assert b.Encode(y).value + [] == b.Encode(y).value;
  }

  lemma {:induction false} PackedByte(n: nat)
    requires n < 256
    ensures U8.Fits(n) && U8.Encode(n) == Some([n])
  {
    Spans();
    assert LittleEndian(n, 1) == [n % 256] + LittleEndian(n / 256, 0) == [n];
  }

  lemma {:induction false} IndexBytes(n: nat)
    requires n < 65536
    ensures LittleEndian(n, 2) == [n % 256, n / 256]
  {
    assert LittleEndian(n / 256, 1) == [n / 256 % 256] + LittleEndian(n / 256 / 256, 0);
  }

  /** Every field of a packed OD write sits where ipc_msg_od_t puts it. */
  lemma {:induction false} OdLayout(m: OdWrite)
    requires m.Fits()
    ensures PyOdWrite(m) == Ok([0, 2, m.index % 256, m.index / 256, m.subindex, |m.data|] + m.data)
  {
    Spans();
    PackedByte(m.subindex);
    var vs := OdValues(m);
    GroupOfTwo(U16, U8, m.index, m.subindex, [Raw(m.data)]);
    assert vs == [Num(m.index), Num(m.subindex)] + [Raw(m.data)];
    assert vs[2..] == [Raw(m.data)] && OD_FORMAT[1..] == [DynBytes];
    assert PackItems([DynBytes], [Raw(m.data)]) == Some([|m.data|] + m.data + []);
    IndexBytes(m.index);
    assert [VERSION, ID_OD_WRITE] + (LittleEndian(m.index, 2) + [m.subindex] + ([|m.data|] + m.data + []))
           == [0, 2, m.index % 256, m.index / 256, m.subindex, |m.data|] + m.data;
  }

  /** Python to C: every packed OD write passes the gate and is read back field by field, whatever an
      earlier message left in the receive buffer. */
  lemma {:induction false} OdWriteReachesDaemon(m: OdWrite, stale: seq<byte>)
    requires m.Fits() && |stale| == MSG_MAX_LEN
    ensures PyOdWrite(m).Ok? && COdWrite(stale, PyOdWrite(m).value) == Some(m)
  {
    OdLayout(m);
    Spans();
    ReadsBack(m.index, 2);
    IndexBytes(m.index);
    var b := Received(stale, PyOdWrite(m).value);
    assert b[2..4] == LittleEndian(m.index, 2);
    assert b[4] == m.subindex && b[5] == |m.data|;
    assert b[6..6 + |m.data|] == m.data;
  }

  /** C to Python: every broadcast of 1 to 255 bytes unpacks to the same index, subindex and data. */
  lemma {:induction false} BroadcastReachesClients(m: OdWrite)
    requires m.Fits() && m.data != []
    ensures CBroadcast(m).Some? && PyReadOdWrite(CBroadcast(m).value) == Some(m)
  {
    OdLayout(m);
    assert Arities(OD_FORMAT) == 3 by { assert OD_FORMAT[1..] == [DynBytes] && [DynBytes][1..] == []; }
    MessageRoundTrip(ID_OD_WRITE, OD_FORMAT, OdValues(m), []);
    IndexBytes(m.index);
    assert PyOdWrite(m).value + [] == PyOdWrite(m).value == CBroadcast(m).value;
  }

  lemma {:induction false} SdoWriteReachesDaemon(m: SdoWrite, stale: seq<byte>)
    requires m.Fits() && |stale| == MSG_MAX_LEN
    ensures PySdoWrite(m).Ok? && CSdoWrite(stale, PySdoWrite(m).value) == Some(m)
  {
    SdoLayout(m);
    Spans();
    ReadsBack(m.od.index, 2);
    IndexBytes(m.od.index);
    var b := Received(stale, PySdoWrite(m).value);
    assert b[3..5] == LittleEndian(m.od.index, 2);
    assert b[2] == m.node && b[5] == m.od.subindex && b[6] == |m.od.data|;
    assert b[7..7 + |m.od.data|] == m.od.data;
  }

  lemma {:induction false} SdoHead(m: SdoWrite)
    requires m.Fits()
    ensures PackGroup([U8, U16, U8], SdoValues(m))
            == Some([m.node] + (LittleEndian(m.od.index, 2) + [m.od.subindex]))
  {
    Spans();
    PackedByte(m.node);
    PackedByte(m.od.subindex);
    GroupOfTwo(U16, U8, m.od.index, m.od.subindex, [Raw(m.od.data)]);
    assert SdoValues(m)[1..] == [Num(m.od.index), Num(m.od.subindex)] + [Raw(m.od.data)];
    assert [U8, U16, U8][1..] == [U16, U8];
  }

  lemma {:induction false} SdoLayout(m: SdoWrite)
    requires m.Fits()
    ensures PySdoWrite(m)
            == Ok([0, 4, m.node, m.od.index % 256, m.od.index / 256, m.od.subindex, |m.od.data|] + m.od.data)
  {
    var vs, data := SdoValues(m), m.od.data;
    SdoHead(m);
    assert vs[3..] == [Raw(data)] && SDO_FORMAT[1..] == [DynBytes];
    assert PackItems([DynBytes], [Raw(data)]) == Some([|data|] + data + []);
    IndexBytes(m.od.index);
    assert [VERSION, ID_SDO_WRITE] + ([m.node] + (LittleEndian(m.od.index, 2) + [m.od.subindex])
                                      + ([|data|] + data + []))
           == [0, 4, m.node, m.od.index % 256, m.od.index / 256, m.od.subindex, |data|] + data;
  }

  lemma {:induction false} TpdoLayout(number: nat)
    requires number < 256
    ensures PyTpdoSend(number) == Ok([0, 1, number])
  {
    PackedByte(number);
    assert PackGroup([U8], [Num(number)]) == Some([number] + []) by { assert [U8][1..] == []; }
    assert PackItems(TPDO_FORMAT, [Num(number)]) == Some([number] + [] + []) by { assert TPDO_FORMAT[1..] == []; }
    assert [VERSION, ID_TPDO_SEND] + ([number] + [] + []) == [0, 1, number];
  }

  lemma {:induction false} TpdoSendReachesDaemon(number: nat, stale: seq<byte>)
    requires number < 256 && |stale| == MSG_MAX_LEN
    ensures PyTpdoSend(number).Ok? && CTpdoSend(stale, PyTpdoSend(number).value) == Some(number)
  {
    TpdoLayout(number);
  }

  lemma {:induction false} ConfigLayout(path: string)
    requires |Utf8.Encode(path)| <= 255
    ensures PyConfig(path) == Ok([0, 12, |Utf8.Encode(path)|] + Utf8.Encode(path))
  {
    var u := Utf8.Encode(path);
    assert CONFIG_FORMAT[1..] == [];
    assert PackItems(CONFIG_FORMAT, [Text(path)]) == Some([|u|] + u + []);
    assert [VERSION, ID_CONFIG] + ([|u|] + u + []) == [0, 12, |u|] + u;
  }

  /** Every configuration path of at most 255 encoded bytes passes the gate and is found by the daemon, up to
      its first zero byte. */
  lemma {:induction false} ConfigReachesDaemon(path: string, stale: seq<byte>)
    requires |Utf8.Encode(path)| <= 255 && |stale| == MSG_MAX_LEN
    ensures PyConfig(path).Ok? && CConfig(stale, PyConfig(path).value) == Some(CText(Utf8.Encode(path)))
  {
    ConfigLayout(path);
    var u := Utf8.Encode(path);
    PathFound(stale, u);
    TerminatorAdded(u);
  }

  lemma {:induction false} PathFound(stale: seq<byte>, u: seq<byte>)
    requires |stale| == MSG_MAX_LEN && |u| <= 255
    ensures var b := Received(stale, [0, 12, |u|] + u); b[2] == |u| && b[3..3 + |u|] == u
  {}

  lemma {:induction false} TerminatorAdded(u: seq<byte>)
    ensures CText(u + [NUL]) == CText(u)
  {
    CTextAppend(u, [NUL]);
    if NUL !in u {
      CTextWhole(u);
      assert CText([NUL]) == [] && u + [] == u;
    }
  }

  // ---------------------------------------------------------------- what is refused

  /** The gates, in bytes: a message is read exactly when it has the handler's id and a length in its range. */
  lemma {:induction false} Gates(stale: seq<byte>, raw: seq<byte>)
    requires |stale| == MSG_MAX_LEN && |raw| >= 2
    ensures COdWrite(stale, raw).Some? <==> 6 <= |raw| <= 261 && raw[0] == 0 && raw[1] == 2
    ensures CSdoWrite(stale, raw).Some? <==> 7 <= |raw| <= 262 && raw[0] == 0 && raw[1] == 4
    ensures CTpdoSend(stale, raw).Some? <==> |raw| == 3 && raw[0] == 0 && raw[1] == 1
    ensures CConfig(stale, raw).Some? <==> 3 <= |raw| <= 258 && raw[0] == 0 && raw[1] == 12
  {}

  /** No message is read by two handlers. */
  lemma {:induction false} HandlersDoNotMix(stale: seq<byte>, raw: seq<byte>)
    requires |stale| == MSG_MAX_LEN && |raw| >= 2
    ensures COdWrite(stale, raw).Some? ==>
              CSdoWrite(stale, raw).None? && CTpdoSend(stale, raw).None? && CConfig(stale, raw).None?
    ensures CSdoWrite(stale, raw).Some? ==> CTpdoSend(stale, raw).None? && CConfig(stale, raw).None?
    ensures CTpdoSend(stale, raw).Some? ==> CConfig(stale, raw).None?
  {
    Gates(stale, raw);
  }

  /** The receive buffer holds the message, and behind it what an older one left there. */
  lemma {:induction false} ReceivedBytes(stale: seq<byte>, raw: seq<byte>, i: nat)
    requires |stale| == MSG_MAX_LEN && i < 1000
    ensures |Received(stale, raw)| == 1000
    ensures Received(stale, raw)[i] == if i < |raw| then raw[i] else stale[i]
  {}

  /** A write is broadcast exactly when it has between one and 255 bytes. */
  lemma {:induction false} BroadcastSent(m: OdWrite)
    requires m.index < 65536 && m.subindex < 256
    ensures CBroadcast(m).Some? <==> 1 <= |m.data| <= 255
  {}

  /** A client takes nothing for an OD write but messages with version 0 and id 2. */
  lemma {:induction false} ClientGate(raw: seq<byte>)
    ensures PyReadOdWrite(raw).Some? ==> |raw| >= 3 && raw[0] == 0 && raw[1] == 2
  {}
}
