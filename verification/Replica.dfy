/** The replicated object dictionary: clients of libs/python/oresat_cand/node_client.py, the daemon's
    src/ipc/ipc_consume.c and src/ipc/ipc_broadcast.c, and the channels between them. */
module Replica {
  import opened Base
  import opened Integers
  import opened Wire

  /** Index and subindex. */
  type Key = (nat, nat)

  /** The fixed-size entries both sides know, with their types. */
  type Schema = map<Key, IntType>

  predicate Known(schema: Schema) {
    forall k :: k in schema ==> k.0 < 65536 && k.1 < 256 && 1 <= schema[k].size <= 8
  }

  /** ipc_broadcast_init attaches the broadcasting write to these entries only. */
  predicate Echoes(k: Key) {
    k.0 >= 0x4000
  }

  /** A client: its local data, the writes that are stored but not sent yet (one per thread inside
      od_write), the messages on their way to the daemon and the broadcasts on their way to the client. A
      message in a channel stands for its packed bytes. */
  datatype Client = Client(local: map<Key, int>, pending: seq<OdWrite>, outbox: seq<OdWrite>, inbox: seq<OdWrite>)

  /** The daemon's values, its client counter, its receive buffer, the writes that its threads have stored
      but not broadcast yet (one per thread inside ipc_broadcast_data), and the clients. */
  datatype System = System(
    daemon: map<Key, seq<byte>>, count: byte, stale: seq<byte>, held: map<nat, OdWrite>, clients: seq<Client>)

  /** The thread that runs ipc_consume_process; every other number is a thread that writes for the CAN side
      (the SDO server in the main thread, the RPDOs in the real-time thread). */
  const CONSUMER: nat := 0

  datatype Action =
    | Write(c: nat, k: Key, v: int)               // od_write, up to the send
    | Resend(c: nat, k: Key)                      // the connection monitor re-sends what it reads locally
    | Send(c: nat, i: nat)                        // some thread of the client gets to its send
    | Consume(c: nat)                             // the consumer thread takes a client's next message and stores it
    | CanWrite(th: nat, k: Key, raw: seq<byte>)   // another daemon thread stores a write that comes over CAN
    | Publish(th: nat)                            // a daemon thread broadcasts what it has stored
    | Receive(c: nat)                             // the client's consume thread takes the next broadcast

  function KeyOf(m: OdWrite): Key {
    (m.index, m.subindex)
  }

  // ---------------------------------------------------------------- one step of each party

  /** od_write stores first and encodes after; a value that does not encode is stored and never sent. */
  function ClientWrites(schema: Schema, cl: Client, k: Key, v: int): Client {
    if k !in schema || k !in cl.local then cl
    else
      var raw := schema[k].Encode(v);
      var cl1 := cl.(local := cl.local[k := v]);
      if raw.None? then cl1 else cl1.(pending := cl.pending + [OdWrite(k.0, k.1, raw.value)])
  }

  function ClientResends(schema: Schema, cl: Client, k: Key): Client {
    if k !in schema || k !in cl.local then cl
    else
      var raw := schema[k].Encode(cl.local[k]);
      if raw.None? then cl else cl.(pending := cl.pending + [OdWrite(k.0, k.1, raw.value)])
  }

  function ClientSends(cl: Client, i: nat): Client {
    if i >= |cl.pending| then cl
    else cl.(pending := cl.pending[..i] + cl.pending[i + 1..], outbox := cl.outbox + [cl.pending[i]])
  }

  /** The new local data after a broadcast has been unpacked, looked up and decoded. */
  function Learn(schema: Schema, local: map<Key, int>, m: Option<OdWrite>): map<Key, int> {
    if m.None? || KeyOf(m.value) !in schema || KeyOf(m.value) !in local then local
    else
      var v := schema[KeyOf(m.value)].Decode(m.value.data);
      if v.None? then local else local[KeyOf(m.value) := v.value]
  }

  function ClientReceives(schema: Schema, cl: Client): Client {
    if cl.inbox == [] then cl
    else
      var raw := CBroadcast(cl.inbox[0]);
      cl.(inbox := cl.inbox[1..],
          local := if raw.None? then cl.local else Learn(schema, cl.local, PyReadOdWrite(raw.value)))
  }

  /** The first half of a write to a daemon entry: the store. A write that goes through the extension leaves
      its thread with a broadcast to send. */
  function Store(schema: Schema, s: System, m: OdWrite, th: nat, direct: bool): System {
    var k := KeyOf(m);
    if k !in schema || k !in s.daemon || |m.data| != schema[k].size then s
    else
      var s1 := s.(daemon := s.daemon[k := m.data]);
      if direct || !Echoes(k) || CBroadcast(m).None? then s1 else s1.(held := s.held[th := m])
  }

  /** The second half: the broadcast. */
  function Broadcasts(s: System, th: nat): System {
    if th !in s.held then s else s.(clients := Delivered(s.clients, s.held[th]), held := s.held - {th})
  }

  function Delivered(clients: seq<Client>, m: OdWrite): (r: seq<Client>)
    ensures |r| == |clients|
    ensures forall i :: 0 <= i < |clients| ==> r[i] == clients[i].(inbox := clients[i].inbox + [m])
  {
    seq(|clients|, i requires 0 <= i < |clients| => clients[i].(inbox := clients[i].inbox + [m]))
  }

  /** ipc_consume_od_write: with at most one counted client the write bypasses the broadcast. */
  function DaemonConsumes(schema: Schema, s: System, c: nat): System
    requires |s.stale| == MSG_MAX_LEN && c < |s.clients|
  {
    var cl := s.clients[c];
    if cl.outbox == [] || CONSUMER in s.held then s
    else
      var s1 := s.(clients := s.clients[c := cl.(outbox := cl.outbox[1..])]);
      match PyOdWrite(cl.outbox[0])
      case Err(_) => s1
      case Ok(raw) =>
        var s2 := s1.(stale := Received(s.stale, raw));
        var m := COdWrite(s.stale, raw);
        if m.None? then s2 else Store(schema, s2, m.value, CONSUMER, s.count <= 1)
  }

  function Step(schema: Schema, s: System, a: Action): (t: System)
    requires |s.stale| == MSG_MAX_LEN
    ensures |t.stale| == MSG_MAX_LEN && |t.clients| == |s.clients| && t.count == s.count
  {
    if !a.CanWrite? && !a.Publish? && a.c >= |s.clients| then s
    else
      match a
      case Write(c, k, v) => s.(clients := s.clients[c := ClientWrites(schema, s.clients[c], k, v)])
      case Resend(c, k) => s.(clients := s.clients[c := ClientResends(schema, s.clients[c], k)])
      case Send(c, i) => s.(clients := s.clients[c := ClientSends(s.clients[c], i)])
      case Consume(c) => DaemonConsumes(schema, s, c)
      case CanWrite(th, k, raw) =>
        if th == CONSUMER || th in s.held then s else Store(schema, s, OdWrite(k.0, k.1, raw), th, false)
      case Publish(th) => Broadcasts(s, th)
      case Receive(c) => s.(clients := s.clients[c := ClientReceives(schema, s.clients[c])])
  }

  function Run(schema: Schema, s: System, actions: seq<Action>): (t: System)
    requires |s.stale| == MSG_MAX_LEN
    ensures |t.stale| == MSG_MAX_LEN && |t.clients| == |s.clients|
    decreases |actions|
  {
    if actions == [] then s else Run(schema, Step(schema, s, actions[0]), actions[1..])
  }

  /** `n` clients have connected, everybody holds the defaults; the connection counter is one byte wide. */
  function Start(schema: Schema, defaults: map<Key, int>, n: nat): System
    requires Agreed(schema, defaults)
  {
    System(map k | k in schema :: schema[k].Encode(defaults[k]).value, n % 256, seq(MSG_MAX_LEN, _ => 0),
           map[], seq(n, _ => Client(defaults, [], [], [])))
  }

  predicate Agreed(schema: Schema, defaults: map<Key, int>) {
    Known(schema) && defaults.Keys == schema.Keys && forall k :: k in schema ==> schema[k].Fits(defaults[k])
  }

  // ---------------------------------------------------------------- the invariant

  predicate OfType(schema: Schema, m: OdWrite) {
    KeyOf(m) in schema && |m.data| == schema[KeyOf(m)].size
  }

  predicate Typed(schema: Schema, ms: seq<OdWrite>) {
    forall i :: 0 <= i < |ms| ==> OfType(schema, ms[i])
  }

  predicate Mentions(ms: seq<OdWrite>, k: Key) {
    exists i :: 0 <= i < |ms| && KeyOf(ms[i]) == k
  }

  /** The value of one entry after a client has received everything in its inbox. */
  function Settle(schema: Schema, v: int, inbox: seq<OdWrite>, k: Key): int
    requires Typed(schema, inbox)
    decreases |inbox|
  {
    if inbox == [] then v
    else
      var m := inbox[0];
      var v1 := if KeyOf(m) == k then schema[k].Decode(m.data).value else v;
      Settle(schema, v1, inbox[1..], k)
  }

  /** No thread of the daemon has a broadcast of the entry to send. */
  predicate Free(s: System, k: Key) {
    forall th :: th in s.held ==> KeyOf(s.held[th]) != k
  }

  /** What matters of the daemon for one entry: its value, whether all of its writes have been broadcast,
      and whether client writes are echoed. */
  datatype View = View(schema: Schema, k: Key, value: seq<byte>, free: bool, echoed: bool) {
    predicate Sound() {
      Known(schema) && k in schema && Echoes(k) && |value| == schema[k].size
    }

    /** The channels hold messages of the right types, and without the echo none that writes the entry. */
    predicate Good(cl: Client) {
      && k in cl.local && Typed(schema, cl.pending) && Typed(schema, cl.outbox) && Typed(schema, cl.inbox)
      && (echoed || (!Mentions(cl.pending, k) && !Mentions(cl.outbox, k)))
    }

    /** Once every write of the entry has been sent and broadcast, and the client has received everything,
        it holds the daemon's value or one of its own that does not fit the entry. */
    predicate Converging(cl: Client)
      requires Sound() && Good(cl)
    {
      || !free || Mentions(cl.pending, k) || Mentions(cl.outbox, k)
      || (var v := Settle(schema, cl.local[k], cl.inbox, k);
          schema[k].Decode(value) == Some(v) || !schema[k].Fits(v))
    }

    predicate Keeps(cl: Client)
      requires Sound()
    {
      Good(cl) && Converging(cl)
    }
  }

  ghost function Seen(schema: Schema, s: System, k: Key): View
    requires k in s.daemon
  {
    View(schema, k, s.daemon[k], Free(s, k), s.count >= 2)
  }

  /** What the daemon's threads still have to broadcast of the entry is the value it holds. */
  predicate Ordered(schema: Schema, s: System, k: Key) {
    && |s.stale| == MSG_MAX_LEN && k in s.daemon
    && (forall th :: th in s.held ==> OfType(schema, s.held[th]))
    && (forall th :: th in s.held && KeyOf(s.held[th]) == k ==> s.held[th].data == s.daemon[k])
  }

  ghost predicate Inv(schema: Schema, s: System, k: Key) {
    && Ordered(schema, s, k) && Seen(schema, s, k).Sound()
    && forall c :: 0 <= c < |s.clients| ==> Seen(schema, s, k).Keeps(s.clients[c])
  }

  // ---------------------------------------------------------------- preservation

  lemma {:induction false} SettleSnoc(schema: Schema, v: int, inbox: seq<OdWrite>, m: OdWrite, k: Key)
    requires Typed(schema, inbox) && OfType(schema, m)
    ensures Typed(schema, inbox + [m])
    ensures Settle(schema, v, inbox + [m], k)
            == if KeyOf(m) == k then schema[k].Decode(m.data).value else Settle(schema, v, inbox, k)
    decreases |inbox|
  {
    if inbox == [] {
      assert [] + [m] == [m] && [m][1..] == [];
    } else {
      var h := inbox[0];
      var v1 := if KeyOf(h) == k then schema[k].Decode(h.data).value else v;
      assert (inbox + [m])[1..] == inbox[1..] + [m];
      SettleSnoc(schema, v1, inbox[1..], m, k);
    }
  }

  lemma {:induction false} OnTheWire(schema: Schema, m: OdWrite, stale: seq<byte>)
    requires Known(schema) && OfType(schema, m) && |stale| == MSG_MAX_LEN
    ensures m.Fits() && PyOdWrite(m).Ok? && COdWrite(stale, PyOdWrite(m).value) == Some(m)
    ensures CBroadcast(m).Some? && PyReadOdWrite(CBroadcast(m).value) == Some(m)
  {
    OdWriteReachesDaemon(m, stale);
    BroadcastReachesClients(m);
  }

  /** A client-side step leaves the other clients and the daemon alone. */
  lemma {:induction false} OneClient(schema: Schema, s: System, c: nat, cl: Client, k: Key)
    requires Inv(schema, s, k) && c < |s.clients| && Seen(schema, s, k).Keeps(cl)
    ensures Inv(schema, s.(clients := s.clients[c := cl]), k)
  {
    assert Seen(schema, s.(clients := s.clients[c := cl]), k) == Seen(schema, s, k);
  }

  lemma {:induction false} MentionsSnoc(ms: seq<OdWrite>, m: OdWrite, k: Key)
    ensures Mentions(ms + [m], k) <==> Mentions(ms, k) || KeyOf(m) == k
  {
    assert (ms + [m])[|ms|] == m;
    assert forall i :: 0 <= i < |ms| ==> (ms + [m])[i] == ms[i];
  }

  /** The local value matters only while no broadcast of the entry is on its way. */
  lemma {:induction false} SettleForgets(schema: Schema, v: int, u: int, inbox: seq<OdWrite>, k: Key)
    requires Typed(schema, inbox)
    ensures Settle(schema, v, inbox, k) == if Mentions(inbox, k) then Settle(schema, u, inbox, k) else v
    decreases |inbox|
  {
    if inbox != [] {
      var m, rest := inbox[0], inbox[1..];
      assert inbox == [m] + rest;
      if KeyOf(m) != k {
        SettleForgets(schema, v, u, rest, k);
        assert Mentions(inbox, k) <==> Mentions(rest, k) by {
          assert forall i :: 0 <= i < |rest| ==> rest[i] == inbox[i + 1];
          assert forall i :: 1 <= i < |inbox| ==> inbox[i] == rest[i - 1];
        }
      }
    }
  }

  /** A client may write the entry only if its writes are echoed. */
  predicate Allowed(view: View, a: Action) {
    (a.Write? || a.Resend?) && a.k == view.k ==> view.echoed
  }

  lemma {:induction false} WriteKeeps(view: View, cl: Client, w: Key, v: int)
    requires view.Sound() && view.Keeps(cl) && (w == view.k ==> view.echoed)
    ensures view.Keeps(ClientWrites(view.schema, cl, w, v))
  {
    if w in view.schema && w in cl.local {
      SettleForgets(view.schema, v, cl.local[view.k], cl.inbox, view.k);
      var raw := view.schema[w].Encode(v);
      if raw.Some? {
        MentionsSnoc(cl.pending, OdWrite(w.0, w.1, raw.value), view.k);
      }
    }
  }

  lemma {:induction false} ResendKeeps(view: View, cl: Client, w: Key)
    requires view.Sound() && view.Keeps(cl) && (w == view.k ==> view.echoed)
    ensures view.Keeps(ClientResends(view.schema, cl, w))
  {
    if w in view.schema && w in cl.local && view.schema[w].Fits(cl.local[w]) {
      MentionsSnoc(cl.pending, OdWrite(w.0, w.1, view.schema[w].Encode(cl.local[w]).value), view.k);
    }
  }

  lemma {:induction false} SendKeeps(view: View, cl: Client, i: nat)
    requires view.Sound() && view.Keeps(cl)
    ensures view.Keeps(ClientSends(cl, i))
  {
    if i < |cl.pending| {
      var m := cl.pending[i];
      var rest := cl.pending[..i] + cl.pending[i + 1..];
      MentionsSnoc(cl.outbox, m, view.k);
      if Mentions(cl.pending, view.k) && KeyOf(m) != view.k {
        var j :| 0 <= j < |cl.pending| && KeyOf(cl.pending[j]) == view.k;
        assert rest[if j < i then j else j - 1] == cl.pending[j];
      }
    }
  }

  lemma {:induction false} ReceiveKeeps(view: View, cl: Client)
    requires view.Sound() && view.Keeps(cl)
    ensures view.Keeps(ClientReceives(view.schema, cl))
  {
    if cl.inbox != [] {
      OnTheWire(view.schema, cl.inbox[0], seq(MSG_MAX_LEN, _ => 0));
    }
  }

  /** The broadcast of a message: of the entry's current value, or of another entry. */
  lemma {:induction false} BroadcastKeeps(view: View, cl: Client, m: OdWrite, free: bool)
    requires view.Sound() && view.Keeps(cl) && OfType(view.schema, m)
    requires if KeyOf(m) == view.k then m.data == view.value else free == view.free
    ensures view.(free := free).Keeps(cl.(inbox := cl.inbox + [m]))
  {
    SettleSnoc(view.schema, cl.local[view.k], cl.inbox, m, view.k);
  }

  lemma {:induction false} PublishKeeps(schema: Schema, s: System, th: nat, k: Key)
    requires Inv(schema, s, k)
    ensures Inv(schema, Broadcasts(s, th), k)
  {
    if th in s.held {
      var m, t := s.held[th], Broadcasts(s, th);
      assert forall i :: i in t.held ==> i in s.held && t.held[i] == s.held[i];
      assert KeyOf(m) != k ==> (Free(t, k) <==> Free(s, k)) by {
        assert forall i :: i in s.held && i != th ==> i in t.held && t.held[i] == s.held[i];
      }
      forall c | 0 <= c < |s.clients|
        ensures Seen(schema, t, k).Keeps(t.clients[c])
      {
        BroadcastKeeps(Seen(schema, s, k), s.clients[c], m, Free(t, k));
      }
    }
  }

  /** A store of the entry while no other write of it waits for its broadcast, or of another entry. */
  lemma {:induction false} StoreKeeps(schema: Schema, s: System, m: OdWrite, th: nat, direct: bool, k: Key)
    requires Ordered(schema, s, k) && Seen(schema, s, k).Sound() && th !in s.held
    requires KeyOf(m) == k ==> Free(s, k) && !direct
    requires forall c :: 0 <= c < |s.clients| ==>
               && Seen(schema, s, k).Good(s.clients[c])
               && ((KeyOf(m) == k && OfType(schema, m)) || Seen(schema, s, k).Converging(s.clients[c]))
    ensures Inv(schema, Store(schema, s, m, th, direct), k)
  {
    var t := Store(schema, s, m, th, direct);
    var w := KeyOf(m);
    if w in schema && w in s.daemon && |m.data| == schema[w].size {
      OnTheWire(schema, m, s.stale);
      StoreKeepsOrder(schema, s, m, th, direct, k);
      if w != k {
        assert Seen(schema, t, k) == Seen(schema, s, k);
      } else {
        assert forall c :: 0 <= c < |s.clients| ==> Seen(schema, t, k).Good(s.clients[c]);
      }
    }
  }

  lemma {:induction false} StoreKeepsOrder(schema: Schema, s: System, m: OdWrite, th: nat, direct: bool, k: Key)
    requires Known(schema) && Ordered(schema, s, k) && Echoes(k) && th !in s.held && OfType(schema, m)
    requires KeyOf(m) in s.daemon && CBroadcast(m).Some? && (KeyOf(m) == k ==> Free(s, k) && !direct)
    ensures var t := Store(schema, s, m, th, direct);
            && Ordered(schema, t, k)
            && (if KeyOf(m) == k then t.daemon[k] == m.data && !Free(t, k)
                else t.daemon[k] == s.daemon[k] && (Free(t, k) <==> Free(s, k)))
  {
    var t := Store(schema, s, m, th, direct);
    if KeyOf(m) == k {
      assert t.held[th] == m;
    } else {
      assert forall i :: i in s.held ==> i in t.held && t.held[i] == s.held[i];
    }
  }

  /** The daemon thread that stores the entry in this step, if one does. */
  function Storer(s: System, a: Action, k: Key): Option<nat> {
    match a
    case CanWrite(th, w, _) => if w == k && th != CONSUMER && th !in s.held then Some(th) else None
    case Consume(c) =>
      if && c < |s.clients| && CONSUMER !in s.held
         && s.clients[c].outbox != [] && KeyOf(s.clients[c].outbox[0]) == k
      then Some(CONSUMER) else None
    case _ => None
  }

  /** The action stores the entry while a daemon thread still has an earlier write of it to broadcast. */
  predicate Overlaps(s: System, a: Action, k: Key) {
    Storer(s, a, k).Some? && !Free(s, k)
  }

  lemma {:induction false} MentionsTail(ms: seq<OdWrite>, k: Key)
    requires ms != []
    ensures Mentions(ms, k) <==> KeyOf(ms[0]) == k || Mentions(ms[1..], k)
  {
    assert forall i :: 0 <= i < |ms| - 1 ==> ms[1..][i] == ms[i + 1];
    if Mentions(ms, k) && KeyOf(ms[0]) != k {
      var j :| 0 <= j < |ms| && KeyOf(ms[j]) == k;
      assert ms[1..][j - 1] == ms[j];
    }
  }

  lemma {:induction false} ConsumeKeeps(schema: Schema, s: System, c: nat, k: Key)
    requires Inv(schema, s, k) && c < |s.clients| && !Overlaps(s, Consume(c), k)
    ensures Inv(schema, DaemonConsumes(schema, s, c), k)
  {
    var cl := s.clients[c];
    if cl.outbox != [] && CONSUMER !in s.held {
      var m := cl.outbox[0];
      OnTheWire(schema, m, s.stale);
      MentionsTail(cl.outbox, k);
      var s2 := s.(clients := s.clients[c := cl.(outbox := cl.outbox[1..])],
                   stale := Received(s.stale, PyOdWrite(m).value));
      assert Seen(schema, s2, k) == Seen(schema, s, k);
      StoreKeeps(schema, s2, m, CONSUMER, s.count <= 1, k);
    }
  }

  lemma {:induction false} StepKeeps(schema: Schema, s: System, a: Action, k: Key)
    requires Inv(schema, s, k) && Allowed(Seen(schema, s, k), a) && !Overlaps(s, a, k)
    ensures Inv(schema, Step(schema, s, a), k)
  {
    match a
    case CanWrite(th, w, raw) =>
      if th != CONSUMER && th !in s.held {
        StoreKeeps(schema, s, OdWrite(w.0, w.1, raw), th, false, k);
      }
    case Publish(th) => PublishKeeps(schema, s, th, k);
    case _ =>
      if a.c < |s.clients| {
        ClientStepKeeps(schema, s, a, k);
      }
  }

  lemma {:induction false} ClientStepKeeps(schema: Schema, s: System, a: Action, k: Key)
    requires Inv(schema, s, k) && Allowed(Seen(schema, s, k), a) && !Overlaps(s, a, k)
    requires !a.CanWrite? && !a.Publish? && a.c < |s.clients|
    ensures Inv(schema, Step(schema, s, a), k)
  {
    var cl, view := s.clients[a.c], Seen(schema, s, k);
    match a
    case Write(c, w, v) =>
      WriteKeeps(view, cl, w, v);
      OneClient(schema, s, c, ClientWrites(schema, cl, w, v), k);
    case Resend(c, w) =>
      ResendKeeps(view, cl, w);
      OneClient(schema, s, c, ClientResends(schema, cl, w), k);
    case Send(c, i) =>
      SendKeeps(view, cl, i);
      OneClient(schema, s, c, ClientSends(cl, i), k);
    case Consume(c) => ConsumeKeeps(schema, s, c, k);
    case Receive(c) =>
      ReceiveKeeps(view, cl);
      OneClient(schema, s, c, ClientReceives(schema, cl), k);
  }

  /** In no step of the run does one daemon thread store the entry while another has still to broadcast it. */
  predicate Apart(schema: Schema, s: System, actions: seq<Action>, k: Key)
    requires |s.stale| == MSG_MAX_LEN
    decreases |actions|
  {
    actions == [] || (!Overlaps(s, actions[0], k) && Apart(schema, Step(schema, s, actions[0]), actions[1..], k))
  }

  /** No client writes the entry. */
  predicate Untouched(actions: seq<Action>, k: Key) {
    forall i :: 0 <= i < |actions| && (actions[i].Write? || actions[i].Resend?) ==> actions[i].k != k
  }

  lemma {:induction false} RunKeeps(schema: Schema, s: System, actions: seq<Action>, k: Key)
    requires Inv(schema, s, k) && Apart(schema, s, actions, k)
    requires s.count >= 2 || Untouched(actions, k)
    ensures Inv(schema, Run(schema, s, actions), k)
    decreases |actions|
  {
    if actions != [] {
      StepKeeps(schema, s, actions[0], k);
      RunKeeps(schema, Step(schema, s, actions[0]), actions[1..], k);
    }
  }

  // ---------------------------------------------------------------- convergence

  /** Nothing of the client is left to send or to receive. */
  predicate Quiet(cl: Client) {
    cl.pending == [] && cl.outbox == [] && cl.inbox == []
  }

  /** The claim for one start, one run, one client and one broadcasting entry: if the client is quiet and the
      daemon has broadcast all its writes, the client holds the daemon's value exactly when its own fits the
      entry. */
  predicate Agreement(
    schema: Schema, defaults: map<Key, int>, n: nat, actions: seq<Action>, c: nat, k: Key)
  {
    Agreed(schema, defaults) && c < n && k in schema && Echoes(k) ==>
      var s := Run(schema, Start(schema, defaults, n), actions);
      Quiet(s.clients[c]) && Free(s, k) ==>
        && k in s.clients[c].local && k in s.daemon
        && (schema[k].Decode(s.daemon[k]) == Some(s.clients[c].local[k]) <==> schema[k].Fits(s.clients[c].local[k]))
  }

  lemma {:induction false} StartInv(schema: Schema, defaults: map<Key, int>, n: nat, k: Key)
    requires Agreed(schema, defaults) && k in schema && Echoes(k)
    ensures Inv(schema, Start(schema, defaults, n), k)
  {
    schema[k].DecodeEncode(defaults[k]);
  }

  /** Replica convergence, in every interleaving of client writes, re-sends, sends in any thread order, CAN
      writes, broadcasts and deliveries, as long as no two daemon threads overlap in writing the entry and the
      daemon counts two or more clients, or no client writes the entry. */
  lemma {:induction false} ReplicasConverge(
    schema: Schema, defaults: map<Key, int>, n: nat, actions: seq<Action>, c: nat, k: Key)
    requires Agreed(schema, defaults) && Apart(schema, Start(schema, defaults, n), actions, k)
    requires n % 256 >= 2 || Untouched(actions, k)
    ensures Agreement(schema, defaults, n, actions, c, k)
  {
    if c < n && k in schema && Echoes(k) {
      StartInv(schema, defaults, n, k);
      RunKeeps(schema, Start(schema, defaults, n), actions, k);
      var s := Run(schema, Start(schema, defaults, n), actions);
      assert Seen(schema, s, k).Keeps(s.clients[c]);
      schema[k].EncodeDecode(s.daemon[k]);
    }
  }

  /** Every value a client writes fits its entry's type. */
  predicate Fitting(schema: Schema, actions: seq<Action>) {
    forall i :: 0 <= i < |actions| && actions[i].Write? && actions[i].k in schema ==>
      schema[actions[i].k].Fits(actions[i].v)
  }

  /** The client's own value of the entry fits, and so does whatever it will receive. */
  predicate FitClient(schema: Schema, cl: Client, k: Key)
    requires k in schema
  {
    k in cl.local && schema[k].Fits(cl.local[k]) && Typed(schema, cl.inbox)
  }

  ghost predicate FittingInv(schema: Schema, s: System, k: Key) {
    && Known(schema) && k in schema && |s.stale| == MSG_MAX_LEN
    && (forall th :: th in s.held ==> OfType(schema, s.held[th]))
    && forall c :: 0 <= c < |s.clients| ==> FitClient(schema, s.clients[c], k)
  }

  lemma {:induction false} ReceiveKeepsFitting(schema: Schema, cl: Client, k: Key)
    requires Known(schema) && k in schema && FitClient(schema, cl, k)
    ensures FitClient(schema, ClientReceives(schema, cl), k)
  {
    if cl.inbox != [] {
      var m := cl.inbox[0];
      OnTheWire(schema, m, seq(MSG_MAX_LEN, _ => 0));
      schema[KeyOf(m)].EncodeDecode(m.data);
    }
  }

  lemma {:induction false} StoreKeepsFitting(schema: Schema, s: System, m: OdWrite, th: nat, direct: bool, k: Key)
    requires FittingInv(schema, s, k)
    ensures FittingInv(schema, Store(schema, s, m, th, direct), k)
  {}

  lemma {:induction false} ConsumeKeepsFitting(schema: Schema, s: System, c: nat, k: Key)
    requires FittingInv(schema, s, k) && c < |s.clients|
    ensures FittingInv(schema, DaemonConsumes(schema, s, c), k)
  {
    var cl := s.clients[c];
    if cl.outbox != [] && PyOdWrite(cl.outbox[0]).Ok? {
      var raw := PyOdWrite(cl.outbox[0]).value;
      var m := COdWrite(s.stale, raw);
      if m.Some? {
        StoreKeepsFitting(
          schema, s.(clients := s.clients[c := cl.(outbox := cl.outbox[1..])], stale := Received(s.stale, raw)),
          m.value, CONSUMER, s.count <= 1, k);
      }
    }
  }

  lemma {:induction false} StepKeepsFitting(schema: Schema, s: System, a: Action, k: Key)
    requires FittingInv(schema, s, k) && Fitting(schema, [a])
    ensures FittingInv(schema, Step(schema, s, a), k)
  {
    assert [a][0] == a;
    match a
    case Consume(c) =>
      if c < |s.clients| {
        ConsumeKeepsFitting(schema, s, c, k);
      }
    case CanWrite(th, w, raw) => StoreKeepsFitting(schema, s, OdWrite(w.0, w.1, raw), th, false, k);
    case Receive(c) =>
      if c < |s.clients| {
        ReceiveKeepsFitting(schema, s.clients[c], k);
      }
    case Publish(th) =>
    case _ =>
  }

  lemma {:induction false} RunKeepsFitting(schema: Schema, s: System, actions: seq<Action>, k: Key)
    requires FittingInv(schema, s, k) && Fitting(schema, actions)
    ensures FittingInv(schema, Run(schema, s, actions), k)
    decreases |actions|
  {
    if actions != [] {
      assert Fitting(schema, [actions[0]]) && Fitting(schema, actions[1..]);
      StepKeepsFitting(schema, s, actions[0], k);
      RunKeepsFitting(schema, Step(schema, s, actions[0]), actions[1..], k);
    }
  }

  /** When clients write only values that fit, quiet clients hold the daemon's value outright, in the runs of
      `ReplicasConverge`. */
  lemma {:induction false} FittingReplicasAgree(
    schema: Schema, defaults: map<Key, int>, n: nat, actions: seq<Action>, c: nat, k: Key)
    requires Agreed(schema, defaults) && Apart(schema, Start(schema, defaults, n), actions, k)
    requires n % 256 >= 2 || Untouched(actions, k)
    requires Fitting(schema, actions) && c < n && k in schema && Echoes(k)
    ensures var s := Run(schema, Start(schema, defaults, n), actions);
            Quiet(s.clients[c]) && Free(s, k) ==>
              && k in s.clients[c].local && k in s.daemon
              && schema[k].Decode(s.daemon[k]) == Some(s.clients[c].local[k])
  {
    ReplicasConverge(schema, defaults, n, actions, c, k);
    RunKeepsFitting(schema, Start(schema, defaults, n), actions, k);
  }

  // ---------------------------------------------------------------- where values come from

  /** The values an action gives to the entry. */
  function Given(schema: Schema, a: Action, k: Key): set<int>
    requires k in schema
  {
    match a
    case Write(_, w, v) => if w == k then {v} else {}
    case CanWrite(_, w, raw) =>
      if w == k && schema[k].Decode(raw).Some? then {schema[k].Decode(raw).value} else {}
    case _ => {}
  }

  function Origins(schema: Schema, origins: set<int>, actions: seq<Action>, k: Key): set<int>
    requires k in schema
    decreases |actions|
  {
    if actions == [] then origins else Origins(schema, origins + Given(schema, actions[0], k), actions[1..], k)
  }

  lemma {:induction false} OriginsAre(schema: Schema, origins: set<int>, actions: seq<Action>, k: Key, v: int)
    requires k in schema
    ensures v in Origins(schema, origins, actions, k)
            <==> v in origins || exists i :: 0 <= i < |actions| && v in Given(schema, actions[i], k)
    decreases |actions|
  {
    if actions != [] {
      OriginsAre(schema, origins + Given(schema, actions[0], k), actions[1..], k, v);
      assert forall i :: 0 <= i < |actions| - 1 ==> actions[1..][i] == actions[i + 1];
      if i :| 0 <= i < |actions| && v in Given(schema, actions[i], k) {
        assert i == 0 || v in Given(schema, actions[1..][i - 1], k);
      }
    }
  }

  /** The messages are of their entries' types, and those of the entry carry values of the set. */
  predicate Carry(schema: Schema, ms: seq<OdWrite>, k: Key, vs: set<int>) {
    forall i :: 0 <= i < |ms| ==> OfType(schema, ms[i]) && Carries(schema, ms[i], k, vs)
  }

  predicate Carries(schema: Schema, m: OdWrite, k: Key, vs: set<int>)
    requires OfType(schema, m)
  {
    KeyOf(m) == k ==> schema[k].Decode(m.data).value in vs
  }

  predicate ClientFrom(schema: Schema, cl: Client, k: Key, vs: set<int>) {
    && k in cl.local && cl.local[k] in vs
    && Carry(schema, cl.pending, k, vs) && Carry(schema, cl.outbox, k, vs) && Carry(schema, cl.inbox, k, vs)
  }

  /** Every value of the entry, wherever it is held or on its way, is one of the set. */
  ghost predicate AllFrom(schema: Schema, s: System, k: Key, vs: set<int>) {
    && Known(schema) && k in schema && |s.stale| == MSG_MAX_LEN
    && k in s.daemon && |s.daemon[k]| == schema[k].size && schema[k].Decode(s.daemon[k]).value in vs
    && (forall th :: th in s.held ==> OfType(schema, s.held[th]) && Carries(schema, s.held[th], k, vs))
    && forall c :: 0 <= c < |s.clients| ==> ClientFrom(schema, s.clients[c], k, vs)
  }

  /** What the monitor thread re-sends is the local value, if it fits the entry; nothing else changes. */
  lemma {:induction false} ResendSendsLocal(schema: Schema, cl: Client, k: Key)
    requires k in schema && k in cl.local
    ensures var cl1, v := ClientResends(schema, cl, k), cl.local[k];
            && cl1 == cl.(pending := cl1.pending)
            && (!schema[k].Fits(v) ==> cl1.pending == cl.pending)
            && (schema[k].Fits(v) ==>
                  && |cl1.pending| == |cl.pending| + 1 && cl1.pending[..|cl.pending|] == cl.pending
                  && KeyOf(cl1.pending[|cl.pending|]) == k
                  && schema[k].Decode(cl1.pending[|cl.pending|].data) == Some(v))
  {
    if schema[k].Fits(cl.local[k]) {
      schema[k].DecodeEncode(cl.local[k]);
    }
  }

  /** A write is stored, and queued for sending with the value written if it fits the entry. */
  lemma {:induction false} WriteSendsValue(schema: Schema, cl: Client, k: Key, v: int)
    requires k in schema && k in cl.local
    ensures var cl1 := ClientWrites(schema, cl, k, v);
            && cl1 == cl.(local := cl.local[k := v], pending := cl1.pending)
            && (!schema[k].Fits(v) ==> cl1.pending == cl.pending)
            && (schema[k].Fits(v) ==>
                  && |cl1.pending| == |cl.pending| + 1 && cl1.pending[..|cl.pending|] == cl.pending
                  && KeyOf(cl1.pending[|cl.pending|]) == k
                  && schema[k].Decode(cl1.pending[|cl.pending|].data) == Some(v))
  {
    if schema[k].Fits(v) {
      schema[k].DecodeEncode(v);
    }
  }

  lemma {:induction false} CarrySnoc(schema: Schema, ms: seq<OdWrite>, m: OdWrite, k: Key, vs: set<int>)
    requires Carry(schema, ms, k, vs) && OfType(schema, m) && Carries(schema, m, k, vs)
    ensures Carry(schema, ms + [m], k, vs)
  {}

  lemma {:induction false} ClientStepFrom(schema: Schema, cl: Client, a: Action, k: Key, vs: set<int>)
    requires Known(schema) && k in schema && ClientFrom(schema, cl, k, vs) && Given(schema, a, k) <= vs
    ensures a.Write? ==> ClientFrom(schema, ClientWrites(schema, cl, a.k, a.v), k, vs)
    ensures a.Resend? ==> ClientFrom(schema, ClientResends(schema, cl, a.k), k, vs)
    ensures a.Send? ==> ClientFrom(schema, ClientSends(cl, a.i), k, vs)
    ensures a.Receive? ==> ClientFrom(schema, ClientReceives(schema, cl), k, vs)
  {
    if a.Write? && a.k in schema && a.k in cl.local {
      WriteSendsValue(schema, cl, a.k, a.v);
    } else if a.Resend? && a.k in schema && a.k in cl.local {
      ResendSendsLocal(schema, cl, a.k);
    } else if a.Send? && a.i < |cl.pending| {
      CarrySnoc(schema, cl.outbox, cl.pending[a.i], k, vs);
    } else if a.Receive? && cl.inbox != [] {
      assert OfType(schema, cl.inbox[0]) && Carries(schema, cl.inbox[0], k, vs);
      OnTheWire(schema, cl.inbox[0], seq(MSG_MAX_LEN, _ => 0));
    }
  }

  lemma {:induction false} StoreFrom(schema: Schema, s: System, m: OdWrite, th: nat, direct: bool, k: Key, vs: set<int>)
    requires AllFrom(schema, s, k, vs) && (OfType(schema, m) ==> Carries(schema, m, k, vs))
    ensures AllFrom(schema, Store(schema, s, m, th, direct), k, vs)
  {}

  lemma {:induction false} PublishFrom(schema: Schema, s: System, th: nat, k: Key, vs: set<int>)
    requires AllFrom(schema, s, k, vs)
    ensures AllFrom(schema, Broadcasts(s, th), k, vs)
  {
    if th in s.held {
      forall c | 0 <= c < |s.clients|
        ensures ClientFrom(schema, Broadcasts(s, th).clients[c], k, vs)
      {
        CarrySnoc(schema, s.clients[c].inbox, s.held[th], k, vs);
      }
    }
  }

  lemma {:induction false} ConsumeFrom(schema: Schema, s: System, c: nat, k: Key, vs: set<int>)
    requires AllFrom(schema, s, k, vs) && c < |s.clients|
    ensures AllFrom(schema, DaemonConsumes(schema, s, c), k, vs)
  {
    var cl := s.clients[c];
    if cl.outbox != [] && CONSUMER !in s.held {
      var m := cl.outbox[0];
      assert OfType(schema, m) && Carries(schema, m, k, vs);
      OnTheWire(schema, m, s.stale);
      var s2 := s.(clients := s.clients[c := cl.(outbox := cl.outbox[1..])],
                   stale := Received(s.stale, PyOdWrite(m).value));
      assert AllFrom(schema, s2, k, vs);
      StoreFrom(schema, s2, m, CONSUMER, s.count <= 1, k, vs);
    }
  }

  lemma {:induction false} StepFrom(schema: Schema, s: System, a: Action, k: Key, vs: set<int>)
    requires AllFrom(schema, s, k, vs) && Given(schema, a, k) <= vs
    ensures AllFrom(schema, Step(schema, s, a), k, vs)
  {
    if a.CanWrite? {
      StoreFrom(schema, s, OdWrite(a.k.0, a.k.1, a.raw), a.th, false, k, vs);
    } else if a.Publish? {
      PublishFrom(schema, s, a.th, k, vs);
    } else if a.c < |s.clients| {
      if a.Consume? {
        ConsumeFrom(schema, s, a.c, k, vs);
      } else {
        ClientStepFrom(schema, s.clients[a.c], a, k, vs);
      }
    }
  }

  lemma {:induction false} MoreOrigins(schema: Schema, s: System, k: Key, vs: set<int>, more: set<int>)
    requires AllFrom(schema, s, k, vs) && vs <= more
    ensures AllFrom(schema, s, k, more)
  {
    forall c | 0 <= c < |s.clients|
      ensures ClientFrom(schema, s.clients[c], k, more)
    {
      assert ClientFrom(schema, s.clients[c], k, vs);
    }
  }

  lemma {:induction false} RunFrom(schema: Schema, s: System, actions: seq<Action>, k: Key, vs: set<int>)
    requires AllFrom(schema, s, k, vs)
    ensures AllFrom(schema, Run(schema, s, actions), k, Origins(schema, vs, actions, k))
    decreases |actions|
  {
    if actions != [] {
      var more := vs + Given(schema, actions[0], k);
      MoreOrigins(schema, s, k, vs, more);
      StepFrom(schema, s, actions[0], k, more);
      RunFrom(schema, Step(schema, s, actions[0]), actions[1..], k, more);
    }
  }

  /** Provenance: in every run, the daemon's value of an entry, every client's value and every value on its way
      is the default, or one that some client write or CAN write of the run gave to that entry. */
  lemma {:induction false} ValuesAreGiven(
    schema: Schema, defaults: map<Key, int>, n: nat, actions: seq<Action>, k: Key)
    requires Agreed(schema, defaults) && k in schema
    ensures var s := Run(schema, Start(schema, defaults, n), actions);
            AllFrom(schema, s, k, Origins(schema, {defaults[k]}, actions, k))
  {
    schema[k].DecodeEncode(defaults[k]);
    RunFrom(schema, Start(schema, defaults, n), actions, k, {defaults[k]});
  }

  /** A store gives the entry exactly the bytes written, when their number is right, and leaves the thread with
      a broadcast exactly when the index is 0x4000 or above and the write does not bypass the extension. */
  lemma {:induction false} StoreMeans(schema: Schema, s: System, m: OdWrite, th: nat, direct: bool)
    requires Known(schema) && th !in s.held
    ensures var t := Store(schema, s, m, th, direct);
            && t.clients == s.clients && t.count == s.count && t.stale == s.stale
            && (if KeyOf(m) in schema && KeyOf(m) in s.daemon && |m.data| == schema[KeyOf(m)].size
                then && t.daemon == s.daemon[KeyOf(m) := m.data]
                     && t.held == (if !direct && m.index >= 0x4000 then s.held[th := m] else s.held)
                else t == s)
  {
    if KeyOf(m) in schema && |m.data| == schema[KeyOf(m)].size {
      OnTheWire(schema, m, seq(MSG_MAX_LEN, _ => 0));
    }
  }

  /** What the daemon does with a client's message: it is stored, and echoed unless at most one client counts. */
  lemma {:induction false} ConsumeMeans(schema: Schema, s: System, c: nat)
    requires Known(schema) && |s.stale| == MSG_MAX_LEN && c < |s.clients| && CONSUMER !in s.held
    requires s.clients[c].outbox != [] && OfType(schema, s.clients[c].outbox[0])
    requires KeyOf(s.clients[c].outbox[0]) in s.daemon
    ensures var t, m := DaemonConsumes(schema, s, c), s.clients[c].outbox[0];
            && t.daemon == s.daemon[KeyOf(m) := m.data]
            && t.clients == s.clients[c := s.clients[c].(outbox := s.clients[c].outbox[1..])]
            && t.held == if s.count >= 2 && m.index >= 0x4000 then s.held[CONSUMER := m] else s.held
  {
    OnTheWire(schema, s.clients[c].outbox[0], s.stale);
  }

  /** What a client does with a broadcast of an entry it knows: it takes over the value sent. */
  lemma {:induction false} ReceiveMeans(schema: Schema, cl: Client)
    requires Known(schema) && cl.inbox != [] && OfType(schema, cl.inbox[0])
    ensures var cl1, m := ClientReceives(schema, cl), cl.inbox[0];
            && cl1 == cl.(inbox := cl.inbox[1..], local := cl1.local)
            && cl1.local == if KeyOf(m) in cl.local
                            then cl.local[KeyOf(m) := schema[KeyOf(m)].Decode(m.data).value] else cl.local
  {
    OnTheWire(schema, cl.inbox[0], seq(MSG_MAX_LEN, _ => 0));
  }

  // ---------------------------------------------------------------- the channels

  /** What the daemon broadcasts in a run, in order. */
  function Cast(schema: Schema, s: System, actions: seq<Action>): seq<OdWrite>
    requires |s.stale| == MSG_MAX_LEN
    decreases |actions|
  {
    if actions == [] then []
    else
      (if actions[0].Publish? && actions[0].th in s.held then [s.held[actions[0].th]] else [])
      + Cast(schema, Step(schema, s, actions[0]), actions[1..])
  }

  /** How many broadcasts a client takes, and how many of its messages the daemon takes. */
  function Taken(schema: Schema, s: System, actions: seq<Action>, c: nat, byDaemon: bool): nat
    requires |s.stale| == MSG_MAX_LEN && c < |s.clients|
    decreases |actions|
  {
    if actions == [] then 0
    else
      var a, cl := actions[0], s.clients[c];
      (if byDaemon then
         if a.Consume? && a.c == c && cl.outbox != [] && CONSUMER !in s.held then 1 else 0
       else if a.Receive? && a.c == c && cl.inbox != [] then 1 else 0)
      + Taken(schema, Step(schema, s, a), actions[1..], c, byDaemon)
  }

  /** What a client sends in a run, in order. */
  function SentBy(schema: Schema, s: System, actions: seq<Action>, c: nat): seq<OdWrite>
    requires |s.stale| == MSG_MAX_LEN && c < |s.clients|
    decreases |actions|
  {
    if actions == [] then []
    else
      var a, cl := actions[0], s.clients[c];
      (if a.Send? && a.c == c && a.i < |cl.pending| then [cl.pending[a.i]] else [])
      + SentBy(schema, Step(schema, s, a), actions[1..], c)
  }

  /** One step of a client's two channels. */
  lemma {:induction false} StepMoves(schema: Schema, s: System, a: Action, c: nat)
    requires |s.stale| == MSG_MAX_LEN && c < |s.clients|
    ensures var t, cl := Step(schema, s, a), s.clients[c];
            var cast := if a.Publish? && a.th in s.held then [s.held[a.th]] else [];
            var sent := if a.Send? && a.c == c && a.i < |cl.pending| then [cl.pending[a.i]] else [];
            var received := a.Receive? && a.c == c && cl.inbox != [];
            var consumed := a.Consume? && a.c == c && cl.outbox != [] && CONSUMER !in s.held;
            && t.clients[c].inbox == (if received then cl.inbox[1..] else cl.inbox + cast)
            && t.clients[c].outbox == (if consumed then cl.outbox[1..] else cl.outbox + sent)
  {
    var cl := s.clients[c];
    assert cl.inbox + [] == cl.inbox && cl.outbox + [] == cl.outbox;
    if a.Consume? && a.c < |s.clients| && s.clients[a.c].outbox != [] && CONSUMER !in s.held {
      ConsumeMoves(schema, s, a.c);
    }
  }

  lemma {:induction false} ConsumeMoves(schema: Schema, s: System, c: nat)
    requires |s.stale| == MSG_MAX_LEN && c < |s.clients| && s.clients[c].outbox != [] && CONSUMER !in s.held
    ensures DaemonConsumes(schema, s, c).clients == s.clients[c := s.clients[c].(outbox := s.clients[c].outbox[1..])]
  {}

  lemma {:induction false} Queue(q: seq<OdWrite>, added: seq<OdWrite>, taken: bool, more: seq<OdWrite>, n: nat)
    requires taken ==> q != [] && added == []
    requires var q1 := if taken then q[1..] else q + added; n <= |q1 + more|
    ensures var q1, m := if taken then q[1..] else q + added, if taken then n + 1 else n;
            m <= |q + (added + more)| && (q1 + more)[n..] == (q + (added + more))[m..]
  {
    if taken {
      assert q == [q[0]] + q[1..] && [] + more == more;
      assert q + more == [q[0]] + (q[1..] + more);
    } else {
      assert q + added + more == q + (added + more);
    }
  }

  lemma {:induction false} InboxIsFifo(schema: Schema, s: System, actions: seq<Action>, c: nat)
    requires |s.stale| == MSG_MAX_LEN && c < |s.clients|
    ensures var casts, received := s.clients[c].inbox + Cast(schema, s, actions), Taken(schema, s, actions, c, false);
            received <= |casts| && Run(schema, s, actions).clients[c].inbox == casts[received..]
    decreases |actions|
  {
    var cl := s.clients[c];
    if actions == [] {
      assert cl.inbox + [] == cl.inbox;
    } else {
      var a, rest := actions[0], actions[1..];
      var s1 := Step(schema, s, a);
      StepMoves(schema, s, a, c);
      InboxIsFifo(schema, s1, rest, c);
      Queue(cl.inbox, if a.Publish? && a.th in s.held then [s.held[a.th]] else [],
            a.Receive? && a.c == c && cl.inbox != [], Cast(schema, s1, rest), Taken(schema, s1, rest, c, false));
    }
  }

  lemma {:induction false} OutboxIsFifo(schema: Schema, s: System, actions: seq<Action>, c: nat)
    requires |s.stale| == MSG_MAX_LEN && c < |s.clients|
    ensures var sents := s.clients[c].outbox + SentBy(schema, s, actions, c);
            var consumed := Taken(schema, s, actions, c, true);
            consumed <= |sents| && Run(schema, s, actions).clients[c].outbox == sents[consumed..]
    decreases |actions|
  {
    var cl := s.clients[c];
    if actions == [] {
      assert cl.outbox + [] == cl.outbox;
    } else {
      var a, rest := actions[0], actions[1..];
      var s1 := Step(schema, s, a);
      StepMoves(schema, s, a, c);
      OutboxIsFifo(schema, s1, rest, c);
      Queue(cl.outbox, if a.Send? && a.c == c && a.i < |cl.pending| then [cl.pending[a.i]] else [],
            a.Consume? && a.c == c && cl.outbox != [] && CONSUMER !in s.held,
            SentBy(schema, s1, rest, c), Taken(schema, s1, rest, c, true));
    }
  }

  /** Both channels are first-in first-out and lose nothing: after any run a client has yet to receive what was
      broadcast, less what it has taken from the front, and the daemon has yet to consume what the client sent,
      less what it has taken. */
  lemma {:induction false} ChannelsAreFifo(schema: Schema, s: System, actions: seq<Action>, c: nat)
    requires |s.stale| == MSG_MAX_LEN && c < |s.clients|
    ensures var t, cl := Run(schema, s, actions), s.clients[c];
            var casts, received := cl.inbox + Cast(schema, s, actions), Taken(schema, s, actions, c, false);
            var sents, consumed := cl.outbox + SentBy(schema, s, actions, c), Taken(schema, s, actions, c, true);
            && received <= |casts| && t.clients[c].inbox == casts[received..]
            && consumed <= |sents| && t.clients[c].outbox == sents[consumed..]
  {
    InboxIsFifo(schema, s, actions, c);
    OutboxIsFifo(schema, s, actions, c);
  }

  /** A send takes exactly one message from those that wait. */
  lemma {:induction false} SendMovesOne(cl: Client, i: nat)
    requires i < |cl.pending|
    ensures var cl1 := ClientSends(cl, i);
            && cl1 == cl.(pending := cl1.pending, outbox := cl.outbox + [cl.pending[i]])
            && multiset(cl.pending) == multiset(cl1.pending) + multiset{cl.pending[i]}
  {
    assert cl.pending == cl.pending[..i] + [cl.pending[i]] + cl.pending[i + 1..];
  }

  // ---------------------------------------------------------------- one writing thread at a time

  /** The daemon threads that may write the entry, and the pairs that some lock keeps from doing so together. */
  datatype Rules = Rules(threads: set<nat>, locks: set<(nat, nat)>) {
    predicate KeptApart(i: nat, j: nat) {
      (i, j) in locks || (j, i) in locks
    }

    /** No two of the threads can overlap. */
    predicate OneAtATime() {
      forall i, j :: i in threads && j in threads && i != j ==> KeptApart(i, j)
    }
  }

  /** The step does not let a thread store the entry while one it is kept apart from has it to broadcast. */
  predicate Allows(s: System, a: Action, k: Key, rules: Rules) {
    Storer(s, a, k).Some? ==>
      forall th :: th in s.held && KeyOf(s.held[th]) == k ==> !rules.KeptApart(Storer(s, a, k).value, th)
  }

  predicate Respects(schema: Schema, s: System, actions: seq<Action>, k: Key, rules: Rules)
    requires |s.stale| == MSG_MAX_LEN
    decreases |actions|
  {
    actions == []
    || (Allows(s, actions[0], k, rules) && Respects(schema, Step(schema, s, actions[0]), actions[1..], k, rules))
  }

  /** Only these daemon threads write the entry; the consumer thread writes it when clients do. */
  predicate Writers(actions: seq<Action>, k: Key, threads: set<nat>) {
    && (CONSUMER in threads || Untouched(actions, k))
    && forall i :: 0 <= i < |actions| && actions[i].CanWrite? && actions[i].k == k ==> actions[i].th in threads
  }

  predicate Silent(cl: Client, k: Key) {
    !Mentions(cl.pending, k) && !Mentions(cl.outbox, k)
  }

  /** Only these threads have writes of the entry to broadcast, and no client has any unless the consumer
      thread is among them. */
  ghost predicate HeldWithin(s: System, k: Key, threads: set<nat>) {
    && (forall th :: th in s.held && KeyOf(s.held[th]) == k ==> th in threads)
    && (CONSUMER !in threads ==> forall c :: 0 <= c < |s.clients| ==> Silent(s.clients[c], k))
  }

  lemma {:induction false} StaysSilent(schema: Schema, cl: Client, a: Action, k: Key)
    requires Silent(cl, k) && Untouched([a], k)
    ensures a.Write? ==> Silent(ClientWrites(schema, cl, a.k, a.v), k)
    ensures a.Resend? ==> Silent(ClientResends(schema, cl, a.k), k)
    ensures a.Send? ==> Silent(ClientSends(cl, a.i), k)
    ensures cl.outbox != [] ==> Silent(cl.(outbox := cl.outbox[1..]), k) && KeyOf(cl.outbox[0]) != k
  {
    assert [a][0] == a;
    if a.Send? && a.i < |cl.pending| {
      MentionsSnoc(cl.outbox, cl.pending[a.i], k);
    }
    if cl.outbox != [] {
      MentionsTail(cl.outbox, k);
    }
    if a.Write? && a.k in schema && schema[a.k].Fits(a.v) {
      MentionsSnoc(cl.pending, OdWrite(a.k.0, a.k.1, schema[a.k].Encode(a.v).value), k);
    }
    if a.Resend? && a.k in schema && a.k in cl.local && schema[a.k].Fits(cl.local[a.k]) {
      MentionsSnoc(cl.pending, OdWrite(a.k.0, a.k.1, schema[a.k].Encode(cl.local[a.k]).value), k);
    }
  }

  lemma {:induction false} ConsumeKeepsWithin(schema: Schema, s: System, c: nat, k: Key, threads: set<nat>)
    requires Inv(schema, s, k) && HeldWithin(s, k, threads) && c < |s.clients|
    ensures HeldWithin(DaemonConsumes(schema, s, c), k, threads)
  {
    var cl := s.clients[c];
    if cl.outbox != [] && CONSUMER !in s.held {
      var m := cl.outbox[0];
      if CONSUMER !in threads {
        StaysSilent(schema, cl, Consume(c), k);
      }
      assert Seen(schema, s, k).Good(cl);
      OnTheWire(schema, m, s.stale);
      var s2 := s.(clients := s.clients[c := cl.(outbox := cl.outbox[1..])],
                   stale := Received(s.stale, PyOdWrite(m).value));
      assert DaemonConsumes(schema, s, c) == Store(schema, s2, m, CONSUMER, s.count <= 1);
      StoreKeepsWithin(schema, s2, m, CONSUMER, s.count <= 1, k, threads);
    }
  }

  lemma {:induction false} StoreKeepsWithin(
    schema: Schema, s: System, m: OdWrite, th: nat, direct: bool, k: Key, threads: set<nat>)
    requires HeldWithin(s, k, threads) && (KeyOf(m) == k ==> th in threads)
    ensures HeldWithin(Store(schema, s, m, th, direct), k, threads)
  {}

  lemma {:induction false} StepKeepsWithin(schema: Schema, s: System, a: Action, k: Key, threads: set<nat>)
    requires Inv(schema, s, k) && HeldWithin(s, k, threads) && Writers([a], k, threads)
    ensures HeldWithin(Step(schema, s, a), k, threads)
  {
    assert [a][0] == a;
    if a.CanWrite? {
      StoreKeepsWithin(schema, s, OdWrite(a.k.0, a.k.1, a.raw), a.th, false, k, threads);
    } else if a.Publish? {
      PublishKeepsWithin(s, a.th, k, threads);
    } else if a.c < |s.clients| {
      if a.Consume? {
        ConsumeKeepsWithin(schema, s, a.c, k, threads);
      } else if CONSUMER !in threads {
        StaysSilent(schema, s.clients[a.c], a, k);
      }
    }
  }

  lemma {:induction false} PublishKeepsWithin(s: System, th: nat, k: Key, threads: set<nat>)
    requires HeldWithin(s, k, threads)
    ensures HeldWithin(Broadcasts(s, th), k, threads)
  {}

  /** Threads that are all kept apart do not overlap. */
  lemma {:induction false} TakingTurns(schema: Schema, s: System, actions: seq<Action>, k: Key, rules: Rules)
    requires Inv(schema, s, k) && HeldWithin(s, k, rules.threads) && Writers(actions, k, rules.threads)
    requires rules.OneAtATime() && Respects(schema, s, actions, k, rules)
    requires s.count >= 2 || CONSUMER !in rules.threads
    ensures Apart(schema, s, actions, k)
    decreases |actions|
  {
    if actions != [] {
      var a := actions[0];
      assert Writers([a], k, rules.threads) && Writers(actions[1..], k, rules.threads) by {
        assert [a][0] == a;
      }
      StepNotOver(schema, s, a, k, rules);
      StepKeeps(schema, s, a, k);
      StepKeepsWithin(schema, s, a, k, rules.threads);
      TakingTurns(schema, Step(schema, s, a), actions[1..], k, rules);
    }
  }

  lemma {:induction false} StepNotOver(schema: Schema, s: System, a: Action, k: Key, rules: Rules)
    requires HeldWithin(s, k, rules.threads) && Writers([a], k, rules.threads)
    requires rules.OneAtATime() && Allows(s, a, k, rules)
    ensures !Overlaps(s, a, k)
  {
    assert [a][0] == a;
    if !Free(s, k) {
      var th :| th in s.held && KeyOf(s.held[th]) == k;
      assert th in rules.threads;
      if a.Consume? && a.c < |s.clients| && s.clients[a.c].outbox != [] {
        MentionsTail(s.clients[a.c].outbox, k);
      }
    }
  }

  /** Every run from agreeing defaults in which only these threads write the entry, and no two of them together
      that are kept apart, converges. */
  ghost predicate AlwaysConverges(n: nat, rules: Rules) {
    forall schema, defaults, actions, c, k ::
      Writers(actions, k, rules.threads) && Agreed(schema, defaults)
      && Respects(schema, Start(schema, defaults, n), actions, k, rules) ==>
        Agreement(schema, defaults, n, actions, c, k)
  }

  /** An entry whose writing threads cannot overlap converges in every run. */
  lemma {:induction false} SeparateWritersConverge(
    schema: Schema, defaults: map<Key, int>, n: nat, actions: seq<Action>, c: nat, k: Key, rules: Rules)
    requires Agreed(schema, defaults) && Writers(actions, k, rules.threads) && rules.OneAtATime()
    requires Respects(schema, Start(schema, defaults, n), actions, k, rules)
    requires n % 256 >= 2 || CONSUMER !in rules.threads
    ensures Agreement(schema, defaults, n, actions, c, k)
  {
    if c < n && k in schema && Echoes(k) {
      StartInv(schema, defaults, n, k);
      TakingTurns(schema, Start(schema, defaults, n), actions, k, rules);
      ReplicasConverge(schema, defaults, n, actions, c, k);
    }
  }

  /** Corollary: an entry that a single daemon thread writes converges in every run, without any lock. */
  lemma {:induction false} SingleWriterConverges(
    schema: Schema, defaults: map<Key, int>, n: nat, actions: seq<Action>, c: nat, k: Key, threads: set<nat>)
    requires Writers(actions, k, threads) && |threads| <= 1 && (n % 256 >= 2 || CONSUMER !in threads)
    ensures Agreement(schema, defaults, n, actions, c, k)
  {
    if Agreed(schema, defaults) {
      AtMostOne(threads);
      NoLocks(schema, Start(schema, defaults, n), actions, k, threads);
      SeparateWritersConverge(schema, defaults, n, actions, c, k, Rules(threads, {}));
    }
  }

  lemma {:induction false} NoLocks(schema: Schema, s: System, actions: seq<Action>, k: Key, threads: set<nat>)
    requires |s.stale| == MSG_MAX_LEN
    ensures Respects(schema, s, actions, k, Rules(threads, {}))
    decreases |actions|
  {
    if actions != [] {
      NoLocks(schema, Step(schema, s, actions[0]), actions[1..], k, threads);
    }
  }

  lemma {:induction false} AtMostOne(threads: set<nat>)
    requires |threads| <= 1
    ensures forall x, y :: x in threads && y in threads ==> x == y
  {
    forall x, y | x in threads && y in threads
      ensures x == y
    {
      if x != y {
        assert |{x, y}| == 2;
        SubsetSize({x, y}, threads);
      }
    }
  }

  lemma {:induction false} SubsetSize(a: set<nat>, b: set<nat>)
    requires a <= b
    ensures |a| <= |b|
  {
    assert b == a + (b - a);
  }

  // ---------------------------------------------------------------- where it fails

  const SENSOR: Key := (0x4123, 2)
  const ONE_BYTE: Schema := map[SENSOR := U8]
  const ZERO: map<Key, int> := map[SENSOR := 0]

  function Setting(b: byte): OdWrite {
    OdWrite(SENSOR.0, SENSOR.1, [b])
  }

  lemma {:induction false} SettingFacts(b: byte, stale: seq<byte>)
    requires |stale| == MSG_MAX_LEN
    ensures OfType(ONE_BYTE, Setting(b)) && U8.Encode(b) == Some([b]) && U8.Decode([b]) == Some(b)
    ensures PyOdWrite(Setting(b)).Ok? && COdWrite(stale, PyOdWrite(Setting(b)).value) == Some(Setting(b))
    ensures CBroadcast(Setting(b)).Some? && PyReadOdWrite(CBroadcast(Setting(b)).value) == Some(Setting(b))
  {
    PackedByte(b);
    U8.DecodeEncode(b);
    OnTheWire(ONE_BYTE, Setting(b), stale);
  }

  lemma {:induction false} RunSnoc(schema: Schema, s: System, actions: seq<Action>, a: Action)
    requires |s.stale| == MSG_MAX_LEN
    ensures Run(schema, s, actions + [a]) == Step(schema, Run(schema, s, actions), a)
    decreases |actions|
  {
    if actions == [] {
      assert actions + [a] == [a];
      assert Run(schema, Step(schema, s, a), [a][1..]) == Step(schema, s, a);
    } else {
      assert (actions + [a])[1..] == actions[1..] + [a];
      RunSnoc(schema, Step(schema, s, actions[0]), actions[1..], a);
    }
  }

  /** A state of a one-byte system: the daemon's byte, what its threads hold, the first client, and the
      broadcasts that wait for the others, who still hold the default. */
  datatype Scene = Scene(value: byte, held: map<nat, OdWrite>, first: Client, cast: seq<OdWrite>)

  function Holding(b: byte): map<Key, int> {
    map[SENSOR := b]
  }

  predicate Shows(s: System, n: nat, x: Scene) {
    && |s.stale| == MSG_MAX_LEN && |s.clients| == n > 0 && s.count == n % 256
    && s.daemon == map[SENSOR := [x.value]] && s.held == x.held
    && s.clients[0] == x.first && SENSOR in x.first.local
    && forall c :: 1 <= c < n ==> s.clients[c] == Client(ZERO, [], [], x.cast)
  }

  /** A run of the given writers that leads to a scene. */
  ghost predicate Reaches(n: nat, rules: Rules, actions: seq<Action>, x: Scene) {
    && Agreed(ONE_BYTE, ZERO) && Writers(actions, SENSOR, rules.threads)
    && Respects(ONE_BYTE, Start(ONE_BYTE, ZERO, n), actions, SENSOR, rules)
    && Shows(Run(ONE_BYTE, Start(ONE_BYTE, ZERO, n), actions), n, x)
  }

  lemma {:induction false} StartScene(n: nat, rules: Rules)
    requires n > 0
    ensures Reaches(n, rules, [], Scene(0, map[], Client(Holding(0), [], [], []), []))
  {
    PackedByte(0);
    Spans();
  }

  lemma {:induction false} RespectsSnoc(
    schema: Schema, s: System, actions: seq<Action>, a: Action, k: Key, rules: Rules)
    requires |s.stale| == MSG_MAX_LEN
    requires Respects(schema, s, actions, k, rules) && Allows(Run(schema, s, actions), a, k, rules)
    ensures Respects(schema, s, actions + [a], k, rules)
    decreases |actions|
  {
    if actions == [] {
      assert actions + [a] == [a];
    } else {
      assert (actions + [a])[1..] == actions[1..] + [a];
      RespectsSnoc(schema, Step(schema, s, actions[0]), actions[1..], a, k, rules);
    }
  }

  /** One more step of a run. */
  lemma {:induction false} Next(n: nat, rules: Rules, actions: seq<Action>, x: Scene, a: Action, y: Scene)
    requires Reaches(n, rules, actions, x) && Writers([a], SENSOR, rules.threads)
    requires forall s :: Shows(s, n, x) ==> Shows(Step(ONE_BYTE, s, a), n, y)
    requires forall s :: Shows(s, n, x) ==> Allows(s, a, SENSOR, rules)
    ensures Reaches(n, rules, actions + [a], y)
  {
    RunSnoc(ONE_BYTE, Start(ONE_BYTE, ZERO, n), actions, a);
    RespectsSnoc(ONE_BYTE, Start(ONE_BYTE, ZERO, n), actions, a, SENSOR, rules);
    assert [a][0] == a;
  }

  function Written(x: Scene, b: byte): Scene {
    x.(first := x.first.(local := x.first.local[SENSOR := b], pending := x.first.pending + [Setting(b)]))
  }

  lemma {:induction false} WriteShows(s: System, n: nat, x: Scene, b: byte)
    requires Shows(s, n, x)
    ensures Shows(Step(ONE_BYTE, s, Write(0, SENSOR, b)), n, Written(x, b))
  {
    SettingFacts(b, s.stale);
    assert ClientWrites(ONE_BYTE, x.first, SENSOR, b) == Written(x, b).first;
  }

  lemma {:induction false} Writes(n: nat, rules: Rules, actions: seq<Action>, x: Scene, b: byte)
    requires Reaches(n, rules, actions, x) && CONSUMER in rules.threads
    ensures Reaches(n, rules, actions + [Write(0, SENSOR, b)], Written(x, b))
  {
    forall s | Shows(s, n, x)
      ensures Shows(Step(ONE_BYTE, s, Write(0, SENSOR, b)), n, Written(x, b))
    {
      WriteShows(s, n, x, b);
    }
    Next(n, rules, actions, x, Write(0, SENSOR, b), Written(x, b));
  }

  lemma {:induction false} Sends(n: nat, rules: Rules, actions: seq<Action>, x: Scene, i: nat)
    requires Reaches(n, rules, actions, x)
    ensures Reaches(n, rules, actions + [Send(0, i)], x.(first := ClientSends(x.first, i)))
  {
    Next(n, rules, actions, x, Send(0, i), x.(first := ClientSends(x.first, i)));
  }

  function Consumed(n: nat, x: Scene, b: byte): Scene
    requires x.first.outbox != []
  {
    x.(value := b, first := x.first.(outbox := x.first.outbox[1..]),
       held := if n % 256 <= 1 then x.held else x.held[CONSUMER := Setting(b)])
  }

  lemma {:induction false} ConsumeShows(s: System, n: nat, x: Scene, b: byte)
    requires Shows(s, n, x) && CONSUMER !in x.held
    requires x.first.outbox != [] && x.first.outbox[0] == Setting(b)
    ensures Shows(Step(ONE_BYTE, s, Consume(0)), n, Consumed(n, x, b))
  {
    SettingFacts(b, s.stale);
    assert map[SENSOR := [x.value]][SENSOR := [b]] == map[SENSOR := [b]];
    var s2 := s.(clients := s.clients[0 := x.first.(outbox := x.first.outbox[1..])],
                 stale := Received(s.stale, PyOdWrite(Setting(b)).value));
    assert DaemonConsumes(ONE_BYTE, s, 0) == Store(ONE_BYTE, s2, Setting(b), CONSUMER, s.count <= 1);
  }

  lemma {:induction false} Consumes(n: nat, rules: Rules, actions: seq<Action>, x: Scene, b: byte)
    requires Reaches(n, rules, actions, x) && x.held == map[]
    requires x.first.outbox != [] && x.first.outbox[0] == Setting(b)
    ensures Reaches(n, rules, actions + [Consume(0)], Consumed(n, x, b))
  {
    forall s | Shows(s, n, x)
      ensures Shows(Step(ONE_BYTE, s, Consume(0)), n, Consumed(n, x, b))
    {
      ConsumeShows(s, n, x, b);
    }
    Next(n, rules, actions, x, Consume(0), Consumed(n, x, b));
  }

  lemma {:induction false} CanShows(s: System, n: nat, x: Scene, th: nat, b: byte)
    requires Shows(s, n, x) && th != CONSUMER && th !in x.held
    ensures Shows(Step(ONE_BYTE, s, CanWrite(th, SENSOR, [b])), n, x.(value := b, held := x.held[th := Setting(b)]))
  {
    SettingFacts(b, s.stale);
    assert map[SENSOR := [x.value]][SENSOR := [b]] == map[SENSOR := [b]];
  }

  lemma {:induction false} CanStores(n: nat, rules: Rules, actions: seq<Action>, x: Scene, th: nat, b: byte)
    requires Reaches(n, rules, actions, x) && th in rules.threads && th != CONSUMER && th !in x.held
    requires forall i :: i in x.held ==> !rules.KeptApart(th, i)
    ensures Reaches(n, rules, actions + [CanWrite(th, SENSOR, [b])],
                    x.(value := b, held := x.held[th := Setting(b)]))
  {
    forall s | Shows(s, n, x)
      ensures Shows(Step(ONE_BYTE, s, CanWrite(th, SENSOR, [b])), n, x.(value := b, held := x.held[th := Setting(b)]))
    {
      CanShows(s, n, x, th, b);
    }
    Next(n, rules, actions, x, CanWrite(th, SENSOR, [b]), x.(value := b, held := x.held[th := Setting(b)]));
  }

  lemma {:induction false} Publishes(n: nat, rules: Rules, actions: seq<Action>, x: Scene, th: nat)
    requires Reaches(n, rules, actions, x) && th in x.held
    ensures Reaches(n, rules, actions + [Publish(th)],
                    x.(held := x.held - {th}, first := x.first.(inbox := x.first.inbox + [x.held[th]]),
                       cast := x.cast + [x.held[th]]))
  {
    Next(n, rules, actions, x, Publish(th),
         x.(held := x.held - {th}, first := x.first.(inbox := x.first.inbox + [x.held[th]]),
            cast := x.cast + [x.held[th]]));
  }

  function Settled(x: Scene, b: byte): Scene
    requires x.first.inbox != []
  {
    x.(first := x.first.(inbox := x.first.inbox[1..], local := x.first.local[SENSOR := b]))
  }

  lemma {:induction false} ReceiveShows(s: System, n: nat, x: Scene, b: byte)
    requires Shows(s, n, x) && x.first.inbox != [] && x.first.inbox[0] == Setting(b)
    ensures Shows(Step(ONE_BYTE, s, Receive(0)), n, Settled(x, b))
  {
    SettingFacts(b, s.stale);
    assert ClientReceives(ONE_BYTE, x.first) == Settled(x, b).first;
  }

  lemma {:induction false} Receives(n: nat, rules: Rules, actions: seq<Action>, x: Scene, b: byte)
    requires Reaches(n, rules, actions, x) && x.first.inbox != [] && x.first.inbox[0] == Setting(b)
    ensures Reaches(n, rules, actions + [Receive(0)], Settled(x, b))
  {
    forall s | Shows(s, n, x)
      ensures Shows(Step(ONE_BYTE, s, Receive(0)), n, Settled(x, b))
    {
      ReceiveShows(s, n, x, b);
    }
    Next(n, rules, actions, x, Receive(0), Settled(x, b));
  }

  /** A quiet client whose byte differs from the daemon's, with nothing left to broadcast, refutes the claim. */
  lemma {:induction false} Disagrees(n: nat, rules: Rules, actions: seq<Action>, x: Scene, c: nat, b: byte)
    requires Reaches(n, rules, actions, x) && x.held == map[] && x.value != b && c < n
    requires (if c == 0 then x.first else Client(ZERO, [], [], x.cast)) == Client(Holding(b), [], [], [])
    ensures !Agreement(ONE_BYTE, ZERO, n, actions, c, SENSOR)
  {
    var s := Run(ONE_BYTE, Start(ONE_BYTE, ZERO, n), actions);
    SettingFacts(x.value, s.stale);
    SettingFacts(b, s.stale);
    assert s.clients[c] == Client(Holding(b), [], [], []);
  }

  /** Some run of the given writers does not converge. */
  ghost predicate Diverges(n: nat, rules: Rules) {
    exists actions, c ::
      && Writers(actions, SENSOR, rules.threads) && Agreed(ONE_BYTE, ZERO)
      && Respects(ONE_BYTE, Start(ONE_BYTE, ZERO, n), actions, SENSOR, rules)
      && !Agreement(ONE_BYTE, ZERO, n, actions, c, SENSOR)
  }

  /** Client 0 sets the byte and sends its message. */
  lemma {:induction false} WritesAndSends(n: nat, rules: Rules, b: byte) returns (actions: seq<Action>)
    requires n > 0 && CONSUMER in rules.threads
    ensures Reaches(n, rules, actions, Scene(0, map[], Client(Holding(b), [], [Setting(b)], []), []))
  {
    StartScene(n, rules);
    var x := Scene(0, map[], Client(Holding(0), [], [], []), []);
    Writes(n, rules, [], x, b);
    var y := x.(first := Client(Holding(b), [Setting(b)], [], []));
    assert Holding(0)[SENSOR := b] == Holding(b) && [] + [Setting(b)] == [Setting(b)];
    actions := [] + [Write(0, SENSOR, b)];
    Sends(n, rules, actions, y, 0);
    assert [Setting(b)][..0] + [Setting(b)][1..] == [];
    actions := actions + [Send(0, 0)];
  }

  /** With several clients of which at most one is counted (256, 257, 512, ... connections on a one-byte
      counter), a single client write is enough to leave another client behind. */
  lemma {:induction false} WrappedCounterDiverges(n: nat, rules: Rules)
    requires n >= 2 && n % 256 <= 1 && CONSUMER in rules.threads
    ensures Diverges(n, rules)
  {
    var actions := WritesAndSends(n, rules, 1);
    var x := Scene(0, map[], Client(Holding(1), [], [Setting(1)], []), []);
    Consumes(n, rules, actions, x, 1);
    assert [Setting(1)][1..] == [];
    Disagrees(n, rules, actions + [Consume(0)], Scene(1, map[], Client(Holding(1), [], [], []), []), 1, 0);
  }

  /** Two threads of one client write 1 and then 2. */
  lemma {:induction false} WritesTwice(rules: Rules) returns (actions: seq<Action>)
    requires CONSUMER in rules.threads
    ensures Reaches(1, rules, actions, Scene(0, map[], Client(Holding(2), [Setting(1), Setting(2)], [], []), []))
  {
    StartScene(1, rules);
    Writes(1, rules, [], Scene(0, map[], Client(Holding(0), [], [], []), []), 1);
    assert Holding(0)[SENSOR := 1] == Holding(1) && [] + [Setting(1)] == [Setting(1)];
    var a1 := [] + [Write(0, SENSOR, 1)];
    Writes(1, rules, a1, Scene(0, map[], Client(Holding(1), [Setting(1)], [], []), []), 2);
    assert Holding(1)[SENSOR := 2] == Holding(2) && [Setting(1)] + [Setting(2)] == [Setting(1), Setting(2)];
    actions := a1 + [Write(0, SENSOR, 2)];
  }

  /** They reach their sends the other way round. */
  lemma {:induction false} SendsSwapped(rules: Rules) returns (actions: seq<Action>)
    requires CONSUMER in rules.threads
    ensures Reaches(1, rules, actions, Scene(0, map[], Client(Holding(2), [], [Setting(2), Setting(1)], []), []))
  {
    var a1 := WritesTwice(rules);
    var local := Holding(2);
    Sends(1, rules, a1, Scene(0, map[], Client(local, [Setting(1), Setting(2)], [], []), []), 1);
    SecondSent(local, Setting(1), Setting(2));
    var a2 := a1 + [Send(0, 1)];
    Sends(1, rules, a2, Scene(0, map[], Client(local, [Setting(1)], [Setting(2)], []), []), 0);
    actions := a2 + [Send(0, 0)];
  }

  lemma {:induction false} SecondSent(local: map<Key, int>, a: OdWrite, b: OdWrite)
    ensures ClientSends(Client(local, [a, b], [], []), 1) == Client(local, [a], [b], [])
    ensures ClientSends(Client(local, [a], [b], []), 0) == Client(local, [], [b, a], [])
  {
    assert [a, b][..1] + [a, b][2..] == [a] && [] + [b] == [b];
    assert [a][..0] + [a][1..] == [] && [b] + [a] == [b, a];
  }

  /** With a single client and no CAN write at all, sends in the other order are enough: nothing is echoed. */
  lemma {:induction false} SwappedSendsDiverge(rules: Rules)
    requires CONSUMER in rules.threads
    ensures Diverges(1, rules)
  {
    var a1 := SendsSwapped(rules);
    var x := Scene(0, map[], Client(Holding(2), [], [Setting(2), Setting(1)], []), []);
    Consumes(1, rules, a1, x, 2);
    assert [Setting(2), Setting(1)][1..] == [Setting(1)] && [Setting(1)][1..] == [];
    var a2 := a1 + [Consume(0)];
    Consumes(1, rules, a2, Scene(2, map[], Client(Holding(2), [], [Setting(1)], []), []), 1);
    Disagrees(1, rules, a2 + [Consume(0)], Scene(1, map[], Client(Holding(2), [], [], []), []), 0, 2);
  }

  /** A CAN write of 0 is stored and broadcast while a client's message is on its way. */
  lemma {:induction false} Crosses(rules: Rules, th: nat) returns (actions: seq<Action>)
    requires CONSUMER in rules.threads && th in rules.threads && th != CONSUMER
    ensures Reaches(1, rules, actions,
                    Scene(0, map[], Client(Holding(1), [], [Setting(1)], [Setting(0)]), [Setting(0)]))
  {
    var a1 := WritesAndSends(1, rules, 1);
    var x := Scene(0, map[], Client(Holding(1), [], [Setting(1)], []), []);
    CanStores(1, rules, a1, x, th, 0);
    var a2 := a1 + [CanWrite(th, SENSOR, [0])];
    Publishes(1, rules, a2, x.(held := map[th := Setting(0)]), th);
    assert map[th := Setting(0)] - {th} == map[] && [] + [Setting(0)] == [Setting(0)];
    actions := a2 + [Publish(th)];
  }

  /** With a single client whose sends keep their order, a CAN write that crosses a client write leaves the
      client behind, whatever is locked. */
  lemma {:induction false} SingleClientDiverges(rules: Rules, th: nat)
    requires CONSUMER in rules.threads && th in rules.threads && th != CONSUMER
    ensures Diverges(1, rules)
  {
    var a1 := Crosses(rules, th);
    Consumes(1, rules, a1, Scene(0, map[], Client(Holding(1), [], [Setting(1)], [Setting(0)]), [Setting(0)]), 1);
    assert [Setting(1)][1..] == [];
    var a2 := a1 + [Consume(0)];
    Receives(1, rules, a2, Scene(1, map[], Client(Holding(1), [], [], [Setting(0)]), [Setting(0)]), 0);
    assert [Setting(0)][1..] == [] && Holding(1)[SENSOR := 0] == Holding(0);
    Disagrees(1, rules, a2 + [Receive(0)], Scene(1, map[], Client(Holding(0), [], [], []), [Setting(0)]), 0, 0);
  }

  /** One daemon thread has stored 1; before it broadcasts, another stores and broadcasts 0. */
  lemma {:induction false} Overtaken(n: nat, rules: Rules, a0: seq<Action>, i: nat, j: nat, b: byte)
    returns (actions: seq<Action>)
    requires j in rules.threads && i != j && j != CONSUMER && !rules.KeptApart(i, j)
    requires Reaches(n, rules, a0, Scene(1, map[i := Setting(1)], Client(Holding(b), [], [], []), []))
    ensures Reaches(n, rules, actions,
                    Scene(0, map[i := Setting(1)], Client(Holding(b), [], [], [Setting(0)]), [Setting(0)]))
  {
    CanStores(n, rules, a0, Scene(1, map[i := Setting(1)], Client(Holding(b), [], [], []), []), j, 0);
    var a1 := a0 + [CanWrite(j, SENSOR, [0])];
    var both := map[i := Setting(1)][j := Setting(0)];
    Publishes(n, rules, a1, Scene(0, both, Client(Holding(b), [], [], []), []), j);
    assert both - {j} == map[i := Setting(1)] && [] + [Setting(0)] == [Setting(0)];
    actions := a1 + [Publish(j)];
  }

  /** The first thread then broadcasts 1, and a client settles on 1 while the daemon holds 0. */
  lemma {:induction false} SettlesLate(n: nat, rules: Rules, a0: seq<Action>, i: nat, b: byte)
    requires Reaches(n, rules, a0,
                     Scene(0, map[i := Setting(1)], Client(Holding(b), [], [], [Setting(0)]), [Setting(0)]))
    ensures Diverges(n, rules)
  {
    Publishes(n, rules, a0,
              Scene(0, map[i := Setting(1)], Client(Holding(b), [], [], [Setting(0)]), [Setting(0)]), i);
    assert map[i := Setting(1)] - {i} == map[] && [Setting(0)] + [Setting(1)] == [Setting(0), Setting(1)];
    ReceivesBoth(n, rules, a0 + [Publish(i)], b);
  }

  lemma {:induction false} ReceivesBoth(n: nat, rules: Rules, a1: seq<Action>, b: byte)
    requires var late := [Setting(0), Setting(1)];
             Reaches(n, rules, a1, Scene(0, map[], Client(Holding(b), [], [], late), late))
    ensures Diverges(n, rules)
  {
    var late := [Setting(0), Setting(1)];
    Receives(n, rules, a1, Scene(0, map[], Client(Holding(b), [], [], late), late), 0);
    assert late[1..] == [Setting(1)] && Holding(b)[SENSOR := 0] == Holding(0);
    var a2 := a1 + [Receive(0)];
    Receives(n, rules, a2, Scene(0, map[], Client(Holding(0), [], [], [Setting(1)]), late), 1);
    assert [Setting(1)][1..] == [] && Holding(0)[SENSOR := 1] == Holding(1);
    Disagrees(n, rules, a2 + [Receive(0)], Scene(0, map[], Client(Holding(1), [], [], []), late), 0, 1);
  }

  /** Two daemon threads that both write the entry, and that nothing keeps apart, are enough: storing and
      broadcasting are two steps. */
  lemma {:induction false} OverlappingWritersDiverge(n: nat, rules: Rules, i: nat, j: nat)
    requires n > 0 && i in rules.threads && j in rules.threads && i != j && j != CONSUMER
    requires !rules.KeptApart(i, j)
    requires i == CONSUMER ==> n % 256 >= 2
    ensures Diverges(n, rules)
  {
    if i == CONSUMER {
      var a1 := WritesAndSends(n, rules, 1);
      Consumes(n, rules, a1, Scene(0, map[], Client(Holding(1), [], [Setting(1)], []), []), 1);
      assert [Setting(1)][1..] == [] && map[][CONSUMER := Setting(1)] == map[CONSUMER := Setting(1)];
      var a2 := Overtaken(n, rules, a1 + [Consume(0)], i, j, 1);
      SettlesLate(n, rules, a2, i, 1);
    } else {
      StartScene(n, rules);
      CanStores(n, rules, [], Scene(0, map[], Client(Holding(0), [], [], []), []), i, 1);
      assert map[][i := Setting(1)] == map[i := Setting(1)];
      var a2 := Overtaken(n, rules, [] + [CanWrite(i, SENSOR, [1])], i, j, 0);
      SettlesLate(n, rules, a2, i, 0);
    }
  }

  /** Exactly when: every run of the given daemon threads, under the given locks, converges if and only if there
      is nobody to disagree, or any two of the threads that write the entry are kept apart and, if the consumer
      thread is one of them, the one-byte counter shows two clients or more. */
  lemma {:induction false} ConvergenceCondition(n: nat, rules: Rules)
    ensures AlwaysConverges(n, rules)
            <==> n == 0 || (rules.OneAtATime() && (CONSUMER in rules.threads ==> n % 256 >= 2))
  {
    if n == 0 {
      NobodyDisagrees(rules);
    } else if rules.OneAtATime() && (CONSUMER in rules.threads ==> n % 256 >= 2) {
      AllConverge(n, rules);
    } else {
      SomeRunDiverges(n, rules);
      DivergenceRefutes(n, rules);
    }
  }

  lemma {:induction false} NobodyDisagrees(rules: Rules)
    ensures AlwaysConverges(0, rules)
  {}

  lemma {:induction false} SomeRunDiverges(n: nat, rules: Rules)
    requires n > 0 && (!rules.OneAtATime() || (CONSUMER in rules.threads && n % 256 <= 1))
    ensures Diverges(n, rules)
  {
    if CONSUMER in rules.threads && n == 1 {
      SwappedSendsDiverge(rules);
    } else if CONSUMER in rules.threads && n % 256 <= 1 {
      WrappedCounterDiverges(n, rules);
    } else {
      var i, j :| i in rules.threads && j in rules.threads && i != j && !rules.KeptApart(i, j);
      if j == CONSUMER {
        OverlappingWritersDiverge(n, rules, j, i);
      } else {
        OverlappingWritersDiverge(n, rules, i, j);
      }
    }
  }

  lemma {:induction false} DivergenceRefutes(n: nat, rules: Rules)
    requires Diverges(n, rules)
    ensures !AlwaysConverges(n, rules)
  {
    var actions, c :|
      && Writers(actions, SENSOR, rules.threads) && Agreed(ONE_BYTE, ZERO)
      && Respects(ONE_BYTE, Start(ONE_BYTE, ZERO, n), actions, SENSOR, rules)
      && !Agreement(ONE_BYTE, ZERO, n, actions, c, SENSOR);
  }

  lemma {:induction false} AllConverge(n: nat, rules: Rules)
    requires rules.OneAtATime() && (CONSUMER in rules.threads ==> n % 256 >= 2)
    ensures AlwaysConverges(n, rules)
  {
    forall schema, defaults, actions, c, k |
        Writers(actions, k, rules.threads) && Agreed(schema, defaults)
        && Respects(schema, Start(schema, defaults, n), actions, k, rules)
      ensures Agreement(schema, defaults, n, actions, c, k)
    {
      SeparateWritersConverge(schema, defaults, n, actions, c, k, rules);
    }
  }

  /** And where it works: with two or more counted clients, a write that nobody crosses comes back to its writer
      as an echo, and the daemon and the writer hold it. */
  lemma {:induction false} WriteComesBack(n: nat, rules: Rules, b: byte) returns (actions: seq<Action>)
    requires n % 256 >= 2 && CONSUMER in rules.threads
    ensures Reaches(n, rules, actions, Scene(b, map[], Client(Holding(b), [], [], []), [Setting(b)]))
  {
    var a1 := WritesAndSends(n, rules, b);
    Consumes(n, rules, a1, Scene(0, map[], Client(Holding(b), [], [Setting(b)], []), []), b);
    assert [Setting(b)][1..] == [] && map[][CONSUMER := Setting(b)] == map[CONSUMER := Setting(b)];
    var a2 := a1 + [Consume(0)];
    Publishes(n, rules, a2, Scene(b, map[CONSUMER := Setting(b)], Client(Holding(b), [], [], []), []), CONSUMER);
    assert map[CONSUMER := Setting(b)] - {CONSUMER} == map[] && [] + [Setting(b)] == [Setting(b)];
    var a3 := a2 + [Publish(CONSUMER)];
    Receives(n, rules, a3, Scene(b, map[], Client(Holding(b), [], [], [Setting(b)]), [Setting(b)]), b);
    assert Holding(b)[SENSOR := b] == Holding(b);
    actions := a3 + [Receive(0)];
  }

  // ---------------------------------------------------------------- the code of each party

  /** NodeClientBase, as far as the dictionary goes. */
  class NodeClient {
    const schema: Schema
    var data: map<Key, int>

    constructor (schema: Schema, defaults: map<Key, int>)
      requires Agreed(schema, defaults)
      ensures this.schema == schema && data == defaults
    {
      this.schema, this.data := schema, defaults;
    }

    /** The client of the model that holds this data and has nothing in its channels. */
    function Idle(): Client
      reads this
    {
      Client(data, [], [], [])
    }

    /** od_write: what it stores, and the bytes it sends unless an exception stops it. */
    method OdWrite(k: Key, v: int) returns (sent: Option<seq<byte>>)
      requires Known(schema)
      modifies this
      ensures data == ClientWrites(schema, old(Idle()), k, v).local
      ensures var queued := ClientWrites(schema, old(Idle()), k, v).pending;
              if queued == [] then sent == None
              else PyOdWrite(queued[0]).Ok? && sent == Some(PyOdWrite(queued[0]).value)
    {
      sent := None;
      if k in schema && k in data {
        data := data[k := v];
        var raw := schema[k].Encode(v);
        if raw.Some? {
          var m := Wire.OdWrite(k.0, k.1, raw.value);
          OnTheWire(schema, m, seq(MSG_MAX_LEN, _ => 0));
          sent := Some(PyOdWrite(m).value);
        }
      }
    }

    /** The monitor thread's re-send of one entry: the bytes it sends are those of the local value. */
    method Resend(k: Key) returns (sent: Option<seq<byte>>)
      requires Known(schema)
      ensures sent.Some? <==> k in schema && k in data && schema[k].Fits(data[k])
      ensures sent.Some? ==>
                var m := PyReadOdWrite(sent.value);
                m.Some? && KeyOf(m.value) == k && schema[k].Decode(m.value.data) == Some(data[k])
    {
      sent := None;
      if k in schema && k in data {
        var raw := schema[k].Encode(data[k]);
        if raw.Some? {
          var m := Wire.OdWrite(k.0, k.1, raw.value);
          schema[k].DecodeEncode(data[k]);
          OnTheWire(schema, m, seq(MSG_MAX_LEN, _ => 0));
          IndexBytes(m.index);
          OdLayout(m);
          sent := Some(PyOdWrite(m).value);
          assert PyOdWrite(m).value == CBroadcast(m).value;
        }
      }
    }

    /** The OD-write branch of _consume_thread_run. */
    method ConsumeOne(raw: seq<byte>)
      modifies this
      ensures data == Learn(schema, old(data), PyReadOdWrite(raw))
    {
      var m := PyReadOdWrite(raw);
      if m.Some? && KeyOf(m.value) in schema && KeyOf(m.value) in data {
        var v := schema[KeyOf(m.value)].Decode(m.value.data);
        if v.Some? && v.value != data[KeyOf(m.value)] {
          data := data[KeyOf(m.value) := v.value];
        }
      }
    }
  }

  /** The daemon's dictionary, client counter and receive buffer. */
  class Daemon {
    const schema: Schema
    var od: map<Key, seq<byte>>
    var clients: byte
    var buffer: seq<byte>
    var held: map<nat, Wire.OdWrite>     // the local variables of the threads inside ipc_broadcast_data

    constructor (schema: Schema, od: map<Key, seq<byte>>)
      ensures this.schema == schema && this.od == od && clients == 0 && buffer == seq(MSG_MAX_LEN, _ => 0)
      ensures held == map[]
    {
      this.schema, this.od, clients, buffer, held := schema, od, 0, seq(MSG_MAX_LEN, _ => 0), map[];
    }

    /** The daemon of the model, watched by one client that receives whatever it broadcasts. */
    function Watched(): System
      reads this
    {
      System(od, clients, buffer, held, [Client(map[], [], [], [])])
    }

    /** A connection event of the monitor socket; the counter wraps. */
    method ClientEvent(connected: bool)
      modifies `clients
      ensures clients == (if connected then old(clients) + 1 else old(clients) + 255) % 256
    {
      if connected {
        clients := if clients == 255 then 0 else clients + 1;
      } else {
        clients := if clients == 0 then 255 else clients - 1;
      }
    }

    /** The store: OD_writeOriginal, called by ipc_broadcast_data, or directly by OD_set_value's bypass. */
    method StoreValue(m: Wire.OdWrite, th: nat, direct: bool)
      modifies `od, `held
      ensures Watched() == Store(schema, old(Watched()), m, th, direct)
    {
      var k := KeyOf(m);
      if k in schema && k in od && |m.data| == schema[k].size {
        od := od[k := m.data];
        if !direct && Echoes(k) && CBroadcast(m).Some? {
          held := held[th := m];
        }
      }
    }

    /** The rest of ipc_broadcast_data, which any other thread may precede: the message is sent. */
    method SendHeld(th: nat) returns (sent: Option<seq<byte>>)
      modifies `held
      ensures var t := Broadcasts(old(Watched()), th);
              && Watched() == t.(clients := Watched().clients)
              && (sent.Some? ==> th in old(held) && sent == CBroadcast(old(held)[th]))
              && (sent.Some? ==> t.clients[0].inbox == [old(held)[th]])
              && (sent.None? ==> th !in old(held) || CBroadcast(old(held)[th]).None?)
    {
      sent := None;
      if th in held {
        sent := CBroadcast(held[th]);
        held := held - {th};
      }
    }

    /** ipc_consume_process on an OD-write message, up to the broadcast. */
    method ConsumeOdWrite(raw: seq<byte>)
      requires |buffer| == MSG_MAX_LEN
      modifies this
      ensures var s, m := old(Watched()), COdWrite(old(buffer), raw);
              var s1 := s.(stale := Received(s.stale, raw));
              Watched() == if m.None? then s1 else Store(schema, s1, m.value, CONSUMER, s.count <= 1)
    {
      var m := COdWrite(buffer, raw);
      buffer := Received(buffer, raw);
      if m.Some? {
        StoreValue(m.value, CONSUMER, clients <= 1);
      }
    }
  }
}
