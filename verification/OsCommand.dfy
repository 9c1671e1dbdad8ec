/** The OS command object of src/od_extensions/os_command_ext.c: a CAN-side writer and reader and a worker
    thread share a status byte, a command buffer and a reply buffer without a lock. */
module OsCommand {
  import opened Base
  import opened Segments

  const COMMAND_LEN := 4096
  const REPLY_LEN := 10024

  datatype Status = NoErrorNoReply | NoErrorReply | ErrorNoReply | ErrorReply | Executing

  /** Where the writer stands inside one call of os_command_write. */
  datatype Writer =
    | WIdle
    | WCopy(seg: seq<byte>)     // the status test has passed
    | WTerminate(len: nat)      // the last segment is in the buffer
    | WPublish                  // the terminator is in the buffer

  /** Where the worker stands inside one turn of os_command_thread. */
  datatype Worker =
    | KSleep
    | KCheck                                            // it has seen EXECUTING
    | KSpawn                                            // the command is not empty
    | KRead(text: seq<byte>, out: seq<byte>, i: nat)    // run_bash_command's loop
    | KTerminate(text: seq<byte>, out: seq<byte>)       // the loop has ended
    | KReport(text: seq<byte>, out: seq<byte>)
    | KTail(out: seq<byte>)                             // status is set, the last store is not made yet
    | KClear(text: seq<byte>)                           // popen failed
    | KFail(text: seq<byte>)

  /** What an observer notes down: never read by the code. */
  datatype History = History(
    received: seq<byte>,               // the segments of the current write transfer
    accepted: seq<seq<byte>>,          // command texts handed to the worker
    finished: seq<seq<byte>>,          // command texts the worker is done with
    output: Option<seq<byte>>,         // what the last command that reported success printed
    longest: nat,                      // the most any command has printed
    clean: bool,                       // the read in progress began on NO_ERROR_REPLY, nothing accepted since
    got: seq<byte>,                    // the chunks of the current read transfer
    whole: Option<seq<byte>>)          // all of them, once the transfer has ended OK

  datatype State = State(
    status: Status, command: seq<byte>, reply: seq<byte>, overrun: bool,
    wcursor: Cursor, writer: Writer, rcursor: Cursor, worker: Worker, h: History)

  /** One atomic step of the writer, the reader or the worker. */
  datatype Action =
    | WBegin(length: nat)
    | WSegment(seg: seq<byte>)
    | WStep
    | RBegin
    | RSegment(count: nat)
    | KStep(spawned: Option<seq<byte>>)    // what popen would give if this step calls it

  function Store(buf: seq<byte>, i: nat, b: byte): seq<byte> {
    if i < |buf| then buf[i := b] else buf
  }

  function Next(s: State, a: Action): (t: State)
    requires |s.command| == COMMAND_LEN
    ensures |t.command| == COMMAND_LEN
  {
    match a
    case WBegin(n) => if s.writer.WIdle? then s.(wcursor := Cursor(0, n), h := s.h.(received := [])) else s
    case WSegment(seg) =>
      if !s.writer.WIdle? || s.status == Executing then s      // DATA_LOC_CTRL
      else s.(writer := WCopy(seg))
    case WStep => WriterStep(s)
    case RBegin => s.(rcursor := Cursor(0, 0))
    case RSegment(count) => ReadReply(s, count)
    case KStep(spawned) => WorkerStep(s, spawned)
  }

  function WriterStep(s: State): State
    requires |s.command| == COMMAND_LEN
  {
    match s.writer
    case WIdle => s
    case WCopy(seg) =>
      var o := WriteStep(s.wcursor, s.command, COMMAND_LEN - 1, seg);
      var before := if s.wcursor.offset == 0 then [] else s.h.received;
      s.(command := o.buffer, wcursor := o.cursor,
         writer := if o.code == OK then WTerminate(o.written.GetOr(0)) else WIdle,
         h := s.h.(received := if o.code == OK || o.code == PARTIAL then before + seg else []))
    case WTerminate(n) => s.(command := Store(s.command, n, NUL), writer := WPublish)
    case WPublish =>
      s.(status := Executing, writer := WIdle,
         h := s.h.(accepted := s.h.accepted + [CText(s.h.received)], clean := false))
  }

  function ReadReply(s: State, count: nat): State {
    var s1 := if s.rcursor.offset == 0
              then s.(h := s.h.(clean := s.status == NoErrorReply, got := [], whole := None)) else s;
    if s.reply == [] || s.reply[0] == NUL then s1      // NO_DATA
    else
      var o := ReadStep(s.rcursor, CText(s.reply) + [NUL], count);
      var got := s1.h.got + (if o.chunk.Some? then o.chunk.value else []);
      s1.(rcursor := o.cursor, h := s1.h.(got := got, whole := if o.code == OK then Some(got) else None))
  }

  function WorkerStep(s: State, spawned: Option<seq<byte>>): State {
    match s.worker
    case KSleep => if s.status == Executing then s.(worker := KCheck) else s
    case KCheck =>
      if CText(s.command) == [] then Finish(s, [], ErrorNoReply) else s.(worker := KSpawn)
    case KSpawn =>
      if spawned.None? then s.(worker := KClear(CText(s.command)))
      else s.(worker := KRead(CText(s.command), spawned.value, 0))
    case KRead(text, out, i) =>
      if i >= |out| || i > REPLY_LEN - 1 then s.(worker := KTerminate(text, out))
      else s.(reply := Store(s.reply, i, out[i]), worker := KRead(text, out, i + 1))
    case KTerminate(text, out) =>
      var end := if |out| < REPLY_LEN then |out| else REPLY_LEN;
      s.(reply := Store(s.reply, end, NUL), overrun := s.overrun || end >= REPLY_LEN, worker := KReport(text, out),
         h := s.h.(longest := if |out| > s.h.longest then |out| else s.h.longest))
    case KReport(text, out) =>
      // run_bash_command's result counts the terminator, so it is never zero
      var s1 := Finish(s, text, NoErrorReply);
      s1.(worker := KTail(out), h := s1.h.(output := Some(out)))
    case KTail(out) =>
      var end := if |out| < REPLY_LEN then |out| else REPLY_LEN;
      s.(reply := Store(s.reply, end, NUL), worker := KSleep)
    case KClear(text) => s.(reply := Store(s.reply, 0, NUL), worker := KFail(text), h := s.h.(output := None))
    case KFail(text) => Finish(s, text, ErrorNoReply)
  }

  function Finish(s: State, text: seq<byte>, status: Status): State {
    s.(status := status, worker := KSleep, h := s.h.(finished := s.h.finished + [text]))
  }

  function Initial(): State {
    State(ErrorNoReply, seq(COMMAND_LEN, _ => 0), seq(REPLY_LEN, _ => 0), false,
          Cursor(0, 0), WIdle, Cursor(0, 0), KSleep, History([], [], [], None, 0, false, [], None))
  }

  // ---------------------------------------------------------------- the invariant

  predicate Busy(k: Worker) {
    !k.KSleep? && !k.KTail?
  }

  /** The text the worker has taken, once it has taken one. */
  predicate Holds(k: Worker, text: seq<byte>) {
    match k
    case KRead(t, _, _) => t == text
    case KTerminate(t, _) => t == text
    case KReport(t, _) => t == text
    case KClear(t) => t == text
    case KFail(t) => t == text
    case _ => true
  }

  /** The status byte is the hand-off: the writer is inside a call only outside EXECUTING, the worker only
      inside it; every accepted text but the one being executed is finished. */
  predicate HandOff(s: State) {
    && |s.command| == COMMAND_LEN
    && (s.writer != WIdle ==> s.status != Executing)
    && (Busy(s.worker) ==> s.status == Executing)
    && s.h.accepted == s.h.finished + (if s.status == Executing then [CText(s.command)] else [])
    && Holds(s.worker, CText(s.command))
  }

  /** The write transfer: what has been received is what is in the buffer. */
  predicate Receiving(s: State) {
    && |s.command| == COMMAND_LEN
    && (s.wcursor.offset > 0 ==>
          && s.status != Executing && !s.writer.WTerminate? && !s.writer.WPublish?
          && s.wcursor.offset < s.wcursor.length < COMMAND_LEN
          && s.h.received == s.command[..s.wcursor.offset])
    && (s.writer.WTerminate? ==> s.writer.len < COMMAND_LEN && s.h.received == s.command[..s.writer.len])
    && (s.writer.WPublish? ==> CText(s.command) == CText(s.h.received))
  }

  /** The reply buffer holds a text with its terminator. */
  predicate ReplyIs(s: State, out: seq<byte>) {
    |s.reply| == REPLY_LEN && (|out| < REPLY_LEN ==> s.reply[..|out|] == out && s.reply[|out|] == NUL)
  }

  predicate Replying(s: State) {
    && |s.reply| == REPLY_LEN
    && (s.overrun <==> s.h.longest >= REPLY_LEN)
    && s.status in {NoErrorReply, ErrorNoReply, Executing}
    && (s.status == NoErrorReply ==> s.h.output.Some? && ReplyIs(s, s.h.output.value))
    && (match s.worker
        case KRead(_, out, i) => i <= |out| && i <= REPLY_LEN && s.reply[..i] == out[..i]
        case KTerminate(_, out) => |out| < REPLY_LEN ==> s.reply[..|out|] == out
        case KReport(_, out) => ReplyIs(s, out)
        case KTail(out) => ReplyIs(s, out)
        case _ => true)
  }

  /** An output that the reply buffer holds with its terminator, and that reads as a text at all. */
  predicate Printable(out: seq<byte>) {
    out != [] && out[0] != NUL && |out| < REPLY_LEN
  }

  /** What a read of the reply delivers of an output: its text and a terminator. */
  function ReplyText(out: seq<byte>): seq<byte> {
    CText(out) + [NUL]
  }

  predicate Reading(s: State) {
    s.h.clean ==>
      && s.status == NoErrorReply && s.h.output.Some?
      && (Printable(s.h.output.value) ==>
            var text := ReplyText(s.h.output.value);
            && (s.rcursor.offset > 0 ==>
                  s.rcursor.offset < |text| == s.rcursor.length && s.h.got == text[..s.rcursor.offset])
            && (s.h.whole.Some? ==> s.h.whole.value == text))
      && (|s.h.output.value| < REPLY_LEN && !Printable(s.h.output.value) ==> s.rcursor.offset == 0 && s.h.whole == None)
  }

  predicate Inv(s: State) {
    HandOff(s) && Receiving(s) && Replying(s) && Reading(s)
  }

  lemma {:induction false} WriterKeepsInv(s: State)
    requires Inv(s)
    ensures Inv(WriterStep(s))
  {
    match s.writer
    case WIdle =>
    case WCopy(seg) => CopyKeepsInv(s);
    case WTerminate(n) =>
      var s1 := WriterStep(s);
      assert s1.command == s.h.received + [NUL] + s.command[n + 1..];
      CTextOfReceived(s.h.received, s.command[n + 1..]);
    case WPublish =>
  }

  lemma {:induction false} CTextOfReceived(p: seq<byte>, rest: seq<byte>)
    ensures CText(p + [NUL] + rest) == CText(p)
  {
    if NUL in p {
      assert p + [NUL] + rest == p + ([NUL] + rest);
      CTextIgnoresTail(p, [NUL] + rest);
    } else {
      CTextWhole(p);
      CTextOfTerminated(p, rest);
    }
  }

  lemma {:induction false} CopyKeepsInv(s: State)
    requires Inv(s) && s.writer.WCopy?
    ensures Inv(WriterStep(s))
  {
    CopyReceives(s);
    var s1 := WriterStep(s);
    assert HandOff(s1) && Replying(s1) && Reading(s1);
  }

  lemma {:induction false} CopyReceives(s: State)
    requires Receiving(s) && s.writer.WCopy? && s.status != Executing
    ensures Receiving(WriterStep(s))
  {
    var seg, c := s.writer.seg, s.wcursor;
    var o := WriteStep(c, s.command, COMMAND_LEN - 1, seg);
    if o.code == PARTIAL || o.code == OK {
      Extended(s.command, c.offset, seg);
      assert s.command[..0] == [];
    }
  }

  lemma {:induction false} Extended(buf: seq<byte>, at: nat, seg: seq<byte>)
    requires at + |seg| <= |buf|
    ensures Overwrite(buf, at, seg)[..at + |seg|] == buf[..at] + seg
  {}

  /** One read of a text extends the prefix delivered so far. */
  lemma {:induction false} ReadExtends(c: Cursor, text: seq<byte>, count: nat)
    requires c.offset == 0 || (c.offset < |text| && c.length == |text|)
    ensures var o := ReadStep(c, text, count);
            && o.chunk.Some? && o.cursor.length == |text|
            && (o.code == OK ==> o.cursor.offset == 0 && text[..c.offset] + o.chunk.value == text)
            && (o.code != OK ==> o.code == PARTIAL && o.cursor.offset < |text|
                                 && text[..c.offset] + o.chunk.value == text[..o.cursor.offset])
  {}

  lemma {:induction false} ReaderKeepsInv(s: State, count: nat)
    requires Inv(s)
    ensures Inv(ReadReply(s, count))
  {
    var s1 := ReadReply(s, count);
    ReaderFrame(s, count);
    if s1.h.clean && Printable(s.h.output.value) {
      ReaderDelivers(s, count, s.h.output.value);
    } else if s1.h.clean && |s.h.output.value| < REPLY_LEN {
      assert s.reply[0] == NUL by {
        assert s.h.output.value != [] ==> s.reply[..|s.h.output.value|][0] == s.h.output.value[0];
      }
    }
  }

  lemma {:induction false} ReaderFrame(s: State, count: nat)
    requires HandOff(s) && Receiving(s) && Replying(s)
    ensures HandOff(ReadReply(s, count)) && Receiving(ReadReply(s, count)) && Replying(ReadReply(s, count))
  {
    var t := ReadReply(s, count);
    assert t == s.(rcursor := t.rcursor, h := t.h);
    assert t.h == s.h.(clean := t.h.clean, got := t.h.got, whole := t.h.whole);
  }

  lemma {:induction false} ReaderDelivers(s: State, count: nat, out: seq<byte>)
    requires ReplyIs(s, out) && Printable(out)
    requires s.rcursor.offset > 0 ==>
               s.rcursor.offset < |ReplyText(out)| == s.rcursor.length && s.h.got == ReplyText(out)[..s.rcursor.offset]
    ensures var s1, text := ReadReply(s, count), ReplyText(out);
            && (s1.rcursor.offset > 0 ==>
                  s1.rcursor.offset < |text| == s1.rcursor.length && s1.h.got == text[..s1.rcursor.offset])
            && (s1.h.whole.Some? ==> s1.h.whole.value == text)
  {
    assert s.reply == out + [NUL] + s.reply[|out| + 1..];
    CTextOfReceived(out, s.reply[|out| + 1..]);
    assert s.reply[0] == out[0];
    ReadExtends(s.rcursor, ReplyText(out), count);
  }

  lemma {:induction false} WorkerKeepsInv(s: State, spawned: Option<seq<byte>>)
    requires Inv(s)
    ensures Inv(WorkerStep(s, spawned))
  {
    WorkerKeepsHandOff(s, spawned);
    WorkerKeepsReply(s, spawned);
    WorkerKeepsReading(s, spawned);
  }

  lemma {:induction false} WorkerKeepsHandOff(s: State, spawned: Option<seq<byte>>)
    requires HandOff(s) && Receiving(s)
    ensures HandOff(WorkerStep(s, spawned)) && Receiving(WorkerStep(s, spawned))
  {
    WorkerFrame(s, spawned);
    if s.status == Executing && WorkerStep(s, spawned).status == Executing {
      StaysBusy(s, spawned);
    }
  }

  lemma {:induction false} WorkerFrame(s: State, spawned: Option<seq<byte>>)
    ensures var t := WorkerStep(s, spawned);
            && t.command == s.command && t.wcursor == s.wcursor && t.writer == s.writer && t.rcursor == s.rcursor
            && t.h == s.h.(finished := t.h.finished, output := t.h.output, longest := t.h.longest)
            && (s.status != Executing ==> t.status == s.status || Busy(s.worker))
  {}

  lemma {:induction false} WorkerKeepsReading(s: State, spawned: Option<seq<byte>>)
    requires HandOff(s) && Reading(s)
    ensures Reading(WorkerStep(s, spawned))
  {
    WorkerFrame(s, spawned);
  }

  lemma {:induction false} WorkerKeepsReply(s: State, spawned: Option<seq<byte>>)
    requires HandOff(s) && Replying(s)
    ensures Replying(WorkerStep(s, spawned))
  {
    match s.worker
    case KRead(text, out, i) => ReadKeepsReply(s, spawned);
    case KTerminate(text, out) => TerminateKeepsReply(s, spawned);
    case KTail(out) =>
      if |out| < REPLY_LEN {
        StoredEnd(s.reply, out);
      }
    case _ =>
  }

  lemma {:induction false} ReadKeepsReply(s: State, spawned: Option<seq<byte>>)
    requires HandOff(s) && Replying(s) && s.worker.KRead?
    ensures Replying(WorkerStep(s, spawned))
  {
    var out, i := s.worker.out, s.worker.i;
    if i < |out| && i < REPLY_LEN {
      StoredNext(s.reply, out, i);
    } else {
      assert |out| < REPLY_LEN ==> out[..i] == out;
    }
  }

  lemma {:induction false} TerminateKeepsReply(s: State, spawned: Option<seq<byte>>)
    requires HandOff(s) && Replying(s) && s.worker.KTerminate?
    ensures Replying(WorkerStep(s, spawned))
  {
    var out := s.worker.out;
    if |out| < REPLY_LEN {
      StoredEnd(s.reply, out);
    }
  }

  lemma {:induction false} StoredNext(reply: seq<byte>, out: seq<byte>, i: nat)
    requires i < |out| && i < |reply| && reply[..i] == out[..i]
    ensures Store(reply, i, out[i])[..i + 1] == out[..i + 1]
  {
    assert out[..i + 1] == out[..i] + [out[i]];
    assert reply[i := out[i]][..i + 1] == reply[..i] + [out[i]];
  }

  lemma {:induction false} StoredEnd(reply: seq<byte>, out: seq<byte>)
    requires |out| < |reply| && reply[..|out|] == out
    ensures Store(reply, |out|, NUL)[..|out|] == out && Store(reply, |out|, NUL)[|out|] == NUL
  {
    assert reply[|out| := NUL][..|out|] == reply[..|out|];
  }

  lemma {:induction false} NextKeepsInv(s: State, a: Action)
    requires Inv(s)
    ensures Inv(Next(s, a))
  {
    match a
    case WBegin(n) =>
    case WSegment(seg) =>
    case WStep => WriterKeepsInv(s);
    case RBegin =>
    case RSegment(count) => ReaderKeepsInv(s, count);
    case KStep(spawned) => WorkerKeepsInv(s, spawned);
  }

  /** The state after some actions, in any interleaving of the three parties. */
  function Run(s: State, actions: seq<Action>): (t: State)
    requires |s.command| == COMMAND_LEN
    ensures |t.command| == COMMAND_LEN
    decreases |actions|
  {
    if actions == [] then s else Run(Next(s, actions[0]), actions[1..])
  }

  lemma {:induction false} RunKeepsInv(s: State, actions: seq<Action>)
    requires Inv(s)
    ensures Inv(Run(s, actions))
    decreases |actions|
  {
    if actions != [] {
      NextKeepsInv(s, actions[0]);
      RunKeepsInv(Next(s, actions[0]), actions[1..]);
    }
  }

  lemma {:induction false} InitialInv()
    ensures Inv(Initial())
  {}

  // ---------------------------------------------------------------- what every run guarantees

  function After(actions: seq<Action>): (t: State)
    ensures |t.command| == COMMAND_LEN
  {
    Run(Initial(), actions)
  }

  lemma {:induction false} AfterInv(actions: seq<Action>)
    ensures Inv(After(actions))
  {
    InitialInv();
    RunKeepsInv(Initial(), actions);
  }

  /** Exclusive and lossless hand-off: in every interleaving, no step changes the command while it is being
      executed; the texts the worker is done with are the texts accepted, in order, each once, all but the
      one in execution; and the worker's copy of the text is that one. */
  lemma {:induction false} CommandHandOff(actions: seq<Action>, a: Action)
    ensures var s := After(actions);
            && (s.status == Executing ==> Next(s, a).command == s.command)
            && s.h.finished <= s.h.accepted
            && |s.h.accepted| == |s.h.finished| + (if s.status == Executing then 1 else 0)
            && (s.status == Executing ==>
                  && CText(s.command) == s.h.accepted[|s.h.accepted| - 1]
                  && Holds(s.worker, CText(s.command)))
  {
    AfterInv(actions);
  }

  /** A text is accepted only by the step that completes a transfer, and it is the text of the segments of
      that transfer, however they were cut. */
  lemma {:induction false} AcceptedIsReceived(actions: seq<Action>, a: Action)
    ensures var s, t := After(actions), Next(After(actions), a);
            && (t.h.accepted != s.h.accepted ==>
                  && s.writer.WPublish? && a.WStep? && t.status == Executing
                  && t.h.accepted == s.h.accepted + [CText(s.h.received)]
                  && CText(t.command) == CText(s.h.received))
            && (t.status == Executing && s.status != Executing ==> t.h.accepted != s.h.accepted)
  {
    AfterInv(actions);
    NextKeepsInv(After(actions), a);
  }

  /** Reply integrity: a read that began on NO_ERROR_REPLY and ended before another command was accepted has
      delivered exactly the text of what the last command printed, with its terminator, for every output
      shorter than the buffer; if that text is empty, the read has delivered nothing. */
  lemma {:induction false} ReplyIntegrity(actions: seq<Action>)
    ensures var s := After(actions);
            s.h.clean && s.h.whole.Some? ==>
              && s.status == NoErrorReply && s.h.output.Some?
              && (|s.h.output.value| < REPLY_LEN ==>
                    s.h.whole.value == CText(s.h.output.value) + [NUL] && CText(s.h.output.value) != [])
              && (|s.h.output.value| < REPLY_LEN && NUL !in s.h.output.value ==>
                    s.h.whole.value == s.h.output.value + [NUL])
  {
    AfterInv(actions);
    var s := After(actions);
    if s.h.clean && s.h.whole.Some? && |s.h.output.value| < REPLY_LEN && NUL !in s.h.output.value {
      CTextWhole(s.h.output.value);
    }
  }

  function Reads(counts: seq<nat>): seq<Action> {
    seq(|counts|, i requires 0 <= i < |counts| => RSegment(counts[i]))
  }

  /** A read in progress, with text left to deliver. */
  predicate HalfRead(s: State, text: seq<byte>) {
    && s.reply != [] && s.reply[0] != NUL && CText(s.reply) + [NUL] == text && s.h.clean
    && 0 < s.rcursor.offset < |text| == s.rcursor.length && s.h.got == text[..s.rcursor.offset]
  }

  lemma {:induction false} ReadsDeliver(s: State, text: seq<byte>, counts: seq<nat>) returns (n: nat)
    requires |s.command| == COMMAND_LEN && HalfRead(s, text) && s.rcursor.offset + Sum(counts) >= |text|
    ensures n <= |counts| && Run(s, Reads(counts[..n])).h.whole == Some(text)
    decreases |counts|
  {
    var o := ReadStep(s.rcursor, text, counts[0]);
    var s1 := Next(s, RSegment(counts[0]));
    ReadExtends(s.rcursor, text, counts[0]);
    if o.code == OK {
      n := 1;
      assert Reads(counts[..1]) == [RSegment(counts[0])] + [];
      RunCons(s, RSegment(counts[0]), []);
    } else {
      var m := ReadsDeliver(s1, text, counts[1..]);
      n := m + 1;
      assert Reads(counts[..n]) == [RSegment(counts[0])] + Reads(counts[1..][..m]);
      RunCons(s, RSegment(counts[0]), Reads(counts[1..][..m]));
    }
  }

  /** A reply can be read: after any run that ended in NO_ERROR_REPLY with a text to report, a read that nobody
      disturbs delivers it with its terminator as soon as there has been room for all of it, and counts as one
      that began on that status. */
  lemma {:induction false} ReplyDelivered(actions: seq<Action>, counts: seq<nat>) returns (n: nat)
    requires var s := After(actions);
             && s.status == NoErrorReply && s.h.output.Some? && Printable(s.h.output.value)
             && Sum(counts) > |CText(s.h.output.value)|
    requires counts != [] && counts[0] > 0
    ensures n <= |counts|
    ensures var s := After(actions);
            Run(s, [RBegin] + Reads(counts[..n])).h.whole == Some(CText(s.h.output.value) + [NUL])
  {
    AfterInv(actions);
    var s := After(actions);
    var out := s.h.output.value;
    ReplyReads(s, out);
    n := ReadsFromStart(Next(s, RBegin), ReplyText(out), counts);
    RunCons(s, RBegin, Reads(counts[..n]));
  }

  lemma {:induction false} ReadsFromStart(s0: State, text: seq<byte>, counts: seq<nat>) returns (n: nat)
    requires |s0.command| == COMMAND_LEN && s0.reply != [] && s0.reply[0] != NUL && CText(s0.reply) + [NUL] == text
    requires s0.status == NoErrorReply && s0.rcursor.offset == 0
    requires counts != [] && counts[0] > 0 && Sum(counts) >= |text|
    ensures n <= |counts| && Run(s0, Reads(counts[..n])).h.whole == Some(text)
  {
    ReadExtends(s0.rcursor, text, counts[0]);
    var s1 := Next(s0, RSegment(counts[0]));
    assert text[..0] == [] && [] + text == text && [] + text[..s1.rcursor.offset] == text[..s1.rcursor.offset];
    if ReadStep(s0.rcursor, text, counts[0]).code == OK {
      n := 1;
      assert Reads(counts[..1]) == [RSegment(counts[0])] + [];
      RunCons(s0, RSegment(counts[0]), []);
    } else {
      var m := ReadsDeliver(s1, text, counts[1..]);
      n := m + 1;
      assert Reads(counts[..n]) == [RSegment(counts[0])] + Reads(counts[1..][..m]);
      RunCons(s0, RSegment(counts[0]), Reads(counts[1..][..m]));
    }
  }

  lemma {:induction false} ReplyReads(s: State, out: seq<byte>)
    requires ReplyIs(s, out) && Printable(out)
    ensures s.reply[0] != NUL && CText(s.reply) + [NUL] == ReplyText(out)
  {
    assert s.reply == out + [NUL] + s.reply[|out| + 1..];
    CTextOfReceived(out, s.reply[|out| + 1..]);
    assert s.reply[0] == out[0];
  }

  /** NO_ERROR_NO_REPLY and ERROR_REPLY are never reported, and the byte past the reply buffer is written
      exactly when some command has printed REPLY_LEN bytes or more. What every run guarantees after that store
      supposes that the byte belongs to no variable of the object. */
  lemma {:induction false} StatusAndBounds(actions: seq<Action>)
    ensures var s := After(actions);
            && s.status != NoErrorNoReply && s.status != ErrorReply
            && (s.overrun <==> s.h.longest >= 10024)
  {
    AfterInv(actions);
  }

  /** A command transfer of any announced length up to 4095 is taken, a longer one refused. */
  lemma {:induction false} CommandLimit(s: State, seg: seq<byte>)
    requires |s.command| == COMMAND_LEN && s.writer == WIdle && s.status != Executing && s.wcursor.offset == 0
    ensures |s.command| == 4096
    ensures s.wcursor.length > 4095 ==> WriteStep(s.wcursor, s.command, COMMAND_LEN - 1, seg).code == DEV_INCOMPAT
    ensures s.wcursor.length > 4095 ==> CText(Called(s, seg).command) == CText(s.command)
    ensures |seg| == s.wcursor.length <= 4095 ==>
              && Called(s, seg).status == Executing && CText(Called(s, seg).command) == CText(seg)
  {
    if |seg| == s.wcursor.length <= 4095 {
      WriteAnswers(s.wcursor, s.command, COMMAND_LEN - 1, seg);
      TextCompleted(s.command, [], seg);
      assert [] + seg == seg;
    }
  }

  /** The steps of whole write calls, one after the other. */
  function Writes(segs: seq<seq<byte>>): seq<Action> {
    if segs == [] then [] else [WSegment(segs[0]), WStep, WStep, WStep] + Writes(segs[1..])
  }

  lemma {:induction false} RunAppend(s: State, a: seq<Action>, b: seq<Action>)
    requires |s.command| == COMMAND_LEN
    ensures Run(s, a + b) == Run(Run(s, a), b)
    decreases |a|
  {
    if a == [] {
      assert a + b == b;
    } else {
      assert (a + b)[1..] == a[1..] + b;
      RunAppend(Next(s, a[0]), a[1..], b);
    }
  }

  /** A command write in progress that has taken `got`. */
  predicate HalfWritten(s: State, got: seq<byte>) {
    && |s.command| == COMMAND_LEN && s.writer == WIdle && s.status != Executing
    && s.wcursor.offset == |got| && s.wcursor.length <= 4095
    && (got != [] ==> |got| < s.wcursor.length && s.command[..|got|] == got && s.h.received == got)
  }

  lemma {:induction false} CallGoesOn(s: State, got: seq<byte>, seg: seq<byte>)
    requires HalfWritten(s, got) && |got| + |seg| < s.wcursor.length
    ensures var t := Called(s, seg);
            && HalfWritten(t, got + seg) && t.wcursor.length == s.wcursor.length && t.h.accepted == s.h.accepted
  {
    WriteAnswers(s.wcursor, s.command, COMMAND_LEN - 1, seg);
    Extended(s.command, |got|, seg);
    assert s.command[..0] == [] && [] + seg == seg;
  }

  lemma {:induction false} CallEnds(s: State, got: seq<byte>, seg: seq<byte>)
    requires HalfWritten(s, got) && |got| + |seg| == s.wcursor.length
    ensures HandedOver(Called(s, seg), s.h.accepted, got + seg)
  {
    LastCallIs(s, got, seg);
    assert s.command[..|got|] == got;
    TextCompleted(s.command, got, seg);
  }

  /** What the call that completes a command leaves. */
  lemma {:induction false} LastCallIs(s: State, got: seq<byte>, seg: seq<byte>)
    requires HalfWritten(s, got) && |got| + |seg| == s.wcursor.length
    ensures var t := Called(s, seg);
            && t.command == Store(Overwrite(s.command, |got|, seg), |got| + |seg|, NUL)
            && t.status == Executing && t.h.accepted == s.h.accepted + [CText(got + seg)]
  {
    WriteAnswers(s.wcursor, s.command, COMMAND_LEN - 1, seg);
    assert [] + seg == seg;
  }

  /** The command buffer once the last segment and the terminator are in it. */
  lemma {:induction false} TextCompleted(command: seq<byte>, got: seq<byte>, seg: seq<byte>)
    requires |got| + |seg| < |command| && command[..|got|] == got
    ensures CText(Store(Overwrite(command, |got|, seg), |got| + |seg|, NUL)) == CText(got + seg)
  {
    var text, b := got + seg, Overwrite(command, |got|, seg);
    Extended(command, |got|, seg);
    assert b[|text| := NUL] == text + [NUL] + b[|text| + 1..];
    CTextOfReceived(text, b[|text| + 1..]);
  }

  /** A command has been handed over. */
  predicate HandedOver(t: State, before: seq<seq<byte>>, text: seq<byte>) {
    t.status == Executing && CText(t.command) == CText(text) && t.h.accepted == before + [CText(text)]
  }

  lemma {:induction false} FirstCall(s: State, segs: seq<seq<byte>>)
    requires |s.command| == COMMAND_LEN && s.writer == WIdle && segs != []
    ensures Run(s, Writes(segs)) == Run(Called(s, segs[0]), Writes(segs[1..]))
  {
    RunAppend(s, [WSegment(segs[0]), WStep, WStep, WStep], Writes(segs[1..]));
    WriteCallIs(s, segs[0]);
  }

  lemma {:induction false} WritesFrom(s: State, got: seq<byte>, segs: seq<seq<byte>>)
    requires HalfWritten(s, got) && segs != [] && segs[|segs| - 1] != []
    requires |got| + |Flatten(segs)| == s.wcursor.length
    ensures HandedOver(Run(s, Writes(segs)), s.h.accepted, got + Flatten(segs))
    decreases |segs|
  {
    var seg, rest := segs[0], segs[1..];
    if rest == [] {
      assert segs == [seg];
      FlattenOne(seg);
      WritesLast(s, got, seg);
    } else {
      LastFlattens(rest);
      CallGoesOn(s, got, seg);
      var s1 := Called(s, seg);
      WritesFrom(s1, got + seg, rest);
      assert got + seg + Flatten(rest) == got + Flatten(segs) by {
        Assoc(got, seg, Flatten(rest));
      }
      assert Run(s, Writes(segs)) == Run(s1, Writes(rest)) by {
        FirstCall(s, segs);
      }
    }
  }

  lemma {:induction false} WritesLast(s: State, got: seq<byte>, seg: seq<byte>)
    requires HalfWritten(s, got) && |got| + |seg| == s.wcursor.length
    ensures HandedOver(Run(s, Writes([seg])), s.h.accepted, got + seg)
  {
    CallEnds(s, got, seg);
    FirstCall(s, [seg]);
    assert Run(Called(s, seg), []) == Called(s, seg);
  }

  lemma {:induction false} LastFlattens(segs: seq<seq<byte>>)
    requires segs != [] && segs[|segs| - 1] != []
    ensures Flatten(segs) != []
    decreases |segs|
  {
    if |segs| > 1 {
      LastFlattens(segs[1..]);
    }
  }

  /** Every command of at most 4095 bytes is accepted, in any segmentation, when it is written while no other is
      executing and nobody comes between: its text is handed to the worker. */
  lemma {:induction false} CommandAccepted(actions: seq<Action>, segs: seq<seq<byte>>)
    requires After(actions).writer == WIdle && After(actions).status != Executing
    requires segs != [] && segs[|segs| - 1] != [] && |Flatten(segs)| <= 4095
    ensures var s, t := After(actions), Run(After(actions), [WBegin(|Flatten(segs)|)] + Writes(segs));
            && t.status == Executing && CText(t.command) == CText(Flatten(segs))
            && t.h.accepted == s.h.accepted + [CText(Flatten(segs))]
  {
    var s := After(actions);
    RunCons(s, WBegin(|Flatten(segs)|), Writes(segs));
    WritesFrom(Next(s, WBegin(|Flatten(segs)|)), [], segs);
    assert [] + Flatten(segs) == Flatten(segs);
  }

  /** The status with which the worker will leave the command it is at, as popen answers. */
  function Expected(s: State, spawned: Option<seq<byte>>): Status {
    match s.worker
    case KClear(_) => ErrorNoReply
    case KFail(_) => ErrorNoReply
    case KRead(_, _, _) => NoErrorReply
    case KTerminate(_, _) => NoErrorReply
    case KReport(_, _) => NoErrorReply
    case KSpawn => if spawned.Some? then NoErrorReply else ErrorNoReply
    case _ => if CText(s.command) != [] && spawned.Some? then NoErrorReply else ErrorNoReply
  }

  /** What the command prints: what the worker is copying already, or what popen gives. */
  function Outgoing(s: State, spawned: Option<seq<byte>>): Option<seq<byte>> {
    match s.worker
    case KRead(_, out, _) => Some(out)
    case KTerminate(_, out) => Some(out)
    case KReport(_, out) => Some(out)
    case _ => spawned
  }

  /** How far the worker has to go to the end of the command. */
  function ToGo(s: State, spawned: Option<seq<byte>>): nat {
    var longest := (if spawned.Some? then |spawned.value| else 0) + 4;
    match s.worker
    case KTail(_) => longest + 3
    case KSleep => longest + 2
    case KCheck => longest + 1
    case KSpawn => longest
    case KRead(_, out, i) => if i < |out| then |out| - i + 3 else 3
    case KTerminate(_, _) => 2
    case KReport(_, _) => 1
    case KClear(_) => 2
    case KFail(_) => 1
  }

  /** `t` is a state at the end of the command that `s` is at. */
  predicate EndOf(s: State, spawned: Option<seq<byte>>, t: State) {
    && t.status == Expected(s, spawned) && !Busy(t.worker) && t.command == s.command
    && t.h.finished == s.h.finished + [CText(s.command)]
    && (t.status == NoErrorReply ==> t.h.output == Outgoing(s, spawned))
  }

  lemma {:induction false} LastWorkerStep(s: State, spawned: Option<seq<byte>>)
    requires HandOff(s) && s.status == Executing && WorkerStep(s, spawned).status != Executing
    ensures EndOf(s, spawned, WorkerStep(s, spawned))
  {}

  lemma {:induction false} StaysBusy(s: State, spawned: Option<seq<byte>>)
    requires HandOff(s) && s.status == Executing && WorkerStep(s, spawned).status == Executing
    ensures var s1 := WorkerStep(s, spawned);
            s1.command == s.command && s1.h.finished == s.h.finished && HandOff(s1)
  {
    var s1 := WorkerStep(s, spawned);
    assert s1.command == s.command && s1.h.finished == s.h.finished && s1.h.accepted == s.h.accepted;
  }

  lemma {:induction false} Nearer(s: State, spawned: Option<seq<byte>>)
    requires s.status == Executing && WorkerStep(s, spawned).status == Executing
    ensures ToGo(WorkerStep(s, spawned), spawned) < ToGo(s, spawned)
  {}

  lemma {:induction false} SameExpectation(s: State, spawned: Option<seq<byte>>)
    requires s.status == Executing && WorkerStep(s, spawned).status == Executing
    ensures var s1 := WorkerStep(s, spawned);
            && Expected(s1, spawned) == Expected(s, spawned)
            && (Expected(s, spawned) == NoErrorReply ==> Outgoing(s1, spawned) == Outgoing(s, spawned))
  {}

  /** A command that is executing ends: the worker alone, from wherever it is, reports the status that popen's
      answer calls for, ticks off exactly that command, and after a success keeps what it printed. */
  lemma {:induction false} CommandEnds(s: State, spawned: Option<seq<byte>>) returns (n: nat)
    requires HandOff(s) && s.status == Executing
    ensures EndOf(s, spawned, WorkerSteps(s, spawned, n))
    decreases ToGo(s, spawned)
  {
    var s1 := WorkerStep(s, spawned);
    assert WorkerSteps(s, spawned, 1) == s1;
    if s1.status != Executing {
      n := 1;
      LastWorkerStep(s, spawned);
    } else {
      StaysBusy(s, spawned);
      Nearer(s, spawned);
      SameExpectation(s, spawned);
      var m := CommandEnds(s1, spawned);
      n := 1 + m;
      TwoStages(s, spawned, 1, s1, m, WorkerSteps(s1, spawned, m));
    }
  }

  /** In every interleaving, a command is ticked off only by a worker step, and the status is set by that step:
      NO_ERROR_REPLY exactly after a command that ran. */
  lemma {:induction false} FinishSetsStatus(actions: seq<Action>, a: Action)
    ensures var s, t := After(actions), Next(After(actions), a);
            t.h.finished != s.h.finished ==>
              && a.KStep? && s.status == Executing && t.h.finished == s.h.finished + [CText(s.command)]
              && (s.worker.KReport? ==> t.status == NoErrorReply && t.h.output == Some(s.worker.out))
              && (s.worker.KFail? ==> t.status == ErrorNoReply)
              && (s.worker.KCheck? ==> t.status == ErrorNoReply && CText(s.command) == [])
              && (s.worker.KReport? || s.worker.KFail? || s.worker.KCheck?)
  {
    AfterInv(actions);
    var s := After(actions);
    if !a.KStep? {
      assert Next(s, a).h.finished == s.h.finished;
    } else {
      TickOff(s, a.spawned);
    }
  }

  lemma {:induction false} TickOff(s: State, spawned: Option<seq<byte>>)
    requires HandOff(s)
    ensures var t := WorkerStep(s, spawned);
            t.h.finished != s.h.finished ==>
              && s.status == Executing && t.h.finished == s.h.finished + [CText(s.command)]
              && (s.worker.KReport? ==> t.status == NoErrorReply && t.h.output == Some(s.worker.out))
              && (s.worker.KFail? ==> t.status == ErrorNoReply)
              && (s.worker.KCheck? ==> t.status == ErrorNoReply && CText(s.command) == [])
              && (s.worker.KReport? || s.worker.KFail? || s.worker.KCheck?)
  {}

  // ---------------------------------------------------------------- the C entry points

  /** The first `n` worker steps of a turn. */
  function WorkerSteps(s: State, spawned: Option<seq<byte>>, n: nat): State {
    Iterate(Stepper(spawned), s, n)
  }

  function Stepper(spawned: Option<seq<byte>>): State -> State {
    (s: State) => WorkerStep(s, spawned)
  }

  function Min(a: nat, b: nat): nat {
    if a < b then a else b
  }

  /** The reply buffer with the first `k` bytes of an output copied into it. */
  function Prefixed(reply: seq<byte>, out: seq<byte>, k: nat): (r: seq<byte>)
    requires k <= |out| && k <= |reply|
    ensures |r| == |reply|
  {
    Overwrite(reply, 0, out[..k])
  }

  /** The reply buffer after run_bash_command has copied what a command printed and terminated it. */
  function Printed(reply: seq<byte>, out: seq<byte>): seq<byte>
    requires |reply| == REPLY_LEN
  {
    var m := Min(|out|, REPLY_LEN);
    Store(Prefixed(reply, out, m), m, NUL)
  }

  /** A reply shorter than the buffer is there with its terminator; a longer one fills the buffer. */
  lemma {:induction false} PrintedText(reply: seq<byte>, out: seq<byte>)
    requires |reply| == REPLY_LEN
    ensures var r := Store(Printed(reply, out), Min(|out|, REPLY_LEN), NUL);
            && |r| == 10024
            && (|out| < 10024 ==> r[..|out|] == out && r[|out|] == NUL)
            && (|out| >= 10024 ==> r == out[..10024])
  {
    var m := Min(|out|, REPLY_LEN);
    var p := Prefixed(reply, out, m);
    assert p[..m] == out[..m];
    if |out| < REPLY_LEN {
      assert out[..m] == out;
      assert Store(Store(p, m, NUL), m, NUL)[..m] == p[..m];
    }
  }

  /** The worker inside its copying loop. */
  function Copying(s: State, text: seq<byte>, out: seq<byte>, k: nat): State
    requires k <= |out| && k <= |s.reply|
  {
    s.(reply := Prefixed(s.reply, out, k), worker := KRead(text, out, k))
  }

  lemma {:induction false} CopyStep(s: State, spawned: Option<seq<byte>>, text: seq<byte>, out: seq<byte>, k: nat)
    requires |s.reply| == REPLY_LEN && k < |out| && k < REPLY_LEN
    ensures WorkerStep(Copying(s, text, out, k), spawned) == Copying(s, text, out, k + 1)
  {
    OneMore(s.reply, out, k);
  }

  lemma {:induction false} OneMore(reply: seq<byte>, out: seq<byte>, k: nat)
    requires k < |out| && k < |reply|
    ensures Prefixed(reply, out, k)[k := out[k]] == Prefixed(reply, out, k + 1)
  {}

  lemma {:induction false} PrefixedByElements(reply: seq<byte>, out: seq<byte>, k: nat, r: seq<byte>)
    requires k <= |out| && k <= |reply| == |r|
    requires forall j :: 0 <= j < k ==> r[j] == out[j]
    requires forall j :: k <= j < |reply| ==> r[j] == reply[j]
    ensures r == Prefixed(reply, out, k)
  {}

  lemma {:induction false} NothingPrinted(reply: seq<byte>, out: seq<byte>)
    ensures Prefixed(reply, out, 0) == reply
  {}

  /** From the status test to the start of the command. */
  lemma {:induction false} FirstSteps(s: State, spawned: Option<seq<byte>>) returns (n: nat)
    requires s.worker == KSleep && s.status == Executing && CText(s.command) != []
    ensures WorkerSteps(s, spawned, n)
            == s.(worker := if spawned.None? then KClear(CText(s.command))
                            else KRead(CText(s.command), spawned.value, 0))
  {
    assert WorkerSteps(s, spawned, 1) == s.(worker := KCheck);
    assert WorkerSteps(s, spawned, 2) == s.(worker := KSpawn);
    n := 3;
  }

  /** The state at the end of a turn that ran a command, seen from the end of its copying loop. */
  function Ended(s: State, text: seq<byte>, out: seq<byte>): State {
    var m := Min(|out|, REPLY_LEN);
    s.(status := NoErrorReply, worker := KSleep, overrun := s.overrun || m >= REPLY_LEN,
       reply := Store(Store(s.reply, m, NUL), m, NUL),
       h := s.h.(longest := if |out| > s.h.longest then |out| else s.h.longest, finished := s.h.finished + [text],
                 output := Some(out)))
  }

  /** From the end of the copying loop to the end of the turn. */
  lemma {:induction false} LastSteps(s: State, spawned: Option<seq<byte>>, text: seq<byte>, out: seq<byte>)
    returns (n: nat)
    requires |s.reply| == REPLY_LEN && s.worker == KRead(text, out, Min(|out|, REPLY_LEN))
    ensures WorkerSteps(s, spawned, n) == Ended(s, text, out)
  {
    assert WorkerSteps(s, spawned, 1) == s.(worker := KTerminate(text, out));
    assert WorkerSteps(s, spawned, 2).worker == KReport(text, out);
    assert WorkerSteps(s, spawned, 3).worker == KTail(out);
    n := 4;
  }

  /** Steps in two stages, by their states. */
  lemma {:induction false} TwoStages(s: State, spawned: Option<seq<byte>>, a: nat, t: State, b: nat, u: State)
    requires WorkerSteps(s, spawned, a) == t && WorkerSteps(t, spawned, b) == u
    ensures WorkerSteps(s, spawned, a + b) == u
  {
    IterateAdd(Stepper(spawned), s, a, b);
  }

  /** A turn in which popen works, from the status test to the last store, as a run of atomic steps. */
  lemma {:induction false} PrintingTurn(s: State, spawned: Option<seq<byte>>) returns (n: nat)
    requires s.worker == KSleep && s.status == Executing && |s.reply| == REPLY_LEN
    requires CText(s.command) != [] && spawned.Some?
    ensures var text, out := CText(s.command), spawned.value;
            WorkerSteps(s, spawned, n) == Ended(Copying(s, text, out, Min(|out|, REPLY_LEN)), text, out)
  {
    var text, out := CText(s.command), spawned.value;
    var a := CopiesTo(s, spawned, Min(|out|, REPLY_LEN));
    n := EndsCopying(s, spawned, a, Copying(s, text, out, Min(|out|, REPLY_LEN)), text, out);
  }

  lemma {:induction false} EndsCopying(
    s: State, spawned: Option<seq<byte>>, a: nat, full: State, text: seq<byte>, out: seq<byte>) returns (n: nat)
    requires WorkerSteps(s, spawned, a) == full
    requires |full.reply| == REPLY_LEN && full.worker == KRead(text, out, Min(|out|, REPLY_LEN))
    ensures WorkerSteps(s, spawned, n) == Ended(full, text, out)
  {
    var b := LastSteps(full, spawned, text, out);
    n := a + b;
    TwoStages(s, spawned, a, full, b, Ended(full, text, out));
  }

  /** The copying loop, step by step. */
  lemma {:induction false} CopiesTo(s: State, spawned: Option<seq<byte>>, k: nat) returns (n: nat)
    requires s.worker == KSleep && s.status == Executing && |s.reply| == REPLY_LEN
    requires CText(s.command) != [] && spawned.Some? && k <= |spawned.value| && k <= REPLY_LEN
    ensures WorkerSteps(s, spawned, n) == Copying(s, CText(s.command), spawned.value, k)
    decreases k
  {
    if k == 0 {
      n := StartsCopying(s, spawned);
    } else {
      var before := CopiesTo(s, spawned, k - 1);
      n := before + 1;
      CopyStep(s, spawned, CText(s.command), spawned.value, k - 1);
    }
  }

  lemma {:induction false} StartsCopying(s: State, spawned: Option<seq<byte>>) returns (n: nat)
    requires s.worker == KSleep && s.status == Executing && CText(s.command) != [] && spawned.Some?
    ensures WorkerSteps(s, spawned, n) == Copying(s, CText(s.command), spawned.value, 0)
  {
    NothingPrinted(s.reply, spawned.value);
    n := FirstSteps(s, spawned);
  }

  /** The state at the end of a turn whose command could not be started. */
  function GaveUp(s: State): State
    requires s.reply != []
  {
    s.(status := ErrorNoReply, reply := s.reply[0 := NUL],
       h := s.h.(output := None, finished := s.h.finished + [CText(s.command)]))
  }

  /** A turn in which popen fails. */
  lemma {:induction false} FailedTurn(s: State, spawned: Option<seq<byte>>) returns (n: nat)
    requires s.worker == KSleep && s.status == Executing && |s.reply| == REPLY_LEN
    requires CText(s.command) != [] && spawned.None?
    ensures WorkerSteps(s, spawned, n) == GaveUp(s)
  {
    var t := s.(worker := KClear(CText(s.command)));
    var a := FirstSteps(s, spawned);
    var b := ClearingSteps(t, spawned);
    n := a + b;
    TwoStages(s, spawned, a, t, b, GaveUp(s));
  }

  lemma {:induction false} ClearingSteps(t: State, spawned: Option<seq<byte>>) returns (n: nat)
    requires t.reply != [] && t.worker == KClear(CText(t.command))
    ensures WorkerSteps(t, spawned, n) == GaveUp(t.(worker := KSleep))
  {
    var u := WorkerStep(t, spawned);
    assert u == t.(reply := t.reply[0 := NUL], worker := KFail(CText(t.command)), h := t.h.(output := None));
    assert WorkerSteps(t, spawned, 1) == u;
    assert WorkerStep(u, spawned) == GaveUp(t.(worker := KSleep));
    n := 2;
  }

  /** The subindexes of the object. */
  datatype Part = Highest | Command | StatusCode | Reply

  /** The static variables of os_command_ext.c. Each method runs one call to its end and is tied to the
      atomic steps above: the ghost state `s` before it and the state it leaves. */
  class OsCommandObject {
    var status: Status
    var overrun: bool
    const command: array<byte>
    const reply: array<byte>

    constructor ()
      ensures Is(Initial()) && fresh(command) && fresh(reply) && command != reply
    {
      status, overrun := ErrorNoReply, false;
      command := new byte[COMMAND_LEN](_ => 0);
      reply := new byte[REPLY_LEN](_ => 0);
    }

    ghost predicate Is(s: State)
      reads this, command, reply
    {
      && command.Length == COMMAND_LEN && reply.Length == REPLY_LEN && command != reply
      && s.status == status && s.overrun == overrun && s.command == command[..] && s.reply == reply[..]
    }

    /** The command as the worker reads it. */
    function Text(): seq<byte>
      reads command
    {
      CText(command[..])
    }

    /** os_command_write. */
    method Write(stream: Stream, part: Part, buf: array<byte>, count: nat, ghost s: State)
      returns (r: Code, countWritten: Option<nat>, ghost t: State)
      requires Is(s) && s.writer == WIdle && s.wcursor == stream.At()
      requires count <= buf.Length && buf != command && buf != reply
      modifies this, command, stream
      ensures Is(t) && t.writer == WIdle && t.wcursor == stream.At()
      ensures !part.Command? ==> r == READONLY && t == s
      ensures part.Command? ==> t == Run(s, [WSegment(buf[..count]), WStep, WStep, WStep])
      ensures part.Command? && s.status == Executing ==> r == DATA_LOC_CTRL && t == s
      ensures part.Command? && s.status != Executing ==>
                var o := WriteStep(s.wcursor, s.command, 4095, buf[..count]);
                r == o.code && countWritten == o.count
      ensures !part.Command? || s.status == Executing ==> countWritten == None
      ensures t.status == Executing <==> s.status == Executing || r == OK
    {
      countWritten := None;
      if !part.Command? {
        return READONLY, None, s;
      }
      t := Called(s, buf[..count]);
      WriteCallIs(s, buf[..count]);
      if status == Executing {
        return DATA_LOC_CTRL, None, t;
      }
      var commandLen;
      ghost var o := WriteStep(s.wcursor, s.command, COMMAND_LEN - 1, buf[..count]);
      CompletesInside(s.wcursor, s.command, buf[..count]);
      r, countWritten, commandLen := WriteData(stream, buf, count, command, COMMAND_LEN - 1);
      assert r == o.code && command[..] == o.buffer && commandLen == o.written && stream.At() == o.cursor;
      if r == OK {
        command[commandLen.value] := NUL;
        status := Executing;
        assert command[..] == Store(o.buffer, commandLen.value, NUL);
      }
    }

    /** One turn of os_command_thread with run_bash_command inside it; `spawned` is what popen gives. */
    method Turn(spawned: Option<seq<byte>>, ghost s: State) returns (ghost n: nat)
      requires Is(s) && s.worker == KSleep
      modifies this, reply
      ensures Is(WorkerSteps(s, spawned, n)) && WorkerSteps(s, spawned, n).worker == KSleep
      ensures command[..] == old(command[..])
      ensures old(status) != Executing ==>
                status == old(status) && overrun == old(overrun) && reply[..] == old(reply[..])
      ensures old(status) == Executing && Text() == [] ==>
                status == ErrorNoReply && overrun == old(overrun) && reply[..] == old(reply[..])
      ensures old(status) == Executing && Text() != [] && spawned.None? ==>
                && status == ErrorNoReply && overrun == old(overrun)
                && reply[0] == NUL && reply[1..] == old(reply[1..])
      ensures old(status) == Executing && Text() != [] && spawned.Some? ==>
                var out := spawned.value;
                && status == NoErrorReply && overrun == (old(overrun) || |out| >= 10024)
                && (|out| < 10024 ==> reply[..|out|] == out && reply[|out|] == NUL)
                && (|out| >= 10024 ==> reply[..] == out[..10024])
      ensures WorkerSteps(s, spawned, n).h.finished
              == s.h.finished + (if old(status) == Executing then [Text()] else [])
    {
      n := 0;
      if status != Executing {
        return;
      }
      if CText(command[..]) == [] {
        status := ErrorNoReply;
        n := 2;
        assert WorkerSteps(s, spawned, 1) == s.(worker := KCheck);
        return;
      }
      if spawned.None? {
        reply[0] := NUL;
        status := ErrorNoReply;
        n := FailedTurn(s, spawned);
        return;
      }
      var replyLen := RunBash(spawned.value);
      status := NoErrorReply;
      ghost var printed := reply[..];
      if replyLen - 1 < REPLY_LEN {
        reply[replyLen - 1] := NUL;
      }
      n := PrintingTurn(s, spawned);
      PrintedText(s.reply, spawned.value);
    }

    /** run_bash_command on the reply buffer. */
    method RunBash(out: seq<byte>) returns (outLen: nat)
      requires reply.Length == REPLY_LEN && command != reply
      modifies `overrun, reply
      ensures reply[..] == Printed(old(reply[..]), out)
      ensures overrun == (old(overrun) || |out| >= REPLY_LEN)
      ensures outLen == Min(|out|, REPLY_LEN) + 1
    {
      outLen := CopyOutput(out);
      outLen := outLen + 1;
      if outLen - 1 < REPLY_LEN {
        PutByte(reply, outLen - 1, NUL);
      } else {
        overrun := true;      // the store past the end of the buffer
      }
    }

    /** The loop of run_bash_command. */
    method CopyOutput(out: seq<byte>) returns (outLen: nat)
      requires reply.Length == REPLY_LEN
      modifies reply
      ensures outLen == Min(|out|, REPLY_LEN) && reply[..] == Prefixed(old(reply[..]), out, outLen)
    {
      outLen := 0;
      ghost var was := reply[..];
      while outLen < |out| && outLen <= REPLY_LEN - 1
        invariant outLen <= |out| && outLen <= REPLY_LEN
        invariant forall j :: 0 <= j < outLen ==> reply[j] == out[j]
        invariant forall j :: outLen <= j < REPLY_LEN ==> reply[j] == was[j]
      {
        reply[outLen] := out[outLen];
        outLen := outLen + 1;
      }
      PrefixedByElements(was, out, outLen, reply[..]);
    }

    /** os_command_read on the two texts. */
    method Read(stream: Stream, part: Part, buf: array<byte>, count: nat, ghost s: State)
      returns (r: Code, countRead: Option<nat>)
      requires Is(s) && (part.Command? || part.Reply?) && (part.Reply? ==> s.rcursor == stream.At())
      requires count <= buf.Length && buf != command && buf != reply
      modifies stream, buf
      ensures Is(s)
      ensures part.Command? ==>
                var o := ReadStep(old(stream.At()), CText(s.command) + [NUL], count);
                && r == o.code && stream.At() == o.cursor
                && (o.chunk.None? ==> countRead == None)
                && (o.chunk.Some? ==> countRead == Some(|o.chunk.value|) && |o.chunk.value| <= count
                                      && buf[..|o.chunk.value|] == o.chunk.value)
      ensures part.Reply? ==> Is(ReadReply(s, count)) && ReadReply(s, count).rcursor == stream.At()
      ensures part.Reply? && countRead.Some? ==>
                && countRead.value <= count
                && ReadReply(s, count).h.got == Got(s) + buf[..countRead.value]
      ensures part.Reply? ==> (r == OK <==> countRead.Some? && ReadReply(s, count).h.whole.Some?)
      ensures part.Reply? && s.reply[0] == NUL ==> r == NO_DATA && countRead == None
      ensures part.Reply? && s.reply[0] != NUL ==>
                var o := ReadStep(old(stream.At()), CText(s.reply) + [NUL], count);
                && r == o.code && stream.At() == o.cursor
                && (o.chunk.None? ==> countRead == None)
                && (o.chunk.Some? ==> countRead == Some(|o.chunk.value|) && |o.chunk.value| <= count
                                      && buf[..|o.chunk.value|] == o.chunk.value)
    {
      if part.Command? {
        r, countRead := ReadText(stream, buf, count, CText(command[..]));
      } else if reply[0] == NUL {
        r, countRead := NO_DATA, None;
      } else {
        r, countRead := ReadText(stream, buf, count, CText(reply[..]));
      }
    }
  }

  /** One store into a buffer. */
  method PutByte(buf: array<byte>, i: nat, b: byte)
    requires i < buf.Length
    modifies buf
    ensures buf[..] == old(buf[..])[i := b]
  {
    buf[i] := b;
  }

  /** What the current read transfer has delivered before its next call. */
  function Got(s: State): seq<byte> {
    if s.rcursor.offset == 0 then [] else s.h.got
  }

  /** A completed command leaves room for its terminator. */
  lemma {:induction false} CompletesInside(c: Cursor, command: seq<byte>, seg: seq<byte>)
    requires |command| == COMMAND_LEN
    ensures var o := WriteStep(c, command, COMMAND_LEN - 1, seg);
            o.code == OK ==> o.written.Some? && o.written.value < COMMAND_LEN
  {}

  /** The state after a whole write call on the command. */
  function Called(s: State, seg: seq<byte>): State
    requires |s.command| == COMMAND_LEN
  {
    var o := WriteStep(s.wcursor, s.command, COMMAND_LEN - 1, seg);
    var before := if s.wcursor.offset == 0 then [] else s.h.received;
    var received := if o.code == OK || o.code == PARTIAL then before + seg else [];
    if s.status == Executing then s
    else if o.code != OK then s.(command := o.buffer, wcursor := o.cursor, h := s.h.(received := received))
    else
      s.(command := Store(o.buffer, o.written.GetOr(0), NUL), wcursor := o.cursor, status := Executing,
         h := s.h.(received := received, accepted := s.h.accepted + [CText(received)], clean := false))
  }

  lemma {:induction false} WriteCallIs(s: State, seg: seq<byte>)
    requires |s.command| == COMMAND_LEN && s.writer == WIdle
    ensures Run(s, [WSegment(seg), WStep, WStep, WStep]) == Called(s, seg)
  {
    RunOfFour(s, WSegment(seg), WStep, WStep, WStep);
  }

  lemma {:induction false} RunOfFour(s: State, a: Action, b: Action, c: Action, d: Action)
    requires |s.command| == COMMAND_LEN
    ensures Run(s, [a, b, c, d]) == Next(Next(Next(Next(s, a), b), c), d)
  {
    assert [a, b, c, d] == [a] + [b, c, d] && [b, c, d] == [b] + [c, d] && [c, d] == [c] + [d] && [d] == [d] + [];
    RunCons(s, a, [b, c, d]);
    RunCons(Next(s, a), b, [c, d]);
    RunCons(Next(Next(s, a), b), c, [d]);
    RunCons(Next(Next(Next(s, a), b), c), d, []);
  }

  lemma {:induction false} RunCons(s: State, a: Action, rest: seq<Action>)
    requires |s.command| == COMMAND_LEN
    ensures Run(s, [a] + rest) == Run(Next(s, a), rest)
  {
    assert ([a] + rest)[1..] == rest;
  }
}
