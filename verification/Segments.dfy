/** The memory handlers of src/od_extensions/od_ext.c: one object moved in pieces of any size. */
module Segments {
  import opened Base

  /** The return codes the handlers use. */
  datatype Code =
    | OK | PARTIAL | DEV_INCOMPAT | NO_DATA | DATA_LONG | SUB_NOT_EXIST | READONLY | WRITEONLY | DATA_LOC_CTRL

  /** The two stream fields that survive between calls. */
  datatype Cursor = Cursor(offset: nat, length: nat)

  /** What one read call does; `chunk` is `None` when nothing is copied and the count is not set. */
  datatype ReadOut = ReadOut(code: Code, cursor: Cursor, chunk: Option<seq<byte>>)

  /** What one write call does; `written` is the total it reports through its last argument. */
  datatype WriteOut = WriteOut(code: Code, cursor: Cursor, buffer: seq<byte>, count: Option<nat>, written: Option<nat>)

  // ---------------------------------------------------------------- one call

  function ReadStep(c: Cursor, data: seq<byte>, count: nat): ReadOut {
    var c1 := if c.offset == 0 then c.(length := |data|) else c;
    if c1.offset > 0 || |data| > count then
      if c1.offset >= |data| then ReadOut(DEV_INCOMPAT, c1, None)
      else if |data| - c1.offset > count then
        ReadOut(PARTIAL, c1.(offset := c1.offset + count), Some(data[c1.offset..c1.offset + count]))
      else
        ReadOut(OK, c1.(offset := 0), Some(data[c1.offset..]))
    else
      ReadOut(OK, c1, Some(data))
  }

  function WriteStep(c: Cursor, buffer: seq<byte>, max: nat, seg: seq<byte>): (o: WriteOut)
    requires max <= |buffer|
    ensures |o.buffer| == |buffer|
    ensures o.code == PARTIAL ==> o.cursor.offset < c.length
    ensures o.code == PARTIAL || o.code == OK ==> c.length <= max
  {
    if c.length > max then WriteOut(DEV_INCOMPAT, c, buffer, None, None)
    else if c.offset > 0 || c.length > |seg| then
      if c.offset >= c.length then WriteOut(DEV_INCOMPAT, c, buffer, None, None)
      else
        var remain := c.length - c.offset;
        if remain > |seg| then
          var c1 := c.(offset := c.offset + |seg|);
          WriteOut(PARTIAL, c1, Overwrite(buffer, c.offset, seg), Some(|seg|),
                   if c1.offset == 0 then Some(c.length) else None)
        else if remain < |seg| then WriteOut(DATA_LONG, c.(offset := 0), buffer, None, None)
        else WriteOut(OK, c.(offset := 0), Overwrite(buffer, c.offset, seg), Some(remain), Some(c.length))
    else if c.length < |seg| then WriteOut(DATA_LONG, c, buffer, None, None)
    else WriteOut(OK, c, Overwrite(buffer, 0, seg), Some(c.length), Some(c.length))
  }

  // ---------------------------------------------------------------- whole transfers

  /** A transfer: calls are made until one of them is not PARTIAL. */
  datatype ReadRun = ReadRun(code: Code, cursor: Cursor, bytes: seq<byte>, calls: nat)
  datatype WriteRun = WriteRun(code: Code, cursor: Cursor, buffer: seq<byte>, calls: nat)

  function ReadTransfer(c: Cursor, data: seq<byte>, counts: seq<nat>): ReadRun
    decreases |counts|
  {
    if counts == [] then ReadRun(PARTIAL, c, [], 0)
    else
      var o := ReadStep(c, data, counts[0]);
      var chunk := if o.chunk.Some? then o.chunk.value else [];
      if o.code != PARTIAL then ReadRun(o.code, o.cursor, chunk, 1)
      else
        var r := ReadTransfer(o.cursor, data, counts[1..]);
        ReadRun(r.code, r.cursor, chunk + r.bytes, r.calls + 1)
  }

  function WriteTransfer(c: Cursor, buffer: seq<byte>, max: nat, segs: seq<seq<byte>>): (r: WriteRun)
    requires max <= |buffer|
    ensures |r.buffer| == |buffer|
    decreases |segs|
  {
    if segs == [] then WriteRun(PARTIAL, c, buffer, 0)
    else
      var o := WriteStep(c, buffer, max, segs[0]);
      if o.code != PARTIAL then WriteRun(o.code, o.cursor, o.buffer, 1)
      else
        var r := WriteTransfer(o.cursor, o.buffer, max, segs[1..]);
        r.(calls := r.calls + 1)
  }

  /** Where a read stands after room for `n` more bytes has been offered. */
  function AfterReading(c: Cursor, data: seq<byte>, n: nat, calls: nat): ReadRun
    requires c.offset <= |data|
  {
    if c.offset + n >= |data| then ReadRun(OK, Cursor(0, |data|), data[c.offset..], calls)
    else ReadRun(PARTIAL, Cursor(c.offset + n, |data|), data[c.offset..c.offset + n], calls)
  }

  /** A transfer is at its start, or part of the way through the data. */
  predicate Underway(c: Cursor, data: seq<byte>) {
    c.offset == 0 || (c.offset < |data| && c.length == |data|)
  }

  /** One read call, in terms of the room it offers. */
  lemma {:induction false} ReadCall(c: Cursor, data: seq<byte>, count: nat)
    requires Underway(c, data)
    ensures var o, a := ReadStep(c, data, count), AfterReading(c, data, count, 1);
            o == ReadOut(a.code, a.cursor, Some(a.bytes)) && Underway(o.cursor, data)
  {
    assert data[0..] == data;
  }

  /** Two readings in a row are one. */
  lemma {:induction false} ReadTwice(c: Cursor, data: seq<byte>, m: nat, n: nat, calls: nat)
    requires c.offset + m < |data|
    ensures var r := AfterReading(Cursor(c.offset + m, |data|), data, n, calls);
            AfterReading(c, data, m + n, calls + 1)
            == ReadRun(r.code, r.cursor, data[c.offset..c.offset + m] + r.bytes, r.calls + 1)
  {
    var i, j := c.offset, c.offset + m;
    if j + n >= |data| {
      assert data[i..j] + data[j..] == data[i..];
    } else {
      assert data[i..j] + data[j..j + n] == data[i..j + n];
    }
  }

  lemma {:induction false} ReadOnce(c: Cursor, data: seq<byte>, counts: seq<nat>)
    requires counts != [] && Underway(c, data) && c.offset + counts[0] >= |data|
    ensures ReadTransfer(c, data, counts) == AfterReading(c, data, Sum(counts), 1)
  {
    ReadCall(c, data, counts[0]);
  }

  lemma {:induction false} ReadMore(c: Cursor, data: seq<byte>, counts: seq<nat>, r: ReadRun)
    requires counts != [] && Underway(c, data) && c.offset + counts[0] < |data|
    requires r == ReadTransfer(Cursor(c.offset + counts[0], |data|), data, counts[1..])
    requires r == AfterReading(Cursor(c.offset + counts[0], |data|), data, Sum(counts[1..]), r.calls)
    ensures ReadTransfer(c, data, counts) == AfterReading(c, data, Sum(counts), r.calls + 1)
  {
    var m, n := counts[0], Sum(counts[1..]);
    assert Sum(counts) == m + n;
    var joined := ReadRun(r.code, r.cursor, data[c.offset..c.offset + m] + r.bytes, r.calls + 1);
    assert ReadTransfer(c, data, counts) == joined by {
      ReadOneMore(c, data, counts, r);
    }
    assert AfterReading(c, data, m + n, r.calls + 1) == joined by {
      JoinReading(c, data, m, n, r);
    }
  }

  lemma {:induction false} JoinReading(c: Cursor, data: seq<byte>, m: nat, n: nat, r: ReadRun)
    requires c.offset + m < |data| && r == AfterReading(Cursor(c.offset + m, |data|), data, n, r.calls)
    ensures AfterReading(c, data, m + n, r.calls + 1)
            == ReadRun(r.code, r.cursor, data[c.offset..c.offset + m] + r.bytes, r.calls + 1)
  {
    ReadTwice(c, data, m, n, r.calls);
  }

  lemma {:induction false} ReadOneMore(c: Cursor, data: seq<byte>, counts: seq<nat>, r: ReadRun)
    requires counts != [] && Underway(c, data) && c.offset + counts[0] < |data|
    requires r == ReadTransfer(Cursor(c.offset + counts[0], |data|), data, counts[1..])
    ensures ReadTransfer(c, data, counts)
            == ReadRun(r.code, r.cursor, data[c.offset..c.offset + counts[0]] + r.bytes, r.calls + 1)
  {
    ReadCall(c, data, counts[0]);
  }

  /** Reading, mid-way: all the calls together. */
  lemma {:induction false} ReadFrom(c: Cursor, data: seq<byte>, counts: seq<nat>)
    requires Underway(c, data) && (counts == [] ==> c.offset < c.length == |data|)
    ensures var r := ReadTransfer(c, data, counts);
            r == AfterReading(c, data, Sum(counts), r.calls)
    decreases |counts|
  {
    if counts == [] {
      assert data[c.offset..c.offset] == [];
    } else if c.offset + counts[0] < |data| {
      var c1 := Cursor(c.offset + counts[0], |data|);
      ReadFrom(c1, data, counts[1..]);
      ReadMore(c, data, counts, ReadTransfer(c1, data, counts[1..]));
    } else {
      ReadOnce(c, data, counts);
    }
  }

  lemma {:induction false} ReadCalls(c: Cursor, data: seq<byte>, counts: seq<nat>)
    requires ReadTransfer(c, data, counts).code == PARTIAL
    ensures ReadTransfer(c, data, counts).calls == |counts|
    decreases |counts|
  {
    if counts != [] {
      ReadCalls(ReadStep(c, data, counts[0]).cursor, data, counts[1..]);
    }
  }

  /** Segmented read reassembly: for every list of counts, the transfer completes exactly when the counts
      cover the data, and then the chunks concatenate to the data and the offset is back at zero. */
  lemma {:induction false} ReadReassembles(length: nat, data: seq<byte>, counts: seq<nat>)
    requires counts != []
    ensures var r := ReadTransfer(Cursor(0, length), data, counts);
            && (r.code == OK <==> Sum(counts) >= |data|)
            && (r.code == OK ==> r.bytes == data && r.cursor == Cursor(0, |data|))
            && (r.code != OK ==> r.code == PARTIAL && r.calls == |counts|
                                 && r.bytes == data[..Sum(counts)] && r.cursor == Cursor(Sum(counts), |data|))
  {
    ReadFrom(Cursor(0, length), data, counts);
    assert data[0..] == data;
    if ReadTransfer(Cursor(0, length), data, counts).code == PARTIAL {
      ReadCalls(Cursor(0, length), data, counts);
    }
  }

  /** Termination measure: a PARTIAL read with room for at least one byte leaves strictly less to read. */
  lemma {:induction false} ReadProgress(c: Cursor, data: seq<byte>, count: nat)
    requires ReadStep(c, data, count).code == PARTIAL && count > 0
    ensures c.offset < ReadStep(c, data, count).cursor.offset < |data|
    ensures |data| - ReadStep(c, data, count).cursor.offset < |data| - c.offset
  {}

  /** Where a transfer stands after `p` more bytes of a payload that does not exceed the announced length. */
  function AfterWriting(c: Cursor, buffer: seq<byte>, p: seq<byte>, calls: nat): WriteRun
    requires c.offset + |p| <= |buffer|
  {
    var b := Overwrite(buffer, c.offset, p);
    if c.offset + |p| == c.length then WriteRun(OK, Cursor(0, c.length), b, calls)
    else WriteRun(PARTIAL, Cursor(c.offset + |p|, c.length), b, calls)
  }

  /** One write call that does not exceed the announced length. */
  lemma {:induction false} WriteCall(c: Cursor, buffer: seq<byte>, max: nat, seg: seq<byte>)
    requires c.offset + |seg| <= c.length <= max <= |buffer| && (c.offset == 0 || c.offset < c.length)
    ensures var o, a := WriteStep(c, buffer, max, seg), AfterWriting(c, buffer, seg, 1);
            o.code == a.code && o.cursor == a.cursor && o.buffer == a.buffer
  {}

  /** Two writings in a row are one. */
  lemma {:induction false} WriteTwice(c: Cursor, buffer: seq<byte>, s: seq<byte>, t: seq<byte>, calls: nat)
    requires c.offset + |s| < c.length && c.offset + |s| + |t| <= c.length <= |buffer|
    ensures AfterWriting(Cursor(c.offset + |s|, c.length), Overwrite(buffer, c.offset, s), t, calls)
            == AfterWriting(c, buffer, s + t, calls)
  {
    OverwriteTwice(buffer, c.offset, s, t);
  }

  /** Writing, mid-way: all the calls together. */
  lemma {:induction false} WriteFrom(c: Cursor, buffer: seq<byte>, max: nat, segs: seq<seq<byte>>)
    requires c.length <= max <= |buffer|
    requires c.offset < c.length || (c.offset == 0 && segs != [])
    requires c.offset + |Flatten(segs)| <= c.length
    ensures var r := WriteTransfer(c, buffer, max, segs);
            r == AfterWriting(c, buffer, Flatten(segs), r.calls)
    decreases |segs|
  {
    if segs == [] {
      assert Overwrite(buffer, c.offset, []) == buffer;
    } else {
      var seg, rest := segs[0], segs[1..];
      var p := Flatten(rest);
      WriteCall(c, buffer, max, seg);
      if c.offset + |seg| < c.length {
        var c1, b1 := Cursor(c.offset + |seg|, c.length), Overwrite(buffer, c.offset, seg);
        WriteFrom(c1, b1, max, rest);
        WriteTwice(c, buffer, seg, p, WriteTransfer(c1, b1, max, rest).calls);
        assert WriteTransfer(c, buffer, max, segs).(calls := 0) == WriteTransfer(c1, b1, max, rest).(calls := 0);
      } else {
        assert p == [] && seg + p == seg;
      }
    }
  }

  /** With non-empty segments no call is wasted: the last one is the one that completes the transfer. */
  lemma {:induction false} WriteCalls(c: Cursor, buffer: seq<byte>, max: nat, segs: seq<seq<byte>>)
    requires c.length <= max <= |buffer| && segs != []
    requires c.offset == 0 || c.offset < c.length
    requires || c.offset + |Flatten(segs)| < c.length
             || (c.offset + |Flatten(segs)| == c.length && forall s :: s in segs ==> s != [])
    ensures WriteTransfer(c, buffer, max, segs).calls == |segs|
    decreases |segs|
  {
    var o := WriteStep(c, buffer, max, segs[0]);
    var rest := segs[1..];
    if rest != [] {
      assert rest[0] in segs;
      assert forall s :: s in rest ==> s in segs;
      WriteCalls(o.cursor, o.buffer, max, rest);
    } else {
      assert Flatten(segs) == segs[0];
    }
  }

  lemma {:induction false} OverwriteTwice(buffer: seq<byte>, at: nat, s: seq<byte>, t: seq<byte>)
    requires at + |s| + |t| <= |buffer|
    ensures Overwrite(Overwrite(buffer, at, s), at + |s|, t) == Overwrite(buffer, at, s + t)
  {}

  /** Segmented write reassembly: for every split of a payload of the announced length the transfer ends
      OK, the buffer prefix is the payload, the rest of the buffer is untouched, and with non-empty
      segments every call but the last was PARTIAL. A shorter payload leaves the transfer open. */
  lemma {:induction false} WriteReassembles(length: nat, buffer: seq<byte>, max: nat, segs: seq<seq<byte>>)
    requires length <= max <= |buffer| && segs != [] && |Flatten(segs)| <= length
    ensures var r := WriteTransfer(Cursor(0, length), buffer, max, segs);
            var p := Flatten(segs);
            && r.buffer == p + buffer[|p|..]
            && (r.code == OK <==> |p| == length)
            && (r.code == OK ==> r.cursor == Cursor(0, length))
            && (r.code != OK ==> r.code == PARTIAL && r.cursor == Cursor(|p|, length) && r.calls == |segs|)
    ensures |Flatten(segs)| == length && (forall s :: s in segs ==> s != []) ==>
              WriteTransfer(Cursor(0, length), buffer, max, segs).calls == |segs|
  {
    WriteFrom(Cursor(0, length), buffer, max, segs);
    if |Flatten(segs)| < length || (forall s :: s in segs ==> s != []) {
      WriteCalls(Cursor(0, length), buffer, max, segs);
    }
  }

  /** The bytes of the shortest run of leading segments that adds up to exactly `n`, if there is one. */
  function Payload(n: nat, segs: seq<seq<byte>>): (p: Option<seq<byte>>)
    ensures p.Some? ==> |p.value| == n
    decreases |segs|
  {
    if segs == [] || |segs[0]| > n then None
    else if |segs[0]| == n then Some(segs[0])
    else
      var p := Payload(n - |segs[0]|, segs[1..]);
      if p.None? then None else Some(segs[0] + p.value)
  }

  /** A segment that leaves something to come: the transfer goes on after it. */
  lemma {:induction false} WriteGoesOn(c: Cursor, buffer: seq<byte>, max: nat, segs: seq<seq<byte>>)
    requires c.length <= max <= |buffer| && segs != [] && c.offset + |segs[0]| < c.length
    ensures var c1, b1 := Cursor(c.offset + |segs[0]|, c.length), Overwrite(buffer, c.offset, segs[0]);
            var r := WriteTransfer(c1, b1, max, segs[1..]);
            WriteTransfer(c, buffer, max, segs) == r.(calls := r.calls + 1)
  {
    WriteCall(c, buffer, max, segs[0]);
  }

  /** A segment that brings just what is left ends the transfer. */
  lemma {:induction false} WriteEnds(c: Cursor, buffer: seq<byte>, max: nat, segs: seq<seq<byte>>)
    requires c.length <= max <= |buffer| && segs != [] && c.offset + |segs[0]| == c.length
    requires c.offset == 0 || c.offset < c.length
    ensures WriteTransfer(c, buffer, max, segs)
            == WriteRun(OK, Cursor(0, c.length), Overwrite(buffer, c.offset, segs[0]), 1)
  {
    WriteCall(c, buffer, max, segs[0]);
  }

  /** A segment that brings more than is left is refused. */
  lemma {:induction false} WriteRefuses(c: Cursor, buffer: seq<byte>, max: nat, segs: seq<seq<byte>>)
    requires c.length <= max <= |buffer| && segs != [] && c.offset + |segs[0]| > c.length
    requires c.offset == 0 || c.offset < c.length
    ensures WriteTransfer(c, buffer, max, segs) == WriteRun(DATA_LONG, Cursor(0, c.length), buffer, 1)
  {}

  /** For every list of segments whatever, a write ends OK exactly when some leading segments add up to the
      announced length, and then those bytes, and no others, are what the buffer received. */
  lemma {:induction false} WriteCompletes(c: Cursor, buffer: seq<byte>, max: nat, segs: seq<seq<byte>>)
    requires c.length <= max <= |buffer|
    requires c.offset == 0 || c.offset < c.length
    ensures var r, p := WriteTransfer(c, buffer, max, segs), Payload(c.length - c.offset, segs);
            && (r.code == OK <==> p.Some?)
            && (r.code == OK ==> r.buffer == Overwrite(buffer, c.offset, p.value) && r.cursor == Cursor(0, c.length))
    decreases |segs|
  {
    if segs != [] {
      var seg := segs[0];
      if c.offset + |seg| == c.length {
        WriteEnds(c, buffer, max, segs);
      } else if c.offset + |seg| > c.length {
        WriteRefuses(c, buffer, max, segs);
      } else {
        WriteGoesOn(c, buffer, max, segs);
        var c1, b1 := Cursor(c.offset + |seg|, c.length), Overwrite(buffer, c.offset, seg);
        WriteCompletes(c1, b1, max, segs[1..]);
        var p := Payload(c.length - c1.offset, segs[1..]);
        if p.Some? {
          OverwriteTwice(buffer, c.offset, seg, p.value);
        }
      }
    }
  }

  /** A segment longer than what remains is refused: the call that overshoots changes no byte, so the
      buffer keeps exactly the segments before it, and the offset is back at zero. */
  lemma {:induction false} WriteOvershoots(c: Cursor, buffer: seq<byte>, max: nat, segs: seq<seq<byte>>, k: nat)
    requires c.length <= max <= |buffer| && k < |segs|
    requires c.offset == 0 || c.offset < c.length
    requires c.offset + |Flatten(segs[..k])| < c.length || (k == 0 && c.offset == 0)
    requires c.offset + |Flatten(segs[..k])| + |segs[k]| > c.length
    ensures var r := WriteTransfer(c, buffer, max, segs);
            var p := Flatten(segs[..k]);
            && c.offset + |p| <= c.length
            && r == WriteRun(DATA_LONG, Cursor(0, c.length), Overwrite(buffer, c.offset, p), k + 1)
    decreases k
  {
    if k == 0 {
      WriteRefuses(c, buffer, max, segs);
      assert Flatten(segs[..0]) == [] && Overwrite(buffer, c.offset, []) == buffer;
    } else {
      var seg, rest := segs[0], segs[1..];
      assert segs[..k][0] == seg && segs[..k][1..] == rest[..k - 1];
      assert Flatten(segs[..k]) == seg + Flatten(rest[..k - 1]);
      WriteGoesOn(c, buffer, max, segs);
      var c1, b1 := Cursor(c.offset + |seg|, c.length), Overwrite(buffer, c.offset, seg);
      WriteOvershoots(c1, b1, max, rest, k - 1);
      OverwriteTwice(buffer, c.offset, seg, Flatten(rest[..k - 1]));
    }
  }

  // ---------------------------------------------------------------- the C entry points

  /** The part of OD_stream_t that the handlers read and write. */
  class Stream {
    var dataOffset: nat
    var dataLength: nat

    constructor (length: nat)
      ensures At() == Cursor(0, length)
    {
      dataOffset, dataLength := 0, length;
    }

    function At(): Cursor
      reads this
    {
      Cursor(dataOffset, dataLength)
    }
  }

  method ReadData(stream: Stream?, buf: array?<byte>, count: nat, data: array?<byte>, dataLen: nat)
    returns (r: Code, countRead: Option<nat>)
    requires buf != null ==> count <= buf.Length && buf != data
    requires data != null ==> dataLen <= data.Length
    modifies stream, buf
    ensures stream == null || buf == null ==> r == DEV_INCOMPAT
    ensures stream != null && buf != null && data == null ==> r == NO_DATA
    ensures stream == null || buf == null || data == null ==>
              && countRead == None
              && (stream != null ==> stream.At() == old(stream.At()))
              && (buf != null ==> buf[..] == old(buf[..]))
    ensures stream != null && buf != null && data != null ==>
              var o := ReadStep(old(stream.At()), old(data[..dataLen]), count);
              && r == o.code && stream.At() == o.cursor
              && (o.chunk.None? ==> countRead == None && buf[..] == old(buf[..]))
              && (o.chunk.Some? ==> && countRead == Some(|o.chunk.value|)
                                    && |o.chunk.value| <= count
                                    && buf[..] == Overwrite(old(buf[..]), 0, o.chunk.value))
  {
    countRead := None;
    if stream == null || buf == null {
      return DEV_INCOMPAT, None;
    }
    var dataLenToCopy := dataLen;
    if data == null {
      return NO_DATA, None;
    }
    var orig := 0;
    r := OK;
    if stream.dataOffset == 0 {
      stream.dataLength := dataLen;
    }
    if stream.dataOffset > 0 || dataLenToCopy > count {
      if stream.dataOffset >= dataLenToCopy {
        return DEV_INCOMPAT, None;
      }
      dataLenToCopy := dataLenToCopy - stream.dataOffset;
      orig := orig + stream.dataOffset;
      if dataLenToCopy > count {
        dataLenToCopy := count;
        stream.dataOffset := stream.dataOffset + dataLenToCopy;
        r := PARTIAL;
      } else {
        stream.dataOffset := 0;
      }
    }
    SliceOfPrefix(data[..], dataLen, orig, orig + dataLenToCopy);
    Memcpy(buf, 0, data, orig, dataLenToCopy);
    countRead := Some(dataLenToCopy);
  }

  lemma {:induction false} SliceOfPrefix(s: seq<byte>, n: nat, i: nat, j: nat)
    requires i <= j <= n <= |s|
    ensures s[..n][i..j] == s[i..j]
    ensures j == n ==> s[..n][i..] == s[i..j]
  {}

  method Memcpy(dst: array<byte>, at: nat, src: array<byte>, from: nat, n: nat)
    requires dst != src && at + n <= dst.Length && from + n <= src.Length
    modifies dst
    ensures dst[..] == Overwrite(old(dst[..]), at, src[from..from + n])
  {
    forall i | 0 <= i < n {
      dst[at + i] := src[from + i];
    }
  }

  method WriteData(stream: Stream?, buf: array?<byte>, count: nat, data: array?<byte>, dataMaxLen: nat)
    returns (r: Code, countWritten: Option<nat>, dataWritten: Option<nat>)
    requires buf != null ==> count <= buf.Length && buf != data
    requires data != null ==> dataMaxLen <= data.Length
    modifies stream, data
    ensures stream == null || buf == null ==> r == DEV_INCOMPAT
    ensures stream != null && buf != null && data == null ==>
              r == (if stream.dataLength > dataMaxLen then DEV_INCOMPAT else SUB_NOT_EXIST)
    ensures stream == null || buf == null || data == null ==>
              && countWritten == None && dataWritten == None
              && (stream != null ==> stream.At() == old(stream.At()))
              && (data != null ==> data[..] == old(data[..]))
    ensures stream != null && buf != null && data != null ==>
              WriteOut(r, stream.At(), data[..], countWritten, dataWritten)
              == WriteStep(old(stream.At()), old(data[..]), dataMaxLen, old(buf[..count]))
  {
    if stream == null || buf == null {
      return DEV_INCOMPAT, None, None;
    }
    if stream.dataLength > dataMaxLen {
      return DEV_INCOMPAT, None, None;
    }
    if data == null {
      return SUB_NOT_EXIST, None, None;
    }
    r, countWritten, dataWritten := StoreSegment(stream, buf, count, data, dataMaxLen);
  }

  /** The part of od_ext_write_data after its checks. */
  method StoreSegment(stream: Stream, buf: array<byte>, count: nat, data: array<byte>, ghost dataMaxLen: nat)
    returns (r: Code, countWritten: Option<nat>, dataWritten: Option<nat>)
    requires count <= buf.Length && buf != data && stream.dataLength <= dataMaxLen <= data.Length
    modifies stream, data
    ensures WriteOut(r, stream.At(), data[..], countWritten, dataWritten)
            == WriteStep(old(stream.At()), old(data[..]), dataMaxLen, old(buf[..count]))
  {
    countWritten, dataWritten := None, None;
    var dataLenToCopy := stream.dataLength;
    var dataLenRemain := dataLenToCopy;
    ghost var was, seg := data[..], buf[..count];
    ghost var o := WriteStep(stream.At(), was, dataMaxLen, seg);
    var orig := 0;
    r := OK;
    if stream.dataOffset > 0 || dataLenToCopy > count {
      if stream.dataOffset >= dataLenToCopy {
        return DEV_INCOMPAT, None, None;
      }
      dataLenToCopy := dataLenToCopy - stream.dataOffset;
      dataLenRemain := dataLenToCopy;
      orig := orig + stream.dataOffset;
      if dataLenToCopy > count {
        dataLenToCopy := count;
        stream.dataOffset := stream.dataOffset + dataLenToCopy;
        r := PARTIAL;
      } else {
        stream.dataOffset := 0;
      }
    }
    if dataLenToCopy < count {
      return DATA_LONG, None, None;
    }
    // The handler's extra size check always passes here.
    assert dataLenToCopy <= dataLenRemain && dataLenToCopy == count;
    assert buf[0..count] == seg;
    assert o.buffer == Overwrite(was, orig, seg);
    Memcpy(data, orig, buf, 0, dataLenToCopy);
    assert data[..] == o.buffer;
    if stream.dataOffset == 0 {
      dataWritten := Some(stream.dataLength);
    }
    countWritten := Some(dataLenToCopy);
  }

  /** od_ext_read_data on a text and its terminator. */
  method ReadText(stream: Stream, buf: array<byte>, count: nat, text: seq<byte>)
    returns (r: Code, countRead: Option<nat>)
    requires count <= buf.Length
    modifies stream, buf
    ensures var o := ReadStep(old(stream.At()), text + [NUL], count);
            && r == o.code && stream.At() == o.cursor
            && (o.chunk.None? ==> countRead == None)
            && (o.chunk.Some? ==> countRead == Some(|o.chunk.value|) && |o.chunk.value| <= count
                                  && buf[..|o.chunk.value|] == o.chunk.value)
  {
    var all := text + [NUL];
    var data := new byte[|all|](i requires 0 <= i < |all| => all[i]);
    assert data[..|all|] == all;
    r, countRead := ReadData(stream, buf, count, data, |all|);
  }

  // ---------------------------------------------------------------- what one call answers

  /** A write call by what is left to come: short of it PARTIAL, just it OK, more DATA_LONG; a count is reported
      for whatever is taken, and the total once all is there. Too long an object is refused outright. */
  lemma {:induction false} WriteAnswers(c: Cursor, buffer: seq<byte>, max: nat, seg: seq<byte>)
    requires max <= |buffer| && (c.offset == 0 || c.offset < c.length)
    ensures var o := WriteStep(c, buffer, max, seg);
            && (c.length > max ==> o == WriteOut(DEV_INCOMPAT, c, buffer, None, None))
            && (c.length <= max && c.offset + |seg| < c.length ==>
                  && o.code == PARTIAL && o.cursor == Cursor(c.offset + |seg|, c.length) && o.count == Some(|seg|)
                  && o.written == (if o.cursor.offset == 0 then Some(c.length) else None)
                  && o.buffer == Overwrite(buffer, c.offset, seg))
            && (c.length <= max && c.offset + |seg| == c.length ==>
                  && o.code == OK && o.cursor == Cursor(0, c.length) && o.count == Some(|seg|)
                  && o.written == Some(c.length) && o.buffer == Overwrite(buffer, c.offset, seg))
            && (c.length <= max && c.offset + |seg| > c.length ==>
                  o == WriteOut(DATA_LONG, Cursor(0, c.length), buffer, None, None))
  {}

  /** A read call by what is left: as much as there is room for, OK when that is all of it. A stream past the
      end, which only a change of the data can cause, is answered with DEV_INCOMPAT. */
  lemma {:induction false} ReadAnswers(c: Cursor, data: seq<byte>, count: nat)
    ensures var o := ReadStep(c, data, count);
            && o.cursor.length == (if c.offset == 0 then |data| else c.length)
            && (c.offset > 0 && c.offset >= |data| ==>
                  o.code == DEV_INCOMPAT && o.cursor.offset == c.offset && o.chunk == None)
            && (c.offset + count < |data| ==>
                  && o.code == PARTIAL && o.cursor.offset == c.offset + count
                  && o.chunk == Some(data[c.offset..c.offset + count]))
            && (c.offset <= |data| <= c.offset + count && (c.offset == 0 || c.offset < |data|) ==>
                  o.code == OK && o.cursor.offset == 0 && o.chunk == Some(data[c.offset..]))
  {
    assert data[0..] == data;
  }
}
