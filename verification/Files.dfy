/** The file handlers of src/od_extensions/od_ext.c, and their agreement with the memory handlers. */
module Files {
  import opened Base
  import opened Segments

  type Path = seq<byte>
  type FileMap = map<Path, seq<byte>>

  /** An open FILE*: the path it was opened on, the position up to which the file system has been told, the
      mode, the bytes written to it that the C library still holds back, and, once the path has been taken
      away, the content that lives on without a name. */
  datatype Handle = Handle(path: Path, at: nat, writing: bool, unsent: seq<byte>, orphan: Option<seq<byte>>)

  /** A change made to the file system by anyone else, and how many held-back bytes of the open handle the C
      library writes out on that occasion. */
  datatype Change = Change(removed: set<Path>, added: FileMap, flushed: nat) {
    function On(files: FileMap): FileMap {
      files - removed + added
    }

    predicate Spares(p: Path) {
      p !in removed && p !in added
    }

    /** The file at the path is not changed in place; its name may be taken away, and even given to another. */
    predicate Leaves(p: Path) {
      p in removed || p !in added
    }
  }

  /** Writing some bytes at a position; a gap before it reads as zeros. */
  function Splice(f: seq<byte>, at: nat, b: seq<byte>): seq<byte> {
    (if at <= |f| then f[..at] else f + seq(at - |f|, _ => 0)) + b + (if at + |b| < |f| then f[at + |b|..] else [])
  }

  /** The file system, the handle slot `*fp`, and the number of opens and closes made so far. */
  datatype World = World(files: FileMap, dirs: set<Path>, fp: Option<Handle>, opens: nat, closes: nat) {
    /** What the handle reads from and writes to. */
    function Content(h: Handle): Option<seq<byte>> {
      if h.orphan.Some? then h.orphan else if h.path in files then Some(files[h.path]) else None
    }

    /** The first `n` held-back bytes reach the file. */
    function Flush(n: nat): World {
      if fp.None? || fp.value.unsent == [] || n == 0 || Content(fp.value).None? then this
      else
        var h, k := fp.value, if n < |fp.value.unsent| then n else |fp.value.unsent|;
        var f := Splice(Content(h).value, h.at, h.unsent[..k]);
        var h1 := h.(at := h.at + k, unsent := h.unsent[k..]);
        if h.orphan.Some? then this.(fp := Some(h1.(orphan := Some(f))))
        else this.(files := files[h.path := f], fp := Some(h1))
    }

    /** fclose writes out what is held back. */
    function Close(): World {
      (if fp.Some? then Flush(|fp.value.unsent|) else this).(fp := None, closes := closes + 1)
    }

    function Shut(): World {
      if fp.Some? then Close() else this
    }

    /** fopen(path, "rb"): fails unless the path names a file. */
    function OpenRead(path: Path): World {
      if path in files then this.(fp := Some(Handle(path, 0, false, [], None)), opens := opens + 1)
      else this.(fp := None)
    }

    /** fopen(path, "wb"): creates or empties the file, and fails on a directory. */
    function OpenWrite(path: Path): World {
      if path in dirs then this.(fp := None)
      else this.(files := files[path := []], fp := Some(Handle(path, 0, true, [], None)), opens := opens + 1)
    }

    /** fread of `n` bytes: the bytes obtained. */
    function Read(n: nat): (seq<byte>, World) {
      if fp.None? || fp.value.writing || Content(fp.value).None? then ([], this)
      else
        var h, f := fp.value, Content(fp.value).value;
        if h.at + n > |f| then ([], this) else (f[h.at..h.at + n], this.(fp := Some(h.(at := h.at + n))))
    }

    /** fwrite of a segment: the C library takes it over. */
    function Write(seg: seq<byte>): World {
      if fp.None? || !fp.value.writing then this
      else this.(fp := Some(fp.value.(unsent := fp.value.unsent + seg)))
    }

    /** The handle when some paths are taken away: its file lives on without a name. */
    function Detached(gone: set<Path>): Option<Handle> {
      if fp.Some? && fp.value.orphan.None? && fp.value.path in gone && fp.value.path in files
      then Some(fp.value.(orphan := Some(files[fp.value.path]))) else fp
    }

    /** remove(path). */
    function Unlink(path: Path): World {
      this.(files := files - {path}, fp := Detached({path}))
    }

    function Outside(ch: Change): World {
      this.(files := ch.On(files), fp := Detached(ch.removed)).Flush(ch.flushed)
    }
  }

  datatype FileReadOut = FileReadOut(code: Code, cursor: Cursor, world: World, chunk: seq<byte>, count: Option<nat>)
  datatype FileWriteOut = FileWriteOut(code: Code, cursor: Cursor, world: World, count: Option<nat>)

  // ---------------------------------------------------------------- one call

  function ReadFileStep(c: Cursor, w: World, path: Path, count: nat): FileReadOut {
    if c.offset == 0 then
      var w1 := w.Shut().OpenRead(path);
      if w1.fp.None? then FileReadOut(DEV_INCOMPAT, c, w1, [], None)
      else if w1.files[path] == [] then FileReadOut(NO_DATA, c.(length := 0), w1.Close(), [], None)
      else ReadOpened(c.(length := |w1.files[path]|), w1, count)
    else ReadOpened(c, w, count)
  }

  function ReadOpened(c: Cursor, w: World, count: nat): FileReadOut {
    if c.offset > 0 || c.length > count then
      if c.offset >= c.length then FileReadOut(DEV_INCOMPAT, c, w.Close(), [], None)
      else if c.length - c.offset > count then
        var (chunk, w1) := w.Read(count);
        FileReadOut(PARTIAL, c.(offset := c.offset + count), w1, chunk, Some(count))
      else
        var (chunk, w1) := w.Read(c.length - c.offset);
        FileReadOut(OK, c.(offset := 0), w1.Close(), chunk, Some(c.length - c.offset))
    else
      var (chunk, w1) := w.Read(c.length);
      FileReadOut(OK, c, w1.Close(), chunk, Some(c.length))
  }

  function WriteFileStep(c: Cursor, w: World, path: Path, seg: seq<byte>): FileWriteOut {
    if c.offset == 0 then
      var w1 := w.Shut().OpenWrite(path);
      if w1.fp.None? then FileWriteOut(DEV_INCOMPAT, c, w1, None) else WriteOpened(c, w1, seg)
    else WriteOpened(c, w, seg)
  }

  function WriteOpened(c: Cursor, w: World, seg: seq<byte>): FileWriteOut {
    if c.offset > 0 || c.length > |seg| then
      if c.offset >= c.length then FileWriteOut(DEV_INCOMPAT, c, w.Close(), None)
      else if c.length - c.offset > |seg| then
        FileWriteOut(PARTIAL, c.(offset := c.offset + |seg|), w.Write(seg), Some(|seg|))
      else if c.length - c.offset < |seg| then FileWriteOut(DATA_LONG, c.(offset := 0), w.Close(), None)
      else FileWriteOut(OK, c.(offset := 0), (if w.fp.Some? then w.Write(seg).Close() else w), Some(|seg|))
    else if c.length < |seg| then FileWriteOut(DATA_LONG, c, w.Close(), None)
    else FileWriteOut(OK, c, (if w.fp.Some? then w.Write(seg).Close() else w), Some(|seg|))
  }

  /** An empty file cannot be read: it is opened and closed again. */
  lemma {:induction false} EmptyFileHasNoData(c: Cursor, w: World, path: Path, count: nat)
    requires c.offset == 0 && w.fp == None && path in w.files && w.files[path] == []
    ensures var o := ReadFileStep(c, w, path, count);
            && o.code == NO_DATA && o.cursor == Cursor(0, 0) && o.count == None && o.chunk == []
            && o.world == w.(opens := w.opens + 1, closes := w.closes + 1)
  {}

  /** A change takes away what it removes, sets what it adds, and keeps the rest. */
  lemma {:induction false} ChangeMeans(ch: Change, files: FileMap, p: Path)
    ensures p in ch.On(files) <==> p in ch.added || (p in files && p !in ch.removed)
    ensures p in ch.On(files) ==> ch.On(files)[p] == if p in ch.added then ch.added[p] else files[p]
  {}

  /** The bytes of a file after some have been written at a position. */
  lemma {:induction false} SpliceMeans(f: seq<byte>, at: nat, b: seq<byte>)
    ensures var r, end := Splice(f, at, b), at + |b|;
            && |r| == (if end > |f| then end else |f|)
            && forall i :: 0 <= i < |r| ==>
                 r[i] == if at <= i < end then b[i - at] else if i < |f| then f[i] else NUL
  {}

  // ---------------------------------------------------------------- handle discipline

  /** Everything that can happen to one handle slot and the stream that drives it. */
  datatype Call =
    | Begin(length: nat)                                 // a new transfer, whether or not the last one finished
    | ReadCall(rpath: Path, count: nat)
    | WriteCall(wpath: Path, seg: seq<byte>)
    | Elsewhere(ch: Change, dirs: set<Path>)             // any change made by anyone else, and any flush

  datatype Slot = Slot(cursor: Cursor, world: World)

  function Act(s: Slot, call: Call): Slot {
    match call
    case Begin(n) => s.(cursor := Cursor(0, n))
    case ReadCall(p, n) => var o := ReadFileStep(s.cursor, s.world, p, n); Slot(o.cursor, o.world)
    case WriteCall(p, seg) => var o := WriteFileStep(s.cursor, s.world, p, seg); Slot(o.cursor, o.world)
    case Elsewhere(ch, ds) => s.(world := s.world.Outside(ch).(dirs := ds))
  }

  function ActAll(s: Slot, calls: seq<Call>): Slot
    decreases |calls|
  {
    if calls == [] then s else ActAll(Act(s, calls[0]), calls[1..])
  }

  /** One handle is out exactly while `fp` is set; a transfer past its start holds it, short of its end. */
  predicate Disciplined(s: Slot) {
    && s.world.opens - s.world.closes == (if s.world.fp.Some? then 1 else 0)
    && (s.cursor.offset > 0 ==> s.world.fp.Some? && s.cursor.offset < s.cursor.length)
  }

  /** A flush and an outside change open and close nothing. */
  lemma {:induction false} SameHandle(w: World, n: nat, ch: Change)
    ensures var v := w.Flush(n); (v.fp.Some? <==> w.fp.Some?) && v.opens == w.opens && v.closes == w.closes
    ensures var v := w.Outside(ch); (v.fp.Some? <==> w.fp.Some?) && v.opens == w.opens && v.closes == w.closes
    ensures var v := w.Close(); v.fp == None && v.opens == w.opens && v.closes == w.closes + 1
  {}

  lemma {:induction false} ReadKeepsDiscipline(s: Slot, path: Path, count: nat)
    requires Disciplined(s)
    ensures var o := ReadFileStep(s.cursor, s.world, path, count); Disciplined(Slot(o.cursor, o.world))
  {}

  lemma {:induction false} WriteKeepsDiscipline(s: Slot, path: Path, seg: seq<byte>)
    requires Disciplined(s)
    ensures var o := WriteFileStep(s.cursor, s.world, path, seg); Disciplined(Slot(o.cursor, o.world))
  {}

  lemma {:induction false} ActKeepsDiscipline(s: Slot, call: Call)
    requires Disciplined(s)
    ensures Disciplined(Act(s, call))
  {
    match call
    case Begin(_) =>
    case ReadCall(p, n) => ReadKeepsDiscipline(s, p, n);
    case WriteCall(p, seg) => WriteKeepsDiscipline(s, p, seg);
    case Elsewhere(ch, _) => SameHandle(s.world, 0, ch);
  }

  /** Handle discipline over whole runs: any reads, writes, restarts and outside changes, in any order. */
  lemma {:induction false} HandlesBalance(s: Slot, calls: seq<Call>)
    requires Disciplined(s)
    ensures Disciplined(ActAll(s, calls))
    decreases |calls|
  {
    if calls != [] {
      ActKeepsDiscipline(s, calls[0]);
      HandlesBalance(Act(s, calls[0]), calls[1..]);
    }
  }

  /** From a slot that has never been used, after any run, the size-error branches cannot be taken: a call
      reports DEV_INCOMPAT exactly when it is the first of its transfer and the file cannot be opened. */
  lemma {:induction false} SizeErrorsUnreachable(
    files: FileMap, dirs: set<Path>, calls: seq<Call>, path: Path, count: nat, seg: seq<byte>)
    ensures var s := ActAll(Slot(Cursor(0, 0), World(files, dirs, None, 0, 0)), calls);
            && s.world.opens - s.world.closes == (if s.world.fp.Some? then 1 else 0)
            && (ReadFileStep(s.cursor, s.world, path, count).code == DEV_INCOMPAT
                <==> s.cursor.offset == 0 && path !in s.world.files)
            && (WriteFileStep(s.cursor, s.world, path, seg).code == DEV_INCOMPAT
                <==> s.cursor.offset == 0 && path in s.world.dirs)
  {
    HandlesBalance(Slot(Cursor(0, 0), World(files, dirs, None, 0, 0)), calls);
  }

  // ---------------------------------------------------------------- file handlers refine memory handlers

  /** A client of a read: ask for some bytes, or give up and start over. */
  datatype Pull = Fetch(count: nat) | Restart

  function DataPulls(c: Cursor, data: seq<byte>, pulls: seq<Pull>): seq<(Code, Cursor, seq<byte>, Option<nat>)>
    decreases |pulls|
  {
    if pulls == [] then []
    else if pulls[0].Restart? then DataPulls(c.(offset := 0), data, pulls[1..])
    else
      var o := ReadStep(c, data, pulls[0].count);
      [(o.code, o.cursor, if o.chunk.Some? then o.chunk.value else [],
        if o.chunk.Some? then Some(|o.chunk.value|) else None)]
      + DataPulls(o.cursor, data, pulls[1..])
  }

  function FilePulls(c: Cursor, w: World, path: Path, pulls: seq<Pull>): seq<(Code, Cursor, seq<byte>, Option<nat>)>
    decreases |pulls|
  {
    if pulls == [] then []
    else if pulls[0].Restart? then FilePulls(c.(offset := 0), w, path, pulls[1..])
    else
      var o := ReadFileStep(c, w, path, pulls[0].count);
      [(o.code, o.cursor, o.chunk, o.count)] + FilePulls(o.cursor, o.world, path, pulls[1..])
  }

  /** Mid-way through reading: the handle's position in the content is the stream offset. */
  predicate Reading(c: Cursor, w: World, data: seq<byte>) {
    && 0 < c.offset < c.length == |data|
    && w.fp.Some? && !w.fp.value.writing && w.fp.value.unsent == [] && w.fp.value.at == c.offset
    && w.Content(w.fp.value) == Some(data)
  }

  /** The simulation relation of reads: the path holds the data once the handle left open has been closed, and
      mid-way the handle is where the stream is. */
  predicate ReadsInStep(c: Cursor, w: World, path: Path, data: seq<byte>) {
    && data != [] && path in w.Shut().files && w.Shut().files[path] == data
    && (c.offset > 0 ==> Reading(c, w, data))
  }

  /** A step mid-way touches no file. */
  lemma {:induction false} MidReadAgrees(c: Cursor, w: World, path: Path, data: seq<byte>, count: nat)
    requires Reading(c, w, data)
    ensures var o, m := ReadFileStep(c, w, path, count), ReadStep(c, data, count);
            && o.code == m.code && o.cursor == m.cursor && m.chunk == Some(o.chunk) && o.count == Some(|o.chunk|)
            && (o.code == PARTIAL ==> Reading(o.cursor, o.world, data))
            && (o.code != PARTIAL ==> o.code == OK && o.cursor.offset == 0 && o.world.fp == None)
            && o.world.files == w.files && o.world.dirs == w.dirs
  {
    assert data[c.offset..|data|] == data[c.offset..];
  }

  lemma {:induction false} FirstReadAgrees(c: Cursor, w: World, path: Path, data: seq<byte>, count: nat)
    requires ReadsInStep(c, w, path, data) && c.offset == 0
    ensures var o, m := ReadFileStep(c, w, path, count), ReadStep(c, data, count);
            && o.code == m.code && o.cursor == m.cursor && m.chunk == Some(o.chunk) && o.count == Some(|o.chunk|)
            && (o.cursor.offset > 0 ==> Reading(o.cursor, o.world, data))
            && o.world.Shut().files == o.world.files == w.Shut().files && o.world.dirs == w.dirs
  {
    var w1 := w.Shut().OpenRead(path);
    assert w1.files == w.Shut().files && w1.Content(w1.fp.value) == Some(data);
    assert data[0..] == data && data[0..|data|] == data;
  }

  lemma {:induction false} ReadStepsAgree(c: Cursor, w: World, path: Path, data: seq<byte>, count: nat)
    requires ReadsInStep(c, w, path, data)
    ensures var o, m := ReadFileStep(c, w, path, count), ReadStep(c, data, count);
            && o.code == m.code && o.cursor == m.cursor
            && m.chunk == Some(o.chunk) && o.count == Some(|o.chunk|)
            && ReadsInStep(o.cursor, o.world, path, data)
            && o.world.files == w.Shut().files && o.world.dirs == w.dirs
  {
    if c.offset == 0 {
      FirstReadAgrees(c, w, path, data, count);
    } else {
      MidReadAgrees(c, w, path, data, count);
    }
  }

  /** For non-empty content and every sequence of segment sizes and restarts, reading the file gives the
      same codes, cursors, bytes and counts as reading the same bytes from memory. The content is what the path
      holds once the handle left open by an earlier transfer has been closed. */
  lemma {:induction false} FileReadsRefineDataReads(
    c: Cursor, w: World, path: Path, data: seq<byte>, pulls: seq<Pull>)
    requires ReadsInStep(c, w, path, data)
    ensures FilePulls(c, w, path, pulls) == DataPulls(c, data, pulls)
    decreases |pulls|
  {
    if pulls != [] {
      if pulls[0].Restart? {
        FileReadsRefineDataReads(c.(offset := 0), w, path, data, pulls[1..]);
      } else {
        ReadStepsAgree(c, w, path, data, pulls[0].count);
        var o := ReadFileStep(c, w, path, pulls[0].count);
        FileReadsRefineDataReads(o.cursor, o.world, path, data, pulls[1..]);
      }
    }
  }

  /** A client of a write: send a segment, or start over with a new announced length. In between, the C library
      may write out any number of bytes it holds back. */
  datatype Push = Send(seg: seq<byte>) | Announce(length: nat) | Flushed(n: nat)

  /** What a write call lets its caller see, plus the bytes stored once the handle is closed: the prefix
      received so far on PARTIAL, the whole object on OK, nothing promised on an error. */
  datatype Seen = Seen(code: Code, cursor: Cursor, count: Option<nat>, stored: Option<seq<byte>>)

  function DataPushes(c: Cursor, buffer: seq<byte>, max: nat, pushes: seq<Push>): seq<Seen>
    requires max <= |buffer|
    decreases |pushes|
  {
    if pushes == [] then []
    else match pushes[0]
      case Announce(n) => DataPushes(Cursor(0, n), buffer, max, pushes[1..])
      case Flushed(_) => DataPushes(c, buffer, max, pushes[1..])
      case Send(seg) =>
        var o := WriteStep(c, buffer, max, seg);
        var stored := match o.code
          case PARTIAL => Some(o.buffer[..o.cursor.offset])
          case OK => Some(o.buffer[..c.length])
          case _ => None;
        [Seen(o.code, o.cursor, o.count, stored)] + DataPushes(o.cursor, o.buffer, max, pushes[1..])
  }

  function FilePushes(c: Cursor, w: World, path: Path, pushes: seq<Push>): seq<Seen>
    decreases |pushes|
  {
    if pushes == [] then []
    else match pushes[0]
      case Announce(n) => FilePushes(Cursor(0, n), w, path, pushes[1..])
      case Flushed(n) => FilePushes(c, w.Flush(n), path, pushes[1..])
      case Send(seg) =>
        var o := WriteFileStep(c, w, path, seg);
        var files := o.world.Shut().files;
        var stored := if (o.code == PARTIAL || o.code == OK) && path in files then Some(files[path]) else None;
        [Seen(o.code, o.cursor, o.count, stored)] + FilePushes(o.cursor, o.world, path, pushes[1..])
  }

  /** The open handle has taken over `got`: part of it is in the file, the rest is held back. */
  predicate Writing(w: World, path: Path, got: seq<byte>) {
    && w.fp.Some? && w.fp.value.path == path && w.fp.value.writing && w.fp.value.orphan.None?
    && path in w.files && w.fp.value.at == |w.files[path]| && w.files[path] + w.fp.value.unsent == got
  }

  lemma {:induction false} SpliceAtEnd(f: seq<byte>, b: seq<byte>)
    ensures Splice(f, |f|, b) == f + b
  {}

  lemma {:induction false} FlushWriting(w: World, path: Path, got: seq<byte>, n: nat)
    requires Writing(w, path, got)
    ensures Writing(w.Flush(n), path, got)
    ensures w.Flush(n) == w.(files := w.files[path := w.Flush(n).files[path]], fp := w.Flush(n).fp)
  {
    var f, u := w.files[path], w.fp.value.unsent;
    var k := if n < |u| then n else |u|;
    SpliceAtEnd(f, u[..k]);
    assert u == u[..k] + u[k..];
    assert f + u[..k] + u[k..] == f + u;
    assert w.files == w.files[path := f];
  }

  lemma {:induction false} CloseWriting(w: World, path: Path, got: seq<byte>)
    requires Writing(w, path, got)
    ensures w.Close() == w.(files := w.files[path := got], fp := None, closes := w.closes + 1)
  {
    var f, u := w.files[path], w.fp.value.unsent;
    SpliceAtEnd(f, u);
    assert u[..|u|] == u;
    assert u == [] ==> f + u == f && w.files == w.files[path := f];
  }

  lemma {:induction false} WriteWriting(w: World, path: Path, got: seq<byte>, seg: seq<byte>)
    requires Writing(w, path, got)
    ensures Writing(w.Write(seg), path, got + seg)
    ensures w.Write(seg) == w.(fp := w.Write(seg).fp)
  {
    assert w.files[path] + w.fp.value.unsent + seg == w.files[path] + (w.fp.value.unsent + seg);
  }

  /** The simulation relation of writes: mid-way, the handle has taken over the received prefix of the buffer. */
  predicate WritesInStep(c: Cursor, w: World, path: Path, buffer: seq<byte>, max: nat) {
    && c.length <= max <= |buffer| && path !in w.dirs
    && (c.offset > 0 ==> c.offset < c.length && Writing(w, path, buffer[..c.offset]))
  }

  /** The state in which a write call finds its handle. */
  function Opened(c: Cursor, w: World, path: Path): World {
    if c.offset == 0 then w.Shut().OpenWrite(path) else w
  }

  lemma {:induction false} OpenedWriting(c: Cursor, w: World, path: Path, buffer: seq<byte>, max: nat)
    requires WritesInStep(c, w, path, buffer, max)
    ensures var w1 := Opened(c, w, path);
            && Writing(w1, path, buffer[..c.offset]) && w1.dirs == w.dirs
            && w1.files[path := []] == w.Shut().files[path := []]
  {
    if c.offset > 0 {
      CloseWriting(w, path, buffer[..c.offset]);
    }
  }

  lemma {:induction false} PrefixGrows(buffer: seq<byte>, at: nat, seg: seq<byte>)
    requires at + |seg| <= |buffer|
    ensures Overwrite(buffer, at, seg)[..at + |seg|] == buffer[..at] + seg
  {}

  /** One step of the write simulation. */
  lemma {:induction false} WriteStepsAgree(
    c: Cursor, w: World, path: Path, buffer: seq<byte>, max: nat, seg: seq<byte>)
    requires WritesInStep(c, w, path, buffer, max)
    ensures var o, m := WriteFileStep(c, w, path, seg), WriteStep(c, buffer, max, seg);
            && o.code == m.code && o.cursor == m.cursor && o.count == m.count
            && WritesInStep(o.cursor, o.world, path, m.buffer, max)
            && (o.code == PARTIAL ==> Writing(o.world, path, m.buffer[..m.cursor.offset]))
            && (o.code == OK ==>
                  path in o.world.files && o.world.files[path] == m.buffer[..c.length] && o.world.fp == None)
            && o.world.files[path := []] == w.Shut().files[path := []] && o.world.dirs == w.dirs
  {
    OpenedWriting(c, w, path, buffer, max);
    var w1 := Opened(c, w, path);
    assert WriteFileStep(c, w, path, seg) == WriteOpened(c, w1, seg);
    if c.offset + |seg| <= c.length {
      FittingAgrees(c, w1, path, buffer, max, seg);
    } else {
      CloseWriting(w1, path, buffer[..c.offset]);
    }
  }

  /** A segment that fits, once the file is open. */
  lemma {:induction false} FittingAgrees(
    c: Cursor, w: World, path: Path, buffer: seq<byte>, max: nat, seg: seq<byte>)
    requires c.offset + |seg| <= c.length <= max <= |buffer| && (c.offset > 0 ==> c.offset < c.length)
    requires path !in w.dirs && Writing(w, path, buffer[..c.offset])
    ensures var o, m := WriteOpened(c, w, seg), WriteStep(c, buffer, max, seg);
            && o.code == m.code && o.cursor == m.cursor && o.count == m.count
            && WritesInStep(o.cursor, o.world, path, m.buffer, max)
            && (o.code == PARTIAL ==> Writing(o.world, path, m.buffer[..m.cursor.offset]))
            && (o.code == OK ==>
                  path in o.world.files && o.world.files[path] == m.buffer[..c.length] && o.world.fp == None)
            && o.world.files[path := []] == w.files[path := []] && o.world.dirs == w.dirs
  {
    var got := buffer[..c.offset];
    WriteWriting(w, path, got, seg);
    CloseWriting(w.Write(seg), path, got + seg);
    PrefixGrows(buffer, c.offset, seg);
  }

  /** For every sequence of segments and restarts within the buffer's limit, writing the file gives the
      same codes, cursors, counts and stored bytes as writing the memory buffer. */
  lemma {:induction false} FileWritesRefineDataWrites(
    c: Cursor, w: World, path: Path, buffer: seq<byte>, max: nat, pushes: seq<Push>)
    requires WritesInStep(c, w, path, buffer, max)
    requires forall p :: p in pushes && p.Announce? ==> p.length <= max
    ensures FilePushes(c, w, path, pushes) == DataPushes(c, buffer, max, pushes)
    decreases |pushes|
  {
    if pushes != [] {
      match pushes[0]
      case Announce(n) =>
        assert pushes[0] in pushes;
        FileWritesRefineDataWrites(Cursor(0, n), w, path, buffer, max, pushes[1..]);
      case Flushed(n) =>
        FlushKeepsStep(c, w, path, buffer, max, n);
        FileWritesRefineDataWrites(c, w.Flush(n), path, buffer, max, pushes[1..]);
      case Send(seg) =>
        WriteStepsAgree(c, w, path, buffer, max, seg);
        if WriteStep(c, buffer, max, seg).code == PARTIAL {
          StoredOnPartial(c, w, path, buffer, max, seg);
        }
        var o, m := WriteFileStep(c, w, path, seg), WriteStep(c, buffer, max, seg);
        FileWritesRefineDataWrites(o.cursor, o.world, path, m.buffer, max, pushes[1..]);
    }
  }

  lemma {:induction false} FlushKeepsStep(c: Cursor, w: World, path: Path, buffer: seq<byte>, max: nat, n: nat)
    requires WritesInStep(c, w, path, buffer, max)
    ensures WritesInStep(c, w.Flush(n), path, buffer, max)
  {
    if c.offset > 0 {
      FlushWriting(w, path, buffer[..c.offset], n);
    }
  }

  lemma {:induction false} StoredOnPartial(c: Cursor, w: World, path: Path, buffer: seq<byte>, max: nat, seg: seq<byte>)
    requires WritesInStep(c, w, path, buffer, max) && WriteStep(c, buffer, max, seg).code == PARTIAL
    ensures var o, m := WriteFileStep(c, w, path, seg), WriteStep(c, buffer, max, seg);
            path in o.world.Shut().files && o.world.Shut().files[path] == m.buffer[..m.cursor.offset]
  {
    WriteStepsAgree(c, w, path, buffer, max, seg);
    var o, m := WriteFileStep(c, w, path, seg), WriteStep(c, buffer, max, seg);
    CloseWriting(o.world, path, m.buffer[..m.cursor.offset]);
  }

  // ---------------------------------------------------------------- the C entry points

  /** The file system and the handle slot as the handlers change them. */
  class FilePort {
    var files: FileMap
    var dirs: set<Path>
    var fp: Option<Handle>
    var opens: nat
    var closes: nat

    constructor (files: FileMap, dirs: set<Path>)
      ensures Now() == World(files, dirs, None, 0, 0)
    {
      this.files, this.dirs, this.fp, this.opens, this.closes := files, dirs, None, 0, 0;
    }

    function Now(): World
      reads this
    {
      World(files, dirs, fp, opens, closes)
    }

    method Become(w: World)
      modifies this
      ensures Now() == w
    {
      files, dirs, fp, opens, closes := w.files, w.dirs, w.fp, w.opens, w.closes;
    }

    /** fread into the front of `buf`. */
    method Fread(buf: array<byte>, n: nat) returns (ghost chunk: seq<byte>)
      requires n <= buf.Length
      modifies this, buf
      ensures old(Now()).Read(n) == (chunk, Now())
      ensures |chunk| <= n && buf[..] == Overwrite(old(buf[..]), 0, chunk)
    {
      var (bytes, w) := Now().Read(n);
      chunk := bytes;
      forall i | 0 <= i < |bytes| {
        buf[i] := bytes[i];
      }
      Become(w);
    }
  }

  lemma {:induction false} NothingWritten(buf: seq<byte>)
    ensures Overwrite(buf, 0, []) == buf
  {}

  method ReadFile(stream: Stream, buf: array<byte>, count: nat, path: Path, port: FilePort)
    returns (r: Code, countRead: Option<nat>)
    requires count <= buf.Length
    modifies stream, buf, port
    ensures var o := ReadFileStep(old(stream.At()), old(port.Now()), path, count);
            && r == o.code && stream.At() == o.cursor && port.Now() == o.world && countRead == o.count
            && |o.chunk| <= count && buf[..] == Overwrite(old(buf[..]), 0, o.chunk)
  {
    countRead := None;
    NothingWritten(buf[..]);
    if stream.dataOffset == 0 {
      if port.fp != None {
        port.Become(port.Now().Close());
      }
      port.Become(port.Now().OpenRead(path));
      if port.fp != None {
        stream.dataLength := |port.files[path]|;
        if stream.dataLength == 0 {
          port.Become(port.Now().Close());
          return NO_DATA, None;
        }
      } else {
        return DEV_INCOMPAT, None;
      }
    }
    r, countRead := ReadOpenFile(stream, buf, count, port);
  }

  /** The part of od_ext_read_file after the file has been opened. */
  method ReadOpenFile(stream: Stream, buf: array<byte>, count: nat, port: FilePort)
    returns (r: Code, countRead: Option<nat>)
    requires count <= buf.Length
    modifies stream, buf, port
    ensures var o := ReadOpened(old(stream.At()), old(port.Now()), count);
            && r == o.code && stream.At() == o.cursor && port.Now() == o.world && countRead == o.count
            && |o.chunk| <= count && buf[..] == Overwrite(old(buf[..]), 0, o.chunk)
  {
    NothingWritten(buf[..]);
    var dataLenToCopy := stream.dataLength;
    r := OK;
    if stream.dataOffset > 0 || dataLenToCopy > count {
      if stream.dataOffset >= dataLenToCopy {
        port.Become(port.Now().Close());
        return DEV_INCOMPAT, None;
      }
      dataLenToCopy := dataLenToCopy - stream.dataOffset;
      if dataLenToCopy > count {
        dataLenToCopy := count;
        stream.dataOffset := stream.dataOffset + dataLenToCopy;
        r := PARTIAL;
      } else {
        stream.dataOffset := 0;
      }
    }
    ghost var chunk := port.Fread(buf, dataLenToCopy);
    if r != PARTIAL {
      port.Become(port.Now().Close());
    }
    countRead := Some(dataLenToCopy);
  }

  method WriteFile(stream: Stream, buf: array<byte>, count: nat, path: Path, port: FilePort)
    returns (r: Code, countWritten: Option<nat>)
    requires count <= buf.Length
    modifies stream, port
    ensures FileWriteOut(r, stream.At(), port.Now(), countWritten)
            == WriteFileStep(old(stream.At()), old(port.Now()), path, buf[..count])
  {
    countWritten := None;
    if stream.dataOffset == 0 {
      if port.fp != None {
        port.Become(port.Now().Close());
      }
      port.Become(port.Now().OpenWrite(path));
      if port.fp == None {
        return DEV_INCOMPAT, None;
      }
    }
    var dataLenToCopy := stream.dataLength;
    var dataLenRemain := dataLenToCopy;
    r := OK;
    if stream.dataOffset > 0 || dataLenToCopy > count {
      if stream.dataOffset >= dataLenToCopy {
        port.Become(port.Now().Close());
        return DEV_INCOMPAT, None;
      }
      dataLenToCopy := dataLenToCopy - stream.dataOffset;
      dataLenRemain := dataLenToCopy;
      if dataLenToCopy > count {
        dataLenToCopy := count;
        stream.dataOffset := stream.dataOffset + dataLenToCopy;
        r := PARTIAL;
      } else {
        stream.dataOffset := 0;
      }
    }
    if dataLenToCopy < count {
      port.Become(port.Now().Close());
      return DATA_LONG, None;
    }
    // The handler's extra size check always passes here.
    assert dataLenToCopy <= dataLenRemain && dataLenToCopy <= count;
    if port.fp != None {
      port.Become(port.Now().Write(buf[..dataLenToCopy]));
      if r != PARTIAL {
        port.Become(port.Now().Close());
      }
    }
    countWritten := Some(dataLenToCopy);
  }
}
