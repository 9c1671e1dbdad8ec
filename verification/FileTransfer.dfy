/** The file transfer object of src/od_extensions/file_transfer_ext.c. */
module FileTransfer {
  import opened Base
  import opened Segments
  import opened Files
  import opened System

  const PATH_LEN := 256
  const PATHS_LEN := 2 * PATH_LEN      // file_path and tmp_file_path, which follow each other

  /** The fields of file_transfer_data_t, the file system under it and the stream that drives it. `paths` is
      the memory of `file_path` and, from PATH_LEN on, of `tmp_file_path`; `spilled` notes that a store has
      gone past both, after which the model says nothing about the program. */
  datatype Transfer = Transfer(
    cursor: Cursor, raw: seq<byte>, fileName: Path, paths: seq<byte>, spilled: bool, world: World) {

    function FilePath(): (p: Path)
      ensures NUL !in p
    {
      CText(paths)
    }

    function TmpPath(): (p: Path)
      requires |paths| == PATHS_LEN
      ensures NUL !in p
    {
      CText(paths[PATH_LEN..])
    }
  }

  predicate Valid(t: Transfer) {
    |t.raw| == PATH_LEN && |t.paths| == PATHS_LEN && NUL !in t.fileName
  }

  /** A text and its terminator stored from a position on, without regard to the end of the field; what would
      lie past both fields is not kept. */
  function PutText(paths: seq<byte>, at: nat, text: Path): (r: seq<byte>)
    requires at <= |paths|
    ensures |r| == |paths|
  {
    if at + |text| < |paths| then Overwrite(paths, at, text + [NUL])
    else paths[..at] + (text + [NUL])[..|paths| - at]
  }

  function StoreAt(t: Transfer, at: nat, text: Path): (s: Transfer)
    requires Valid(t) && at <= PATHS_LEN
    ensures Valid(s)
  {
    t.(paths := PutText(t.paths, at, text), spilled := t.spilled || at + |text| >= PATHS_LEN)
  }

  // ---------------------------------------------------------------- one call

  /** What the object does with a completed name. */
  function Select(t: Transfer, cache: Path): (s: Transfer)
    requires Valid(t)
    ensures Valid(s)
  {
    var text := Trimmed(CText(t.raw));
    var name := BaseName(CText(t.raw));
    var path := if text <= name then PathJoin(cache, name) else Some(text);
    var named := t.(raw := Cut(t.raw), fileName := name);
    if path.Some? then StoreAt(named, 0, path.value) else named
  }

  /** The buffer after basename(3) has cut its trailing slashes. */
  function Cut(raw: seq<byte>): (r: seq<byte>)
    ensures |r| == |raw|
  {
    var text := Trimmed(CText(raw));
    if |text| < |CText(raw)| then raw[|text| := NUL] else raw
  }

  function WriteName(t: Transfer, cache: Path, seg: seq<byte>): (r: (Code, Transfer, Option<nat>))
    requires Valid(t)
    ensures Valid(r.1)
  {
    var o := WriteStep(t.cursor, t.raw, PATH_LEN - 1, seg);
    var t1 := t.(cursor := o.cursor, raw := o.buffer);
    (o.code, if o.code == OK then Select(t1, cache) else t1, o.count)
  }

  /** path_join of "/tmp" and the file name into `tmp_file_path`. */
  function Joined(t: Transfer): (s: Transfer)
    requires Valid(t)
    ensures Valid(s)
  {
    var p := PathJoin(TMP, t.fileName);
    if p.Some? then StoreAt(t, PATH_LEN, p.value) else t
  }

  /** A complete download is handed on: to the cache, unless the raw name looks absolute. */
  function Publish(t: Transfer, cache: Path): Transfer
    requires Valid(t)
  {
    if t.raw[0] == SLASH then
      if CText(t.raw) != t.TmpPath() then t
      else
        var w := MoveFile(t.world, t.TmpPath(), CText(t.raw));
        if w.Some? then t.(world := w.value) else t
    else
      var w := CacheTake(t.world, cache, t.TmpPath());
      if w.Some? then t.(world := w.value) else t
  }

  function WriteFileData(t: Transfer, cache: Path, seg: seq<byte>): (r: (Code, Transfer, Option<nat>))
    requires Valid(t)
    ensures Valid(r.1)
  {
    if t.fileName == [] then (NO_DATA, t, None)
    else
      var t1 := if t.cursor.offset == 0 then Joined(t) else t;
      var o := WriteFileStep(t1.cursor, t1.world, t1.TmpPath(), seg);
      var t2 := t1.(cursor := o.cursor, world := o.world);
      (o.code, if o.code == OK then Publish(t2, cache) else t2, o.count)
  }

  datatype ReadResult = ReadResult(code: Code, t: Transfer, chunk: seq<byte>, count: Option<nat>)

  function ReadFileData(t: Transfer, count: nat): (r: ReadResult)
    requires Valid(t)
    ensures Valid(r.t)
  {
    if t.fileName == [] then ReadResult(NO_DATA, t, [], None)
    else if t.cursor.offset == 0 then
      if t.FilePath() !in t.world.files then ReadResult(NO_DATA, t, [], None)
      else
        var t1 := Joined(t);
        var w := CopyFile(t1.world, t1.FilePath(), t1.TmpPath());
        if w.None? then ReadResult(DATA_LOC_CTRL, t1, [], None) else ReadTmp(t1.(world := w.value), count)
    else ReadTmp(t, count)
  }

  function ReadTmp(t: Transfer, count: nat): (r: ReadResult)
    requires Valid(t)
    ensures Valid(r.t)
  {
    var o := ReadFileStep(t.cursor, t.world, t.TmpPath(), count);
    ReadResult(o.code, t.(cursor := o.cursor, world := o.world), o.chunk, o.count)
  }

  function RemoveFile(t: Transfer, cache: Path): (r: Transfer)
    requires Valid(t)
    ensures Valid(r)
  {
    if t.fileName == [] then t
    else
      var w := Remove(CacheDelete(t.world, cache, t.fileName), t.TmpPath());
      t.(world := w, raw := t.raw[0 := NUL], fileName := [], paths := t.paths[0 := NUL][PATH_LEN := NUL])
  }

  // ---------------------------------------------------------------- whole transfers

  function Changed(t: Transfer, ch: Change): Transfer {
    t.(world := t.world.Outside(ch))
  }

  /** The file map after all the changes, in order. */
  function ChangedAll(files: FileMap, chs: seq<Change>): FileMap
    decreases |chs|
  {
    if chs == [] then files else ChangedAll(chs[0].On(files), chs[1..])
  }

  /** A new SDO transfer on this object. */
  function Begun(t: Transfer, length: nat): Transfer {
    t.(cursor := Cursor(0, length))
  }

  datatype Outcome = Outcome(code: Code, t: Transfer, bytes: seq<byte>)

  /** Segments of a name until a call is not PARTIAL. */
  function NameRun(t: Transfer, cache: Path, segs: seq<seq<byte>>): (r: Outcome)
    requires Valid(t)
    ensures Valid(r.t)
    decreases |segs|
  {
    if segs == [] then Outcome(PARTIAL, t, [])
    else
      var o := WriteName(t, cache, segs[0]);
      if o.0 == PARTIAL then NameRun(o.1, cache, segs[1..]) else Outcome(o.0, o.1, [])
  }

  /** Segments of file data; `chs[i]` happens after segment i, while the transfer is open. */
  function DownloadRun(t: Transfer, cache: Path, segs: seq<seq<byte>>, chs: seq<Change>): (r: Outcome)
    requires Valid(t) && |chs| == |segs|
    ensures Valid(r.t)
    decreases |segs|
  {
    if segs == [] then Outcome(PARTIAL, t, [])
    else
      var o := WriteFileData(t, cache, segs[0]);
      if o.0 == PARTIAL then DownloadRun(Changed(o.1, chs[0]), cache, segs[1..], chs[1..]) else Outcome(o.0, o.1, [])
  }

  /** Reads of file data; `chs[i]` happens after read i, while the transfer is open. */
  function UploadRun(t: Transfer, counts: seq<nat>, chs: seq<Change>): (r: Outcome)
    requires Valid(t) && |chs| == |counts|
    ensures Valid(r.t)
    decreases |counts|
  {
    if counts == [] then Outcome(PARTIAL, t, [])
    else
      var o := ReadFileData(t, counts[0]);
      if o.code == PARTIAL then
        var r := UploadRun(Changed(o.t, chs[0]), counts[1..], chs[1..]);
        r.(bytes := o.chunk + r.bytes)
      else Outcome(o.code, o.t, o.chunk)
  }

  // ---------------------------------------------------------------- naming a file

  /** Name segments only ever touch `raw`, until the last one selects. */
  lemma {:induction false} NameRunIsWriteTransfer(t: Transfer, cache: Path, segs: seq<seq<byte>>)
    requires Valid(t)
    ensures var w := WriteTransfer(t.cursor, t.raw, PATH_LEN - 1, segs);
            var t1 := t.(cursor := w.cursor, raw := w.buffer);
            NameRun(t, cache, segs) == Outcome(w.code, if w.code == OK then Select(t1, cache) else t1, [])
    decreases |segs|
  {
    if segs != [] {
      var o := WriteStep(t.cursor, t.raw, PATH_LEN - 1, segs[0]);
      if o.code == PARTIAL {
        NameRunIsWriteTransfer(t.(cursor := o.cursor, raw := o.buffer), cache, segs[1..]);
      }
    }
  }

  /** The text the object reads as the name, after a completed write of `p` over the old buffer, is the
      text of `p` exactly when `p` carries a terminator or the old buffer happens to have one right after it. */
  lemma {:induction false} NameReadBack(p: seq<byte>, prev: seq<byte>)
    requires |prev| == PATH_LEN && |p| < PATH_LEN
    ensures CText(p + prev[|p|..]) == CText(p) <==> NUL in p || prev[|p|] == NUL
  {
    if NUL in p {
      CTextIgnoresTail(p, prev[|p|..]);
    } else {
      CTextWhole(p);
      CTextRunsOn(p, prev[|p|..]);
    }
  }

  /** A terminated plain name in the buffer selects the cached file of that name, as long as the joined path
      stays within the two fields. */
  lemma {:induction false} SelectPlain(t: Transfer, cache: Path, name: Path, rest: seq<byte>)
    requires Valid(t) && cache != [] && Plain(name) && t.raw == name + [NUL] + rest
    ensures var s := Select(t, cache);
            && s.fileName == name && s.raw == t.raw
            && s == t.(fileName := name, paths := s.paths, spilled := s.spilled)
            && s.spilled == (t.spilled || |Inside(cache, name)| >= PATHS_LEN)
            && (NUL !in cache && |Inside(cache, name)| < PATHS_LEN ==> s.FilePath() == Inside(cache, name))
  {
    JoinPlain(cache, name);
    SelectIsStore(t, cache, name, rest);
    var p := Inside(cache, name);
    if NUL !in cache && |p| < PATHS_LEN {
      PutReads(t.paths, 0, p);
    }
  }

  lemma {:induction false} JoinPlain(dir: Path, name: Path)
    requires dir != [] && Plain(name)
    ensures PathJoin(dir, name) == Some(Inside(dir, name))
  {
    PathJoinMeans(dir, name);
    assert name[0] in name;
  }

  lemma {:induction false} SelectIsStore(t: Transfer, cache: Path, name: Path, rest: seq<byte>)
    requires Valid(t) && Plain(name) && t.raw == name + [NUL] + rest
    ensures PathJoin(cache, name).Some?
    ensures Select(t, cache) == StoreAt(t.(fileName := name), 0, PathJoin(cache, name).value)
  {
    assert CText(t.raw) == name by {
      CTextOfTerminated(name, rest);
    }
    assert BaseName(name) == name && Trimmed(name) == name by {
      BaseNameOfPlain([], name);
    }
    assert name != [SLASH];
  }

  /** A text stored within the memory is read back from where it was stored, and nothing before it changes. */
  lemma {:induction false} PutReads(paths: seq<byte>, at: nat, text: Path)
    requires NUL !in text && at + |text| < |paths|
    ensures CText(PutText(paths, at, text)[at..]) == text && PutText(paths, at, text)[..at] == paths[..at]
    ensures at == 0 ==> CText(PutText(paths, at, text)) == text
  {
    var r, rest := PutText(paths, at, text), paths[at + |text| + 1..];
    assert r == paths[..at] + (text + [NUL]) + rest;
    assert r[at..] == text + [NUL] + rest;
    CTextOfTerminated(text, rest);
    assert at == 0 ==> r[at..] == r;
  }

  /** A whole name in any segmentation, over whatever the buffer held. */
  lemma {:induction false} NameLands(t: Transfer, cache: Path, segs: seq<seq<byte>>)
    requires Valid(t) && segs != [] && |Flatten(segs)| < PATH_LEN
    ensures var p := Flatten(segs);
            NameRun(Begun(t, |p|), cache, segs)
            == Outcome(OK, Select(t.(cursor := Cursor(0, |p|), raw := p + t.raw[|p|..]), cache), [])
  {
    var n := |Flatten(segs)|;
    NameRunIsWriteTransfer(Begun(t, n), cache, segs);
    WriteReassembles(n, t.raw, PATH_LEN - 1, segs);
  }

  /** The failing family: over a longer name, an unterminated name selects itself plus the old tail. */
  lemma {:induction false} UnterminatedNameMixes(t: Transfer, cache: Path, p: Path, tail: Path, rest: seq<byte>)
    requires Valid(t) && cache != [] && p != [] && |p| < PATH_LEN && Plain(p + tail)
    requires t.raw[|p|..] == tail + [NUL] + rest
    ensures NameRun(Begun(t, |p|), cache, [p]).t.fileName == p + tail
  {
    FlattenOne(p);
    NameLands(t, cache, [p]);
    Regroup(p, tail, rest);
    SelectPlain(t.(cursor := Cursor(0, |p|), raw := p + t.raw[|p|..]), cache, p + tail, rest);
  }

  lemma {:induction false} Regroup(p: seq<byte>, tail: seq<byte>, rest: seq<byte>)
    ensures p + (tail + [NUL] + rest) == p + tail + [NUL] + rest
  {}

  /** A concrete failure: over "abc", the unterminated name "x" selects "xbc". */
  lemma {:induction false} UnterminatedExample(t: Transfer, cache: Path, rest: seq<byte>)
    requires Valid(t) && cache != [] && t.raw == [97] + [98, 99] + [NUL] + rest
    ensures NameRun(Begun(t, 1), cache, [[120]]).t.fileName == [120] + [98, 99] != [120]
  {
    assert t.raw[1..] == [98, 99] + [NUL] + rest;
    UnterminatedNameMixes(t, cache, [120], [98, 99], rest);
  }

  // ---------------------------------------------------------------- the two path fields

  function TmpOf(name: Path): Path {
    TMP + [SLASH] + name
  }

  /** What is read as the selected path once `tmp` has been stored in the field behind it. */
  function Mixed(path: Path, tmp: Path): Path {
    if |path| < PATH_LEN then path else path[..PATH_LEN] + tmp
  }

  /** The selected path ends inside its field, or happens to go on with just the /tmp path. */
  predicate Survives(path: Path, tmp: Path) {
    |path| < PATH_LEN || path[PATH_LEN..] == tmp
  }

  /** The join in front of every transfer: it is within its field exactly when the /tmp path is short enough,
      and the selected path survives it exactly when it does not reach into the next field. */
  lemma {:induction false} JoinedPaths(t: Transfer)
    requires Valid(t) && t.fileName != [SLASH]
    ensures Joined(t).spilled <==> t.spilled || |TmpOf(t.fileName)| >= PATH_LEN
    ensures |TmpOf(t.fileName)| < PATH_LEN ==>
              && Joined(t).TmpPath() == TmpOf(t.fileName)
              && Joined(t).FilePath() == Mixed(t.FilePath(), TmpOf(t.fileName))
              && (Joined(t).FilePath() == t.FilePath() <==> Survives(t.FilePath(), TmpOf(t.fileName)))
  {
    var tmp := TmpOf(t.fileName);
    assert PathJoin(TMP, t.fileName) == Some(tmp);
    if |tmp| < PATH_LEN {
      var r := Joined(t).paths;
      PutReads(t.paths, PATH_LEN, tmp);
      TwoFields(t.paths);
      TwoFields(r);
      MixedIsSame(t.FilePath(), tmp);
    }
  }

  lemma {:induction false} TwoFields(paths: seq<byte>)
    requires |paths| == PATHS_LEN
    ensures var head := paths[..PATH_LEN];
            && (NUL in head ==> CText(paths) == CText(head) && |CText(paths)| < PATH_LEN)
            && (NUL !in head ==>
                  CText(paths) == head + CText(paths[PATH_LEN..]) && CText(paths)[..PATH_LEN] == head)
  {
    assert paths == paths[..PATH_LEN] + paths[PATH_LEN..];
    CTextAppend(paths[..PATH_LEN], paths[PATH_LEN..]);
  }

  lemma {:induction false} MixedIsSame(path: Path, tmp: Path)
    ensures Mixed(path, tmp) == path <==> Survives(path, tmp)
  {
    if |path| >= PATH_LEN {
      assert path == path[..PATH_LEN] + path[PATH_LEN..];
      assert Mixed(path, tmp)[PATH_LEN..] == tmp;
    }
  }

  /** In sizes: for any cache directory shorter than 260 bytes, exactly the joined paths of fewer than 256 bytes
      survive; behind a cache directory of 23 bytes, that is the plain names of fewer than 232. */
  lemma {:induction false} ShortPathsSurvive(cache: Path, name: Path, dest: Path)
    requires Plain(name) && 0 < |cache| < 260 && dest == Inside(cache, name)
    ensures Survives(dest, TmpOf(name)) <==> |dest| < PATH_LEN
    ensures cache[|cache| - 1] != SLASH ==> |dest| == |cache| + 1 + |name|
    ensures |cache| == 23 && cache[22] != SLASH ==> (Survives(dest, TmpOf(name)) <==> |name| < 232)
  {
    assert name[0] in name;
  }

  /** Two states that differ in the cursor and the file system alone. */
  predicate SameFields(r: Transfer, t: Transfer) {
    r == t.(cursor := r.cursor, world := r.world)
  }

  lemma {:induction false} JoinedTwice(r: Transfer, t: Transfer)
    requires Valid(t) && (SameFields(r, t) || SameFields(r, Joined(t)))
    ensures Valid(r) && SameFields(Joined(r), Joined(t))
  {
    var p := PathJoin(TMP, t.fileName);
    if p.Some? {
      PutTwice(t.paths, PATH_LEN, p.value);
    }
  }

  lemma {:induction false} PutTwice(paths: seq<byte>, at: nat, text: Path)
    requires at <= |paths|
    ensures PutText(PutText(paths, at, text), at, text) == PutText(paths, at, text)
  {}

  /** A download joins once: its first call, unless no file is selected. */
  lemma {:induction false} DownloadJoins(t: Transfer, cache: Path, segs: seq<seq<byte>>, chs: seq<Change>)
    requires Valid(t) && |chs| == |segs|
    ensures var r := DownloadRun(t, cache, segs, chs).t;
            && (SameFields(r, t) || SameFields(r, Joined(t)))
            && (segs != [] && t.cursor.offset == 0 && t.fileName != [] ==> SameFields(r, Joined(t)))
    decreases |segs|
  {
    JoinedTwice(t, t);
    if segs != [] {
      SegmentJoins(t, cache, segs[0]);
      var o := WriteFileData(t, cache, segs[0]);
      if o.0 == PARTIAL {
        var t1 := Changed(o.1, chs[0]);
        JoinedTwice(t1, t);
        DownloadJoins(t1, cache, segs[1..], chs[1..]);
      }
    }
  }

  lemma {:induction false} SegmentJoins(t: Transfer, cache: Path, seg: seq<byte>)
    requires Valid(t)
    ensures var r := WriteFileData(t, cache, seg).1;
            SameFields(r, if t.cursor.offset == 0 && t.fileName != [] then Joined(t) else t)
  {}

  /** So does an upload, unless its first call finds no file. */
  lemma {:induction false} UploadJoins(t: Transfer, counts: seq<nat>, chs: seq<Change>)
    requires Valid(t) && |chs| == |counts|
    ensures var r := UploadRun(t, counts, chs).t;
            && (SameFields(r, t) || SameFields(r, Joined(t)))
            && (counts != [] && t.cursor.offset == 0 && t.fileName != [] && t.FilePath() in t.world.files ==>
                  SameFields(r, Joined(t)))
    decreases |counts|
  {
    JoinedTwice(t, t);
    if counts != [] {
      var o := ReadFileData(t, counts[0]);
      if o.code == PARTIAL {
        var t1 := Changed(o.t, chs[0]);
        JoinedTwice(t1, t);
        UploadJoins(t1, counts[1..], chs[1..]);
      }
    }
  }

  /** A transfer changes which file is selected, exactly when the selected path does not survive the join. */
  lemma {:induction false} SelectionSurvives(
    t: Transfer, cache: Path, n: nat, segs: seq<seq<byte>>, counts: seq<nat>, chs: seq<Change>, ups: seq<Change>)
    requires Valid(t) && t.fileName !in {[], [SLASH]} && |TmpOf(t.fileName)| < PATH_LEN
    requires |chs| == |segs| > 0 && |ups| == |counts| > 0
    ensures var path, tmp := t.FilePath(), TmpOf(t.fileName);
            var down, up := DownloadRun(Begun(t, n), cache, segs, chs).t, UploadRun(Begun(t, 0), counts, ups).t;
            && down.FilePath() == Mixed(path, tmp) && (down.FilePath() == path <==> Survives(path, tmp))
            && (path in t.world.files ==>
                  && up.FilePath() == Mixed(path, tmp) && (up.FilePath() == path <==> Survives(path, tmp)))
  {
    JoinedPaths(Begun(t, n));
    JoinedPaths(Begun(t, 0));
    DownloadJoins(Begun(t, n), cache, segs, chs);
    UploadJoins(Begun(t, 0), counts, ups);
  }

  // ---------------------------------------------------------------- stable selection

  datatype Session =
    | Naming(length: nat, segs: seq<seq<byte>>)
    | Download(length: nat, segs: seq<seq<byte>>, chs: seq<Change>)
    | Upload(counts: seq<nat>, chs: seq<Change>)
    | Removal
    | Outside(ch: Change)

  predicate WellFormed(s: Session) {
    && (s.Download? ==> |s.chs| == |s.segs|)
    && (s.Upload? ==> |s.chs| == |s.counts|)
  }

  /** A name that is completed carries its terminator. */
  predicate Terminated(s: Session) {
    s.Naming? && s.length < PATH_LEN && Payload(s.length, s.segs).Some? ==> NUL in Payload(s.length, s.segs).value
  }

  function RunSession(t: Transfer, cache: Path, s: Session): (r: Transfer)
    requires Valid(t) && WellFormed(s)
    ensures Valid(r)
  {
    match s
    case Naming(n, segs) => NameRun(Begun(t, n), cache, segs).t
    case Download(n, segs, chs) => DownloadRun(Begun(t, n), cache, segs, chs).t
    case Upload(counts, chs) => UploadRun(Begun(t, 0), counts, chs).t
    case Removal => RemoveFile(t, cache)
    case Outside(ch) => Changed(t, ch)
  }

  function RunSessions(t: Transfer, cache: Path, ss: seq<Session>): (r: Transfer)
    requires Valid(t) && forall s :: s in ss ==> WellFormed(s)
    ensures Valid(r)
    decreases |ss|
  {
    if ss == [] then t else RunSessions(RunSession(t, cache, ss[0]), cache, ss[1..])
  }

  /** The reference: a selection (file name, file path) depends on completed names and removals alone. */
  function SelectionFor(text: Path, cache: Path, prev: (Path, Path)): (Path, Path) {
    var name, joined := BaseName(text), PathJoin(cache, BaseName(text));
    (name,
     if !(Trimmed(text) <= name) then Trimmed(text) else if joined.Some? then joined.value else prev.1)
  }

  function Selected(prev: (Path, Path), cache: Path, s: Session): (Path, Path) {
    match s
    case Naming(n, segs) =>
      if n < PATH_LEN && Payload(n, segs).Some?
      then SelectionFor(CText(Payload(n, segs).value), cache, prev) else prev
    case Removal => if prev.0 == [] then prev else ([], [])
    case _ => prev
  }

  function Selection(prev: (Path, Path), cache: Path, ss: seq<Session>): (Path, Path)
    decreases |ss|
  {
    if ss == [] then prev else Selection(Selected(prev, cache, ss[0]), cache, ss[1..])
  }

  /** Both paths of a selection end inside their fields. */
  predicate Short(pair: (Path, Path)) {
    |pair.1| < PATH_LEN && |TmpOf(pair.0)| < PATH_LEN
  }

  /** So do those of every selection made on the way. */
  predicate AllShort(prev: (Path, Path), cache: Path, ss: seq<Session>)
    decreases |ss|
  {
    Short(prev) && (ss == [] || AllShort(Selected(prev, cache, ss[0]), cache, ss[1..]))
  }

  /** A short selection is not changed by a join. */
  lemma {:induction false} ShortStays(t: Transfer)
    requires Valid(t) && Short((t.fileName, t.FilePath()))
    ensures Joined(t).FilePath() == t.FilePath() && Joined(t).spilled == t.spilled
  {
    if t.fileName != [SLASH] {
      JoinedPaths(t);
    }
  }

  /** What stays the same: the buffer, the selected pair, and that no store has gone astray. */
  predicate Keeps(r: Transfer, t: Transfer) {
    NamesOf(r) == NamesOf(t) && r.spilled == t.spilled
  }

  lemma {:induction false} TransferKeepsSelection(t: Transfer, cache: Path, s: Session)
    requires Valid(t) && WellFormed(s) && (s.Download? || s.Upload?) && Short((t.fileName, t.FilePath()))
    ensures Keeps(RunSession(t, cache, s), t)
  {
    match s {
      case Download(n, segs, chs) =>
        ShortStays(Begun(t, n));
        DownloadJoins(Begun(t, n), cache, segs, chs);
      case Upload(counts, chs) =>
        ShortStays(Begun(t, 0));
        UploadJoins(Begun(t, 0), counts, chs);
    }
  }

  lemma {:induction false} NamingSelects(t: Transfer, cache: Path, n: nat, segs: seq<seq<byte>>)
    requires Valid(t) && Terminated(Naming(n, segs)) && NUL !in cache
    requires |Selected((t.fileName, t.FilePath()), cache, Naming(n, segs)).1| < PATH_LEN
    ensures var r := NameRun(Begun(t, n), cache, segs).t;
            && (r.fileName, r.FilePath()) == Selected((t.fileName, t.FilePath()), cache, Naming(n, segs))
            && r.spilled == t.spilled
  {
    NameRunIsWriteTransfer(Begun(t, n), cache, segs);
    if n < PATH_LEN {
      WriteCompletes(Cursor(0, n), t.raw, PATH_LEN - 1, segs);
      if Payload(n, segs).Some? {
        var p := Payload(n, segs).value;
        TerminatedRead(t.raw, p);
        SelectByText(t.(cursor := Cursor(0, n), raw := Overwrite(t.raw, 0, p)), cache, CText(p));
      }
    }
  }

  lemma {:induction false} SelectByText(t: Transfer, cache: Path, text: Path)
    requires Valid(t) && CText(t.raw) == text && NUL !in cache
    requires |SelectionFor(text, cache, (t.fileName, t.FilePath())).1| < PATHS_LEN
    ensures var pair := SelectionFor(text, cache, (t.fileName, t.FilePath()));
            && NamesOf(Select(t, cache)) == Names(Cut(t.raw), pair.0, pair.1)
            && Select(t, cache).spilled == t.spilled
  {
    var name := BaseName(text);
    var path := if Trimmed(text) <= name then PathJoin(cache, name) else Some(Trimmed(text));
    if path.Some? {
      PutReads(t.paths, 0, path.value);
    }
  }

  lemma {:induction false} TerminatedRead(raw: seq<byte>, p: seq<byte>)
    requires |p| <= |raw| && NUL in p
    ensures CText(Overwrite(raw, 0, p)) == CText(p)
  {
    assert Overwrite(raw, 0, p) == p + raw[|p|..];
    CTextIgnoresTail(p, raw[|p|..]);
  }

  /** Stable selection: after any sequence of naming, download, upload, removal and outside change, finished
      or abandoned, the selected pair is what the completed, terminated names and the removals say, as long
      as the paths of every selection on the way end inside their fields. */
  lemma {:induction false} SelectionIsStable(t: Transfer, cache: Path, ss: seq<Session>)
    requires Valid(t) && NUL !in cache && forall s :: s in ss ==> WellFormed(s) && Terminated(s)
    requires AllShort((t.fileName, t.FilePath()), cache, ss)
    ensures var r := RunSessions(t, cache, ss);
            (r.fileName, r.FilePath()) == Selection((t.fileName, t.FilePath()), cache, ss) && r.spilled == t.spilled
    decreases |ss|
  {
    if ss != [] {
      var s := ss[0];
      assert WellFormed(s) && Terminated(s);
      match s {
        case Naming(n, segs) => NamingSelects(t, cache, n, segs);
        case Download(_, _, _) => TransferKeepsSelection(t, cache, s);
        case Upload(_, _) => TransferKeepsSelection(t, cache, s);
        case Removal =>
        case Outside(_) =>
      }
      SelectionIsStable(RunSession(t, cache, s), cache, ss[1..]);
    }
  }

  /** The name buffer and the selected pair. */
  datatype Names = Names(raw: seq<byte>, fileName: Path, filePath: Path)

  function NamesOf(t: Transfer): Names {
    Names(t.raw, t.fileName, t.FilePath())
  }

  /** The reference for names of any kind: a naming, finished or not, writes its bytes over the buffer, and a
      finished one selects the text then found there; a removal forgets; nothing else has a say. */
  function Chosen(c: Names, cache: Path, s: Session): (r: Names)
    requires |c.raw| == PATH_LEN
    ensures |r.raw| == PATH_LEN
  {
    match s
    case Naming(n, segs) =>
      var w := WriteTransfer(Cursor(0, n), c.raw, PATH_LEN - 1, segs);
      if w.code != OK then c.(raw := w.buffer)
      else
        var pair := SelectionFor(CText(w.buffer), cache, (c.fileName, c.filePath));
        Names(Cut(w.buffer), pair.0, pair.1)
    case Removal => if c.fileName == [] then c else Names(c.raw[0 := NUL], [], [])
    case _ => c
  }

  function ChosenAll(c: Names, cache: Path, ss: seq<Session>): Names
    requires |c.raw| == PATH_LEN
    decreases |ss|
  {
    if ss == [] then c else ChosenAll(Chosen(c, cache, ss[0]), cache, ss[1..])
  }

  /** The paths of every selection made on the way end inside their fields. */
  predicate AllNamesShort(c: Names, cache: Path, ss: seq<Session>)
    requires |c.raw| == PATH_LEN
    decreases |ss|
  {
    && Short((c.fileName, c.filePath))
    && (ss == [] || AllNamesShort(Chosen(c, cache, ss[0]), cache, ss[1..]))
  }

  /** After any sessions whatever, names without a terminator included, the buffer and the selected pair are
      what the namings and removals alone determine, as long as every selection's paths are short. */
  lemma {:induction false} SelectionFollowsNames(t: Transfer, cache: Path, ss: seq<Session>)
    requires Valid(t) && NUL !in cache && forall s :: s in ss ==> WellFormed(s)
    requires AllNamesShort(NamesOf(t), cache, ss)
    ensures var r := RunSessions(t, cache, ss);
            NamesOf(r) == ChosenAll(NamesOf(t), cache, ss) && r.spilled == t.spilled
    decreases |ss|
  {
    if ss != [] {
      assert WellFormed(ss[0]);
      SessionFollowsNames(t, cache, ss[0]);
      SelectionFollowsNames(RunSession(t, cache, ss[0]), cache, ss[1..]);
    }
  }

  lemma {:induction false} SessionFollowsNames(t: Transfer, cache: Path, s: Session)
    requires Valid(t) && NUL !in cache && WellFormed(s) && Short((t.fileName, t.FilePath()))
    requires |Chosen(NamesOf(t), cache, s).filePath| < PATH_LEN
    ensures NamesOf(RunSession(t, cache, s)) == Chosen(NamesOf(t), cache, s)
    ensures RunSession(t, cache, s).spilled == t.spilled
  {
    match s {
      case Naming(n, segs) =>
        NameRunIsWriteTransfer(Begun(t, n), cache, segs);
        var w := WriteTransfer(Cursor(0, n), t.raw, PATH_LEN - 1, segs);
        if w.code == OK {
          SelectByText(t.(cursor := w.cursor, raw := w.buffer), cache, CText(w.buffer));
        }
      case Download(_, _, _) => TransferKeepsSelection(t, cache, s);
      case Upload(_, _) => TransferKeepsSelection(t, cache, s);
      case Removal =>
      case Outside(_) =>
    }
  }

  // ---------------------------------------------------------------- the handle

  predicate Balanced(t: Transfer) {
    Disciplined(Slot(t.cursor, t.world))
  }

  lemma {:induction false} PublishKeepsBalance(t: Transfer, cache: Path)
    requires Valid(t) && Balanced(t)
    ensures Balanced(Publish(t, cache))
  {}

  lemma {:induction false} DownloadBalances(t: Transfer, cache: Path, segs: seq<seq<byte>>, chs: seq<Change>)
    requires Valid(t) && |chs| == |segs| && Balanced(t)
    ensures Balanced(DownloadRun(t, cache, segs, chs).t)
    decreases |segs|
  {
    if segs != [] && t.fileName != [] {
      SegmentBalances(t, cache, segs[0]);
      DownloadBalances(Changed(WriteFileData(t, cache, segs[0]).1, chs[0]), cache, segs[1..], chs[1..]);
    }
  }

  lemma {:induction false} SegmentBalances(t: Transfer, cache: Path, seg: seq<byte>)
    requires Valid(t) && Balanced(t) && t.fileName != []
    ensures Balanced(WriteFileData(t, cache, seg).1)
  {
    var t1 := if t.cursor.offset == 0 then Joined(t) else t;
    ActKeepsDiscipline(Slot(t.cursor, t.world), WriteCall(t1.TmpPath(), seg));
    var o := WriteFileStep(t1.cursor, t1.world, t1.TmpPath(), seg);
    PublishKeepsBalance(t1.(cursor := o.cursor, world := o.world), cache);
  }

  lemma {:induction false} UploadBalances(t: Transfer, counts: seq<nat>, chs: seq<Change>)
    requires Valid(t) && |chs| == |counts| && Balanced(t)
    ensures Balanced(UploadRun(t, counts, chs).t)
    decreases |counts|
  {
    if counts != [] {
      ReadBalances(t, counts[0]);
      UploadBalances(Changed(ReadFileData(t, counts[0]).t, chs[0]), counts[1..], chs[1..]);
    }
  }

  lemma {:induction false} ReadBalances(t: Transfer, count: nat)
    requires Valid(t) && Balanced(t)
    ensures Balanced(ReadFileData(t, count).t)
  {
    if t.cursor.offset == 0 {
      var t1 := Joined(t);
      var w := CopyFile(t1.world, t1.FilePath(), t1.TmpPath());
      if w.Some? {
        ActKeepsDiscipline(Slot(t1.cursor, w.value), ReadCall(t1.TmpPath(), count));
      }
    } else {
      ActKeepsDiscipline(Slot(t.cursor, t.world), ReadCall(t.TmpPath(), count));
    }
  }

  /** The handle of the object is opened and closed in turn through any sequence of finished and abandoned
      transfers, removals and outside changes, unless a store has gone past the path fields, behind which the
      handle lies. */
  lemma {:induction false} SessionsBalance(t: Transfer, cache: Path, ss: seq<Session>)
    requires Valid(t) && forall s :: s in ss ==> WellFormed(s)
    requires t.world.opens - t.world.closes == if t.world.fp.Some? then 1 else 0
    ensures var w := RunSessions(t, cache, ss).world;
            !RunSessions(t, cache, ss).spilled ==> w.opens - w.closes == if w.fp.Some? then 1 else 0
    decreases |ss|
  {
    if ss != [] {
      var s := ss[0];
      assert WellFormed(s);
      match s {
        case Naming(n, segs) => NameRunIsWriteTransfer(Begun(t, n), cache, segs);
        case Download(n, segs, chs) => DownloadBalances(Begun(t, n), cache, segs, chs);
        case Upload(counts, chs) => UploadBalances(Begun(t, 0), counts, chs);
        case Removal =>
        case Outside(_) =>
      }
      SessionsBalance(RunSession(t, cache, s), cache, ss[1..]);
    }
  }

  // ---------------------------------------------------------------- download

  /** Mid-way through a download: the handle on the /tmp file has taken over the bytes received so far. */
  predicate Downloading(t: Transfer, tmp: Path, got: seq<byte>)
    requires Valid(t)
  {
    && t.fileName != [] && tmp !in t.world.dirs && t.cursor.offset == |got|
    && (if got == [] then Joined(t).TmpPath() == tmp
        else t.TmpPath() == tmp && |got| < t.cursor.length && Writing(t.world, tmp, got))
  }

  /** The fields once a call of a transfer has joined, if it is the first. */
  function AtCall(t: Transfer): (s: Transfer)
    requires Valid(t)
    ensures Valid(s)
  {
    if t.cursor.offset == 0 then Joined(t) else t
  }

  /** The other files as a download finds them: a handle left open by an earlier transfer is closed first. */
  function Found(t: Transfer): FileMap {
    t.world.Shut().files
  }

  /** One download segment that does not exceed the announced length. */
  lemma {:induction false} DownloadStep(t: Transfer, cache: Path, tmp: Path, got: seq<byte>, seg: seq<byte>)
    returns (t2: Transfer)
    requires Valid(t) && Downloading(t, tmp, got) && |got| + |seg| <= t.cursor.length
    ensures Valid(t2) && SameFields(t2, AtCall(t)) && t2.TmpPath() == tmp
    ensures t2.world.files[tmp := []] == Found(t)[tmp := []] && t2.world.dirs == t.world.dirs
    ensures t2.cursor.length == t.cursor.length
    ensures var o := WriteFileData(t, cache, seg);
            if |got| + |seg| < t.cursor.length
            then o.0 == PARTIAL && o.1 == t2 && Downloading(t2, tmp, got + seg) && Writing(t2.world, tmp, got + seg)
            else && o.0 == OK && o.1 == Publish(t2, cache) && t2.world.fp == None && t2.cursor.offset == 0
                 && tmp in t2.world.files && t2.world.files[tmp] == got + seg
  {
    var t1 := AtCall(t);
    var o := WriteFileStep(t1.cursor, t1.world, tmp, seg);
    t2 := t1.(cursor := o.cursor, world := o.world);
    JoinedTwice(t2, t);
    FileTakes(t.cursor, t.world, tmp, got, seg);
  }

  /** One segment written to the file, without reference to a buffer. */
  lemma {:induction false} FileTakes(c: Cursor, w: World, path: Path, got: seq<byte>, seg: seq<byte>)
    requires c.offset == |got| && |got| + |seg| <= c.length && path !in w.dirs
    requires got != [] ==> |got| < c.length && Writing(w, path, got)
    ensures var o := WriteFileStep(c, w, path, seg);
            && o.world.files[path := []] == w.Shut().files[path := []] && o.world.dirs == w.dirs
            && (if |got| + |seg| < c.length
                then && o.code == PARTIAL && o.cursor == Cursor(|got| + |seg|, c.length)
                     && Writing(o.world, path, got + seg)
                else && o.code == OK && o.cursor == Cursor(0, c.length) && o.world.fp == None
                     && path in o.world.files && o.world.files[path] == got + seg)
  {
    var buffer := got + seq(c.length - |got|, _ => 0);
    assert buffer[..|got|] == got;
    WriteStepsAgree(c, w, path, buffer, c.length, seg);
    PrefixGrows(buffer, |got|, seg);
    MemoryTakes(c, buffer, seg);
  }

  lemma {:induction false} MemoryTakes(c: Cursor, buffer: seq<byte>, seg: seq<byte>)
    requires c.offset + |seg| <= c.length == |buffer| && (c.offset > 0 ==> c.offset < c.length)
    ensures var m := WriteStep(c, buffer, c.length, seg);
            && m.buffer == Overwrite(buffer, c.offset, seg)
            && m.code == (if c.offset + |seg| < c.length then PARTIAL else OK)
            && m.cursor == Cursor(if m.code == OK then 0 else c.offset + |seg|, c.length)
  {}

  /** What others do between two segments leaves the download where it is. */
  lemma {:induction false} ChangedMidway(t: Transfer, tmp: Path, got: seq<byte>, ch: Change)
    requires Valid(t) && Downloading(t, tmp, got) && Writing(t.world, tmp, got) && ch.Spares(tmp)
    ensures Downloading(Changed(t, ch), tmp, got)
    ensures Changed(t, ch) == t.(world := Changed(t, ch).world) && Changed(t, ch).world.dirs == t.world.dirs
    ensures Found(Changed(t, ch))[tmp := []] == ch.On(t.world.files)[tmp := []]
  {
    var w := t.world.(files := ch.On(t.world.files));
    assert t.world.Detached(ch.removed) == t.world.fp;
    assert Writing(w, tmp, got);
    FlushWriting(w, tmp, got, ch.flushed);
    CloseWriting(w.Flush(ch.flushed), tmp, got);
    JoinedTwice(Changed(t, ch), t);
  }

  /** A download that ends well: `done` is the state in which the whole file is about to be published, its
      /tmp file holds `data`, and every other file is as the changes of others left it. */
  ghost predicate Ends(
    t: Transfer, cache: Path, tmp: Path, data: seq<byte>, segs: seq<seq<byte>>, chs: seq<Change>, done: Transfer)
    requires Valid(t) && |chs| == |segs| > 0
  {
    && Valid(done) && DownloadRun(t, cache, segs, chs) == Outcome(OK, Publish(done, cache), [])
    && done.world.files[tmp := []] == ChangedAll(Found(t), chs[..|segs| - 1])[tmp := []]
    && tmp in done.world.files && done.world.files[tmp] == data
    && done.world.fp == None && done.world.dirs == t.world.dirs && done.cursor.offset == 0
    && SameFields(done, AtCall(t)) && done.TmpPath() == tmp
  }

  lemma {:induction false} LastSegment(
    t: Transfer, cache: Path, tmp: Path, got: seq<byte>, segs: seq<seq<byte>>, chs: seq<Change>)
    returns (done: Transfer)
    requires Valid(t) && Downloading(t, tmp, got) && |chs| == |segs| == 1
    requires |got| + |segs[0]| == t.cursor.length
    ensures Ends(t, cache, tmp, got + segs[0], segs, chs, done)
  {
    done := DownloadStep(t, cache, tmp, got, segs[0]);
    assert chs[..0] == [];
  }

  /** The first of several segments, and the rest of the download after it. */
  lemma {:induction false} FirstSegment(
    t: Transfer, cache: Path, tmp: Path, data: seq<byte>, segs: seq<seq<byte>>, chs: seq<Change>,
    t2: Transfer, done: Transfer)
    requires Valid(t) && Valid(t2) && |chs| == |segs| > 1
    requires forall ch :: ch in chs ==> ch.Spares(tmp)
    requires var t3 := Changed(t2, chs[0]);
             && SameFields(AtCall(t3), AtCall(t)) && t3.world.dirs == t.world.dirs
             && Found(t3)[tmp := []] == chs[0].On(t2.world.files)[tmp := []]
    requires t2.world.files[tmp := []] == Found(t)[tmp := []]
    requires WriteFileData(t, cache, segs[0]).0 == PARTIAL && WriteFileData(t, cache, segs[0]).1 == t2
    requires Ends(Changed(t2, chs[0]), cache, tmp, data, segs[1..], chs[1..], done)
    ensures Ends(t, cache, tmp, data, segs, chs, done)
  {
    var rest := chs[1..][..|segs| - 2];
    ChangesCommute(Found(t), t2.world.files, chs, |segs| - 1, tmp);
    ChangesSpare(Found(Changed(t2, chs[0])), chs[0].On(t2.world.files), rest, tmp);
  }

  /** All the segments are stored, whatever else changes meanwhile, and the whole file is published. */
  lemma {:induction false} DownloadFrom(
    t: Transfer, cache: Path, tmp: Path, got: seq<byte>, segs: seq<seq<byte>>, chs: seq<Change>)
    returns (done: Transfer)
    requires Valid(t) && Downloading(t, tmp, got) && |chs| == |segs| > 0
    requires forall ch :: ch in chs ==> ch.Spares(tmp)
    requires |got| + |Flatten(segs)| == t.cursor.length && segs[|segs| - 1] != []
    ensures Ends(t, cache, tmp, got + Flatten(segs), segs, chs, done)
    decreases |segs|
  {
    assert Flatten(segs) == segs[0] + Flatten(segs[1..]);
    if |segs| == 1 {
      done := LastSegment(t, cache, tmp, got, segs, chs);
      assert Flatten(segs) == segs[0];
    } else {
      LastIsPart(segs[1..]);
      var t2 := DownloadStep(t, cache, tmp, got, segs[0]);
      assert chs[0] in chs;
      ChangedMidway(t2, tmp, got + segs[0], chs[0]);
      JoinedTwice(Changed(t2, chs[0]), t);
      done := DownloadFrom(Changed(t2, chs[0]), cache, tmp, got + segs[0], segs[1..], chs[1..]);
      Assoc(got, segs[0], Flatten(segs[1..]));
      FirstSegment(t, cache, tmp, got + Flatten(segs), segs, chs, t2, done);
    }
  }

  lemma {:induction false} LastIsPart(segs: seq<seq<byte>>)
    requires segs != [] && segs[|segs| - 1] != []
    ensures Flatten(segs) != []
    decreases |segs|
  {
    if |segs| > 1 {
      LastIsPart(segs[1..]);
    }
  }

  lemma {:induction false} ChangeSpares(f: FileMap, g: FileMap, ch: Change, tmp: Path)
    requires f[tmp := []] == g[tmp := []] && ch.Spares(tmp)
    ensures ch.On(f)[tmp := []] == ch.On(g)[tmp := []]
  {
    assert ch.On(f)[tmp := []] == ch.On(f[tmp := []]);
    assert ch.On(g)[tmp := []] == ch.On(g[tmp := []]);
  }

  /** Changes that spare a path act the same on maps that differ only at that path. */
  lemma {:induction false} ChangesSpare(f: FileMap, g: FileMap, chs: seq<Change>, tmp: Path)
    requires f[tmp := []] == g[tmp := []]
    requires forall ch :: ch in chs ==> ch.Spares(tmp)
    ensures ChangedAll(f, chs)[tmp := []] == ChangedAll(g, chs)[tmp := []]
    decreases |chs|
  {
    if chs != [] {
      assert chs[0] in chs;
      ChangeSpares(f, g, chs[0], tmp);
      ChangesSpare(chs[0].On(f), chs[0].On(g), chs[1..], tmp);
    }
  }

  lemma {:induction false} ChangesCommute(f: FileMap, g: FileMap, chs: seq<Change>, n: nat, tmp: Path)
    requires 0 < n <= |chs| && (forall c :: c in chs ==> c.Spares(tmp))
    requires f[tmp := []] == g[tmp := []]
    ensures ChangedAll(f, chs[..n])[tmp := []] == ChangedAll(chs[0].On(g), chs[1..][..n - 1])[tmp := []]
  {
    assert chs[..n][1..] == chs[1..][..n - 1];
    ChangesSpare(f, g, chs[..n], tmp);
  }

  /** Where a complete download ends up, for every state of the raw name: in the cache exactly when the raw
      name does not start with a slash; with an absolute raw name it stays in /tmp, or is lost when that
      name is the /tmp path itself. */
  function Landed(files: FileMap, raw: seq<byte>, tmp: Path, dest: Path, data: seq<byte>): FileMap
    requires raw != []
  {
    if raw[0] != SLASH then
      if dest == tmp then files - {tmp} else (files - {tmp})[dest := data]
    else if CText(raw) == tmp then files - {tmp}
    else files[tmp := data]
  }

  lemma {:induction false} PublishLands(t: Transfer, cache: Path, tmp: Path, dest: Path, files: FileMap)
    requires Valid(t) && cache in t.world.dirs && tmp !in t.world.dirs && dest !in t.world.dirs && t.world.fp == None
    requires t.TmpPath() == tmp && tmp in t.world.files && PathJoin(cache, BaseName(tmp)) == Some(dest)
    requires t.world.files[tmp := []] == files[tmp := []]
    ensures Publish(t, cache)
            == t.(world := t.world.(files := Landed(files, t.raw, tmp, dest, t.world.files[tmp])))
  {
    SameButOne(t.world.files, files, tmp);
    if t.raw[0] != SLASH {
      TakenIn(t.world, cache, tmp, dest);
      CachedFiles(t.world.files, files, tmp, dest);
    } else if CText(t.raw) == tmp {
      MovedOntoItself(t.world, tmp);
    }
  }

  /** fcache_add of the /tmp file. */
  lemma {:induction false} TakenIn(w: World, cache: Path, tmp: Path, dest: Path)
    requires w.fp == None && cache in w.dirs && dest !in w.dirs && tmp in w.files
    requires PathJoin(cache, BaseName(tmp)) == Some(dest)
    ensures CacheTake(w, cache, tmp)
            == Some(w.(files := w.files[dest := if dest == tmp then [] else w.files[tmp]] - {tmp}))
  {}

  lemma {:induction false} MovedOntoItself(w: World, tmp: Path)
    requires w.fp == None && tmp in w.files && tmp !in w.dirs
    ensures MoveFile(w, tmp, tmp) == Some(w.(files := w.files - {tmp}))
  {
    assert w.files[tmp := []] - {tmp} == w.files - {tmp};
  }

  lemma {:induction false} CachedFiles(f: FileMap, g: FileMap, tmp: Path, dest: Path)
    requires tmp in f && f - {tmp} == g - {tmp}
    ensures dest != tmp ==> f[dest := f[tmp]] - {tmp} == (g - {tmp})[dest := f[tmp]]
    ensures f[tmp := []] - {tmp} == g - {tmp}
  {
    assert dest != tmp ==> f[dest := f[tmp]] - {tmp} == (f - {tmp})[dest := f[tmp]];
    assert f[tmp := []] - {tmp} == f - {tmp};
  }

  lemma {:induction false} SameButOne(f: FileMap, g: FileMap, p: Path)
    requires p in f && f[p := []] == g[p := []]
    ensures f == g[p := f[p]] && f - {p} == g - {p}
  {
    assert f == f[p := []][p := f[p]];
    assert g[p := f[p]] == g[p := []][p := f[p]];
    assert f - {p} == f[p := []] - {p};
    assert g - {p} == g[p := []] - {p};
  }

  /** A whole download of a non-empty file, in any segmentation and with anything happening to other files
      in between: every call but the last is PARTIAL, the last is OK, and the bytes land as `Landed` says. */
  lemma {:induction false} DownloadLands(
    t: Transfer, cache: Path, name: Path, dest: Path, segs: seq<seq<byte>>, chs: seq<Change>)
    requires Valid(t) && Plain(name) && t.fileName == name && cache != [] && dest == Inside(cache, name)
    requires |TmpOf(name)| < PATH_LEN
    requires cache in t.world.dirs && TmpOf(name) !in t.world.dirs && dest !in t.world.dirs
    requires |chs| == |segs| > 0 && segs[|segs| - 1] != []
    requires forall ch :: ch in chs ==> ch.Spares(TmpOf(name))
    ensures var data, tmp := Flatten(segs), TmpOf(name);
            var r := DownloadRun(Begun(t, |data|), cache, segs, chs);
            var files := ChangedAll(Found(t), chs[..|segs| - 1]);
            && r.code == OK && r.t.world.fp == None && r.t.world.dirs == t.world.dirs
            && r.t.world.files == Landed(files, t.raw, tmp, dest, data)
            && SameFields(r.t, Joined(t)) && r.t.FilePath() == Mixed(t.FilePath(), tmp) && r.t.spilled == t.spilled
  {
    var data, tmp := Flatten(segs), TmpOf(name);
    var t0 := Begun(t, |data|);
    assert name != [SLASH];
    JoinedPaths(t0);
    JoinedPaths(t);
    DownloadJoins(t0, cache, segs, chs);
    var done := DownloadFrom(t0, cache, tmp, [], segs, chs);
    assert [] + data == data;
    BaseNameOfPlain(TMP, name);
    JoinPlain(cache, name);
    PublishLands(done, cache, tmp, dest, ChangedAll(Found(t), chs[..|segs| - 1]));
  }

  // ---------------------------------------------------------------- upload

  /** Mid-way through an upload the object reads its /tmp copy exactly as if it were memory, even when the name
      of the copy is taken away. */
  lemma {:induction false} UploadFrom(t: Transfer, data: seq<byte>, counts: seq<nat>, chs: seq<Change>)
    requires Valid(t) && t.fileName != [] && |chs| == |counts| && Reading(t.cursor, t.world, data)
    requires forall ch :: ch in chs ==> ch.Leaves(t.world.fp.value.path)
    ensures var r, m := UploadRun(t, counts, chs), ReadTransfer(t.cursor, data, counts);
            r.code == m.code && r.bytes == m.bytes
    decreases |counts|
  {
    if counts != [] {
      MidReadAgrees(t.cursor, t.world, t.TmpPath(), data, counts[0]);
      var o := ReadFileData(t, counts[0]);
      if o.code == PARTIAL {
        assert chs[0] in chs;
        ChangedReading(o.t, data, chs[0]);
        UploadFrom(Changed(o.t, chs[0]), data, counts[1..], chs[1..]);
      }
    }
  }

  lemma {:induction false} ChangedReading(t: Transfer, data: seq<byte>, ch: Change)
    requires Reading(t.cursor, t.world, data) && ch.Leaves(t.world.fp.value.path)
    ensures var t1 := Changed(t, ch);
            && t1 == t.(world := t1.world) && Reading(t1.cursor, t1.world, data)
            && t1.world.fp.value.path == t.world.fp.value.path
  {}

  /** A handle left open on the path by an abandoned download holds bytes back. */
  predicate LeftPending(w: World, path: Path) {
    w.fp.Some? && w.fp.value.path == path && w.fp.value.orphan.None? && w.fp.value.unsent != []
  }

  /** What a fresh copy of the data at the path becomes when the handle left open is closed. */
  function Spoiled(w: World, path: Path, data: seq<byte>): seq<byte> {
    if LeftPending(w, path) then Splice(data, w.fp.value.at, w.fp.value.unsent) else data
  }

  /** What copy_file makes of the selected file: nothing, when it is copied onto itself. */
  function Copied(path: Path, tmp: Path, data: seq<byte>): seq<byte> {
    if tmp == path then [] else data
  }

  /** The copy is faithful: the file is not its own copy, and nothing is held back, or just what the file has
      at that place anyway. (A file copied onto itself is empty, and faithful only if what is held back happens
      to write all of it again.) */
  predicate Clean(w: World, path: Path, tmp: Path, data: seq<byte>) {
    if tmp != path then
      LeftPending(w, tmp) ==>
        var h := w.fp.value;
        h.at + |h.unsent| <= |data| && data[h.at..h.at + |h.unsent|] == h.unsent
    else
      && LeftPending(w, tmp)
      && var h := w.fp.value;
         && h.at + |h.unsent| == |data| && data[h.at..] == h.unsent
         && forall i :: 0 <= i < h.at ==> data[i] == NUL
  }

  lemma {:induction false} SpliceSame(f: seq<byte>, at: nat, b: seq<byte>)
    requires b != []
    ensures Splice(f, at, b) == f <==> at + |b| <= |f| && f[at..at + |b|] == b
  {
    var r := Splice(f, at, b);
    assert at + |b| <= |r| && r[at..at + |b|] == b;
    if at + |b| <= |f| && f[at..at + |b|] == b {
      assert f == f[..at] + f[at..at + |b|] + f[at + |b|..];
    }
  }

  lemma {:induction false} SpliceEmpty(at: nat, b: seq<byte>, data: seq<byte>)
    ensures Splice([], at, b) == data
            <==> at + |b| == |data| && data[at..] == b && forall i :: 0 <= i < at ==> data[i] == NUL
  {
    var r := Splice([], at, b);
    assert |r| == at + |b| && r[at..] == b;
    assert forall i :: 0 <= i < at ==> r[i] == NUL;
    if at + |b| == |data| && data[at..] == b && forall i :: 0 <= i < at ==> data[i] == NUL {
      assert forall i :: at <= i < |data| ==> data[i] == data[at..][i - at] && r[i] == r[at..][i - at];
    }
  }

  /** The /tmp copy, and then the handle of an earlier transfer is closed over it. */
  lemma {:induction false} FreshCopy(w: World, path: Path, tmp: Path, data: seq<byte>)
    requires data != []
    ensures var base := Copied(path, tmp, data);
            var w1 := w.(files := w.files[tmp := base]).Shut();
            && tmp in w1.files && w1.files[tmp] == Spoiled(w, tmp, base)
            && (Spoiled(w, tmp, base) == data <==> Clean(w, path, tmp, data))
  {
    if LeftPending(w, tmp) {
      var h := w.fp.value;
      assert h.unsent[..|h.unsent|] == h.unsent;
      SpliceSame(data, h.at, h.unsent);
      SpliceEmpty(h.at, h.unsent, data);
    }
  }

  /** The join in front of a transfer leaves the selected path alone and stays within its field. */
  predicate Steady(t: Transfer)
    requires Valid(t)
  {
    Joined(t).FilePath() == t.FilePath() && !Joined(t).spilled
  }

  lemma {:induction false} SteadyMeans(t: Transfer)
    requires Valid(t) && t.fileName != [SLASH]
    ensures Steady(t) <==>
              !t.spilled && |TmpOf(t.fileName)| < PATH_LEN && Survives(t.FilePath(), TmpOf(t.fileName))
  {
    JoinedPaths(t);
  }

  /** A file is selected and there; the /tmp path is no directory. */
  predicate Selects(t: Transfer, data: seq<byte>)
    requires Valid(t)
  {
    && t.fileName != [] && Steady(t) && Joined(t).TmpPath() !in t.world.dirs
    && t.FilePath() in t.world.files && t.world.files[t.FilePath()] == data
  }

  /** The first read of an upload: the copy is made, a handle left open is closed, the copy is read. */
  lemma {:induction false} FirstRead(t: Transfer, data: seq<byte>, count: nat)
    requires Valid(t) && Selects(t, data) && t.cursor.offset == 0
    ensures var path, tmp := t.FilePath(), Joined(t).TmpPath();
            var w := t.world.(files := t.world.files[tmp := Copied(path, tmp, data)]);
            ReadFileData(t, count) == ReadTmp(Joined(t).(world := w), count)
  {}

  /** Upload snapshot. Whatever is added, replaced or deleted between reads, as long as the /tmp copy is not
      changed in place, the bytes delivered are those the copy had at the first read; and these are the bytes
      of the selected file exactly when the file is not its own /tmp copy and no earlier download was abandoned
      with other bytes held back. An empty copy is answered with NO_DATA. */
  lemma {:induction false} UploadDeliversSnapshot(t: Transfer, data: seq<byte>, counts: seq<nat>, chs: seq<Change>)
    requires Valid(t) && Selects(t, data) && data != [] && t.cursor.offset == 0
    requires |chs| == |counts| > 0 && counts[0] > 0
    requires forall ch :: ch in chs ==> ch.Leaves(Joined(t).TmpPath())
    ensures var r, path, tmp := UploadRun(t, counts, chs), t.FilePath(), Joined(t).TmpPath();
            var copy := Spoiled(t.world, tmp, Copied(path, tmp, data));
            && (copy == [] ==> r.code == NO_DATA && r.bytes == [])
            && (copy != [] ==>
                  && (r.code == OK <==> Sum(counts) >= |copy|)
                  && (r.code == OK ==> r.bytes == copy)
                  && (r.code != OK ==> r.code == PARTIAL && r.bytes == copy[..Sum(counts)]))
            && (copy == data <==> Clean(t.world, path, tmp, data))
  {
    var path, tmp := t.FilePath(), Joined(t).TmpPath();
    FirstRead(t, data, counts[0]);
    FreshCopy(t.world, path, tmp, data);
    var t1 := Joined(t).(world := t.world.(files := t.world.files[tmp := Copied(path, tmp, data)]));
    var copy := Spoiled(t.world, tmp, Copied(path, tmp, data));
    if copy != [] {
      CopyDelivered(t, t1, copy, counts, chs);
    }
  }

  /** Reading a copy that is not empty. */
  lemma {:induction false} CopyDelivered(
    t: Transfer, t1: Transfer, copy: seq<byte>, counts: seq<nat>, chs: seq<Change>)
    requires Valid(t) && Valid(t1) && t.cursor.offset == 0 && t1.cursor == t.cursor && t1.fileName == t.fileName != []
    requires |chs| == |counts| > 0 && counts[0] > 0 && ReadFileData(t, counts[0]) == ReadTmp(t1, counts[0])
    requires ReadsInStep(t1.cursor, t1.world, t1.TmpPath(), copy)
    requires forall ch :: ch in chs ==> ch.Leaves(t1.TmpPath())
    ensures var r := UploadRun(t, counts, chs);
            && (r.code == OK <==> Sum(counts) >= |copy|)
            && (r.code == OK ==> r.bytes == copy)
            && (r.code != OK ==> r.code == PARTIAL && r.bytes == copy[..Sum(counts)])
  {
    FirstReadAgrees(t1.cursor, t1.world, t1.TmpPath(), copy, counts[0]);
    var o := ReadFileData(t, counts[0]);
    if o.code == PARTIAL {
      assert chs[0] in chs;
      assert o.t.world.fp.value.path == t1.TmpPath();
      ChangedReading(o.t, copy, chs[0]);
      UploadFrom(Changed(o.t, chs[0]), copy, counts[1..], chs[1..]);
    }
    ReadReassembles(t.cursor.length, copy, counts);
  }

  /** A selected file that is its own /tmp copy is erased by its upload. */
  lemma {:induction false} SelfCopyErases(t: Transfer, data: seq<byte>, counts: seq<nat>, chs: seq<Change>)
    requires Valid(t) && Selects(t, data) && t.cursor.offset == 0 && |chs| == |counts| > 0
    requires Joined(t).TmpPath() == t.FilePath() && !LeftPending(t.world, t.FilePath())
    ensures var r := UploadRun(t, counts, chs);
            r.code == NO_DATA && r.bytes == [] && r.t.world.files == Found(t)[t.FilePath() := []]
  {
    var path := t.FilePath();
    FirstRead(t, data, counts[0]);
    ClosedElsewhere(t.world, path);
    assert ReadFileData(t, counts[0]).code == NO_DATA;
  }

  /** Emptying a file and closing a handle that holds nothing back for it, in either order. */
  lemma {:induction false} ClosedElsewhere(w: World, path: Path)
    requires !LeftPending(w, path) && path in w.files
    ensures w.(files := w.files[path := []]).Shut().files == w.Shut().files[path := []]
  {
    if w.fp.Some? && w.fp.value.orphan.None? && w.fp.value.path in w.files && w.fp.value.unsent != [] {
      var h, q := w.fp.value, w.fp.value.path;
      var b := Splice(w.files[q], h.at, h.unsent[..|h.unsent|]);
      assert q != path && w.files[path := []][q := b] == w.files[q := b][path := []];
    }
  }

  /** The failing family: one segment of a new version of the selected file arrives, the C library writes out
      its first `k` bytes, and the download is abandoned. A following upload delivers the old file with the
      rest of the segment written over it. */
  lemma {:induction false} AbandonedDownloadSpoils(
    t: Transfer, cache: Path, data: seq<byte>, length: nat, seg: seq<byte>, k: nat, counts: seq<nat>, chs: seq<Change>)
    requires Valid(t) && Selects(t, data) && data != [] && t.world.fp == None
    requires Joined(t).TmpPath() != t.FilePath()
    requires k < |seg| < length && |chs| == |counts| > 0 && counts[0] > 0
    requires forall ch :: ch in chs ==> ch.Leaves(Joined(t).TmpPath())
    ensures var down := DownloadRun(Begun(t, length), cache, [seg], [Change({}, map[], k)]);
            var up := UploadRun(Begun(down.t, 0), counts, chs);
            && down.code == PARTIAL
            && (up.code == OK <==> Sum(counts) >= |Splice(data, k, seg[k..])|)
            && (up.code == OK ==> up.bytes == Splice(data, k, seg[k..]))
  {
    var ch := Change({}, map[], k);
    HeldBack(t, cache, length, seg, k);
    var t2 := Changed(WriteFileData(Begun(t, length), cache, seg).1, ch);
    assert DownloadRun(Begun(t, length), cache, [seg], [ch]) == Outcome(PARTIAL, t2, []);
    JoinedTwice(Begun(t2, 0), t);
    UploadDeliversSnapshot(Begun(t2, 0), data, counts, chs);
  }

  /** After the first segment of a download and a flush of `k` bytes, the rest of the segment is held back. */
  lemma {:induction false} HeldBack(t: Transfer, cache: Path, length: nat, seg: seq<byte>, k: nat)
    requires Valid(t) && t.fileName != [] && t.world.fp == None && k < |seg| < length
    requires Joined(t).TmpPath() !in t.world.dirs
    ensures var o, tmp := WriteFileData(Begun(t, length), cache, seg), Joined(t).TmpPath();
            var w := o.1.world.Outside(Change({}, map[], k));
            && o.0 == PARTIAL && SameFields(o.1, Joined(t))
            && w.dirs == t.world.dirs && w.files == t.world.files[tmp := seg[..k]]
            && w.fp == Some(Handle(tmp, k, true, seg[k..], None))
  {
    var tmp := Joined(t).TmpPath();
    JoinedTwice(Begun(t, length), t);
    var w1 := WriteFileData(Begun(t, length), cache, seg).1.world;
    assert [] + seg == seg;
    assert w1 == t.world.(files := t.world.files[tmp := []], fp := Some(Handle(tmp, 0, true, seg, None)),
                          opens := t.world.opens + 1);
    PartFlushed(w1, tmp, seg, k);
    assert t.world.files[tmp := []][tmp := seg[..k]] == t.world.files[tmp := seg[..k]];
  }

  lemma {:induction false} PartFlushed(w: World, tmp: Path, seg: seq<byte>, k: nat)
    requires w.fp == Some(Handle(tmp, 0, true, seg, None)) && tmp in w.files && w.files[tmp] == [] && k < |seg|
    ensures w.Outside(Change({}, map[], k))
            == w.(files := w.files[tmp := seg[..k]], fp := Some(Handle(tmp, k, true, seg[k..], None)))
  {
    var none := Change({}, map[], k);
    assert none.On(w.files) == w.files && w.Detached({}) == w.fp;
    assert Splice([], 0, seg[..k]) == seg[..k];
    assert seg[0..] == seg && w.files == w.files[tmp := []];
  }

  // ---------------------------------------------------------------- finished downloads

  /** The open handle holds nothing back. */
  predicate Settled(w: World) {
    w.fp.Some? ==> w.fp.value.unsent == []
  }

  lemma {:induction false} SegmentSettles(t: Transfer, cache: Path, seg: seq<byte>)
    requires Valid(t)
    ensures var o := WriteFileData(t, cache, seg);
            && (o.0 == PARTIAL ==> t.fileName != [] && o.1.fileName == t.fileName)
            && (o.0 != PARTIAL ==> if t.fileName == [] then o.1 == t else o.1.world.fp == None)
  {
    if t.fileName != [] {
      var t1 := if t.cursor.offset == 0 then Joined(t) else t;
      var o := WriteFileStep(t1.cursor, t1.world, t1.TmpPath(), seg);
      WriteStepSettles(t1.cursor, t1.world, t1.TmpPath(), seg);
      if o.code == OK {
        PublishKeepsHandle(t1.(cursor := o.cursor, world := o.world), cache);
      }
    }
  }

  lemma {:induction false} WriteStepSettles(c: Cursor, w: World, path: Path, seg: seq<byte>)
    ensures WriteFileStep(c, w, path, seg).code != PARTIAL ==> WriteFileStep(c, w, path, seg).world.fp == None
  {}

  lemma {:induction false} PublishKeepsHandle(t: Transfer, cache: Path)
    requires Valid(t) && t.world.fp == None
    ensures Publish(t, cache).world.fp == None
  {}

  lemma {:induction false} DownloadSettles(t: Transfer, cache: Path, segs: seq<seq<byte>>, chs: seq<Change>)
    requires Valid(t) && |chs| == |segs| && DownloadRun(t, cache, segs, chs).code != PARTIAL
    ensures var w := DownloadRun(t, cache, segs, chs).t.world;
            if t.fileName == [] then w == t.world else w.fp == None
    decreases |segs|
  {
    if segs != [] {
      SegmentSettles(t, cache, segs[0]);
    }
    if segs != [] && WriteFileData(t, cache, segs[0]).0 == PARTIAL {
      DownloadSettles(Changed(WriteFileData(t, cache, segs[0]).1, chs[0]), cache, segs[1..], chs[1..]);
    }
  }

  lemma {:induction false} ReadSettles(t: Transfer, count: nat)
    requires Valid(t) && Settled(t.world)
    ensures Settled(ReadFileData(t, count).t.world)
  {
    if t.cursor.offset == 0 {
      var t1 := Joined(t);
      var w := CopyFile(t1.world, t1.FilePath(), t1.TmpPath());
      if w.Some? {
        ReadStepSettles(t1.cursor, w.value, t1.TmpPath(), count);
      }
    } else {
      ReadStepSettles(t.cursor, t.world, t.TmpPath(), count);
    }
  }

  lemma {:induction false} ReadStepSettles(c: Cursor, w: World, path: Path, count: nat)
    requires Settled(w)
    ensures Settled(ReadFileStep(c, w, path, count).world)
  {}

  lemma {:induction false} ChangeSettles(w: World, ch: Change)
    requires Settled(w)
    ensures Settled(w.Outside(ch))
  {}

  lemma {:induction false} UploadSettles(t: Transfer, counts: seq<nat>, chs: seq<Change>)
    requires Valid(t) && |chs| == |counts| && Settled(t.world)
    ensures Settled(UploadRun(t, counts, chs).t.world)
    decreases |counts|
  {
    if counts != [] {
      ReadSettles(t, counts[0]);
    }
    if counts != [] && ReadFileData(t, counts[0]).code == PARTIAL {
      ChangeSettles(ReadFileData(t, counts[0]).t.world, chs[0]);
      UploadSettles(Changed(ReadFileData(t, counts[0]).t, chs[0]), counts[1..], chs[1..]);
    }
  }

  /** No download on the way is left PARTIAL. */
  predicate DownloadsFinish(t: Transfer, cache: Path, ss: seq<Session>)
    requires Valid(t) && forall s :: s in ss ==> WellFormed(s)
    decreases |ss|
  {
    if ss == [] then true
    else
      var s := ss[0];
      assert WellFormed(s);
      && (s.Download? ==> DownloadRun(Begun(t, s.length), cache, s.segs, s.chs).code != PARTIAL)
      && DownloadsFinish(RunSession(t, cache, s), cache, ss[1..])
  }

  lemma {:induction false} SessionsSettle(t: Transfer, cache: Path, ss: seq<Session>)
    requires Valid(t) && (forall s :: s in ss ==> WellFormed(s)) && Settled(t.world) && DownloadsFinish(t, cache, ss)
    ensures Settled(RunSessions(t, cache, ss).world)
    decreases |ss|
  {
    if ss != [] {
      assert WellFormed(ss[0]);
      SessionSettles(t, cache, ss[0]);
      SessionsSettle(RunSession(t, cache, ss[0]), cache, ss[1..]);
    }
  }

  lemma {:induction false} SessionSettles(t: Transfer, cache: Path, s: Session)
    requires Valid(t) && WellFormed(s) && Settled(t.world)
    requires s.Download? ==> DownloadRun(Begun(t, s.length), cache, s.segs, s.chs).code != PARTIAL
    ensures Settled(RunSession(t, cache, s).world)
  {
    match s {
      case Naming(n, segs) => NameRunIsWriteTransfer(Begun(t, n), cache, segs);
      case Download(n, segs, chs) => DownloadSettles(Begun(t, n), cache, segs, chs);
      case Upload(counts, chs) => UploadSettles(Begun(t, 0), counts, chs);
      case Removal =>
      case Outside(_) =>
    }
  }

  /** For a client: after any sessions in which no download was left unfinished, an upload delivers the
      selected file, unless that is its own /tmp copy. */
  lemma {:induction false} UploadAfterFinishedDownloads(
    t: Transfer, cache: Path, ss: seq<Session>, data: seq<byte>, counts: seq<nat>, chs: seq<Change>)
    requires Valid(t) && (forall s :: s in ss ==> WellFormed(s)) && Settled(t.world) && DownloadsFinish(t, cache, ss)
    requires var u := RunSessions(t, cache, ss);
             && Selects(u, data) && data != [] && Joined(u).TmpPath() != u.FilePath()
             && forall ch :: ch in chs ==> ch.Leaves(Joined(u).TmpPath())
    requires |chs| == |counts| > 0 && counts[0] > 0
    ensures var r := UploadRun(Begun(RunSessions(t, cache, ss), 0), counts, chs);
            && (r.code == OK <==> Sum(counts) >= |data|)
            && (r.code == OK ==> r.bytes == data)
            && (r.code != OK ==> r.code == PARTIAL && r.bytes == data[..Sum(counts)])
  {
    SessionsSettle(t, cache, ss);
    var u := RunSessions(t, cache, ss);
    JoinedTwice(Begun(u, 0), u);
    UploadDeliversSnapshot(Begun(u, 0), data, counts, chs);
  }

  // ---------------------------------------------------------------- end to end

  lemma {:induction false} NamingPlain(t: Transfer, cache: Path, name: Path, dest: Path, segs: seq<seq<byte>>)
    requires Valid(t) && Plain(name) && |name| + 1 < PATH_LEN && segs != []
    requires Flatten(segs) == name + [NUL]
    requires NUL !in cache && cache != [] && dest == Inside(cache, name) && |dest| < PATHS_LEN
    ensures var r := NameRun(Begun(t, |name| + 1), cache, segs);
            && r.code == OK && r.t.fileName == name && r.t.FilePath() == dest
            && r.t.raw[0] != SLASH && r.t.world == t.world && r.t.spilled == t.spilled
  {
    NameLands(t, cache, segs);
    var rest := t.raw[|name| + 1..];
    SelectPlain(t.(cursor := Cursor(0, |name| + 1), raw := name + [NUL] + rest), cache, name, rest);
    assert name[0] in name;
  }

  /** One scenario: name a file, download it, let others act, upload it again. */
  datatype Scenario = Scenario(
    name: Path, nameSegs: seq<seq<byte>>, dataSegs: seq<seq<byte>>, during: seq<Change>,
    between: Change, counts: seq<nat>, meanwhile: seq<Change>) {

    /** The terminated name and some data arrive, in any segmentation; nobody else touches the /tmp file
        during the download or changes it in place during the upload, and nobody touches the cached file
        between the download and the first read of the upload. */
    ghost predicate Fair(dest: Path) {
      && Plain(name) && |name| + 1 < PATH_LEN
      && nameSegs != [] && Flatten(nameSegs) == name + [NUL]
      && |during| == |dataSegs| > 0 && dataSegs[|dataSegs| - 1] != []
      && |meanwhile| == |counts| > 0 && counts[0] > 0
      && (forall ch :: ch in during ==> ch.Spares(Tmp()))
      && (forall ch :: ch in meanwhile ==> ch.Leaves(Tmp()))
      && between.Spares(dest)
    }

    function Tmp(): Path {
      TmpOf(name)
    }
  }

  datatype Played = Played(named: Outcome, down: Outcome, up: Outcome)

  function Play(t: Transfer, cache: Path, s: Scenario): Played
    requires Valid(t) && |s.during| == |s.dataSegs| && |s.meanwhile| == |s.counts|
  {
    var named := NameRun(Begun(t, |s.name| + 1), cache, s.nameSegs);
    var down := DownloadRun(Begun(named.t, |Flatten(s.dataSegs)|), cache, s.dataSegs, s.during);
    var up := UploadRun(Begun(Changed(down.t, s.between), 0), s.counts, s.meanwhile);
    Played(named, down, up)
  }

  /** The cache is a directory, and neither the cached path nor the /tmp path is one; no store has gone past
      the path fields, and none will. */
  predicate Ready(t: Transfer, cache: Path, dest: Path, s: Scenario) {
    && cache != [] && dest == Inside(cache, s.name) && NUL !in cache
    && cache in t.world.dirs && s.Tmp() !in t.world.dirs && dest !in t.world.dirs
    && !t.spilled && |dest| < PATHS_LEN && |s.Tmp()| < PATH_LEN
  }

  /** Naming a plain file and downloading it, in general: the file lands in the cache, and what is selected
      afterwards is the cached path as the join has left it. */
  lemma {:induction false} NameThenDownload(t: Transfer, cache: Path, dest: Path, s: Scenario)
    requires Valid(t) && s.Fair(dest) && Ready(t, cache, dest, s)
    ensures var p := Play(t, cache, s);
            && p.named.code == OK && p.down.code == OK
            && p.down.t.world.fp == None && p.down.t.world.dirs == t.world.dirs
            && SameFields(p.down.t, Joined(p.named.t)) && p.named.t.FilePath() == dest
            && p.down.t.fileName == s.name && p.down.t.FilePath() == Mixed(dest, s.Tmp()) && !p.down.t.spilled
            && p.named.t.raw[0] != SLASH
            && p.down.t.world.files
               == Landed(ChangedAll(Found(t), s.during[..|s.dataSegs| - 1]), p.named.t.raw, s.Tmp(), dest,
                         Flatten(s.dataSegs))
  {
    NamingPlain(t, cache, s.name, dest, s.nameSegs);
    var named := Play(t, cache, s).named.t;
    DownloadLands(named, cache, s.name, dest, s.dataSegs, s.during);
    assert Found(named) == Found(t);
  }

  /** The download of the round trip, whatever becomes of the upload. */
  predicate Cached(t: Transfer, p: Played, dest: Path, s: Scenario)
    requires |s.during| == |s.dataSegs| > 0
  {
    && p.named.code == OK && p.down.code == OK && p.down.t.world.fp == None
    && p.down.t.world.files
       == (ChangedAll(Found(t), s.during[..|s.dataSegs| - 1]) - {s.Tmp()})[dest := Flatten(s.dataSegs)]
  }

  /** End-to-end round trip. Whatever state the object is in, a download abandoned with bytes held back
      included: name a file, download it, let others change other files, upload it again, each in its own
      segmentation. When the cached path ends inside its field, the download leaves exactly the bytes in the
      cache under that name and nothing in /tmp; the upload delivers exactly those bytes. */
  lemma {:induction false} FileRoundTrip(t: Transfer, cache: Path, dest: Path, s: Scenario)
    requires Valid(t) && s.Fair(dest) && Ready(t, cache, dest, s)
    requires dest != s.Tmp() && Survives(dest, s.Tmp())
    ensures var p, data := Play(t, cache, s), Flatten(s.dataSegs);
            && Cached(t, p, dest, s)
            && (p.up.code == OK <==> Sum(s.counts) >= |data|)
            && (p.up.code == OK ==> p.up.bytes == data)
  {
    NameThenDownload(t, cache, dest, s);
    var data, p := Flatten(s.dataSegs), Play(t, cache, s);
    LastIsPart(s.dataSegs);
    var t2 := Begun(Changed(p.down.t, s.between), 0);
    MixedIsSame(dest, s.Tmp());
    SecondJoin(t2, p.named.t, s.name, dest);
    assert t2.world.files[dest] == data;
    UploadDeliversSnapshot(t2, data, s.counts, s.meanwhile);
  }

  lemma {:induction false} SecondJoin(t2: Transfer, t: Transfer, name: Path, dest: Path)
    requires Valid(t) && SameFields(t2, Joined(t)) && t.fileName == name && Plain(name)
    requires |TmpOf(name)| < PATH_LEN && t2.FilePath() == dest && !t2.spilled
    ensures Valid(t2) && Steady(t2) && Joined(t2).TmpPath() == TmpOf(name)
  {
    JoinedTwice(t2, t);
    JoinedPaths(t2);
  }

  /** One such scenario: behind "/c", the name "a" arrives in two pieces and two bytes in two segments; the upload
      reads them at once. */
  function Sample(): Scenario {
    var quiet := Change({}, map[], 0);
    Scenario([97], [[97], [0]], [[1], [2]], [quiet, quiet], quiet, [2], [quiet])
  }

  lemma {:induction false} SampleIsFair()
    ensures Sample().Fair([47, 99, 47, 97]) && Flatten(Sample().dataSegs) == [1, 2] && Sum(Sample().counts) == 2
    ensures Inside([47, 99], [97]) == [47, 99, 47, 97] && Sample().Tmp() == [47, 116, 109, 112, 47, 97]
  {
    TwoPieces([97], [0]);
    TwoPieces([1], [2]);
    assert [2][1..] == [];
    assert TMP + [SLASH] + [97] == [47, 116, 109, 112, 47, 97];
  }

  lemma {:induction false} TwoPieces(a: seq<byte>, b: seq<byte>)
    ensures Flatten([a, b]) == a + b
  {
    assert [a, b] == [a] + [b];
    FlattenAppend([a], [b]);
    FlattenOne(a);
    FlattenOne(b);
  }

  lemma {:induction false} SampleRoundTrip(t: Transfer)
    requires Valid(t) && !t.spilled && t.world == World(map[], {[47, 99]}, None, 0, 0)
    ensures var p := Play(t, [47, 99], Sample());
            && p.down.code == OK && p.down.t.world.files == map[[47, 99, 47, 97] := [1, 2]]
            && p.up.code == OK && p.up.bytes == [1, 2]
  {
    SampleIsFair();
    FileRoundTrip(t, [47, 99], [47, 99, 47, 97], Sample());
    NoChange(Found(t), Sample().during[..1]);
  }

  /** The failing family of names: when the cached path reaches into the next field, the accepted download
      still lands in the cache, but it has changed the selection; the upload then looks for another file. */
  lemma {:induction false} LongNameMisleadsUpload(t: Transfer, cache: Path, dest: Path, s: Scenario)
    requires Valid(t) && s.Fair(dest) && Ready(t, cache, dest, s)
    requires dest != s.Tmp() && !Survives(dest, s.Tmp())
    ensures var p := Play(t, cache, s);
            && Cached(t, p, dest, s)
            && p.down.t.FilePath() == Mixed(dest, s.Tmp()) != dest
            && (Mixed(dest, s.Tmp()) !in s.between.On(p.down.t.world.files) ==>
                  p.up.code == NO_DATA && p.up.bytes == [])
  {
    NameThenDownload(t, cache, dest, s);
    MixedIsSame(dest, s.Tmp());
    var p := Play(t, cache, s);
    if Mixed(dest, s.Tmp()) !in s.between.On(p.down.t.world.files) {
      UploadFindsNothing(p.down.t, s.between, s.counts, s.meanwhile);
    }
  }

  /** An upload of a path that names no file. */
  lemma {:induction false} UploadFindsNothing(t: Transfer, ch: Change, counts: seq<nat>, chs: seq<Change>)
    requires Valid(t) && t.world.fp == None && |chs| == |counts| > 0
    requires t.FilePath() !in ch.On(t.world.files)
    ensures var up := UploadRun(Begun(Changed(t, ch), 0), counts, chs); up.code == NO_DATA && up.bytes == []
  {
    assert Changed(t, ch).world.files == ch.On(t.world.files);
  }

  /** Exactly when: with enough reads, and no file where a mixed-up path would point, the round trip works if
      and only if the cache is another directory than /tmp and the cached path ends inside its field (or, 256
      bytes into it, happens to go on with the /tmp path). */
  lemma {:induction false} RoundTripCondition(t: Transfer, cache: Path, dest: Path, s: Scenario)
    requires Valid(t) && s.Fair(dest) && Ready(t, cache, dest, s)
    requires Sum(s.counts) >= |Flatten(s.dataSegs)|
    requires Mixed(dest, s.Tmp()) == dest
             || Mixed(dest, s.Tmp()) !in s.between.On(Play(t, cache, s).down.t.world.files)
    ensures var p := Play(t, cache, s);
            p.up.code == OK && p.up.bytes == Flatten(s.dataSegs) <==> dest != s.Tmp() && Survives(dest, s.Tmp())
  {
    MixedIsSame(dest, s.Tmp());
    if dest == s.Tmp() {
      RoundTripFailsInTmp(t, cache, s);
    } else if Survives(dest, s.Tmp()) {
      FileRoundTrip(t, cache, dest, s);
    } else {
      LongNameMisleadsUpload(t, cache, dest, s);
    }
  }

  /** The round trip needs a cache directory other than /tmp: otherwise the download is accepted, the file
      is gone afterwards, and the upload finds nothing. */
  lemma {:induction false} RoundTripFailsInTmp(t: Transfer, cache: Path, s: Scenario)
    requires Valid(t) && s.Fair(s.Tmp()) && Ready(t, cache, s.Tmp(), s)
    ensures var p := Play(t, cache, s);
            p.down.code == OK && s.Tmp() !in p.down.t.world.files && p.up.code == NO_DATA
  {
    NameThenDownload(t, cache, s.Tmp(), s);
    UploadFindsNothing(Play(t, cache, s).down.t, s.between, s.counts, s.meanwhile);
  }

  /** The other self-copy: a file in /tmp, named by its path, is erased by its upload. */
  lemma {:induction false} UploadOfTmpErases(
    t: Transfer, cache: Path, name: Path, segs: seq<seq<byte>>, counts: seq<nat>, chs: seq<Change>)
    requires Valid(t) && !t.spilled && Plain(name) && |TmpOf(name)| + 1 < PATH_LEN && NUL !in cache
    requires segs != [] && Flatten(segs) == TmpOf(name) + [NUL] && |chs| == |counts| > 0
    requires t.world.fp == None && TmpOf(name) in t.world.files && TmpOf(name) !in t.world.dirs
    ensures var named := NameRun(Begun(t, |TmpOf(name)| + 1), cache, segs);
            var up := UploadRun(Begun(named.t, 0), counts, chs);
            && named.code == OK && up.code == NO_DATA && up.t.world.files == t.world.files[TmpOf(name) := []]
  {
    NamingTmp(t, cache, name, segs);
    var u := Begun(NameRun(Begun(t, |TmpOf(name)| + 1), cache, segs).t, 0);
    JoinedPaths(u);
    SelfCopyErases(u, t.world.files[TmpOf(name)], counts, chs);
  }

  lemma {:induction false} NamingTmp(t: Transfer, cache: Path, name: Path, segs: seq<seq<byte>>)
    requires Valid(t) && Plain(name) && |TmpOf(name)| + 1 < PATH_LEN && NUL !in cache
    requires segs != [] && Flatten(segs) == TmpOf(name) + [NUL]
    ensures var r := NameRun(Begun(t, |TmpOf(name)| + 1), cache, segs);
            && r.code == OK && r.t.fileName == name && r.t.FilePath() == TmpOf(name)
            && r.t.world == t.world && r.t.spilled == t.spilled
  {
    NameLands(t, cache, segs);
    var tmp, rest := TmpOf(name), t.raw[|TmpOf(name)| + 1..];
    var t1 := t.(cursor := Cursor(0, |tmp| + 1), raw := tmp + [NUL] + rest);
    CTextOfTerminated(tmp, rest);
    TmpSelects(cache, name, (t.fileName, t.FilePath()));
    SelectByText(t1, cache, tmp);
  }

  lemma {:induction false} TmpSelects(cache: Path, name: Path, prev: (Path, Path))
    requires Plain(name)
    ensures SelectionFor(TmpOf(name), cache, prev) == (name, TmpOf(name))
  {
    BaseNameOfPlain(TMP, name);
    TmpNotTrimmed(name);
  }

  lemma {:induction false} TmpNotTrimmed(name: Path)
    requires Plain(name)
    ensures Trimmed(TmpOf(name)) == TmpOf(name) && !(TmpOf(name) <= name)
  {
    var s := TmpOf(name);
    assert name[|name| - 1] in name;
    assert s[|s| - 1] == name[|name| - 1] != SLASH;
    assert s[1] == TMP[1] != SLASH;
  }

  /** A half-finished name never switches files, yet it can divert a download: with a plain file selected, an
      abandoned name write that starts with a slash makes the next complete download stay in /tmp. */
  lemma {:induction false} HalfNameDivertsDownload(
    t: Transfer, cache: Path, name: Path, dest: Path, length: nat, part: seq<byte>, segs: seq<seq<byte>>)
    requires Valid(t) && Plain(name) && t.fileName == name && cache != [] && dest == Inside(cache, name)
    requires |TmpOf(name)| < PATH_LEN
    requires cache in t.world.dirs && TmpOf(name) !in t.world.dirs && dest !in t.world.dirs
    requires 0 < |part| < length < PATH_LEN && part[0] == SLASH
    requires CText(part + t.raw[|part|..]) != TmpOf(name)
    requires segs != [] && segs[|segs| - 1] != []
    ensures var half := NameRun(Begun(t, length), cache, [part]);
            var down := DownloadRun(Begun(half.t, |Flatten(segs)|), cache, segs,
                                    seq(|segs|, _ => Change({}, map[], 0)));
            && half.code == PARTIAL && half.t.fileName == name
            && down.code == OK
            && down.t.world.files == Found(t)[TmpOf(name) := Flatten(segs)]
  {
    NameRunIsWriteTransfer(Begun(t, length), cache, [part]);
    FlattenOne(part);
    WriteReassembles(length, t.raw, PATH_LEN - 1, [part]);
    var half := NameRun(Begun(t, length), cache, [part]);
    assert Overwrite(t.raw, 0, part) == part + t.raw[|part|..];
    var chs := seq(|segs|, _ => Change({}, map[], 0));
    DownloadLands(half.t, cache, name, dest, segs, chs);
    NoChange(Found(t), chs[..|segs| - 1]);
  }

  lemma {:induction false} NoChange(files: FileMap, chs: seq<Change>)
    requires forall ch :: ch in chs ==> ch == Change({}, map[], 0)
    ensures ChangedAll(files, chs) == files
    decreases |chs|
  {
    if chs != [] {
      assert chs[0] in chs;
      assert chs[0].On(files) == files;
      assert forall ch :: ch in chs[1..] ==> ch in chs;
      NoChange(files, chs[1..]);
    }
  }

  /** Removal takes the cached file and the /tmp copy away, touches nothing else, and forgets the selection:
      until a name is written again, data can be neither read nor written. */
  lemma {:induction false} RemovalForgets(t: Transfer, cache: Path, dest: Path, seg: seq<byte>, count: nat)
    requires Valid(t) && t.fileName != [] && SLASH !in t.fileName && cache != [] && dest == Inside(cache, t.fileName)
    ensures var r := RemoveFile(t, cache);
            && r.world.files == t.world.files - {dest, t.TmpPath()}
            && (r.world.fp.Some? <==> t.world.fp.Some?)
            && (t.TmpPath() in t.world.files ==> !LeftPending(r.world, t.TmpPath()))
            && CText(r.raw) == [] && r.FilePath() == [] && r.TmpPath() == []
            && WriteFileData(r, cache, seg) == (NO_DATA, r, None)
            && ReadFileData(r, count) == ReadResult(NO_DATA, r, [], None)
  {
    PathJoinMeans(cache, t.fileName);
    assert t.fileName[0] in t.fileName;
    assert t.world.files - {dest} - {t.TmpPath()} == t.world.files - {dest, t.TmpPath()};
  }

  /** Without a selected name, nothing is removed, written or read. */
  lemma {:induction false} NothingSelected(t: Transfer, cache: Path, seg: seq<byte>, count: nat)
    requires Valid(t) && t.fileName == []
    ensures RemoveFile(t, cache) == t
    ensures WriteFileData(t, cache, seg) == (NO_DATA, t, None)
    ensures ReadFileData(t, count) == ReadResult(NO_DATA, t, [], None)
  {}

  /** A name that is a path selects that path; its last component names the /tmp copy. */
  lemma {:induction false} NamingPath(t: Transfer, cache: Path, dir: Path, name: Path, segs: seq<seq<byte>>)
    requires Valid(t) && Plain(name) && NUL !in dir && NUL !in cache
    requires segs != [] && Flatten(segs) == dir + [SLASH] + name + [NUL] && |Flatten(segs)| < PATH_LEN
    ensures var path := dir + [SLASH] + name;
            var r := NameRun(Begun(t, |path| + 1), cache, segs);
            && r.code == OK && r.t.fileName == name && r.t.FilePath() == path
            && r.t.world == t.world && r.t.spilled == t.spilled
  {
    NameLands(t, cache, segs);
    var path := dir + [SLASH] + name;
    var rest := t.raw[|path| + 1..];
    CTextOfTerminated(path, rest);
    PathSelects(cache, dir, name, (t.fileName, t.FilePath()));
    SelectByText(t.(cursor := Cursor(0, |path| + 1), raw := path + [NUL] + rest), cache, path);
  }

  lemma {:induction false} PathSelects(cache: Path, dir: Path, name: Path, prev: (Path, Path))
    requires Plain(name)
    ensures SelectionFor(dir + [SLASH] + name, cache, prev) == (name, dir + [SLASH] + name)
  {
    BaseNameOfPlain(dir, name);
    var s := dir + [SLASH] + name;
    assert name[|name| - 1] in name;
    assert s[|s| - 1] == name[|name| - 1] != SLASH;
    assert |s| > |name|;
  }

  /** A plain name selects the cached file of that name, with or without slashes behind it; an empty text has
      the base name ".", and selects that in the cache. */
  lemma {:induction false} PlainSelects(cache: Path, name: Path, slashes: Path, prev: (Path, Path))
    requires cache != [] && Plain(name) && AllSlashes(slashes)
    ensures SelectionFor(name + slashes, cache, prev) == (name, Inside(cache, name))
    ensures SelectionFor([], cache, prev) == ([DOT], Inside(cache, [DOT]))
  {
    JoinPlain(cache, name);
    SlashesCut(name, slashes);
    BaseNameOfPlain([], name);
    assert name[0] in name;
    assert (name + slashes)[0] != SLASH;
    PathJoinMeans(cache, [DOT]);
    assert Trimmed([]) == [] && [DOT][0] != SLASH;
  }

  lemma {:induction false} SlashesCut(name: Path, slashes: Path)
    requires Plain(name) && AllSlashes(slashes)
    ensures Trimmed(name + slashes) == name
    decreases |slashes|
  {
    var s := name + slashes;
    assert name[0] in name && s[0] == name[0];
    if slashes == [] {
      assert s == name && name[|name| - 1] in name;
    } else {
      assert s[|s| - 1] == slashes[|slashes| - 1];
      assert s[..|s| - 1] == name + slashes[..|slashes| - 1];
      SlashesCut(name, slashes[..|slashes| - 1]);
    }
  }

  /** basename(3) ends the text in the buffer where its trailing slashes begin, and changes nothing else. */
  lemma {:induction false} CutMeans(raw: seq<byte>)
    ensures CText(Cut(raw)) == Trimmed(CText(raw)) && |Cut(raw)| == |raw|
    ensures forall i :: 0 <= i < |raw| && i != |Trimmed(CText(raw))| ==> Cut(raw)[i] == raw[i]
  {
    var text := Trimmed(CText(raw));
    assert text <= raw;
    if |text| < |CText(raw)| {
      assert NUL !in text by {
        assert forall b :: b in text ==> b in CText(raw);
      }
      assert raw[|text| := NUL] == text + [NUL] + raw[|text| + 1..];
      CTextOfTerminated(text, raw[|text| + 1..]);
    }
  }

  /** Where /tmp copies lie. */
  lemma {:induction false} TmpOfIs(name: Path)
    ensures TmpOf(name) == Ascii("/tmp/") + name
  {
    TmpIs();
    assert Ascii("/tmp/") == Ascii("/tmp") + Ascii("/");
  }

  /** An upload whose copy cannot be made is answered with DATA_LOC_CTRL, and nothing is read. */
  lemma {:induction false} UploadCannotCopy(t: Transfer, dir: Path, count: nat)
    requires Valid(t) && Steady(t) && Plain(t.fileName) && t.cursor.offset == 0 && dir != []
    requires t.FilePath() == Inside(dir, t.fileName) && t.FilePath() in t.world.files
    requires var tmp := Joined(t).TmpPath(); tmp != [] && tmp in t.world.dirs && Inside(tmp, t.fileName) in t.world.dirs
    ensures ReadFileData(t, count) == ReadResult(DATA_LOC_CTRL, Joined(t), [], None)
  {
    CopyIntoMeans(t.world, Joined(t).TmpPath(), t.fileName, dir);
  }

  /** The counts reported: a segment that is taken counts in full, and so does a chunk that is delivered. */
  lemma {:induction false} CountsReported(t: Transfer, cache: Path, seg: seq<byte>, count: nat)
    requires Valid(t)
    ensures var o := WriteName(t, cache, seg);
            (t.cursor.offset == 0 || t.cursor.offset < t.cursor.length) && (o.0 == OK || o.0 == PARTIAL) ==>
              o.2 == Some(|seg|)
    ensures var o := WriteFileData(t, cache, seg);
            (t.cursor.offset == 0 || t.cursor.offset < t.cursor.length) && (o.0 == OK || o.0 == PARTIAL) ==>
              o.2 == Some(|seg|)
  {
    if t.cursor.offset == 0 || t.cursor.offset < t.cursor.length {
      WriteAnswers(t.cursor, t.raw, PATH_LEN - 1, seg);
      if t.fileName != [] {
        FileCounts(t.cursor, t.world, AtCall(t).TmpPath(), seg);
      }
    }
  }

  lemma {:induction false} FileCounts(c: Cursor, w: World, path: Path, seg: seq<byte>)
    requires c.offset == 0 || c.offset < c.length
    ensures var o := WriteFileStep(c, w, path, seg); o.code == OK || o.code == PARTIAL ==> o.count == Some(|seg|)
  {}

  // ---------------------------------------------------------------- the C entry points

  /** The subindexes of the object. */
  datatype Part = Highest | Length | FilesJson | FileName | FileData | Removal

  /** file_transfer_data_t. */
  class FileTransferObject {
    const cache: Path
    const raw: array<byte>
    const paths: array<byte>      // file_path, and tmp_file_path right behind it
    const port: FilePort
    var fileName: Path
    var spilled: bool             // some store has gone past both

    constructor (cache: Path, port: FilePort)
      ensures this.cache == cache && this.port == port && fresh(raw) && fresh(paths) && Laid()
      ensures raw[0] == paths[0] == paths[PATH_LEN] == NUL && fileName == [] && !spilled
    {
      this.cache, this.port := cache, port;
      raw := new byte[PATH_LEN];
      paths := new byte[PATHS_LEN];
      fileName, spilled := [], false;
      new;
      raw[0] := NUL;
      paths[0] := NUL;
      paths[PATH_LEN] := NUL;
    }

    predicate Laid()
      reads this
    {
      raw.Length == PATH_LEN && paths.Length == PATHS_LEN && raw != paths && NUL !in fileName
    }

    function FilePath(): Path
      reads paths
    {
      CText(paths[..])
    }

    function TmpPath(): Path
      requires paths.Length == PATHS_LEN
      reads paths
    {
      CText(paths[PATH_LEN..])
    }

    /** The stores of sprintf, strncpy and strncat at the start of a path field. */
    method Put(at: nat, text: Path)
      requires paths.Length == PATHS_LEN && at <= PATHS_LEN
      modifies `spilled, paths
      ensures paths[..] == PutText(old(paths[..]), at, text)
      ensures spilled == (old(spilled) || at + |text| >= PATHS_LEN)
    {
      var all := text + [NUL];
      var end := if at + |all| <= PATHS_LEN then at + |all| else PATHS_LEN;
      forall i | at <= i < end {
        paths[i] := all[i - at];
      }
      spilled := spilled || at + |text| >= PATHS_LEN;
    }

    function State(stream: Stream): (t: Transfer)
      requires Laid()
      reads this, raw, paths, port, stream
      ensures Valid(t)
    {
      Transfer(stream.At(), raw[..], fileName, paths[..], spilled, port.Now())
    }

    method Write(stream: Stream, part: Part, buf: array<byte>, count: nat)
      returns (r: Code, countWritten: Option<nat>)
      requires Laid() && count <= buf.Length && buf != raw && buf != paths
      modifies this, raw, paths, port, stream
      ensures Laid()
      ensures part.FileName? ==>
                (r, State(stream), countWritten) == WriteName(old(State(stream)), cache, old(buf[..count]))
      ensures part.FileData? ==>
                (r, State(stream), countWritten) == WriteFileData(old(State(stream)), cache, old(buf[..count]))
      ensures part.Removal? ==>
                r == OK && countWritten == Some(1) && State(stream) == RemoveFile(old(State(stream)), cache)
      ensures !part.FileName? && !part.FileData? && !part.Removal? ==>
                r == READONLY && countWritten == None && State(stream) == old(State(stream))
    {
      countWritten := None;
      if part.FileName? {
        var written;
        r, countWritten, written := WriteData(stream, buf, count, raw, PATH_LEN - 1);
        if r == OK {
          SelectName(stream);
        }
      } else if part.FileData? {
        if fileName == [] {
          return NO_DATA, None;
        }
        if stream.dataOffset == 0 {
          Join(stream);
        }
        r, countWritten := WriteFile(stream, buf, count, TmpPath(), port);
        if r == OK {
          HandOn(stream);
        }
      } else if part.Removal? {
        if fileName != [] {
          port.Become(CacheDelete(port.Now(), cache, fileName));
          port.Become(Remove(port.Now(), TmpPath()));
          raw[0] := NUL;
          fileName := [];
          paths[0] := NUL;
          paths[PATH_LEN] := NUL;
        }
        r, countWritten := OK, Some(1);
      } else {
        r := READONLY;
      }
    }

    method Join(ghost stream: Stream)
      requires Laid()
      modifies `spilled, paths
      ensures State(stream) == Joined(old(State(stream)))
    {
      var p := PathJoin(TMP, fileName);
      if p.Some? {
        Put(PATH_LEN, p.value);
      }
    }

    method SelectName(ghost stream: Stream)
      requires Laid()
      modifies this, raw, paths
      ensures Laid() && State(stream) == Select(old(State(stream)), cache)
    {
      var text := CText(raw[..]);
      var kept := Trimmed(text);
      fileName := BaseName(text);
      if |kept| < |text| {
        raw[|kept|] := NUL;
      }
      if kept <= fileName {
        var p := PathJoin(cache, fileName);
        if p.Some? {
          Put(0, p.value);
        }
      } else {
        Put(0, kept);
      }
    }

    method HandOn(ghost stream: Stream)
      requires Laid()
      modifies port
      ensures State(stream) == Publish(old(State(stream)), cache)
    {
      var w: Option<World>;
      if raw[0] == SLASH {
        w := if CText(raw[..]) == TmpPath() then MoveFile(port.Now(), TmpPath(), CText(raw[..])) else None;
      } else {
        w := CacheTake(port.Now(), cache, TmpPath());
      }
      if w.Some? {
        port.Become(w.value);
      }
    }

    method Read(stream: Stream, part: Part, buf: array<byte>, count: nat)
      returns (r: Code, countRead: Option<nat>)
      requires Laid() && count <= buf.Length && buf != raw && buf != paths
      requires part.FileName? || part.FileData? || part.Removal?
      modifies `spilled, paths, port, stream, buf
      ensures part.FileName? ==>
                var o := ReadStep(old(stream.At()), old(CText(raw[..])) + [NUL], count);
                && r == o.code && State(stream) == old(State(stream)).(cursor := o.cursor)
                && (o.chunk.None? ==> countRead == None)
                && (o.chunk.Some? ==> countRead == Some(|o.chunk.value|) && |o.chunk.value| <= count
                                      && buf[..|o.chunk.value|] == o.chunk.value)
      ensures part.FileData? ==>
                var o := ReadFileData(old(State(stream)), count);
                && r == o.code && State(stream) == o.t && countRead == o.count
                && |o.chunk| <= count && buf[..|o.chunk|] == o.chunk
      ensures part.Removal? ==>
                r == WRITEONLY && countRead == None && State(stream) == old(State(stream))
    {
      countRead := None;
      if part.FileName? {
        r, countRead := ReadText(stream, buf, count, CText(raw[..]));
      } else if part.FileData? {
        if fileName == [] {
          return NO_DATA, None;
        }
        if stream.dataOffset == 0 {
          if FilePath() !in port.files {
            return NO_DATA, None;
          }
          Join(stream);
          var w := CopyFile(port.Now(), FilePath(), TmpPath());
          if w.None? {
            return DATA_LOC_CTRL, None;
          }
          port.Become(w.value);
        }
        r, countRead := ReadFile(stream, buf, count, TmpPath(), port);
      } else {
        r := WRITEONLY;
      }
    }
  }
}
