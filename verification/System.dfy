/** The parts of src/common/system.c and src/common/fcache.c that move whole files. */
module System {
  import opened Base
  import opened Files

  const TMP: Path := [47, 116, 109, 112]     // "/tmp"

  predicate AllSlashes(s: Path) {
    forall i :: 0 <= i < |s| ==> s[i] == SLASH
  }

  /** The text left after basename(3) has cut trailing slashes in place; a text of slashes only is kept. */
  function Trimmed(s: Path): (r: Path)
    ensures r <= s
  {
    if AllSlashes(s) || s[|s| - 1] != SLASH then s else Trimmed(s[..|s| - 1])
  }

  function AfterLastSlash(s: Path): (r: Path)
    ensures |r| <= |s| && (NUL !in s ==> NUL !in r)
  {
    if s == [] || s[|s| - 1] == SLASH then [] else AfterLastSlash(s[..|s| - 1]) + [s[|s| - 1]]
  }

  /** basename(3) of libgen.h. */
  function BaseName(s: Path): (r: Path)
    ensures NUL !in s ==> NUL !in r
  {
    if s == [] then [DOT] else if AllSlashes(s) then [SLASH] else AfterLastSlash(Trimmed(s))
  }

  /** path_join; `None` is its -EINVAL. */
  function PathJoin(head: Path, tail: Path): Option<Path> {
    if tail == [SLASH] then None
    else if head == [SLASH] then
      Some(if tail != [] && tail[0] == SLASH then tail else [SLASH] + tail)
    else if head != [] && head[|head| - 1] == SLASH then Some(head + tail)
    else Some(head + [SLASH] + tail)
  }

  /** copy_file as one whole-file step. The destination is emptied before the source is measured, so
      copying a file onto itself leaves it empty. */
  function CopyFile(w: World, src: Path, dest: Path): Option<World> {
    var target := if dest in w.dirs then PathJoin(dest, BaseName(src)) else Some(dest);
    if src !in w.files || target.None? || target.value in w.dirs then None
    else Some(w.(files := w.files[target.value := if target.value == src then [] else w.files[src]]))
  }

  function Remove(w: World, path: Path): World {
    w.Unlink(path)
  }

  function MoveFile(w: World, src: Path, dest: Path): Option<World> {
    var w1 := CopyFile(w, src, dest);
    if w1.None? then None else Some(Remove(w1.value, src))
  }

  /** fcache_add with `consume` set. */
  function CacheTake(w: World, cache: Path, path: Path): Option<World> {
    if path !in w.files then None else MoveFile(w, path, cache)
  }

  function CacheDelete(w: World, cache: Path, name: Path): World {
    var p := PathJoin(cache, name);
    if p.None? then w else Remove(w, p.value)
  }

  /** A plain name: what a client sends to name a file of the cache. */
  predicate Plain(name: Path) {
    name != [] && NUL !in name && SLASH !in name && name != [DOT] && name != [DOT, DOT]
  }

  lemma {:induction false} AfterLastSlashOfPlain(head: Path, name: Path)
    requires SLASH !in name
    ensures AfterLastSlash(head + [SLASH] + name) == name
    ensures AfterLastSlash(name) == name
    decreases |name|
  {
    if name == [] {
      assert head + [SLASH] + name == head + [SLASH];
    } else {
      var init := name[..|name| - 1];
      assert (head + [SLASH] + name)[..|head + [SLASH] + name| - 1] == head + [SLASH] + init;
      assert name == init + [name[|name| - 1]];
      AfterLastSlashOfPlain(head, init);
    }
  }

  lemma {:induction false} BaseNameOfPlain(head: Path, name: Path)
    requires Plain(name)
    ensures BaseName(name) == name && Trimmed(name) == name
    ensures BaseName(head + [SLASH] + name) == name
  {
    AfterLastSlashOfPlain(head, name);
    assert name[|name| - 1] in name;
    var s := head + [SLASH] + name;
    assert s[|s| - 1] == name[|name| - 1] != SLASH;
    assert !AllSlashes(s);
  }

  /** The path of a name in a directory. */
  function Inside(dir: Path, name: Path): Path
    requires dir != []
  {
    if dir[|dir| - 1] == SLASH then dir + name else dir + [SLASH] + name
  }

  /** Joining gives the path of the tail in the head, except that the root is not repeated before a tail that
      starts with a slash, and that a tail that is the root is refused. */
  lemma {:induction false} PathJoinMeans(head: Path, tail: Path)
    requires head != []
    ensures tail == [SLASH] ==> PathJoin(head, tail) == None
    ensures tail != [SLASH] && head == [SLASH] && tail != [] && tail[0] == SLASH ==> PathJoin(head, tail) == Some(tail)
    ensures tail != [SLASH] && (head != [SLASH] || tail == [] || tail[0] != SLASH) ==>
              PathJoin(head, tail) == Some(Inside(head, tail))
  {}

  lemma {:induction false} TmpIs()
    ensures TMP == Ascii("/tmp") && [SLASH] == Ascii("/") && [DOT] == Ascii(".")
  {}

  /** The text without its trailing slashes. */
  lemma {:induction false} TrimmedMeans(s: Path) returns (slashes: Path)
    requires !AllSlashes(s)
    ensures s == Trimmed(s) + slashes && AllSlashes(slashes)
    ensures Trimmed(s) != [] && Trimmed(s)[|Trimmed(s)| - 1] != SLASH
    decreases |s|
  {
    if s[|s| - 1] != SLASH {
      slashes := [];
    } else {
      var rest := s[..|s| - 1];
      assert s == rest + [SLASH];
      slashes := TrimmedMeans(rest);
      slashes := slashes + [SLASH];
    }
  }

  lemma {:induction false} AfterLastSlashMeans(s: Path) returns (before: Path)
    ensures s == before + AfterLastSlash(s) && SLASH !in AfterLastSlash(s)
    ensures before == [] || before[|before| - 1] == SLASH
    decreases |s|
  {
    if s == [] || s[|s| - 1] == SLASH {
      before := s;
    } else {
      before := AfterLastSlashMeans(s[..|s| - 1]);
      assert s == s[..|s| - 1] + [s[|s| - 1]];
    }
  }

  /** basename(3): "." for an empty text, "/" for slashes only, else the last component. */
  lemma {:induction false} BaseNameMeans(s: Path) returns (before: Path, slashes: Path)
    ensures s == [] ==> BaseName(s) == Ascii(".")
    ensures s != [] && AllSlashes(s) ==> BaseName(s) == Ascii("/")
    ensures !AllSlashes(s) ==>
              && s == before + BaseName(s) + slashes && AllSlashes(slashes)
              && BaseName(s) != [] && SLASH !in BaseName(s)
              && (before == [] || before[|before| - 1] == SLASH)
  {
    before, slashes := [], [];
    if !AllSlashes(s) {
      slashes := TrimmedMeans(s);
      before := AfterLastSlashMeans(Trimmed(s));
    }
  }

  /** A copy to a path that is no directory: that path gets the content, or is emptied when it is the source;
      nothing else changes. Without a source there is no copy. */
  lemma {:induction false} CopyMeans(w: World, src: Path, dest: Path)
    requires dest !in w.dirs
    ensures src !in w.files ==> CopyFile(w, src, dest) == None
    ensures src in w.files ==>
              CopyFile(w, src, dest) == Some(w.(files := w.files[dest := if src == dest then [] else w.files[src]]))
  {}

  /** A copy into a directory goes to the source's name there, unless that is a directory. */
  lemma {:induction false} CopyIntoMeans(w: World, dir: Path, name: Path, from: Path)
    requires from != [] && dir != [] && dir in w.dirs && Plain(name) && Inside(from, name) in w.files
    ensures var src, target := Inside(from, name), Inside(dir, name);
            CopyFile(w, src, dir)
            == if target in w.dirs then None
               else Some(w.(files := w.files[target := if src == target then [] else w.files[src]]))
  {
    SourceName(name, from);
    PathJoinMeans(dir, name);
    assert name[0] in name;
  }

  lemma {:induction false} SourceName(name: Path, from: Path)
    requires from != [] && Plain(name)
    ensures BaseName(Inside(from, name)) == name
  {
    if from[|from| - 1] == SLASH {
      var before := from[..|from| - 1];
      assert Inside(from, name) == before + [SLASH] + name;
      BaseNameOfPlain(before, name);
    } else {
      BaseNameOfPlain(from, name);
    }
  }

  /** A move is a copy without its source, which an open handle keeps. */
  lemma {:induction false} MoveMeans(w: World, src: Path, dest: Path)
    requires src in w.files && src != dest && dest !in w.dirs
    ensures var m := MoveFile(w, src, dest);
            m.Some? && m.value.files == w.files[dest := w.files[src]] - {src} && m.value.dirs == w.dirs
  {}
}
