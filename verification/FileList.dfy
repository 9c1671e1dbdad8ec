/** The hand-written file list: the builder fcache_list_files_as_json of src/common/fcache.c and the splitter
    in scripts/fcache_list_main.c. */
module FileList {
  import opened Base

  const END := '\0'
  const COMMA := ','

  // ---------------------------------------------------------------- the text

  /** The two strncmp tests of the builder: a directory entry that is a prefix of "..". */
  predicate Skipped(name: string) {
    name <= ".."
  }

  function Listed(dir: seq<string>): seq<string> {
    if dir == [] then []
    else
      var last := dir[|dir| - 1];
      Listed(dir[..|dir| - 1]) + (if Skipped(last) then [] else [last])
  }

  /** The text in the buffer after some names, before the closing bracket. */
  function Opened(names: seq<string>): (r: string)
    ensures |r| >= 1
  {
    if names == [] then "["
    else
      Opened(names[..|names| - 1]) + (if |names| == 1 then "\"" else ", \"") + names[|names| - 1] + "\""
  }

  function ListText(names: seq<string>): string {
    Opened(names) + "]"
  }

  /** The names in quotes, separated by comma and space, read from the front. */
  function Quoted(names: seq<string>): string {
    if names == [] then []
    else if |names| == 1 then "\"" + names[0] + "\""
    else "\"" + names[0] + "\", " + Quoted(names[1..])
  }

  lemma {:induction false} QuotedSnoc(names: seq<string>, name: string)
    requires names != []
    ensures Quoted(names + [name]) == Quoted(names) + ", \"" + name + "\""
    decreases |names|
  {
    var all := names + [name];
    if |names| == 1 {
      assert all[1..] == [name] && all[0] == names[0];
      assert "\"" + names[0] + "\", " + ("\"" + name + "\"") == "\"" + names[0] + "\"" + ", \"" + name + "\"";
    } else {
      assert all[1..] == names[1..] + [name] && all[0] == names[0];
      QuotedSnoc(names[1..], name);
      var a, b := "\"" + names[0] + "\", ", Quoted(names[1..]);
      assert a + (b + ", \"" + name + "\"") == a + b + ", \"" + name + "\"";
    }
  }

  /** The text is the list of the names as JSON strings without escapes. */
  lemma {:induction false} ListTextIs(names: seq<string>)
    ensures ListText(names) == "[" + Quoted(names) + "]"
  {
    OpenedIs(names);
  }

  lemma {:induction false} OpenedIs(names: seq<string>)
    ensures Opened(names) == "[" + Quoted(names)
    decreases |names|
  {
    if |names| == 1 {
      var none: seq<string> := [];
      assert names[..0] == none && Opened(none) == "[";
      assert "[" + ("\"" + names[0] + "\"") == "[" + "\"" + names[0] + "\"";
    } else if names != [] {
      var before, name := names[..|names| - 1], names[|names| - 1];
      assert names == before + [name];
      OpenedIs(before);
      QuotedSnoc(before, name);
      assert "[" + (Quoted(before) + ", \"" + name + "\"") == "[" + Quoted(before) + ", \"" + name + "\"";
    }
  }

  /** Only the two directory entries that every directory has are left out (and an empty name, which none has). */
  lemma {:induction false} SkippedMeans(name: string)
    ensures Skipped(name) <==> name in {"", ".", ".."}
  {
    if Skipped(name) {
      assert name == ".."[..|name|];
      assert ".."[..0] == "" && ".."[..1] == "." && ".."[..2] == "..";
    }
  }

  /** The others are listed, in directory order. */
  lemma {:induction false} ListedMeans(name: string, rest: seq<string>)
    ensures Listed([]) == []
    ensures Listed([name] + rest) == (if name in {"", ".", ".."} then [] else [name]) + Listed(rest)
    decreases |rest|
  {
    SkippedMeans(name);
    if rest == [] {
      assert [name] + rest == [name];
      assert [name][..0] == [] && [name][0] == name;
    } else {
      var before, last := rest[..|rest| - 1], rest[|rest| - 1];
      assert rest == before + [last];
      ListedMeans(name, before);
      assert ([name] + rest)[..|rest|] == [name] + before && ([name] + rest)[|rest|] == last;
    }
  }

  predicate Terminable(names: seq<string>) {
    forall i :: 0 <= i < |names| ==> END !in names[i]
  }

  // ---------------------------------------------------------------- the buffer

  const LIMIT := 10024

  /** The growth loop: double until `need` bytes fit; `None` past the hard limit, where the code goes on with
      a null pointer. */
  function Grows(size: nat, need: nat): (r: Option<nat>)
    requires size > 0
    ensures r.Some? ==> r.value >= size && r.value >= need
    decreases need - size
  {
    if need <= size then Some(size) else if 2 * size > LIMIT then None else Grows(2 * size, need)
  }

  /** The buffer size after some names. */
  function SizeFor(names: seq<string>): (r: Option<nat>)
    ensures r.Some? ==> r.value > 0
  {
    if names == [] then Some(256)
    else
      var before := names[..|names| - 1];
      var size := SizeFor(before);
      if size.None? then None else Grows(size.value, |Opened(before)| + |names[|names| - 1]| + 5)
  }

  /** Crashed: the list outgrew the limit. `fits` says whether the final terminator lies inside the buffer. */
  datatype Built = Crashed | Built(text: string, size: nat, fits: bool)

  lemma {:induction false} OpenedFacts(names: seq<string>)
    ensures |Opened(names)| == 1 <==> names == []
    ensures Terminable(names) ==> END !in Opened(names)
    decreases |names|
  {
    if names != [] {
      OpenedFacts(names[..|names| - 1]);
    }
  }

  lemma {:induction false} OpenedSnoc(names: seq<string>, name: string)
    ensures Opened(names + [name]) == Opened(names) + (if names == [] then "\"" else ", \"") + name + "\""
    ensures SizeFor(names + [name])
            == if SizeFor(names).None? then None else Grows(SizeFor(names).value, |Opened(names)| + |name| + 5)
  {
    assert (names + [name])[..|names|] == names;
  }

  lemma {:induction false} ListedSnoc(dir: seq<string>, k: nat)
    requires k < |dir|
    ensures Listed(dir[..k + 1]) == Listed(dir[..k]) + (if Skipped(dir[k]) then [] else [dir[k]])
    ensures Terminable(dir) ==> Terminable(Listed(dir[..k]))
    decreases k
  {
    assert dir[..k + 1][..k] == dir[..k];
    if k > 0 {
      ListedSnoc(dir, k - 1);
    }
  }

  /** A list that has outgrown the limit stays that way. */
  lemma {:induction false} CrashIsFinal(dir: seq<string>, k: nat)
    requires k <= |dir| && SizeFor(Listed(dir[..k])).None?
    ensures SizeFor(Listed(dir)).None?
    decreases |dir| - k
  {
    if k == |dir| {
      assert dir[..k] == dir;
    } else {
      ListedSnoc(dir, k);
      var names := Listed(dir[..k]);
      if !Skipped(dir[k]) {
        OpenedSnoc(names, dir[k]);
      } else {
        assert names + [] == names;
      }
      CrashIsFinal(dir, k + 1);
    }
  }

  /** strncat of a whole string, which looks for the end of the text itself; `at` is where it must find it. */
  method Strncat(buf: array<char>, ghost at: nat, s: string)
    requires at + |s| < buf.Length && buf[at] == END && forall j :: 0 <= j < at ==> buf[j] != END
    modifies buf
    ensures buf[..at + |s|] == old(buf[..at]) + s && buf[at + |s|] == END
  {
    var i := 0;
    while buf[i] != END
      invariant i <= at
      decreases at - i
    {
      assert i < at;
      i := i + 1;
    }
    forall j | 0 <= j < |s| {
      buf[i + j] := s[j];
    }
    buf[i + |s|] := END;
  }

  method Realloc(buf: array<char>, size: nat) returns (r: array<char>)
    requires buf.Length <= size
    ensures fresh(r) && r.Length == size && r[..buf.Length] == buf[..]
  {
    r := new char[size];
    forall i | 0 <= i < buf.Length {
      r[i] := buf[i];
    }
  }

  /** The builder. Every store of the loop is inside the buffer, `offset` is the length of the text, and the
      result is the bracketed list of quoted names. */
  method BuildList(dir: seq<string>) returns (r: Built)
    requires Terminable(dir)
    ensures SizeFor(Listed(dir)).None? ==> r == Crashed
    ensures SizeFor(Listed(dir)).Some? ==>
              var size := SizeFor(Listed(dir)).value;
              r == Built(ListText(Listed(dir)), size, |ListText(Listed(dir))| < size)
  {
    var size: nat := 256;
    var buf := new char[size];
    buf[0] := '[';
    buf[1] := END;
    var offset: nat := 1;
    ghost var names: seq<string> := [];
    for k := 0 to |dir|
      invariant names == Listed(dir[..k]) && fresh(buf) && Holds(buf, size, offset, names)
    {
      ListedSnoc(dir, k);
      if Skipped(dir[k]) {
        assert names + [] == names;
      } else {
        var ok: bool;
        ghost var more := names + [dir[k]];
        buf, size, offset, ok := AddName(buf, size, offset, names, dir[k]);
        assert Listed(dir[..k + 1]) == more;
        if !ok {
          CrashIsFinal(dir, k + 1);
          return Crashed;
        }
        names := more;
      }
    }
    assert dir[..|dir|] == dir;
    r := CloseList(buf, size, offset, names);
  }

  /** The closing bracket over the terminator, and the last terminator if it fits. */
  method CloseList(buf: array<char>, size: nat, offset: nat, ghost names: seq<string>) returns (r: Built)
    requires Holds(buf, size, offset, names)
    modifies buf
    ensures r == Built(ListText(names), size, |ListText(names)| < size)
  {
    buf[offset] := ']';
    var fits := offset + 1 < size;
    if fits {
      buf[offset + 1] := END;
    }
    assert buf[..offset + 1] == buf[..offset] + [']'];
    r := Built(buf[..offset + 1], size, fits);
  }

  /** The loop invariant: the buffer holds the text, its terminator and nothing out of bounds. */
  ghost predicate Holds(buf: array<char>, size: nat, offset: nat, names: seq<string>)
    reads buf
  {
    && SizeFor(names) == Some(size) && buf.Length == size
    && offset == |Opened(names)| < size && buf[..offset] == Opened(names) && buf[offset] == END
  }

  /** The loop body on one name: `ok` unless the list outgrows the limit. */
  method AddName(buf0: array<char>, size0: nat, offset0: nat, ghost names: seq<string>, name: string)
    returns (buf: array<char>, size: nat, offset: nat, ok: bool)
    requires Holds(buf0, size0, offset0, names) && Terminable(names) && END !in name
    modifies buf0
    ensures buf == buf0 || fresh(buf)
    ensures ok <==> SizeFor(names + [name]).Some?
    ensures ok ==> Holds(buf, size, offset, names + [name])
  {
    OpenedSnoc(names, name);
    OpenedFacts(names);
    buf, size, ok := Grow(buf0, size0, offset0, offset0 + |name| + 5);
    offset := offset0;
    if ok {
      assert buf[..offset] == buf[..offset + 1][..offset] == Opened(names);
      assert buf[offset] == buf[..offset + 1][offset] == END;
      offset := Append(buf, offset, name);
    }
  }

  method Grow(buf0: array<char>, size0: nat, ghost offset: nat, need: nat)
    returns (buf: array<char>, size: nat, ok: bool)
    requires buf0.Length == size0 && offset < size0
    ensures ok <==> Grows(size0, need).Some?
    ensures buf == buf0 || fresh(buf)
    ensures ok ==> && Grows(size0, need) == Some(size) && buf.Length == size
                   && buf[..offset + 1] == old(buf0[..offset + 1])
  {
    buf, size := buf0, size0;
    while need > size
      invariant offset < size0 <= size == buf.Length && (buf == buf0 || fresh(buf))
      invariant buf[..offset + 1] == old(buf0[..offset + 1])
      invariant Grows(size0, need) == Grows(size, need)
      decreases need - size
    {
      var tmp := Realloc(buf, 2 * size);
      assert tmp[..offset + 1] == tmp[..buf.Length][..offset + 1] == buf[..][..offset + 1] == buf[..offset + 1];
      buf := tmp;
      size := 2 * size;
      if size > LIMIT {
        return buf, size, false;
      }
    }
    ok := true;
  }

  method Append(buf: array<char>, offset0: nat, name: string) returns (offset: nat)
    requires 1 <= offset0 && offset0 + |name| + 5 <= buf.Length
    requires buf[offset0] == END && END !in buf[..offset0] && END !in name
    modifies buf
    ensures offset < buf.Length && buf[offset] == END
    ensures var sep := if offset0 == 1 then "\"" else ", \"";
            buf[..offset] == old(buf[..offset0]) + sep + name + "\"" && offset == offset0 + |sep| + |name| + 1
  {
    offset := offset0;
    if offset == 1 {
      buf[1] := '"';
      offset := offset + 1;
      buf[offset] := END;
    } else {
      Strncat(buf, offset, ", \"");
      offset := offset + 3;
    }
    assert buf[..offset] == old(buf[..offset0]) + (if offset0 == 1 then "\"" else ", \"");
    Strncat(buf, offset, name);
    offset := offset + |name|;
    ghost var text := buf[..offset];
    buf[offset] := '"';
    offset := offset + 1;
    buf[offset] := END;
    assert buf[..offset] == text + "\"";
  }

  // ---------------------------------------------------------------- when the last byte fits

  /** The sizes the buffer can have. */
  predicate Allocation(n: nat) {
    n in {256, 512, 1024, 2048, 4096, 8192}
  }

  /** The smallest allocation that holds `need` bytes. */
  predicate Least(size: nat, need: nat) {
    Allocation(size) && need <= size && (size == 256 || size / 2 < need)
  }

  lemma {:induction false} GrowsToLeast(size: nat, need: nat, before: nat)
    requires Least(size, before) && before <= need
    ensures Grows(size, need).Some? ==> Least(Grows(size, need).value, need)
    decreases need - size
  {
    if need <= size {
    } else if 2 * size <= LIMIT {
      assert Allocation(2 * size);
      GrowsToLeast(2 * size, need, size + 1);
    }
  }

  /** The bytes the builder reserved for the last name. */
  function Reserved(names: seq<string>): nat {
    if names == [] then 2 else if |names| == 1 then |Opened(names)| + 3 else |Opened(names)| + 1
  }

  lemma {:induction false} ReservedSnoc(names: seq<string>, name: string)
    ensures |Opened(names)| + |name| + 5 == Reserved(names + [name]) >= Reserved(names)
  {
    OpenedSnoc(names, name);
    OpenedFacts(names);
  }

  lemma {:induction false} SizeIsLeast(names: seq<string>)
    requires SizeFor(names).Some?
    ensures Least(SizeFor(names).value, Reserved(names))
    decreases |names|
  {
    if names != [] {
      var before, name := names[..|names| - 1], names[|names| - 1];
      assert names == before + [name];
      SizeIsLeast(before);
      ReservedSnoc(before, name);
      GrowsToLeast(SizeFor(before).value, Reserved(names), Reserved(before));
    }
  }

  lemma {:induction false} GrowsWhile(size: nat, need: nat)
    requires Allocation(size)
    ensures Grows(size, need).Some? <==> need <= 8192
    decreases need - size
  {
    if need > size && 2 * size <= LIMIT {
      assert Allocation(2 * size);
      GrowsWhile(2 * size, need);
    }
  }

  /** The list is built exactly as long as at most 8192 bytes have to be reserved. */
  lemma {:induction false} BuiltUpTo(names: seq<string>)
    ensures SizeFor(names).Some? <==> Reserved(names) <= 8192
    decreases |names|
  {
    if names != [] {
      var before, name := names[..|names| - 1], names[|names| - 1];
      assert names == before + [name];
      BuiltUpTo(before);
      ReservedSnoc(before, name);
      OpenedSnoc(before, name);
      if SizeFor(before).Some? {
        SizeIsLeast(before);
        GrowsWhile(SizeFor(before).value, Reserved(names));
      }
    }
  }

  /** The final terminator lands outside the buffer exactly when there are two names or more and the text
      fills an allocation to the last byte. */
  lemma {:induction false} TerminatorFits(names: seq<string>)
    requires SizeFor(names).Some?
    ensures |ListText(names)| < SizeFor(names).value <==> |names| < 2 || !Allocation(|ListText(names)|)
  {
    SizeIsLeast(names);
  }

  // ---------------------------------------------------------------- the splitter

  /** strtok's next token: the characters up to a comma. */
  function Token(s: string): (t: string)
    ensures t <= s && COMMA !in t
    ensures |t| < |s| ==> s[|t|] == COMMA
  {
    if s == [] || s[0] == COMMA then [] else [s[0]] + Token(s[1..])
  }

  /** All the tokens strtok finds. */
  function Tokens(s: string): seq<string>
    decreases |s|
  {
    if s == [] then []
    else if s[0] == COMMA then Tokens(s[1..])
    else [Token(s)] + Tokens(s[|Token(s)|..])
  }

  /** What is printed of a token: from its third character to the quote that is cut off. */
  function Clean(t: string): string {
    var end := if t != [] && t[|t| - 1] == ']' then |t| - 2 else |t| - 1;
    if 2 <= end then t[2..end] else if |t| > 2 then t[2..] else []
  }

  function CleanAll(ts: seq<string>): (r: seq<string>)
    ensures |r| == |ts|
  {
    if ts == [] then [] else [Clean(ts[0])] + CleanAll(ts[1..])
  }

  function Shown(text: string): seq<string> {
    if text <= "[]" then [] else CleanAll(Tokens(text))
  }

  lemma {:induction false} CleanAppend(a: seq<string>, b: seq<string>)
    ensures CleanAll(a + b) == CleanAll(a) + CleanAll(b)
    decreases |a|
  {
    if a == [] {
      assert a + b == b;
    } else {
      assert (a + b)[1..] == a[1..] + b;
      CleanAppend(a[1..], b);
    }
  }

  lemma {:induction false} TokenAlone(t: string, rest: string)
    requires COMMA !in t && (rest == [] || rest[0] == COMMA)
    ensures Token(t + rest) == t
    decreases |t|
  {
    if t == [] {
      assert t + rest == rest;
    } else {
      assert t[0] in t;
      assert (t + rest)[1..] == t[1..] + rest;
      TokenAlone(t[1..], rest);
    }
  }

  lemma {:induction false} OneToken(t: string)
    requires t != [] && COMMA !in t
    ensures Tokens(t) == [t]
  {
    TokenAlone(t, []);
    assert t + [] == t && t[0] in t;
    assert t[|t|..] == [];
  }

  /** A comma separates: the tokens on both sides are found independently. */
  lemma {:induction false} TokensSeparate(x: string, y: string)
    ensures Tokens(x + [COMMA] + y) == Tokens(x) + Tokens(y)
    decreases |x|
  {
    var s := x + [COMMA] + y;
    if x == [] {
      assert s[0] == COMMA && s[1..] == y;
    } else if x[0] == COMMA {
      assert s[1..] == x[1..] + [COMMA] + y;
      TokensSeparate(x[1..], y);
    } else {
      var t, rest := Token(x), x[|Token(x)|..];
      assert s == t + (rest + [COMMA] + y);
      TokenAlone(t, rest + [COMMA] + y);
      assert s[|t|..] == rest + [COMMA] + y;
      TokensSeparate(rest, y);
    }
  }

  /** The token of a name that is not the first, without and with the closing bracket. */
  lemma {:induction false} LaterToken(name: string, z: string)
    requires COMMA !in name && (z == [] || z == "]")
    ensures CleanAll(Tokens(" \"" + name + "\"" + z)) == [name]
  {
    var t := " \"" + name + "\"" + z;
    OneToken(t);
    assert t[2..|name| + 2] == name;
    assert CleanAll([t]) == [Clean(t)] + CleanAll([t][1..]);
  }

  lemma {:induction false} FirstToken(name: string, z: string)
    requires COMMA !in name && (z == [] || z == "]")
    ensures CleanAll(Tokens("[\"" + name + "\"" + z)) == [name]
  {
    var t := "[\"" + name + "\"" + z;
    OneToken(t);
    assert t[2..|name| + 2] == name;
    assert CleanAll([t]) == [Clean(t)] + CleanAll([t][1..]);
  }

  lemma {:induction false} FirstOpened(name: string, z: string)
    ensures Opened([name]) + z == "[\"" + name + "\"" + z
  {
    OpenedSnoc([], name);
    assert [] + [name] == [name];
    assert "[" + "\"" == "[\"";
  }

  lemma {:induction false} Regroup(a: string, name: string, z: string)
    ensures a + ", \"" + name + "\"" + z == a + [COMMA] + (" \"" + name + "\"" + z)
  {
    assert ", \"" == [COMMA] + " \"";
  }

  lemma {:induction false} SplitRecovers(names: seq<string>, z: string)
    requires names != [] && (z == [] || z == "]")
    requires forall i :: 0 <= i < |names| ==> COMMA !in names[i]
    ensures CleanAll(Tokens(Opened(names) + z)) == names
    decreases |names|
  {
    var before, name := names[..|names| - 1], names[|names| - 1];
    assert names == before + [name];
    if |names| == 1 {
      FirstOpened(name, z);
      FirstToken(name, z);
    } else {
      var piece := " \"" + name + "\"" + z;
      assert Tokens(Opened(names) + z) == Tokens(Opened(before)) + Tokens(piece) by {
        TokensOfLonger(before, name, z);
      }
      CleanAppend(Tokens(Opened(before)), Tokens(piece));
      assert Opened(before) + [] == Opened(before);
      SplitRecovers(before, []);
      LaterToken(name, z);
    }
  }

  lemma {:induction false} SomeToken(s: string, i: nat)
    requires i < |s| && s[i] != COMMA
    ensures |Tokens(s)| >= 1
    decreases |s|
  {
    if s[0] == COMMA {
      SomeToken(s[1..], i - 1);
    }
  }

  /** A quoted piece gives one token at least, and two at least when the name in it has a comma. */
  lemma {:induction false} PieceTokens(head: string, name: string, z: string)
    requires head != [] && COMMA !in head
    ensures |Tokens(head + name + "\"" + z)| >= 1
    ensures COMMA in name ==> |Tokens(head + name + "\"" + z)| >= 2
  {
    var s := head + name + "\"" + z;
    assert s[0] == head[0] && head[0] in head;
    SomeToken(s, 0);
    if COMMA in name {
      var i :| 0 <= i < |name| && name[i] == COMMA;
      var x, y := head + name[..i], name[i + 1..] + "\"" + z;
      assert s == x + [COMMA] + y;
      TokensSeparate(x, y);
      assert x[0] == head[0];
      SomeToken(x, 0);
      assert y[|name[i + 1..]|] == '"';
      SomeToken(y, |name[i + 1..]|);
    }
  }

  predicate HasComma(names: seq<string>) {
    exists i :: 0 <= i < |names| && COMMA in names[i]
  }

  lemma {:induction false} HasCommaSnoc(names: seq<string>, name: string)
    ensures HasComma(names + [name]) <==> HasComma(names) || COMMA in name
  {
    var all := names + [name];
    assert all[|names|] == name && forall i :: 0 <= i < |names| ==> all[i] == names[i];
  }

  lemma {:induction false} TokensOfLonger(names: seq<string>, name: string, z: string)
    requires names != []
    ensures Tokens(Opened(names + [name]) + z) == Tokens(Opened(names)) + Tokens(" \"" + name + "\"" + z)
  {
    OpenedSnoc(names, name);
    Regroup(Opened(names), name, z);
    TokensSeparate(Opened(names), " \"" + name + "\"" + z);
  }

  lemma {:induction false} CommasAddTokens(names: seq<string>, z: string)
    requires names != []
    ensures |Tokens(Opened(names) + z)| >= |names|
    ensures HasComma(names) ==> |Tokens(Opened(names) + z)| > |names|
    decreases |names|
  {
    var before, name := names[..|names| - 1], names[|names| - 1];
    assert names == before + [name];
    HasCommaSnoc(before, name);
    if before == [] {
      FirstOpened(name, z);
      PieceTokens("[\"", name, z);
    } else {
      TokensOfLonger(before, name, z);
      CommasAddTokens(before, []);
      assert Opened(before) + [] == Opened(before);
      PieceTokens(" \"", name, z);
    }
  }

  /** File list round trip: the splitter recovers the names in order exactly when none has a comma. */
  lemma {:induction false} ListRoundTrip(names: seq<string>)
    ensures Shown(ListText(names)) == names <==> forall i :: 0 <= i < |names| ==> COMMA !in names[i]
  {
    if names != [] {
      OpenedFacts(names);
      assert !(ListText(names) <= "[]");
      CommasAddTokens(names, "]");
      if forall i :: 0 <= i < |names| ==> COMMA !in names[i] {
        SplitRecovers(names, "]");
      }
    } else {
      assert ListText(names) == "[]";
    }
  }

  // ---------------------------------------------------------------- the splitter's loop

  /** The C string that starts at `i`. */
  function TextAt(s: string, i: nat): string
    decreases |s| - i
  {
    if i >= |s| || s[i] == END then [] else [s[i]] + TextAt(s, i + 1)
  }

  lemma {:induction false} TextAtIs(s: string, i: nat, j: nat)
    requires i <= j < |s| && s[j] == END && forall k :: i <= k < j ==> s[k] != END
    ensures TextAt(s, i) == s[i..j]
    decreases j - i
  {
    if i < j {
      TextAtIs(s, i + 1, j);
      assert s[i..j] == [s[i]] + s[i + 1..j];
    }
  }

  /** What is still to be printed from a position on. */
  function Rest(text: string, pos: nat): seq<string>
    decreases |text| - pos
  {
    if pos >= |text| then []
    else if text[pos] == COMMA then Rest(text, pos + 1)
    else
      var t := Token(text[pos..]);
      if t == [] then [] else [Clean(t)] + Rest(text, pos + |t|)
  }

  lemma {:induction false} CommaThenRest(s: string)
    requires s != [] && s[0] == COMMA
    ensures CleanAll(Tokens(s)) == CleanAll(Tokens(s[1..]))
  {}

  lemma {:induction false} TokenThenRest(s: string)
    requires s != [] && s[0] != COMMA
    ensures var t := Token(s);
            t != [] && CleanAll(Tokens(s)) == [Clean(t)] + CleanAll(Tokens(s[|t|..]))
  {
    var ts := Tokens(s[|Token(s)|..]);
    assert Tokens(s) == [Token(s)] + ts;
    assert ([Token(s)] + ts)[1..] == ts;
  }

  /** One step of the comparison, at a comma and at a token. */
  lemma {:induction false} RestAtComma(text: string, pos: nat, s: string, later: seq<string>)
    requires pos < |text| && text[pos] == COMMA && s == text[pos..]
    requires later == Rest(text, pos + 1) == CleanAll(Tokens(s[1..]))
    ensures Rest(text, pos) == CleanAll(Tokens(s))
  {
    CommaThenRest(s);
  }

  lemma {:induction false} RestAtToken(text: string, pos: nat, s: string, t: string, later: seq<string>)
    requires pos < |text| && text[pos] != COMMA && s == text[pos..] && t == Token(s)
    requires later == Rest(text, pos + |t|) == CleanAll(Tokens(s[|t|..]))
    ensures Rest(text, pos) == CleanAll(Tokens(s))
  {
    TokenThenRest(s);
  }

  lemma {:induction false} RestIsTokens(text: string, pos: nat)
    requires pos <= |text|
    ensures Rest(text, pos) == CleanAll(Tokens(text[pos..]))
    decreases |text| - pos
  {
    if pos < |text| {
      var s := text[pos..];
      if text[pos] == COMMA {
        RestIsTokens(text, pos + 1);
        assert s[1..] == text[pos + 1..];
        RestAtComma(text, pos, s, Rest(text, pos + 1));
      } else {
        var t := Token(s);
        assert t != [];
        RestIsTokens(text, pos + |t|);
        assert s[|t|..] == text[pos + |t|..];
        RestAtToken(text, pos, s, t, Rest(text, pos + |t|));
      }
    }
  }

  lemma {:induction false} RestTakesToken(text: string, pos: nat, end: nat)
    requires pos < end <= |text| && forall i :: pos <= i < end ==> text[i] != COMMA
    requires end == |text| || text[end] == COMMA
    ensures Rest(text, pos) == [Clean(text[pos..end])] + Rest(text, end + 1)
  {
    var t := text[pos..end];
    assert Token(text[pos..]) == t by {
      assert text[pos..] == t + text[end..];
      TokenAlone(t, text[end..]);
    }
    assert Rest(text, end) == Rest(text, end + 1);
  }

  /** A token whose character at the cut has been zeroed prints as `Clean` says. */
  lemma {:induction false} CutPrints(s: string, a: nat, t: string, cut: nat)
    requires 2 <= |t| && a + |t| < |s| && s[a + |t|] == END && END !in t
    requires cut == (if t[|t| - 1] == ']' then |t| - 2 else |t| - 1)
    requires forall k :: a <= k < a + |t| ==> s[k] == if k - a == cut then END else t[k - a]
    ensures TextAt(s, a + 2) == Clean(t)
  {
    if cut >= 2 {
      TextAtIs(s, a + 2, a + cut);
      assert s[a + 2..a + cut] == t[2..cut];
    } else {
      TextAtIs(s, a + 2, a + |t|);
      assert s[a + 2..a + |t|] == t[2..];
    }
  }

  /** One token in place: strtok ends it, the loop cuts it, printf prints it from its third character. */
  method PrintToken(buf: array<char>, a: nat, b: nat) returns (line: string)
    requires a < b < buf.Length && END !in buf[a..b]
    modifies buf
    ensures line == Clean(old(buf[a..b]))
    ensures buf[b] == END && forall i :: 0 <= i < a || b < i < buf.Length ==> buf[i] == old(buf[i])
  {
    ghost var t := buf[a..b];
    buf[b] := END;
    var len := b - a;
    if len < 2 {
      return [];      // the code would go on outside the token
    }
    var cut := if buf[b - 1] == ']' then len - 2 else len - 1;
    buf[a + cut] := END;
    line := TextAt(buf[..], a + 2);
    CutPrints(buf[..], a, t, cut);
  }

  method TokenEnd(buf: array<char>, pos: nat, n: nat) returns (end: nat)
    requires pos < n < buf.Length && buf[pos] != COMMA
    ensures pos < end <= n && (end == n || buf[end] == COMMA)
    ensures forall i :: pos <= i < end ==> buf[i] != COMMA
  {
    end := pos + 1;
    while end < n && buf[end] != COMMA
      invariant pos < end <= n
      invariant forall i :: pos <= i < end ==> buf[i] != COMMA
    {
      end := end + 1;
    }
  }

  /** A token at `pos`: where it ends and what it prints. */
  method NextToken(buf: array<char>, pos: nat, n: nat, ghost text: string) returns (line: string, end: nat)
    requires pos < n < buf.Length && buf[pos] != COMMA && |text| == n
    requires forall i :: pos <= i < n ==> buf[i] == text[i] && text[i] != END
    modifies buf
    ensures pos < end <= n && forall i :: end < i < buf.Length ==> buf[i] == old(buf[i])
    ensures Rest(text, pos) == [line] + Rest(text, end + 1)
  {
    end := TokenEnd(buf, pos, n);
    RestTakesToken(text, pos, end);
    assert buf[pos..end] == text[pos..end];
    line := PrintToken(buf, pos, end);
  }

  lemma {:induction false} NoneShown(all: seq<string>, out: seq<string>, text: string, pos: nat)
    requires all == out + Rest(text, pos) && pos < |text| && text[pos] == COMMA
    ensures all == out + Rest(text, pos + 1)
  {}

  lemma {:induction false} AllShown(all: seq<string>, out: seq<string>, text: string, pos: nat)
    requires all == out + Rest(text, pos) && pos >= |text|
    ensures out == all
  {}

  /** One turn of the loop: the token at `pos` is printed, and the next turn starts behind its end. */
  method ShowToken(buf: array<char>, pos: nat, n: nat, out: seq<string>, ghost text: string, ghost all: seq<string>)
    returns (more: seq<string>, next: nat)
    requires pos < n < buf.Length && buf[pos] != COMMA && |text| == n
    requires forall i :: pos <= i < n ==> buf[i] == text[i] && text[i] != END
    requires all == out + Rest(text, pos)
    modifies buf
    ensures pos < next <= n + 1 && forall i :: next <= i < buf.Length ==> buf[i] == old(buf[i])
    ensures all == more + Rest(text, next)
  {
    var line, end := NextToken(buf, pos, n, text);
    Assoc(out, [line], Rest(text, end + 1));
    more, next := out + [line], end + 1;
  }

  /** The strtok loop. */
  method ShowTokens(buf: array<char>, n: nat, ghost text: string) returns (out: seq<string>)
    requires n < buf.Length && |text| == n
    requires forall i :: 0 <= i < n ==> buf[i] == text[i] && text[i] != END
    modifies buf
    ensures out == Rest(text, 0)
  {
    out := [];
    var pos: nat := 0;
    ghost var all := Rest(text, 0);
    assert all == [] + Rest(text, 0);
    while pos < n
      invariant pos <= n + 1
      invariant forall i :: pos <= i < n ==> buf[i] == text[i] && text[i] != END
      invariant all == out + Rest(text, pos)
      decreases n + 1 - pos
    {
      if buf[pos] == COMMA {
        NoneShown(all, out, text, pos);
        pos := pos + 1;
      } else {
        out, pos := ShowToken(buf, pos, n, out, text, all);
      }
    }
    AllShown(all, out, text, pos);
  }

  /** The command-line tool: strtok ends each token in place, the loop cuts off its last characters and prints
      the rest. */
  method ShowList(buf: array<char>, n: nat) returns (out: seq<string>)
    requires n < buf.Length && buf[n] == END && forall i :: 0 <= i < n ==> buf[i] != END
    modifies buf
    ensures out == Shown(old(buf[..n]))
  {
    var text := buf[..n];
    if text <= "[]" {
      return [];
    }
    assert text[0..] == text;
    RestIsTokens(text, 0);
    out := ShowTokens(buf, n, text);
  }

  /** What a comma does: the name "a,b" comes out as an empty line and a bracket. */
  lemma {:induction false} CommaSplits()
    ensures Shown(ListText(["a,b"])) == ["", "]"]
  {
    var x, y := "[\"a", "b\"]";
    ListTextIs(["a,b"]);
    assert ListText(["a,b"]) == x + [COMMA] + y;
    TokensSeparate(x, y);
    OneToken(x);
    OneToken(y);
    assert CleanAll([x] + [y]) == [Clean(x)] + CleanAll([y]) by {
      assert ([x] + [y])[1..] == [y];
    }
    assert CleanAll([y]) == [Clean(y)] + CleanAll([y][1..]);
  }
}
