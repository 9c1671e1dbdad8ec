/** Vocabulary shared by every part of the model: bytes, C strings, segment lists. */
module Base {

  type byte = b: int | 0 <= b < 256

  datatype Option<+T> = None | Some(value: T) {
    function GetOr(default: T): T {
      if Some? then value else default
    }
  }

  const NUL: byte := 0
  const SLASH: byte := 47
  const DOT: byte := 46

  /** The concatenation of a list of segments. */
  function Flatten<T>(segs: seq<seq<T>>): seq<T> {
    if segs == [] then [] else segs[0] + Flatten(segs[1..])
  }

  function Sum(ns: seq<nat>): nat {
    if ns == [] then 0 else ns[0] + Sum(ns[1..])
  }

  /** A text as the bytes of its ASCII codes. */
  function Ascii(s: string): (r: seq<byte>)
    requires forall i :: 0 <= i < |s| ==> s[i] as int < 128
    ensures |r| == |s| && forall i :: 0 <= i < |s| ==> r[i] == s[i] as int
  {
    if s == [] then [] else [s[0] as int] + Ascii(s[1..])
  }

  /** memcpy into the middle of a buffer. */
  function Overwrite<T>(buf: seq<T>, at: nat, seg: seq<T>): (r: seq<T>)
    requires at + |seg| <= |buf|
    ensures |r| == |buf|
  {
    buf[..at] + seg + buf[at + |seg|..]
  }

  lemma {:induction false} OverwriteElements<T>(buf: seq<T>, at: nat, seg: seq<T>)
    requires at + |seg| <= |buf|
    ensures forall i :: 0 <= i < |buf| ==>
              Overwrite(buf, at, seg)[i] == if at <= i < at + |seg| then seg[i - at] else buf[i]
  {}

  /** Segments one after the other; `FlattenAppend` and `FlattenOne` determine the concatenation. */
  lemma {:induction false} FlattenAppend<T>(a: seq<seq<T>>, b: seq<seq<T>>)
    ensures Flatten(a + b) == Flatten(a) + Flatten(b)
    decreases |a|
  {
    if a == [] {
      assert a + b == b && Flatten(a) + Flatten(b) == Flatten(b);
    } else {
      assert (a + b)[1..] == a[1..] + b;
      FlattenAppend(a[1..], b);
      Assoc(a[0], Flatten(a[1..]), Flatten(b));
    }
  }

  lemma {:induction false} FlattenOne<T>(p: seq<T>)
    ensures Flatten([p]) == p
  {
    assert Flatten([p]) == p + Flatten([p][1..]);
  }

  /** The C string held in a buffer: everything before its first zero byte. */
  function CText(buf: seq<byte>): (s: seq<byte>)
    ensures s <= buf && NUL !in s
    ensures |s| < |buf| ==> buf[|s|] == NUL
  {
    if buf == [] || buf[0] == NUL then [] else [buf[0]] + CText(buf[1..])
  }

  /** A zero-free text followed by a terminator is read back whole, whatever follows. */
  lemma {:induction false} CTextOfTerminated(s: seq<byte>, rest: seq<byte>)
    requires NUL !in s
    ensures CText(s + [NUL] + rest) == s
  {
    if s == [] {
      assert (s + [NUL] + rest)[0] == NUL;
    } else {
      assert (s + [NUL] + rest)[1..] == s[1..] + [NUL] + rest;
      CTextOfTerminated(s[1..], rest);
    }
  }

  /** Bytes after the first zero never matter. */
  lemma {:induction false} CTextIgnoresTail(p: seq<byte>, rest: seq<byte>)
    requires NUL in p
    ensures CText(p + rest) == CText(p)
  {
    var t := CText(p);
    assert t != p;
    assert p + rest == t + [NUL] + (p[|t| + 1..] + rest);
    CTextOfTerminated(t, p[|t| + 1..] + rest);
  }

  lemma {:induction false} CTextWhole(s: seq<byte>)
    requires NUL !in s
    ensures CText(s) == s
  {
    if s != [] {
      assert s[0] in s;
      CTextWhole(s[1..]);
    }
  }

  /** Without a terminator the text runs on into whatever follows. */
  lemma {:induction false} CTextRunsOn(p: seq<byte>, q: seq<byte>)
    requires NUL !in p && q != []
    ensures CText(p + q) == p <==> q[0] == NUL
  {
    assert (p + q)[|p|] == q[0];
    if q[0] == NUL {
      assert p + q == p + [NUL] + q[1..];
      CTextOfTerminated(p, q[1..]);
    }
  }

  /** The text of two pieces of memory. */
  lemma {:induction false} CTextAppend(p: seq<byte>, q: seq<byte>)
    ensures CText(p + q) == if NUL in p then CText(p) else p + CText(q)
    decreases |p|
  {
    if p == [] {
      assert p + q == q;
    } else if p[0] != NUL {
      assert (p + q)[1..] == p[1..] + q;
      CTextAppend(p[1..], q);
    }
  }

  lemma {:induction false} Assoc<T>(a: seq<T>, b: seq<T>, c: seq<T>)
    ensures a + b + c == a + (b + c)
  {}

  /** A step repeated. */
  function Iterate<S>(step: S -> S, s: S, n: nat): S {
    if n == 0 then s else step(Iterate(step, s, n - 1))
  }

  lemma {:induction false} IterateAdd<S>(step: S -> S, s: S, m: nat, n: nat)
    ensures Iterate(step, s, m + n) == Iterate(step, Iterate(step, s, m), n)
    decreases n
  {
    if n > 0 {
      IterateAdd(step, s, m, n - 1);
    }
  }
}
