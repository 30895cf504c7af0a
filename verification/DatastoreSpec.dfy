/** What the datastore (src/datastore.c) does, as functions on values: a file system that maps
    paths to contents, and the open datastore sessions, each with its own file offset. */
module DatastoreSpec {
  import opened Base

  type Path = seq<byte>

  /** Key of a datastore session: the request's session id and the file name as requested. */
  type DKey = (int, seq<byte>)

  datatype IoMode = Reading | Writing
  datatype Handle = Handle(mode: IoMode, off: nat)
  datatype Ds = Ds(files: map<Path, seq<byte>>, open: map<DKey, Handle>)
  datatype DsErr = DsOk | NotExist | NotPermit | NoSession | ReadFail

  /** What the operating system allows at the moment: which paths fopen may open, which it can
      read, and how long each file may grow. It may be different at every request. */
  datatype Env = Env(canOpen: Path -> bool, canRead: Path -> bool, room: Path -> nat)

  /** join_path drops the slashes in front of the requested name. */
  function PathOf(name: seq<byte>): Path
  {
    if name != [] && name[0] == SLASH then PathOf(name[1..]) else name
  }

  const SLASH: byte := 47

  /** The first `n` bytes of the name are slashes, and the next one is not. */
  ghost predicate LeadingSlashes(name: seq<byte>, n: nat)
  {
    n <= |name| && (forall i :: 0 <= i < n ==> name[i] == SLASH) && (n < |name| ==> name[n] != SLASH)
  }

  lemma {:induction false} PathFacts(name: seq<byte>, n: nat)
    requires LeadingSlashes(name, n)
    ensures PathOf(name) == name[n..]
  {
    if n > 0 {
      assert forall i :: 0 <= i < n - 1 ==> name[1..][i] == name[i + 1];
      PathFacts(name[1..], n - 1);
    }
  }

  lemma {:induction false} SlashesExist(name: seq<byte>) returns (n: nat)
    ensures LeadingSlashes(name, n)
  {
    n := 0;
    if name != [] && name[0] == SLASH {
      n := SlashesExist(name[1..]);
      n := n + 1;
    }
  }

  /** The path is the name without the slashes in front of it, and otherwise unchanged. */
  lemma PathIs(name: seq<byte>) returns (n: nat)
    ensures LeadingSlashes(name, n) && PathOf(name) == name[n..]
  {
    n := SlashesExist(name);
    PathFacts(name, n);
  }

  /** Two names are of the same file exactly when they agree behind their leading slashes; a name without
      any is its own path. */
  lemma SameFileIff(a: seq<byte>, n: nat, b: seq<byte>, m: nat)
    requires LeadingSlashes(a, n) && LeadingSlashes(b, m)
    ensures PathOf(a) == PathOf(b) <==> a[n..] == b[m..]
    ensures a == [] || a[0] != SLASH ==> PathOf(a) == a
  {
    PathFacts(a, n);
    PathFacts(b, m);
  }

  function Size(d: Ds, p: Path): nat { |Content(d, p)| }

  function Content(d: Ds, p: Path): seq<byte> { if p in d.files then d.files[p] else [] }

  ghost predicate HandleOk(d: Ds, k: DKey)
    requires k in d.open
  {
    var p, h := PathOf(k.1), d.open[k];
    p in d.files && h.off <= |d.files[p]| && (h.mode == Writing ==> h.off == |d.files[p]|)
  }

  /** Every open session is on an existing file, no offset is past the end, a writer stands at
      the end, and no file has two writers. */
  ghost predicate DsInv(d: Ds)
  {
    && (forall k {:trigger HandleOk(d, k)} {:trigger k in d.open} :: k in d.open ==> HandleOk(d, k))
    && (forall k, l {:trigger Writer(d, k), Writer(d, l)} ::
          Writer(d, k) && Writer(d, l) && PathOf(k.1) == PathOf(l.1) ==> k == l)
  }

  predicate Writer(d: Ds, k: DKey) { k in d.open && d.open[k].mode == Writing }

  /** What overwriting `d` into `s` at `off` leaves; fwrite does not know about the end of file. */
  function Splice(s: seq<byte>, off: nat, d: seq<byte>): seq<byte>
  {
    Take(s, off) + d + Drop(s, off + |d|)
  }

  function CloseKey(d: Ds, k: DKey): Ds { d.(open := d.open - {k}) }

  datatype ReadResult = ReadResult(ds: Ds, err: DsErr, data: seq<byte>)

  /** iwds_read: `n` bytes from the session's offset, fewer at the end of the file. */
  function DsRead(d: Ds, env: Env, k: DKey, n: nat): ReadResult
  {
    var p := PathOf(k.1);
    if p !in d.files then ReadResult(d, NotExist, [])
    else if k !in d.open && !env.canOpen(p) then ReadResult(d, NoSession, [])
    else
      var h := if k in d.open then d.open[k] else Handle(Reading, 0);
      if h.mode == Writing || !env.canRead(p) then ReadResult(CloseKey(d, k), ReadFail, [])
      else
        var data := Take(Drop(d.files[p], h.off), n);
        ReadResult(d.(open := d.open[k := h.(off := h.off + |data|)]), DsOk, data)
  }

  datatype WriteResult = WriteResult(ds: Ds, err: DsErr, wlen: nat)

  /** The state in which iwds_write has found or created its session; creating truncates the file. */
  function Opened(d: Ds, k: DKey): Ds
  {
    if k in d.open then d
    else Ds(d.files[PathOf(k.1) := []], d.open[k := Handle(Writing, 0)])
  }

  /** How many of `n` bytes fwrite takes: none on a stream opened for reading. */
  function Writable(env: Env, p: Path, h: Handle, n: nat): (w: nat)
    ensures w <= n
  {
    if h.mode == Reading || env.room(p) < h.off then 0 else Min(n, env.room(p) - h.off)
  }

  /** The file and the offset after writing `w` at the session's offset. */
  function Append(d: Ds, k: DKey, w: seq<byte>): Ds
    requires k in d.open
  {
    var p, h := PathOf(k.1), d.open[k];
    Ds(d.files[p := Splice(Content(d, p), h.off, w)], d.open[k := h.(off := h.off + |w|)])
  }

  /** iwds_write with its session open: an empty request closes the session, any other one is
      written at the session's offset. A short write closes the session and reports no error. */
  function WriteTo(d: Ds, env: Env, k: DKey, data: seq<byte>): WriteResult
    requires k in d.open
  {
    if data == [] then WriteResult(CloseKey(d, k), DsOk, 0)
    else
      var w := Writable(env, PathOf(k.1), d.open[k], |data|);
      var d2 := Append(d, k, data[..w]);
      WriteResult(if w < |data| then CloseKey(d2, k) else d2, DsOk, w)
  }

  /** iwds_write */
  function DsWrite(d: Ds, env: Env, k: DKey, data: seq<byte>): WriteResult
  {
    var p := PathOf(k.1);
    if k !in d.open && p in d.files then WriteResult(d, NotPermit, 0)
    else if k !in d.open && !env.canOpen(p) then WriteResult(d, NoSession, 0)
    else WriteTo(Opened(d, k), env, k, data)
  }

  /** No request touches another key or another path. */
  ghost predicate OnlyTouches(d: Ds, d': Ds, k: DKey)
  {
    && d'.open - {k} == d.open - {k}
    && d'.files - {PathOf(k.1)} == d.files - {PathOf(k.1)}
  }

  lemma OnlyTouchesElsewhere(d: Ds, d': Ds, k: DKey)
    requires OnlyTouches(d, d', k)
    ensures forall l :: l != k ==> (l in d.open <==> l in d'.open) && (l in d.open ==> d'.open[l] == d.open[l])
    ensures forall p :: p != PathOf(k.1) ==> (p in d.files <==> p in d'.files) && Content(d', p) == Content(d, p)
  {
    forall l | l != k
      ensures (l in d.open <==> l in d'.open) && (l in d.open ==> d'.open[l] == d.open[l])
    {
      assert l in d.open <==> l in d.open - {k};
      assert l in d'.open <==> l in d'.open - {k};
      if l in d.open {
        assert (d.open - {k})[l] == (d'.open - {k})[l];
      }
    }
    var q := PathOf(k.1);
    forall p | p != q
      ensures (p in d.files <==> p in d'.files) && Content(d', p) == Content(d, p)
    {
      assert p in d.files <==> p in d.files - {q};
      assert p in d'.files <==> p in d'.files - {q};
      if p in d.files {
        assert (d.files - {q})[p] == (d'.files - {q})[p];
      }
    }
  }

  lemma OnlyTouchesTrans(d: Ds, e: Ds, f: Ds, k: DKey)
    requires OnlyTouches(d, e, k) && OnlyTouches(e, f, k)
    ensures OnlyTouches(d, f, k)
  {
  }

  /** A change at one key keeps the invariant when its own session is sound and, should the file
      change or the session write, no other session writes that file. */
  lemma ChangeKeepsInv(d: Ds, d': Ds, k: DKey)
    requires DsInv(d) && OnlyTouches(d, d', k)
    requires k in d'.open ==> HandleOk(d', k)
    requires PathOf(k.1) in d.files ==> PathOf(k.1) in d'.files && Size(d', PathOf(k.1)) >= Size(d, PathOf(k.1))
    requires Size(d', PathOf(k.1)) != Size(d, PathOf(k.1)) || Writer(d', k) ==>
               forall l :: l != k && Writer(d, l) ==> PathOf(l.1) != PathOf(k.1)
    ensures DsInv(d')
  {
    OnlyTouchesElsewhere(d, d', k);
    forall l | l in d'.open
      ensures HandleOk(d', l)
    {
      if l != k {
        assert HandleOk(d, l);
        assert l in d.open && d'.open[l] == d.open[l];
        assert Writer(d, l) <==> d.open[l].mode == Writing;
        assert Content(d, PathOf(l.1)) == d.files[PathOf(l.1)];
        assert Content(d', PathOf(l.1)) == d'.files[PathOf(l.1)];
      }
    }
    assert forall l :: l != k ==> (Writer(d', l) <==> Writer(d, l));
  }

  lemma CloseFacts(d: Ds, k: DKey)
    requires DsInv(d)
    ensures DsInv(CloseKey(d, k)) && OnlyTouches(d, CloseKey(d, k), k) && k !in CloseKey(d, k).open
  {
    ChangeKeepsInv(d, CloseKey(d, k), k);
  }

  lemma ReadFacts(d: Ds, env: Env, k: DKey, n: nat)
    requires DsInv(d)
    ensures var r := DsRead(d, env, k, n);
            && DsInv(r.ds) && OnlyTouches(d, r.ds, k) && r.ds.files == d.files
            && (Writer(r.ds, k) ==> Writer(d, k))
            && (r.err == DsOk <==>
                  && PathOf(k.1) in d.files && env.canRead(PathOf(k.1))
                  && if k in d.open then !Writer(d, k) else env.canOpen(PathOf(k.1)))
            && (r.err == DsOk <==> k in r.ds.open)
  {
    var r := DsRead(d, env, k, n);
    if k in d.open {
      assert HandleOk(d, k);
    }
    ChangeKeepsInv(d, r.ds, k);
  }

  /** A read delivers the bytes at the session's offset, as many as were asked for or all that are left, and
      moves the offset behind them. */
  lemma ReadDelivers(d: Ds, env: Env, k: DKey, n: nat)
    requires DsInv(d) && DsRead(d, env, k, n).err == DsOk
    ensures var r, file := DsRead(d, env, k, n), d.files[PathOf(k.1)];
            var from := if k in d.open then d.open[k].off else 0;
            var to := r.ds.open[k].off;
            && k in r.ds.open && from <= to <= |file| && r.data == file[from..to]
            && (to == from + n || (to < from + n && to == |file|))
  {
    assert k in d.open ==> HandleOk(d, k);
  }

  /** Only the writer of a path, or a request for a path that does not exist, changes anything. */
  lemma NoOtherWriter(d: Ds, k: DKey)
    requires DsInv(d)
    requires PathOf(k.1) in d.files ==> Writer(d, k)
    ensures forall l :: l != k && Writer(d, l) ==> PathOf(l.1) != PathOf(k.1)
  {
  }

  /** A write request appends to the file its session created; a file that exists without this
      session is never touched; and the facts about open sessions are kept. */
  lemma WriteFacts(d: Ds, env: Env, k: DKey, data: seq<byte>)
    requires DsInv(d)
    ensures var r, p := DsWrite(d, env, k, data), PathOf(k.1);
            && DsInv(r.ds) && OnlyTouches(d, r.ds, k)
            && r.wlen <= |data|
            && Content(r.ds, p) == Content(d, p) + data[..r.wlen]
            && (p in d.files && !Writer(d, k) ==> r.ds.files == d.files)
            && (p !in r.ds.files ==> r.ds == d)
            && (env.canOpen(p) ==> p in r.ds.files)
  {
    var r, p := DsWrite(d, env, k, data), PathOf(k.1);
    if k in d.open || (p !in d.files && env.canOpen(p)) {
      OpenedFacts(d, k);
      WriteToFacts(Opened(d, k), env, k, data);
      OnlyTouchesTrans(d, Opened(d, k), r.ds, k);
    }
  }

  /** After a write the session is open exactly when something was asked to be written, and all of it was. */
  lemma WriteCloses(d: Ds, env: Env, k: DKey, data: seq<byte>)
    requires DsInv(d)
    ensures var r := DsWrite(d, env, k, data);
            k in r.ds.open <==> r.err == DsOk && data != [] && r.wlen == |data|
  {
  }

  lemma WriteToFacts(d: Ds, env: Env, k: DKey, data: seq<byte>)
    requires DsInv(d) && k in d.open
    ensures var r, p := WriteTo(d, env, k, data), PathOf(k.1);
            && DsInv(r.ds) && OnlyTouches(d, r.ds, k)
            && r.wlen <= |data| && p in r.ds.files
            && Content(r.ds, p) == Content(d, p) + data[..r.wlen]
            && (!Writer(d, k) ==> r.ds.files == d.files)
  {
    assert HandleOk(d, k);
    if data == [] {
      CloseFacts(d, k);
      assert data[..0] == [];
    } else {
      var w := Writable(env, PathOf(k.1), d.open[k], |data|);
      AppendFacts(d, k, data[..w]);
      CloseFacts(Append(d, k, data[..w]), k);
      OnlyTouchesTrans(d, Append(d, k, data[..w]), CloseKey(Append(d, k, data[..w]), k), k);
    }
  }

  lemma AppendFacts(d: Ds, k: DKey, w: seq<byte>)
    requires DsInv(d) && k in d.open && (d.open[k].mode == Reading ==> w == [])
    ensures var d2 := Append(d, k, w);
            && DsInv(d2) && OnlyTouches(d, d2, k)
            && Content(d2, PathOf(k.1)) == Content(d, PathOf(k.1)) + w
            && (w == [] ==> d2.files == d.files)
  {
    assert HandleOk(d, k);
    if Writer(d, k) {
      NoOtherWriter(d, k);
    }
    SpliceAtEnd(Content(d, PathOf(k.1)), d.open[k].off, w);
    ChangeKeepsInv(d, Append(d, k, w), k);
  }

  lemma SpliceAtEnd(s: seq<byte>, off: nat, d: seq<byte>)
    requires off <= |s|
    requires off == |s| || d == []
    ensures Splice(s, off, d) == s + d && (d == [] ==> s + d == s)
  {
  }

  lemma OpenedFacts(d: Ds, k: DKey)
    requires DsInv(d)
    requires k in d.open || PathOf(k.1) !in d.files
    ensures var d1 := Opened(d, k);
            && DsInv(d1) && OnlyTouches(d, d1, k) && k in d1.open
            && Content(d1, PathOf(k.1)) == Content(d, PathOf(k.1))
  {
    var d1 := Opened(d, k);
    if k !in d.open {
      NoOtherWriter(d, k);
      ChangeKeepsInv(d, d1, k);
    }
  }
}
