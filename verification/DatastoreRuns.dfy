/** Any interleaving of datastore requests of any sessions: what each session reads or writes is one
    piece of its file, without gap, overlap or repetition, until it is closed. */
module DatastoreRuns {
  import opened Base
  import opened DatastoreSpec

  datatype Op = ReadOp(k: DKey, n: nat, env: Env) | WriteOp(k: DKey, data: seq<byte>, env: Env) | CloseOp(k: DKey)

  function Apply(d: Ds, op: Op): Ds
  {
    match op
    case ReadOp(k, n, env) => DsRead(d, env, k, n).ds
    case WriteOp(k, data, env) => DsWrite(d, env, k, data).ds
    case CloseOp(k) => CloseKey(d, k)
  }

  function ApplyAll(d: Ds, ops: seq<Op>): Ds
  {
    if ops == [] then d else Apply(ApplyAll(d, ops[..|ops| - 1]), ops[|ops| - 1])
  }

  /** The bytes that one request hands to the session `k`, or takes from it */
  function Moved(d: Ds, op: Op, k: DKey): seq<byte>
  {
    if op.k != k then []
    else
      match op
      case ReadOp(_, n, env) => DsRead(d, env, k, n).data
      case WriteOp(_, data, env) => data[..Min(DsWrite(d, env, k, data).wlen, |data|)]
      case CloseOp(_) => []
  }

  /** All that the session `k` has read or written since it was opened */
  function MovedSince(d: Ds, ops: seq<Op>, k: DKey): seq<byte>
  {
    if ops == [] then []
    else
      var n := |ops| - 1;
      if k in ApplyAll(d, ops).open then
        MovedSince(d, ops[..n], k) + Moved(ApplyAll(d, ops[..n]), ops[n], k)
      else []
  }

  lemma {:induction false} KeepsInv(d: Ds, ops: seq<Op>)
    requires DsInv(d)
    ensures DsInv(ApplyAll(d, ops))
  {
    if ops != [] {
      var n := |ops| - 1;
      KeepsInv(d, ops[..n]);
      OpFacts(ApplyAll(d, ops[..n]), ops[n]);
    }
  }

  /** One request: the invariant, nothing elsewhere, and its own file only growing at the end */
  lemma OpFacts(d: Ds, op: Op)
    requires DsInv(d)
    ensures var e := Apply(d, op);
            && DsInv(e) && OnlyTouches(d, e, op.k) && Content(d, PathOf(op.k.1)) <= Content(e, PathOf(op.k.1))
            && (PathOf(op.k.1) in d.files && !Writer(d, op.k) ==> e.files == d.files)
  {
    hide DsRead, DsWrite;
    match op
    case ReadOp(k, n, env) => ReadFacts(d, env, k, n);
    case WriteOp(k, data, env) => WriteFacts(d, env, k, data);
    case CloseOp(k) => CloseFacts(d, k);
  }

  /** What the session has moved so far is its file up to its position. */
  ghost predicate AtPosition(d: Ds, k: DKey, moved: seq<byte>)
  {
    k in d.open ==> moved == Take(Content(d, PathOf(k.1)), d.open[k].off)
  }

  lemma OwnRequest(d: Ds, op: Op, moved: seq<byte>)
    requires DsInv(d) && AtPosition(d, op.k, moved) && (op.k !in d.open ==> moved == [])
    ensures AtPosition(Apply(d, op), op.k, moved + Moved(d, op, op.k))
  {
    OpFacts(d, op);
    var k, e := op.k, Apply(d, op);
    assert k in d.open ==> HandleOk(d, k);
    if k in e.open {
      assert HandleOk(e, k);
      match op
      case ReadOp(_, n, env) =>
        var off := if k in d.open then d.open[k].off else 0;
        ReadOn(d.files[PathOf(k.1)], off, n);
      case WriteOp(_, data, env) =>
        WriteFacts(d, env, k, data);
        StillWriting(d, env, k, data);
      case CloseOp(_) =>
    }
  }

  lemma ReadOn(c: seq<byte>, off: nat, n: nat)
    requires off <= |c|
    ensures var t := Take(Drop(c, off), n); Take(c, off) + t == Take(c, off + |t|)
  {
  }

  /** A session that is still open after a write writes at the end of a file that it created. */
  lemma StillWriting(d: Ds, env: Env, k: DKey, data: seq<byte>)
    requires DsInv(d) && k in DsWrite(d, env, k, data).ds.open
    ensures Writer(DsWrite(d, env, k, data).ds, k)
    ensures if k in d.open then Writer(d, k) else PathOf(k.1) !in d.files
  {
  }

  /** Whatever requests of whatever sessions come in whatever order, and whichever of them fail: the
      bytes that one session has read, or written, since it was opened are its file up to its
      position; a writer has written all of its file. */
  lemma {:induction false} ConsecutiveSlices(d: Ds, ops: seq<Op>, k: DKey)
    requires DsInv(d) && k !in d.open
    ensures var e := ApplyAll(d, ops);
            k in e.open ==>
              && MovedSince(d, ops, k) == Take(Content(e, PathOf(k.1)), e.open[k].off)
              && (Writer(e, k) ==> MovedSince(d, ops, k) == Content(e, PathOf(k.1)))
  {
    hide Apply, Moved, OnlyTouches;
    var n := |ops| - 1;
    KeepsInv(d, ops);
    assert k in ApplyAll(d, ops).open ==> HandleOk(ApplyAll(d, ops), k);
    if n >= 0 && k in ApplyAll(d, ops).open {
      ConsecutiveSlices(d, ops[..n], k);
      KeepsInv(d, ops[..n]);
      var c, e, moved := ApplyAll(d, ops[..n]), ApplyAll(d, ops), MovedSince(d, ops[..n], k);
      ClosedNothing(d, ops[..n], k);
      OpFacts(c, ops[n]);
      if ops[n].k == k {
        OwnRequest(c, ops[n], moved);
      } else {
        OnlyTouchesElsewhere(c, e, ops[n].k);
        assert HandleOk(c, k);
        OtherRequest(c, ops[n], k);
        assert moved + [] == moved;
      }
    }
  }

  lemma ClosedNothing(d: Ds, ops: seq<Op>, k: DKey)
    ensures k !in ApplyAll(d, ops).open ==> MovedSince(d, ops, k) == []
  {
  }

  /** A request of another session moves nothing of this one, and leaves what it has passed. */
  lemma OtherRequest(d: Ds, op: Op, k: DKey)
    requires DsInv(d) && op.k != k && k in d.open
    ensures Moved(d, op, k) == []
    ensures Content(d, PathOf(k.1)) <= Content(Apply(d, op), PathOf(k.1))
    ensures Take(Content(Apply(d, op), PathOf(k.1)), d.open[k].off) == Take(Content(d, PathOf(k.1)), d.open[k].off)
  {
    OpFacts(d, op);
    OnlyTouchesElsewhere(d, Apply(d, op), op.k);
    assert HandleOk(d, k);
    PrefixTake(Content(d, PathOf(k.1)), Content(Apply(d, op), PathOf(k.1)), d.open[k].off);
  }

  lemma PrefixTake(a: seq<byte>, b: seq<byte>, n: nat)
    requires a <= b && n <= |a|
    ensures Take(a, n) == Take(b, n)
  {
  }
}
