/** How put_session_data moves a payload through the session buffer into the file, on values. */
module PutSpec {
  import opened Base
  import opened Netascii
  import opened DatastoreSpec
  import opened SessionSpec

  /** Where put_session_data stands when it has consumed `c` since it was called in state `s0`,
      `d0`: what is stored and buffered is what has been received; or an empty flush has closed
      the complete file. */
  ghost predicate Putting(s0: Ses, d0: Ds, c: seq<byte>, s: Ses, d: Ds, closed: bool)
  {
    && s.dir == Put && s == s0.(buf := s.buf) && BufOk(s) && AppendOnly(s0, d0, d) && DsInv(d)
    && (s0.fin && s.Path() !in d.files ==> c == [] && s == s0)
    && if closed then
         && s.fin && s.mode == NetasciiMode && s.buf == []
         && s.Key() !in d.open && s.Path() in d.files && Content(d, s.Path()) == Received(s0, d0, c)
         && (s.Key() in d0.open || s.Path() !in d0.files)
       else
         && Owned(s, d) + s.buf == Received(s0, d0, c)
         && (s.Key() !in d.open ==> d == d0) && (!s0.fin ==> WholeBuffers(s0, d0, s, d))
  }

  lemma ReceivedConcat(s: Ses, d: Ds, a: seq<byte>, b: seq<byte>)
    ensures Received(s, d, a + b) == Received(s, d, a) + Unwire(s.mode, b)
    ensures Received(s, d, a) <= Received(s, d, a + b)
  {
    UnwireConcat(s.mode, a, b);
    Assoc(Owned(s, d) + s.buf, Unwire(s.mode, a), Unwire(s.mode, b));
  }

  lemma PuttingStarted(s: Ses, d: Ds)
    requires s.dir == Put && BufOk(s) && DsInv(d) && (s.Key() in d.open ==> Writer(d, s.Key()))
    ensures Putting(s, d, [], s, d, false)
  {
  }

  /** A copied piece that needs no flush */
  lemma Copied(s0: Ses, d0: Ds, c: seq<byte>, s: Ses, d: Ds, q: seq<byte>)
    requires Putting(s0, d0, c, s, d, false) && !s0.fin && |s.buf + Unwire(s.mode, q)| <= SESSION_BUFSIZE
    ensures Putting(s0, d0, c + q, s.(buf := s.buf + Unwire(s.mode, q)), d, false)
  {
    ReceivedConcat(s0, d0, c, q);
    Assoc(Owned(s, d), s.buf, Unwire(s.mode, q));
  }

  /** The request that save_data makes, and whether it takes that for a success */
  ghost predicate Saved(s: Ses, d: Ds, env: Env)
  {
    var r := DsWrite(d, env, s.Key(), s.buf);
    r.err == DsOk && r.wlen == |s.buf|
  }

  /** The state after copying the piece `q`, before the flush */
  ghost predicate Copying(s0: Ses, d0: Ds, c: seq<byte>, s: Ses, d: Ds, closed: bool, q: seq<byte>, s1: Ses)
  {
    && Putting(s0, d0, c, s, d, closed)
    && s1 == s.(buf := s.buf + Unwire(s.mode, q)) && BufOk(s1)
    && (s1.buf == [] ==> s.fin && s.mode == NetasciiMode)
  }

  /** A complete write: the file was the session's own or did not exist, and has grown by the data. */
  lemma SavedFacts(d: Ds, env: Env, k: DKey, data: seq<byte>)
    requires DsInv(d) && (k in d.open ==> Writer(d, k))
    requires DsWrite(d, env, k, data).err == DsOk && DsWrite(d, env, k, data).wlen == |data|
    ensures var e, p := DsWrite(d, env, k, data).ds, PathOf(k.1);
            && DsInv(e) && OnlyTouches(d, e, k)
            && (k in d.open || p !in d.files)
            && p in e.files && Content(e, p) == Content(d, p) + data
            && (if data == [] then k !in e.open else Writer(e, k))
  {
    WriteFacts(d, env, k, data);
    assert data[..|data|] == data;
  }

  lemma AppendOnlyTrans(s: Ses, d0: Ds, d: Ds, e: Ds)
    requires AppendOnly(s, d0, d) && OnlyTouches(d, e, s.Key())
    requires s.Key() in d.open || d == d0
    requires s.Key() in d.open || s.Path() !in d.files || e == d
    requires Content(d, s.Path()) <= Content(e, s.Path())
    requires s.Path() in d.files ==> s.Path() in e.files
    requires s.Key() in e.open ==> Writer(e, s.Key())
    ensures AppendOnly(s, d0, e)
  {
  }

  lemma Flushed(s0: Ses, d0: Ds, c: seq<byte>, s: Ses, d: Ds, closed: bool, q: seq<byte>, s1: Ses, env: Env)
    requires Copying(s0, d0, c, s, d, closed, q, s1) && Saved(s1, d, env)
    requires !s0.fin ==> |s1.buf| == SESSION_BUFSIZE
    ensures !closed
    ensures Putting(s0, d0, c + q, s1.(buf := []), DsWrite(d, env, s1.Key(), s1.buf).ds, s1.buf == [])
  {
    hide DsWrite, Received, Unwire, OnlyTouches;
    var e, k, p := DsWrite(d, env, s1.Key(), s1.buf).ds, s.Key(), s.Path();
    SavedFacts(d, env, k, s1.buf);
    AppendOnlyTrans(s0, d0, d, e);
    ReceivedAfter(s0, d0, c, s, d, q);
    assert Owned(s, d) == Content(d, p);
    assert Content(e, p) == Received(s0, d0, c + q);
    assert Content(e, p) + [] == Content(e, p);
  }

  lemma ReceivedAfter(s0: Ses, d0: Ds, c: seq<byte>, s: Ses, d: Ds, q: seq<byte>)
    requires s.mode == s0.mode && Owned(s, d) + s.buf == Received(s0, d0, c)
    ensures Owned(s, d) + (s.buf + Unwire(s.mode, q)) == Received(s0, d0, c + q)
  {
    ReceivedConcat(s0, d0, c, q);
    Assoc(Owned(s, d), s.buf, Unwire(s.mode, q));
  }

  lemma ReceivedPrefix(s: Ses, d: Ds, c: seq<byte>, p: seq<byte>)
    requires c <= p
    ensures Received(s, d, c) <= Received(s, d, p)
  {
    assert p == c + p[|c|..];
    ReceivedConcat(s, d, c, p[|c|..]);
  }

  /** A failed flush leaves a prefix of what has been received, and closes the session. */
  lemma NotFlushed(s0: Ses, d0: Ds, c: seq<byte>, s: Ses, d: Ds, closed: bool, q: seq<byte>, s1: Ses,
                   env: Env, p: seq<byte>)
    requires Copying(s0, d0, c, s, d, closed, q, s1) && !Saved(s1, d, env) && c + q <= p
    ensures var e := CloseKey(DsWrite(d, env, s1.Key(), s1.buf).ds, s1.Key());
            RefusedFile(s0, d0, env, p, s1, e) && DsInv(e) && (s.Path() in d.files ==> s.Path() in e.files)
  {
    hide Received, Unwire, OnlyTouches, WriteTo;
    var k, path, r := s.Key(), s.Path(), DsWrite(d, env, s1.Key(), s1.buf);
    var e := CloseKey(r.ds, k);
    WriteFacts(d, env, k, s1.buf);
    CloseFacts(r.ds, k);
    OnlyTouchesTrans(d, r.ds, e, k);
    ReceivedPrefix(s0, d0, c + q, p);
    if closed || (k !in d.open && path in d.files) {
      assert s1.buf[..0] == [];
      assert e == d;
      ReceivedPrefix(s0, d0, c, p);
    } else {
      ReceivedAfter(s0, d0, c, s, d, q);
      AppendOnlyTrans(s0, d0, d, e);
      assert Content(d, path) + s1.buf[..r.wlen] <= Content(d, path) + s1.buf;
      assert path !in d.files ==> Content(d, path) == [];
    }
  }

  /** What a flush has needed */
  ghost predicate Paid(s0: Ses, d0: Ds, env: Env, d: Ds)
  {
    var n := |Content(d, s0.Path())|;
    MayWrite(s0, d0, env) && (n == |Owned(s0, d0)| || env.room(s0.Path()) >= n)
  }

  lemma SavedIff(s: Ses, d: Ds, env: Env)
    requires DsInv(d) && (s.Key() in d.open ==> Writer(d, s.Key()))
    ensures Saved(s, d, env) <==>
              MayWrite(s, d, env) && (s.buf != [] ==> env.room(s.Path()) >= |Owned(s, d)| + |s.buf|)
  {
    if s.Key() in d.open {
      assert HandleOk(d, s.Key());
    }
  }

  lemma PaidFlush(s0: Ses, d0: Ds, env: Env, c: seq<byte>, s: Ses, d: Ds, s1: Ses)
    requires Putting(s0, d0, c, s, d, false) && (d == d0 || Paid(s0, d0, env, d))
    requires s1 == s.(buf := s1.buf) && Saved(s1, d, env)
    ensures Paid(s0, d0, env, DsWrite(d, env, s1.Key(), s1.buf).ds)
  {
    hide DsWrite, Received, OnlyTouches, Saved, DsInv;
    SavedIff(s1, d, env);
    SavedContent(s1, d, env);
  }

  lemma SavedContent(s: Ses, d: Ds, env: Env)
    requires DsInv(d) && (s.Key() in d.open ==> Writer(d, s.Key())) && Saved(s, d, env)
    ensures Content(DsWrite(d, env, s.Key(), s.buf).ds, s.Path()) == Content(d, s.Path()) + s.buf
    ensures Content(d, s.Path()) == Owned(s, d)
  {
    hide DsWrite, DsInv;
    SavedFacts(d, env, s.Key(), s.buf);
  }

  lemma ReceivedLength(s: Ses, d: Ds, p: seq<byte>)
    ensures |Received(s, d, p)| == |Owned(s, d)| + |s.buf| + |Unwire(s.mode, p)|
  {
  }

  /** `n` whole buffers of `size` fit into `total`, and so does what is written in the end. */
  lemma WholeFits(owned0: nat, owned: nat, n: nat)
    requires owned % SESSION_BUFSIZE == owned0 % SESSION_BUFSIZE && owned0 <= owned <= owned0 + n
    ensures owned <= owned0 + n - n % SESSION_BUFSIZE
    ensures owned + SESSION_BUFSIZE > owned0 + n ==> owned == owned0 + n - n % SESSION_BUFSIZE
  {
    var k := (owned - owned0) / SESSION_BUFSIZE;
    assert owned - owned0 == SESSION_BUFSIZE * k;
  }

  /** The end of a payload that has been stored */
  lemma StoredPaid(s0: Ses, d0: Ds, env: Env, p: seq<byte>, s: Ses, d: Ds, closed: bool)
    requires Putting(s0, d0, p, s, d, closed) && Paid(s0, d0, env, d)
    requires if s0.fin then s.buf == [] && FinalOk(s0.mode, s0.buf, p) && (closed || s.Key() in d.open)
             else |s.buf| < SESSION_BUFSIZE
    ensures Storable(s0, d0, env, p)
  {
    hide OnlyTouches, Unwire, FinalOk, DsInv, MayWrite;
    ReceivedLength(s0, d0, p);
    if s0.fin {
      assert Content(d, s.Path()) == Received(s0, d0, p);
    } else {
      WholeFits(|Owned(s0, d0)|, |Owned(s, d)|, |s0.buf| + |Unwire(s0.mode, p)|);
    }
  }

  lemma NothingWritten(s0: Ses, d0: Ds, env: Env, p: seq<byte>, s: Ses)
    requires Putting(s0, d0, p, s, d0, false) && !s0.fin && |s.buf| < SESSION_BUFSIZE
    ensures Storable(s0, d0, env, p)
  {
    hide OnlyTouches, Unwire, DsInv, MayWrite;
    ReceivedLength(s0, d0, p);
    assert |Owned(s0, d0) + s.buf| == |Owned(s0, d0)| + |s.buf|;
  }

  /** A flush that fails before the file has been closed: the payload could not be stored. */
  lemma FailedUnpaid(s0: Ses, d0: Ds, env: Env, p: seq<byte>, c: seq<byte>, s: Ses, d: Ds, q: seq<byte>, s1: Ses)
    requires Copying(s0, d0, c, s, d, false, q, s1) && !Saved(s1, d, env) && c + q <= p
    requires d == d0 || Paid(s0, d0, env, d)
    requires (s0.buf != [] || p != []) && (s0.fin || |s1.buf| == SESSION_BUFSIZE)
    ensures !Storable(s0, d0, env, p)
  {
    hide OnlyTouches, Unwire, FinalOk, DsInv, Saved, DsWrite;
    ReceivedPrefix(s0, d0, c + q, p);
    ReceivedAfter(s0, d0, c, s, d, q);
    ReceivedLength(s0, d0, p);
    SavedIff(s1, d, env);
    if !s0.fin {
      WholeFits(|Owned(s0, d0)|, |Owned(s, d)| + SESSION_BUFSIZE, |s0.buf| + |Unwire(s0.mode, p)|);
    }
  }

  lemma FlushesOkStep(buf: seq<byte>, p: seq<byte>)
    requires |buf| <= SESSION_BUFSIZE
    ensures var room := SESSION_BUFSIZE - |buf|;
            var n, c := SegLen(room, p), SegUsed(room, p);
            FlushesOk(buf, p) <==> c == |p| || (buf + p[..n] != [] && FlushesOk([], p[c..]))
  {
    hide SegLen, SegUsed;
  }

  /** Whether the flushes of the last payload `p` succeed depends on what is left of it, `q`. */
  ghost predicate Undecided(s0: Ses, p: seq<byte>, s: Ses, q: seq<byte>, closed: bool)
  {
    s0.fin ==> (FinalOk(s0.mode, s0.buf, p) <==> !closed && FinalOk(s0.mode, s.buf, q))
  }

  /** After one copying step: the last one succeeds; any other one closes the file when it flushes
      nothing. `buf` is what the step leaves to be flushed. */
  lemma UndecidedStep(s0: Ses, p: seq<byte>, s: Ses, q: seq<byte>, closed: bool, buf: seq<byte>)
    requires Undecided(s0, p, s, q, closed) && s.mode == s0.mode && |s.buf| <= SESSION_BUFSIZE && s0.fin
    requires buf == s.buf + (if s.mode == OctetMode then q[..StepUsed(s, q)] else q[..SegLen(SESSION_BUFSIZE - |s.buf|, q)])
    requires s.mode == OctetMode ==> q != [] || s.buf != []
    ensures var c := StepUsed(s, q);
            && c <= |q|
            && (buf == [] ==> s.mode == NetasciiMode)
            && (c == |q| ==> (FinalOk(s0.mode, s0.buf, p) <==> !closed))
            && (c < |q| && !closed ==> Undecided(s0, p, s.(buf := []), q[c..], buf == []))
            && (closed ==> !FinalOk(s0.mode, s0.buf, p))
  {
    hide SegLen, SegUsed, FlushesOk;
    FlushesOkStep(s.buf, q);
  }

  /** One copying step from `s` to `s1` on the rest `q` of the payload `p` */
  ghost predicate Stepped(s0: Ses, d0: Ds, env: Env, p: seq<byte>, c: seq<byte>, s: Ses, d: Ds, closed: bool,
                          q: seq<byte>, s1: Ses)
  {
    && (d == d0 || Paid(s0, d0, env, d)) && Putting(s0, d0, c, s, d, closed) && p == c + q && Undecided(s0, p, s, q, closed)
    && (q != [] || s.buf != []) && (p != [] || s0.buf != []) && BufOk(s1)
    && s1 == s.(buf := s.buf + Unwire(s.mode, q[..StepUsed(s, q)]))
    && (s.mode == NetasciiMode ==> s1.buf == s.buf + q[..SegLen(SESSION_BUFSIZE - |s.buf|, q)])
  }

  lemma RoundDue(s0: Ses, d0: Ds, env: Env, p: seq<byte>, c: seq<byte>, s: Ses, d: Ds, closed: bool, q: seq<byte>,
                 s1: Ses)
    requires Stepped(s0, d0, env, p, c, s, d, closed, q, s1)
    requires s0.fin || |s1.buf| == SESSION_BUFSIZE
    ensures var u := q[..StepUsed(s, q)];
            Copying(s0, d0, c, s, d, closed, u, s1) && c + u <= p
  {
  }

  lemma RoundFlushed(s0: Ses, d0: Ds, env: Env, p: seq<byte>, c: seq<byte>, s: Ses, d: Ds, closed: bool,
                     q: seq<byte>, s1: Ses)
    requires Stepped(s0, d0, env, p, c, s, d, closed, q, s1)
    requires (s0.fin || |s1.buf| == SESSION_BUFSIZE) && Saved(s1, d, env)
    ensures var e, s2, l, closed' := DsWrite(d, env, s1.Key(), s1.buf).ds, s1.(buf := []), StepUsed(s, q), s1.buf == [];
            && Putting(s0, d0, c + q[..l], s2, e, closed')
            && (l < |q| ==> Undecided(s0, p, s2, q[l..], closed'))
            && Paid(s0, d0, env, e) && (s0.fin ==> closed' || s2.Key() in e.open)
            && (l == |q| ==> Storable(s0, d0, env, p))
  {
    hide SegLen, SegUsed, FlushesOk, Received, OnlyTouches, DsWrite, Storable, Paid;
    RoundDue(s0, d0, env, p, c, s, d, closed, q, s1);
    Flushed(s0, d0, c, s, d, closed, q[..StepUsed(s, q)], s1, env);
    SavedFacts(d, env, s1.Key(), s1.buf);
    PaidFlush(s0, d0, env, c, s, d, s1);
    if s0.fin {
      UndecidedStep(s0, p, s, q, closed, s1.buf);
    }
    if StepUsed(s, q) == |q| {
      assert q[..|q|] == q;
      StoredPaid(s0, d0, env, p, s1.(buf := []), DsWrite(d, env, s1.Key(), s1.buf).ds, s1.buf == []);
    }
  }

  /** While there is no file, nothing has been flushed, so the buffer holds everything. */
  lemma RoundLeaves(s0: Ses, d0: Ds, env: Env, p: seq<byte>, c: seq<byte>, s: Ses, d: Ds, closed: bool,
                    q: seq<byte>, s1: Ses, e: Ds)
    requires Stepped(s0, d0, env, p, c, s, d, closed, q, s1) && (s.Path() in d.files ==> s.Path() in e.files)
    requires s0.fin || |s1.buf| == SESSION_BUFSIZE
    ensures Leftover(s0, p, s1, e)
  {
    hide SegLen, SegUsed, FlushesOk, OnlyTouches, Unwire, StepUsed;
    StepUsedFits(s, q);
    var u := q[..StepUsed(s, q)];
    UnwireNothing(s.mode);
    if s.Path() !in e.files {
      if s.Key() in d.open {
        assert HandleOk(d, s.Key());
      }
      var n := |c| + |u|;
      assert p[..n] == c + u;
      UnwireConcat(s.mode, c, u);
      assert Owned(s, d) == [] == Owned(s0, d0) && [] + s.buf == s.buf && [] + s0.buf == s0.buf;
      assert s.buf == s0.buf + Unwire(s.mode, c);
      Assoc(s0.buf, Unwire(s.mode, c), Unwire(s.mode, u));
      if s0.fin {
        assert c + q == q && s == s0;
      }
      if n == 0 && p != [] {
        assert c + q == q;
        ZeroStep(s, q);
      }
    }
  }

  lemma UnwireNothing(m: Mode)
    ensures Unwire(m, []) == []
  {
  }

  lemma StepUsedFits(s: Ses, q: seq<byte>)
    requires |s.buf| <= SESSION_BUFSIZE
    ensures StepUsed(s, q) <= |q|
  {
  }

  lemma RoundFailed(s0: Ses, d0: Ds, env: Env, p: seq<byte>, c: seq<byte>, s: Ses, d: Ds, closed: bool,
                    q: seq<byte>, s1: Ses)
    requires Stepped(s0, d0, env, p, c, s, d, closed, q, s1)
    requires (s0.fin || |s1.buf| == SESSION_BUFSIZE) && !Saved(s1, d, env)
    ensures var e := CloseKey(DsWrite(d, env, s1.Key(), s1.buf).ds, s1.Key());
            Refused(s0, d0, env, p, s1, e) && DsInv(e) && !Storable(s0, d0, env, p)
  {
    hide SegLen, SegUsed, FlushesOk, Received, OnlyTouches, DsWrite;
    var u := q[..StepUsed(s, q)];
    RoundDue(s0, d0, env, p, c, s, d, closed, q, s1);
    NotFlushed(s0, d0, c, s, d, closed, u, s1, env, p);
    RoundLeaves(s0, d0, env, p, c, s, d, closed, q, s1, CloseKey(DsWrite(d, env, s1.Key(), s1.buf).ds, s1.Key()));
    if closed {
      UndecidedStep(s0, p, s, q, closed, s1.buf);
    } else {
      FailedUnpaid(s0, d0, env, p, c, s, d, u, s1);
    }
  }

  lemma RoundCopied(s0: Ses, d0: Ds, env: Env, p: seq<byte>, c: seq<byte>, s: Ses, d: Ds, closed: bool,
                    q: seq<byte>, s1: Ses)
    requires Stepped(s0, d0, env, p, c, s, d, closed, q, s1) && !s0.fin && |s1.buf| < SESSION_BUFSIZE
    ensures !closed && Putting(s0, d0, c + q[..StepUsed(s, q)], s1, d, false)
    ensures Undecided(s0, p, s1, q[StepUsed(s, q)..], false)
    ensures StepUsed(s, q) == |q| ==> Storable(s0, d0, env, p)
  {
    hide SegLen, SegUsed, FlushesOk, Received, OnlyTouches, Storable, Paid;
    Copied(s0, d0, c, s, d, q[..StepUsed(s, q)]);
    if StepUsed(s, q) == |q| {
      assert q[..|q|] == q;
      if d == d0 {
        NothingWritten(s0, d0, env, p, s1);
      } else {
        StoredPaid(s0, d0, env, p, s1, d, false);
      }
    }
  }

  /** A step that consumes nothing of a non-empty payload found the buffer full. */
  lemma ZeroStep(s: Ses, q: seq<byte>)
    requires |s.buf| <= SESSION_BUFSIZE && q != [] && StepUsed(s, q) == 0
    ensures |s.buf| == SESSION_BUFSIZE
  {
    hide FlushesOk;
  }

  // ---- when the last payload is refused ----

  /** The segment copied by netascii_to_local ends at the first CR, at the end, or where the room does. */
  lemma {:induction false} SegLenFacts(room: nat, p: seq<byte>)
    ensures var n := SegLen(room, p);
            CR !in p[..n] && (n < room && n < |p| ==> p[n] == CR)
  {
    if room > 0 && p != [] && p[0] != CR {
      SegLenFacts(room - 1, p[1..]);
      var n := SegLen(room - 1, p[1..]);
      assert p[..n + 1] == [p[0]] + p[1..][..n];
    }
  }

  /** A CR, not the last byte, with nothing to flush before it: another CR stands in front of it, or
      the buffer was empty when the bytes of the payload up to it had been copied. `held` bytes had been
      received before, and all but the last of the buffers that they fill have been written. */
  predicate EmptyFlush(held: nat, p: seq<byte>, i: nat)
    requires i < |p|
  {
    && i + 1 < |p| && p[i] == CR
    && ((i > 0 && p[i - 1] == CR) || (CR !in p[..i] && (held + i) % SESSION_BUFSIZE == 0))
  }

  /** The last payload of a netascii upload is stored exactly when it asks for no empty flush before
      its end. */
  lemma {:induction false} FlushesOkIff(buf: seq<byte>, p: seq<byte>)
    requires |buf| < SESSION_BUFSIZE && |p| <= BLOCK_SIZE
    ensures FlushesOk(buf, p) <==> forall i :: 0 <= i < |p| ==> !EmptyFlush(|buf|, p, i)
    decreases |p|
  {
    hide SegLen, SegUsed, EmptyFlush;
    var room := SESSION_BUFSIZE - |buf|;
    var n, c := SegLen(room, p), SegUsed(room, p);
    FirstSegment(|buf|, p, n, c);
    if c < |p| {
      FlushesOkIff([], p[c..]);
      assert forall i :: c <= i < |p| ==> EmptyFlush(|buf|, p, i) == EmptyFlush(0, p[c..], i - c);
      assert buf + p[..n] == [] <==> |buf| == 0 && n == 0;
    }
  }

  /** An empty flush at the end of the first segment or in a later one */
  lemma FirstSegment(held: nat, p: seq<byte>, n: nat, c: nat)
    requires held < SESSION_BUFSIZE && |p| <= BLOCK_SIZE
    requires n == SegLen(SESSION_BUFSIZE - held, p) && c == SegUsed(SESSION_BUFSIZE - held, p)
    ensures n <= c <= |p| && c <= n + 1 && (c == 0 ==> p == [])
    ensures forall i :: 0 <= i < n ==> !EmptyFlush(held, p, i)
    ensures n < c ==> (EmptyFlush(held, p, n) <==> c < |p| && held == 0 && n == 0)
    ensures n == c < |p| ==> held + n > 0
    ensures forall i :: 0 <= i < |p| - c ==> (EmptyFlush(0, p[c..], i) <==> EmptyFlush(held, p, c + i))
  {
    SegLenFacts(SESSION_BUFSIZE - held, p);
    assert forall i :: 0 <= i < n ==> p[i] == p[..n][i] != CR;
    forall i | 0 <= i < |p| - c
      ensures EmptyFlush(0, p[c..], i) <==> EmptyFlush(held, p, c + i)
    {
      Shifted(held, p, n, c, i);
    }
  }

  lemma Shifted(held: nat, p: seq<byte>, n: nat, c: nat, i: nat)
    requires held < SESSION_BUFSIZE && |p| <= BLOCK_SIZE && n <= c && c + i < |p|
    requires CR !in p[..n] && ((c == n + 1 && p[n] == CR) || (c == n && held + n == SESSION_BUFSIZE))
    ensures EmptyFlush(0, p[c..], i) <==> EmptyFlush(held, p, c + i)
  {
  }

  lemma EmptyFlushModulo(held: nat, more: nat, p: seq<byte>, i: nat)
    requires i < |p| && held % SESSION_BUFSIZE == more % SESSION_BUFSIZE
    ensures EmptyFlush(held, p, i) <==> EmptyFlush(more, p, i)
  {
  }

  /** The shortest refused upload is an empty line: CR LF with nothing in the buffer. */
  lemma EmptyLineRefused()
    ensures !FinalOk(NetasciiMode, [], [CR, LF]) && FinalOk(NetasciiMode, [LF], [CR, LF]) && FinalOk(OctetMode, [], [CR, LF])
  {
  }
}
