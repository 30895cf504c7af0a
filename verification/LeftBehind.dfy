/** Datastore sessions that outlive their transfer: when a session ends with its file open, when the
    clean-up then leaves the datastore session behind, and when neither can happen. */
module LeftBehind {
  import opened Base
  import opened Netascii
  import opened Packets
  import opened DatastoreSpec
  import opened SessionSpec
  import opened SessionTable
  import opened Server
  import opened ServerRuns

  predicate Ended(t: Ses) { t.fin || t.disabled }

  /** The session has ended, and its datastore session is still open. */
  predicate Loose(t: Ses, d: Ds) { Ended(t) && t.Key() in d.open }

  /** An open datastore session that belongs to no session */
  ghost predicate Orphan(s: Srv, k: DKey)
  {
    k in s.ds.open && forall c :: c in s.ses ==> s.ses[c].Key() != k
  }

  /** Every open datastore session belongs to a transfer that is going on. */
  ghost predicate AllHeld(s: Srv)
  {
    forall k :: k in s.ds.open ==> Held(s, k)
  }

  ghost predicate Held(s: Srv, k: DKey)
  {
    exists c :: c in s.ses && s.ses[c].Key() == k && !Ended(s.ses[c])
  }

  /** The datagrams that take a session to the label errsend */
  ghost predicate Errs(t: Ses, i: Input)
    requires InputOk(i)
  {
    || (Opcode(i.buf) == OP_ACK && ParseAck(i.buf, i.len).None?)
    || (Opcode(i.buf) == OP_DATA
        && var data := ParseData(i.buf, i.len);
           data.None? || (data.value.blk != t.blknum && data.value.blk != Next(t.blknum)))
  }

  /** The datagrams that a session answers with its next message */
  ghost predicate Takes(t: Ses, i: Input)
    requires InputOk(i)
  {
    || (Opcode(i.buf) == OP_ACK && ParseAck(i.buf, i.len) == Some(t.blknum))
    || (Opcode(i.buf) == OP_DATA
        && var data := ParseData(i.buf, i.len); data.Some? && data.value.blk == Next(t.blknum))
  }

  /** The message makes a session without a datastore session open its file, and leaves it open: a
      download has to load a whole block, and can; an upload fills its buffer with a block that is not
      the last, and can create the file and write the buffer. */
  ghost predicate Opens(t: Ses, d: Ds, env: Env, i: Input)
    requires InputOk(i)
  {
    if t.dir == Get then |Loaded(t)| < 512 <= |Stream(t, d)| && Readable(t, d, env)
    else
      var data := ParseData(i.buf, i.len);
      data.Some? && Fills(t, data.value.payload) && MayWrite(t, d, env) && env.room(t.Path()) >= 8192
  }

  ghost predicate Fills(t: Ses, p: seq<byte>)
  {
    |p| == 512 && |t.buf| + |Unwire(t.mode, p)| >= 8192
  }

  /** A transfer with its file open meets errsend; or a session that was disabled in the middle of
      its transfer, which tftp_proc does not look at, takes one message more and opens its file again. */
  ghost predicate LeavesOpen(t: Ses, d: Ds, env: Env, i: Input)
    requires InputOk(i)
  {
    || (!Ended(t) && t.Key() in d.open && Errs(t, i))
    || (t.disabled && !t.fin && Takes(t, i) && Opens(t, d, env, i))
  }

  /** A session ends with its file open in exactly these two ways. */
  lemma EndsLooseIff(c: Client, i: Input, env: Env, ok: bool, s: Srv, s': Srv)
    requires PacketStep(c, i, env, ok, s, s') && Inv(s) && c in s.ses && !Loose(s.ses[c], s.ds)
    ensures c in s'.ses && (Loose(s'.ses[c], s'.ds) <==> LeavesOpen(s.ses[c], s.ds, env, i))
  {
    var t, post := s.ses[c], Find(s'.ses, c);
    assert SesOk(t, s.ds) && Conforming(Find(s.ses, c), i);
    hide Inv, DsInv, Effect, ReadOnly, AppendOnly, Received, Stream, Loaded, Storable, Readable, MayWrite, Fills;
    KnownHandled(t, s.ds, env, s.msg, i, post, s'.ds, s'.msg, ok);
    if Duplicate(t, i) {
      DuplicateIdempotent(c, i, env, ok, s, s');
    } else {
      LooseHandled(t, s.ds, env, s.msg, i, post.value, s'.ds, s'.msg, ok);
    }
  }

  lemma LooseHandled(t: Ses, d: Ds, env: Env, msg: seq<byte>, i: Input, t': Ses, d': Ds, msg': seq<byte>, ok: bool)
    requires InputOk(i) && Handled(Some(t), d, env, msg, i, Some(t'), d', msg', ok) && Conforming(Some(t), i)
    requires !Duplicate(t, i) && !Loose(t, d) && SesOk(t, d)
    ensures Loose(t', d') <==> LeavesOpen(t, d, env, i)
  {
    hide Accepted, Answered, ParseAck, ParseData, ErrReply, ParseReq, Fills, Readable, MayWrite, Stream, Loaded;
    if Opcode(i.buf) == OP_DATA && ParseData(i.buf, i.len).Some? {
      var data := ParseData(i.buf, i.len).value;
      if data.blk == Next(t.blknum) {
        PayloadFits(i);
        AcceptedOpens(t, d, env, data.blk, data.payload, i.now, t', d', msg');
      }
    } else if Opcode(i.buf) == OP_ACK && ParseAck(i.buf, i.len) == Some(t.blknum) && !t.fin {
      AnsweredOpens(t, d, env, i.now, t', d', msg');
    }
  }

  lemma PayloadFits(i: Input)
    requires InputOk(i) && ParseData(i.buf, i.len).Some?
    ensures |ParseData(i.buf, i.len).value.payload| <= BLOCK_SIZE
  {
  }

  lemma AcceptedOpens(t: Ses, d: Ds, env: Env, blk: u16, p: seq<byte>, now: nat, t': Ses, d': Ds, msg': seq<byte>)
    requires Accepted(t, d, env, blk, p, now, t', d', msg') && |p| <= BLOCK_SIZE && SesOk(t, d) && t.dir == Put
    ensures t'.disabled == t.disabled && t'.Key() == t.Key() && (t.fin ==> t'.fin) && (t'.fin ==> t.Key() !in d'.open)
    ensures t.Key() !in d.open && !t.fin ==>
              (t.Key() in d'.open <==> Fills(t, p) && MayWrite(t, d, env) && env.room(t.Path()) >= SESSION_BUFSIZE)
  {
    hide AppendOnly, Leftover, ErrReply, AckMsg, Unwire, MayWrite, FinalOk;
    UnwireShort(t.mode, p);
    if t.Key() !in d.open && !t.fin && |p| == BLOCK_SIZE {
      assert t.(fin := t.fin || |p| < BLOCK_SIZE) == t;
      OneBuffer(|t.buf| + |Unwire(t.mode, p)|);
    }
  }

  lemma OneBuffer(n: nat)
    requires n < 2 * SESSION_BUFSIZE
    ensures n - n % SESSION_BUFSIZE == if n >= SESSION_BUFSIZE then SESSION_BUFSIZE else 0
  {
  }

  lemma AnsweredOpens(t: Ses, d: Ds, env: Env, now: nat, t': Ses, d': Ds, msg': seq<byte>)
    requires Answered(t, d, env, now, t', d', msg') && !t.fin
    ensures t'.disabled == t.disabled && t'.Key() == t.Key() && (t'.fin ==> t.Key() !in d'.open)
    ensures t.Key() !in d.open ==>
              (t.Key() in d'.open <==> |Loaded(t)| < BLOCK_SIZE <= |Stream(t, d)| && Readable(t, d, env))
  {
    hide ReadOnly, Stream, ErrReply, DataMsg, Loaded, Readable;
  }

  /** A new session does not. */
  lemma StartsHeld(d: Ds, env: Env, msg: seq<byte>, i: Input, post: Option<Ses>, d': Ds, msg': seq<byte>, ok: bool)
    requires InputOk(i) && Handled(None, d, env, msg, i, post, d', msg', ok) && post.Some?
    ensures !Loose(post.value, d')
  {
    hide Answered, ParseReq, ErrReply;
    var op, r := Opcode(i.buf), ParseReq(i.buf, i.len).value;
    if op == OP_RRQ {
      AnsweredOpens(NewSes(op, r, i.sock), d, env, i.now, post.value, d', msg');
    }
  }

  /** One clean-up leaves behind, besides what had been left already, exactly the datastore sessions
      that the sessions it deletes have open. */
  lemma CleanupLeavesIff(now: nat, s: Srv, s': Srv, k: DKey)
    requires CleanupStep(now, s, s') && Inv(s)
    ensures Orphan(s', k) <==>
            || Orphan(s, k)
            || exists c :: c in s.ses && Expired(s.ses[c], now) && s.ses[c].Key() == k && Loose(s.ses[c], s.ds)
  {
    hide DsInv, SesOk;
    if c :| c in s.ses && Expired(s.ses[c], now) && s.ses[c].Key() == k && Loose(s.ses[c], s.ds) {
      forall x | x in s'.ses
        ensures s'.ses[x].Key() != k
      {
        assert s.ses[x].sock == s.ses[c].sock ==> x == c;
      }
    }
    if Orphan(s', k) && !Orphan(s, k) {
      var c :| c in s.ses && s.ses[c].Key() == k;
      assert c !in s'.ses;
      assert Expired(s.ses[c], now) && Loose(s.ses[c], s.ds);
    }
  }

  // ---- runs in which nothing is left behind ----

  ghost predicate Breaks(e: Event, s: Srv)
  {
    e.Packet? && InputOk(e.i) && e.c in s.ses && LeavesOpen(s.ses[e.c], s.ds, e.env, e.i)
  }

  lemma HeldNotLoose(s: Srv, c: Client)
    requires Inv(s) && AllHeld(s) && c in s.ses
    ensures !Loose(s.ses[c], s.ds)
  {
    hide DsInv, SesOk;
    var k := s.ses[c].Key();
    if k in s.ds.open {
      assert Held(s, k);
      var x :| x in s.ses && s.ses[x].Key() == k && !Ended(s.ses[x]);
      assert s.ses[x].sock == s.ses[c].sock;
    }
  }

  /** Unless a datagram ends a session with its file open, everything stays held. */
  lemma HeldStays(e: Event, s: Srv, s': Srv)
    requires Step(e, s, s') && Inv(s) && AllHeld(s) && !Breaks(e, s)
    ensures AllHeld(s')
  {
    hide Inv, DsInv, PacketStep, LeavesOpen, GivesUp;
    forall k | k in s'.ds.open
      ensures Held(s', k)
    {
      if e.Packet? {
        HeldPacket(e, s, s', k);
      } else {
        assert Held(s, k);
        var c :| c in s.ses && s.ses[c].Key() == k && !Ended(s.ses[c]);
        if e.Timer? {
          GivesUpIs(s, c, e.now);
        }
        assert c in s'.ses && s'.ses[c].Key() == k && !Ended(s'.ses[c]);
      }
    }
  }

  lemma GivesUpIs(s: Srv, c: Client, now: nat)
    requires c in s.ses
    ensures TimerCloses(s.ses[c], now) ==> GivesUp(s.ses, now, s.ses[c].Key())
  {
  }

  lemma HeldPacket(e: Event, s: Srv, s': Srv, k: DKey)
    requires e.Packet? && Step(e, s, s') && Inv(s) && AllHeld(s) && !Breaks(e, s) && k in s'.ds.open
    ensures Held(s', k)
  {
    var key := PacketTouchesOne(e.c, e.i, e.env, e.ok, s, s');
    hide Inv, DsInv, Handled, LeavesOpen, Evolves;
    if e.c in s.ses {
      HeldNotLoose(s, e.c);
      EndsLooseIff(e.c, e.i, e.env, e.ok, s, s');
      EvolvesEffect(s.ses[e.c], s.ds, s'.ses[e.c], s'.ds);
    } else if e.c in s'.ses {
      StartsHeld(s.ds, e.env, s.msg, e.i, Find(s'.ses, e.c), s'.ds, s'.msg, e.ok);
    } else {
      NewHandled(s.ds, e.env, s.msg, e.i, Find(s'.ses, e.c), s'.ds, s'.msg, e.ok);
    }
    if e.c in s'.ses && k == key {
      assert !Ended(s'.ses[e.c]);
    } else {
      OnlyTouchesElsewhere(s.ds, s'.ds, key);
      assert Held(s, k);
      var c :| c in s.ses && s.ses[c].Key() == k && !Ended(s.ses[c]);
      assert c != e.c ==> c in s.ses - {e.c} && c in s'.ses - {e.c} && (s'.ses - {e.c})[c] == (s.ses - {e.c})[c];
    }
  }

  /** In a run that starts with nothing left behind, a key is left behind only after a datagram that
      has ended its session with the file open. */
  lemma {:induction false} NothingBreaks(tr: seq<Srv>, ev: seq<Event>)
    requires Run(tr, ev) && Inv(tr[0]) && AllHeld(tr[0])
    requires forall j {:trigger ev[j]} :: 0 <= j < |ev| ==> !Breaks(ev[j], tr[j])
    ensures AllHeld(tr[|ev|]) && forall k :: !Orphan(tr[|ev|], k)
  {
    hide Inv, Step, Breaks;
    var n := |ev|;
    if n > 0 {
      RunInit(tr, ev);
      RunKeepsInv(tr, ev);
      assert forall j :: 0 <= j < n - 1 ==> ev[..n - 1][j] == ev[j];
      assert forall j :: 0 <= j < n ==> tr[..n][j] == tr[j];
      NothingBreaks(tr[..n], ev[..n - 1]);
      HeldStays(ev[n - 1], tr[n - 1], tr[n]);
    }
    assert forall k :: k in tr[n].ds.open ==> Held(tr[n], k);
  }
}
