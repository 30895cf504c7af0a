/** An upload over channels that lose nothing, to a file that does not exist, can be created and has room:
    it is acknowledged block by block, and to the end exactly when its last block fits. */
module UploadCompletes {
  import opened Base
  import opened Netascii
  import opened Blocks
  import opened Packets
  import opened DatastoreSpec
  import opened SessionSpec
  import opened Server
  import opened Channels
  import opened PutProtocol
  import Replies

  /** The client asks; then, in turn, the server takes a packet and the client takes one. */
  ghost predicate Rounds(g: Put, tr: seq<Sys>, acts: seq<Act>, n: nat)
  {
    && Run(g, tr, acts) && |acts| == 1 + 2 * n && acts[0] == SendAgain && g.Path() !in tr[0].srv.ds.files
    && (forall j {:trigger acts[1 + 2 * j]} :: 0 <= j < n ==> Able(g, acts[1 + 2 * j]))
    && (forall j {:trigger acts[2 + 2 * j]} :: 0 <= j < n ==> acts[2 + 2 * j] == ClientTakes(false))
  }

  ghost predicate Able(g: Put, a: Act)
  {
    a.ServerTakes? && !a.keep && a.env.canOpen(g.Path()) && a.env.room(g.Path()) >= |g.Plain()|
  }

  /** After `n` rounds: the server has answered the messages 0 to n-1, and message n is on its way. */
  ghost predicate After(g: Put, s: Sys, n: nat)
  {
    && g.Ok() && n <= BlockCount(g.wire) && s.count == n && !s.failed && !s.done && s.toC == []
    && s.toS == [Message(g, n)] && DsInv(s.srv.ds)
    && if n == 0 then g.me !in s.srv.ses && g.Path() !in s.srv.ds.files
       else g.me in s.srv.ses && Going(g, s.srv.ses[g.me], s.srv.ds, n)
  }

  ghost predicate Going(g: Put, t: Ses, d: Ds, n: nat)
  {
    && t.dir == SessionSpec.Put && t.mode == g.req.mode && t.name == g.req.name && !t.disabled
    && Storing(g, t, d, n) && ServerRuns.SesOk(t, d) && (t.Key() in d.open || g.Path() !in d.files)
  }

  /** The request is acknowledged with number 0. */
  lemma RequestTaken(g: Put, a: Act, s: ServerRuns.Srv, s': ServerRuns.Srv)
    requires g.Ok() && Able(g, a) && ServerRuns.PacketStep(g.me, a.i, a.env, a.ok, s, s')
    requires a.i.buf[..a.i.len] == Message(g, 0) && g.me !in s.ses && g.Path() !in s.ds.files && DsInv(s.ds)
    ensures g.me in s'.ses && Going(g, s'.ses[g.me], s'.ds, 1) && s'.msg == AckMsg(0) && a.ok
  {
    hide ParseReq, Opcode, DsInv, AckMsg, Became, Storing;
    ClientMessage(g, a.i, 0);
    hide Message;
    NewGoing(g, s.ds, a.i);
  }

  lemma NewGoing(g: Put, d: Ds, i: Input)
    requires g.Path() !in d.files && DsInv(d)
    ensures Going(g, NewSes(OP_WRQ, g.req, i.sock).(lastmsg := AckMsg(0), lastsending := i.now), d, 1)
  {
    var t := NewSes(OP_WRQ, g.req, i.sock).(lastmsg := AckMsg(0), lastsending := i.now);
    FirstSession(g, d, i, false);
    OpenExists(t, d);
  }

  /** A block before the last: it is stored or buffered, and acknowledged. */
  lemma BlockTaken(g: Put, t: Ses, d: Ds, env: Env, now: nat, t': Ses, d': Ds, msg': Msg, n: nat)
    requires Going(g, t, d, n) && n < BlockCount(g.wire) && DsInv(d)
    requires Accepted(t, d, env, Wrap(n), Block(g.wire, n), now, t', d', msg')
    requires env.canOpen(g.Path()) && env.room(g.Path()) >= |g.Plain()|
    ensures msg' == AckMsg(Wrap(n)) && Going(g, t', d', n + 1)
  {
    hide Accepted, Storing, Owned, Received, Unwire, Block, Blocks.Sent, AckMsg, ServerRuns.SesOk, DsInv, Put.Plain;
    StoringOpen(g, t, d, n);
    LastShort(g, n);
    BufferRoom(t, d);
    FullBlockIff(t, d, env, Wrap(n), Block(g.wire, n), now, t', d', msg');
    Enough(g, t, d, n);
    BlockAcked(g, t, d, env, now, t', d', msg', n);
    ServerRuns.AcceptedFacts(t, d, env, Wrap(n), Block(g.wire, n), now, t', d', msg');
    StaysMine(t, d, env, Wrap(n), Block(g.wire, n), now, t', d', msg');
  }

  lemma BufferRoom(t: Ses, d: Ds)
    requires ServerRuns.SesOk(t, d) && t.dir == SessionSpec.Put && !t.fin
    ensures |t.buf| < SESSION_BUFSIZE
  {
  }

  lemma Enough(g: Put, t: Ses, d: Ds, n: nat)
    requires Storing(g, t, d, n) && t.mode == g.req.mode
    ensures |Owned(t, d)| + |t.buf| + |Unwire(t.mode, Block(g.wire, n))| <= |g.Plain()|
  {
    hide Owned, Unwire, Block, Blocks.Sent, Put.Plain;
    BufferedLength(g, t, d, n);
    SentBlock(g, n);
    PutSpec.ReceivedLength(t, d, Block(g.wire, n));
  }

  /** Who has acknowledged a block that is not the last has its file open, or there is none. */
  lemma StaysMine(t: Ses, d: Ds, env: Env, blk: u16, p: seq<byte>, now: nat, t': Ses, d': Ds, msg': Msg)
    requires Accepted(t, d, env, blk, p, now, t', d', msg') && msg' == AckMsg(blk) && !t.fin && |p| == BLOCK_SIZE
    requires t.Key() in d.open || t.Path() !in d.files
    ensures t.Key() in d'.open || t.Path() !in d'.files
  {
    hide Received, OnlyTouches, Storable, AckMsg, ErrReply;
  }

  /** The server's half of a round */
  lemma ServerHalf(g: Put, s: Sys, a: Act, s': Sys, n: nat)
    requires After(g, s, n) && n < BlockCount(g.wire) && Able(g, a) && Step(g, a, s, s')
    ensures g.me in s'.srv.ses && Going(g, s'.srv.ses[g.me], s'.srv.ds, n + 1) && DsInv(s'.srv.ds)
    ensures s' == s.(srv := s'.srv, toS := [], toC := [AckMsg(Wrap(n))])
  {
    hide Going, ServerRuns.PacketStep, Message, AckMsg, DsInv, Put.Plain;
    assert [s.toS[0]][1..] == [] && s.toC + [AckMsg(Wrap(n))] == [AckMsg(Wrap(n))];
    StepSound(g, a, s.srv, s'.srv);
    if n == 0 {
      RequestTaken(g, a, s.srv, s'.srv);
    } else {
      DataTaken(g, a, s.srv, s'.srv, n);
    }
    GoingFacts(g, s'.srv.ses[g.me], s'.srv.ds, n + 1);
  }

  lemma StepSound(g: Put, a: Act, s: ServerRuns.Srv, s': ServerRuns.Srv)
    requires a.ServerTakes? && ServerRuns.PacketStep(g.me, a.i, a.env, a.ok, s, s')
    ensures DsInv(s'.ds)
  {
  }

  lemma DataTaken(g: Put, a: Act, s: ServerRuns.Srv, s': ServerRuns.Srv, n: nat)
    requires g.Ok() && Able(g, a) && ServerRuns.PacketStep(g.me, a.i, a.env, a.ok, s, s') && 0 < n < BlockCount(g.wire)
    requires a.i.buf[..a.i.len] == Message(g, n) && DsInv(s.ds)
    requires g.me in s.ses && Going(g, s.ses[g.me], s.ds, n)
    ensures g.me in s'.ses && Going(g, s'.ses[g.me], s'.ds, n + 1) && s'.msg == AckMsg(Wrap(n)) && a.ok
  {
    hide Handled, Accepted, Going, DsInv, AckMsg, Became, Conforming, Message, ReadsAs, Put.Plain, Block;
    var t, post := s.ses[g.me], Find(s'.ses, g.me);
    ClientMessage(g, a.i, n);
    GoingFacts(g, t, s.ds, n);
    NextAccepted(g, t, s.ds, a.env, s.msg, a.i, post, s'.ds, s'.msg, a.ok, n);
    BlockTaken(g, t, s.ds, a.env, a.i.now, post.value, s'.ds, s'.msg, n);
  }

  lemma GoingFacts(g: Put, t: Ses, d: Ds, n: nat)
    requires Going(g, t, d, n)
    ensures !t.disabled && n > 0 && t.blknum == Wrap(n - 1)
  {
  }

  /** The client's half */
  lemma ClientHalf(g: Put, s: Sys, s': Sys, n: nat)
    requires n < BlockCount(g.wire) && Step(g, ClientTakes(false), s, s') && g.Ok()
    requires s.count == n && !s.failed && !s.done && s.toS == [] && s.toC == [AckMsg(Wrap(n))] && DsInv(s.srv.ds)
    requires g.me in s.srv.ses && Going(g, s.srv.ses[g.me], s.srv.ds, n + 1)
    ensures After(g, s', n + 1)
  {
    hide ClientAck, Going, Message, AckMsg, DsInv;
    AckParsed(Wrap(n));
    assert s.toC[1..] == [] && s.toS + [Message(g, n + 1)] == [Message(g, n + 1)];
  }

  lemma Asked(g: Put, s: Sys, s': Sys)
    requires Init(g, s) && Step(g, SendAgain, s, s') && g.Path() !in s.srv.ds.files
    ensures After(g, s', 0)
  {
    ServerRuns.InvDs(s.srv);
    hide Message, ServerRuns.Inv, DsInv;
    assert s.toS + [Message(g, 0)] == [Message(g, 0)];
    BlockCountPositive(g.wire);
  }

  lemma {:induction false} RoundsKeep(g: Put, tr: seq<Sys>, acts: seq<Act>, n: nat)
    requires Rounds(g, tr, acts, n) && n <= BlockCount(g.wire)
    ensures After(g, tr[|acts|], n)
  {
    hide Step, After, Able, BlockCount, Init;
    if n == 0 {
      assert Step(g, acts[0], tr[0], tr[1]);
      Asked(g, tr[0], tr[1]);
    } else {
      var m := n - 1;
      RoundsInit(g, tr, acts, n);
      RoundsKeep(g, tr[..2 + 2 * m], acts[..1 + 2 * m], m);
      var s, a := tr[1 + 2 * m], acts[1 + 2 * m];
      assert Step(g, a, s, tr[2 + 2 * m]) && Step(g, acts[2 + 2 * m], tr[2 + 2 * m], tr[3 + 2 * m]);
      OneRound(g, s, a, tr[2 + 2 * m], tr[3 + 2 * m], m);
    }
  }

  lemma RoundsInit(g: Put, tr: seq<Sys>, acts: seq<Act>, n: nat)
    requires Rounds(g, tr, acts, n) && n > 0
    ensures var m := n - 1;
            Rounds(g, tr[..2 + 2 * m], acts[..1 + 2 * m], m) && tr[..2 + 2 * m][1 + 2 * m] == tr[1 + 2 * m]
    ensures Able(g, acts[2 * n - 1]) && acts[2 * n] == ClientTakes(false)
  {
    hide Step, Able, Init;
    var m := n - 1;
    var ts, bs := tr[..2 + 2 * m], acts[..1 + 2 * m];
    forall j | 0 <= j < |bs|
      ensures Step(g, bs[j], ts[j], ts[j + 1])
    {
      var x := acts[j];
    }
    forall j | 0 <= j < m
      ensures Able(g, bs[1 + 2 * j]) && bs[2 + 2 * j] == ClientTakes(false)
    {
      assert bs[1 + 2 * j] == acts[1 + 2 * j] && bs[2 + 2 * j] == acts[2 + 2 * j];
    }
    assert Able(g, acts[1 + 2 * m]) && acts[2 + 2 * m] == ClientTakes(false);
  }

  lemma OneRound(g: Put, s: Sys, a: Act, s1: Sys, s2: Sys, n: nat)
    requires After(g, s, n) && n < BlockCount(g.wire) && Able(g, a)
    requires Step(g, a, s, s1) && Step(g, ClientTakes(false), s1, s2)
    ensures After(g, s2, n + 1)
  {
    hide Step, Going, Message, AckMsg;
    ServerHalf(g, s, a, s1, n);
    ClientHalf(g, s1, s2, n);
  }

  /** The last round */
  lemma LastRound(g: Put, s: Sys, a: Act, s1: Sys, s2: Sys)
    requires After(g, s, BlockCount(g.wire)) && Able(g, a)
    requires Step(g, a, s, s1) && Step(g, ClientTakes(false), s1, s2)
    ensures if LastBlockFits(g.req.mode, g.wire) then s2.done && !s2.failed else s2.failed && !s2.done
    ensures s2.srv == s1.srv
    ensures LastBlockFits(g.req.mode, g.wire) && g.Plain() != [] ==>
              g.Path() in s2.srv.ds.files && s2.srv.ds.files[g.Path()] == g.Plain()
  {
    hide LastBlockFits, Going, ServerRuns.PacketStep, Message, AckMsg, ErrReply, DsInv, Put.Plain, ClientAck;
    var n := BlockCount(g.wire);
    LastAnswered(g, a, s.srv, s1.srv);
    AckParsed(Wrap(n));
    ErrReplyNoAck(ERR_ACCESSDENY, []);
    Replies.ServerErrorIs();
    assert s.toC + [LastReply(g)] == [LastReply(g)];
  }

  lemma LastAnswered(g: Put, a: Act, s: ServerRuns.Srv, s': ServerRuns.Srv)
    requires var n := BlockCount(g.wire);
             g.Ok() && a.ServerTakes? && InputOk(a.i) && a.i.buf[..a.i.len] == Message(g, n) && DsInv(s.ds)
             && g.me in s.ses && Going(g, s.ses[g.me], s.ds, n)
    requires Able(g, a) && ServerRuns.PacketStep(g.me, a.i, a.env, a.ok, s, s')
    ensures SessionSpec.Sent(Find(s'.ses, g.me), s'.msg, a.ok) == Some(LastReply(g))
    ensures LastBlockFits(g.req.mode, g.wire) && g.Plain() != [] ==>
              g.Path() in s'.ds.files && s'.ds.files[g.Path()] == g.Plain()
  {
    hide Handled, Accepted, DsInv, AckMsg, ErrReply, Became, Conforming, Message, ReadsAs, Put.Plain, Block, Storing;
    hide LastBlockFits, ServerRuns.SesOk, BlockCount, SessionSpec.Sent;
    var n, t, post := BlockCount(g.wire), s.ses[g.me], Find(s'.ses, g.me);
    ClientMessage(g, a.i, n);
    LastReplied(g, t, s.ds, a.env, s.msg, a.i, post, s'.ds, s'.msg, a.ok);
    StoringOpen(g, t, s.ds, n);
    NextAccepted(g, t, s.ds, a.env, s.msg, a.i, post, s'.ds, s'.msg, a.ok, n);
    LastBlockDecided(g, t, s.ds, a.env, a.i.now, post.value, s'.ds, s'.msg);
    if LastBlockFits(g.req.mode, g.wire) {
      BlockAcked(g, t, s.ds, a.env, a.i.now, post.value, s'.ds, s'.msg, n);
    }
  }

  /** Whatever bytes and mode: after n rounds n messages have been acknowledged, up to the last block; and
      one round later the upload is complete, or its last block has been refused, exactly as its own bytes
      say. */
  lemma Completes(g: Put, tr: seq<Sys>, acts: seq<Act>, n: nat)
    requires Rounds(g, tr, acts, n)
    ensures var s, last, file := tr[|acts|], |g.wire| / 512 + 1, Unwire(g.req.mode, g.wire);
            && (n <= last ==> s.count == n && !s.done && !s.failed)
            && (n == last + 1 ==>
                  if LastBlockFits(g.req.mode, g.wire) then
                    s.done && (file != [] ==> g.Path() in s.srv.ds.files && s.srv.ds.files[g.Path()] == file)
                  else s.failed && !s.done)
  {
    hide Step, After, Able, Init, LastBlockFits, BlockCount;
    var last := BlockCount(g.wire);
    LastNumber(g);
    if n <= last {
      RoundsKeep(g, tr, acts, n);
      AfterFacts(g, tr[|acts|], n);
    } else if n == last + 1 {
      RoundsInit(g, tr, acts, n);
      RoundsKeep(g, tr[..2 + 2 * last], acts[..1 + 2 * last], last);
      var s, a := tr[1 + 2 * last], acts[1 + 2 * last];
      assert Step(g, a, s, tr[2 + 2 * last]) && Step(g, acts[2 + 2 * last], tr[2 + 2 * last], tr[3 + 2 * last]);
      LastRound(g, s, a, tr[2 + 2 * last], tr[3 + 2 * last]);
    }
  }

  lemma LastNumber(g: Put)
    ensures BlockCount(g.wire) == |g.wire| / BLOCK_SIZE + 1
  {
  }

  lemma AfterFacts(g: Put, s: Sys, n: nat)
    requires After(g, s, n)
    ensures s.count == n && !s.done && !s.failed
  {
  }
}
