/** A download over channels that lose nothing, of a file that can be read: it is completed, in as many
    rounds as it has blocks. */
module DownloadCompletes {
  import opened Base
  import opened Netascii
  import opened Blocks
  import opened Packets
  import opened DatastoreSpec
  import opened SessionSpec
  import opened Server
  import opened Channels
  import opened GetProtocol
  import Replies

  /** The client asks; then, in turn, the server takes a packet and the client takes one. */
  ghost predicate Rounds(g: Get, tr: seq<Sys>, acts: seq<Act>, n: nat)
  {
    && Run(g, tr, acts) && |acts| == 1 + 2 * n && acts[0] == Ask
    && (forall j {:trigger acts[1 + 2 * j]} :: 0 <= j < n ==> acts[1 + 2 * j].ServerTakes? && Able(g, acts[1 + 2 * j]))
    && (forall j {:trigger acts[2 + 2 * j]} :: 0 <= j < n ==> acts[2 + 2 * j] == ClientTakes(false))
    && (n > 0 ==> acts[1].ServerTakes? && (acts[1].i.sock, g.req.name) !in tr[1].srv.ds.open)
  }

  ghost predicate Able(g: Get, a: Act)
  {
    a.ServerTakes? && !a.keep && a.env.canOpen(g.Path()) && a.env.canRead(g.Path())
  }

  /** After `n` rounds: the server has built n blocks, the client has taken them, and its next message
      is on its way. */
  ghost predicate After(g: Get, s: Sys, n: nat)
  {
    var e := g.Wired();
    && n <= BlockCount(e) && s.count == n && s.got == Blocks.Sent(e, n) && !s.failed
    && (s.done <==> n == BlockCount(e)) && s.toC == []
    && s.toS == [if n == 0 then ReqMsg(OP_RRQ, g.req) else AckMsg(Wrap(n))]
    && g.Path() in s.srv.ds.files && s.srv.ds.files[g.Path()] == g.file
    && if n == 0 then g.me !in s.srv.ses else g.me in s.srv.ses && Built(g, s.srv.ses[g.me], s.srv.ds, n)
  }

  ghost predicate Built(g: Get, t: Ses, d: Ds, n: nat)
  {
    && t.dir == SessionSpec.Get && t.mode == g.req.mode && t.name == g.req.name && !t.disabled
    && t.blknum == Wrap(n) && (t.fin <==> n == BlockCount(g.Wired()))
    && (!t.fin ==> BLOCK_SIZE * n <= |g.Wired()| && Stream(t, d) == g.Wired()[BLOCK_SIZE * n..] && !Writer(d, t.Key()))
  }

  /** One block: an answer to message n is block n+1. */
  lemma Builds(g: Get, t: Ses, d: Ds, env: Env, now: nat, t': Ses, d': Ds, msg': Msg, n: nat)
    requires Answered(t, d, env, now, t', d', msg') && n < BlockCount(g.Wired())
    requires t.dir == SessionSpec.Get && t.mode == g.req.mode && t.name == g.req.name && !t.disabled && !t.fin
    requires t.blknum == Wrap(n) && Stream(t, d) == g.Wired()[BLOCK_SIZE * n..] && Readable(t, d, env)
    requires !Writer(d, t.Key())
    ensures msg' == DataMsg(Wrap(n + 1), Block(g.Wired(), n + 1)) && Built(g, t', d', n + 1) && d'.files == d.files
  {
    BuildBlock(g.Wired(), t, d, env, now, t', d', msg', n);
    hide Stream, DataMsg, Block, Loads, Loaded, ErrReply, Get.Wired, Wrap;
    ReadsOnly(t, d, env, now, t', d', msg');
  }

  lemma ReadsOnly(t: Ses, d: Ds, env: Env, now: nat, t': Ses, d': Ds, msg': Msg)
    requires Answered(t, d, env, now, t', d', msg')
    ensures d'.files == d.files && t'.Key() == t.Key() && (Writer(d', t.Key()) ==> Writer(d, t.Key()))
    ensures t'.dir == t.dir && t'.mode == t.mode && t'.name == t.name && t'.disabled == t.disabled
  {
    hide Stream, DataMsg, Loads, ErrReply, OnlyTouches;
  }

  /** The server's half of a round */
  lemma ServerHalf(g: Get, s: Sys, a: Act, s': Sys, n: nat)
    requires After(g, s, n) && n < BlockCount(g.Wired()) && Able(g, a) && Step(g, a, s, s') && g.Ok()
    requires n == 0 ==> (a.i.sock, g.req.name) !in s.srv.ds.open
    ensures g.me in s'.srv.ses && Built(g, s'.srv.ses[g.me], s'.srv.ds, n + 1)
    ensures s' == s.(srv := s'.srv, toS := [], toC := [DataMsg(Wrap(n + 1), Block(g.Wired(), n + 1))])
    ensures s'.srv.ds.files == s.srv.ds.files
  {
    hide Built, DataMsg, Block, ServerRuns.PacketStep, ReqMsg, AckMsg, Get.Wired;
    var m := DataMsg(Wrap(n + 1), Block(g.Wired(), n + 1));
    assert [s.toS[0]][1..] == [] && s.toC + [m] == [m];
    ServerBuilds(g, a, s.srv, s'.srv, n);
  }

  lemma ServerBuilds(g: Get, a: Act, s: ServerRuns.Srv, s': ServerRuns.Srv, n: nat)
    requires g.Ok() && Able(g, a) && ServerRuns.PacketStep(g.me, a.i, a.env, a.ok, s, s') && n < BlockCount(g.Wired())
    requires a.i.buf[..a.i.len] == if n == 0 then ReqMsg(OP_RRQ, g.req) else AckMsg(Wrap(n))
    requires g.Path() in s.ds.files && s.ds.files[g.Path()] == g.file
    requires if n == 0 then g.me !in s.ses && (a.i.sock, g.req.name) !in s.ds.open
             else g.me in s.ses && Built(g, s.ses[g.me], s.ds, n)
    ensures g.me in s'.ses && Built(g, s'.ses[g.me], s'.ds, n + 1) && s'.ds.files == s.ds.files
    ensures s'.msg == DataMsg(Wrap(n + 1), Block(g.Wired(), n + 1)) && a.ok && !s'.ses[g.me].disabled
  {
    hide Built, Answered, Handled, DataMsg, Block, Readable, DsInv, ReqMsg, AckMsg, Get.Wired, Conforming, Became;
    var post := Find(s'.ses, g.me);
    if n == 0 {
      RequestAnswered(g, s.ds, a.env, s.msg, a.i, post, s'.ds, s'.msg, a.ok);
      FirstBuilt(g, s.ds, a.env, a.i, post.value, s'.ds, s'.msg);
    } else {
      var t := s.ses[g.me];
      BuiltFacts(g, t, s.ds, n);
      AckAnswered(t, s.ds, a.env, s.msg, a.i, post, s'.ds, s'.msg, a.ok);
      NextBuilt(g, t, s.ds, a.env, a.i.now, post.value, s'.ds, s'.msg, n);
    }
    BuiltFacts(g, post.value, s'.ds, n + 1);
  }

  lemma RequestAnswered(g: Get, d: Ds, env: Env, msg: Msg, i: Input, post: Option<Ses>, d': Ds, msg': Msg, ok: bool)
    requires g.Ok() && InputOk(i) && i.buf[..i.len] == ReqMsg(OP_RRQ, g.req) && g.Path() in d.files
    requires Handled(None, d, env, msg, i, post, d', msg', ok)
    ensures ok && post.Some? && Answered(NewSes(OP_RRQ, g.req, i.sock), d, env, i.now, post.value, d', msg')
  {
    hide Answered, ParseReq, Opcode, ReqMsg;
    RequestRead(g, i);
  }

  lemma AckAnswered(t: Ses, d: Ds, env: Env, msg: Msg, i: Input, post: Option<Ses>, d': Ds, msg': Msg, ok: bool)
    requires InputOk(i) && i.buf[..i.len] == AckMsg(t.blknum) && !t.fin
    requires Handled(Some(t), d, env, msg, i, post, d', msg', ok)
    ensures ok && post.Some? && Answered(t, d, env, i.now, post.value, d', msg')
  {
    hide Answered, ParseAck, Opcode, AckMsg;
    AckRead(i, t.blknum);
  }

  lemma BuiltFacts(g: Get, t: Ses, d: Ds, n: nat)
    requires Built(g, t, d, n)
    ensures !t.disabled && t.blknum == Wrap(n) && (t.fin <==> n == BlockCount(g.Wired()))
  {
  }

  lemma FirstBuilt(g: Get, d: Ds, env: Env, i: Input, t': Ses, d': Ds, msg': Msg)
    requires g.Path() in d.files && d.files[g.Path()] == g.file && (i.sock, g.req.name) !in d.open
    requires env.canOpen(g.Path()) && env.canRead(g.Path())
    requires Answered(NewSes(OP_RRQ, g.req, i.sock), d, env, i.now, t', d', msg')
    ensures msg' == DataMsg(Wrap(1), Block(g.Wired(), 1)) && Built(g, t', d', 1) && d'.files == d.files
  {
    hide Answered, Built, Stream, DataMsg, Block;
    BlockCountPositive(g.Wired());
    NewStream(g, d, i.sock);
    Builds(g, NewSes(OP_RRQ, g.req, i.sock), d, env, i.now, t', d', msg', 0);
  }

  lemma NextBuilt(g: Get, t: Ses, d: Ds, env: Env, now: nat, t': Ses, d': Ds, msg': Msg, n: nat)
    requires Built(g, t, d, n) && n < BlockCount(g.Wired()) && Answered(t, d, env, now, t', d', msg')
    requires g.Path() in d.files && env.canOpen(g.Path()) && env.canRead(g.Path())
    ensures msg' == DataMsg(Wrap(n + 1), Block(g.Wired(), n + 1)) && Built(g, t', d', n + 1) && d'.files == d.files
  {
    hide Answered, Stream, DataMsg, Block;
    Builds(g, t, d, env, now, t', d', msg', n);
  }

  /** The client's half */
  lemma ClientHalf(g: Get, s: Sys, s': Sys, n: nat)
    requires n < BlockCount(g.Wired()) && Step(g, ClientTakes(false), s, s')
    requires s.count == n && s.got == Blocks.Sent(g.Wired(), n) && !s.failed && !s.done && s.toS == []
    requires s.toC == [DataMsg(Wrap(n + 1), Block(g.Wired(), n + 1))]
    requires g.me in s.srv.ses && Built(g, s.srv.ses[g.me], s.srv.ds, n + 1)
    requires g.Path() in s.srv.ds.files && s.srv.ds.files[g.Path()] == g.file
    ensures After(g, s', n + 1)
  {
    hide ClientData, Built, DataMsg, AckMsg, Get.Wired;
    var b := Block(g.Wired(), n + 1);
    BlockFacts(g.Wired(), n + 1);
    DataParsed(Wrap(n + 1), b);
    hide Block, Blocks.Sent;
    assert s.toC[1..] == [] && s.toS + [AckMsg(Wrap(n + 1))] == [AckMsg(Wrap(n + 1))];
  }

  lemma Asked(g: Get, s: Sys, s': Sys)
    requires Init(g, s) && Step(g, Ask, s, s')
    ensures After(g, s', 0)
  {
    hide ReqMsg, ServerRuns.Inv;
    assert s.toS + [ReqMsg(OP_RRQ, g.req)] == [ReqMsg(OP_RRQ, g.req)];
    BlockCountPositive(g.Wired());
  }

  lemma {:induction false} RoundsKeep(g: Get, tr: seq<Sys>, acts: seq<Act>, n: nat)
    requires Rounds(g, tr, acts, n) && n <= BlockCount(g.Wired())
    ensures After(g, tr[|acts|], n)
  {
    hide Step, After, Built, Able, Get.Wired, BlockCount, Init;
    if n == 0 {
      assert Step(g, acts[0], tr[0], tr[1]);
      Asked(g, tr[0], tr[1]);
    } else {
      var m := n - 1;
      RoundsInit(g, tr, acts, n);
      RoundsKeep(g, tr[..2 + 2 * m], acts[..1 + 2 * m], m);
      var s, a := tr[1 + 2 * m], acts[1 + 2 * m];
      assert Step(g, a, s, tr[2 + 2 * m]) && Step(g, acts[2 + 2 * m], tr[2 + 2 * m], tr[3 + 2 * m]);
      OneRound(g, s, a, tr[2 + 2 * m], tr[3 + 2 * m], m);
    }
  }

  lemma RoundsInit(g: Get, tr: seq<Sys>, acts: seq<Act>, n: nat)
    requires Rounds(g, tr, acts, n) && n > 0
    ensures var m := n - 1;
            Rounds(g, tr[..2 + 2 * m], acts[..1 + 2 * m], m) && tr[..2 + 2 * m][1 + 2 * m] == tr[1 + 2 * m]
    ensures g.Ok() && acts[2 * n - 1].ServerTakes? && Able(g, acts[2 * n - 1]) && acts[2 * n] == ClientTakes(false)
  {
    hide Step, Able, Init;
    var m := n - 1;
    var ts, bs := tr[..2 + 2 * m], acts[..1 + 2 * m];
    forall j | 0 <= j < |bs|
      ensures Step(g, bs[j], ts[j], ts[j + 1])
    {
      var x := acts[j];
    }
    forall j | 0 <= j < m
      ensures bs[1 + 2 * j].ServerTakes? && Able(g, bs[1 + 2 * j]) && bs[2 + 2 * j] == ClientTakes(false)
    {
      assert bs[1 + 2 * j] == acts[1 + 2 * j] && bs[2 + 2 * j] == acts[2 + 2 * j];
    }
    assert acts[1 + 2 * m].ServerTakes? && acts[2 + 2 * m] == ClientTakes(false);
    InitOk(g, tr[0]);
  }

  lemma InitOk(g: Get, s: Sys)
    requires Init(g, s)
    ensures g.Ok()
  {
  }

  lemma OneRound(g: Get, s: Sys, a: Act, s1: Sys, s2: Sys, n: nat)
    requires After(g, s, n) && n < BlockCount(g.Wired()) && Able(g, a) && g.Ok()
    requires Step(g, a, s, s1) && Step(g, ClientTakes(false), s1, s2)
    requires n == 0 ==> (a.i.sock, g.req.name) !in s.srv.ds.open
    ensures After(g, s2, n + 1)
  {
    hide Step, Built, DataMsg, Block, ReqMsg, AckMsg;
    ServerHalf(g, s, a, s1, n);
    ClientHalf(g, s1, s2, n);
  }

  /** Whatever file, mode and number of blocks: after as many rounds as there are blocks, and not before, the
      client has the whole encoded file. */
  lemma Completes(g: Get, tr: seq<Sys>, acts: seq<Act>, n: nat)
    requires Rounds(g, tr, acts, n)
    ensures var s, e := tr[|acts|], Wire(g.req.mode, g.file);
            && (n <= |e| / 512 ==> !s.done && s.got == e[..512 * n] && s.count == n)
            && (n == |e| / 512 + 1 ==> s.done && s.got == e && s.count == n)
  {
    if n <= BlockCount(g.Wired()) {
      RoundsKeep(g, tr, acts, n);
      hide Rounds, Built;
      if n == BlockCount(g.Wired()) {
        BlockFacts(g.Wired(), n);
      }
    }
  }

  /** And when the server has taken the ACK of the last block, its session has ended and the channels are
      empty. */
  lemma Ends(g: Get, tr: seq<Sys>, acts: seq<Act>, a: Act, s': Sys)
    requires Rounds(g, tr, acts, BlockCount(g.Wired())) && Able(g, a) && Step(g, a, tr[|acts|], s')
    ensures g.me in s'.srv.ses && s'.srv.ses[g.me].disabled && s'.toC == [] && s'.toS == [] && s'.done
    ensures s'.got == Wire(g.req.mode, g.file)
  {
    var s, n := tr[|acts|], BlockCount(g.Wired());
    RoundsKeep(g, tr, acts, n);
    BlockFacts(g.Wired(), n);
    hide Rounds, AckMsg, ServerRuns.PacketStep, Get.Wired, Blocks.Sent;
    assert [AckMsg(Wrap(n))][1..] == [];
    Replies.LastAckEnds(g.me, a.i, a.env, a.ok, s.srv, s'.srv);
  }
}
