/** A download, end to end: the whole server with all its other clients, one conforming client
    (sections 2, 4 and 6 of RFC 1350), and two first-in first-out channels between them that lose
    and duplicate packets. */
module GetProtocol {
  import opened Base
  import opened Netascii
  import opened Blocks
  import opened Packets
  import opened DatastoreSpec
  import opened SessionSpec
  import opened SessionTable
  import opened Server
  import opened ServerRuns
  import opened Channels

  /** The client, what it asks for, and the contents of that file */
  datatype Get = Get(me: Client, req: Request, file: seq<byte>)
  {
    function Path(): Path { PathOf(req.name) }

    /** The bytes of the file as they appear on the wire */
    function Wired(): seq<byte> { Wire(req.mode, file) }

    ghost predicate Ok() { 0 < |req.name| < FILENAME_MAX && 0 !in req.name }
  }

  /** `got` are the bytes that the client has accepted, in `count` blocks. */
  datatype Sys = Sys(srv: Srv, toC: seq<Msg>, toS: seq<Msg>, got: seq<byte>, count: nat, done: bool, failed: bool)

  datatype Act =
    | Ask                                  // the client sends its request, also again
    | AckAgain                             // it repeats its last ACK
    | GiveUp(code: u16, text: seq<byte>)   // it sends an ERROR and stops
    | LoseToClient(at: nat)
    | LoseToServer(at: nat)
    | ClientTakes(keep: bool)              // `keep`: the channel delivers the packet once more
    | ServerTakes(keep: bool, i: Input, env: Env, ok: bool)
    | Resend(now: nat, arrives: bool)      // the timer
    | Elsewhere(e: Event)                  // another client, or the clean-up

  /** What the client reads in a packet: a DATA block */
  function ClientData(m: Msg): Option<Data>
  {
    if |m| < 4 || |m| > MSG_MAX || WordAt(m, 0) != OP_DATA then None else Some(Data(WordAt(m, 2), m[4..]))
  }

  /** The client accepts the next block and acknowledges it; it acknowledges the last one again;
      it drops any other; and an ERROR makes it stop. */
  function ClientGets(s: Sys, m: Msg): Sys
  {
    var data := ClientData(m);
    if s.failed then s
    else if data.None? then if IsError(m) && !s.done then s.(failed := true) else s
    else if !s.done && data.value.blk == Wrap(s.count + 1) then
      s.(got := s.got + data.value.payload, count := s.count + 1, done := |data.value.payload| < BLOCK_SIZE,
         toS := s.toS + [AckMsg(Wrap(s.count + 1))])
    else if s.count > 0 && data.value.blk == Wrap(s.count) then s.(toS := s.toS + [AckMsg(Wrap(s.count))])
    else s
  }

  /** tftp_proc takes the first packet of the channel, and its reply joins the other channel. */
  ghost predicate ServerStep(g: Get, keep: bool, i: Input, env: Env, ok: bool, s: Sys, s': Sys)
  {
    && s.toS != [] && InputOk(i) && i.buf[..i.len] == s.toS[0]
    && PacketStep(g.me, i, env, ok, s.srv, s'.srv)
    && s' == s.(srv := s'.srv, toS := AfterHead(s.toS, keep),
                toC := Post(s.toC, SessionSpec.Sent(Find(s'.srv.ses, g.me), s'.srv.msg, ok)))
  }

  ghost predicate ResendStep(g: Get, now: nat, arrives: bool, s: Sys, s': Sys)
  {
    && TimerStep(now, s.srv, s'.srv)
    && s' == s.(srv := s'.srv,
                toC := if arrives && g.me in s.srv.ses && TimerSends(s.srv.ses[g.me], now)
                       then s.toC + [s.srv.ses[g.me].lastmsg] else s.toC)
  }

  ghost predicate Step(g: Get, a: Act, s: Sys, s': Sys)
  {
    match a
    case Ask => !s.failed && s.count == 0 && s' == s.(toS := s.toS + [ReqMsg(OP_RRQ, g.req)])
    case AckAgain => !s.failed && s.count > 0 && s' == s.(toS := s.toS + [AckMsg(Wrap(s.count))])
    case GiveUp(code, text) => s' == s.(failed := true, toS := s.toS + [ErrMsg(code, text)])
    case LoseToClient(at) => at < |s.toC| && s' == s.(toC := RemoveAt(s.toC, at))
    case LoseToServer(at) => at < |s.toS| && s' == s.(toS := RemoveAt(s.toS, at))
    case ClientTakes(keep) => s.toC != [] && s' == ClientGets(s.(toC := AfterHead(s.toC, keep)), s.toC[0])
    case ServerTakes(keep, i, env, ok) => ServerStep(g, keep, i, env, ok, s, s')
    case Resend(now, arrives) => ResendStep(g, now, arrives, s, s')
    case Elsewhere(e) =>
      && (e.Packet? ==> e.c != g.me) && !e.Timer?
      && ServerRuns.Step(e, s.srv, s'.srv) && s' == s.(srv := s'.srv)
  }

  /** The file exists, nobody is writing it, and the client is new to the server. */
  ghost predicate Init(g: Get, s: Sys)
  {
    && g.Ok() && ServerRuns.Inv(s.srv) && g.me !in s.srv.ses
    && Sealed(s.srv.ds, g.Path()) && s.srv.ds.files[g.Path()] == g.file
    && s == Sys(s.srv, [], [], [], 0, false, false)
  }

  ghost predicate Run(g: Get, tr: seq<Sys>, acts: seq<Act>)
  {
    && |tr| == |acts| + 1 && Init(g, tr[0])
    && forall j {:trigger acts[j]} :: 0 <= j < |acts| ==> Step(g, acts[j], tr[j], tr[j + 1])
  }

  // ---- the messages ----

  /** Answer k: DATA block k. What is no DATA at all does not move the client. */
  ghost function D(g: Get, k: int): iset<Msg>
  {
    iset m: Msg | ClientData(m).None? ||
                  (1 <= k <= BlockCount(g.Wired()) && m == DataMsg(Wrap(k), Block(g.Wired(), k)))
  }

  /** Message k of the client: the request, then ACK k */
  ghost function A(g: Get, k: int): iset<Msg>
  {
    if k == 0 then iset{ReqMsg(OP_RRQ, g.req)} else if k >= 1 then iset{AckMsg(Wrap(k))} else iset{}
  }

  lemma DataParsed(blk: u16, p: seq<byte>)
    requires |p| <= BLOCK_SIZE
    ensures ClientData(DataMsg(blk, p)) == Some(Data(blk, p))
  {
  }

  // ---- the invariant ----

  /** The session in the middle of the transfer: k blocks built, the rest still in the stream */
  ghost predicate Live(g: Get, t: Ses, d: Ds, k: nat)
  {
    && !t.fin && 1 <= k < BlockCount(g.Wired()) && t.blknum == Wrap(k)
    && t.lastmsg == DataMsg(Wrap(k), Block(g.Wired(), k))
    && Stream(t, d) == g.Wired()[BLOCK_SIZE * k..]
  }

  /** The session after its last block */
  ghost predicate LastBuilt(g: Get, t: Ses, k: nat)
  {
    && t.fin && k == BlockCount(g.Wired()) && t.blknum == Wrap(k)
    && t.lastmsg == DataMsg(Wrap(k), Block(g.Wired(), k))
  }

  /** The session after a failed load: its block number has moved on, its last message has not. If that
      was not the first load, the client has acknowledged that message, and can only do so again. */
  ghost predicate LoadFailed(g: Get, t: Ses, k: nat, only: bool)
  {
    && t.fin
    && if t.lastmsg == [] then k <= 1 && t.blknum == 1
       else
         && 1 <= k < BlockCount(g.Wired()) && t.blknum == Wrap(k + 1)
         && t.lastmsg == DataMsg(Wrap(k), Block(g.Wired(), k)) && only
  }

  /** It is in the middle, or it has finished or, unless every load is `sure` to succeed, failed; or it
      is disabled and sends nothing. */
  ghost predicate Serving(g: Get, t: Ses, d: Ds, k: nat, sure: bool, only: bool)
  {
    && t.dir == SessionSpec.Get && t.mode == g.req.mode && t.name == g.req.name
    && (t.disabled || Live(g, t, d, k) || LastBuilt(g, t, k) || (!sure && LoadFailed(g, t, k, only)))
  }

  ghost predicate ClientOk(g: Get, s: Sys)
  {
    && s.count <= BlockCount(g.Wired()) && s.got == Blocks.Sent(g.Wired(), s.count)
    && (s.done <==> s.count == BlockCount(g.Wired()))
  }

  ghost predicate ServerOk(g: Get, s: Srv)
  {
    && ServerRuns.Inv(s) && Sealed(s.ds, g.Path()) && s.ds.files[g.Path()] == g.file
  }

  /** The server has built k blocks, and the client has accepted k or k-1 of them. */
  ghost predicate Inv(g: Get, s: Sys, k: nat, sure: bool)
  {
    && g.Ok() && ClientOk(g, s) && ServerOk(g, s.srv)
    && (!s.failed ==>
          && k <= BlockCount(g.Wired()) && (s.count == k || s.count == k - 1)
          && InStep(s.count == k, s.toC, s.toS, D(g, k - 1), D(g, k), A(g, k - 1), A(g, k))
          && SessionOk(g, s.srv, k, sure, s.count == k && All(s.toS, A(g, k))))
  }

  ghost predicate SessionOk(g: Get, s: Srv, k: nat, sure: bool, only: bool)
  {
    g.me in s.ses ==> Serving(g, s.ses[g.me], s.ds, k, sure, only)
  }

  lemma ServingMono(g: Get, s: Srv, k: nat, sure: bool, was: bool, only: bool)
    requires SessionOk(g, s, k, sure, was) && (was ==> only)
    ensures SessionOk(g, s, k, sure, only)
  {
  }

  // ---- the client ----

  lemma ClientStep(g: Get, s: Sys, k: nat, sure: bool, keep: bool)
    requires Inv(g, s, k, sure) && s.toC != []
    ensures Inv(g, ClientGets(s.(toC := AfterHead(s.toC, keep)), s.toC[0]), k, sure)
  {
    hide ServerOk, Serving, InStep, ClientData, Get.Wired, Block, DataMsg, Blocks.Sent, WordAt;
    var m, e := s.toC[0], g.Wired();
    if !s.failed {
      HeadInStep(s.count == k, s.toC, s.toS, D(g, k - 1), D(g, k), A(g, k - 1), A(g, k), keep);
      if ClientData(m).Some? {
        WrapDiffers(k);
        var j := if m in D(g, k) && s.count == k - 1 && m !in D(g, k - 1) then k else s.count;
        assert m == DataMsg(Wrap(j), Block(e, j));
        DataParsed(Wrap(j), Block(e, j));
        if j == s.count {
          RepeatInStep(s.count == k, AfterHead(s.toC, keep), s.toS, D(g, k - 1), D(g, k), A(g, k - 1), A(g, k),
                       AckMsg(Wrap(j)));
        } else {
          BlockFacts(e, k);
          CatchUp(AfterHead(s.toC, keep), s.toS, D(g, k - 1), D(g, k), A(g, k - 1), A(g, k), AckMsg(Wrap(k)));
          ServingMono(g, s.srv, k, sure, false, All(s.toS + [AckMsg(Wrap(k))], A(g, k)));
        }
      }
    }
  }

  // ---- the data path ----

  /** The next block of the string `e`: after `k` blocks, an answer is DATA block k+1 and leaves the
      rest in the stream, or the load has failed and an ERROR ends the transfer. */
  lemma BuildBlock(e: seq<byte>, t: Ses, d: Ds, env: Env, now: nat, t': Ses, d': Ds, msg': seq<byte>, k: nat)
    requires k < BlockCount(e) && Stream(t, d) == e[BLOCK_SIZE * k..] && t.blknum == Wrap(k) && !t.fin
    requires Answered(t, d, env, now, t', d', msg')
    ensures if |Loaded(t)| >= BLOCK_SIZE || Readable(t, d, env) then
              && t'.lastmsg == msg' == DataMsg(Wrap(k + 1), Block(e, k + 1)) && t'.blknum == Wrap(k + 1)
              && (t'.fin <==> k + 1 == BlockCount(e))
              && (!t'.fin ==> Stream(t', d') == e[BLOCK_SIZE * (k + 1)..])
            else
              && t'.fin && t'.blknum == Wrap(k + 1) && t'.lastmsg == t.lastmsg
              && msg' == ErrReply(ERR_SEEMSG, SERVER_ERROR)
  {
    hide DataBuilt, Readable, Stream, Loaded;
    NextWrap(k);
    if Built(t, d, env, now, t', d') && msg' == t'.lastmsg {
      BuiltBlock(e, t, d, now, t', d', k);
    }
  }

  /** Successive calls of make_tftpdata_msg on one new session, up to the one that sets `fin` */
  ghost predicate Blockwise(g: Get, ss: seq<Ses>, ds: seq<Ds>, now: seq<nat>)
  {
    && |ss| == |ds| == |now| + 1
    && g.Path() in ds[0].files && ds[0].files[g.Path()] == g.file && (ss[0].sock, g.req.name) !in ds[0].open
    && ss[0] == NewSes(OP_RRQ, g.req, ss[0].sock)
    && forall j {:trigger now[j]} :: 0 <= j < |now| ==> !ss[j].fin && DataBuilt(ss[j], ds[j], now[j], ss[j + 1], ds[j + 1])
  }

  /** The messages are the encoded file cut into 512-byte blocks, wherever the refills of the session
      buffer fall; `fin` comes with the one short block, the last of |e| / 512 + 1. */
  lemma {:induction false} GetDataPath(g: Get, ss: seq<Ses>, ds: seq<Ds>, now: seq<nat>)
    requires Blockwise(g, ss, ds, now)
    ensures var n, e := |now|, Wire(g.req.mode, g.file);
            && n <= |e| / 512 + 1 && ss[n].blknum == Wrap(n)
            && (n > 0 ==> ss[n].lastmsg == DataMsg(Wrap(n), Take(e[512 * (n - 1)..], 512)))
            && (ss[n].fin <==> n == |e| / 512 + 1)
            && (!ss[n].fin ==> Stream(ss[n], ds[n]) == e[512 * n..])
  {
    hide Stream, DataBuilt;
    var n, e := |now|, g.Wired();
    if n == 0 {
      NewStream(g, ds[0], ss[0].sock);
    } else {
      var m := n - 1;
      var last := now[m];
      assert ss[..n][0] == ss[0] && ds[..n][0] == ds[0];
      forall j | 0 <= j < m
        ensures !ss[..n][j].fin && DataBuilt(ss[..n][j], ds[..n][j], now[..m][j], ss[..n][j + 1], ds[..n][j + 1])
      {
        var x := now[j];
      }
      GetDataPath(g, ss[..n], ds[..n], now[..m]);
      assert ss[..n][m] == ss[m] && ds[..n][m] == ds[m] && |now[..m]| == m;
      BlocksAsSlices(e, n);
      BuiltBlock(e, ss[m], ds[m], last, ss[n], ds[n], m);
    }
  }

  lemma BlocksAsSlices(e: seq<byte>, n: nat)
    requires 0 < n <= BlockCount(e)
    ensures BLOCK_SIZE * (n - 1) <= |e| && Block(e, n) == Take(e[BLOCK_SIZE * (n - 1)..], BLOCK_SIZE)
  {
  }

  lemma BuiltBlock(e: seq<byte>, t: Ses, d: Ds, now: nat, t': Ses, d': Ds, k: nat)
    requires k < BlockCount(e) && Stream(t, d) == e[BLOCK_SIZE * k..] && t.blknum == Wrap(k) && !t.fin
    requires DataBuilt(t, d, now, t', d')
    ensures t'.lastmsg == DataMsg(Wrap(k + 1), Block(e, k + 1)) && t'.blknum == Wrap(k + 1)
    ensures t'.fin <==> k + 1 == BlockCount(e)
    ensures !t'.fin ==> Stream(t', d') == e[BLOCK_SIZE * (k + 1)..]
  {
    hide Stream, ReadOnly, BufOk;
    NextWrap(k);
    BlockFacts(e, k + 1);
    assert Drop(e, BLOCK_SIZE * k) == e[BLOCK_SIZE * k..];
    assert Take(Stream(t, d), BLOCK_SIZE) == Block(e, k + 1);
  }

  lemma NewStream(g: Get, d: Ds, sock: int)
    requires g.Path() in d.files && d.files[g.Path()] == g.file && (sock, g.req.name) !in d.open
    ensures Stream(NewSes(OP_RRQ, g.req, sock), d) == g.Wired()[BLOCK_SIZE * 0..]
  {
    assert [] + g.file == g.file;
  }

  /** An answer after k blocks, as the session and the channel see it */
  lemma Answers(g: Get, t: Ses, d: Ds, env: Env, now: nat, t': Ses, d': Ds, msg': seq<byte>, k: nat, sure: bool)
    requires k < BlockCount(g.Wired()) && Stream(t, d) == g.Wired()[BLOCK_SIZE * k..] && t.blknum == Wrap(k) && !t.fin
    requires Answered(t, d, env, now, t', d', msg') && (sure ==> Readable(t, d, env))
    requires t.lastmsg == if k == 0 then [] else DataMsg(Wrap(k), Block(g.Wired(), k))
    requires t.dir == SessionSpec.Get && t.mode == g.req.mode && t.name == g.req.name
    ensures || (Serving(g, t', d', k, sure, true) && msg' in D(g, k))
            || (Serving(g, t', d', k + 1, sure, false) && msg' in D(g, k + 1))
  {
    hide Stream, BufOk, Answered, Get.Wired, Block, ClientData, ErrReply, Readable;
    AnsweredSame(t, d, env, now, t', d', msg');
    BuildBlock(g.Wired(), t, d, env, now, t', d', msg', k);
    ErrReplyNoData(ERR_SEEMSG, SERVER_ERROR);
  }

  lemma AnsweredSame(t: Ses, d: Ds, env: Env, now: nat, t': Ses, d': Ds, msg': seq<byte>)
    requires Answered(t, d, env, now, t', d', msg')
    ensures SameTransfer(t, t')
  {
  }

  lemma ErrReplyNoData(code: u16, text: seq<byte>)
    ensures ClientData(ErrReply(code, text)).None?
  {
  }

  // ---- the server ----

  /** An ACK that the code takes for neither the current nor the previous one: it builds no reply,
      and what is sent is whatever the message buffer still holds. */
  ghost predicate StaleAck(t: Ses, i: Input)
    requires InputOk(i)
  {
    && Opcode(i.buf) == OP_ACK && ParseAck(i.buf, i.len).Some?
    && ParseAck(i.buf, i.len).value as int != t.blknum as int - 1 && ParseAck(i.buf, i.len).value != t.blknum
  }

  /** The message buffer does not hold a DATA block of some other transfer when such an ACK is
      answered from it. */
  ghost predicate NoForeignReply(g: Get, a: Act, s: Sys)
  {
    a.ServerTakes? && InputOk(a.i) && !s.failed && g.me in s.srv.ses ==>
      var t := s.srv.ses[g.me];
      !t.disabled && StaleAck(t, a.i) ==> s.srv.msg == t.lastmsg || ClientData(s.srv.msg).None?
  }

  /** When the request starts a session, no datastore session has been left behind under its key. */
  ghost predicate NothingLeft(g: Get, a: Act, s: Sys, s': Sys)
  {
    a.ServerTakes? && !s.failed && g.me !in s.srv.ses && g.me in s'.srv.ses ==>
      (a.i.sock, g.req.name) !in s.srv.ds.open
  }

  /** The system lets the server open and read the file. */
  ghost predicate MayRead(g: Get, a: Act) { a.ServerTakes? ==> a.env.canOpen(g.Path()) && a.env.canRead(g.Path()) }

  /** A file of fewer than 65536 blocks: its block numbers never come back to 0. */
  ghost predicate Short(g: Get) { BlockCount(g.Wired()) < 0x1_0000 }

  /** The server reads in the buffer what the client has sent. */
  lemma RequestRead(g: Get, i: Input)
    requires g.Ok() && InputOk(i) && i.buf[..i.len] == ReqMsg(OP_RRQ, g.req)
    ensures Opcode(i.buf) == OP_RRQ && ParseReq(i.buf, i.len) == Some(g.req)
  {
    hide ParseReq;
    var m := ReqMsg(OP_RRQ, g.req);
    assert m <= i.buf;
    ParseReqIff(i.buf, i.len, g.req);
    assert i.buf[0..2] == m[0..2] == Word(OP_RRQ);
    WordFacts(i.buf, 0, OP_RRQ);
  }

  lemma AckRead(i: Input, blk: u16)
    requires InputOk(i) && i.buf[..i.len] == AckMsg(blk)
    ensures Opcode(i.buf) == OP_ACK && ParseAck(i.buf, i.len) == Some(blk)
  {
  }

  /** A message of the client, in the terms of the server */
  lemma ClientMessage(g: Get, i: Input, j: int, m: Msg)
    requires g.Ok() && InputOk(i) && i.buf[..i.len] == m && m in A(g, j)
    ensures j >= 0
    ensures j == 0 ==> Opcode(i.buf) == OP_RRQ && ParseReq(i.buf, i.len) == Some(g.req)
    ensures j > 0 ==> Opcode(i.buf) == OP_ACK && ParseAck(i.buf, i.len) == Some(Wrap(j))
  {
    if j == 0 {
      RequestRead(g, i);
    } else {
      AckRead(i, Wrap(j));
    }
  }

  /** A message of the client about a short file is always recognised. */
  lemma Recognised(g: Get, t: Ses, d: Ds, i: Input, k: nat, sure: bool, j: nat)
    requires Short(g) && InputOk(i) && (j == k || j == k - 1) && !t.disabled && Serving(g, t, d, k, sure, j == k)
    requires j == 0 ==> Opcode(i.buf) == OP_RRQ
    requires j > 0 ==> Opcode(i.buf) == OP_ACK && ParseAck(i.buf, i.len) == Some(Wrap(j))
    ensures !StaleAck(t, i)
  {
    hide Stream, Get.Wired, Block, DataMsg, BlockCount, ParseAck;
  }

  /** What the session answers to message `j` of the client when the server has built k blocks:
      only message k takes it to block k+1. */
  lemma SessionReplies(g: Get, t: Ses, d: Ds, env: Env, msg: seq<byte>, i: Input, t': Ses, d': Ds,
                       msg': seq<byte>, ok: bool, k: nat, j: nat, sure: bool)
    requires g.Ok() && InputOk(i) && (j == k || j == k - 1) && k <= BlockCount(g.Wired())
    requires j == 0 ==> Opcode(i.buf) == OP_RRQ
    requires j > 0 ==> Opcode(i.buf) == OP_ACK && ParseAck(i.buf, i.len) == Some(Wrap(j))
    requires Handled(Some(t), d, env, msg, i, Some(t'), d', msg', ok) && SesOk(t, d)
    requires Serving(g, t, d, k, sure, j == k) && (sure ==> Readable(t, d, env))
    requires !t.disabled && StaleAck(t, i) ==> msg == t.lastmsg || ClientData(msg).None?
    ensures var reply := SessionSpec.Sent(Some(t'), msg', ok);
            || (Serving(g, t', d', k, sure, j == k) && (reply.Some? ==> reply.value in D(g, k)))
            || (&& j == k < BlockCount(g.Wired()) && Serving(g, t', d', k + 1, sure, false)
                && (reply.Some? ==> reply.value in D(g, k + 1)))
  {
    hide Stream, Resent, Answered, Get.Wired, Block, DataMsg, ClientData, ParseReq, ParseAck, SesOk, Readable, Live;
    assert Conforming(Some(t), i);
    if t.disabled {
      DisabledKept(t, d, env, msg, i, t', d', msg', ok);
    } else {
      ServingSends(g, t, d, k, sure, j == k);
      if Duplicate(t, i) {
        DuplicateResent(t, d, env, msg, i, Some(t'), d', msg', ok);
        RepeatServing(g, t, d, msg, i.now, t', d', msg', k, sure, j == k);
      } else if Wrap(j) == t.blknum && !t.fin {
        LiveIs(g, t, d, k);
        WrapDiffers(j);
        assert j == k;
        Answers(g, t, d, env, i.now, t', d', msg', k, sure);
      }
    }
  }

  lemma LiveIs(g: Get, t: Ses, d: Ds, k: nat)
    requires Live(g, t, d, k)
    ensures 1 <= k < BlockCount(g.Wired()) && t.blknum == Wrap(k) && !t.fin
    ensures t.lastmsg == DataMsg(Wrap(k), Block(g.Wired(), k)) && Stream(t, d) == g.Wired()[BLOCK_SIZE * k..]
  {
  }

  lemma ServingSends(g: Get, t: Ses, d: Ds, k: nat, sure: bool, only: bool)
    requires Serving(g, t, d, k, sure, only) && !t.disabled && k <= BlockCount(g.Wired())
    ensures t.lastmsg in D(g, k)
  {
    EmptyNoData();
  }

  lemma DisabledKept(t: Ses, d: Ds, env: Env, msg: seq<byte>, i: Input, t': Ses, d': Ds, msg': seq<byte>, ok: bool)
    requires InputOk(i) && Handled(Some(t), d, env, msg, i, Some(t'), d', msg', ok) && Conforming(Some(t), i)
    requires SesOk(t, d) && t.disabled
    ensures t'.disabled && SameTransfer(t, t')
  {
    hide Handled, Effect;
    KnownHandled(t, d, env, msg, i, Some(t'), d', msg', ok);
  }

  lemma RepeatServing(g: Get, t: Ses, d: Ds, msg: seq<byte>, now: nat, t': Ses, d': Ds, msg': seq<byte>, k: nat,
                      sure: bool, only: bool)
    requires Serving(g, t, d, k, sure, only) && Resent(t, d, msg, now, t', d', msg')
    ensures Serving(g, t', d', k, sure, only) && (t'.disabled || msg' == t.lastmsg)
  {
    hide Block, DataMsg, BlockCount;
  }

  /** What the server answers to message `j` of a client without a session: the request starts the
      transfer, once more if nothing but its first block has been sent; an ACK meets an ERROR. */
  lemma StrangerReplies(g: Get, d: Ds, env: Env, msg: seq<byte>, i: Input, post: Option<Ses>, d': Ds,
                        msg': seq<byte>, ok: bool, k: nat, j: nat, sure: bool)
    requires g.Ok() && InputOk(i) && (j == k || j == k - 1) && k <= BlockCount(g.Wired())
    requires j == 0 ==> Opcode(i.buf) == OP_RRQ && ParseReq(i.buf, i.len) == Some(g.req)
    requires j > 0 ==> Opcode(i.buf) == OP_ACK && ParseAck(i.buf, i.len) == Some(Wrap(j))
    requires Handled(None, d, env, msg, i, post, d', msg', ok)
    requires g.Path() in d.files && d.files[g.Path()] == g.file
    requires post.Some? ==> (i.sock, g.req.name) !in d.open
    requires sure ==> env.canOpen(g.Path()) && env.canRead(g.Path())
    ensures j > 0 ==> post.None?
    ensures || ((post.Some? ==> Serving(g, post.value, d', k, sure, j == k)) && msg' in D(g, k))
            || (j == k == 0 && post.Some? && Serving(g, post.value, d', 1, sure, false) && msg' in D(g, 1))
  {
    hide Stream, Answered, Get.Wired, Block, DataMsg, ClientData, ParseReq, ParseAck, Live, LastBuilt;
    BlockCountPositive(g.Wired());
    if j == 0 {
      var t := NewSes(OP_RRQ, g.req, i.sock);
      NewStream(g, d, i.sock);
      Answers(g, t, d, env, i.now, post.value, d', msg', 0, sure);
      NotYet(g, post.value, d');
    } else {
      ErrReplyNoData(ERR_UNKNOWNID, []);
    }
  }

  /** Without a block built, a session that has tried has failed. */
  lemma NotYet(g: Get, t: Ses, d: Ds)
    ensures !Live(g, t, d, 0) && !LastBuilt(g, t, 0)
  {
    BlockCountPositive(g.Wired());
  }

  lemma EmptyNoData()
    ensures ClientData([]).None?
  {
  }

  /** The server keeps the file, whatever happens. */
  lemma ServerStays(g: Get, e: Event, s: Srv, s': Srv)
    requires ServerOk(g, s) && ServerRuns.Step(e, s, s')
    ensures ServerOk(g, s')
  {
    hide ServerRuns.Inv, ServerRuns.Step, Sealed;
    StepKeepsInv(e, s, s');
    StepKeepsFiles(e, s, s');
  }

  /** The session and the reply after a packet, when the server has built k blocks */
  ghost predicate Outcome(g: Get, post: Option<Ses>, d: Ds, reply: Option<Msg>, k: nat, sure: bool, only: bool)
  {
    (post.Some? ==> Serving(g, post.value, d, k, sure, only)) && (reply.Some? ==> reply.value in D(g, k))
  }

  lemma PacketOutcome(g: Get, i: Input, env: Env, ok: bool, s: Srv, s': Srv, k: nat, j: nat, sure: bool)
    requires g.Ok() && ServerOk(g, s) && PacketStep(g.me, i, env, ok, s, s')
    requires (j == k || j == k - 1) && k <= BlockCount(g.Wired())
    requires j == 0 ==> Opcode(i.buf) == OP_RRQ && ParseReq(i.buf, i.len) == Some(g.req)
    requires j > 0 ==> Opcode(i.buf) == OP_ACK && ParseAck(i.buf, i.len) == Some(Wrap(j))
    requires g.me !in s.ses && g.me in s'.ses ==> (i.sock, g.req.name) !in s.ds.open
    requires sure ==> env.canOpen(g.Path()) && env.canRead(g.Path())
    requires SessionOk(g, s, k, sure, j == k)
    requires g.me in s.ses && !s.ses[g.me].disabled && StaleAck(s.ses[g.me], i) ==>
               s.msg == s.ses[g.me].lastmsg || ClientData(s.msg).None?
    ensures g.me !in s.ses && j > 0 ==> g.me !in s'.ses
    ensures var post := Find(s'.ses, g.me);
            var reply := SessionSpec.Sent(post, s'.msg, ok);
            || Outcome(g, post, s'.ds, reply, k, sure, j == k)
            || (j == k < BlockCount(g.Wired()) && Outcome(g, post, s'.ds, reply, k + 1, sure, false))
  {
    hide Handled, StaleAck, D, Get.Wired, ParseReq, ParseAck, SesOk, Effect, Live, LastBuilt, LoadFailed, BlockCount;
    var post := Find(s'.ses, g.me);
    BlockCountPositive(g.Wired());
    if g.me in s.ses {
      var t := s.ses[g.me];
      assert SesOk(t, s.ds);
      assert Conforming(Find(s.ses, g.me), i);
      KnownHandled(t, s.ds, env, s.msg, i, post, s'.ds, s'.msg, ok);
      SessionReplies(g, t, s.ds, env, s.msg, i, post.value, s'.ds, s'.msg, ok, k, j, sure);
    } else {
      StrangerReplies(g, s.ds, env, s.msg, i, post, s'.ds, s'.msg, ok, k, j, sure);
    }
  }

  lemma MessagesDiffer(g: Get, j: nat, m: Msg)
    requires m in A(g, j)
    ensures m !in A(g, j + 1)
  {
    var a := AckMsg(Wrap(j + 1));
    assert a[0..2] == Word(OP_ACK) && a[2..4] == Word(Wrap(j + 1));
    if j == 0 {
      assert ReqMsg(OP_RRQ, g.req)[0..2] == Word(OP_RRQ);
    } else {
      assert AckMsg(Wrap(j))[2..4] == Word(Wrap(j));
      WordFacts(a, 2, Wrap(j));
      WordFacts(a, 2, Wrap(j + 1));
    }
  }

  /** The first message in the channel: which one it is, and, if it is the latest, that only it can
      follow. */
  lemma FirstMessage(g: Get, s: Sys, k: nat, sure: bool, keep: bool) returns (j: int)
    requires Inv(g, s, k, sure) && !s.failed && s.toS != []
    ensures (j == k || j == k - 1) && s.toS[0] in A(g, j)
    ensures j == k ==> s.count == k && All(AfterHead(s.toS, keep), A(g, k))
    ensures j != k ==> !All(s.toS, A(g, k))
  {
    hide ServerOk, SessionOk, InStep, D, ClientOk, A;
    HeadInStep(s.count == k, s.toC, s.toS, D(g, k - 1), D(g, k), A(g, k - 1), A(g, k), keep);
    j := if s.toS[0] in A(g, k - 1) then k - 1 else k;
    NoMessage(g);
    if j == k - 1 >= 0 {
      MessagesDiffer(g, j, s.toS[0]);
    }
    assert s.toS[0] in s.toS;
  }

  lemma NoMessage(g: Get)
    ensures forall m :: m !in A(g, -1)
  {
  }

  lemma ServerTakesKeeps(g: Get, keep: bool, i: Input, env: Env, ok: bool, s: Sys, s': Sys, k: nat, sure: bool)
    returns (k': nat)
    requires Inv(g, s, k, sure) && ServerStep(g, keep, i, env, ok, s, s')
    requires var a := ServerTakes(keep, i, env, ok);
             NothingLeft(g, a, s, s') && (Short(g) || NoForeignReply(g, a, s)) && (sure ==> MayRead(g, a))
    ensures Inv(g, s', k', sure)
  {
    hide Handled, Serving, InStep, StaleAck, D, A, Get.Wired, ServerOk, PacketStep, Short, BlockCount;
    ServerStays(g, Packet(g.me, i, env, ok), s.srv, s'.srv);
    k' := k;
    if !s.failed {
      var caught, m, post := s.count == k, s.toS[0], Find(s'.srv.ses, g.me);
      var toS, reply := AfterHead(s.toS, keep), SessionSpec.Sent(post, s'.srv.msg, ok);
      HeadInStep(caught, s.toC, s.toS, D(g, k - 1), D(g, k), A(g, k - 1), A(g, k), keep);
      var j := FirstMessage(g, s, k, sure, keep);
      ClientMessage(g, i, j, m);
      ServingMono(g, s.srv, k, sure, caught && All(s.toS, A(g, k)), j == k);
      if g.me in s.srv.ses && !s.srv.ses[g.me].disabled && Short(g) {
        Recognised(g, s.srv.ses[g.me], s.srv.ds, i, k, sure, j);
      }
      PacketOutcome(g, i, env, ok, s.srv, s'.srv, k, j, sure);
      if Outcome(g, post, s'.srv.ds, reply, k, sure, j == k) {
        ServingMono(g, s'.srv, k, sure, j == k, caught && All(toS, A(g, k)));
        ReplyInStep(caught, s.toC, toS, D(g, k - 1), D(g, k), A(g, k - 1), A(g, k), reply);
      } else {
        k' := k + 1;
        ServingMono(g, s'.srv, k + 1, sure, false, s'.count == k + 1 && All(s'.toS, A(g, k + 1)));
        MoveOn(s.toC, toS, D(g, k - 1), D(g, k), D(g, k + 1), A(g, k - 1), A(g, k), A(g, k + 1), reply);
      }
    }
  }

  // ---- the other steps ----

  /** A session keeps its stream while nobody writes its file and its datastore session stays. */
  lemma StreamKept(t: Ses, t': Ses, d: Ds, d': Ds)
    requires SameTransfer(t, t') && t.buf == t'.buf && t.fopt == t'.fopt && Content(d, t.Path()) == Content(d', t.Path())
    requires t.Key() in d.open <==> t.Key() in d'.open
    requires t.Key() in d.open ==> d'.open[t.Key()] == d.open[t.Key()]
    ensures Stream(t', d') == Stream(t, d)
  {
  }

  lemma ResendKeeps(g: Get, now: nat, arrives: bool, s: Sys, s': Sys, k: nat, sure: bool)
    requires Inv(g, s, k, sure) && ResendStep(g, now, arrives, s, s')
    ensures Inv(g, s', k, sure)
  {
    hide Stream, InStep, A, D, Get.Wired, ServerRuns.Inv, BufOk, DataMsg, ClientData, Block, BlockCount;
    ServerStays(g, Timer(now), s.srv, s'.srv);
    if !s.failed && g.me in s.srv.ses {
      var t, t' := s.srv.ses[g.me], s'.srv.ses[g.me];
      assert t' == TimerSes(t, now);
      if Live(g, t, s.srv.ds, k) && !t'.disabled {
        OwnKeyStays(g.me, now, s.srv, s'.srv);
        StreamKept(t, t', s.srv.ds, s'.srv.ds);
      }
      if arrives && TimerSends(t, now) {
        ServingSends(g, t, s.srv.ds, k, sure, s.count == k && All(s.toS, A(g, k)));
        RepeatInStep(s.count == k, s.toC, s.toS, D(g, k - 1), D(g, k), A(g, k - 1), A(g, k), t.lastmsg);
      }
    }
  }

  lemma ElsewhereKeeps(g: Get, e: Event, s: Sys, s': Sys, k: nat, sure: bool)
    requires Inv(g, s, k, sure) && Step(g, Elsewhere(e), s, s')
    ensures Inv(g, s', k, sure)
  {
    hide Stream, InStep, A, D, Get.Wired, BufOk, DataMsg, Block, PacketStep;
    ServerStays(g, e, s.srv, s'.srv);
    if !s.failed && e.Packet? {
      if g.me in s.srv.ses {
        var t := s.srv.ses[g.me];
        Isolation(e.c, e.i, e.env, e.ok, s.srv, s'.srv, g.me);
        assert Content(s.srv.ds, g.Path()) == g.file == Content(s'.srv.ds, g.Path());
        if t.name == g.req.name {
          StreamKept(t, t, s.srv.ds, s'.srv.ds);
        }
      } else {
        NotMine(e, s.srv, s'.srv, g.me);
      }
    }
  }

  lemma StepKeeps(g: Get, a: Act, s: Sys, s': Sys, k: nat, sure: bool) returns (k': nat)
    requires Inv(g, s, k, sure) && Step(g, a, s, s')
    requires NothingLeft(g, a, s, s') && (Short(g) || NoForeignReply(g, a, s)) && (sure ==> MayRead(g, a))
    ensures Inv(g, s', k', sure)
  {
    hide Serving, InStep, D, Get.Wired, ServerOk, ClientGets, ServerStep, ResendStep, NoForeignReply, NothingLeft;
    hide ServerRuns.Step, Short, MayRead, ReqMsg, AckMsg, ErrMsg, BlockCount;
    k' := k;
    var d0, d1, a0, a1, caught := D(g, k - 1), D(g, k), A(g, k - 1), A(g, k), s.count == k;
    match a
    case Ask =>
      RepeatInStep(caught, s.toC, s.toS, d0, d1, a0, a1, ReqMsg(OP_RRQ, g.req));
      ServingMono(g, s.srv, k, sure, caught && All(s.toS, a1), caught && All(s'.toS, a1));
    case AckAgain =>
      RepeatInStep(caught, s.toC, s.toS, d0, d1, a0, a1, AckMsg(Wrap(s.count)));
      ServingMono(g, s.srv, k, sure, caught && All(s.toS, a1), caught && All(s'.toS, a1));
    case GiveUp(_, _) =>
    case LoseToClient(at) =>
      if !s.failed {
        LoseInStep(caught, s.toC, s.toS, d0, d1, a0, a1, at);
      }
    case LoseToServer(at) =>
      if !s.failed {
        LoseInStep(caught, s.toC, s.toS, d0, d1, a0, a1, at);
        AllRemove(s.toS, a1, at);
        ServingMono(g, s.srv, k, sure, caught && All(s.toS, a1), caught && All(s'.toS, a1));
      }
    case ClientTakes(keep) => ClientStep(g, s, k, sure, keep);
    case ServerTakes(keep, i, env, ok) => k' := ServerTakesKeeps(g, keep, i, env, ok, s, s', k, sure);
    case Resend(now, arrives) => ResendKeeps(g, now, arrives, s, s', k, sure);
    case Elsewhere(e) => ElsewhereKeeps(g, e, s, s', k, sure);
  }

  // ---- every run ----

  ghost predicate NothingLeftBehind(g: Get, tr: seq<Sys>, acts: seq<Act>)
    requires |tr| == |acts| + 1
  {
    forall j {:trigger acts[j]} :: 0 <= j < |acts| ==> NothingLeft(g, acts[j], tr[j], tr[j + 1])
  }

  ghost predicate NoForeignReplies(g: Get, tr: seq<Sys>, acts: seq<Act>)
    requires |tr| == |acts| + 1
  {
    forall j {:trigger acts[j]} :: 0 <= j < |acts| ==> NoForeignReply(g, acts[j], tr[j])
  }

  lemma {:induction false} RunKeeps(g: Get, tr: seq<Sys>, acts: seq<Act>, sure: bool) returns (k: nat)
    requires Run(g, tr, acts) && NothingLeftBehind(g, tr, acts) && (Short(g) || NoForeignReplies(g, tr, acts))
    requires sure ==> forall j {:trigger acts[j]} :: 0 <= j < |acts| ==> MayRead(g, acts[j])
    ensures Inv(g, tr[|acts|], k, sure)
  {
    hide Step, Inv, NoForeignReply, NothingLeft, MayRead, Short;
    var n := |acts| - 1;
    if n < 0 {
      InitInv(g, tr[0], sure);
      k := 0;
    } else {
      assert forall j :: 0 <= j < n ==> acts[..n][j] == acts[j];
      assert forall j :: 0 <= j <= n ==> tr[..n + 1][j] == tr[j];
      k := RunKeeps(g, tr[..n + 1], acts[..n], sure);
      assert Step(g, acts[n], tr[n], tr[n + 1]);
      k := StepKeeps(g, acts[n], tr[n], tr[n + 1], k, sure);
    }
  }

  lemma InitInv(g: Get, s: Sys, sure: bool)
    requires Init(g, s)
    ensures Inv(g, s, 0, sure)
  {
    hide ServerRuns.Inv, Sealed, BlockCount, D;
    AllPhase([], A(g, -1), A(g, 0));
    assert Blocks.Sent(g.Wired(), 0) == [];
    assert BlockCount(g.Wired()) > 0 by {
      BlockCountPositive(g.Wired());
    }
  }

  /** What a client may rely on */
  ghost predicate Delivered(g: Get, s: Sys)
  {
    var e := Wire(g.req.mode, g.file);
    && s.got == Take(e, BLOCK_SIZE * s.count) && s.got <= e
    && (s.done ==> s.got == e && s.count == |e| / BLOCK_SIZE + 1)
  }

  lemma InvDelivered(g: Get, s: Sys, k: nat, sure: bool)
    requires Inv(g, s, k, sure)
    ensures Delivered(g, s)
  {
    hide InStep, SessionOk, ServerOk;
    if s.done {
      BlockFacts(g.Wired(), s.count);
    }
  }

  /** GET end to end. Whatever the channels lose and repeat, whenever the timer runs, whatever other
      clients do and wherever the file system fails: the bytes that the client has accepted are the
      first blocks of the encoded file, and all of it once it has seen a short block. */
  lemma GetSafe(g: Get, tr: seq<Sys>, acts: seq<Act>)
    requires Run(g, tr, acts) && NothingLeftBehind(g, tr, acts) && NoForeignReplies(g, tr, acts)
    ensures Delivered(g, tr[|acts|])
  {
    var s := tr[|acts|];
    hide Run, NothingLeftBehind, NoForeignReplies;
    var k := RunKeeps(g, tr, acts, false);
    InvDelivered(g, s, k, false);
  }

  /** For a file of fewer than 65536 blocks it does not matter what the message buffer holds. */
  lemma GetSafeShort(g: Get, tr: seq<Sys>, acts: seq<Act>)
    requires Run(g, tr, acts) && NothingLeftBehind(g, tr, acts)
    requires |Wire(g.req.mode, g.file)| < 0xFFFF * 512
    ensures Delivered(g, tr[|acts|])
  {
    var s := tr[|acts|];
    hide Run, NothingLeftBehind, NoForeignReplies;
    var k := RunKeeps(g, tr, acts, false);
    InvDelivered(g, s, k, false);
  }

  /** The session after k blocks of the encoded file `e`, the last of which finishes it */
  ghost predicate Coherent(t: Ses, d: Ds, e: seq<byte>, k: nat)
  {
    && 1 <= k <= |e| / BLOCK_SIZE + 1 && t.blknum == Wrap(k)
    && t.lastmsg == DataMsg(Wrap(k), Take(e[BLOCK_SIZE * (k - 1)..], BLOCK_SIZE))
    && (t.fin <==> k == |e| / BLOCK_SIZE + 1)
    && (!t.fin ==> Stream(t, d) == e[BLOCK_SIZE * k..])
  }

  /** The session after a failed load: no message yet, or block k, which is not the last */
  ghost predicate Failed(t: Ses, e: seq<byte>, k: nat)
  {
    && t.fin
    && if t.lastmsg == [] then t.blknum == 1
       else
         && 1 <= k <= |e| / BLOCK_SIZE && t.blknum == Wrap(k + 1)
         && t.lastmsg == DataMsg(Wrap(k), e[BLOCK_SIZE * (k - 1)..BLOCK_SIZE * k])
  }

  /** Over every run, through every accept, duplicate and timer step and up to the last block: the block number
      of the session is the count of blocks built, wrapped; its last message is that block of the encoded
      file; what it has still to send is the rest; and the client has accepted as many blocks, or one
      fewer. Only a failed load is different, and there is none when every load is `sure` to succeed. */
  lemma GetCoherent(g: Get, tr: seq<Sys>, acts: seq<Act>, sure: bool) returns (k: nat)
    requires Run(g, tr, acts) && NothingLeftBehind(g, tr, acts) && (Short(g) || NoForeignReplies(g, tr, acts))
    requires sure ==> forall j {:trigger acts[j]} :: 0 <= j < |acts| ==> MayRead(g, acts[j])
    requires var s := tr[|acts|]; !s.failed && g.me in s.srv.ses && !s.srv.ses[g.me].disabled
    ensures var s, e := tr[|acts|], Wire(g.req.mode, g.file);
            && (s.count == k || s.count == k - 1)
            && (Coherent(s.srv.ses[g.me], s.srv.ds, e, k) || (!sure && Failed(s.srv.ses[g.me], e, k)))
  {
    hide Run, NothingLeftBehind, NoForeignReplies, Short, InStep, ServerOk, Stream, Block, BlockCount, DataMsg, D;
    k := RunKeeps(g, tr, acts, sure);
    BlockNumbers(g.Wired(), k);
  }

  lemma BlockNumbers(e: seq<byte>, k: nat)
    ensures BlockCount(e) == |e| / BLOCK_SIZE + 1
    ensures 1 <= k <= BlockCount(e) ==>
              BLOCK_SIZE * (k - 1) <= |e| && Block(e, k) == Take(e[BLOCK_SIZE * (k - 1)..], BLOCK_SIZE)
    ensures 1 <= k < BlockCount(e) ==>
              BLOCK_SIZE * k <= |e| && Block(e, k) == e[BLOCK_SIZE * (k - 1)..BLOCK_SIZE * k]
  {
  }
}
