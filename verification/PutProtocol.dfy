/** An upload, end to end: the whole server with all its other clients, one conforming client
    (sections 2, 4 and 6 of RFC 1350), and two first-in first-out channels between them that lose
    and duplicate packets. */
module PutProtocol {
  import opened Base
  import opened Netascii
  import opened Blocks
  import opened Packets
  import opened DatastoreSpec
  import opened SessionSpec
  import opened SessionTable
  import opened Server
  import opened ServerRuns
  import PutSpec
  import opened Channels

  /** The client, what it asks for, and the bytes that it uploads */
  datatype Put = Put(me: Client, req: Request, wire: seq<byte>)
  {
    function Path(): Path { PathOf(req.name) }

    /** What the file must hold in the end */
    function Plain(): seq<byte> { Unwire(req.mode, wire) }

    ghost predicate Ok() { 0 < |req.name| < FILENAME_MAX && 0 !in req.name }
  }

  /** `count` is the number of the block that the client has sent and waits to be acknowledged;
      0 stands for its request. */
  datatype Sys = Sys(srv: Srv, toC: seq<Msg>, toS: seq<Msg>, count: nat, done: bool, failed: bool)

  datatype Act =
    | SendAgain                            // the client sends its last message, the first time for the request
    | GiveUp(code: u16, text: seq<byte>)   // it sends an ERROR and stops
    | LoseToClient(at: nat)
    | LoseToServer(at: nat)
    | ClientTakes(keep: bool)              // `keep`: the channel delivers the packet once more
    | ServerTakes(keep: bool, i: Input, env: Env, ok: bool)
    | Resend(now: nat, arrives: bool)      // the timer
    | Elsewhere(e: Event)                  // another client, or the clean-up

  /** Message j of the client: the request, then DATA block j */
  function Message(g: Put, j: nat): Msg
  {
    if j == 0 then ReqMsg(OP_WRQ, g.req) else DataMsg(Wrap(j), Block(g.wire, j))
  }

  /** What the client reads in a packet: an ACK */
  function ClientAck(m: Msg): Option<u16> { if |m| != 4 || WordAt(m, 0) != OP_ACK then None else Some(WordAt(m, 2)) }

  /** The ACK of its last message takes the client on; any other one does not move it. */
  function ClientGets(g: Put, s: Sys, m: Msg): Sys
  {
    var ack := ClientAck(m);
    if s.failed || s.done then s
    else if ack.None? then if IsError(m) then s.(failed := true) else s
    else if ack.value != Wrap(s.count) then s
    else if s.count == BlockCount(g.wire) then s.(done := true)
    else s.(count := s.count + 1, toS := s.toS + [Message(g, s.count + 1)])
  }

  ghost predicate ServerStep(g: Put, keep: bool, i: Input, env: Env, ok: bool, s: Sys, s': Sys)
  {
    && s.toS != [] && InputOk(i) && i.buf[..i.len] == s.toS[0]
    && PacketStep(g.me, i, env, ok, s.srv, s'.srv)
    && s' == s.(srv := s'.srv, toS := AfterHead(s.toS, keep),
                toC := Post(s.toC, SessionSpec.Sent(Find(s'.srv.ses, g.me), s'.srv.msg, ok)))
  }

  ghost predicate ResendStep(g: Put, now: nat, arrives: bool, s: Sys, s': Sys)
  {
    && TimerStep(now, s.srv, s'.srv)
    && s' == s.(srv := s'.srv,
                toC := if arrives && g.me in s.srv.ses && TimerSends(s.srv.ses[g.me], now)
                       then s.toC + [s.srv.ses[g.me].lastmsg] else s.toC)
  }

  ghost predicate Step(g: Put, a: Act, s: Sys, s': Sys)
  {
    match a
    case SendAgain => !s.failed && !s.done && s' == s.(toS := s.toS + [Message(g, s.count)])
    case GiveUp(code, text) => s' == s.(failed := true, toS := s.toS + [ErrMsg(code, text)])
    case LoseToClient(at) => at < |s.toC| && s' == s.(toC := RemoveAt(s.toC, at))
    case LoseToServer(at) => at < |s.toS| && s' == s.(toS := RemoveAt(s.toS, at))
    case ClientTakes(keep) => s.toC != [] && s' == ClientGets(g, s.(toC := AfterHead(s.toC, keep)), s.toC[0])
    case ServerTakes(keep, i, env, ok) => ServerStep(g, keep, i, env, ok, s, s')
    case Resend(now, arrives) => ResendStep(g, now, arrives, s, s')
    case Elsewhere(e) =>
      && (e.Packet? ==> e.c != g.me) && !e.Timer?
      && ServerRuns.Step(e, s.srv, s'.srv) && s' == s.(srv := s'.srv)
  }

  ghost predicate Init(g: Put, s: Sys)
  {
    && g.Ok() && ServerRuns.Inv(s.srv) && g.me !in s.srv.ses
    && s == Sys(s.srv, [], [], 0, false, false)
  }

  ghost predicate Run(g: Put, tr: seq<Sys>, acts: seq<Act>)
  {
    && |tr| == |acts| + 1 && Init(g, tr[0])
    && forall j {:trigger acts[j]} :: 0 <= j < |acts| ==> Step(g, acts[j], tr[j], tr[j + 1])
  }

  /** The file is there, or it may be created, or the block `p` does not need it. */
  ghost predicate MayHave(g: Put, t: Ses, d: Ds, env: Env, p: seq<byte>)
  {
    || g.Path() in d.files || env.canOpen(g.Path())
    || !AsksFlush(t.(fin := t.fin || |p| < BLOCK_SIZE), p)
  }

  ghost predicate MayTake(g: Put, t: Ses, d: Ds, env: Env, i: Input)
    requires InputOk(i)
  {
    var data := ParseData(i.buf, i.len);
    Opcode(i.buf) == OP_DATA && data.Some? && data.value.blk == Next(t.blknum) ==>
      MayHave(g, t, d, env, data.value.payload)
  }

  /** When the next block asks for a flush while there is no file, the server may create it. Nothing is
      said about the disk being full, nor about other files. */
  ghost predicate MayCreate(g: Put, a: Act, s: Sys)
  {
    a.ServerTakes? && InputOk(a.i) && g.me in s.srv.ses ==> MayTake(g, s.srv.ses[g.me], s.srv.ds, a.env, a.i)
  }

  ghost predicate MayAlwaysCreate(g: Put, tr: seq<Sys>, acts: seq<Act>)
    requires |tr| == |acts| + 1
  {
    forall j {:trigger acts[j]} :: 0 <= j < |acts| ==> MayCreate(g, acts[j], tr[j])
  }

  // ---- the messages ----

  /** Answer k of the server: ACK k-1. What is no ACK at all does not move the client. */
  ghost function D(g: Put, k: int): iset<Msg>
  {
    iset m: Msg | ClientAck(m).None? || (1 <= k <= BlockCount(g.wire) + 1 && m == AckMsg(Wrap(k - 1)))
  }

  /** Message k of the client, or its ERROR */
  ghost function A(g: Put, k: int): iset<Msg>
  {
    iset m: Msg | IsError(m) || (0 <= k <= BlockCount(g.wire) && m == Message(g, k))
  }

  lemma AckParsed(blk: u16)
    ensures ClientAck(AckMsg(blk)) == Some(blk)
  {
  }

  lemma ErrReplyNoAck(code: u16, text: seq<byte>)
    ensures ClientAck(ErrReply(code, text)).None?
  {
  }

  /** What the server reads in message `j` */
  ghost predicate ReadsAs(g: Put, i: Input, j: nat)
    requires InputOk(i)
  {
    if j == 0 then Opcode(i.buf) == OP_WRQ && ParseReq(i.buf, i.len) == Some(g.req)
    else Opcode(i.buf) == OP_DATA && ParseData(i.buf, i.len) == Some(Data(Wrap(j), Block(g.wire, j)))
  }

  lemma ClientMessage(g: Put, i: Input, j: nat)
    requires g.Ok() && InputOk(i) && i.buf[..i.len] == Message(g, j)
    ensures ReadsAs(g, i, j)
  {
    if j == 0 {
      var m := ReqMsg(OP_WRQ, g.req);
      assert m <= i.buf;
      ParseReqIff(i.buf, i.len, g.req);
      assert i.buf[0..2] == m[0..2] == Word(OP_WRQ);
      WordFacts(i.buf, 0, OP_WRQ);
    } else {
      ParseDataIff(i.buf, i.len, Data(Wrap(j), Block(g.wire, j)));
    }
  }

  lemma ErrorRead(i: Input, m: Msg)
    requires InputOk(i) && i.buf[..i.len] == m && IsError(m)
    ensures Opcode(i.buf) == OP_ERROR
  {
  }

  // ---- the session ----

  /** Blocks 1..k-1 are stored or buffered, each once and in order; only whole buffers are stored. */
  ghost predicate Storing(g: Put, t: Ses, d: Ds, k: nat)
  {
    && !t.fin && 1 <= k <= BlockCount(g.wire) && t.blknum == Wrap(k - 1)
    && Owned(t, d) + t.buf == Unwire(g.req.mode, Blocks.Sent(g.wire, k - 1))
    && |Owned(t, d)| % SESSION_BUFSIZE == 0
  }

  /** The session cannot write its file any more, and does not acknowledge block k. */
  ghost predicate Stuck(g: Put, t: Ses, d: Ds, k: nat)
  {
    && 1 <= k <= BlockCount(g.wire) && t.blknum == Wrap(k - 1)
    && t.Key() !in d.open && t.Path() in d.files
    && (t.disabled || (t.fin && (Block(g.wire, k) != [] || t.buf != [])))
  }

  /** Every block has been stored and acknowledged. */
  ghost predicate Complete(g: Put, t: Ses, d: Ds, k: nat)
  {
    k == BlockCount(g.wire) + 1 && t.blknum == Wrap(k - 1) && t.fin && t.Key() !in d.open
  }

  /** A disabled session has taken block k; nothing but that block will come again. */
  ghost predicate Spent(g: Put, t: Ses, k: nat)
  {
    t.disabled && 1 <= k <= BlockCount(g.wire) && t.blknum == Wrap(k)
  }

  /** A session that has ended has accepted k-1 blocks. */
  ghost predicate Over(g: Put, t: Ses, k: nat)
  {
    (t.fin || t.disabled) && 1 <= k <= BlockCount(g.wire) + 1 && t.blknum == Wrap(k - 1)
  }

  /** `sure`: the server may create the file as long as there is none. If it may not, a refused block may be
      stored after all, and nothing is said about the file of a session that has ended. */
  ghost predicate Serving(g: Put, t: Ses, d: Ds, k: nat, only: bool, sure: bool)
  {
    && k > 0 && t.dir == SessionSpec.Put && t.mode == g.req.mode && t.name == g.req.name
    && (!t.disabled ==> t.lastmsg == AckMsg(Wrap(k - 1)))
    && (|| Storing(g, t, d, k)
        || (if sure then Stuck(g, t, d, k) || Complete(g, t, d, k) else Over(g, t, k))
        || (only && Spent(g, t, k)))
  }

  lemma SentBlock(g: Put, k: nat)
    requires 1 <= k <= BlockCount(g.wire)
    ensures var m := g.req.mode;
            && Unwire(m, Blocks.Sent(g.wire, k)) == Unwire(m, Blocks.Sent(g.wire, k - 1)) + Unwire(m, Block(g.wire, k))
            && Unwire(m, Blocks.Sent(g.wire, k)) <= g.Plain()
            && (k == BlockCount(g.wire) ==> Unwire(m, Blocks.Sent(g.wire, k)) == g.Plain())
            && (|Block(g.wire, k)| < BLOCK_SIZE <==> k == BlockCount(g.wire))
  {
    var a := Blocks.Sent(g.wire, k);
    BlockFacts(g.wire, k);
    UnwireConcat(g.req.mode, Blocks.Sent(g.wire, k - 1), Block(g.wire, k));
    assert g.wire == a + g.wire[|a|..];
    UnwireConcat(g.req.mode, a, g.wire[|a|..]);
  }

  /** Closing what a session has open, because it has been disabled */
  lemma Disables(g: Put, t: Ses, d: Ds, t': Ses, k: nat, only: bool, sure: bool)
    requires Serving(g, t, d, k, only, sure) && DsInv(d)
    requires t' == t.(disabled := true, retry := t'.retry, lastsending := t'.lastsending)
    ensures Serving(g, t', CloseData(t, d), k, only, sure)
  {
  }

  lemma Repeats(g: Put, t: Ses, d: Ds, msg: Msg, now: nat, t': Ses, d': Ds, msg': Msg, k: nat, only: bool, sure: bool)
    requires Serving(g, t, d, k, only, sure) && DsInv(d) && Resent(t, d, msg, now, t', d', msg')
    requires k <= BlockCount(g.wire) + 1
    ensures Serving(g, t', d', k, only, sure) && (!t'.disabled ==> msg' in D(g, k))
    ensures d'.files == d.files
  {
    if t.retry < RESEND_COUNTMAX {
    } else {
      Disables(g, t, d, t', k, only, sure);
    }
  }

  /** What the file may have become */
  ghost predicate FileGrew(g: Put, t: Ses, d: Ds, d': Ds)
  {
    && (t.Key() !in d.open && t.Path() in d.files ==> d' == d)
    && (t.Key() in d.open || t.Path() !in d.files ==> Content(d', t.Path()) <= g.Plain())
  }

  /** The file is complete, and it is the session's own. */
  ghost predicate Filed(g: Put, t: Ses, d: Ds, d': Ds)
  {
    g.Plain() == [] || (&& g.Path() in d'.files && Content(d', g.Path()) == g.Plain()
                        && (t.Key() in d.open || t.Path() !in d.files))
  }

  /** Block k is acknowledged: stored or buffered, the last one stored and the file complete. */
  lemma BlockAcked(g: Put, t: Ses, d: Ds, env: Env, now: nat, t': Ses, d': Ds, msg': Msg, k: nat)
    requires Storing(g, t, d, k) && t.Path() == g.Path() && t.mode == g.req.mode && t.dir == SessionSpec.Put
    requires Accepted(t, d, env, Wrap(k), Block(g.wire, k), now, t', d', msg') && msg' == AckMsg(Wrap(k))
    requires SesOk(t, d) && DsInv(d)
    ensures FileGrew(g, t, d, d') && t'.blknum == Wrap(k) && t'.lastmsg == msg'
    ensures k < BlockCount(g.wire) ==> Storing(g, t', d', k + 1)
    ensures k == BlockCount(g.wire) ==> Complete(g, t', d', k + 1) && Filed(g, t, d, d')
  {
    hide Storable, Refused, OnlyTouches, Unwire, Put.Plain, Blocks.Sent, Block, BlockCount, AckMsg, ErrReply, DsInv;
    var p := Block(g.wire, k);
    SentBlock(g, k);
    var s1 := t.(fin := t.fin || |p| < BLOCK_SIZE);
    assert Received(s1, d, p) == Unwire(g.req.mode, Blocks.Sent(g.wire, k));
    assert Owned(t, d) + t.buf <= Unwire(g.req.mode, Blocks.Sent(g.wire, k));
    OpenExists(t, d);
    if t.buf == [] && p == [] {
      PutSpec.UnwireNothing(g.req.mode);
      assert Received(s1, d, p) == Owned(t, d);
    }
  }

  lemma OpenExists(t: Ses, d: Ds)
    requires DsInv(d)
    ensures t.Key() in d.open ==> t.Path() in d.files
  {
  }

  lemma RefusedAsks(s: Ses, d: Ds, env: Env, p: seq<byte>)
    requires !Storable(s, d, env, p)
    ensures AsksFlush(s, p)
  {
  }

  /** Block k is refused: an ERROR is sent, and the session stays stuck. */
  lemma BlockRefused(g: Put, t: Ses, d: Ds, env: Env, now: nat, t': Ses, d': Ds, msg': Msg, k: nat)
    requires Storing(g, t, d, k) || Stuck(g, t, d, k)
    requires t.Path() == g.Path() && t.mode == g.req.mode && t.dir == SessionSpec.Put
    requires Accepted(t, d, env, Wrap(k), Block(g.wire, k), now, t', d', msg') && msg' != AckMsg(Wrap(k))
    requires SesOk(t, d) && DsInv(d) && MayHave(g, t, d, env, Block(g.wire, k))
    ensures FileGrew(g, t, d, d') && Stuck(g, t', d', k) && t'.lastmsg == t.lastmsg && t'.disabled == t.disabled
    ensures msg' == ErrReply(ERR_ACCESSDENY, [])
  {
    hide Storable, AsksFlush, Stored, Finished, OnlyTouches, Unwire, Put.Plain, Blocks.Sent, Block, BlockCount;
    hide AckMsg, ErrReply, DsInv;
    var p := Block(g.wire, k);
    SentBlock(g, k);
    var s1 := t.(fin := t.fin || |p| < BLOCK_SIZE);
    RefusedAsks(s1, d, env, p);
    if Storing(g, t, d, k) {
      assert Received(s1, d, p) == Unwire(g.req.mode, Blocks.Sent(g.wire, k));
    }
  }

  /** A stuck session acknowledges block k only if it is disabled, and stores nothing. */
  lemma StuckAcks(g: Put, t: Ses, d: Ds, env: Env, now: nat, t': Ses, d': Ds, msg': Msg, k: nat)
    requires Stuck(g, t, d, k) && SesOk(t, d)
    requires Accepted(t, d, env, Wrap(k), Block(g.wire, k), now, t', d', msg') && msg' == AckMsg(Wrap(k))
    ensures t.disabled && t'.disabled && t'.blknum == Wrap(k) && d' == d
  {
  }

  /** What the session answers to message `j`, when the server has sent k different answers */
  ghost predicate Outcome(g: Put, post: Option<Ses>, d: Ds, reply: Option<Msg>, k: nat, only: bool, sure: bool)
  {
    (post.Some? ==> Serving(g, post.value, d, k, only, sure)) && (reply.Some? ==> reply.value in D(g, k))
  }

  lemma BlockTaken(g: Put, t: Ses, d: Ds, env: Env, now: nat, t': Ses, d': Ds, msg': Msg, k: nat)
    requires Storing(g, t, d, k) || Stuck(g, t, d, k)
    requires Serving(g, t, d, k, true, true) && SesOk(t, d) && DsInv(d) && MayHave(g, t, d, env, Block(g.wire, k))
    requires Accepted(t, d, env, Wrap(k), Block(g.wire, k), now, t', d', msg')
    ensures FileGrew(g, t, d, d') && t'.disabled == t.disabled
    ensures var reply := SessionSpec.Sent(Some(t'), msg', true);
            || Outcome(g, Some(t'), d', reply, k, true, true)
            || (Outcome(g, Some(t'), d', reply, k + 1, false, true) && (k == BlockCount(g.wire) ==> Filed(g, t, d, d')))
  {
    AcceptedFacts(t, d, env, Wrap(k), Block(g.wire, k), now, t', d', msg');
    hide Accepted, Storing, Complete, Owned, Put.Plain, AckMsg, ClientAck, ErrReply, DsInv, SesOk, Effect;
    AckParsed(Wrap(k));
    ErrReplyNoAck(ERR_ACCESSDENY, []);
    if msg' != AckMsg(Wrap(k)) {
      BlockRefused(g, t, d, env, now, t', d', msg', k);
    } else if Storing(g, t, d, k) {
      BlockAcked(g, t, d, env, now, t', d', msg', k);
    } else {
      StuckAcks(g, t, d, env, now, t', d', msg', k);
    }
  }

  /** Without the permission the numbers still move on by one, or the transfer has ended. */
  lemma BlockCounted(g: Put, t: Ses, d: Ds, env: Env, now: nat, t': Ses, d': Ds, msg': Msg, k: nat)
    requires Storing(g, t, d, k) || (Over(g, t, k) && k <= BlockCount(g.wire))
    requires Serving(g, t, d, k, true, false) && SesOk(t, d) && DsInv(d)
    requires Accepted(t, d, env, Wrap(k), Block(g.wire, k), now, t', d', msg')
    ensures var reply := SessionSpec.Sent(Some(t'), msg', true);
            Outcome(g, Some(t'), d', reply, k, true, false) || Outcome(g, Some(t'), d', reply, k + 1, false, false)
  {
    hide Accepted, Storing, Owned, Put.Plain, AckMsg, ClientAck, ErrReply, DsInv, SesOk, Effect, Complete, Filed, FileGrew;
    hide BlockCount, Block;
    AcceptedFacts(t, d, env, Wrap(k), Block(g.wire, k), now, t', d', msg');
    AckParsed(Wrap(k));
    ErrReplyNoAck(ERR_ACCESSDENY, []);
    AcceptedShape(t, d, env, Wrap(k), Block(g.wire, k), now, t', d', msg');
    StoringOpen(g, t, d, k);
    BlockCountPositive(g.wire);
    if msg' == AckMsg(Wrap(k)) && Storing(g, t, d, k) {
      BlockAcked(g, t, d, env, now, t', d', msg', k);
      LastShort(g, k);
    }
  }

  lemma LastShort(g: Put, k: nat)
    requires 1 <= k <= BlockCount(g.wire)
    ensures |Block(g.wire, k)| < BLOCK_SIZE <==> k == BlockCount(g.wire)
  {
    BlockFacts(g.wire, k);
  }

  lemma StoringOpen(g: Put, t: Ses, d: Ds, k: nat)
    ensures Storing(g, t, d, k) ==> !t.fin && 1 <= k <= BlockCount(g.wire) && t.blknum == Wrap(k - 1)
  {
  }

  lemma AcceptedShape(t: Ses, d: Ds, env: Env, blk: u16, p: seq<byte>, now: nat, t': Ses, d': Ds, msg': Msg)
    requires Accepted(t, d, env, blk, p, now, t', d', msg')
    ensures msg' == AckMsg(blk) || msg' == ErrReply(ERR_ACCESSDENY, [])
    ensures t'.lastmsg == (if msg' == AckMsg(blk) then msg' else t.lastmsg)
    ensures t'.fin == (t.fin || |p| < BLOCK_SIZE || msg' != AckMsg(blk))
  {
    hide Refused, Finished, Stored, Storable;
  }

  /** A DATA block that is neither the next one nor the last one again: the code ends the transfer. */
  ghost predicate InvalidBlock(t: Ses, i: Input)
    requires InputOk(i)
  {
    Opcode(i.buf) == OP_DATA &&
    var data := ParseData(i.buf, i.len);
    data.None? || (data.value.blk != t.blknum && data.value.blk != Next(t.blknum))
  }

  /** Once every block has been acknowledged, the files stay as they are. */
  ghost predicate Settled(g: Put, d: Ds, d': Ds, k: nat, sure: bool)
  {
    sure && k > BlockCount(g.wire) ==> d'.files == d.files
  }

  /** Only block k takes the session further, and no message of the client is invalid. */
  lemma SessionReplies(g: Put, t: Ses, d: Ds, env: Env, msg: Msg, i: Input, t': Ses, d': Ds, msg': Msg, ok: bool,
                       k: nat, j: nat, sure: bool)
    requires InputOk(i) && ReadsAs(g, i, j) && (j == k || j == k - 1) && j <= BlockCount(g.wire)
    requires k <= BlockCount(g.wire) + 1
    requires Handled(Some(t), d, env, msg, i, Some(t'), d', msg', ok)
    requires Serving(g, t, d, k, j == k, sure) && SesOk(t, d) && DsInv(d)
    requires sure ==> MayTake(g, t, d, env, i)
    ensures !InvalidBlock(t, i)
    ensures sure ==> FileGrew(g, t, d, d') || d'.files == d.files
    ensures sure && t.Key() !in d.open && t.Path() in d.files ==> d'.files == d.files
    ensures var reply := SessionSpec.Sent(Some(t'), msg', ok);
            || (Outcome(g, Some(t'), d', reply, k, j == k, sure) && Settled(g, d, d', k, sure))
            || (&& j == k <= BlockCount(g.wire) && Outcome(g, Some(t'), d', reply, k + 1, false, sure)
                && (sure && k == BlockCount(g.wire) ==> Filed(g, t, d, d')))
  {
    hide Accepted, Resent, Owned, Put.Plain, AckMsg, ClientAck, ErrReply, DsInv, SesOk, BlockCount;
    hide Block, Unwire, Blocks.Sent, ParseReq, ParseData, Requested;
    if Duplicate(t, i) {
      DuplicateResent(t, d, env, msg, i, Some(t'), d', msg', ok);
      Repeats(g, t, d, msg, i.now, t', d', msg', k, j == k, sure);
    } else {
      NextWrap(k - 1);
      if sure {
        BlockTaken(g, t, d, env, i.now, t', d', msg', k);
      } else {
        BlockCounted(g, t, d, env, i.now, t', d', msg', k);
      }
    }
  }

  /** The ERROR of the client */
  lemma ErrorStops(g: Put, t: Ses, d: Ds, env: Env, msg: Msg, i: Input, t': Ses, d': Ds, msg': Msg, ok: bool,
                   k: nat, only: bool, sure: bool)
    requires InputOk(i) && Opcode(i.buf) == OP_ERROR && Handled(Some(t), d, env, msg, i, Some(t'), d', msg', ok)
    requires Serving(g, t, d, k, only, sure) && DsInv(d)
    ensures d'.files == d.files && Outcome(g, Some(t'), d', SessionSpec.Sent(Some(t'), msg', ok), k, only, sure)
  {
  }

  /** A client without a session: the request starts the transfer unless the file exists; a block
      meets an ERROR. */
  lemma StrangerReplies(g: Put, d: Ds, env: Env, msg: Msg, i: Input, post: Option<Ses>, d': Ds, msg': Msg, ok: bool,
                        k: nat, j: nat, sure: bool)
    requires InputOk(i) && (ReadsAs(g, i, j) || Opcode(i.buf) == OP_ERROR) && (j == k || j == k - 1)
    requires Handled(None, d, env, msg, i, post, d', msg', ok) && DsInv(d)
    ensures d' == d && (post.Some? ==> g.Path() !in d.files)
    ensures var reply := SessionSpec.Sent(post, msg', ok);
            Outcome(g, post, d', reply, k, false, sure) || (j == k == 0 && Outcome(g, post, d', reply, 1, false, sure))
  {
    hide ParseReq, ParseData, ClientAck, ErrReply, DsInv;
    ErrReplyNoAck(ERR_UNKNOWNID, []);
    ErrReplyNoAck(ERR_FILEEXIST, []);
    if Opcode(i.buf) != OP_ERROR && j == 0 && post.Some? {
      FirstSession(g, d, i, sure);
    }
  }

  lemma FirstSession(g: Put, d: Ds, i: Input, sure: bool)
    requires g.Path() !in d.files && DsInv(d)
    ensures Serving(g, NewSes(OP_WRQ, g.req, i.sock).(lastmsg := AckMsg(0), lastsending := i.now), d, 1, false, sure)
    ensures AckMsg(0) in D(g, 1)
  {
  }

  // ---- the invariant ----

  /** The file: of `foreign` origin and not this session's; or a prefix of the upload that nobody else
      can write. Once every block has been acknowledged, it is complete. */
  ghost predicate FileOk(g: Put, s: Srv, k: nat, foreign: bool)
  {
    && (foreign ==> g.Path() in s.ds.files && (g.me in s.ses ==> s.ses[g.me].Key() !in s.ds.open))
    && (!foreign ==> Content(s.ds, g.Path()) <= g.Plain() && (g.Path() in s.ds.files ==> Quiet(s, g.Path(), g.me)))
    && (k > BlockCount(g.wire) ==>
          g.Plain() == [] || (!foreign && g.Path() in s.ds.files && Content(s.ds, g.Path()) == g.Plain()))
  }

  ghost predicate ClientOk(g: Put, s: Sys, k: nat)
  {
    && (s.count == k || s.count == k - 1) && s.count <= BlockCount(g.wire) && k <= BlockCount(g.wire) + 1
    && (s.done ==> k == BlockCount(g.wire) + 1)
  }

  ghost predicate SessionOk(g: Put, s: Srv, k: nat, only: bool, sure: bool)
  {
    g.me in s.ses ==> Serving(g, s.ses[g.me], s.ds, k, only, sure)
  }

  /** The server has sent k different answers, and the client has sent message k-1 or k. */
  ghost predicate Inv(g: Put, s: Sys, k: nat, foreign: bool, sure: bool)
  {
    && g.Ok() && ServerRuns.Inv(s.srv) && ClientOk(g, s, k) && (sure ==> FileOk(g, s.srv, k, foreign))
    && InStep(s.count == k, s.toC, s.toS, D(g, k - 1), D(g, k), A(g, k - 1), A(g, k))
    && SessionOk(g, s.srv, k, s.count == k && All(s.toS, A(g, k)), sure)
  }

  lemma ServingMono(g: Put, s: Srv, k: nat, was: bool, only: bool, sure: bool)
    requires SessionOk(g, s, k, was, sure) && (was ==> only)
    ensures SessionOk(g, s, k, only, sure)
  {
  }

  // ---- the client ----

  /** The number of the ACK that is first in the channel */
  lemma FirstAck(g: Put, s: Sys, k: nat, f: bool, keep: bool, sure: bool) returns (j: int)
    requires Inv(g, s, k, f, sure) && s.toC != [] && ClientAck(s.toC[0]).Some?
    ensures j >= 0 && ClientAck(s.toC[0]) == Some(Wrap(j))
    ensures j == s.count - 1 || (j == s.count == k - 1 && All(AfterHead(s.toC, keep), D(g, k)))
  {
    hide ServerRuns.Inv, SessionOk, InStep, ClientAck, FileOk, AckMsg;
    var m := s.toC[0];
    HeadInStep(s.count == k, s.toC, s.toS, D(g, k - 1), D(g, k), A(g, k - 1), A(g, k), keep);
    j := if s.count == k - 1 && m !in D(g, k - 1) then k - 1 else s.count - 1;
    assert m == AckMsg(Wrap(j));
    AckParsed(Wrap(j));
  }

  lemma ClientStep(g: Put, s: Sys, k: nat, f: bool, keep: bool, sure: bool)
    requires Inv(g, s, k, f, sure) && s.toC != []
    ensures Inv(g, ClientGets(g, s.(toC := AfterHead(s.toC, keep)), s.toC[0]), k, f, sure)
  {
    hide ServerRuns.Inv, SessionOk, InStep, ClientAck, FileOk, D, A, Message;
    var m, toC := s.toC[0], AfterHead(s.toC, keep);
    HeadInStep(s.count == k, s.toC, s.toS, D(g, k - 1), D(g, k), A(g, k - 1), A(g, k), keep);
    var s' := ClientGets(g, s.(toC := toC), m);
    if ClientAck(m).Some? {
      var j := FirstAck(g, s, k, f, keep, sure);
      if j == s.count {
        if s'.count == k {
          MessageOf(g, k);
          CatchUp(toC, s.toS, D(g, k - 1), D(g, k), A(g, k - 1), A(g, k), Message(g, k));
          ServingMono(g, s.srv, k, false, All(s'.toS, A(g, k)), sure);
        }
      } else {
        WrapDiffers(j);
      }
    }
  }

  lemma MessageOf(g: Put, k: nat)
    ensures k <= BlockCount(g.wire) ==> Message(g, k) in A(g, k)
  {
  }

  // ---- the server ----

  /** The file after a packet of this client */
  ghost predicate FileMoved(g: Put, s: Srv, d': Ds)
  {
    || d'.files == s.ds.files
    || (Content(d', g.Path()) <= g.Plain()
        && (g.Path() in s.ds.files ==> g.me in s.ses && s.ses[g.me].Key() in s.ds.open))
  }

  ghost predicate Completed(g: Put, s: Srv, d': Ds)
  {
    g.Plain() == [] || (g.Path() in d'.files && Content(d', g.Path()) == g.Plain()
                        && (g.Path() in s.ds.files ==> g.me in s.ses && s.ses[g.me].Key() in s.ds.open))
  }

  lemma PacketOutcome(g: Put, i: Input, env: Env, ok: bool, s: Srv, s': Srv, k: nat, j: nat, sure: bool)
    requires ServerRuns.Inv(s) && PacketStep(g.me, i, env, ok, s, s')
    requires ReadsAs(g, i, j) && (j == k || j == k - 1) && j <= BlockCount(g.wire) && k <= BlockCount(g.wire) + 1
    requires SessionOk(g, s, k, j == k, sure) && (sure && g.me in s.ses ==> MayTake(g, s.ses[g.me], s.ds, env, i))
    ensures g.me in s.ses ==> !InvalidBlock(s.ses[g.me], i)
    ensures sure ==> FileMoved(g, s, s'.ds)
    ensures (g.me !in s.ses && g.me in s'.ses ==> g.Path() !in s.ds.files)
    ensures var post := Find(s'.ses, g.me);
            var reply := SessionSpec.Sent(post, s'.msg, ok);
            || (Outcome(g, post, s'.ds, reply, k, j == k, sure) && Settled(g, s.ds, s'.ds, k, sure))
            || (j == k <= BlockCount(g.wire) && Outcome(g, post, s'.ds, reply, k + 1, false, sure)
                && (sure && k == BlockCount(g.wire) ==> Completed(g, s, s'.ds)))
  {
    hide Handled, Serving, Outcome, InvalidBlock, ReadsAs, SesOk, DsInv, Effect, BlockCount, Put.Plain;
    var post := Find(s'.ses, g.me);
    InvDs(s);
    if g.me in s.ses {
      var t := s.ses[g.me];
      assert SesOk(t, s.ds);
      assert Conforming(Find(s.ses, g.me), i);
      KnownHandled(t, s.ds, env, s.msg, i, post, s'.ds, s'.msg, ok);
      ServingPath(g, t, s.ds, k, j == k, sure);
      SessionReplies(g, t, s.ds, env, s.msg, i, post.value, s'.ds, s'.msg, ok, k, j, sure);
    } else {
      StrangerReplies(g, s.ds, env, s.msg, i, post, s'.ds, s'.msg, ok, k, j, sure);
      OutcomeMono(g, post, s'.ds, SessionSpec.Sent(post, s'.msg, ok), k, j == k, sure);
      BlockCountPositive(g.wire);
    }
  }

  lemma ServingPath(g: Put, t: Ses, d: Ds, k: nat, only: bool, sure: bool)
    requires Serving(g, t, d, k, only, sure)
    ensures t.Path() == g.Path() && t.dir == SessionSpec.Put
  {
  }

  lemma OutcomeMono(g: Put, post: Option<Ses>, d: Ds, reply: Option<Msg>, k: nat, only: bool, sure: bool)
    ensures Outcome(g, post, d, reply, k, false, sure) ==> Outcome(g, post, d, reply, k, only, sure)
  {
  }

  lemma ErrorOutcome(g: Put, i: Input, env: Env, ok: bool, s: Srv, s': Srv, k: nat, only: bool, sure: bool)
    requires ServerRuns.Inv(s) && PacketStep(g.me, i, env, ok, s, s') && Opcode(i.buf) == OP_ERROR
    requires SessionOk(g, s, k, only, sure)
    ensures s'.ds.files == s.ds.files && (g.me in s'.ses ==> g.me in s.ses)
    ensures var post := Find(s'.ses, g.me); Outcome(g, post, s'.ds, SessionSpec.Sent(post, s'.msg, ok), k, only, sure)
  {
    hide Serving, SesOk, DsInv;
    var post := Find(s'.ses, g.me);
    InvDs(s);
    if g.me in s.ses {
      ErrorStops(g, s.ses[g.me], s.ds, env, s.msg, i, post.value, s'.ds, s'.msg, ok, k, only, sure);
    }
  }

  /** The file is still as it should be. */
  lemma FileAfter(g: Put, i: Input, env: Env, ok: bool, s: Srv, s': Srv, k: nat, k': nat, f: bool, only: bool)
    requires ServerRuns.Inv(s) && PacketStep(g.me, i, env, ok, s, s') && FileOk(g, s, k, f)
    requires SessionOk(g, s, k, only, true) && SessionOk(g, s', k', true, true)
    requires FileMoved(g, s, s'.ds)
    requires k' == k || (k' == k + 1 && k <= BlockCount(g.wire))
    requires k > BlockCount(g.wire) ==> s'.ds.files == s.ds.files
    requires k' > k && k' > BlockCount(g.wire) ==> Completed(g, s, s'.ds)
    requires g.me !in s.ses && g.me in s'.ses ==> g.Path() !in s.ds.files
    ensures FileOk(g, s', k', f)
  {
    hide Handled, Serving, SesOk, DsInv, Effect, BlockCount, Put.Plain;
    var key := PacketTouchesOne(g.me, i, env, ok, s, s');
    if !f {
      QuietOwn(g.me, i, env, ok, s, s', g.Path(), key);
    } else if g.me in s.ses {
      ServingPath(g, s.ses[g.me], s.ds, k, only, true);
      OwnKeyClosed(s, s', g.me, key);
    }
    assert Content(s.ds, g.Path()) == if g.Path() in s.ds.files then s.ds.files[g.Path()] else [];
  }

  lemma MessageDiffers(g: Put, k: nat)
    ensures Message(g, k + 1) != Message(g, k)
  {
    var a, b := Message(g, k + 1), Message(g, k);
    assert a[0..2] == Word(OP_DATA) && a[2..4] == Word(Wrap(k + 1));
    if k == 0 {
      assert b[0..2] == Word(OP_WRQ);
    } else {
      assert b[2..4] == Word(Wrap(k));
      WordFacts(a, 2, Wrap(k));
      WordFacts(a, 2, Wrap(k + 1));
    }
  }

  /** The first message in the channel: which one it is, and, if it is the latest, that only it can
      follow. */
  lemma FirstMessage(g: Put, s: Sys, k: nat, f: bool, keep: bool, sure: bool) returns (j: nat)
    requires Inv(g, s, k, f, sure) && s.toS != [] && !IsError(s.toS[0])
    ensures (j == k || j == k - 1) && j <= BlockCount(g.wire) && s.toS[0] == Message(g, j)
    ensures j == k ==> s.count == k && All(AfterHead(s.toS, keep), A(g, k))
    ensures j != k ==> !All(s.toS, A(g, k))
  {
    hide ServerRuns.Inv, FileOk, SessionOk, InStep, Message;
    HeadInStep(s.count == k, s.toC, s.toS, D(g, k - 1), D(g, k), A(g, k - 1), A(g, k), keep);
    if k > 0 {
      MessageDiffers(g, k - 1);
    }
    j := if k > 0 && s.toS[0] == Message(g, k - 1) then k - 1 else k;
    assert s.toS[0] in s.toS;
  }

  /** The ERROR of the client leaves everything but its session as it is. */
  lemma TakesError(g: Put, keep: bool, i: Input, env: Env, ok: bool, s: Sys, s': Sys, k: nat, f: bool, sure: bool)
    requires Inv(g, s, k, f, sure) && ServerStep(g, keep, i, env, ok, s, s') && IsError(s.toS[0])
    ensures Inv(g, s', k, f, sure)
  {
    hide PacketStep, InStep, FileOk, D, A, ServerRuns.Inv, Serving, BlockCount, Put.Plain;
    var post, toS, caught := Find(s'.srv.ses, g.me), AfterHead(s.toS, keep), s.count == k;
    var was, only := caught && All(s.toS, A(g, k)), caught && All(toS, A(g, k));
    StepKeepsInv(Packet(g.me, i, env, ok), s.srv, s'.srv);
    HeadInStep(caught, s.toC, s.toS, D(g, k - 1), D(g, k), A(g, k - 1), A(g, k), keep);
    ErrorRead(i, s.toS[0]);
    ErrorOutcome(g, i, env, ok, s.srv, s'.srv, k, was, sure);
    ServingMono(g, s'.srv, k, was, only, sure);
    ServingMono(g, s'.srv, k, was, true, sure);
    if sure {
      FileAfter(g, i, env, ok, s.srv, s'.srv, k, k, f, was);
    }
    ReplyInStep(caught, s.toC, toS, D(g, k - 1), D(g, k), A(g, k - 1), A(g, k), SessionSpec.Sent(post, s'.srv.msg, ok));
  }

  /** What the server makes of the first message in the channel, which is message `j` */
  lemma MessageOutcome(g: Put, keep: bool, i: Input, env: Env, ok: bool, s: Sys, s': Sys, k: nat, f: bool, sure: bool)
    returns (j: nat)
    requires Inv(g, s, k, f, sure) && ServerStep(g, keep, i, env, ok, s, s') && !IsError(s.toS[0])
    requires sure ==> MayCreate(g, ServerTakes(keep, i, env, ok), s)
    ensures g.me in s.srv.ses ==> !InvalidBlock(s.srv.ses[g.me], i)
    ensures j == k ==> s.count == k && All(AfterHead(s.toS, keep), A(g, k))
    ensures sure ==> FileMoved(g, s.srv, s'.srv.ds)
    ensures g.me !in s.srv.ses && g.me in s'.srv.ses ==> g.Path() !in s.srv.ds.files
    ensures var post, d := Find(s'.srv.ses, g.me), s'.srv.ds;
            var reply := SessionSpec.Sent(post, s'.srv.msg, ok);
            || (Outcome(g, post, d, reply, k, j == k, sure) && Settled(g, s.srv.ds, d, k, sure))
            || (j == k <= BlockCount(g.wire) && Outcome(g, post, d, reply, k + 1, false, sure)
                && (sure && k == BlockCount(g.wire) ==> Completed(g, s.srv, d)))
  {
    hide PacketStep, InStep, FileOk, D, A, ServerRuns.Inv, Serving, ReadsAs, FileMoved, Completed, MayTake;
    hide InvalidBlock, BlockCount, Put.Plain, Outcome, Settled;
    j := FirstMessage(g, s, k, f, keep, sure);
    ClientMessage(g, i, j);
    ServingMono(g, s.srv, k, s.count == k && All(s.toS, A(g, k)), j == k, sure);
    PacketOutcome(g, i, env, ok, s.srv, s'.srv, k, j, sure);
  }

  lemma TakesMessage(g: Put, keep: bool, i: Input, env: Env, ok: bool, s: Sys, s': Sys, k: nat, f: bool, sure: bool)
    returns (k': nat)
    requires Inv(g, s, k, f, sure) && ServerStep(g, keep, i, env, ok, s, s') && !IsError(s.toS[0])
    requires sure ==> MayCreate(g, ServerTakes(keep, i, env, ok), s)
    ensures Inv(g, s', k', f, sure)
    ensures g.me in s.srv.ses ==> !InvalidBlock(s.srv.ses[g.me], i)
  {
    hide PacketStep, InStep, FileOk, D, A, ServerRuns.Inv, Serving, FileMoved, Completed, MayCreate;
    hide InvalidBlock, BlockCount, Put.Plain;
    var post, toS, caught := Find(s'.srv.ses, g.me), AfterHead(s.toS, keep), s.count == k;
    var reply, was := SessionSpec.Sent(post, s'.srv.msg, ok), caught && All(s.toS, A(g, k));
    StepKeepsInv(Packet(g.me, i, env, ok), s.srv, s'.srv);
    HeadInStep(caught, s.toC, s.toS, D(g, k - 1), D(g, k), A(g, k - 1), A(g, k), keep);
    var j := MessageOutcome(g, keep, i, env, ok, s, s', k, f, sure);
    if Outcome(g, post, s'.srv.ds, reply, k, j == k, sure) && Settled(g, s.srv.ds, s'.srv.ds, k, sure) {
      k' := k;
      ServingMono(g, s'.srv, k, j == k, caught && All(toS, A(g, k)), sure);
      ServingMono(g, s'.srv, k, j == k, true, sure);
      ReplyInStep(caught, s.toC, toS, D(g, k - 1), D(g, k), A(g, k - 1), A(g, k), reply);
    } else {
      k' := k + 1;
      ServingMono(g, s'.srv, k + 1, false, true, sure);
      MoveOn(s.toC, toS, D(g, k - 1), D(g, k), D(g, k + 1), A(g, k - 1), A(g, k), A(g, k + 1), reply);
    }
    if sure {
      FileAfter(g, i, env, ok, s.srv, s'.srv, k, k', f, was);
    }
  }

  lemma ServerTakesKeeps(g: Put, keep: bool, i: Input, env: Env, ok: bool, s: Sys, s': Sys, k: nat, f: bool, sure: bool)
    returns (k': nat)
    requires Inv(g, s, k, f, sure) && ServerStep(g, keep, i, env, ok, s, s')
    requires sure ==> MayCreate(g, ServerTakes(keep, i, env, ok), s)
    ensures Inv(g, s', k', f, sure)
  {
    hide Inv, PacketStep;
    k' := k;
    if IsError(s.toS[0]) {
      TakesError(g, keep, i, env, ok, s, s', k, f, sure);
    } else {
      k' := TakesMessage(g, keep, i, env, ok, s, s', k, f, sure);
    }
  }

  // ---- the other steps ----

  /** The session is where it was while nobody else writes its file. */
  lemma ServingKept(g: Put, t: Ses, t': Ses, d: Ds, d': Ds, k: nat, only: bool, sure: bool)
    requires Serving(g, t, d, k, only, sure) && PutReady(t, d)
    requires t' == t.(retry := t'.retry, lastsending := t'.lastsending)
    requires t.Key() in d.open <==> t.Key() in d'.open
    requires Writer(d, t.Key()) ==> Content(d', t.Path()) == Content(d, t.Path())
    requires t.Path() in d.files ==> t.Path() in d'.files
    ensures Serving(g, t', d', k, only, sure)
  {
  }

  lemma ResendKeeps(g: Put, now: nat, arrives: bool, s: Sys, s': Sys, k: nat, f: bool, sure: bool)
    requires Inv(g, s, k, f, sure) && ResendStep(g, now, arrives, s, s')
    ensures Inv(g, s', k, f, sure)
  {
    hide InStep, A, ServerRuns.Inv, Serving, BlockCount, Put.Plain, Quiet, DsInv;
    StepKeepsInv(Timer(now), s.srv, s'.srv);
    if sure && g.Path() in s.srv.ds.files && !f {
      QuietStep(Timer(now), s.srv, s'.srv, g.Path(), g.me);
    }
    if g.me in s.srv.ses {
      var t, t', only := s.srv.ses[g.me], s'.srv.ses[g.me], s.count == k && All(s.toS, A(g, k));
      assert t' == TimerSes(t, now);
      TimerServing(g, t, now, s.srv, s'.srv, k, only, sure);
      if arrives && TimerSends(t, now) {
        ServingSends(g, t, s.srv.ds, k, only, sure);
        RepeatInStep(s.count == k, s.toC, s.toS, D(g, k - 1), D(g, k), A(g, k - 1), A(g, k), t.lastmsg);
      }
    }
  }

  lemma ServingSends(g: Put, t: Ses, d: Ds, k: nat, only: bool, sure: bool)
    requires Serving(g, t, d, k, only, sure) && !t.disabled && k <= BlockCount(g.wire) + 1
    ensures t.lastmsg in D(g, k)
  {
  }

  lemma TimerServing(g: Put, t: Ses, now: nat, s: Srv, s': Srv, k: nat, only: bool, sure: bool)
    requires TimerStep(now, s, s') && ServerRuns.Inv(s) && g.me in s.ses && s.ses[g.me] == t
    requires Serving(g, t, s.ds, k, only, sure)
    ensures Serving(g, TimerSes(t, now), s'.ds, k, only, sure)
  {
    assert SesOk(t, s.ds);
    hide Serving, DsInv, GivesUp;
    InvDs(s);
    if TimerCloses(t, now) {
      Disables(g, t, s.ds, TimerSes(t, now), k, only, sure);
      GaveUp(g.me, now, s, s');
      ServingDs(g, TimerSes(t, now), CloseData(t, s.ds), s'.ds, k, only, sure);
    } else {
      OwnKeyStays(g.me, now, s, s');
      ServingKept(g, t, TimerSes(t, now), s.ds, s'.ds, k, only, sure);
    }
  }

  lemma GaveUp(c: Client, now: nat, s: Srv, s': Srv)
    requires TimerStep(now, s, s') && c in s.ses && TimerCloses(s.ses[c], now)
    ensures s.ses[c].Key() !in s'.ds.open && s'.ds.files == s.ds.files
  {
  }

  /** Only the file and the session's own place in it matter. */
  lemma ServingDs(g: Put, t: Ses, d: Ds, d': Ds, k: nat, only: bool, sure: bool)
    requires Serving(g, t, d, k, only, sure) && d'.files == d.files && t.Key() !in d.open && t.Key() !in d'.open
    ensures Serving(g, t, d', k, only, sure)
  {
  }

  lemma ElsewhereKeeps(g: Put, e: Event, s: Sys, s': Sys, k: nat, f: bool, sure: bool) returns (f': bool)
    requires Inv(g, s, k, f, sure) && Step(g, Elsewhere(e), s, s')
    ensures Inv(g, s', k, f', sure)
    ensures f' <==> f || (g.Path() !in s.srv.ds.files && g.Path() in s'.srv.ds.files)
  {
    hide InStep, A, D, ServerRuns.Inv, Serving, BlockCount, Put.Plain, Quiet, PacketStep;
    f' := f || (g.Path() !in s.srv.ds.files && g.Path() in s'.srv.ds.files);
    StepKeepsInv(e, s.srv, s'.srv);
    StepKeepsFiles(e, s.srv, s'.srv);
    InvDs(s.srv);
    if sure && g.Path() in s.srv.ds.files && !f {
      QuietStep(e, s.srv, s'.srv, g.Path(), g.me);
    }
    if g.me in s.srv.ses {
      var t, only := s.srv.ses[g.me], s.count == k && All(s.toS, A(g, k));
      ServingPath(g, t, s.srv.ds, k, only, sure);
      OpenExists(t, s.srv.ds);
      SessionElsewhere(g, e, s.srv, s'.srv, k, only, sure);
    } else if e.Packet? {
      NotMine(e, s.srv, s'.srv, g.me);
    }
  }

  lemma SessionElsewhere(g: Put, e: Event, s: Srv, s': Srv, k: nat, only: bool, sure: bool)
    requires ServerRuns.Inv(s) && ServerRuns.Step(e, s, s') && (e.Packet? ==> e.c != g.me) && !e.Timer?
    requires g.me in s.ses && Serving(g, s.ses[g.me], s.ds, k, only, sure) && FilesKept(s.ds, s'.ds)
    ensures SessionOk(g, s', k, only, sure)
    ensures var t := s.ses[g.me];
            g.me in s'.ses ==> s'.ses[g.me] == t && (t.Key() in s.ds.open <==> t.Key() in s'.ds.open)
  {
    var t := s.ses[g.me];
    assert SesOk(t, s.ds);
    hide ServerRuns.Inv, Serving, PacketStep, DsInv;
    if e.Packet? {
      Isolation(e.c, e.i, e.env, e.ok, s, s', g.me);
      ServingKept(g, t, t, s.ds, s'.ds, k, only, sure);
    }
  }

  /** Whether a step of someone else creates the file */
  ghost predicate Usurps(g: Put, a: Act, s: Sys, s': Sys)
  {
    a.Elsewhere? && g.Path() !in s.srv.ds.files && g.Path() in s'.srv.ds.files
  }

  lemma StepKeeps(g: Put, a: Act, s: Sys, s': Sys, k: nat, f: bool, sure: bool) returns (k': nat, f': bool)
    requires Inv(g, s, k, f, sure) && Step(g, a, s, s') && (sure ==> MayCreate(g, a, s))
    ensures Inv(g, s', k', f', sure) && (f' <==> f || Usurps(g, a, s, s'))
  {
    hide Serving, InStep, D, FileOk, ClientGets, ServerStep, ResendStep, ServerRuns.Inv, ServerRuns.Step;
    hide Message, ErrMsg, BlockCount;
    k', f' := k, f;
    var d0, d1, a0, a1, caught := D(g, k - 1), D(g, k), A(g, k - 1), A(g, k), s.count == k;
    match a
    case SendAgain =>
      RepeatInStep(caught, s.toC, s.toS, d0, d1, a0, a1, Message(g, s.count));
      ServingMono(g, s.srv, k, caught && All(s.toS, a1), caught && All(s'.toS, a1), sure);
    case GiveUp(code, text) =>
      ErrMsgIsError(code, text);
      RepeatInStep(caught, s.toC, s.toS, d0, d1, a0, a1, ErrMsg(code, text));
      ServingMono(g, s.srv, k, caught && All(s.toS, a1), caught && All(s'.toS, a1), sure);
    case LoseToClient(at) => LoseInStep(caught, s.toC, s.toS, d0, d1, a0, a1, at);
    case LoseToServer(at) =>
      LoseInStep(caught, s.toC, s.toS, d0, d1, a0, a1, at);
      AllRemove(s.toS, A(g, k), at);
      ServingMono(g, s.srv, k, caught && All(s.toS, a1), caught && All(s'.toS, a1), sure);
    case ClientTakes(keep) => ClientStep(g, s, k, f, keep, sure);
    case ServerTakes(keep, i, env, ok) =>
      k' := ServerTakesKeeps(g, keep, i, env, ok, s, s', k, f, sure);
    case Resend(now, arrives) => ResendKeeps(g, now, arrives, s, s', k, f, sure);
    case Elsewhere(e) => f' := ElsewhereKeeps(g, e, s, s', k, f, sure);
  }

  // ---- every run ----

  lemma InitInv(g: Put, s: Sys, sure: bool)
    requires Init(g, s)
    ensures Inv(g, s, 0, g.Path() in s.srv.ds.files, sure)
  {
    hide ServerRuns.Inv, D, A;
    AllPhase([], A(g, -1), A(g, 0));
    BlockCountPositive(g.wire);
  }

  lemma {:induction false} RunKeeps(g: Put, tr: seq<Sys>, acts: seq<Act>, sure: bool) returns (k: nat, f: bool)
    requires Run(g, tr, acts) && (sure ==> MayAlwaysCreate(g, tr, acts))
    ensures Inv(g, tr[|acts|], k, f, sure)
    ensures f <==>
            || g.Path() in tr[0].srv.ds.files
            || exists j {:trigger acts[j]} :: 0 <= j < |acts| && Usurps(g, acts[j], tr[j], tr[j + 1])
  {
    hide Step, Inv, MayCreate, Usurps;
    var n := |acts| - 1;
    if n < 0 {
      InitInv(g, tr[0], sure);
      k, f := 0, g.Path() in tr[0].srv.ds.files;
    } else {
      assert forall j :: 0 <= j < n ==> acts[..n][j] == acts[j];
      k, f := RunKeeps(g, tr[..n + 1], acts[..n], sure);
      assert forall j :: 0 <= j <= n ==> tr[..n + 1][j] == tr[j];
      assert Step(g, acts[n], tr[n], tr[n + 1]);
      k, f := StepKeeps(g, acts[n], tr[n], tr[n + 1], k, f, sure);
    }
  }

  /** PUT end to end. Whatever the channels lose and repeat, whenever the timer runs, whatever other
      clients do (also to the same file) and however full the disk gets: when the client has seen its
      last block acknowledged, the file is the decoded upload. */
  lemma PutSafe(g: Put, tr: seq<Sys>, acts: seq<Act>)
    requires Run(g, tr, acts) && MayAlwaysCreate(g, tr, acts)
    ensures var s, file := tr[|acts|], Unwire(g.req.mode, g.wire);
            s.done && file != [] ==> g.Path() in s.srv.ds.files && s.srv.ds.files[g.Path()] == file
  {
    hide Step, MayCreate, Usurps, InStep, SessionOk, ServerRuns.Inv, BlockCount;
    var k, f := RunKeeps(g, tr, acts, true);
  }

  /** At every moment, also after any error: unless someone else created it, the file holds a prefix
      of the decoded upload. */
  lemma PutPrefix(g: Put, tr: seq<Sys>, acts: seq<Act>)
    requires Run(g, tr, acts) && MayAlwaysCreate(g, tr, acts)
    requires g.Path() !in tr[0].srv.ds.files
    requires forall j {:trigger acts[j]} :: 0 <= j < |acts| ==> !Usurps(g, acts[j], tr[j], tr[j + 1])
    ensures Content(tr[|acts|].srv.ds, g.Path()) <= Unwire(g.req.mode, g.wire)
  {
    hide Step, MayCreate, Usurps, InStep, SessionOk, ServerRuns.Inv, BlockCount;
    var k, f := RunKeeps(g, tr, acts, true);
  }

  /** Over every run, until the retry limit or an ERROR of the client ends it, and whether or not the server
      may create the file: the session's block number is the count of blocks accepted, wrapped, and its
      last message is that ACK. Unfinished, what it has stored followed by what it buffers is the
      decoding of exactly those blocks, each once and in order. */
  lemma PutCoherent(g: Put, tr: seq<Sys>, acts: seq<Act>) returns (n: nat)
    requires Run(g, tr, acts)
    requires var s := tr[|acts|]; g.me in s.srv.ses && !s.srv.ses[g.me].disabled
    ensures var s, last := tr[|acts|], |g.wire| / BLOCK_SIZE + 1;
            var t, d := s.srv.ses[g.me], s.srv.ds;
            && n <= last && (s.count == n || s.count == n + 1)
            && t.blknum == Wrap(n) && t.lastmsg == AckMsg(Wrap(n))
            && (!t.fin ==> n < last && Owned(t, d) + t.buf == Unwire(g.req.mode, g.wire[..BLOCK_SIZE * n]))
  {
    var k, f := RunKeeps(g, tr, acts, false);
    hide InStep, ServerRuns.Inv, Owned, Unwire;
    n := k - 1;
  }

  /** Finished, and if the server may create the file, the session has closed it, and it holds the whole
      upload; or the session has refused the next block. */
  lemma PutFinished(g: Put, tr: seq<Sys>, acts: seq<Act>) returns (n: nat)
    requires Run(g, tr, acts) && MayAlwaysCreate(g, tr, acts)
    requires var s := tr[|acts|]; g.me in s.srv.ses && s.srv.ses[g.me].fin && !s.srv.ses[g.me].disabled
    ensures var s, last := tr[|acts|], |g.wire| / BLOCK_SIZE + 1;
            var t, d := s.srv.ses[g.me], s.srv.ds;
            && n <= last && t.blknum == Wrap(n) && t.lastmsg == AckMsg(Wrap(n)) && t.Key() !in d.open
            && if n == last then Content(d, g.Path()) == g.Plain() || g.Plain() == []
               else g.Path() in d.files && (Block(g.wire, n + 1) != [] || t.buf != [])
  {
    var k, f := RunKeeps(g, tr, acts, true);
    hide InStep, ServerRuns.Inv, Owned, Unwire;
    n := k - 1;
  }

  /** A conforming client never meets the check for an invalid block, also when the numbers wrap, blocks
      are refused or the file cannot be created. */
  lemma NeverInvalid(g: Put, tr: seq<Sys>, acts: seq<Act>, j: nat)
    requires Run(g, tr, acts) && j < |acts| && acts[j].ServerTakes? && g.me in tr[j].srv.ses
    ensures InputOk(acts[j].i) && !InvalidBlock(tr[j].srv.ses[g.me], acts[j].i)
  {
    hide Step, Inv, InvalidBlock;
    assert forall l :: 0 <= l < j ==> acts[..j][l] == acts[l];
    assert forall l :: 0 <= l <= j ==> tr[..j + 1][l] == tr[l];
    var k, f := RunKeeps(g, tr[..j + 1], acts[..j], false);
    assert Step(g, acts[j], tr[j], tr[j + 1]);
    StepNotInvalid(g, acts[j], tr[j], tr[j + 1], k, f);
  }

  lemma StepNotInvalid(g: Put, a: Act, s: Sys, s': Sys, k: nat, f: bool)
    requires Inv(g, s, k, f, false) && Step(g, a, s, s') && a.ServerTakes? && g.me in s.srv.ses
    ensures InputOk(a.i) && !InvalidBlock(s.srv.ses[g.me], a.i)
  {
    hide Inv, PacketStep;
    if IsError(s.toS[0]) {
      ErrorRead(a.i, s.toS[0]);
    } else {
      var k' := TakesMessage(g, a.keep, a.i, a.env, a.ok, s, s', k, f, false);
    }
  }

  // ---- where the conditions are needed ----

  /** An octet block is refused because the file cannot be created, and comes again when it can: the
      server stores the part it had already buffered twice, and acknowledges the block. */
  lemma RefusedBlockStoredTwice(t: Ses, d: Ds, p: seq<byte>, blk: u16, env1: Env, now1: nat, t1: Ses, d1: Ds, msg1: Msg,
                                env2: Env, now2: nat, t2: Ses, d2: Ds, msg2: Msg)
    requires t.mode == OctetMode && 0 < |p| <= BLOCK_SIZE && |t.buf| < SESSION_BUFSIZE
    requires Accepted(t, d, env1, blk, p, now1, t1, d1, msg1) && msg1 != AckMsg(blk) && t.Path() !in d1.files
    requires Accepted(t1, d1, env2, blk, p, now2, t2, d2, msg2)
    requires env2.canOpen(t.Path()) && env2.room(t.Path()) >= |t.buf| + 2 * |p|
    ensures msg2 == AckMsg(blk) && t.Path() in d2.files
    ensures exists n :: 0 < n <= |p| && d2.files[t.Path()] == t.buf + p[..n] + p
    ensures d2.files[t.Path()] != t.buf + p
  {
    hide Stored, OnlyTouches, AckMsg, ErrReply;
    var n :| 0 <= n <= |p| && (n == 0 ==> p == [] || |t.buf| == SESSION_BUFSIZE) && t1.buf == t.buf + p[..n];
    var all := Received(t1, d1, p);
    assert all == [] + t1.buf + p && [] + t1.buf == t1.buf;
    assert Content(d2, t.Path()) == all;
  }

  /** What a copying step takes decodes to nothing exactly when it starts with a CR. */
  lemma StepDecodes(t: Ses, p: seq<byte>)
    requires |t.buf| < SESSION_BUFSIZE
    ensures StepUsed(t, p) <= |p|
    ensures Unwire(t.mode, p[..StepUsed(t, p)]) == [] <==> p == [] || (t.mode == NetasciiMode && p[0] == CR)
  {
    var n := StepUsed(t, p);
    assert t.mode == OctetMode && p != [] ==> n > 0 && |p[..n]| == n;
    if t.mode == NetasciiMode && p != [] {
      assert n > 0 && p[..n][0] == p[0];
      if p[0] == CR {
        assert SegLen(SESSION_BUFSIZE - |t.buf|, p) == 0 && p[..n] == [CR];
        assert Decode([CR][1..]) == [];
      }
    }
  }

  /** What a refused block leaves while there is no file: the part that had been copied, which decodes to
      nothing exactly when the block is empty, or a last one that starts with a CR. */
  lemma RefusalLeaves(t: Ses, d: Ds, p: seq<byte>, blk: u16, env: Env, now: nat, t1: Ses, d1: Ds, msg1: Msg)
    returns (n: nat)
    requires |p| <= BLOCK_SIZE && SesOk(t, d) && |t.buf| < SESSION_BUFSIZE && DsInv(d)
    requires Accepted(t, d, env, blk, p, now, t1, d1, msg1) && msg1 != AckMsg(blk)
    ensures t1 == t.(buf := t1.buf, fin := true) && t1.Key() !in d1.open && (p == [] ==> t1.buf != []) && n <= |p|
    ensures t.Path() !in d1.files ==>
              && Owned(t, d) == [] && t1.buf == t.buf + Unwire(t.mode, p[..n])
              && (Unwire(t.mode, p[..n]) == [] <==> p == [] || (LastOne(t, p) && t.mode == NetasciiMode && p[0] == CR))
  {
    hide Stored, OnlyTouches, AckMsg, ErrReply, Unwire, SegLen, SegUsed, FlushesOk, DsInv, Storable, Finished, StepUsed;
    n := 0;
    if t.Path() !in d1.files {
      var s1 := t.(fin := t.fin || |p| < BLOCK_SIZE);
      n :| 0 <= n <= |p| && (s1.fin ==> n == StepUsed(s1, p)) && t1.buf == t.buf + Unwire(t.mode, p[..n]);
      StepDecodes(s1, p);
      OpenExists(t, d);
    }
  }

  predicate LastOne(t: Ses, p: seq<byte>) { t.fin || |p| < BLOCK_SIZE }

  /** A block that has been refused comes again, when nothing outside is in the way. If the refusal has
      left a file, the block is refused again. If it has left none, it is acknowledged as far as its
      flushes allow it, and then the file is right exactly when the block is empty, or a last one in
      netascii that starts with a CR. */
  lemma RefusedAgainIff(t: Ses, d: Ds, p: seq<byte>, blk: u16, env1: Env, now1: nat, t1: Ses, d1: Ds, msg1: Msg,
                        env2: Env, now2: nat, t2: Ses, d2: Ds, msg2: Msg)
    requires |p| <= BLOCK_SIZE && SesOk(t, d) && |t.buf| < SESSION_BUFSIZE && DsInv(d)
    requires Accepted(t, d, env1, blk, p, now1, t1, d1, msg1) && msg1 != AckMsg(blk)
    requires Accepted(t1, d1, env2, blk, p, now2, t2, d2, msg2)
    requires env2.canOpen(t.Path()) && env2.room(t.Path()) >= |t.buf| + 2 * |p|
    ensures t.Path() in d1.files ==> msg2 != AckMsg(blk) && d2 == d1
    ensures t.Path() !in d1.files ==> (msg2 == AckMsg(blk) <==> FinalOk(t.mode, t1.buf, p))
    ensures t.Path() !in d1.files && msg2 == AckMsg(blk) ==>
              (Content(d2, t.Path()) == Received(t, d, p) <==>
                 p == [] || (LastOne(t, p) && t.mode == NetasciiMode && p[0] == CR))
  {
    hide Refused, OnlyTouches, AckMsg, ErrReply, Unwire, FinalOk, DsInv, SesOk, LastOne;
    var n := RefusalLeaves(t, d, p, blk, env1, now1, t1, d1, msg1);
    RefusedUnchanged(t1, d1, env2, blk, p, now2, t2, d2, msg2);
    UnwireShort(t.mode, p[..n]);
    UnwireShort(t.mode, p);
    assert t1.(fin := t1.fin || |p| < BLOCK_SIZE) == t1;
    if t.Path() !in d1.files {
      var x, y := Unwire(t.mode, p[..n]), Unwire(t.mode, p);
      assert Received(t1, d1, p) == [] + (t.buf + x) + y && Received(t, d, p) == [] + t.buf + y;
      assert (t.buf + x) + y == t.buf + y <==> x == [];
    }
  }

  /** A file that exists without the session is neither written nor acknowledged. */
  lemma RefusedUnchanged(t: Ses, d: Ds, env: Env, blk: u16, p: seq<byte>, now: nat, t': Ses, d': Ds, msg': Msg)
    requires Accepted(t, d, env, blk, p, now, t', d', msg') && t.fin && t.Key() !in d.open && (p == [] ==> t.buf != [])
    ensures t.Path() in d.files ==> msg' != AckMsg(blk) && d' == d
  {
    hide Stored, OnlyTouches, AckMsg, ErrReply, Unwire, FlushesOk, DsInv, Storable, Leftover;
  }

  /** An upload of no bytes is acknowledged and leaves no file. */
  lemma EmptyUpload(t: Ses, d: Ds, env: Env, now: nat, t': Ses, d': Ds, msg': Msg)
    requires Accepted(t, d, env, 1, [], now, t', d', msg') && t.buf == [] && t.dir == SessionSpec.Put
    requires t.Path() !in d.files && t.Key() !in d.open && env.canOpen(t.Path())
    ensures msg' == AckMsg(1) && t'.fin && t.Path() !in d'.files
  {
  }

  /** The last block is acknowledged exactly when the session may write what is left, there is room for it,
      and the mode is octet or the block asks for no empty flush. */
  lemma LastBlockIff(t: Ses, d: Ds, env: Env, blk: u16, p: seq<byte>, now: nat, t': Ses, d': Ds, msg': Msg)
    requires Accepted(t, d, env, blk, p, now, t', d', msg') && |p| < 512 && |t.buf| < 8192
    ensures msg' == AckMsg(blk) <==>
              && (t.buf + p != [] ==> MayWrite(t, d, env))
              && (Received(t, d, p) != Owned(t, d) ==> env.room(t.Path()) >= |Received(t, d, p)|)
              && (t.mode == OctetMode || forall i :: 0 <= i < |p| ==> !PutSpec.EmptyFlush(|t.buf|, p, i))
    ensures msg' == AckMsg(blk) || msg' == ErrReply(ERR_ACCESSDENY, [])
  {
    hide Stored, Finished, Refused, AckMsg, ErrReply, PutSpec.EmptyFlush, FlushesOk, MayWrite, Unwire;
    AckIsNoError(blk);
    var s1 := t.(fin := true);
    SameRights(t, s1, d, env);
    PutSpec.ReceivedLength(t, d, p);
    PutSpec.FlushesOkIff(t.buf, p);
    var x := t.buf + Unwire(t.mode, p);
    assert Received(t, d, p) == Owned(t, d) + x;
    assert Received(t, d, p) == Owned(t, d) <==> x == [];
    assert t.buf + p == [] <==> t.buf == [] && p == [];
    PutSpec.UnwireNothing(t.mode);
  }

  lemma SameRights(t: Ses, s: Ses, d: Ds, env: Env)
    requires t.sock == s.sock && t.name == s.name
    ensures MayWrite(t, d, env) == MayWrite(s, d, env) && Owned(t, d) == Owned(s, d)
  {
  }

  /** Any other block is acknowledged exactly when it does not fill the buffer, or the session may
      write it and there is room for it. */
  lemma FullBlockIff(t: Ses, d: Ds, env: Env, blk: u16, p: seq<byte>, now: nat, t': Ses, d': Ds, msg': Msg)
    requires Accepted(t, d, env, blk, p, now, t', d', msg') && !t.fin && |p| == 512 && |t.buf| < 8192
    ensures msg' == AckMsg(blk) <==>
              || |t.buf| + |Unwire(t.mode, p)| < 8192
              || (MayWrite(t, d, env) && env.room(t.Path()) >= |Owned(t, d)| + 8192)
  {
    hide Stored, Finished, Refused, AckMsg, ErrReply, FinalOk, MayWrite, Unwire;
    assert t.(fin := t.fin || |p| < BLOCK_SIZE) == t;
    AckIsNoError(blk);
    UnwireShort(t.mode, p);
  }

  /** What a client can know before it uploads `w`: whether its last block asks for an empty flush */
  ghost predicate LastBlockFits(m: Mode, w: seq<byte>)
  {
    var k := BlockCount(w);
    var held, p := |Unwire(m, Blocks.Sent(w, k - 1))|, Block(w, k);
    m == OctetMode || forall i :: 0 <= i < |p| ==> !PutSpec.EmptyFlush(held, p, i)
  }

  ghost function LastReply(g: Put): Msg
  {
    if LastBlockFits(g.req.mode, g.wire) then AckMsg(Wrap(BlockCount(g.wire))) else ErrReply(ERR_ACCESSDENY, [])
  }

  /** Only the last block is short. */
  lemma LastMessage(g: Put, j: nat)
    requires j <= BlockCount(g.wire) && Message(g, j) == Message(g, BlockCount(g.wire))
    ensures j == BlockCount(g.wire)
  {
    var k := BlockCount(g.wire);
    BlockFacts(g.wire, k);
    var m := Message(g, k);
    assert m[0..2] == Word(OP_DATA) && m[4..] == Block(g.wire, k);
    var r := ReqMsg(OP_WRQ, g.req);
    assert r[0..2] == Word(OP_WRQ);
    if j > 0 {
      BlockFacts(g.wire, j);
      assert Message(g, j)[4..] == Block(g.wire, j);
    }
  }

  lemma BufferedLength(g: Put, t: Ses, d: Ds, k: nat)
    requires Storing(g, t, d, k) && t.mode == g.req.mode
    ensures |t.buf| % SESSION_BUFSIZE == |Unwire(g.req.mode, Blocks.Sent(g.wire, k - 1))| % SESSION_BUFSIZE
    ensures Received(t, d, Block(g.wire, k))
            == Unwire(g.req.mode, Blocks.Sent(g.wire, k - 1)) + Unwire(g.req.mode, Block(g.wire, k))
  {
    ModAdd(|Owned(t, d)|, |t.buf|);
  }

  lemma ModAdd(a: nat, b: nat)
    requires a % SESSION_BUFSIZE == 0
    ensures (a + b) % SESSION_BUFSIZE == b % SESSION_BUFSIZE
  {
  }

  /** The session that waits for the last block answers it by its ACK exactly when the block asks for
      no empty flush. */
  lemma LastBlockDecided(g: Put, t: Ses, d: Ds, env: Env, now: nat, t': Ses, d': Ds, msg': Msg)
    requires var k := BlockCount(g.wire);
             Storing(g, t, d, k) && Accepted(t, d, env, Wrap(k), Block(g.wire, k), now, t', d', msg')
    requires t.mode == g.req.mode && t.dir == SessionSpec.Put && t.Path() == g.Path() && SesOk(t, d)
    requires env.canOpen(g.Path()) && env.room(g.Path()) >= |g.Plain()|
    requires t.Key() in d.open || g.Path() !in d.files
    ensures msg' == LastReply(g)
  {
    hide Accepted, Owned, Received, Unwire, Blocks.Sent, Block, AckMsg, ErrReply, PutSpec.EmptyFlush;
    var k := BlockCount(g.wire);
    var p := Block(g.wire, k);
    var held := |Unwire(g.req.mode, Blocks.Sent(g.wire, k - 1))|;
    BufferedLength(g, t, d, k);
    SentBlock(g, k);
    LastBlockIff(t, d, env, Wrap(k), p, now, t', d', msg');
    forall i | 0 <= i < |p|
      ensures PutSpec.EmptyFlush(|t.buf|, p, i) <==> PutSpec.EmptyFlush(held, p, i)
    {
      PutSpec.EmptyFlushModulo(|t.buf|, held, p, i);
    }
    assert LastBlockFits(t.mode, g.wire) <==>
             t.mode == OctetMode || forall i :: 0 <= i < |p| ==> !PutSpec.EmptyFlush(|t.buf|, p, i);
  }

  /** In every run: when the last block reaches the unfinished session and nothing outside is in the
      way, it is acknowledged exactly when the upload's own bytes say so. */
  lemma LastBlockAnswered(g: Put, tr: seq<Sys>, acts: seq<Act>, j: nat)
    requires Run(g, tr, acts) && j < |acts| && acts[j].ServerTakes?
    requires var s := tr[j]; s.toS != [] && s.toS[0] == Message(g, BlockCount(g.wire)) && g.me in s.srv.ses
    requires var t, env := tr[j].srv.ses[g.me], acts[j].env;
             && !t.fin && !t.disabled && (t.Key() in tr[j].srv.ds.open || g.Path() !in tr[j].srv.ds.files)
             && env.canOpen(g.Path()) && env.room(g.Path()) >= |g.Plain()|
    ensures var s' := tr[j + 1].srv;
            SessionSpec.Sent(Find(s'.ses, g.me), s'.msg, acts[j].ok)
            == Some(LastReply(g))
  {
    hide Step, Inv, LastReply, Put.Plain, Message, BlockCount, AckMsg, ErrReply;
    assert forall l :: 0 <= l < j ==> acts[..j][l] == acts[l];
    assert forall l :: 0 <= l <= j ==> tr[..j + 1][l] == tr[l];
    var k, f := RunKeeps(g, tr[..j + 1], acts[..j], false);
    assert Step(g, acts[j], tr[j], tr[j + 1]);
    LastBlockTaken(g, acts[j], tr[j], tr[j + 1], k, f);
  }

  lemma LastBlockTaken(g: Put, a: Act, s: Sys, s': Sys, k: nat, f: bool)
    requires Inv(g, s, k, f, false) && Step(g, a, s, s') && a.ServerTakes? && s.toS[0] == Message(g, BlockCount(g.wire))
    requires g.me in s.srv.ses && !s.srv.ses[g.me].fin && !s.srv.ses[g.me].disabled
    requires s.srv.ses[g.me].Key() in s.srv.ds.open || g.Path() !in s.srv.ds.files
    requires a.env.canOpen(g.Path()) && a.env.room(g.Path()) >= |g.Plain()|
    ensures SessionSpec.Sent(Find(s'.srv.ses, g.me), s'.srv.msg, a.ok) == Some(LastReply(g))
  {
    hide LastReply, InStep, FileOk, DsInv, SesOk, Serving, Handled, Put.Plain, Message, ReadsAs, Conforming, BlockCount;
    var t, only := s.srv.ses[g.me], s.count == k && All(s.toS, A(g, k));
    LastNoError(g);
    var j := FirstMessage(g, s, k, f, a.keep, false);
    LastMessage(g, j);
    ClientMessage(g, a.i, j);
    StoringNow(g, t, s.srv.ds, k, only);
    LastReplied(g, t, s.srv.ds, a.env, s.srv.msg, a.i, Find(s'.srv.ses, g.me), s'.srv.ds, s'.srv.msg, a.ok);
  }

  /** The last block in a session that waits for it */
  lemma LastReplied(g: Put, t: Ses, d: Ds, env: Env, msg: Msg, i: Input, post: Option<Ses>, d': Ds, msg': Msg, ok: bool)
    requires var k := BlockCount(g.wire);
             Storing(g, t, d, k) && SesOk(t, d) && InputOk(i) && ReadsAs(g, i, k)
    requires t.mode == g.req.mode && t.dir == SessionSpec.Put && t.Path() == g.Path() && !t.disabled
    requires Handled(Some(t), d, env, msg, i, post, d', msg', ok)
    requires env.canOpen(g.Path()) && env.room(g.Path()) >= |g.Plain()|
    requires t.Key() in d.open || g.Path() !in d.files
    ensures SessionSpec.Sent(post, msg', ok) == Some(LastReply(g))
  {
    hide LastReply, Handled, Accepted, SesOk, ReadsAs, Put.Plain, Storing, Effect, BlockCount, Block;
    var k := BlockCount(g.wire);
    BlockCountPositive(g.wire);
    StoringOpen(g, t, d, k);
    NextAccepted(g, t, d, env, msg, i, post, d', msg', ok, k);
    LastBlockDecided(g, t, d, env, i.now, post.value, d', msg');
    AcceptedFacts(t, d, env, Wrap(k), Block(g.wire, k), i.now, post.value, d', msg');
  }

  /** The block that is expected is accepted or refused. */
  lemma NextAccepted(g: Put, t: Ses, d: Ds, env: Env, msg: Msg, i: Input, post: Option<Ses>, d': Ds, msg': Msg,
                     ok: bool, k: nat)
    requires k > 0 && t.blknum == Wrap(k - 1) && InputOk(i) && ReadsAs(g, i, k)
    requires Handled(Some(t), d, env, msg, i, post, d', msg', ok)
    ensures ok && post.Some? && Accepted(t, d, env, Wrap(k), Block(g.wire, k), i.now, post.value, d', msg')
  {
    hide Accepted, Resent, Block, ParseData, ParseReq, Opcode, Requested, ErrReply;
    NextWrap(k - 1);
    WrapDiffers(k - 1);
  }

  lemma LastNoError(g: Put)
    ensures !IsError(Message(g, BlockCount(g.wire)))
  {
    NoError(Wrap(BlockCount(g.wire)), Block(g.wire, BlockCount(g.wire)));
  }

  lemma StoringNow(g: Put, t: Ses, d: Ds, k: nat, only: bool)
    requires Serving(g, t, d, k, only, false) && !t.fin && !t.disabled
    ensures Storing(g, t, d, k) && 1 <= k <= BlockCount(g.wire) && t.blknum == Wrap(k - 1)
    ensures t.mode == g.req.mode && t.dir == SessionSpec.Put && t.Path() == g.Path()
  {
  }
}
