/** What the server sends in reply, and how often it sends the same message again. */
module Replies {
  import opened Base
  import opened Packets
  import opened DatastoreSpec
  import opened SessionSpec
  import opened SessionTable
  import opened Server
  import opened ServerRuns

  /** An ERROR message, byte by byte */
  function ErrorBytes(code: byte, text: string): seq<byte> { [0, 5, 0, code] + Ascii(text) + [0] }

  lemma ErrorReplies()
    ensures ErrReply(ERR_NOTFOUND, []) == ErrorBytes(1, "file not found")
    ensures ErrReply(ERR_ACCESSDENY, []) == ErrorBytes(2, "access violation")
    ensures ErrReply(ERR_ILLEGALOPE, []) == ErrorBytes(4, "illegal tftp operation")
    ensures ErrReply(ERR_UNKNOWNID, []) == ErrorBytes(5, "unknown transfer id")
    ensures ErrReply(ERR_FILEEXIST, []) == ErrorBytes(6, "file already exists")
    ensures ErrReply(ERR_SEEMSG, SERVER_ERROR) == ErrorBytes(0, "server error")
  {
    hide Ascii;
  }

  /** The reply to a datagram: none exactly when the client's session is disabled afterwards, or when an
      ERROR comes from a client without a session. */
  lemma ReplyIff(c: Client, i: Input, env: Env, ok: bool, s: Srv, s': Srv)
    requires PacketStep(c, i, env, ok, s, s')
    ensures Out(Packet(c, i, env, ok), s, s', c) == None <==>
              || (c in s'.ses && s'.ses[c].disabled)
              || (c !in s.ses && i.buf[0] == 0 && i.buf[1] == 5)
  {
    hide Handled, SessionSpec.Sent, DsInv, Conforming;
    SilentIff(Find(s.ses, c), s.ds, env, s.msg, i, Find(s'.ses, c), s'.ds, s'.msg, ok);
  }

  /** What a client without a session is answered */
  lemma StrangerReply(c: Client, i: Input, env: Env, ok: bool, s: Srv, s': Srv)
    requires PacketStep(c, i, env, ok, s, s') && c !in s.ses && i.buf[0] == 0
    ensures var op, req, m := i.buf[1], ParseReq(i.buf, i.len), Out(Packet(c, i, env, ok), s, s', c);
            if op == 3 || op == 4 then m == Some(ErrorBytes(5, "unknown transfer id"))
            else if op == 1 || op == 2 then
              if req.None? then m == Some(ErrorBytes(4, "illegal tftp operation"))
              else if op == 1 && PathOf(req.value.name) !in s.ds.files then m == Some(ErrorBytes(1, "file not found"))
              else if op == 2 && PathOf(req.value.name) in s.ds.files then m == Some(ErrorBytes(6, "file already exists"))
              else c in s'.ses && (op == 2 ==> m == Some([0, 4, 0, 0]))
            else m == if op == 5 then None else Some(s.msg)
    ensures var op, req := i.buf[1], ParseReq(i.buf, i.len);
            c in s'.ses <==> req.Some? && (if op == 1 then PathOf(req.value.name) in s.ds.files
                                           else op == 2 && PathOf(req.value.name) !in s.ds.files)
    ensures c !in s'.ses ==> s'.ds == s.ds
  {
    hide ParseReq, ParseData, ParseAck, Answered, ErrReply, DsInv, Conforming, Opcode, ErrorBytes, PathOf, Became;
    OpcodeBytes(i.buf, 1);
    OpcodeBytes(i.buf, 2);
    OpcodeBytes(i.buf, 3);
    OpcodeBytes(i.buf, 4);
    OpcodeBytes(i.buf, 5);
    ErrorReplies();
    assert AckMsg(0) == [0, 4, 0, 0];
    NewEnabled(s.ds, env, i, Find(s'.ses, c), s'.ds, s'.msg);
  }

  lemma NewEnabled(d: Ds, env: Env, i: Input, post: Option<Ses>, d': Ds, msg': seq<byte>)
    ensures forall op, req :: Requested(d, env, op, req, i, post, d', msg') && post.Some? ==> !post.value.disabled
  {
    hide ErrReply;
  }

  /** A finished download: the ACK of its last block ends it. The session is disabled, nothing else
      changes, and nothing is sent. */
  lemma LastAckEnds(c: Client, i: Input, env: Env, ok: bool, s: Srv, s': Srv)
    requires PacketStep(c, i, env, ok, s, s') && c in s.ses && s.ses[c].fin
    requires i.buf[..i.len] == AckMsg(s.ses[c].blknum)
    ensures c in s'.ses && s'.ses[c] == s.ses[c].(disabled := true) && s'.ds == s.ds
    ensures Out(Packet(c, i, env, ok), s, s', c) == None
  {
    hide ParseAck, DsInv, Answered;
    var t := s.ses[c];
    ParseAckIff(i.buf, i.len, t.blknum);
    AckFormat(t.blknum);
    assert i.buf[0] == i.buf[..i.len][0] && i.buf[1] == i.buf[..i.len][1];
    OpcodeBytes(i.buf, 4);
  }

  /** A malformed message, or a DATA block that is neither the next nor the last one again, ends a
      session with an ERROR. */
  lemma KnownRefusal(c: Client, i: Input, env: Env, ok: bool, s: Srv, s': Srv)
    requires PacketStep(c, i, env, ok, s, s') && c in s.ses && !s.ses[c].disabled && i.buf[0] == 0
    requires var t, data := s.ses[c], ParseData(i.buf, i.len);
             || (i.buf[1] == 4 && ParseAck(i.buf, i.len).None?)
             || (i.buf[1] == 3 && (data.None? || (data.value.blk != t.blknum && data.value.blk != Next(t.blknum))))
    ensures c in s'.ses && s'.ses[c] == s.ses[c].(fin := true) && s'.ds == s.ds
    ensures Out(Packet(c, i, env, ok), s, s', c) == Some(ErrorBytes(4, "illegal tftp operation"))
  {
    hide ParseData, ParseAck, Answered, Accepted, Resent, ErrReply, DsInv, Conforming, Opcode, ErrorBytes;
    OpcodeBytes(i.buf, 3);
    OpcodeBytes(i.buf, 4);
    ErrorReplies();
  }

  // ---- the same message again ----

  /** The step sends to `c` the last message of its session once more, for whatever reason. */
  ghost predicate Repeats(e: Event, s: Srv, s': Srv, c: Client)
  {
    c in s.ses && Out(e, s, s', c) == Some(s.ses[c].lastmsg)
  }

  /** A datagram of which the server makes nothing: an ACK of neither the current nor, as an integer,
      the previous number, or an unknown opcode. It is answered with what the message buffer holds. */
  ghost predicate Ignored(e: Event, s: Srv, c: Client)
  {
    e.Packet? && e.c == c && InputOk(e.i) && c in s.ses &&
    var op, n, ack := Opcode(e.i.buf), s.ses[c].blknum, ParseAck(e.i.buf, e.i.len);
    || (op == OP_ACK && ack.Some? && ack.value != n && ack.value as int != n as int - 1)
    || op !in {OP_RRQ, OP_WRQ, OP_DATA, OP_ACK, OP_ERROR}
  }

  /** The last message carries the session's block number, until a download has finished; a download
      that has failed to start has none. */
  ghost predicate LastOk(t: Ses)
  {
    if t.lastmsg == [] then t.fin && t.dir == Get
    else
      && |t.lastmsg| >= 4 && !IsError(t.lastmsg)
      && (t.dir == Put || !t.fin ==> WordAt(t.lastmsg, 2) == t.blknum)
  }

  lemma NumberOf(blk: u16, payload: seq<byte>)
    ensures WordAt(DataMsg(blk, payload), 2) == blk && WordAt(AckMsg(blk), 2) == blk
  {
    WordFacts(DataMsg(blk, payload), 2, blk);
    WordFacts(AckMsg(blk), 2, blk);
    assert DataMsg(blk, payload)[2..4] == Word(blk) == AckMsg(blk)[2..4];
  }

  lemma AnsweredLast(t: Ses, d: Ds, env: Env, now: nat, t': Ses, d': Ds, msg': seq<byte>)
    requires Answered(t, d, env, now, t', d', msg') && t.dir == Get && !t.fin && (LastOk(t) || t.lastmsg == [])
    ensures LastOk(t') && msg' != t.lastmsg
  {
    hide ReadOnly, Stream, Loads, Readable, ErrReply, DataMsg, WordAt;
    var out := Take(Stream(t, d), BLOCK_SIZE);
    NumberOf(Next(t.blknum), out);
    NoError(Next(t.blknum), out);
    ServerErrorIs();
    DataSize(Next(t.blknum), out);
  }

  lemma DataSize(blk: u16, out: seq<byte>)
    ensures |DataMsg(blk, out)| >= 4 && |AckMsg(blk)| == 4
  {
  }

  lemma ServerErrorIs()
    ensures IsError(ErrReply(ERR_SEEMSG, SERVER_ERROR)) && ErrReply(ERR_SEEMSG, SERVER_ERROR) != []
    ensures IsError(ErrReply(ERR_ACCESSDENY, [])) && IsError(ErrReply(ERR_ILLEGALOPE, []))
    ensures ErrReply(ERR_ACCESSDENY, []) != [] && ErrReply(ERR_ILLEGALOPE, []) != []
  {
    ErrMsgIsError(ERR_SEEMSG, SERVER_ERROR);
    ErrMsgIsError(ERR_ACCESSDENY, ErrText(ERR_ACCESSDENY));
    ErrMsgIsError(ERR_ILLEGALOPE, ErrText(ERR_ILLEGALOPE));
  }

  lemma AcceptedLast(t: Ses, d: Ds, env: Env, p: seq<byte>, now: nat, t': Ses, d': Ds, msg': seq<byte>)
    requires Accepted(t, d, env, Next(t.blknum), p, now, t', d', msg') && t.dir == Put && LastOk(t)
    ensures LastOk(t') && msg' != t.lastmsg
  {
    hide Refused, Stored, Finished, Storable, ErrReply, AckMsg, WordAt;
    NumberOf(Next(t.blknum), p);
    NoError(Next(t.blknum), p);
    ServerErrorIs();
    DataSize(Next(t.blknum), p);
  }

  /** One datagram of a session: its last message stays in order, and it is sent again only as a
      repeat that uses a retry, or because the datagram has been ignored. */
  lemma KnownLast(t: Ses, d: Ds, env: Env, msg: seq<byte>, i: Input, post: Option<Ses>, d': Ds, msg': seq<byte>, ok: bool)
    requires InputOk(i) && Handled(Some(t), d, env, msg, i, post, d', msg', ok) && Conforming(Some(t), i) && LastOk(t)
    ensures post.Some? && LastOk(post.value)
    ensures SessionSpec.Sent(post, msg', ok) == Some(t.lastmsg) ==>
              || (Duplicate(t, i) && t.retry < RESEND_COUNTMAX)
              || (Opcode(i.buf) == OP_ACK && ParseAck(i.buf, i.len).Some?
                  && ParseAck(i.buf, i.len).value != t.blknum && ParseAck(i.buf, i.len).value as int != t.blknum as int - 1)
              || Opcode(i.buf) !in {OP_RRQ, OP_WRQ, OP_DATA, OP_ACK, OP_ERROR}
  {
    hide Accepted, Answered, ParseReq, ParseData, ParseAck, ErrReply, DsInv, WordAt;
    ServerErrorIs();
    if Duplicate(t, i) {
    } else if Opcode(i.buf) == OP_DATA && ParseData(i.buf, i.len).Some? {
      var data := ParseData(i.buf, i.len).value;
      if data.blk == Next(t.blknum) {
        AcceptedLast(t, d, env, data.payload, i.now, post.value, d', msg');
      }
    } else if Opcode(i.buf) == OP_ACK && ParseAck(i.buf, i.len) == Some(t.blknum) && !t.fin {
      AnsweredLast(t, d, env, i.now, post.value, d', msg');
    }
  }

  lemma NewLast(d: Ds, env: Env, msg: seq<byte>, i: Input, post: Option<Ses>, d': Ds, msg': seq<byte>, ok: bool)
    requires InputOk(i) && Handled(None, d, env, msg, i, post, d', msg', ok)
    ensures post.Some? ==> LastOk(post.value)
  {
    hide Answered, ParseReq, ParseData, ParseAck, ErrReply, WordAt, AckMsg;
    if post.Some? {
      var op, r := Opcode(i.buf), ParseReq(i.buf, i.len).value;
      NumberOf(0, []);
      NoError(0, []);
      DataSize(0, []);
      if op == OP_RRQ {
        AnsweredLast(NewSes(op, r, i.sock), d, env, i.now, post.value, d', msg');
      }
    }
  }

  /** In one step: the last message of a session is sent again only by the timer or as a repeat, which
      uses a retry, or because a datagram has been ignored. */
  lemma RepeatsUse(e: Event, s: Srv, s': Srv, c: Client)
    requires Step(e, s, s') && (c in s.ses ==> LastOk(s.ses[c]))
    ensures c in s'.ses ==> LastOk(s'.ses[c])
    ensures Repeats(e, s, s', c) ==> Resends(e, s, c) || Ignored(e, s, c)
  {
    hide Handled, LastOk, Duplicate, GivesUp, DsInv;
    if e.Packet? && e.c == c {
      var post := Find(s'.ses, c);
      if c in s.ses {
        KnownLast(s.ses[c], s.ds, e.env, s.msg, e.i, post, s'.ds, s'.msg, e.ok);
      } else {
        NewLast(s.ds, e.env, s.msg, e.i, post, s'.ds, s'.msg, e.ok);
      }
    } else if e.Packet? {
      BecameElsewhere(s.ses, e.c, Find(s'.ses, e.c), s'.ses);
      assert c in s'.ses ==> c in s'.ses - {e.c} && (s'.ses - {e.c})[c] == (s.ses - {e.c})[c];
    } else if e.Timer? && c in s.ses {
      TimerLast(s.ses[c], e.now);
    }
  }

  lemma TimerLast(t: Ses, now: nat)
    ensures LastOk(t) ==> LastOk(TimerSes(t, now))
  {
  }

  ghost function RepeatCount(tr: seq<Srv>, ev: seq<Event>, c: Client): nat
    requires |tr| == |ev| + 1
  {
    if ev == [] then 0
    else
      var n := |ev| - 1;
      RepeatCount(tr[..|ev|], ev[..n], c) + if Repeats(ev[n], tr[n], tr[n + 1], c) then 1 else 0
  }

  ghost function IgnoredCount(tr: seq<Srv>, ev: seq<Event>, c: Client): nat
    requires |tr| == |ev| + 1
  {
    if ev == [] then 0
    else
      var n := |ev| - 1;
      IgnoredCount(tr[..|ev|], ev[..n], c) + if Ignored(ev[n], tr[n], c) then 1 else 0
  }

  lemma {:induction false} RepeatsCounted(tr: seq<Srv>, ev: seq<Event>, c: Client)
    requires Run(tr, ev) && c !in tr[0].ses
    ensures c in tr[|ev|].ses ==> LastOk(tr[|ev|].ses[c])
    ensures RepeatCount(tr, ev, c) <= ResendCount(tr, ev, c) + IgnoredCount(tr, ev, c)
  {
    hide Step, LastOk, Repeats, Resends, Ignored;
    var n := |ev|;
    if n > 0 {
      RunInit(tr, ev);
      RepeatsCounted(tr[..n], ev[..n - 1], c);
      RepeatsUse(ev[n - 1], tr[n - 1], tr[n], c);
    }
  }

  /** Bounded retransmission, whatever the reason: over any run, the messages that go out to a client
      although they are the last message of its session are at most three for each message built and each
      failed start, besides one for each datagram of the client that the server ignores. */
  lemma BoundedRepeats(tr: seq<Srv>, ev: seq<Event>, c: Client)
    requires Run(tr, ev) && ServerRuns.Inv(tr[0]) && c !in tr[0].ses
    ensures RepeatCount(tr, ev, c) <= 3 * (BuildCount(tr, c) + FailedStarts(tr, c)) + IgnoredCount(tr, ev, c)
  {
    hide Run;
    RepeatsCounted(tr, ev, c);
    BoundedRetransmission(tr, ev, c);
  }

  // ---- the retry counter ----

  /** How often the session's last message has been sent again since it was built */
  ghost function SinceBuilt(tr: seq<Srv>, ev: seq<Event>, c: Client): nat
    requires |tr| == |ev| + 1
  {
    if ev == [] then 0
    else
      var n := |ev| - 1;
      if c !in tr[n].ses || Builds(tr[n], tr[n + 1], c) then 0
      else SinceBuilt(tr[..|ev|], ev[..n], c) + if Resends(ev[n], tr[n], c) then 1 else 0
  }

  /** Over any run, the counter of a session is the number of times its last message has been sent
      again; so a message is always sent again the first three times that it is asked for. */
  lemma {:induction false} RetryCounts(tr: seq<Srv>, ev: seq<Event>, c: Client)
    requires Run(tr, ev) && ServerRuns.Inv(tr[0]) && c !in tr[0].ses
    ensures c in tr[|ev|].ses ==> tr[|ev|].ses[c].retry == SinceBuilt(tr, ev, c)
  {
    hide Step, Resends, Builds, ServerRuns.Inv;
    var n := |ev|;
    if n > 0 {
      RunInit(tr, ev);
      RunKeepsInv(tr[..n], ev[..n - 1]);
      RetryCounts(tr[..n], ev[..n - 1], c);
      if c in tr[n].ses {
        RetryStep(ev[n - 1], tr[n - 1], tr[n], c);
      }
    }
  }

  lemma RetryStep(e: Event, s: Srv, s': Srv, c: Client)
    requires Step(e, s, s') && ServerRuns.Inv(s) && c in s'.ses
    ensures s'.ses[c].retry == if c !in s.ses || Builds(s, s', c) then 0
                               else s.ses[c].retry + if Resends(e, s, c) then 1 else 0
  {
    hide ServerRuns.Inv, DsInv, Handled, GivesUp, Duplicate, IsError;
    if e.Packet? && e.c == c {
      if c in s.ses {
        SessionsOk(s, c);
        KnownRetry(s.ses[c], s.ds, e.env, s.msg, e.i, Find(s'.ses, c), s'.ds, s'.msg, e.ok);
      } else {
        NewRetry(s.ds, e.env, s.msg, e.i, Find(s'.ses, c), s'.ds, s'.msg, e.ok);
      }
    } else if e.Packet? {
      BecameElsewhere(s.ses, e.c, Find(s'.ses, e.c), s'.ses);
      assert c in s'.ses - {e.c} && (s'.ses - {e.c})[c] == (s.ses - {e.c})[c];
    }
  }

  lemma SessionsOk(s: Srv, c: Client)
    requires ServerRuns.Inv(s) && c in s.ses
    ensures SesOk(s.ses[c], s.ds)
  {
  }

  lemma KnownRetry(t: Ses, d: Ds, env: Env, msg: seq<byte>, i: Input, post: Option<Ses>, d': Ds, msg': seq<byte>, ok: bool)
    requires InputOk(i) && Handled(Some(t), d, env, msg, i, post, d', msg', ok) && Conforming(Some(t), i) && SesOk(t, d)
    ensures post.Some?
    ensures post.value.retry == if post.value.blknum != t.blknum && !IsError(msg') then 0
                                else t.retry + if Duplicate(t, i) && t.retry < RESEND_COUNTMAX then 1 else 0
  {
    hide Resent, Accepted, Answered, ParseReq, ParseData, ParseAck, DsInv, SesOk, IsError, ErrReply;
    ServerErrorIs();
    if Duplicate(t, i) {
      DuplicateResent(t, d, env, msg, i, post, d', msg', ok);
      ResentFacts(t, d, msg, i.now, post.value, d', msg');
    } else if Opcode(i.buf) == OP_DATA && ParseData(i.buf, i.len).Some? {
      var data := ParseData(i.buf, i.len).value;
      if data.blk == Next(t.blknum) {
        AcceptedFacts(t, d, env, data.blk, data.payload, i.now, post.value, d', msg');
        NoError(data.blk, []);
      }
    } else if Opcode(i.buf) == OP_ACK && ParseAck(i.buf, i.len) == Some(t.blknum) && !t.fin {
      AnsweredRetry(t, d, env, i.now, post.value, d', msg');
    }
  }

  lemma NewRetry(d: Ds, env: Env, msg: seq<byte>, i: Input, post: Option<Ses>, d': Ds, msg': seq<byte>, ok: bool)
    requires InputOk(i) && Handled(None, d, env, msg, i, post, d', msg', ok)
    ensures post.Some? ==> post.value.retry == 0
  {
    hide ParseReq, ParseData, ParseAck, ErrReply, Stream, ReadOnly;
  }
}
