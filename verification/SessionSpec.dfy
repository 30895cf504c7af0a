/** One transfer session of src/tftp.c as a value, and what each action of the server does to it
    and to the datastore. The relations leave open only how far a GET has read ahead. */
module SessionSpec {
  import opened Base
  import opened Netascii
  import opened DatastoreSpec
  import opened Packets

  /** Which request created the session. The code keeps no such field: it is here to say what the
      session buffer means. */
  datatype Dir = Get | Put

  datatype Ses = Ses(
    dir: Dir, mode: Mode, sock: int, name: seq<byte>,
    blknum: u16, fin: bool, disabled: bool, retry: nat,
    lastmsg: seq<byte>, lastsending: nat,
    buf: seq<byte>, fopt: bool)
  {
    /** The key of this session's requests to the datastore */
    function Key(): DKey { (sock, name) }

    function Path(): Path { PathOf(name) }
  }

  ghost predicate BufOk(s: Ses)
  {
    && |s.buf| <= SESSION_BUFSIZE
    && (s.fopt ==> s.dir == Get && s.mode == NetasciiMode && s.buf != [] && s.buf[0] == LF)
  }

  function CloseData(s: Ses, d: Ds): Ds { CloseKey(d, s.Key()) }

  // ---- reading ----

  /** The bytes of the file that the session has not loaded yet */
  ghost function Rest(s: Ses, d: Ds): seq<byte>
  {
    Drop(Content(d, s.Path()), if s.Key() in d.open then d.open[s.Key()].off else 0)
  }

  /** The bytes that are still to be sent, as they will appear on the wire */
  ghost function Stream(s: Ses, d: Ds): seq<byte>
  {
    Drop(Wire(s.mode, s.buf + Rest(s, d)), if s.fopt then 1 else 0)
  }

  /** The datastore keeps every file, every other session and the kind of this session. */
  ghost predicate ReadOnly(s: Ses, d: Ds, d': Ds)
  {
    && OnlyTouches(d, d', s.Key()) && d'.files == d.files
    && (Writer(d', s.Key()) ==> Writer(d, s.Key()))
  }

  /** The bytes that the session buffer alone still gives */
  function Loaded(s: Ses): seq<byte> { Drop(Wire(s.mode, s.buf), if s.fopt then 1 else 0) }

  lemma NothingLoaded(s: Ses)
    requires s.buf == [] && BufOk(s)
    ensures Loaded(s) == []
  {
  }

  /** Whether a load succeeds */
  ghost predicate Readable(s: Ses, d: Ds, env: Env)
  {
    && s.Path() in d.files && env.canRead(s.Path())
    && if s.Key() in d.open then !Writer(d, s.Key()) else env.canOpen(s.Path())
  }

  /** The next `n` bytes are taken from the buffer, if it holds them, and the datastore is left alone;
      or by a load that succeeds exactly when the file can be read, and leaves it open. */
  ghost predicate Loads(s: Ses, d: Ds, env: Env, n: nat, ok: bool, d': Ds)
  {
    if |Loaded(s)| >= n then ok && d' == d
    else (ok <==> Readable(s, d, env)) && (ok <==> s.Key() in d'.open)
  }

  /** get_session_data took the next `n` bytes of the stream. */
  ghost predicate Taken(s: Ses, d: Ds, n: nat, out: seq<byte>, s': Ses, d': Ds)
  {
    && s' == s.(buf := s'.buf, fopt := s'.fopt) && BufOk(s') && ReadOnly(s, d, d')
    && out == Take(Stream(s, d), n) && Stream(s', d') == Drop(Stream(s, d), n)
  }

  /** get_session_data failed to load and closed the datastore session. */
  ghost predicate TakeFailed(s: Ses, d: Ds, s': Ses, d': Ds)
  {
    s' == s.(buf := s'.buf, fopt := s'.fopt) && BufOk(s') && ReadOnly(s, d, d')
  }

  /** make_tftpdata_msg: the next block becomes the last message; a short one is the last and
      closes the file. */
  ghost predicate DataBuilt(s: Ses, d: Ds, now: nat, s': Ses, d': Ds)
  {
    var out := Take(Stream(s, d), BLOCK_SIZE);
    && s' == s.(blknum := Next(s.blknum), fin := s.fin || |out| < BLOCK_SIZE,
                lastmsg := DataMsg(Next(s.blknum), out), lastsending := now, retry := 0,
                buf := s'.buf, fopt := s'.fopt)
    && BufOk(s') && ReadOnly(s, d, d')
    && (|out| < BLOCK_SIZE ==> s.Key() !in d'.open)
    && (|out| == BLOCK_SIZE ==> Stream(s', d') == Stream(s, d)[BLOCK_SIZE..])
  }

  /** make_tftpdata_msg failed: the block number has advanced, the last message has not. */
  ghost predicate DataFailed(s: Ses, d: Ds, s': Ses, d': Ds)
  {
    && s' == s.(blknum := Next(s.blknum), fin := true, buf := s'.buf, fopt := s'.fopt)
    && BufOk(s') && ReadOnly(s, d, d')
  }

  ghost predicate Built(s: Ses, d: Ds, env: Env, now: nat, s': Ses, d': Ds)
  {
    && DataBuilt(s, d, now, s', d')
    && if |Stream(s, d)| < BLOCK_SIZE then Readable(s, d, env) else Loads(s, d, env, BLOCK_SIZE, true, d')
  }

  ghost predicate NotBuilt(s: Ses, d: Ds, env: Env, s': Ses, d': Ds)
  {
    DataFailed(s, d, s', d') && Loads(s, d, env, BLOCK_SIZE, false, d')
  }

  // ---- writing ----

  /** What the session has stored: its file while its datastore session is open. */
  ghost function Owned(s: Ses, d: Ds): seq<byte>
  {
    if s.Key() in d.open then Content(d, s.Path()) else []
  }

  /** All that the session has received when it has just received `p`, as it must be stored */
  ghost function Received(s: Ses, d: Ds, p: seq<byte>): seq<byte>
  {
    Owned(s, d) + s.buf + Unwire(s.mode, p)
  }

  /** How many bytes of `p` one call of netascii_to_local copies into a buffer with `room` free
      bytes. */
  function SegLen(room: nat, p: seq<byte>): (n: nat)
    ensures n <= room && n <= |p|
  {
    if room == 0 || p == [] || p[0] == CR then 0 else 1 + SegLen(room - 1, p[1..])
  }

  /** How many bytes of `p` that call consumes: the CR that stopped it is skipped. */
  function SegUsed(room: nat, p: seq<byte>): (n: nat)
    ensures SegLen(room, p) <= n <= |p|
  {
    var n := SegLen(room, p);
    if n < |p| && n < room && p[n] == CR then n + 1 else n
  }

  /** The last block of a netascii PUT is flushed segment by segment. An empty flush closes the
      file, so it must be the last one. */
  predicate FlushesOk(buf: seq<byte>, p: seq<byte>)
    decreases |p|, |buf|
  {
    var room := if |buf| < SESSION_BUFSIZE then SESSION_BUFSIZE - |buf| else 0;
    var n, c := SegLen(room, p), SegUsed(room, p);
    c == |p| || (buf + p[..n] != [] && FlushesOk([], p[c..]))
  }

  predicate FinalOk(m: Mode, buf: seq<byte>, p: seq<byte>) { m == OctetMode || FlushesOk(buf, p) }

  /** The session has its file open, or may create it. */
  ghost predicate MayWrite(s: Ses, d: Ds, env: Env)
  {
    s.Key() in d.open || (s.Path() !in d.files && env.canOpen(s.Path()))
  }

  /** How many bytes the session writes when it receives `p`: all that it has, or whole buffers */
  ghost function Due(s: Ses, p: seq<byte>): nat
  {
    var n := |s.buf| + |Unwire(s.mode, p)|;
    if s.fin then n else n - n % SESSION_BUFSIZE
  }

  /** A last payload is flushed even when nothing is left of it. */
  ghost predicate AsksFlush(s: Ses, p: seq<byte>) { Due(s, p) > 0 || (s.fin && p != []) }

  /** Whether `p` can be stored: when it asks for a flush, the session may write; there is room; and no
      flush of a last payload comes after an empty one. */
  ghost predicate Storable(s: Ses, d: Ds, env: Env, p: seq<byte>)
  {
    var n := Due(s, p);
    && (AsksFlush(s, p) ==> MayWrite(s, d, env))
    && (n > 0 ==> env.room(s.Path()) >= |Owned(s, d)| + n)
    && (s.fin ==> FinalOk(s.mode, s.buf, p))
  }

  /** Only the session's own file grows, and only at its end; a file that exists without the
      session is safe. */
  ghost predicate AppendOnly(s: Ses, d: Ds, d': Ds)
  {
    && OnlyTouches(d, d', s.Key())
    && Content(d, s.Path()) <= Content(d', s.Path())
    && (s.Path() in d.files ==> s.Path() in d'.files)
    && (s.Path() in d.files && s.Key() !in d.open ==> d' == d)
    && (s.Key() in d'.open ==> Writer(d', s.Key()))
  }

  /** Before the last payload only full buffers are written. */
  ghost predicate WholeBuffers(s: Ses, d: Ds, s': Ses, d': Ds)
  {
    && |Owned(s', d')| % SESSION_BUFSIZE == |Owned(s, d)| % SESSION_BUFSIZE
    && (d' == d || |Owned(s', d')| > |Owned(s, d)|)
  }

  /** put_session_data took the payload `p` (in state `s`, whose `fin` says whether it is the last). */
  ghost predicate Stored(s: Ses, d: Ds, p: seq<byte>, s': Ses, d': Ds)
  {
    && s' == s.(buf := s'.buf) && BufOk(s') && AppendOnly(s, d, d')
    && if s.buf == [] && p == [] then s' == s && d' == d
       else if s.fin then
         && s'.buf == [] && s.Path() in d'.files && Content(d', s.Path()) == Received(s, d, p)
         && (s.Key() in d.open || s.Path() !in d.files)
       else
         && |s'.buf| < SESSION_BUFSIZE && Owned(s', d') + s'.buf == Received(s, d, p) && WholeBuffers(s, d, s', d')
         && (s.Key() !in d'.open ==> d' == d)
  }

  /** put_session_data failed and closed the datastore session: what has been stored is a prefix of
      what has been received. */
  ghost predicate RefusedFile(s: Ses, d: Ds, env: Env, p: seq<byte>, s': Ses, d': Ds)
  {
    && s' == s.(buf := s'.buf) && BufOk(s') && AppendOnly(s, d, d')
    && s.Key() !in d'.open
    && (s.Key() in d.open || s.Path() !in d.files ==> Content(d', s.Path()) <= Received(s, d, p))
    && (env.canOpen(s.Path()) ==> s.Path() in d'.files)
  }

  /** What one copying step of put_session_data takes of `q` */
  function StepUsed(s: Ses, q: seq<byte>): nat
    requires |s.buf| <= SESSION_BUFSIZE
  {
    if s.mode == OctetMode then Min(SESSION_BUFSIZE - |s.buf|, |q|) else SegUsed(SESSION_BUFSIZE - |s.buf|, q)
  }

  /** What a failed call leaves in the buffer: never nothing of an empty payload; a full buffer unless
      the payload is the last; and while there is no file, all that was there and the part of the payload
      that had been copied, which for a last payload is one step. */
  ghost predicate Leftover(s: Ses, p: seq<byte>, s': Ses, d': Ds)
  {
    && (p == [] ==> s'.buf != []) && (!s.fin ==> |s'.buf| == SESSION_BUFSIZE)
    && (s.Path() !in d'.files ==>
          exists n :: 0 <= n <= |p| && (n == 0 ==> p == [] || |s.buf| == SESSION_BUFSIZE)
                      && (s.fin && BufOk(s) ==> n == StepUsed(s, p))
                      && s'.buf == s.buf + Unwire(s.mode, p[..n]))
  }

  ghost predicate Refused(s: Ses, d: Ds, env: Env, p: seq<byte>, s': Ses, d': Ds)
  {
    RefusedFile(s, d, env, p, s', d') && Leftover(s, p, s', d')
  }

  /** The last payload stored and the file closed; an upload of no bytes leaves no file. */
  ghost predicate Finished(s: Ses, d: Ds, p: seq<byte>, s': Ses, d': Ds)
  {
    && s' == s.(buf := []) && AppendOnly(s, d, d') && s.Key() !in d'.open
    && if s.buf == [] && p == [] then d' == CloseData(s, d)
       else
         && s.Path() in d'.files && Content(d', s.Path()) == Received(s, d, p)
         && (s.Key() in d.open || s.Path() !in d.files)
  }

  /** A DATA block with the expected number: stored and acknowledged, the last one closed, or
      refused with an ERROR. */
  ghost predicate Accepted(s: Ses, d: Ds, env: Env, blk: u16, p: seq<byte>, now: nat,
                           s': Ses, d': Ds, msg': seq<byte>)
  {
    var s1 := s.(fin := s.fin || |p| < BLOCK_SIZE);
    var s2 := s1.(buf := s'.buf);
    if msg' == AckMsg(blk) then
      && s' == s2.(blknum := blk, lastmsg := msg', lastsending := now, retry := 0)
      && Storable(s1, d, env, p)
      && if s1.fin then Finished(s1, d, p, s2, d') else Stored(s1, d, p, s2, d')
    else
      && msg' == ErrReply(ERR_ACCESSDENY, [])
      && s' == s2.(fin := true)
      && Refused(s1, d, env, p, s2, d') && !Storable(s1, d, env, p)
  }

  // ---- replying ----

  /** The `resend` label of tftp_proc: the last message again, at most three times. */
  ghost predicate Resent(s: Ses, d: Ds, msg: seq<byte>, now: nat, s': Ses, d': Ds, msg': seq<byte>)
  {
    if s.retry < RESEND_COUNTMAX then
      s' == s.(lastsending := now, retry := s.retry + 1) && d' == d && msg' == s.lastmsg
    else
      s' == s.(disabled := true) && d' == CloseData(s, d) && msg' == msg
  }

  /** create_session and add_newsession */
  function NewSes(op: u16, r: Request, sock: int): Ses
  {
    Ses(if op == OP_RRQ then Get else Put, r.mode, sock, r.name, 0, false, false, 0, [], 0, [], false)
  }

  const SERVER_ERROR: seq<byte> := Ascii("server error")

  /** A message built, or the failure to build it reported */
  ghost predicate Answered(s: Ses, d: Ds, env: Env, now: nat, s': Ses, d': Ds, msg': seq<byte>)
  {
    || (Built(s, d, env, now, s', d') && msg' == s'.lastmsg)
    || (NotBuilt(s, d, env, s', d') && msg' == ErrReply(ERR_SEEMSG, SERVER_ERROR))
  }

  /** The datagram as it lies in the receive buffer, when it arrives, and the descriptor that a
      new session would get */
  datatype Input = Input(buf: seq<byte>, len: nat, now: nat, sock: int)

  predicate InputOk(i: Input) { i.len <= |i.buf| == NWBUF_SIZE }

  /** tftp_proc, seen from one client: its session before and after (if any), the datastore, and
      the message buffer `sinfo`, which keeps its contents between calls. */
  ghost predicate Handled(pre: Option<Ses>, d: Ds, env: Env, msg: seq<byte>, i: Input,
                          post: Option<Ses>, d': Ds, msg': seq<byte>, ok: bool)
    requires InputOk(i)
  {
    var op := Opcode(i.buf);
    if op == OP_RRQ || op == OP_WRQ then
      && ok
      && if pre.Some? then post.Some? && Resent(pre.value, d, msg, i.now, post.value, d', msg')
         else Requested(d, env, op, ParseReq(i.buf, i.len), i, post, d', msg')
    else if op == OP_DATA then ok && DataHandled(pre, d, env, msg, i, post, d', msg')
    else if op == OP_ACK then ok && AckHandled(pre, d, env, msg, i, post, d', msg')
    else if op == OP_ERROR then
      && msg' == msg
      && if pre.None? then !ok && post == None && d' == d
         else ok && post == Some(pre.value.(disabled := true)) && d' == CloseData(pre.value, d)
    else ok && post == pre && d' == d && msg' == msg
  }

  ghost predicate Requested(d: Ds, env: Env, op: u16, req: Option<Request>, i: Input,
                            post: Option<Ses>, d': Ds, msg': seq<byte>)
  {
    if req.None? then Rejected(None, d, ERR_ILLEGALOPE, post, d', msg')
    else if op == OP_WRQ && PathOf(req.value.name) in d.files then Rejected(None, d, ERR_FILEEXIST, post, d', msg')
    else if op == OP_RRQ && PathOf(req.value.name) !in d.files then Rejected(None, d, ERR_NOTFOUND, post, d', msg')
    else
      var s := NewSes(op, req.value, i.sock);
      if op == OP_RRQ then post.Some? && Answered(s, d, env, i.now, post.value, d', msg')
      else post == Some(s.(lastmsg := AckMsg(0), lastsending := i.now)) && d' == d && msg' == AckMsg(0)
  }

  /** The `errsend` label: an ERROR is sent and the session, if any, is finished; its datastore
      session stays as it is. */
  ghost predicate Rejected(pre: Option<Ses>, d: Ds, code: u16, post: Option<Ses>, d': Ds, msg': seq<byte>)
  {
    && post == (if pre.Some? then Some(pre.value.(fin := true)) else None)
    && d' == d && msg' == ErrReply(code, [])
  }

  ghost predicate DataHandled(pre: Option<Ses>, d: Ds, env: Env, msg: seq<byte>, i: Input,
                              post: Option<Ses>, d': Ds, msg': seq<byte>)
    requires InputOk(i)
  {
    var data := ParseData(i.buf, i.len);
    if pre.None? then Rejected(pre, d, ERR_UNKNOWNID, post, d', msg')
    else if data.None? then Rejected(pre, d, ERR_ILLEGALOPE, post, d', msg')
    else
      var s, blk := pre.value, data.value.blk;
      if blk == s.blknum then post.Some? && Resent(s, d, msg, i.now, post.value, d', msg')
      else if blk == Next(s.blknum) then
        post.Some? && Accepted(s, d, env, blk, data.value.payload, i.now, post.value, d', msg')
      else Rejected(pre, d, ERR_ILLEGALOPE, post, d', msg')
  }

  ghost predicate AckHandled(pre: Option<Ses>, d: Ds, env: Env, msg: seq<byte>, i: Input,
                             post: Option<Ses>, d': Ds, msg': seq<byte>)
    requires InputOk(i)
  {
    var ack := ParseAck(i.buf, i.len);
    if pre.None? then Rejected(pre, d, ERR_UNKNOWNID, post, d', msg')
    else if ack.None? then Rejected(pre, d, ERR_ILLEGALOPE, post, d', msg')
    else
      var s, blk := pre.value, ack.value;
      if blk as int == s.blknum as int - 1 then post.Some? && Resent(s, d, msg, i.now, post.value, d', msg')
      else if blk == s.blknum then
        if s.fin then post == Some(s.(disabled := true)) && d' == d && msg' == msg
        else post.Some? && Answered(s, d, env, i.now, post.value, d', msg')
      else post == pre && d' == d && msg' == msg
  }

  /** What iwtftp_service puts on the network after tftp_proc */
  function Sent(post: Option<Ses>, msg': seq<byte>, ok: bool): Option<seq<byte>>
  {
    if ok && !(post.Some? && post.value.disabled) then Some(msg') else None
  }

  /** A GET session is sent no DATA, and a PUT session no ACK. */
  ghost predicate Conforming(pre: Option<Ses>, i: Input)
    requires InputOk(i)
  {
    pre.Some? ==>
      && (Opcode(i.buf) == OP_DATA ==> pre.value.dir == Put)
      && (Opcode(i.buf) == OP_ACK ==> pre.value.dir == Get)
  }

  // ---- the timer and the clean-up ----

  predicate Idle(s: Ses, now: nat, limit: nat) { now > s.lastsending + limit }

  /** One session in resend_allsession */
  predicate TimedOut(s: Ses, now: nat) { Idle(s, now, RESEND_INTERVAL) && !s.fin && !s.disabled }

  function TimerSes(s: Ses, now: nat): Ses
  {
    if !TimedOut(s, now) then s
    else if s.retry >= RESEND_COUNTMAX then s.(disabled := true)
    else s.(retry := s.retry + 1, lastsending := now)
  }

  predicate TimerSends(s: Ses, now: nat) { TimedOut(s, now) && s.retry < RESEND_COUNTMAX }

  predicate TimerCloses(s: Ses, now: nat) { TimedOut(s, now) && s.retry >= RESEND_COUNTMAX }

  /** What cleanup_session deletes */
  predicate Expired(s: Ses, now: nat) { s.disabled || (s.fin && Idle(s, now, SESSION_CLOSEWAIT)) }
}
