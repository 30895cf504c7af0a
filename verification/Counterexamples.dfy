/** Runs of the server, from an idle server with one file, in which a property that one might expect
    fails. Every datagram in them is well-formed in its direction, but for one ACK of five bytes. */
module Counterexamples {
  import opened Base
  import opened Netascii
  import opened Packets
  import opened DatastoreSpec
  import opened SessionSpec
  import opened SessionTable
  import opened Server
  import opened ServerRuns
  import opened LeftBehind
  import Replies
  import PutProtocol
  import Blocks

  const ME: Client := ("192.0.2.1", 1024)
  const NAME: seq<byte> := [120]
  const SOCK: int := 5
  const KEY: DKey := (SOCK, NAME)
  const REQUEST: Request := Request(NAME, OctetMode)

  const ALLOWED: Env := Env(_ => true, _ => true, _ => 0)
  const UNREADABLE: Env := Env(_ => true, _ => false, _ => 0)

  /** A datagram at time 0; `sock` is the descriptor that a new session would get. */
  function Datagram(m: seq<byte>, sock: int): (i: Input)
    requires |m| <= NWBUF_SIZE
    ensures InputOk(i) && i.buf[..i.len] == m && i.len == |m| && i.now == 0 && i.sock == sock
  {
    Input(m + seq(NWBUF_SIZE - |m|, _ => 0), |m|, 0, sock)
  }

  const RRQ: seq<byte> := ReqMsg(OP_RRQ, REQUEST)

  lemma RrqRead(sock: int)
    ensures |RRQ| == 10 && Opcode(Datagram(RRQ, sock).buf) == OP_RRQ
    ensures ParseReq(Datagram(RRQ, sock).buf, 10) == Some(REQUEST)
  {
    var i := Datagram(RRQ, sock);
    assert RRQ <= i.buf;
    ParseReqIff(i.buf, i.len, REQUEST);
    assert i.buf[0..2] == RRQ[0..2] == Word(OP_RRQ);
    WordFacts(i.buf, 0, OP_RRQ);
  }

  /** The datastore with the one file and, perhaps, a datastore session at its end */
  function Disk(file: seq<byte>, open: bool): Ds
  {
    Ds(map[NAME := file], if open then map[KEY := Handle(Reading, |file|)] else map[])
  }

  lemma DiskOk(file: seq<byte>, open: bool)
    ensures DsInv(Disk(file, open)) && PathOf(NAME) == NAME
  {
  }

  /** The session after its first block, when the file has one block and nothing else */
  function Fetching(file: seq<byte>): Ses
  {
    Ses(Get, OctetMode, SOCK, NAME, 1, false, false, 0, DataMsg(1, file), 0, [], false)
  }

  function Table(t: Ses, d: Ds, msg: seq<byte>): Srv { Srv(map[ME := t], d, msg) }

  function Idle(file: seq<byte>, open: bool, msg: seq<byte>): Srv { Srv(map[], Disk(file, open), msg) }

  /** A request on an idle server starts a session with the answer `t`. */
  lemma Starts(file: seq<byte>, open: bool, msg: seq<byte>, env: Env, t: Ses, d': Ds, msg': seq<byte>)
    requires NAME in Disk(file, open).files && DsInv(d') && PathOf(NAME) == NAME
    requires Answered(NewSes(OP_RRQ, REQUEST, SOCK), Disk(file, open), env, 0, t, d', msg')
    ensures PacketStep(ME, Datagram(RRQ, SOCK), env, true, Idle(file, open, msg), Table(t, d', msg'))
  {
    hide Answered, DsInv, Datagram, ParseReq, Opcode, ReqMsg;
    RrqRead(SOCK);
    Begins(ME, Datagram(RRQ, SOCK), env, REQUEST, Idle(file, open, msg), t, d', msg');
  }

  /** A session takes all that is left, a whole block. */
  lemma WholeBlock(s: Ses, d: Ds, t: Ses, d': Ds, p: seq<byte>)
    requires Stream(s, d) == p && |p| == BLOCK_SIZE && Stream(t, d') == [] && s.buf == [] && !s.fopt
    requires t == s.(blknum := Next(s.blknum), lastmsg := DataMsg(Next(s.blknum), p), lastsending := 0, retry := 0)
    requires ReadOnly(s, d, d') && Readable(s, d, ALLOWED) && s.Key() in d'.open
    ensures Answered(s, d, ALLOWED, 0, t, d', t.lastmsg)
  {
    hide Stream, ReadOnly, DataMsg, Readable, Loaded;
    NothingLoaded(s);
    assert p[..|p|] == p && p[|p|..] == [];
  }

  /** What reading the whole file does to the datastore */
  lemma ReadAll(file: seq<byte>, s: Ses, t: Ses)
    requires s.Key() == t.Key() == KEY && s.mode == t.mode == OctetMode && s.buf == t.buf == [] && !s.fopt && !t.fopt
    ensures var d, d' := Disk(file, false), Disk(file, true);
            && Stream(s, d) == file && Stream(t, d') == [] && ReadOnly(s, d, d')
            && Readable(s, d, ALLOWED) && s.Key() in d'.open
  {
    hide Rest, ReadOnly, Disk, Stream, Readable;
    RestOf(file, s, false);
    RestOf(file, t, true);
    MayRead(file, s, false);
    StreamIsRest(s, Disk(file, false));
    StreamIsRest(t, Disk(file, true));
    ReadAllOnly(file, s);
  }

  lemma MayRead(file: seq<byte>, s: Ses, open: bool)
    requires s.Key() == KEY
    ensures Readable(s, Disk(file, open), ALLOWED) && KEY in Disk(file, true).open
  {
    DiskOk(file, open);
    hide PathOf;
  }

  lemma StreamIsRest(s: Ses, d: Ds)
    requires s.mode == OctetMode && s.buf == [] && !s.fopt
    ensures Stream(s, d) == Rest(s, d)
  {
    hide Rest;
    assert s.buf + Rest(s, d) == Rest(s, d);
  }

  lemma RestOf(file: seq<byte>, s: Ses, open: bool)
    requires s.Key() == KEY
    ensures Rest(s, Disk(file, open)) == if open then [] else file
  {
    DiskOk(file, open);
    assert Drop(file, |file|) == [] && Drop(file, 0) == file;
    hide PathOf;
  }

  lemma ReadAllOnly(file: seq<byte>, s: Ses)
    requires s.Key() == KEY
    ensures ReadOnly(s, Disk(file, false), Disk(file, true))
  {
    var d, d' := Disk(file, false), Disk(file, true);
    assert d.open - {KEY} == map[] == d'.open - {KEY};
    hide PathOf;
  }

  /** The whole file goes out as block 1 and stays open. */
  lemma FirstBlock(file: seq<byte>)
    requires |file| == BLOCK_SIZE
    ensures Answered(NewSes(OP_RRQ, REQUEST, SOCK), Disk(file, false), ALLOWED, 0,
                     Fetching(file), Disk(file, true), DataMsg(1, file))
  {
    hide Stream, ReadOnly, DataMsg, Answered, Disk, Readable;
    var s := NewSes(OP_RRQ, REQUEST, SOCK);
    ReadAll(file, s, Fetching(file));
    WholeBlock(s, Disk(file, false), Fetching(file), Disk(file, true), file);
  }

  /** All that is left of a file fits into the first block of a session. */
  lemma LastAtOnce(s: Ses, d: Ds, t: Ses, d': Ds, p: seq<byte>)
    requires Stream(s, d) == p && |p| < BLOCK_SIZE && s.blknum == 0 && s.fopt == false && s.buf == []
    requires t == s.(blknum := 1, fin := true, lastmsg := DataMsg(1, p), lastsending := 0, retry := 0)
    requires ReadOnly(s, d, d') && Readable(s, d, ALLOWED) && s.Key() !in d'.open
    ensures Answered(s, d, ALLOWED, 0, t, d', DataMsg(1, p))
  {
    hide Stream, ReadOnly, DataMsg, Readable;
    assert p[..|p|] == p;
  }

  /** When the datastore session is still there, block 1 is empty and the last. */
  lemma EmptyBlock(file: seq<byte>)
    requires |file| == BLOCK_SIZE
    ensures Answered(NewSes(OP_RRQ, REQUEST, SOCK), Disk(file, true), ALLOWED, 0,
                     Emptied(file), Disk(file, false), DataMsg(1, []))
  {
    var s, d, d' := NewSes(OP_RRQ, REQUEST, SOCK), Disk(file, true), Disk(file, false);
    assert Stream(s, d) == [] by {
      assert Drop(file, |file|) == [] && [] + Drop(file, |file|) == [];
    }
    assert ReadOnly(s, d, d') && s.Key() !in d'.open;
    MayRead(file, s, true);
    hide Stream, ReadOnly, DataMsg, Answered, Disk, Readable;
    LastAtOnce(s, d, Emptied(file), d', []);
  }

  function Emptied(file: seq<byte>): Ses { Fetching(file).(fin := true, lastmsg := DataMsg(1, [])) }

  // ---- a datastore session left behind by errsend ----

  /** An ACK with one byte too many */
  const LONG_ACK: seq<byte> := AckMsg(1) + [0]

  /** A datagram for the one session of the table */
  lemma Acts(m: seq<byte>, env: Env, t: Ses, d: Ds, msg: seq<byte>, t': Ses, d': Ds, msg': seq<byte>)
    requires |m| <= NWBUF_SIZE && t.sock == SOCK && Conforming(Some(t), Datagram(m, SOCK + 1)) && DsInv(d')
    requires Handled(Some(t), d, env, msg, Datagram(m, SOCK + 1), Some(t'), d', msg', true)
    ensures PacketStep(ME, Datagram(m, SOCK + 1), env, true, Table(t, d, msg), Table(t', d', msg'))
  {
    hide Handled, Datagram, DsInv, Conforming;
    assert map[ME := t][ME := t'] == map[ME := t'];
    Continues(ME, Datagram(m, SOCK + 1), env, Table(t, d, msg), t', d', msg');
  }

  lemma LongAckErrs(file: seq<byte>)
    ensures PacketStep(ME, Datagram(LONG_ACK, SOCK + 1), ALLOWED, true,
                       Table(Fetching(file), Disk(file, true), DataMsg(1, file)),
                       Table(Fetching(file).(fin := true), Disk(file, true), ErrReply(ERR_ILLEGALOPE, [])))
    ensures LeavesOpen(Fetching(file), Disk(file, true), ALLOWED, Datagram(LONG_ACK, SOCK + 1))
  {
    var i := Datagram(LONG_ACK, SOCK + 1);
    DiskOk(file, true);
    assert i.buf[0..2] == Word(OP_ACK);
    WordFacts(i.buf, 0, OP_ACK);
    hide ErrReply, DsInv;
    Acts(LONG_ACK, ALLOWED, Fetching(file), Disk(file, true), DataMsg(1, file),
         Fetching(file).(fin := true), Disk(file, true), ErrReply(ERR_ILLEGALOPE, []));
  }

  lemma Cleans(t: Ses, file: seq<byte>, open: bool, msg: seq<byte>)
    requires Ended(t) && t.lastsending == 0
    ensures ServerRuns.Step(Cleanup(100), Table(t, Disk(file, open), msg), Idle(file, open, msg))
    ensures open ==> Orphan(Idle(file, open, msg), KEY)
  {
  }

  /** A download of a file of 512 bytes; a malformed ACK, which ends it with the file open; the clean-up;
      and the same request on the same descriptor: the client is sent an empty file. */
  lemma LeftBehindByError(file: seq<byte>) returns (tr: seq<Srv>, ev: seq<Event>)
    requires |file| == BLOCK_SIZE
    ensures Run(tr, ev) && tr[0] == Idle(file, false, []) && |ev| == 4
    ensures Breaks(ev[1], tr[1]) && ev[2].Cleanup? && Orphan(tr[3], KEY)
    ensures ev[3] == Packet(ME, Datagram(RRQ, SOCK), ALLOWED, true)
    ensures SessionSpec.Sent(Find(tr[4].ses, ME), tr[4].msg, true) == Some(DataMsg(1, []))
  {
    hide Answered, PacketStep, DsInv, LeavesOpen, Orphan;
    var d, t, m := Disk(file, true), Fetching(file), ErrReply(ERR_ILLEGALOPE, []);
    DiskOk(file, true);
    DiskOk(file, false);
    FirstBlock(file);
    Starts(file, false, [], ALLOWED, t, d, DataMsg(1, file));
    LongAckErrs(file);
    Cleans(t.(fin := true), file, true, m);
    EmptyBlock(file);
    Starts(file, true, m, ALLOWED, Emptied(file), Disk(file, false), DataMsg(1, []));
    var first := Packet(ME, Datagram(RRQ, SOCK), ALLOWED, true);
    var ack := Packet(ME, Datagram(LONG_ACK, SOCK + 1), ALLOWED, true);
    ev := [first, ack, Cleanup(100), first];
    tr := [Idle(file, false, []), Table(t, d, DataMsg(1, file)), Table(t.(fin := true), d, m), Idle(file, true, m),
           Table(Emptied(file), Disk(file, false), DataMsg(1, []))];
  }

  // ---- a datastore session left behind by a message taken after the retry limit ----

  function Repeated(file: seq<byte>, n: nat): Ses { Fetching(file).(retry := n) }

  /** The request once more: a retransmission, or, after three, the end */
  lemma Repeats(file: seq<byte>, n: nat)
    requires n <= RESEND_COUNTMAX
    ensures var t, m := Repeated(file, n), DataMsg(1, file);
            PacketStep(ME, Datagram(RRQ, SOCK + 1), ALLOWED, true, Table(t, Disk(file, true), m),
                       if n < RESEND_COUNTMAX then Table(Repeated(file, n + 1), Disk(file, true), m)
                       else Table(t.(disabled := true), Disk(file, false), m))
  {
    var t, m, d := Repeated(file, n), DataMsg(1, file), Disk(file, true);
    RrqRead(SOCK + 1);
    DiskOk(file, true);
    DiskOk(file, false);
    assert CloseData(t, d) == Disk(file, false);
    hide DataMsg, DsInv, ParseReq, Datagram, ReqMsg, Opcode, CloseData;
    if n < RESEND_COUNTMAX {
      Acts(RRQ, ALLOWED, t, d, m, Repeated(file, n + 1), d, m);
    } else {
      Acts(RRQ, ALLOWED, t, d, m, t.(disabled := true), Disk(file, false), m);
    }
  }

  /** The disabled session after it has taken ACK 1 */
  function Reopened(file: seq<byte>): Ses
  {
    Fetching(file).(disabled := true, blknum := 2, lastmsg := DataMsg(2, file))
  }

  lemma LateAck(file: seq<byte>)
    requires |file| == BLOCK_SIZE
    ensures var t := Repeated(file, 3).(disabled := true);
            && PacketStep(ME, Datagram(AckMsg(1), SOCK + 1), ALLOWED, true, Table(t, Disk(file, false), DataMsg(1, file)),
                          Table(Reopened(file), Disk(file, true), DataMsg(2, file)))
            && LeavesOpen(t, Disk(file, false), ALLOWED, Datagram(AckMsg(1), SOCK + 1))
  {
    var t, i := Repeated(file, 3).(disabled := true), Datagram(AckMsg(1), SOCK + 1);
    DiskOk(file, true);
    ParseAckIff(i.buf, i.len, 1);
    assert i.buf[0..2] == Word(OP_ACK);
    WordFacts(i.buf, 0, OP_ACK);
    SecondBlock(file);
    hide Answered, DsInv, DataMsg, ParseAck, Datagram;
    Acts(AckMsg(1), ALLOWED, t, Disk(file, false), DataMsg(1, file), Reopened(file), Disk(file, true), DataMsg(2, file));
  }

  lemma SecondBlock(file: seq<byte>)
    requires |file| == BLOCK_SIZE
    ensures Answered(Repeated(file, 3).(disabled := true), Disk(file, false), ALLOWED, 0,
                     Reopened(file), Disk(file, true), DataMsg(2, file))
  {
    hide Stream, ReadOnly, DataMsg, Answered, Disk, Readable;
    var s := Repeated(file, 3).(disabled := true);
    ReadAll(file, s, Reopened(file));
    WholeBlock(s, Disk(file, false), Reopened(file), Disk(file, true), file);
  }

  /** A download of a file of 512 bytes whose client repeats its request four times and then
      acknowledges block 1: the disabled session opens the file again. The clean-up leaves that behind, and
      the next download on the same descriptor is sent an empty file. */
  lemma LeftBehindByLateAck(file: seq<byte>) returns (tr: seq<Srv>, ev: seq<Event>)
    requires |file| == BLOCK_SIZE
    ensures Run(tr, ev) && tr[0] == Idle(file, false, []) && |ev| == 8
    ensures Breaks(ev[5], tr[5]) && ev[6].Cleanup? && Orphan(tr[7], KEY)
    ensures forall j :: 0 <= j < |ev| ==> ev[j].Packet? ==> ev[j].i.buf[..ev[j].i.len] in {RRQ, AckMsg(1)}
    ensures ev[7] == Packet(ME, Datagram(RRQ, SOCK), ALLOWED, true)
    ensures SessionSpec.Sent(Find(tr[8].ses, ME), tr[8].msg, true) == Some(DataMsg(1, []))
  {
    hide Answered, PacketStep, DsInv, LeavesOpen, Orphan, Datagram;
    var d, m := Disk(file, true), DataMsg(1, file);
    RrqRead(SOCK);
    FirstBlock(file);
    EmptyBlock(file);
    DiskOk(file, true);
    DiskOk(file, false);
    Starts(file, false, [], ALLOWED, Fetching(file), d, m);
    Repeats(file, 0);
    Repeats(file, 1);
    Repeats(file, 2);
    Repeats(file, 3);
    LateAck(file);
    Cleans(Reopened(file), file, true, DataMsg(2, file));
    Starts(file, true, DataMsg(2, file), ALLOWED, Emptied(file), Disk(file, false), DataMsg(1, []));
    var first, again := Packet(ME, Datagram(RRQ, SOCK), ALLOWED, true), Packet(ME, Datagram(RRQ, SOCK + 1), ALLOWED, true);
    ev := [first, again, again, again, again, Packet(ME, Datagram(AckMsg(1), SOCK + 1), ALLOWED, true), Cleanup(100), first];
    tr := [Idle(file, false, []), Table(Repeated(file, 0), d, m), Table(Repeated(file, 1), d, m),
           Table(Repeated(file, 2), d, m), Table(Repeated(file, 3), d, m),
           Table(Repeated(file, 3).(disabled := true), Disk(file, false), m),
           Table(Reopened(file), d, DataMsg(2, file)), Idle(file, true, DataMsg(2, file)),
           Table(Emptied(file), Disk(file, false), DataMsg(1, []))];
  }

  // ---- a transfer that fails to start ----

  /** The session of a download whose first load has failed: finished, and without any message */
  function Stillborn(n: nat): Ses { Ses(Get, OctetMode, SOCK, NAME, 1, true, false, n, [], 0, [], false) }

  lemma LoadFails(file: seq<byte>)
    ensures Answered(NewSes(OP_RRQ, REQUEST, SOCK), Disk(file, false), UNREADABLE, 0,
                     Stillborn(0), Disk(file, false), ErrReply(ERR_SEEMSG, SERVER_ERROR))
  {
    var s, d := NewSes(OP_RRQ, REQUEST, SOCK), Disk(file, false);
    hide Stream, ReadOnly, Answered, Disk, Readable, Loaded, ErrReply;
    Unreadable(file, s);
    NothingLoaded(s);
    NotLoaded(s, d, Stillborn(0));
  }

  lemma Unreadable(file: seq<byte>, s: Ses)
    requires s.Key() == KEY
    ensures var d := Disk(file, false); ReadOnly(s, d, d) && !Readable(s, d, UNREADABLE) && s.Key() !in d.open
  {
    hide PathOf;
  }

  lemma NotLoaded(s: Ses, d: Ds, t: Ses)
    requires Loaded(s) == [] && ReadOnly(s, d, d) && !Readable(s, d, UNREADABLE) && s.Key() !in d.open
    requires t == s.(blknum := Next(s.blknum), fin := true) && BufOk(t)
    ensures Answered(s, d, UNREADABLE, 0, t, d, ErrReply(ERR_SEEMSG, SERVER_ERROR))
  {
    hide Stream, ReadOnly, Readable, Loaded, ErrReply;
  }

  lemma RepeatsNothing(file: seq<byte>, n: nat, msg: seq<byte>)
    requires n < RESEND_COUNTMAX
    ensures PacketStep(ME, Datagram(RRQ, SOCK + 1), ALLOWED, true, Table(Stillborn(n), Disk(file, false), msg),
                       Table(Stillborn(n + 1), Disk(file, false), []))
    ensures Resends(Packet(ME, Datagram(RRQ, SOCK + 1), ALLOWED, true), Table(Stillborn(n), Disk(file, false), msg), ME)
  {
    RrqRead(SOCK + 1);
    DiskOk(file, false);
    hide DsInv, ParseReq, Datagram, ReqMsg, Opcode;
    Acts(RRQ, ALLOWED, Stillborn(n), Disk(file, false), msg, Stillborn(n + 1), Disk(file, false), []);
  }

  lemma Counted(tr: seq<Srv>, ev: seq<Event>, e: Event, s: Srv, c: Client)
    requires |tr| == |ev| + 1
    ensures var last := tr[|ev|];
            && ResendCount(tr + [s], ev + [e], c) == ResendCount(tr, ev, c) + (if Resends(e, last, c) then 1 else 0)
            && BuildCount(tr + [s], c) == BuildCount(tr, c) + if Builds(last, s, c) then 1 else 0
  {
    var ts, es := tr + [s], ev + [e];
    assert ts[..|es|] == tr && es[..|ev|] == ev && ts[..|ts| - 1] == tr;
  }

  lemma DiskNamed(file: seq<byte>, open: bool)
    ensures NAME in Disk(file, open).files && PathOf(NAME) == NAME && DsInv(Disk(file, open))
  {
  }

  /** The file cannot be read when the request arrives, and the client asks three times more: three
      retransmissions, of an empty packet, and no message built. */
  lemma RetransmitsNothing(file: seq<byte>) returns (tr: seq<Srv>, ev: seq<Event>)
    ensures Run(tr, ev) && tr[0] == Idle(file, false, []) && |ev| == 4
    ensures ResendCount(tr, ev, ME) == 3 && BuildCount(tr, ME) == 0 && tr[4].msg == []
  {
    hide PacketStep, DsInv, Answered, ErrReply, Datagram, Resends, Disk, IsError;
    var e, r := Packet(ME, Datagram(RRQ, SOCK), UNREADABLE, true), Packet(ME, Datagram(RRQ, SOCK + 1), ALLOWED, true);
    var d, m, s := Disk(file, false), ErrReply(ERR_SEEMSG, SERVER_ERROR), Idle(file, false, []);
    DiskNamed(file, false);
    LoadFails(file);
    Starts(file, false, [], UNREADABLE, Stillborn(0), d, m);
    RepeatsNothing(file, 0, m);
    RepeatsNothing(file, 1, []);
    RepeatsNothing(file, 2, []);
    Replies.ServerErrorIs();
    var t0, t1 := Table(Stillborn(0), d, m), Table(Stillborn(1), d, []);
    var t2, t3 := Table(Stillborn(2), d, []), Table(Stillborn(3), d, []);
    NotResent(e, s);
    Counted([s], [], e, t0, ME);
    Counted([s] + [t0], [] + [e], r, t1, ME);
    Counted([s] + [t0] + [t1], [] + [e] + [r], r, t2, ME);
    Counted([s] + [t0] + [t1] + [t2], [] + [e] + [r] + [r], r, t3, ME);
    tr, ev := [s] + [t0] + [t1] + [t2] + [t3], [] + [e] + [r] + [r] + [r];
    assert tr == [s, t0, t1, t2, t3] && ev == [e, r, r, r];
  }

  lemma NotResent(e: Event, s: Srv)
    requires ME !in s.ses
    ensures !Resends(e, s, ME)
  {
  }

  // ---- a datagram that is ignored, and answered ----

  const STALE: seq<byte> := AckMsg(7)

  function Started(file: seq<byte>): Srv { Table(Fetching(file), Disk(file, true), DataMsg(1, file)) }

  function Stale(): Event { Packet(ME, Datagram(STALE, SOCK + 1), ALLOWED, true) }

  lemma StaleAnswered(file: seq<byte>)
    requires |file| == BLOCK_SIZE
    ensures ServerRuns.Step(Stale(), Started(file), Started(file))
    ensures Replies.Repeats(Stale(), Started(file), Started(file), ME)
  {
    var t, d, m, i := Fetching(file), Disk(file, true), DataMsg(1, file), Datagram(STALE, SOCK + 1);
    DiskOk(file, true);
    ParseAckIff(i.buf, i.len, 7);
    assert i.buf[0..2] == Word(OP_ACK);
    WordFacts(i.buf, 0, OP_ACK);
    hide DsInv, DataMsg, ParseAck, Datagram, Opcode;
    Acts(STALE, ALLOWED, t, d, m, t, d, m);
  }

  lemma RepeatCounted(tr: seq<Srv>, ev: seq<Event>, e: Event, s: Srv)
    requires |tr| == |ev| + 1
    ensures Replies.RepeatCount(tr + [s], ev + [e], ME)
            == Replies.RepeatCount(tr, ev, ME) + if Replies.Repeats(e, tr[|ev|], s, ME) then 1 else 0
  {
    var ts, es := tr + [s], ev + [e];
    assert ts[..|es|] == tr && es[..|ev|] == ev;
  }

  /** The client of a download acknowledges a block that it has not been sent, any number of times: each
      time it is sent the last block again, although one message has been built and no retry is used. */
  lemma {:induction false} RepeatsWithoutEnd(file: seq<byte>, n: nat) returns (tr: seq<Srv>, ev: seq<Event>)
    requires |file| == BLOCK_SIZE
    ensures Run(tr, ev) && tr[0] == Idle(file, false, []) && |ev| == n + 1 && tr[n + 1] == Started(file)
    ensures Replies.RepeatCount(tr, ev, ME) == n && BuildCount(tr, ME) == 1 && tr[n + 1].ses[ME].retry == 0
    ensures forall j {:trigger ev[j]} :: 0 < j < |ev| ==> ev[j] == Stale()
  {
    hide PacketStep, DsInv, Answered, Datagram, Disk, IsError, DataMsg, Replies.Repeats, Builds, Resends;
    if n == 0 {
      var s, e := Idle(file, false, []), Packet(ME, Datagram(RRQ, SOCK), ALLOWED, true);
      RrqRead(SOCK);
      DiskNamed(file, false);
      DiskNamed(file, true);
      FirstBlock(file);
      Starts(file, false, [], ALLOWED, Fetching(file), Disk(file, true), DataMsg(1, file));
      Counted([s], [], e, Started(file), ME);
      RepeatCounted([s], [], e, Started(file));
      StartBuilds(file);
      tr, ev := [s] + [Started(file)], [] + [e];
    } else {
      tr, ev := RepeatsWithoutEnd(file, n - 1);
      StaleAnswered(file);
      Counted(tr, ev, Stale(), Started(file), ME);
      RepeatCounted(tr, ev, Stale(), Started(file));
      StaleBuilds(file);
      tr, ev := tr + [Started(file)], ev + [Stale()];
    }
  }

  lemma StartBuilds(file: seq<byte>)
    ensures Builds(Idle(file, false, []), Started(file), ME)
    ensures forall e :: !Replies.Repeats(e, Idle(file, false, []), Started(file), ME)
  {
    NoError(1, file);
  }

  lemma StaleBuilds(file: seq<byte>)
    ensures !Builds(Started(file), Started(file), ME)
  {
  }

  // ---- a refused last block that is stored twice ----

  const WRQ: seq<byte> := ReqMsg(OP_WRQ, REQUEST)
  const WRITABLE: Env := Env(_ => true, _ => true, _ => 0x4000)
  const UNWRITABLE: Env := Env(_ => false, _ => true, _ => 0x4000)
  const EMPTY: Ds := Ds(map[], map[])

  function Uploading(): Ses { NewSes(OP_WRQ, REQUEST, SOCK).(lastmsg := AckMsg(0)) }

  /** After the refusal of the block `p` */
  function Refusing(p: seq<byte>): Ses { Uploading().(buf := p, fin := true) }

  function Uploaded(): Ses { Uploading().(blknum := 1, lastmsg := AckMsg(1), fin := true) }

  function Twice(p: seq<byte>): Ds { Ds(map[NAME := p + p], map[]) }

  /** The only block of an upload, refused while the file cannot be created and then taken */
  lemma RefusedThenTaken(p: seq<byte>)
    requires 0 < |p| < BLOCK_SIZE
    ensures Accepted(Uploading(), EMPTY, UNWRITABLE, 1, p, 0, Refusing(p), EMPTY, ErrReply(ERR_ACCESSDENY, []))
    ensures Accepted(Refusing(p), EMPTY, WRITABLE, 1, p, 0, Uploaded(), Twice(p), AckMsg(1))
    ensures DsInv(EMPTY) && DsInv(Twice(p)) && PathOf(NAME) == NAME
  {
    var t := Uploading().(fin := true);
    assert StepUsed(t, p) == |p| && p[..|p|] == p && [] + p == p;
    assert Received(Refusing(p), EMPTY, p) == p + p;
    AckIsNoError(1);
    hide AckMsg, ErrReply, SegUsed, SegLen;
  }

  lemma WrqRead()
    ensures |WRQ| == 10 && Opcode(Datagram(WRQ, SOCK).buf) == OP_WRQ
    ensures ParseReq(Datagram(WRQ, SOCK).buf, 10) == Some(REQUEST)
  {
    var i := Datagram(WRQ, SOCK);
    assert WRQ <= i.buf;
    ParseReqIff(i.buf, i.len, REQUEST);
    assert i.buf[0..2] == WRQ[0..2] == Word(OP_WRQ);
    WordFacts(i.buf, 0, OP_WRQ);
  }

  lemma UploadStarts()
    ensures PacketStep(ME, Datagram(WRQ, SOCK), WRITABLE, true, Srv(map[], EMPTY, []), Table(Uploading(), EMPTY, AckMsg(0)))
  {
    hide ParseReq, Opcode, ReqMsg, AckMsg, Datagram;
    WrqRead();
  }

  lemma BlockArrives(k: u16, p: seq<byte>, env: Env, t: Ses, d: Ds, msg: seq<byte>, t': Ses, d': Ds, msg': seq<byte>)
    requires k > 0 && |p| <= BLOCK_SIZE && t.sock == SOCK && t.dir == SessionSpec.Put && t.blknum == k - 1
    requires Accepted(t, d, env, k, p, 0, t', d', msg') && DsInv(d')
    ensures PacketStep(ME, Datagram(DataMsg(k, p), SOCK + 1), env, true, Table(t, d, msg), Table(t', d', msg'))
  {
    var i := Datagram(DataMsg(k, p), SOCK + 1);
    ParseDataIff(i.buf, i.len, Data(k, p));
    assert i.buf[0..2] == Word(OP_DATA);
    WordFacts(i.buf, 0, OP_DATA);
    hide ParseData, Opcode, DataMsg, Datagram, Accepted, DsInv;
    Acts(DataMsg(k, p), env, t, d, msg, t', d', msg');
  }

  /** A whole upload of one block over a channel that repeats it: the file cannot be created at first,
      the ERROR is lost, and the second copy is taken. The client sees its block acknowledged, and
      the file holds it twice. */
  lemma StoredTwice(p: seq<byte>) returns (tr: seq<PutProtocol.Sys>, acts: seq<PutProtocol.Act>)
    requires 0 < |p| < BLOCK_SIZE
    ensures var g := PutProtocol.Put(ME, REQUEST, p);
            && PutProtocol.Run(g, tr, acts) && tr[0].srv == Srv(map[], EMPTY, []) && |acts| == 7
            && tr[7].done && g.Plain() == p && tr[7].srv.ds.files == map[g.Path() := p + p]
  {
    hide PacketStep, Datagram, Accepted, DsInv, AckMsg, ErrReply, ReqMsg, DataMsg;
    var g, e := PutProtocol.Put(ME, REQUEST, p), ErrReply(ERR_ACCESSDENY, []);
    RefusedThenTaken(p);
    UploadStarts();
    BlockArrives(1, p, UNWRITABLE, Uploading(), EMPTY, AckMsg(0), Refusing(p), EMPTY, e);
    BlockArrives(1, p, WRITABLE, Refusing(p), EMPTY, e, Uploaded(), Twice(p), AckMsg(1));
    PutProtocol.AckParsed(0);
    PutProtocol.AckParsed(1);
    assert Blocks.Block(p, 1) == p;
    var m := DataMsg(1, p);
    var first, block := Datagram(WRQ, SOCK), Datagram(m, SOCK + 1);
    var s0, s1 := Srv(map[], EMPTY, []), Table(Uploading(), EMPTY, AckMsg(0));
    var s2, s3 := Table(Refusing(p), EMPTY, e), Table(Uploaded(), Twice(p), AckMsg(1));
    acts := [PutProtocol.SendAgain, PutProtocol.ServerTakes(false, first, WRITABLE, true), PutProtocol.ClientTakes(false),
             PutProtocol.ServerTakes(true, block, UNWRITABLE, true), PutProtocol.ServerTakes(false, block, WRITABLE, true),
             PutProtocol.LoseToClient(0), PutProtocol.ClientTakes(false)];
    tr := [PutProtocol.Sys(s0, [], [], 0, false, false), PutProtocol.Sys(s0, [], [WRQ], 0, false, false),
           PutProtocol.Sys(s1, [AckMsg(0)], [], 0, false, false), PutProtocol.Sys(s1, [], [m], 1, false, false),
           PutProtocol.Sys(s2, [e], [m], 1, false, false), PutProtocol.Sys(s3, [e, AckMsg(1)], [], 1, false, false),
           PutProtocol.Sys(s3, [AckMsg(1)], [], 1, false, false), PutProtocol.Sys(s3, [], [], 1, true, false)];
  }
}
