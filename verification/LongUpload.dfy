/** A run in which an upload of 8192 bytes is acknowledged to its end and stored with 512 bytes too many:
    the block that fills the session buffer is refused while the file cannot be created, and comes
    again. */
module LongUpload {
  import opened Base
  import opened Blocks
  import opened Packets
  import opened DatastoreSpec
  import opened SessionSpec
  import opened Server
  import opened ServerRuns
  import opened Channels
  import opened PutProtocol
  import opened Counterexamples

  /** The number of the block that fills the buffer */
  const LAST: nat := 16

  function Upload(w: seq<byte>): PutProtocol.Put { PutProtocol.Put(ME, REQUEST, w) }

  // ---- the session ----

  /** After k blocks, all of them in the buffer */
  function Buffering(w: seq<byte>, k: nat): Ses
    requires k < LAST && |w| == SESSION_BUFSIZE
  {
    Uploading().(blknum := k, lastmsg := AckMsg(k), buf := w[..BLOCK_SIZE * k])
  }

  /** After the refusal of the block that fills the buffer */
  function Full(w: seq<byte>): Ses
    requires |w| == SESSION_BUFSIZE
  {
    Buffering(w, LAST - 1).(buf := w, fin := true)
  }

  /** After that block has been taken, and after the empty one behind it */
  function Flushed(k: u16): Ses { Uploading().(blknum := k, lastmsg := AckMsg(k), fin := true) }

  function Doubled(w: seq<byte>): Ds
    requires |w| == SESSION_BUFSIZE
  {
    Ds(map[NAME := w + Block(w, LAST)], map[])
  }

  lemma Grows(w: seq<byte>, k: nat)
    requires k < LAST && |w| == SESSION_BUFSIZE
    ensures |Block(w, k + 1)| == BLOCK_SIZE && w[..BLOCK_SIZE * k] + Block(w, k + 1) == w[..BLOCK_SIZE * (k + 1)]
    ensures k + 1 == LAST ==> w[..BLOCK_SIZE * k] + Block(w, k + 1) == w
    ensures Block(w, LAST + 1) == []
  {
  }

  /** Block k+1 is copied into the buffer. */
  lemma BlockBuffered(w: seq<byte>, k: nat)
    requires k + 1 < LAST && |w| == SESSION_BUFSIZE
    ensures Accepted(Buffering(w, k), EMPTY, WRITABLE, k + 1, Block(w, k + 1), 0, Buffering(w, k + 1), EMPTY, AckMsg(k + 1))
  {
    var t, t', p := Buffering(w, k), Buffering(w, k + 1), Block(w, k + 1);
    Grows(w, k);
    assert [] + t.buf == t.buf && t.(fin := t.fin || |p| < BLOCK_SIZE) == t;
    hide Block, AckMsg, ErrReply;
  }

  /** The block that fills the buffer is refused. */
  lemma FillRefused(w: seq<byte>)
    requires |w| == SESSION_BUFSIZE
    ensures Accepted(Buffering(w, LAST - 1), EMPTY, UNWRITABLE, LAST, Block(w, LAST), 0, Full(w), EMPTY,
                     ErrReply(ERR_ACCESSDENY, []))
  {
    var t, p := Buffering(w, LAST - 1), Block(w, LAST);
    Grows(w, LAST - 1);
    AckIsNoError(LAST);
    assert t.(fin := t.fin || |p| < BLOCK_SIZE) == t && p[..|p|] == p;
    hide Block, AckMsg, ErrReply;
  }

  /** It comes again and is stored behind the full buffer. */
  lemma FillTaken(w: seq<byte>)
    requires |w| == SESSION_BUFSIZE
    ensures Accepted(Full(w), EMPTY, WRITABLE, LAST, Block(w, LAST), 0, Flushed(LAST), Doubled(w), AckMsg(LAST))
  {
    var t, p := Full(w), Block(w, LAST);
    Grows(w, LAST - 1);
    assert [] + w == w && t.(fin := t.fin || |p| < BLOCK_SIZE) == t;
    hide Block, AckMsg, ErrReply;
  }

  /** So is the empty block behind it. */
  lemma EndTaken(w: seq<byte>)
    requires |w| == SESSION_BUFSIZE
    ensures Accepted(Flushed(LAST), Doubled(w), WRITABLE, LAST + 1, [], 0, Flushed(LAST + 1), Doubled(w), AckMsg(LAST + 1))
  {
    hide AckMsg, ErrReply;
  }

  lemma StoredOk(w: seq<byte>)
    requires |w| == SESSION_BUFSIZE
    ensures DsInv(EMPTY) && DsInv(Doubled(w)) && PathOf(NAME) == NAME
  {
  }

  // ---- the run ----

  ghost predicate Reached(w: seq<byte>, tr: seq<Sys>, acts: seq<Act>, s: Sys)
  {
    && |w| == SESSION_BUFSIZE && PutProtocol.Run(Upload(w), tr, acts) && tr[|acts|] == s
    && tr[0] == Sys(Srv(map[], EMPTY, []), [], [], 0, false, false)
  }

  lemma Extend(w: seq<byte>, tr: seq<Sys>, acts: seq<Act>, s: Sys, a: Act, s': Sys)
    requires Reached(w, tr, acts, s) && PutProtocol.Step(Upload(w), a, s, s')
    ensures Reached(w, tr + [s'], acts + [a], s')
  {
    hide PutProtocol.Step, PutProtocol.Init;
    var n := |acts|;
    forall j | 0 <= j < n + 1
      ensures PutProtocol.Step(Upload(w), (acts + [a])[j], (tr + [s'])[j], (tr + [s'])[j + 1])
    {
      if j < n {
        var x := acts[j];
      }
    }
  }

  /** The client has block k+1 on its way. */
  function Sending(w: seq<byte>, k: nat): Sys
    requires k < LAST && |w| == SESSION_BUFSIZE
  {
    Sys(Table(Buffering(w, k), EMPTY, AckMsg(k)), [], [DataMsg(k + 1, Block(w, k + 1))], k + 1, false, false)
  }

  /** A block reaches the server, which answers. */
  lemma Delivers(w: seq<byte>, k: u16, p: seq<byte>, keep: bool, env: Env, t: Ses, d: Ds, s: Sys, t': Ses, d': Ds, m: Msg)
    returns (a: Act)
    requires k > 0 && |p| <= BLOCK_SIZE && t.sock == SOCK && t.dir == SessionSpec.Put && t.blknum == k - 1
    requires Accepted(t, d, env, k, p, 0, t', d', m) && DsInv(d') && !t'.disabled
    requires s.srv == Table(t, d, s.srv.msg) && s.toS == [DataMsg(k, p)] && s.toC == []
    ensures PutProtocol.Step(Upload(w), a, s, s.(srv := Table(t', d', m), toC := [m], toS := if keep then s.toS else []))
  {
    hide PacketStep, Accepted, DsInv, Datagram, DataMsg;
    BlockArrives(k, p, env, t, d, s.srv.msg, t', d', m);
    DataFits(k, p);
    a := ServerTakes(keep, Datagram(DataMsg(k, p), SOCK + 1), env, true);
    assert s.toC + [m] == [m];
  }

  lemma DataFits(k: u16, p: seq<byte>)
    requires |p| <= BLOCK_SIZE
    ensures |DataMsg(k, p)| <= NWBUF_SIZE
  {
  }

  /** The client takes the ACK that it waits for and sends the next block. */
  lemma Acked(w: seq<byte>, s: Sys)
    requires s.toC == [AckMsg(Wrap(s.count))] && s.toS == [] && !s.failed && !s.done && s.count < BlockCount(w)
    ensures PutProtocol.Step(Upload(w), ClientTakes(false), s,
                             s.(toC := [], count := s.count + 1, toS := [Message(Upload(w), s.count + 1)]))
  {
    AckParsed(Wrap(s.count));
    hide ClientAck, Message, AckMsg;
  }

  lemma Begin(w: seq<byte>) returns (tr: seq<Sys>, acts: seq<Act>)
    requires |w| == SESSION_BUFSIZE
    ensures Reached(w, tr, acts, Sending(w, 0))
  {
    hide PacketStep, Datagram, AckMsg, ReqMsg, DataMsg, Block, PutProtocol.Step, Reached;
    var s0 := Sys(Srv(map[], EMPTY, []), [], [], 0, false, false);
    var s1, s2 := s0.(toS := [WRQ]), s0.(srv := Table(Uploading(), EMPTY, AckMsg(0)), toC := [AckMsg(0)]);
    var a := Asked(w);
    Acked(w, s2);
    Extend(w, [s0], [], s0, SendAgain, s1);
    Extend(w, [s0] + [s1], [] + [SendAgain], s1, a, s2);
    assert Sending(w, 0) == s2.(toC := [], count := 1, toS := [Message(Upload(w), 1)]);
    Extend(w, [s0] + [s1] + [s2], [] + [SendAgain] + [a], s2, ClientTakes(false), Sending(w, 0));
    tr, acts := [s0] + [s1] + [s2] + [Sending(w, 0)], [] + [SendAgain] + [a] + [ClientTakes(false)];
  }

  lemma Asked(w: seq<byte>) returns (a: Act)
    requires |w| == SESSION_BUFSIZE
    ensures var s0 := Sys(Srv(map[], EMPTY, []), [], [], 0, false, false);
            var s1, s2 := s0.(toS := [WRQ]), s0.(srv := Table(Uploading(), EMPTY, AckMsg(0)), toC := [AckMsg(0)]);
            && Reached(w, [s0], [], s0) && PutProtocol.Step(Upload(w), SendAgain, s0, s1)
            && PutProtocol.Step(Upload(w), a, s1, s2)
  {
    hide PacketStep, AckMsg, ReqMsg, Datagram;
    UploadStarts();
    WrqRead();
    StoredOk(w);
    a := ServerTakes(false, Datagram(WRQ, SOCK), WRITABLE, true);
  }

  lemma {:induction false} Reach(w: seq<byte>, k: nat) returns (tr: seq<Sys>, acts: seq<Act>)
    requires k < LAST && |w| == SESSION_BUFSIZE
    ensures Reached(w, tr, acts, Sending(w, k))
  {
    hide Reached, PutProtocol.Step, Accepted, DsInv, DataMsg, AckMsg, Block;
    if k == 0 {
      tr, acts := Begin(w);
    } else {
      tr, acts := Reach(w, k - 1);
      ReachedHas(w, tr, acts, Sending(w, k - 1));
      BlockBuffered(w, k - 1);
      StoredOk(w);
      var s, s' := Sending(w, k - 1), Sys(Table(Buffering(w, k), EMPTY, AckMsg(k)), [AckMsg(k)], [], k, false, false);
      var a := Delivers(w, k, Block(w, k), false, WRITABLE, Buffering(w, k - 1), EMPTY, s, Buffering(w, k), EMPTY,
                        AckMsg(k));
      Acked(w, s');
      Extend(w, tr, acts, s, a, s');
      Extend(w, tr + [s'], acts + [a], s', ClientTakes(false), Sending(w, k));
      tr, acts := tr + [s'] + [Sending(w, k)], acts + [a] + [ClientTakes(false)];
    }
  }

  lemma ReachedHas(w: seq<byte>, tr: seq<Sys>, acts: seq<Act>, s: Sys)
    requires Reached(w, tr, acts, s)
    ensures |tr| == |acts| + 1
  {
  }

  /** Any octet upload of 8192 bytes can be stored wrongly and acknowledged to its end. */
  lemma BufferStoredTwice(w: seq<byte>) returns (tr: seq<Sys>, acts: seq<Act>)
    requires |w| == SESSION_BUFSIZE
    ensures var g := Upload(w);
            && PutProtocol.Run(g, tr, acts) && tr[0].srv == Srv(map[], EMPTY, []) && g.Plain() == w
            && tr[|acts|].done && tr[|acts|].srv.ds.files == map[g.Path() := w + w[SESSION_BUFSIZE - BLOCK_SIZE..]]
  {
    hide Reached, PutProtocol.Step, Accepted, DsInv, DataMsg, AckMsg, ErrReply;
    var g, m, e := Upload(w), DataMsg(LAST, Block(w, LAST)), ErrReply(ERR_ACCESSDENY, []);
    var a, b := AckMsg(LAST), AckMsg(LAST + 1);
    var s0, t0 := Sending(w, LAST - 1), Buffering(w, LAST - 1);
    var s1 := s0.(srv := Table(Full(w), EMPTY, e), toC := [e]);
    var s2 := s1.(toC := []);
    var s3 := s2.(srv := Table(Flushed(LAST), Doubled(w), a), toC := [a], toS := []);
    var s4 := s3.(toC := [], count := LAST + 1, toS := [DataMsg(LAST + 1, [])]);
    var s5 := s4.(srv := Table(Flushed(LAST + 1), Doubled(w), b), toC := [b], toS := []);
    var s6 := s5.(toC := [], done := true);
    tr, acts := Reach(w, LAST - 1);
    ReachedHas(w, tr, acts, s0);
    StoredOk(w);
    Grows(w, LAST - 1);
    FillRefused(w);
    FillTaken(w);
    EndTaken(w);
    var a1 := Delivers(w, LAST, Block(w, LAST), true, UNWRITABLE, t0, EMPTY, s0, Full(w), EMPTY, e);
    Lost(w, s1, e);
    var a3 := Delivers(w, LAST, Block(w, LAST), false, WRITABLE, Full(w), EMPTY, s2, Flushed(LAST), Doubled(w), a);
    Acked(w, s3);
    var a5 := Delivers(w, LAST + 1, [], false, WRITABLE, Flushed(LAST), Doubled(w), s4, Flushed(LAST + 1), Doubled(w), b);
    Done(w, s5);
    Extend(w, tr, acts, s0, a1, s1);
    Extend(w, tr + [s1], acts + [a1], s1, LoseToClient(0), s2);
    tr, acts := tr + [s1] + [s2], acts + [a1] + [LoseToClient(0)];
    Extend(w, tr, acts, s2, a3, s3);
    Extend(w, tr + [s3], acts + [a3], s3, ClientTakes(false), s4);
    tr, acts := tr + [s3] + [s4], acts + [a3] + [ClientTakes(false)];
    Extend(w, tr, acts, s4, a5, s5);
    Extend(w, tr + [s5], acts + [a5], s5, ClientTakes(false), s6);
    tr, acts := tr + [s5] + [s6], acts + [a5] + [ClientTakes(false)];
    ReachedRun(w, tr, acts, s6);
  }

  lemma Lost(w: seq<byte>, s: Sys, e: Msg)
    requires s.toC == [e]
    ensures PutProtocol.Step(Upload(w), LoseToClient(0), s, s.(toC := []))
  {
  }

  /** The client takes the last ACK. */
  lemma Done(w: seq<byte>, s: Sys)
    requires s.toC == [AckMsg(Wrap(s.count))] && !s.failed && !s.done && s.count == BlockCount(w)
    ensures PutProtocol.Step(Upload(w), ClientTakes(false), s, s.(toC := [], done := true))
  {
    AckParsed(Wrap(s.count));
    hide ClientAck, AckMsg;
  }

  lemma ReachedRun(w: seq<byte>, tr: seq<Sys>, acts: seq<Act>, s: Sys)
    requires Reached(w, tr, acts, s)
    ensures PutProtocol.Run(Upload(w), tr, acts) && tr[|acts|] == s && tr[0].srv == Srv(map[], EMPTY, [])
    ensures Block(w, LAST) == w[SESSION_BUFSIZE - BLOCK_SIZE..] && PathOf(NAME) == NAME
  {
    StoredOk(w);
  }
}
