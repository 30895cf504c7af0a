/** A run in which a download of 65536 blocks or more delivers bytes of another file: two clients, both
    of them conforming, download long files; one ACK is duplicated and delayed, and one block is lost. */
module LongDownload {
  import opened Base
  import opened Netascii
  import opened Blocks
  import opened Packets
  import opened DatastoreSpec
  import opened SessionSpec
  import opened SessionTable
  import opened LeftBehind
  import opened Channels
  import opened GetProtocol
  import opened GetConditions
  import opened Counterexamples

  // ---- one download, in any datastore ----

  /** How far the session has read after k blocks: buffers of 8192 bytes */
  function Off(f: seq<byte>, k: nat): nat { Min(SESSION_BUFSIZE * ((k + 15) / 16), |f|) }

  /** Whether block k is the last: the only short one */
  predicate Ends(f: seq<byte>, k: nat) { BLOCK_SIZE * k > |f| }

  /** What the session buffer holds after k blocks */
  function Buffer(f: seq<byte>, k: nat): seq<byte> { Drop(Take(f, Off(f, k)), BLOCK_SIZE * k) }

  function Key(g: Get, sock: int): DKey { (sock, g.req.name) }

  /** The session after k blocks */
  function Fetched(g: Get, sock: int, k: nat): Ses
    requires k > 0
  {
    Ses(SessionSpec.Get, OctetMode, sock, g.req.name, Wrap(k), Ends(g.file, k), false, 0,
        DataMsg(Wrap(k), Block(g.file, k)), 0, Buffer(g.file, k), false)
  }

  function Moved(g: Get, sock: int, k: nat, d: Ds): Ds
  {
    d.(open := if Ends(g.file, k) then d.open - {Key(g, sock)} else d.open[Key(g, sock) := Handle(Reading, Off(g.file, k))])
  }

  ghost predicate Serves(g: Get, sock: int, k: nat, d: Ds)
  {
    && g.req.mode == OctetMode && g.Path() in d.files && d.files[g.Path()] == g.file && !Ends(g.file, k)
    && Key(g, sock) in d.open && d.open[Key(g, sock)] == Handle(Reading, Off(g.file, k))
  }

  lemma OffFacts(f: seq<byte>, k: nat)
    requires !Ends(f, k)
    ensures BLOCK_SIZE * k <= Off(f, k) <= |f| && Off(f, k) - BLOCK_SIZE * k <= SESSION_BUFSIZE
    ensures Buffer(f, k) == f[BLOCK_SIZE * k..Off(f, k)] && |Buffer(f, k)| == Off(f, k) - BLOCK_SIZE * k
    ensures |Buffer(f, k)| >= BLOCK_SIZE ==> Off(f, k + 1) == Off(f, k)
  {
  }

  lemma BufferOk(g: Get, sock: int, k: nat)
    requires k > 0
    ensures BufOk(Fetched(g, sock, k))
  {
    if !Ends(g.file, k) {
      OffFacts(g.file, k);
    }
    hide Off, DataMsg, Block;
  }

  lemma StreamAt(g: Get, sock: int, k: nat, d: Ds)
    requires k > 0 && Serves(g, sock, k, d)
    ensures Stream(Fetched(g, sock, k), d) == g.file[BLOCK_SIZE * k..] && Loaded(Fetched(g, sock, k)) == Buffer(g.file, k)
  {
    var f, i, j := g.file, BLOCK_SIZE * k, Off(g.file, k);
    OffFacts(f, k);
    assert f[i..j] + f[j..] == f[i..];
    hide Off, Buffer, DataMsg, Block;
  }

  lemma OnlyOwn(g: Get, sock: int, k: nat, t: Ses, d: Ds)
    requires t.Key() == Key(g, sock) && !Writer(d, Key(g, sock))
    ensures ReadOnly(t, d, Moved(g, sock, k, d))
  {
    assert d.open - {Key(g, sock)} == Moved(g, sock, k, d).open - {Key(g, sock)};
    hide Off, Ends;
  }

  /** The block after `k` others: what is left of it in the string, and what is left behind it */
  lemma BlockAt(f: seq<byte>, k: nat)
    requires !Ends(f, k)
    ensures Take(f[BLOCK_SIZE * k..], BLOCK_SIZE) == Block(f, k + 1)
    ensures Ends(f, k + 1) <==> |f[BLOCK_SIZE * k..]| < BLOCK_SIZE
    ensures |Block(f, k + 1)| < BLOCK_SIZE <==> Ends(f, k + 1)
    ensures !Ends(f, k + 1) ==>
              && f[BLOCK_SIZE * k..][BLOCK_SIZE..] == f[BLOCK_SIZE * (k + 1)..]
              && f[..BLOCK_SIZE * k] + Block(f, k + 1) == f[..BLOCK_SIZE * (k + 1)]
  {
  }

  lemma Unmoved(g: Get, sock: int, k: nat, d: Ds)
    requires Serves(g, sock, k, d) && !Ends(g.file, k + 1)
    ensures Serves(g, sock, k + 1, Moved(g, sock, k + 1, d))
    ensures |Buffer(g.file, k)| >= BLOCK_SIZE ==> Moved(g, sock, k + 1, d) == d
  {
    OffFacts(g.file, k);
    hide Off, Buffer;
  }

  lemma MayReadIt(g: Get, sock: int, k: nat, d: Ds)
    requires k > 0 && Serves(g, sock, k, d)
    ensures Readable(Fetched(g, sock, k), d, ALLOWED) && !Writer(d, Key(g, sock))
  {
    hide Off, DataMsg, Block, Buffer;
  }

  /** After block k, an answer is block k+1. */
  lemma NextAt(g: Get, sock: int, k: nat, d: Ds)
    requires k > 0 && Serves(g, sock, k, d)
    ensures Answered(Fetched(g, sock, k), d, ALLOWED, 0, Fetched(g, sock, k + 1), Moved(g, sock, k + 1, d),
                     DataMsg(Wrap(k + 1), Block(g.file, k + 1)))
  {
    hide Stream, Loaded, Readable, Block, DataMsg, Wrap, Next, ReadOnly, BufOk, Off, Buffer, DsInv;
    var t, t', d' := Fetched(g, sock, k), Fetched(g, sock, k + 1), Moved(g, sock, k + 1, d);
    StreamAt(g, sock, k, d);
    MayReadIt(g, sock, k, d);
    BlockAt(g.file, k);
    NextWrap(k);
    BufferOk(g, sock, k + 1);
    OnlyOwn(g, sock, k + 1, t, d);
    if !Ends(g.file, k + 1) {
      Unmoved(g, sock, k, d);
      StreamAt(g, sock, k + 1, d');
    }
    hide Fetched, Moved, Ends, Serves;
  }

  /** A request is answered with block 1. */
  lemma FirstAt(g: Get, sock: int, d: Ds)
    requires g.req.mode == OctetMode && g.Path() in d.files && d.files[g.Path()] == g.file && Key(g, sock) !in d.open
    requires !Ends(g.file, 1)
    ensures Answered(NewSes(OP_RRQ, g.req, sock), d, ALLOWED, 0, Fetched(g, sock, 1), Moved(g, sock, 1, d),
                     DataMsg(1, Block(g.file, 1)))
    ensures Serves(g, sock, 1, Moved(g, sock, 1, d))
  {
    hide Stream, Loaded, Readable, Block, DataMsg, ReadOnly, BufOk, Off, Buffer, DsInv;
    var t, d' := NewSes(OP_RRQ, g.req, sock), Moved(g, sock, 1, d);
    NewStream(g, d, sock);
    NothingLoaded(t);
    NewReadable(g, sock, d);
    BlockAt(g.file, 0);
    BufferOk(g, sock, 1);
    OnlyOwn(g, sock, 1, t, d);
    StreamAt(g, sock, 1, d');
  }

  lemma NewReadable(g: Get, sock: int, d: Ds)
    requires g.Path() in d.files && Key(g, sock) !in d.open
    ensures Readable(NewSes(OP_RRQ, g.req, sock), d, ALLOWED)
  {
  }

  lemma MovedOk(g: Get, sock: int, k: nat, d: Ds)
    requires DsInv(d) && g.Path() in d.files && d.files[g.Path()] == g.file && !Writer(d, Key(g, sock))
    ensures DsInv(Moved(g, sock, k, d))
  {
    var d' := Moved(g, sock, k, d);
    assert d.open - {Key(g, sock)} == d'.open - {Key(g, sock)};
    ChangeKeepsInv(d, d', Key(g, sock));
  }

  // ---- beside other sessions ----

  /** The server `s` when the session of `g` has sent block k */
  function With(s: ServerRuns.Srv, g: Get, sock: int, k: nat): ServerRuns.Srv
    requires k > 0
  {
    ServerRuns.Srv(s.ses[g.me := Fetched(g, sock, k)], Moved(g, sock, k, s.ds), DataMsg(Wrap(k), Block(g.file, k)))
  }

  lemma WithTwice(s: ServerRuns.Srv, g: Get, sock: int, k: nat)
    requires k > 0 && !Ends(g.file, k)
    ensures With(With(s, g, sock, k), g, sock, k + 1) == With(s, g, sock, k + 1)
  {
    hide Fetched, DataMsg, Block, Off;
    var d, t := s.ds, Fetched(g, sock, k + 1);
    assert Moved(g, sock, k + 1, Moved(g, sock, k, d)) == Moved(g, sock, k + 1, d);
    assert s.ses[g.me := Fetched(g, sock, k)][g.me := t] == s.ses[g.me := t];
  }

  /** The client's request arrives at a server that has no session for it. */
  lemma Asks(s: ServerRuns.Srv, g: Get, sock: int)
    requires g.Ok() && g.req.mode == OctetMode && !Ends(g.file, 1) && DsInv(s.ds)
    requires g.me !in s.ses && (forall x :: x in s.ses ==> s.ses[x].sock != sock) && Key(g, sock) !in s.ds.open
    requires g.Path() in s.ds.files && s.ds.files[g.Path()] == g.file
    ensures |ReqMsg(OP_RRQ, g.req)| <= NWBUF_SIZE && Serves(g, sock, 1, With(s, g, sock, 1).ds)
    ensures ServerRuns.PacketStep(g.me, Datagram(ReqMsg(OP_RRQ, g.req), sock), ALLOWED, true, s, With(s, g, sock, 1))
  {
    var i := Datagram(ReqMsg(OP_RRQ, g.req), sock);
    RequestRead(g, i);
    FirstAt(g, sock, s.ds);
    MovedOk(g, sock, 1, s.ds);
    hide Answered, Datagram, ParseReq, DsInv, Block, DataMsg, ReqMsg, Opcode, Fetched, Moved, Serves;
    ServerRuns.Begins(g.me, i, ALLOWED, g.req, s, Fetched(g, sock, 1), Moved(g, sock, 1, s.ds),
                      DataMsg(1, Block(g.file, 1)));
  }

  /** ACK k arrives; `free` is a descriptor that no session has. */
  lemma Acks(s: ServerRuns.Srv, g: Get, sock: int, k: nat, free: int)
    requires k > 0 && g.me in s.ses && s.ses[g.me] == Fetched(g, sock, k) && Serves(g, sock, k, s.ds) && DsInv(s.ds)
    requires forall x :: x in s.ses ==> s.ses[x].sock != free
    ensures ServerRuns.PacketStep(g.me, Datagram(AckMsg(Wrap(k)), free), ALLOWED, true, s, With(s, g, sock, k + 1))
    ensures !Ends(g.file, k + 1) ==> Serves(g, sock, k + 1, With(s, g, sock, k + 1).ds)
  {
    var i := Datagram(AckMsg(Wrap(k)), free);
    AckRead(i, Wrap(k));
    NextAt(g, sock, k, s.ds);
    MayReadIt(g, sock, k, s.ds);
    MovedOk(g, sock, k + 1, s.ds);
    if !Ends(g.file, k + 1) {
      Unmoved(g, sock, k, s.ds);
    }
    hide Answered, Datagram, ParseAck, DsInv, Block, DataMsg, Moved, Off, Buffer, Serves;
    ServerRuns.Continues(g.me, i, ALLOWED, s, Fetched(g, sock, k + 1), Moved(g, sock, k + 1, s.ds),
                         DataMsg(Wrap(k + 1), Block(g.file, k + 1)));
  }

  // ---- runs of one client beside others ----

  /** A run whose conditions, but for the one on the message buffer, all hold */
  ghost predicate Reached(g: Get, tr: seq<Sys>, acts: seq<Act>, s: Sys)
  {
    Run(g, tr, acts) && NothingLeftBehind(g, tr, acts) && tr[|acts|] == s && ServerRuns.Inv(s.srv)
  }

  lemma Extend(g: Get, tr: seq<Sys>, acts: seq<Act>, s: Sys, a: Act, s': Sys)
    requires Reached(g, tr, acts, s) && Step(g, a, s, s') && NothingLeft(g, a, s, s')
    ensures Reached(g, tr + [s'], acts + [a], s')
  {
    hide Step, NothingLeft, ServerRuns.Inv, Init;
    ServerInvKept(g, a, s, s');
    var ts, bs := tr + [s'], acts + [a];
    forall j {:trigger bs[j]} | 0 <= j < |bs|
      ensures Step(g, bs[j], ts[j], ts[j + 1]) && NothingLeft(g, bs[j], ts[j], ts[j + 1])
    {
      if j < |acts| {
        var b := acts[j];
        assert bs[j] == b && ts[j] == tr[j] && ts[j + 1] == tr[j + 1];
      }
    }
  }

  lemma ServerInvKept(g: Get, a: Act, s: Sys, s': Sys)
    requires Step(g, a, s, s') && ServerRuns.Inv(s.srv)
    ensures ServerRuns.Inv(s'.srv)
  {
    hide ServerRuns.Inv, ServerRuns.PacketStep, ServerRuns.TimerStep, ClientGets;
    match a
    case ServerTakes(keep, i, env, ok) => ServerRuns.PacketKeepsInv(g.me, i, env, ok, s.srv, s'.srv);
    case Resend(now, arrives) => ServerRuns.TimerKeepsInv(now, s.srv, s'.srv);
    case Elsewhere(e) => ServerRuns.StepKeepsInv(e, s.srv, s'.srv);
    case ClientTakes(keep) => ClientKeepsServer(s.(toC := AfterHead(s.toC, keep)), s.toC[0]);
    case _ =>
  }

  lemma ReachedHas(g: Get, tr: seq<Sys>, acts: seq<Act>, s: Sys)
    requires Reached(g, tr, acts, s)
    ensures |tr| == |acts| + 1 && ServerRuns.Inv(s.srv) && DsInv(s.srv.ds)
  {
  }

  lemma QuietActs(g: Get, s: Sys, s': Sys)
    ensures NothingLeft(g, ClientTakes(false), s, s') && NothingLeft(g, LoseToClient(0), s, s') && NothingLeft(g, Ask, s, s')
    ensures forall e :: NothingLeft(g, Elsewhere(e), s, s')
    ensures forall keep, i, env, ok :: g.me in s.srv.ses ==> NothingLeft(g, ServerTakes(keep, i, env, ok), s, s')
  {
  }

  /** A packet of another client */
  lemma OtherActs(g: Get, c: Client, i: Input, s: Sys, srv: ServerRuns.Srv)
    requires c != g.me && ServerRuns.PacketStep(c, i, ALLOWED, true, s.srv, srv)
    ensures Step(g, Elsewhere(ServerRuns.Packet(c, i, ALLOWED, true)), s, s.(srv := srv))
  {
    hide ServerRuns.PacketStep;
  }

  // ---- the two transfers ----

  /** The transfer `g` that goes wrong, and the other one, `h` */
  datatype Case = Case(g: Get, h: Get)
  {
    ghost predicate Ok()
    {
      && g.Ok() && h.Ok() && g.me != h.me && g.Path() != h.Path()
      && g.req.mode == OctetMode && h.req.mode == OctetMode
      && |g.file| >= BLOCK_SIZE * 0xFFFF && |h.file| >= BLOCK_SIZE * 0xFFFF
    }

    function Idle(): ServerRuns.Srv { ServerRuns.Srv(map[], Ds(map[g.Path() := g.file, h.Path() := h.file], map[]), []) }

    function Start(): Sys { Sys(Idle(), [], [], [], 0, false, false) }

    /** The other client waits for its block 65536. */
    function Base(): ServerRuns.Srv { With(Idle(), h, SOCK, 0xFFFF) }

    /** Block k is on its way to the client; `late` is an ACK that has been duplicated. */
    function Sent(k: nat, late: seq<Msg>): Sys
      requires 0 < k <= 0x1_0000
    {
      Sys(With(Base(), g, SOCK + 1, k), [DataMsg(Wrap(k), Block(g.file, k))], late, Got(k - 1), k - 1, false, false)
    }

    /** Block k has been accepted, and its ACK is on its way. */
    function Acked(k: nat): Sys
      requires 0 < k <= 0xFFFF
    {
      Sys(With(Base(), g, SOCK + 1, k), [], [AckMsg(Wrap(k))], Got(k), k, false, false)
    }

    function Got(k: nat): seq<byte> { Take(g.file, BLOCK_SIZE * k) }
  }

  lemma StartsClean(c: Case)
    requires c.Ok()
    ensures Init(c.g, c.Start()) && ServerRuns.Inv(c.Start().srv) && AllHeld(c.Start().srv)
    ensures Reached(c.g, [c.Start()], [], c.Start())
  {
  }

  /** The other client's download, block by block */
  lemma {:induction false} Others(c: Case, k: nat) returns (tr: seq<Sys>, acts: seq<Act>)
    requires c.Ok() && 0 < k <= 0xFFFF
    ensures Reached(c.g, tr, acts, c.Start().(srv := With(c.Idle(), c.h, SOCK, k))) && tr[0] == c.Start()
    ensures Serves(c.h, SOCK, k, With(c.Idle(), c.h, SOCK, k).ds)
  {
    hide Reached, Step, NothingLeft, ServerRuns.Inv, ServerRuns.PacketStep, DsInv, Serves, With, Datagram, ReqMsg;
    NotYet(c.h, k);
    if k == 1 {
      StartsClean(c);
      StartsFree(c);
      tr, acts := [c.Start()], [];
      Asks(c.Idle(), c.h, SOCK);
      Another(c.g, tr, acts, c.Start(), c.h.me, Datagram(ReqMsg(OP_RRQ, c.h.req), SOCK), With(c.Idle(), c.h, SOCK, 1));
      tr, acts := tr + [c.Start().(srv := With(c.Idle(), c.h, SOCK, 1))],
                  acts + [Elsewhere(ServerRuns.Packet(c.h.me, Datagram(ReqMsg(OP_RRQ, c.h.req), SOCK), ALLOWED, true))];
    } else {
      tr, acts := Others(c, k - 1);
      var s := c.Start().(srv := With(c.Idle(), c.h, SOCK, k - 1));
      ReachedHas(c.g, tr, acts, s);
      NotYet(c.h, k - 1);
      WithOne(c.Idle(), c.h, SOCK, k - 1);
      WithTwice(c.Idle(), c.h, SOCK, k - 1);
      Acks(s.srv, c.h, SOCK, k - 1, SOCK + 2);
      Another(c.g, tr, acts, s, c.h.me, Datagram(AckMsg(Wrap(k - 1)), SOCK + 2), With(c.Idle(), c.h, SOCK, k));
      tr, acts := tr + [s.(srv := With(c.Idle(), c.h, SOCK, k))],
                  acts + [Elsewhere(ServerRuns.Packet(c.h.me, Datagram(AckMsg(Wrap(k - 1)), SOCK + 2), ALLOWED, true))];
    }
  }

  lemma Another(g: Get, tr: seq<Sys>, acts: seq<Act>, s: Sys, c: Client, i: Input, srv: ServerRuns.Srv)
    requires Reached(g, tr, acts, s) && c != g.me && ServerRuns.PacketStep(c, i, ALLOWED, true, s.srv, srv)
    ensures Reached(g, tr + [s.(srv := srv)], acts + [Elsewhere(ServerRuns.Packet(c, i, ALLOWED, true))], s.(srv := srv))
    ensures |tr| > 0 && (tr + [s.(srv := srv)])[0] == tr[0]
  {
    hide Reached, Step, NothingLeft, ServerRuns.PacketStep;
    ReachedHas(g, tr, acts, s);
    OtherActs(g, c, i, s, srv);
    QuietActs(g, s, s.(srv := srv));
    Extend(g, tr, acts, s, Elsewhere(ServerRuns.Packet(c, i, ALLOWED, true)), s.(srv := srv));
  }

  lemma NotYet(g: Get, k: nat)
    requires |g.file| >= BLOCK_SIZE * 0xFFFF && k <= 0xFFFF
    ensures !Ends(g.file, k)
  {
  }

  lemma StartsFree(c: Case)
    requires c.Ok()
    ensures DsInv(c.Idle().ds) && c.h.me !in c.Idle().ses && Key(c.h, SOCK) !in c.Idle().ds.open
    ensures c.h.Path() in c.Idle().ds.files && c.Idle().ds.files[c.h.Path()] == c.h.file
  {
  }

  lemma WithOne(s: ServerRuns.Srv, g: Get, sock: int, k: nat)
    requires k > 0
    ensures var t := With(s, g, sock, k);
            && g.me in t.ses && t.ses[g.me] == Fetched(g, sock, k) && t.ses[g.me].sock == sock
            && t.ds.files == s.ds.files
            && (forall x :: x != g.me ==> (x in t.ses <==> x in s.ses))
            && (forall x :: x != g.me && x in s.ses ==> t.ses[x] == s.ses[x])
            && (forall y :: y != Key(g, sock) ==> (y in t.ds.open <==> y in s.ds.open))
            && (forall y :: y != Key(g, sock) && y in s.ds.open ==> t.ds.open[y] == s.ds.open[y])
  {
    hide DataMsg, Block, Off, Buffer;
  }

  // ---- the download that goes wrong ----

  /** What the request of `g` meets */
  lemma BaseFacts(c: Case)
    requires c.Ok()
    ensures var s := c.Base();
            && c.g.me !in s.ses && (forall x :: x in s.ses ==> s.ses[x].sock == SOCK)
            && Key(c.g, SOCK + 1) !in s.ds.open && c.g.Path() in s.ds.files && s.ds.files[c.g.Path()] == c.g.file
  {
    hide With;
    WithOne(c.Idle(), c.h, SOCK, 0xFFFF);
  }

  lemma Begin(c: Case) returns (tr: seq<Sys>, acts: seq<Act>)
    requires c.Ok()
    ensures Reached(c.g, tr, acts, c.Acked(1)) && tr[0] == c.Start()
    ensures Serves(c.g, SOCK + 1, 1, With(c.Base(), c.g, SOCK + 1, 1).ds)
  {
    hide Reached, Step, NothingLeft, ServerRuns.Inv, ServerRuns.PacketStep, DsInv, Serves, With, Datagram, ReqMsg, Block;
    tr, acts := Others(c, 0xFFFF);
    var s0 := c.Start().(srv := c.Base());
    var s1 := s0.(toS := [ReqMsg(OP_RRQ, c.g.req)]);
    ReachedHas(c.g, tr, acts, s0);
    BaseFacts(c);
    NotYet(c.g, 1);
    Asks(c.Base(), c.g, SOCK + 1);
    Asking(c.g, s0);
    QuietActs(c.g, s0, s1);
    Extend(c.g, tr, acts, s0, Ask, s1);
    var a := RequestTaken(c, s1);
    Extend(c.g, tr + [s1], acts + [Ask], s1, a, c.Sent(1, []));
    BlockArrives(c, 1);
    QuietActs(c.g, c.Sent(1, []), c.Acked(1));
    Extend(c.g, tr + [s1] + [c.Sent(1, [])], acts + [Ask] + [a], c.Sent(1, []), ClientTakes(false), c.Acked(1));
    tr, acts := tr + [s1] + [c.Sent(1, [])] + [c.Acked(1)], acts + [Ask] + [a] + [ClientTakes(false)];
  }

  lemma Asking(g: Get, s: Sys)
    requires !s.failed && s.count == 0 && s.toS == []
    ensures Step(g, Ask, s, s.(toS := [ReqMsg(OP_RRQ, g.req)]))
  {
    hide ReqMsg;
    assert s.toS + [ReqMsg(OP_RRQ, g.req)] == [ReqMsg(OP_RRQ, g.req)];
  }

  /** The packet that the server takes, and its answer for the channel */
  lemma Taken(g: Get, keep: bool, i: Input, m: Msg, s: Sys, srv: ServerRuns.Srv)
    requires InputOk(i) && i.buf[..i.len] == m && s.toS == [m] && s.toC == []
    requires ServerRuns.PacketStep(g.me, i, ALLOWED, true, s.srv, srv) && g.me in srv.ses && !srv.ses[g.me].disabled
    ensures Step(g, ServerTakes(keep, i, ALLOWED, true), s,
                 s.(srv := srv, toS := if keep then [m] else [], toC := [srv.msg]))
  {
    hide ServerRuns.PacketStep;
    assert [m][1..] == [] && s.toC + [srv.msg] == [srv.msg];
  }

  lemma RequestTaken(c: Case, s: Sys) returns (a: Act)
    requires c.Ok() && s == c.Start().(srv := c.Base(), toS := [ReqMsg(OP_RRQ, c.g.req)])
    requires |ReqMsg(OP_RRQ, c.g.req)| <= NWBUF_SIZE && Key(c.g, SOCK + 1) !in s.srv.ds.open
    requires ServerRuns.PacketStep(c.g.me, Datagram(ReqMsg(OP_RRQ, c.g.req), SOCK + 1), ALLOWED, true, s.srv,
                                   With(c.Base(), c.g, SOCK + 1, 1))
    ensures Step(c.g, a, s, c.Sent(1, [])) && NothingLeft(c.g, a, s, c.Sent(1, []))
  {
    hide ServerRuns.PacketStep, ReqMsg, Datagram, Step, Block, DataMsg, Case.Base;
    var i, t := Datagram(ReqMsg(OP_RRQ, c.g.req), SOCK + 1), With(c.Base(), c.g, SOCK + 1, 1);
    a := ServerTakes(false, i, ALLOWED, true);
    Taken(c.g, false, i, ReqMsg(OP_RRQ, c.g.req), s, t);
    assert c.Got(0) == [];
    assert c.Sent(1, []) == s.(srv := t, toS := [], toC := [t.msg]);
  }

  /** Block k arrives. */
  lemma BlockArrives(c: Case, k: nat)
    requires c.Ok() && 0 < k <= 0xFFFF
    ensures Step(c.g, ClientTakes(false), c.Sent(k, []), c.Acked(k))
  {
    hide ClientData, Block, DataMsg, With, AckMsg, Wrap, Case.Base;
    var b := Block(c.g.file, k);
    NotYet(c.g, k - 1);
    NotYet(c.g, k);
    BlockAt(c.g.file, k - 1);
    GotAt(c, k);
    DataParsed(Wrap(k), b);
    assert [DataMsg(Wrap(k), b)][1..] == [] && [] + [AckMsg(Wrap(k))] == [AckMsg(Wrap(k))];
  }

  lemma GotAt(c: Case, k: nat)
    requires c.Ok() && 0 < k <= 0xFFFF
    ensures c.Got(k - 1) + Block(c.g.file, k) == c.Got(k)
  {
  }

  /** ACK k arrives, perhaps to come again, and block k+1 goes out. */
  lemma AckArrives(c: Case, k: nat, again: bool) returns (a: Act)
    requires c.Ok() && 0 < k <= 0xFFFF && ServerRuns.Inv(c.Acked(k).srv)
    requires Serves(c.g, SOCK + 1, k, With(c.Base(), c.g, SOCK + 1, k).ds)
    ensures var late := if again then [AckMsg(Wrap(k))] else [];
            Step(c.g, a, c.Acked(k), c.Sent(k + 1, late)) && NothingLeft(c.g, a, c.Acked(k), c.Sent(k + 1, late))
    ensures k < 0xFFFF ==> Serves(c.g, SOCK + 1, k + 1, With(c.Base(), c.g, SOCK + 1, k + 1).ds)
  {
    hide ServerRuns.PacketStep, ServerRuns.Inv, Datagram, Step, Block, DataMsg, With, Serves, Case.Base, NothingLeft;
    var s, i := c.Acked(k), Datagram(AckMsg(Wrap(k)), SOCK + 2);
    var t := With(c.Base(), c.g, SOCK + 1, k + 1);
    ServerRuns.InvDs(s.srv);
    BaseFacts(c);
    NotYet(c.g, k);
    if k < 0xFFFF {
      NotYet(c.g, k + 1);
    }
    WithOne(c.Base(), c.g, SOCK + 1, k);
    WithOne(c.Base(), c.g, SOCK + 1, k + 1);
    WithTwice(c.Base(), c.g, SOCK + 1, k);
    Acks(s.srv, c.g, SOCK + 1, k, SOCK + 2);
    a := ServerTakes(again, i, ALLOWED, true);
    Taken(c.g, again, i, AckMsg(Wrap(k)), s, t);
    WithMsg(c.Base(), c.g, SOCK + 1, k + 1);
    QuietActs(c.g, s, c.Sent(k + 1, if again then [AckMsg(Wrap(k))] else []));
  }

  lemma WithMsg(s: ServerRuns.Srv, g: Get, sock: int, k: nat)
    requires k > 0
    ensures With(s, g, sock, k).msg == DataMsg(Wrap(k), Block(g.file, k)) && !With(s, g, sock, k).ses[g.me].disabled
  {
  }

  /** Without losses, for any number of blocks up to 65535 */
  lemma {:induction false} Reach(c: Case, k: nat) returns (tr: seq<Sys>, acts: seq<Act>)
    requires c.Ok() && 0 < k <= 0xFFFF
    ensures Reached(c.g, tr, acts, c.Acked(k)) && tr[0] == c.Start()
    ensures Serves(c.g, SOCK + 1, k, With(c.Base(), c.g, SOCK + 1, k).ds)
  {
    hide Reached, Step, NothingLeft, ServerRuns.Inv, With, Serves, Case.Base, Case.Sent, Case.Acked;
    if k == 1 {
      tr, acts := Begin(c);
    } else {
      tr, acts := Reach(c, k - 1);
      ReachedHas(c.g, tr, acts, c.Acked(k - 1));
      var a := AckArrives(c, k - 1, false);
      Extend(c.g, tr, acts, c.Acked(k - 1), a, c.Sent(k, []));
      tr, acts := tr + [c.Sent(k, [])], acts + [a];
      BlockArrives(c, k);
      QuietActs(c.g, c.Sent(k, []), c.Acked(k));
      Extend(c.g, tr, acts, c.Sent(k, []), ClientTakes(false), c.Acked(k));
      tr, acts := tr + [c.Acked(k)], acts + [ClientTakes(false)];
    }
  }

  /** Block 65536 has been lost; ACK 65535 is still to come again; and the message buffer holds block 65536 of
      the other file. */
  function Confused(c: Case): Sys
  {
    c.Sent(0x1_0000, [AckMsg(0xFFFF)]).(srv := With(With(c.Base(), c.g, SOCK + 1, 0x1_0000), c.h, SOCK, 0x1_0000), toC := [])
  }

  lemma ReachConfused(c: Case) returns (tr: seq<Sys>, acts: seq<Act>)
    requires c.Ok()
    ensures Reached(c.g, tr, acts, Confused(c)) && tr[0] == c.Start()
  {
    hide Reached, Step, NothingLeft, ServerRuns.Inv, With, Serves, Case.Base, ServerRuns.PacketStep, Datagram, DsInv;
    var n, late := 0x1_0000, [AckMsg(0xFFFF)];
    var s0, s1 := c.Acked(n - 1), c.Sent(n, late);
    var s2, i := s1.(toC := []), Datagram(AckMsg(Wrap(0xFFFF)), SOCK + 2);
    tr, acts := Reach(c, n - 1);
    ReachedHas(c.g, tr, acts, s0);
    var a := AckArrives(c, n - 1, true);
    Extend(c.g, tr, acts, s0, a, s1);
    BlockLost(c);
    QuietActs(c.g, s1, s2);
    Extend(c.g, tr + [s1], acts + [a], s1, LoseToClient(0), s2);
    tr, acts := tr + [s1] + [s2], acts + [a] + [LoseToClient(0)];
    ReachedHas(c.g, tr, acts, s2);
    OtherWaits(c);
    Acks(s2.srv, c.h, SOCK, 0xFFFF, SOCK + 2);
    Another(c.g, tr, acts, s2, c.h.me, i, Confused(c).srv);
    tr, acts := tr + [Confused(c)], acts + [Elsewhere(ServerRuns.Packet(c.h.me, i, ALLOWED, true))];
  }

  lemma BlockLost(c: Case)
    ensures var s := c.Sent(0x1_0000, [AckMsg(0xFFFF)]); Step(c.g, LoseToClient(0), s, s.(toC := []))
  {
    hide DataMsg, Block, With, Case.Base;
  }

  /** The other session is where it was. */
  lemma OtherWaits(c: Case)
    requires c.Ok()
    ensures var s := With(c.Base(), c.g, SOCK + 1, 0x1_0000);
            && c.h.me in s.ses && s.ses[c.h.me] == Fetched(c.h, SOCK, 0xFFFF) && Serves(c.h, SOCK, 0xFFFF, s.ds)
            && forall x :: x in s.ses ==> s.ses[x].sock != SOCK + 2
  {
    hide With, Fetched, Off, Case.Base;
    BaseFacts(c);
    BaseServes(c);
    WithOne(c.Base(), c.g, SOCK + 1, 0x1_0000);
  }

  lemma BaseServes(c: Case)
    requires c.Ok()
    ensures c.h.me in c.Base().ses && c.Base().ses[c.h.me] == Fetched(c.h, SOCK, 0xFFFF)
    ensures Serves(c.h, SOCK, 0xFFFF, c.Base().ds)
  {
    NotYet(c.h, 0xFFFF);
    hide Fetched, Off;
  }

  /** The run goes on: the server answers ACK 65535 with block 65536 of the other file, and the client takes it
      for its own. */
  lemma LongFileMisled(c: Case) returns (tr: seq<Sys>, acts: seq<Act>)
    requires c.Ok() && !(Block(c.h.file, 0x1_0000) <= c.g.file[BLOCK_SIZE * 0xFFFF..])
    ensures Run(c.g, tr, acts) && NothingLeftBehind(c.g, tr, acts) && tr[0] == c.Start() && AllHeld(tr[0].srv)
    ensures var got := tr[|acts|].got;
            && got == c.g.file[..BLOCK_SIZE * 0xFFFF] + Block(c.h.file, 0x1_0000)
            && !(got <= c.g.file) && !Delivered(c.g, tr[|acts|])
  {
    hide Reached, Step, NothingLeft, ServerRuns.Inv, With, Block, AckMsg, AllHeld, Case.Base;
    var s, p := Confused(c), Block(c.h.file, 0x1_0000);
    tr, acts := ReachConfused(c);
    ReachedHas(c.g, tr, acts, s);
    StartsClean(c);
    ConfusedFacts(c);
    var a, s1, s2 := ForeignReplyAccepted(c.g, s, SOCK + 2, p);
    ForeignLeavesNothing(c.g, a, s, s1);
    Extend(c.g, tr, acts, s, a, s1);
    QuietActs(c.g, s1, s2);
    Extend(c.g, tr + [s1], acts + [a], s1, ClientTakes(false), s2);
    tr, acts := tr + [s1] + [s2], acts + [a] + [ClientTakes(false)];
    ReachedRun(c.g, tr, acts, s2);
    NoPrefix(c.g.file, BLOCK_SIZE * 0xFFFF, p);
    NotDelivered(c.g, s2);
  }

  lemma ConfusedFacts(c: Case)
    requires c.Ok()
    ensures var s := Confused(c);
            && c.g.me in s.srv.ses && (forall x :: x in s.srv.ses ==> s.srv.ses[x].sock != SOCK + 2)
            && s.srv.ses[c.g.me].dir == SessionSpec.Get && s.srv.ses[c.g.me].blknum == 0 && !s.srv.ses[c.g.me].disabled
            && s.srv.msg == DataMsg(Wrap(s.count + 1), Block(c.h.file, 0x1_0000))
            && s.got == c.g.file[..BLOCK_SIZE * 0xFFFF]
  {
    hide DataMsg, Block, Off, Buffer, Case.Base;
    BaseFacts(c);
  }

  lemma NoPrefix(f: seq<byte>, n: nat, p: seq<byte>)
    requires n <= |f|
    ensures f[..n] + p <= f ==> p <= f[n..]
  {
    if f[..n] + p <= f {
      assert (f[..n] + p)[n..] == p && f[..n + |p|][n..] == f[n..][..|p|];
    }
  }

  lemma ReachedRun(g: Get, tr: seq<Sys>, acts: seq<Act>, s: Sys)
    requires Reached(g, tr, acts, s)
    ensures Run(g, tr, acts) && NothingLeftBehind(g, tr, acts) && tr[|acts|] == s
  {
  }

  lemma ForeignLeavesNothing(g: Get, a: Act, s: Sys, s': Sys)
    requires g.me in s.srv.ses
    ensures NothingLeft(g, a, s, s')
  {
  }

  lemma NotDelivered(g: Get, s: Sys)
    requires g.req.mode == OctetMode && !(s.got <= g.file)
    ensures !Delivered(g, s)
  {
  }
}
