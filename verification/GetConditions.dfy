/** When the conditions of the download theorem hold, and what happens where they do not. */
module GetConditions {
  import opened Base
  import opened Netascii
  import opened Packets
  import opened DatastoreSpec
  import opened SessionSpec
  import opened SessionTable
  import opened Server
  import opened LeftBehind
  import opened Channels
  import opened GetProtocol

  // ---- one client: the message buffer ----

  /** The message buffer holds nothing that could mislead the client of the session. */
  ghost predicate OwnReply(post: Option<Ses>, msg: Msg)
  {
    post.Some? && !post.value.disabled ==> msg == post.value.lastmsg || ClientData(msg).None?
  }

  lemma OwnReplyKept(pre: Option<Ses>, d: Ds, env: Env, msg: Msg, i: Input, post: Option<Ses>, d': Ds, msg': Msg, ok: bool)
    requires InputOk(i) && Handled(pre, d, env, msg, i, post, d', msg', ok) && (pre.Some? ==> OwnReply(pre, msg))
    ensures post.Some? ==> OwnReply(post, msg')
  {
    hide ClientData, DataBuilt, DataFailed, Stored, Refused, Storable, Finished, ParseReq, ParseData, ParseAck, ErrReply;
    ErrReplyNoData(ERR_SEEMSG, SERVER_ERROR);
    ErrReplyNoData(ERR_ACCESSDENY, []);
    ErrReplyNoData(ERR_ILLEGALOPE, []);
    AckNoData();
  }

  lemma AckNoData()
    ensures forall n: u16 {:trigger AckMsg(n)} :: ClientData(AckMsg(n)).None?
  {
  }

  lemma StepOwnReply(g: Get, a: Act, s: Sys, s': Sys)
    requires Step(g, a, s, s') && OwnReply(Find(s.srv.ses, g.me), s.srv.msg)
    requires a.Elsewhere? ==> !a.e.Packet?
    ensures OwnReply(Find(s'.srv.ses, g.me), s'.srv.msg) && NoForeignReply(g, a, s)
  {
    hide Handled, ClientData, StaleAck, ClientGets;
    if a.ServerTakes? {
      OwnReplyKept(Find(s.srv.ses, g.me), s.srv.ds, a.env, s.srv.msg, a.i,
                   Find(s'.srv.ses, g.me), s'.srv.ds, s'.srv.msg, a.ok);
    } else if a.ClientTakes? {
      ClientKeepsServer(s.(toC := AfterHead(s.toC, a.keep)), s.toC[0]);
    }
  }

  lemma ClientKeepsServer(s: Sys, m: Msg)
    ensures ClientGets(s, m).srv == s.srv
  {
  }

  lemma {:induction false} AloneReplies(g: Get, tr: seq<Sys>, acts: seq<Act>)
    requires Run(g, tr, acts)
    requires forall j {:trigger acts[j]} :: 0 <= j < |acts| && acts[j].Elsewhere? ==> !acts[j].e.Packet?
    ensures OwnReply(Find(tr[|acts|].srv.ses, g.me), tr[|acts|].srv.msg)
    ensures NoForeignReplies(g, tr, acts)
  {
    hide Step, NoForeignReply;
    var n := |acts| - 1;
    if n >= 0 {
      assert forall j :: 0 <= j < n ==> acts[..n][j] == acts[j];
      AloneReplies(g, tr[..n + 1], acts[..n]);
      assert Step(g, acts[n], tr[n], tr[n + 1]);
      StepOwnReply(g, acts[n], tr[n], tr[n + 1]);
      assert forall j :: 0 <= j < n ==> tr[..n + 1][j] == tr[j];
    }
  }

  // ---- datastore sessions left behind ----

  /** No request of the client is on its way, and none will be sent. */
  ghost predicate NoRequests(g: Get, s: Sys) { s.count > 0 && ReqMsg(OP_RRQ, g.req) !in s.toS }

  /** The packet with which the session of another client ends with its file open */
  ghost predicate OthersBreak(a: Act, s: Sys) { a.Elsewhere? && Breaks(a.e, s.srv) }

  lemma RequestIsNoAck(g: Get, j: nat)
    ensures ReqMsg(OP_RRQ, g.req) != AckMsg(Wrap(j))
  {
    assert ReqMsg(OP_RRQ, g.req)[0..2] == Word(OP_RRQ) && AckMsg(Wrap(j))[0..2] == Word(OP_ACK);
  }

  /** An ACK takes every request in front of it out of the channel. */
  lemma AckTaken(g: Get, s: Sys, k: nat, sure: bool, keep: bool, j: int)
    requires Inv(g, s, k, sure) && !s.failed && s.toS != [] && s.toS[0] in A(g, j) && j > 0
    requires (j == k || j == k - 1)
    ensures s.count > 0 && ReqMsg(OP_RRQ, g.req) !in AfterHead(s.toS, keep)
  {
    hide ServerOk, SessionOk, InStep, D, ClientOk;
    RequestIsNoAck(g, k);
    RequestIsNoAck(g, j);
    HeadInStep(s.count == k, s.toC, s.toS, D(g, k - 1), D(g, k), A(g, k - 1), A(g, k), keep);
    if k > 1 {
      RequestIsNoAck(g, k - 1);
      PhaseMembers(s.count == k, s.toC, AfterHead(s.toS, keep), D(g, k - 1), D(g, k), A(g, k - 1), A(g, k));
    } else {
      MessagesDiffer(g, 0, ReqMsg(OP_RRQ, g.req));
    }
  }

  lemma PhaseMembers(caught: bool, toC: seq<Msg>, toS: seq<Msg>, d0: iset<Msg>, d1: iset<Msg>, a0: iset<Msg>, a1: iset<Msg>)
    requires InStep(caught, toC, toS, d0, d1, a0, a1)
    ensures forall m :: m in toS ==> m in a0 || m in a1
  {
    if caught {
      var j :| 0 <= j <= |toS| && All(toS[..j], a0) && All(toS[j..], a1);
      assert toS == toS[..j] + toS[j..];
    }
  }

  /** Until the server has taken an ACK, everything open is held by a transfer that is going on; after
      that, there are no more requests. */
  lemma HeldOrAcked(g: Get, a: Act, s: Sys, s': Sys, k: nat, sure: bool)
    requires Inv(g, s, k, sure) && Step(g, a, s, s') && !OthersBreak(a, s)
    requires s.failed || AllHeld(s.srv) || NoRequests(g, s)
    ensures NothingLeft(g, a, s, s')
    ensures s'.failed || AllHeld(s'.srv) || NoRequests(g, s')
  {
    hide InStep, AllHeld, ServerRuns.Inv, ServerRuns.PacketStep, SessionOk, ClientGets, Breaks, A;
    if s.failed {
      StaysFailed(g, a, s, s');
    } else {
      match a
      case Ask =>
      case AckAgain => RequestIsNoAck(g, s.count);
      case GiveUp(_, _) =>
      case LoseToClient(at) =>
      case LoseToServer(at) => RemoveFewer(s.toS, at);
      case ClientTakes(keep) => ClientAsksNothing(g, s.(toC := AfterHead(s.toC, keep)), s.toC[0]);
      case ServerTakes(keep, i, env, ok) => HeldServer(g, keep, i, env, ok, s, s', k, sure);
      case Resend(now, arrives) =>
        TimerBreaksNothing(now, s.srv);
        HeldEvent(g, ServerRuns.Timer(now), s, s');
      case Elsewhere(e) => HeldEvent(g, e, s, s');
    }
  }

  lemma StaysFailed(g: Get, a: Act, s: Sys, s': Sys)
    requires Step(g, a, s, s') && s.failed
    ensures s'.failed
  {
    hide ServerRuns.PacketStep, ServerRuns.TimerStep, ClientData;
  }

  lemma TimerBreaksNothing(now: nat, s: ServerRuns.Srv)
    ensures !Breaks(ServerRuns.Timer(now), s)
  {
  }

  lemma RemoveFewer(ch: seq<Msg>, at: nat)
    requires at < |ch|
    ensures forall m :: m in RemoveAt(ch, at) ==> m in ch
  {
  }

  lemma ClientAsksNothing(g: Get, s: Sys, m: Msg)
    ensures var s' := ClientGets(s, m);
            s'.srv == s.srv && (NoRequests(g, s) ==> NoRequests(g, s'))
  {
    hide ClientData;
    RequestIsNoAck(g, s.count);
    RequestIsNoAck(g, s.count + 1);
  }

  lemma HeldEvent(g: Get, e: ServerRuns.Event, s: Sys, s': Sys)
    requires ServerRuns.Inv(s.srv) && ServerRuns.Step(e, s.srv, s'.srv) && !Breaks(e, s.srv)
    requires AllHeld(s.srv) || NoRequests(g, s)
    requires s'.toS == s.toS && s'.count == s.count
    ensures AllHeld(s'.srv) || NoRequests(g, s')
  {
    hide AllHeld, ServerRuns.Inv, ServerRuns.Step, Breaks;
    if AllHeld(s.srv) {
      HeldStays(e, s.srv, s'.srv);
    }
  }

  lemma HeldServer(g: Get, keep: bool, i: Input, env: Env, ok: bool, s: Sys, s': Sys, k: nat, sure: bool)
    requires Inv(g, s, k, sure) && !s.failed && ServerStep(g, keep, i, env, ok, s, s')
    requires AllHeld(s.srv) || NoRequests(g, s)
    ensures NothingLeft(g, ServerTakes(keep, i, env, ok), s, s')
    ensures AllHeld(s'.srv) || NoRequests(g, s')
  {
    hide InStep, AllHeld, ServerRuns.Inv, SessionOk, Handled, A, D, ServerRuns.Step, ClientOk;
    var e := ServerRuns.Packet(g.me, i, env, ok);
    var j := GetProtocol.FirstMessage(g, s, k, sure, keep);
    ClientMessage(g, i, j, s.toS[0]);
    assert ServerRuns.Step(e, s.srv, s'.srv) by {
      PacketIsStep(g.me, i, env, ok, s.srv, s'.srv);
    }
    if j > 0 {
      AckTaken(g, s, k, sure, keep, j);
      if g.me !in s.srv.ses {
        AckStartsNothing(g.me, i, env, ok, s.srv, s'.srv);
      }
    } else {
      RequestOnly(g, s.toS[0]);
      assert s.toS[0] in s.toS;
      RequestBreaksNothing(e, s.srv);
      HeldEvent(g, e, s, s'.(toS := s.toS));
      FreshKey(g.me, i, env, ok, s.srv, s'.srv, g.req.name);
    }
  }

  lemma PacketIsStep(c: Client, i: Input, env: Env, ok: bool, s: ServerRuns.Srv, s': ServerRuns.Srv)
    requires ServerRuns.PacketStep(c, i, env, ok, s, s')
    ensures ServerRuns.Step(ServerRuns.Packet(c, i, env, ok), s, s')
  {
  }

  lemma RequestOnly(g: Get, m: Msg)
    requires m in A(g, 0)
    ensures m == ReqMsg(OP_RRQ, g.req)
  {
  }

  lemma AckStartsNothing(c: Client, i: Input, env: Env, ok: bool, s: ServerRuns.Srv, s': ServerRuns.Srv)
    requires ServerRuns.PacketStep(c, i, env, ok, s, s') && Opcode(i.buf) == OP_ACK && c !in s.ses
    ensures c !in s'.ses
  {
    hide DsInv, ParseAck, ErrReply;
  }

  lemma RequestBreaksNothing(e: ServerRuns.Event, s: ServerRuns.Srv)
    requires e.Packet? && InputOk(e.i) && Opcode(e.i.buf) == OP_RRQ
    ensures !Breaks(e, s)
  {
  }

  /** A new descriptor is no key of a datastore session that is held. */
  lemma FreshKey(c: Client, i: Input, env: Env, ok: bool, s: ServerRuns.Srv, s': ServerRuns.Srv, name: seq<byte>)
    requires ServerRuns.PacketStep(c, i, env, ok, s, s') && AllHeld(s)
    ensures (i.sock, name) !in s.ds.open
  {
    hide Handled, DsInv, Conforming;
    var k := (i.sock, name);
    assert k in s.ds.open ==> Held(s, k);
  }

  /** On a server with nothing left behind, nothing is left behind for the request to meet, unless a
      packet of another client ends its session with the file open. */
  lemma {:induction false} NothingToMeet(g: Get, tr: seq<Sys>, acts: seq<Act>)
    requires Run(g, tr, acts) && AllHeld(tr[0].srv) && (Short(g) || NoForeignReplies(g, tr, acts))
    requires forall j {:trigger acts[j]} :: 0 <= j < |acts| ==> !OthersBreak(acts[j], tr[j])
    ensures NothingLeftBehind(g, tr, acts)
    ensures var s := tr[|acts|]; s.failed || AllHeld(s.srv) || NoRequests(g, s)
  {
    hide Step, Inv, NoForeignReply, NothingLeft, Short, AllHeld, OthersBreak;
    var n := |acts| - 1;
    if n >= 0 {
      assert forall j :: 0 <= j < n ==> acts[..n][j] == acts[j];
      assert forall j :: 0 <= j <= n ==> tr[..n + 1][j] == tr[j];
      NothingToMeet(g, tr[..n + 1], acts[..n]);
      var k := RunKeeps(g, tr[..n + 1], acts[..n], false);
      assert Step(g, acts[n], tr[n], tr[n + 1]);
      HeldOrAcked(g, acts[n], tr[n], tr[n + 1], k, false);
    }
  }

  /** GET end to end with no other client, from a server with nothing left behind: no condition on the
      run is left, for files of any length. */
  lemma GetSafeAlone(g: Get, tr: seq<Sys>, acts: seq<Act>)
    requires Run(g, tr, acts) && AllHeld(tr[0].srv)
    requires forall j {:trigger acts[j]} :: 0 <= j < |acts| && acts[j].Elsewhere? ==> !acts[j].e.Packet?
    ensures Delivered(g, tr[|acts|])
  {
    hide Run, AllHeld, Delivered;
    AloneReplies(g, tr, acts);
    NothingToMeet(g, tr, acts);
    GetSafe(g, tr, acts);
  }

  /** GET of a short file beside any other clients, as long as none of them ends its own transfer with the
      file open */
  lemma GetSafeBeside(g: Get, tr: seq<Sys>, acts: seq<Act>)
    requires Run(g, tr, acts) && AllHeld(tr[0].srv)
    requires |Wire(g.req.mode, g.file)| < 0xFFFF * 512
    requires forall j {:trigger acts[j]} :: 0 <= j < |acts| ==> !OthersBreak(acts[j], tr[j])
    ensures Delivered(g, tr[|acts|])
  {
    hide Run, AllHeld, Delivered, OthersBreak;
    NothingToMeet(g, tr, acts);
    GetSafeShort(g, tr, acts);
  }

  // ---- where the conditions are needed ----

  /** The ACK before block number 0 is answered from the message buffer: whatever bytes another
      transfer has left there in a DATA block with the next number, the client accepts them. */
  lemma ForeignReplyAccepted(g: Get, s: Sys, sock: int, p: seq<byte>) returns (a: Act, s1: Sys, s2: Sys)
    requires ServerRuns.Inv(s.srv) && g.me in s.srv.ses && forall x :: x in s.srv.ses ==> s.srv.ses[x].sock != sock
    requires var t := s.srv.ses[g.me];
             t.dir == SessionSpec.Get && t.blknum == 0 && !t.disabled
    requires s.toC == [] && s.toS == [AckMsg(0xFFFF)] && !s.done && !s.failed
    requires |p| <= BLOCK_SIZE && s.srv.msg == DataMsg(Wrap(s.count + 1), p)
    ensures Step(g, a, s, s1) && Step(g, ClientTakes(false), s1, s2)
    ensures s2.got == s.got + p && s2.count == s.count + 1
  {
    hide ServerRuns.Inv;
    var i := Input(AckMsg(0xFFFF) + seq(1020, _ => 0), 4, 0, sock);
    var env := Env(_ => true, _ => true, _ => 0);
    assert i.buf[..4] == AckMsg(0xFFFF);
    AckRead(i, 0xFFFF);
    assert s.srv.ses[g.me := s.srv.ses[g.me]] == s.srv.ses;
    ServerRuns.InvDs(s.srv);
    a := ServerTakes(false, i, env, true);
    s1 := s.(toS := [], toC := [s.srv.msg]);
    DataParsed(Wrap(s.count + 1), p);
    s2 := ClientGets(s1.(toC := []), s.srv.msg);
  }

  /** A datastore session left behind under the key of a new transfer: the transfer has the whole
      file to send exactly when that session has read nothing yet. */
  lemma LeftBehindIff(g: Get, d: Ds, sock: int)
    requires g.Path() in d.files && d.files[g.Path()] == g.file && (sock, g.req.name) in d.open
    requires d.open[(sock, g.req.name)].off <= |g.file|
    ensures Stream(NewSes(OP_RRQ, g.req, sock), d) == g.Wired() <==> d.open[(sock, g.req.name)].off == 0
  {
    var off := d.open[(sock, g.req.name)].off;
    assert [] + g.file[off..] == g.file[off..];
    assert g.file == g.file[..off] + g.file[off..];
    WireConcat(g.req.mode, g.file[..off], g.file[off..]);
    EncodeIdentityIff(g.file[..off]);
  }
}
