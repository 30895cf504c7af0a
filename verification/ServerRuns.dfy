/** The whole server as a value, its steps, and what holds over every run: any number of clients,
    any datagrams (in the direction of their transfer), and any faults of the file system. */
module ServerRuns {
  import opened Base
  import opened Packets
  import opened DatastoreSpec
  import opened SessionSpec
  import opened SessionTable
  import opened Server

  datatype Srv = Srv(ses: map<Client, Ses>, ds: Ds, msg: seq<byte>)

  /** A datagram from `c`, one pass of the timer, one clean-up. `ok` is the result of tftp_proc. */
  datatype Event = Packet(c: Client, i: Input, env: Env, ok: bool) | Timer(now: nat) | Cleanup(now: nat)

  /** One call of tftp_proc. The system gives a new session a descriptor that no session holds; that
      the datastore stays sound is part of what tftp_proc ensures. */
  ghost predicate PacketStep(c: Client, i: Input, env: Env, ok: bool, s: Srv, s': Srv)
  {
    && InputOk(i) && Conforming(Find(s.ses, c), i)
    && (forall x :: x in s.ses ==> s.ses[x].sock != i.sock)
    && Became(s.ses, c, Find(s'.ses, c), s'.ses)
    && Handled(Find(s.ses, c), s.ds, env, s.msg, i, Find(s'.ses, c), s'.ds, s'.msg, ok)
    && DsInv(s'.ds)
  }

  ghost predicate GivesUp(m: map<Client, Ses>, now: nat, k: DKey)
  {
    exists c :: c in m && TimerCloses(m[c], now) && m[c].Key() == k
  }

  /** resend_allsession */
  ghost predicate TimerStep(now: nat, s: Srv, s': Srv)
  {
    && s'.ses == (map c | c in s.ses :: TimerSes(s.ses[c], now))
    && s'.ds.files == s.ds.files
    && s'.ds.open == (map k | k in s.ds.open && !GivesUp(s.ses, now, k) :: s.ds.open[k])
    && s'.msg == s.msg
  }

  /** cleanup_session */
  ghost predicate CleanupStep(now: nat, s: Srv, s': Srv)
  {
    && s'.ses == KeepOf(s.ses, now)
    && s'.ds == s.ds && s'.msg == s.msg
  }

  ghost predicate Step(e: Event, s: Srv, s': Srv)
  {
    match e
    case Packet(c, i, env, ok) => PacketStep(c, i, env, ok, s, s')
    case Timer(now) => TimerStep(now, s, s')
    case Cleanup(now) => CleanupStep(now, s, s')
  }

  ghost predicate Run(tr: seq<Srv>, ev: seq<Event>)
  {
    |tr| == |ev| + 1 && forall j {:trigger ev[j]} :: 0 <= j < |ev| ==> Step(ev[j], tr[j], tr[j + 1])
  }

  /** What a step sends to `c`: the reply, or a message that the timer sends again */
  ghost function Out(e: Event, s: Srv, s': Srv, c: Client): Option<seq<byte>>
  {
    match e
    case Packet(x, _, _, ok) => if x == c then SessionSpec.Sent(Find(s'.ses, c), s'.msg, ok) else None
    case Timer(now) => if c in s.ses && TimerSends(s.ses[c], now) then Some(s.ses[c].lastmsg) else None
    case Cleanup(_) => None
  }

  /** A request of a client without a session, answered with its first block */
  lemma Begins(c: Client, i: Input, env: Env, r: Request, s: Srv, t: Ses, d': Ds, msg': seq<byte>)
    requires InputOk(i) && Opcode(i.buf) == OP_RRQ && ParseReq(i.buf, i.len) == Some(r)
    requires c !in s.ses && (forall x :: x in s.ses ==> s.ses[x].sock != i.sock) && PathOf(r.name) in s.ds.files
    requires Answered(NewSes(OP_RRQ, r, i.sock), s.ds, env, i.now, t, d', msg') && DsInv(d')
    ensures PacketStep(c, i, env, true, s, Srv(s.ses[c := t], d', msg'))
  {
    hide Answered, DsInv, ParseReq, Opcode;
  }

  /** A datagram for a session */
  lemma Continues(c: Client, i: Input, env: Env, s: Srv, t': Ses, d': Ds, msg': seq<byte>)
    requires InputOk(i) && c in s.ses && (forall x :: x in s.ses ==> s.ses[x].sock != i.sock)
    requires Conforming(Some(s.ses[c]), i) && DsInv(d')
    requires Handled(Some(s.ses[c]), s.ds, env, s.msg, i, Some(t'), d', msg', true)
    ensures PacketStep(c, i, env, true, s, Srv(s.ses[c := t'], d', msg'))
  {
    hide Handled, DsInv, Conforming;
  }

  lemma RunInit(tr: seq<Srv>, ev: seq<Event>)
    requires Run(tr, ev) && |ev| > 0
    ensures Run(tr[..|ev|], ev[..|ev| - 1])
    ensures Step(ev[|ev| - 1], tr[|ev| - 1], tr[|ev|])
  {
  }

  // ---- the invariant ----

  /** The buffer of an upload has room between calls; only a refused flush can leave it full. */
  ghost predicate SesOk(t: Ses, d: Ds)
  {
    && BufOk(t) && (t.dir == Put && !t.fin ==> |t.buf| < SESSION_BUFSIZE)
    && t.retry <= RESEND_COUNTMAX && PutReady(t, d)
  }

  /** The datastore is sound, no two sessions share a descriptor, and every session is sound. */
  ghost predicate Inv(s: Srv)
  {
    && DsInv(s.ds)
    && (forall c, x {:trigger s.ses[c], s.ses[x]} :: c in s.ses && x in s.ses && s.ses[c].sock == s.ses[x].sock ==> c == x)
    && (forall c {:trigger s.ses[c]} :: c in s.ses ==> SesOk(s.ses[c], s.ds))
  }

  /** What one request of the key `k` may do to the datastore: nothing elsewhere; its own file only
      grows, and only for its writer; and no file that exists gets a new writer. */
  ghost predicate Effect(k: DKey, d: Ds, d': Ds)
  {
    var p := PathOf(k.1);
    && OnlyTouches(d, d', k)
    && Content(d, p) <= Content(d', p) && (p in d.files ==> p in d'.files)
    && (p in d.files && !Writer(d, k) ==> d'.files == d.files && !Writer(d', k))
  }

  lemma StoreEffect(s: Ses, d: Ds, d': Ds)
    requires AppendOnly(s, d, d') && (s.Key() in d.open ==> Writer(d, s.Key()))
    ensures Effect(s.Key(), d, d')
  {
  }

  lemma CloseEffect(s: Ses, d: Ds)
    ensures Effect(s.Key(), d, CloseData(s, d))
  {
  }

  /** Which session this is does not change. */
  predicate SameTransfer(s: Ses, t: Ses)
  {
    s.dir == t.dir && s.mode == t.mode && s.sock == t.sock && s.name == t.name
  }

  lemma AcceptedFacts(s: Ses, d: Ds, env: Env, blk: u16, p: seq<byte>, now: nat, s': Ses, d': Ds, msg': seq<byte>)
    requires Accepted(s, d, env, blk, p, now, s', d', msg') && SesOk(s, d) && s.dir == Put
    ensures SesOk(s', d') && SameTransfer(s, s') && Effect(s.Key(), d, d') && s'.disabled == s.disabled
    ensures s'.blknum == (if msg' == AckMsg(blk) then blk else s.blknum)
    ensures s'.retry == (if msg' == AckMsg(blk) then 0 else s.retry)
  {
    hide Received, OnlyTouches, DsInv;
    AckIsNoError(blk);
    var s1 := s.(fin := s.fin || |p| < BLOCK_SIZE);
    assert s1.Key() == s.Key() && s1.Path() == s.Path();
    assert AppendOnly(s, d, d') by {
      var s2 := s1.(buf := s'.buf);
      if msg' == AckMsg(blk) {
        assert if s1.fin then Finished(s1, d, p, s2, d') else Stored(s1, d, p, s2, d');
      }
    }
    StoreEffect(s, d, d');
  }

  lemma AnsweredFacts(s: Ses, d: Ds, env: Env, now: nat, s': Ses, d': Ds, msg': seq<byte>)
    requires Answered(s, d, env, now, s', d', msg') && s.retry <= RESEND_COUNTMAX && s.dir == Get
    ensures SesOk(s', d') && SameTransfer(s, s') && Effect(s.Key(), d, d') && s'.disabled == s.disabled
    ensures s'.blknum == Next(s.blknum)
  {
  }

  lemma ResentFacts(s: Ses, d: Ds, msg: seq<byte>, now: nat, s': Ses, d': Ds, msg': seq<byte>)
    requires Resent(s, d, msg, now, s', d', msg') && SesOk(s, d)
    ensures SesOk(s', d') && SameTransfer(s, s') && Effect(s.Key(), d, d')
    ensures s' == s.(lastsending := s'.lastsending, retry := s'.retry, disabled := s'.disabled)
    ensures s'.retry == (if s.retry < RESEND_COUNTMAX then s.retry + 1 else s.retry)
    ensures s'.disabled == (s.disabled || s.retry >= RESEND_COUNTMAX)
    ensures d'.files == d.files && (s.retry < RESEND_COUNTMAX ==> d' == d)
  {
  }

  ghost predicate Evolves(s: Ses, d: Ds, t: Ses, d': Ds)
  {
    SesOk(t, d') && SameTransfer(s, t) && Effect(s.Key(), d, d') && (s.disabled ==> t.disabled)
  }

  /** A datagram that repeats what the session has already answered. The number before 0 is not
      recognised: the code compares with `blknum - 1` as an integer. */
  ghost predicate Duplicate(s: Ses, i: Input)
    requires InputOk(i)
  {
    var op := Opcode(i.buf);
    || op == OP_RRQ || op == OP_WRQ
    || (op == OP_DATA && ParseData(i.buf, i.len).Some? && ParseData(i.buf, i.len).value.blk == s.blknum)
    || (op == OP_ACK && ParseAck(i.buf, i.len).Some? && ParseAck(i.buf, i.len).value as int == s.blknum as int - 1)
  }

  lemma DuplicateResent(s: Ses, d: Ds, env: Env, msg: seq<byte>, i: Input,
                        post: Option<Ses>, d': Ds, msg': seq<byte>, ok: bool)
    requires InputOk(i) && Handled(Some(s), d, env, msg, i, post, d', msg', ok) && Duplicate(s, i)
    ensures ok && post.Some? && Resent(s, d, msg, i.now, post.value, d', msg')
  {
    hide Resent, Accepted, Answered;
  }

  /** A datagram for a client that has a session */
  lemma KnownHandled(s: Ses, d: Ds, env: Env, msg: seq<byte>, i: Input,
                     post: Option<Ses>, d': Ds, msg': seq<byte>, ok: bool)
    requires InputOk(i) && Handled(Some(s), d, env, msg, i, post, d', msg', ok) && Conforming(Some(s), i)
    requires SesOk(s, d)
    ensures post.Some? && Evolves(s, d, post.value, d')
    ensures !Duplicate(s, i) ==>
              post.value.retry == s.retry || (post.value.retry == 0 && post.value.blknum != s.blknum && !IsError(msg'))
  {
    hide Resent, Accepted, Answered, OnlyTouches, DsInv, Effect;
    EffectNone(s.Key(), d);
    CloseEffect(s, d);
    if Duplicate(s, i) {
      DuplicateResent(s, d, env, msg, i, post, d', msg', ok);
      ResentFacts(s, d, msg, i.now, post.value, d', msg');
    } else if Opcode(i.buf) == OP_DATA && ParseData(i.buf, i.len).Some? {
      var data := ParseData(i.buf, i.len).value;
      if data.blk == Next(s.blknum) {
        AcceptedFacts(s, d, env, data.blk, data.payload, i.now, post.value, d', msg');
        NoError(data.blk, []);
      }
    } else if Opcode(i.buf) == OP_ACK && ParseAck(i.buf, i.len).Some? {
      if ParseAck(i.buf, i.len).value == s.blknum && !s.fin {
        AnsweredFacts(s, d, env, i.now, post.value, d', msg');
        AnsweredRetry(s, d, env, i.now, post.value, d', msg');
      }
    }
  }

  lemma EffectNone(k: DKey, d: Ds)
    ensures Effect(k, d, d)
  {
  }

  /** A datagram for a client that has none */
  lemma NewHandled(d: Ds, env: Env, msg: seq<byte>, i: Input, post: Option<Ses>, d': Ds, msg': seq<byte>, ok: bool)
    requires InputOk(i) && Handled(None, d, env, msg, i, post, d', msg', ok) && DsInv(d)
    ensures post.None? ==> d' == d
    ensures post.Some? ==>
              && SesOk(post.value, d') && Effect(post.value.Key(), d, d')
              && post.value.sock == i.sock && post.value.retry == 0 && !post.value.disabled
  {
    hide Answered, OnlyTouches, Effect, ParseReq;
    if post.Some? {
      var op, r := Opcode(i.buf), ParseReq(i.buf, i.len).value;
      var s := NewSes(op, r, i.sock);
      EffectNone(s.Key(), d);
      if op == OP_RRQ {
        AnsweredFacts(s, d, env, i.now, post.value, d', msg');
        AnsweredRetry(s, d, env, i.now, post.value, d', msg');
      } else {
        assert s.Key() in d.open ==> HandleOk(d, s.Key());
      }
    }
  }

  lemma AnsweredRetry(s: Ses, d: Ds, env: Env, now: nat, s': Ses, d': Ds, msg': seq<byte>)
    requires Answered(s, d, env, now, s', d', msg')
    ensures s'.retry == (if IsError(msg') then s.retry else 0) && s'.blknum == Next(s.blknum)
  {
    ErrMsgIsError(ERR_SEEMSG, SERVER_ERROR);
    NoError(Base.Next(s.blknum), Take(Stream(s, d), BLOCK_SIZE));
  }

  /** One call of tftp_proc, seen from its client and from everyone else */
  ghost predicate OneTouched(s: Srv, s': Srv, c: Client, k: DKey)
  {
    && Effect(k, s.ds, s'.ds) && DsInv(s'.ds)
    && s'.ses - {c} == s.ses - {c}
    && (c in s.ses ==> c in s'.ses && k == s.ses[c].Key() && Evolves(s.ses[c], s.ds, s'.ses[c], s'.ds))
    && (c !in s.ses && c in s'.ses ==> k == s'.ses[c].Key() && SesOk(s'.ses[c], s'.ds) && !s'.ses[c].disabled)
    && (c !in s.ses ==> forall x :: x in s.ses ==> s.ses[x].sock != k.0)
  }

  lemma PacketTouchesOne(c: Client, i: Input, env: Env, ok: bool, s: Srv, s': Srv) returns (k: DKey)
    requires PacketStep(c, i, env, ok, s, s') && Inv(s)
    ensures OneTouched(s, s', c, k)
  {
    hide Handled, Conforming, DsInv, Effect, Evolves;
    var pre, post := Find(s.ses, c), Find(s'.ses, c);
    BecameElsewhere(s.ses, c, post, s'.ses);
    k := (i.sock, []);
    if pre.Some? {
      KnownHandled(pre.value, s.ds, env, s.msg, i, post, s'.ds, s'.msg, ok);
      EvolvesEffect(pre.value, s.ds, post.value, s'.ds);
      k := pre.value.Key();
    } else {
      NewHandled(s.ds, env, s.msg, i, post, s'.ds, s'.msg, ok);
      if post.Some? {
        k := post.value.Key();
      } else {
        EffectNone(k, s.ds);
      }
    }
  }

  lemma BecameElsewhere(m: map<Client, Ses>, c: Client, post: Option<Ses>, m': map<Client, Ses>)
    requires Became(m, c, post, m') && post == Find(m', c)
    ensures m' - {c} == m - {c}
  {
  }

  lemma EvolvesEffect(s: Ses, d: Ds, t: Ses, d': Ds)
    requires Evolves(s, d, t, d')
    ensures Effect(s.Key(), d, d') && t.sock == s.sock && t.Key() == s.Key() && SesOk(t, d')
    ensures s.disabled ==> t.disabled
  {
  }

  /** Another session, and its place in its file, are as before. Only the file that the step writes
      can have grown. */
  ghost predicate Undisturbed(t: Ses, d: Ds, d': Ds)
  {
    && (t.Key() in d.open <==> t.Key() in d'.open)
    && (t.Key() in d.open ==> d'.open[t.Key()] == d.open[t.Key()])
    && Content(d, t.Path()) <= Content(d', t.Path())
    && (Writer(d, t.Key()) ==> Content(d', t.Path()) == Content(d, t.Path()))
  }

  lemma OtherUndisturbed(k: DKey, d: Ds, d': Ds, t: Ses)
    requires Effect(k, d, d') && DsInv(d) && t.sock != k.0
    ensures Undisturbed(t, d, d')
  {
    OnlyTouchesElsewhere(d, d', k);
    if Writer(d, t.Key()) && PathOf(k.1) == t.Path() {
      assert HandleOk(d, t.Key());
      assert Writer(d, k) ==> k == t.Key();
      assert d'.files == d.files;
    }
  }

  lemma UndisturbedOk(t: Ses, d: Ds, d': Ds)
    requires Undisturbed(t, d, d') && SesOk(t, d)
    ensures SesOk(t, d')
  {
  }

  /** Session isolation: a datagram of one client leaves every other session, and every other
      session's place in its file, as they were. */
  lemma Isolation(c: Client, i: Input, env: Env, ok: bool, s: Srv, s': Srv, x: Client)
    requires PacketStep(c, i, env, ok, s, s') && Inv(s) && x != c && x in s.ses
    ensures x in s'.ses && s'.ses[x] == s.ses[x] && Undisturbed(s.ses[x], s.ds, s'.ds)
  {
    hide Effect, DsInv, Evolves, Undisturbed, Handled;
    var k := PacketTouchesOne(c, i, env, ok, s, s');
    assert x in s.ses - {c} && x in s'.ses - {c} && (s'.ses - {c})[x] == (s.ses - {c})[x];
    if c in s.ses {
      assert s.ses[c].sock != s.ses[x].sock;
    }
    OtherUndisturbed(k, s.ds, s'.ds, s.ses[x]);
  }

  lemma PacketKeepsInv(c: Client, i: Input, env: Env, ok: bool, s: Srv, s': Srv)
    requires PacketStep(c, i, env, ok, s, s') && Inv(s)
    ensures Inv(s')
  {
    hide Effect, DsInv, SesOk, Handled, Conforming;
    var k := PacketTouchesOne(c, i, env, ok, s, s');
    forall x | x in s'.ses
      ensures SesOk(s'.ses[x], s'.ds)
      ensures x != c ==> x in s.ses && s'.ses[x] == s.ses[x]
    {
      if x != c {
        assert x in s'.ses - {c};
        assert x in s.ses;
        Isolation(c, i, env, ok, s, s', x);
        UndisturbedOk(s.ses[x], s.ds, s'.ds);
      }
    }
  }

  lemma FewerOpen(d: Ds, d': Ds)
    requires DsInv(d) && d'.files == d.files
    requires forall k :: k in d'.open ==> k in d.open && d'.open[k] == d.open[k]
    ensures DsInv(d')
  {
    forall k | k in d'.open
      ensures HandleOk(d', k)
    {
      assert HandleOk(d, k);
    }
    assert forall k :: Writer(d', k) ==> Writer(d, k);
  }

  lemma TimerSesOk(t: Ses, now: nat, d: Ds, d': Ds)
    requires SesOk(t, d) && forall k :: k in d'.open ==> k in d.open && d'.open[k] == d.open[k]
    ensures SesOk(TimerSes(t, now), d') && SameTransfer(t, TimerSes(t, now))
  {
  }

  lemma TimerKeepsInv(now: nat, s: Srv, s': Srv)
    requires TimerStep(now, s, s') && Inv(s)
    ensures Inv(s')
  {
    FewerOpen(s.ds, s'.ds);
    hide DsInv, GivesUp, SesOk, TimerSes;
    forall c | c in s'.ses
      ensures SesOk(s'.ses[c], s'.ds) && s'.ses[c].sock == s.ses[c].sock
    {
      assert SesOk(s.ses[c], s.ds);
      TimerSesOk(s.ses[c], now, s.ds, s'.ds);
    }
  }

  lemma CleanupKeepsInv(now: nat, s: Srv, s': Srv)
    requires CleanupStep(now, s, s') && Inv(s)
    ensures Inv(s')
  {
    hide SesOk, DsInv, Expired;
  }

  lemma StepKeepsInv(e: Event, s: Srv, s': Srv)
    requires Step(e, s, s') && Inv(s)
    ensures Inv(s')
  {
    hide Inv, PacketStep, TimerStep, CleanupStep;
    match e
    case Packet(c, i, env, ok) => PacketKeepsInv(c, i, env, ok, s, s');
    case Timer(now) => TimerKeepsInv(now, s, s');
    case Cleanup(now) => CleanupKeepsInv(now, s, s');
  }

  lemma {:induction false} RunKeepsInv(tr: seq<Srv>, ev: seq<Event>)
    requires Run(tr, ev) && Inv(tr[0])
    ensures forall j :: 0 <= j < |tr| ==> Inv(tr[j])
  {
    if |ev| > 0 {
      RunInit(tr, ev);
      RunKeepsInv(tr[..|ev|], ev[..|ev| - 1]);
      assert forall j :: 0 <= j < |ev| ==> tr[..|ev|][j] == tr[j];
      StepKeepsInv(ev[|ev| - 1], tr[|ev| - 1], tr[|ev|]);
    }
  }

  lemma OwnKeyStays(c: Client, now: nat, s: Srv, s': Srv)
    requires TimerStep(now, s, s') && Inv(s) && c in s.ses && !TimerCloses(s.ses[c], now)
    ensures var k := s.ses[c].Key();
            (k in s.ds.open <==> k in s'.ds.open) && (k in s.ds.open ==> s'.ds.open[k] == s.ds.open[k])
  {
  }

  lemma NotMine(e: Event, s: Srv, s': Srv, c: Client)
    requires e.Packet? && e.c != c && PacketStep(e.c, e.i, e.env, e.ok, s, s') && c !in s.ses
    ensures c !in s'.ses
  {
  }

  lemma InvDs(s: Srv)
    requires Inv(s)
    ensures DsInv(s.ds)
  {
  }

  // ---- files ----

  /** A file that nobody writes */
  ghost predicate Sealed(d: Ds, p: Path)
  {
    p in d.files && forall k :: Writer(d, k) ==> PathOf(k.1) != p
  }

  /** A file that only `k` can be writing */
  ghost predicate OnlyBy(d: Ds, p: Path, k: DKey)
  {
    p in d.files && forall l :: Writer(d, l) && PathOf(l.1) == p ==> l == k
  }

  /** No file is removed or overwritten: it grows at its end, only through the one session that
      created it, and not at all once that session has closed it. */
  ghost predicate FilesKept(d: Ds, d': Ds)
  {
    && (forall p :: p in d.files ==> p in d'.files && d.files[p] <= d'.files[p])
    && (forall p :: Sealed(d, p) ==> Sealed(d', p) && d'.files[p] == d.files[p])
    && (forall p, k :: OnlyBy(d, p, k) ==> OnlyBy(d', p, k))
  }

  lemma EffectKeepsFiles(k: DKey, d: Ds, d': Ds)
    requires Effect(k, d, d')
    ensures FilesKept(d, d')
  {
    OnlyTouchesElsewhere(d, d', k);
    var q := PathOf(k.1);
    forall p | p in d.files
      ensures p in d'.files && d.files[p] <= d'.files[p]
      ensures Sealed(d, p) ==> d'.files[p] == d.files[p]
    {
      assert Content(d, p) == d.files[p] && Content(d', p) == d'.files[p];
      assert Writer(d, k) ==> (Sealed(d, p) ==> p != q);
    }
    assert forall l :: l != k ==> (Writer(d', l) <==> Writer(d, l));
  }

  lemma FilesKeptTrans(d: Ds, e: Ds, f: Ds)
    ensures FilesKept(d, d) && (FilesKept(d, e) && FilesKept(e, f) ==> FilesKept(d, f))
  {
  }

  lemma FewerOpenKeepsFiles(d: Ds, d': Ds)
    requires d'.files == d.files
    requires forall k :: k in d'.open ==> k in d.open && d'.open[k] == d.open[k]
    ensures FilesKept(d, d')
  {
  }

  lemma StepKeepsFiles(e: Event, s: Srv, s': Srv)
    requires Step(e, s, s') && Inv(s)
    ensures FilesKept(s.ds, s'.ds)
  {
    hide FilesKept, Effect, Inv, PacketStep;
    match e
    case Packet(c, i, env, ok) =>
      var k := PacketTouchesOne(c, i, env, ok, s, s');
      EffectKeepsFiles(k, s.ds, s'.ds);
    case Timer(now) => FewerOpenKeepsFiles(s.ds, s'.ds);
    case Cleanup(now) => FewerOpenKeepsFiles(s.ds, s'.ds);
  }

  /** No overwrite, over every run and between any two of its states. */
  lemma {:induction false} NoOverwrite(tr: seq<Srv>, ev: seq<Event>, i: nat, j: nat)
    requires Run(tr, ev) && Inv(tr[0]) && i <= j < |tr|
    ensures FilesKept(tr[i].ds, tr[j].ds)
    decreases j
  {
    hide FilesKept, Step;
    RunKeepsInv(tr, ev);
    FilesKeptTrans(tr[i].ds, tr[if i < j then j - 1 else j].ds, tr[j].ds);
    if i < j {
      NoOverwrite(tr, ev, i, j - 1);
      assert Step(ev[j - 1], tr[j - 1], tr[j - 1 + 1]);
      StepKeepsFiles(ev[j - 1], tr[j - 1], tr[j]);
    }
  }

  /** Single writer, over every run: whoever writes a file at some time is the only one ever to
      write it afterwards, however many clients have asked to create it. */
  lemma OneWriter(tr: seq<Srv>, ev: seq<Event>, i: nat, j: nat, k: DKey, l: DKey)
    requires Run(tr, ev) && Inv(tr[0]) && i <= j < |tr|
    requires Writer(tr[i].ds, k) && Writer(tr[j].ds, l) && PathOf(k.1) == PathOf(l.1)
    ensures k == l
  {
    RunKeepsInv(tr, ev);
    assert HandleOk(tr[i].ds, k);
    assert OnlyBy(tr[i].ds, PathOf(k.1), k);
    NoOverwrite(tr, ev, i, j);
  }

  /** Until it is deleted, a disabled session stays disabled, and nothing is sent to it. */
  lemma {:induction false} DisabledStays(tr: seq<Srv>, ev: seq<Event>, c: Client)
    requires Run(tr, ev) && Inv(tr[0]) && c in tr[0].ses && tr[0].ses[c].disabled
    requires forall j {:trigger ev[j]} :: 0 <= j < |ev| ==> c in tr[j].ses
    ensures c in tr[|ev|].ses ==> tr[|ev|].ses[c].disabled
    ensures forall j {:trigger ev[j]} :: 0 <= j < |ev| ==> Out(ev[j], tr[j], tr[j + 1], c).None?
  {
    hide Inv, Step, Out;
    var n := |ev|;
    if n > 0 {
      var e := ev[n - 1];
      RunInit(tr, ev);
      RunKeepsInv(tr[..n], ev[..n - 1]);
      forall j | 0 <= j < n - 1
        ensures c in tr[..n][j].ses
      {
        var x := ev[j];
      }
      DisabledStays(tr[..n], ev[..n - 1], c);
      DisabledStep(e, tr[n - 1], tr[n], c);
      forall j | 0 <= j < n
        ensures Out(ev[j], tr[j], tr[j + 1], c).None?
      {
        if j < n - 1 {
          assert Out(ev[..n - 1][j], tr[..n][j], tr[..n][j + 1], c).None?;
        }
      }
    }
  }

  lemma DisabledStep(e: Event, s: Srv, s': Srv, c: Client)
    requires Step(e, s, s') && Inv(s) && c in s.ses && s.ses[c].disabled
    ensures c in s'.ses ==> s'.ses[c].disabled
    ensures Out(e, s, s', c).None?
  {
    hide Inv, PacketStep, Evolves, Effect;
    if e.Packet? {
      var k := PacketTouchesOne(e.c, e.i, e.env, e.ok, s, s');
      if e.c == c {
        EvolvesEffect(s.ses[c], s.ds, s'.ses[c], s'.ds);
      } else {
        assert c in s.ses - {e.c};
        assert c in s'.ses - {e.c} && (s'.ses - {e.c})[c] == (s.ses - {e.c})[c];
      }
    }
  }

  // ---- datastore sessions left behind ----

  lemma GetKeepsFiles(s: Ses, d: Ds, env: Env, msg: seq<byte>, i: Input,
                      post: Option<Ses>, d': Ds, msg': seq<byte>, ok: bool)
    requires InputOk(i) && Handled(Some(s), d, env, msg, i, post, d', msg', ok) && Conforming(Some(s), i)
    requires s.dir == Get
    ensures d'.files == d.files && (Writer(d', s.Key()) ==> Writer(d, s.Key()))
  {
    hide Stream, ParseReq, ParseAck, Accepted;
  }

  lemma NewKeepsFiles(d: Ds, env: Env, msg: seq<byte>, i: Input, post: Option<Ses>, d': Ds, msg': seq<byte>, ok: bool)
    requires InputOk(i) && Handled(None, d, env, msg, i, post, d', msg', ok) && post.Some?
    ensures d'.files == d.files
    ensures post.value.dir == Put ==> post.value.Path() !in d.files && d' == d
  {
    hide Stream, ParseReq, ParseAck;
  }

  /** No transfer but that of `c` can write the file, even if an unfinished one has left its
      datastore session open. */
  ghost predicate Quiet(s: Srv, p: Path, c: Client)
  {
    && p in s.ds.files
    && forall x {:trigger s.ses[x]} :: x in s.ses && x != c && s.ses[x].Path() == p && Writer(s.ds, s.ses[x].Key()) ==>
         s.ses[x].dir == Get
  }

  /** Over any run without packets of `c`, a file that no other transfer can write stays as it is, also
      when descriptors are used again. */
  lemma {:induction false} QuietStays(tr: seq<Srv>, ev: seq<Event>, p: Path, c: Client)
    requires Run(tr, ev) && Inv(tr[0]) && Quiet(tr[0], p, c)
    requires forall j {:trigger ev[j]} :: 0 <= j < |ev| && ev[j].Packet? ==> ev[j].c != c
    ensures Quiet(tr[|ev|], p, c) && tr[|ev|].ds.files[p] == tr[0].ds.files[p]
  {
    hide Inv, Step;
    var n := |ev|;
    if n > 0 {
      var e := ev[n - 1];
      RunInit(tr, ev);
      RunKeepsInv(tr[..n], ev[..n - 1]);
      assert forall j :: 0 <= j < n - 1 ==> ev[..n - 1][j] == ev[j];
      QuietStays(tr[..n], ev[..n - 1], p, c);
      QuietStep(e, tr[n - 1], tr[n], p, c);
    }
  }

  lemma QuietStep(e: Event, s: Srv, s': Srv, p: Path, c: Client)
    requires Step(e, s, s') && Inv(s) && Quiet(s, p, c) && (e.Packet? ==> e.c != c)
    ensures Quiet(s', p, c) && s'.ds.files[p] == s.ds.files[p]
  {
    if e.Packet? {
      hide Effect, DsInv, SesOk, Handled, Conforming, Evolves, Undisturbed;
      var k := PacketTouchesOne(e.c, e.i, e.env, e.ok, s, s');
      QuietPacket(e.c, e.i, e.env, e.ok, s, s', p, k);
      forall x | x in s'.ses && x != c && s'.ses[x].Path() == p && Writer(s'.ds, s'.ses[x].Key())
        ensures s'.ses[x].dir == Get
      {
        if x != e.c {
          assert x in s'.ses - {e.c};
          Isolation(e.c, e.i, e.env, e.ok, s, s', x);
          SameWriter(s.ses[x], s.ds, s'.ds);
        }
      }
    }
  }

  /** A transfer that creates a file is the only one that can write it. */
  lemma QuietOwn(c: Client, i: Input, env: Env, ok: bool, s: Srv, s': Srv, p: Path, k: DKey)
    requires PacketStep(c, i, env, ok, s, s') && Inv(s) && OneTouched(s, s', c, k)
    requires p in s.ds.files ==> Quiet(s, p, c)
    ensures p in s'.ds.files ==> Quiet(s', p, c)
  {
    hide Effect, SesOk, Handled, Conforming, Evolves, Undisturbed;
    forall x | x in s'.ses && x != c && s'.ses[x].Path() == p && Writer(s'.ds, s'.ses[x].Key())
      ensures s'.ses[x].dir == Get
    {
      assert x in s'.ses - {c};
      Isolation(c, i, env, ok, s, s', x);
      SameWriter(s.ses[x], s.ds, s'.ds);
      assert HandleOk(s.ds, s.ses[x].Key());
    }
  }

  lemma OwnKeyClosed(s: Srv, s': Srv, c: Client, k: DKey)
    requires OneTouched(s, s', c, k) && c in s.ses && s.ses[c].dir == Put
    requires s.ses[c].Path() in s.ds.files && s.ses[c].Key() !in s.ds.open
    ensures s'.ses[c].Key() !in s'.ds.open
  {
    hide OnlyTouches, DsInv;
  }

  lemma SameWriter(t: Ses, d: Ds, d': Ds)
    requires Undisturbed(t, d, d')
    ensures Writer(d, t.Key()) <==> Writer(d', t.Key())
  {
  }

  lemma QuietPacket(y: Client, i: Input, env: Env, ok: bool, s: Srv, s': Srv, p: Path, k: DKey)
    requires PacketStep(y, i, env, ok, s, s') && Inv(s) && OneTouched(s, s', y, k) && p in s.ds.files
    requires y in s.ses && s.ses[y].Path() == p && Writer(s.ds, s.ses[y].Key()) ==> s.ses[y].dir == Get
    ensures p in s'.ds.files && s'.ds.files[p] == s.ds.files[p]
    ensures y in s'.ses && s'.ses[y].Path() == p && Writer(s'.ds, s'.ses[y].Key()) ==> s'.ses[y].dir == Get
  {
    hide DsInv, SesOk, Handled, Conforming, OnlyTouches;
    var post := Find(s'.ses, y);
    assert Content(s.ds, p) == s.ds.files[p];
    OnlyTouchesElsewhere(s.ds, s'.ds, k);
    if y in s.ses {
      if s.ses[y].dir == Get {
        assert Conforming(Find(s.ses, y), i);
        GetKeepsFiles(s.ses[y], s.ds, env, s.msg, i, post, s'.ds, s'.msg, ok);
      }
    } else if post.Some? {
      NewKeepsFiles(s.ds, env, s.msg, i, post, s'.ds, s'.msg, ok);
    } else {
      NewHandled(s.ds, env, s.msg, i, post, s'.ds, s'.msg, ok);
    }
  }

  // ---- retransmission ----

  /** Whether the step sends the last message of `c` once more: the label resend, or the timer */
  ghost predicate Resends(e: Event, s: Srv, c: Client)
  {
    c in s.ses &&
    match e
    case Packet(x, i, _, _) => x == c && InputOk(i) && Duplicate(s.ses[c], i) && s.ses[c].retry < RESEND_COUNTMAX
    case Timer(now) => TimerSends(s.ses[c], now)
    case Cleanup(_) => false
  }

  /** Whether it starts a transfer with `c` or changes the block number of the transfer */
  ghost predicate Advances(s: Srv, s': Srv, c: Client)
  {
    c in s'.ses && (c in s.ses ==> s'.ses[c].blknum != s.ses[c].blknum)
  }

  /** Whether it does so with a new message, a DATA or an ACK, and not with the ERROR of a failed load */
  ghost predicate Builds(s: Srv, s': Srv, c: Client) { Advances(s, s', c) && !IsError(s'.msg) }

  /** Whether it starts a transfer whose first load fails: a session without any message */
  ghost predicate FailsToStart(s: Srv, s': Srv, c: Client)
  {
    c !in s.ses && Advances(s, s', c) && IsError(s'.msg)
  }

  ghost function ResendCount(tr: seq<Srv>, ev: seq<Event>, c: Client): nat
    requires |tr| == |ev| + 1
  {
    if ev == [] then 0
    else
      var n := |ev| - 1;
      ResendCount(tr[..|ev|], ev[..n], c) + if Resends(ev[n], tr[n], c) then 1 else 0
  }

  /** How many steps of the run build a message for `c`, and how many fail to start with it */
  ghost function BuildCount(tr: seq<Srv>, c: Client): nat
    requires tr != []
  {
    if |tr| == 1 then 0
    else BuildCount(tr[..|tr| - 1], c) + if Builds(tr[|tr| - 2], tr[|tr| - 1], c) then 1 else 0
  }

  ghost function FailedStarts(tr: seq<Srv>, c: Client): nat
    requires tr != []
  {
    if |tr| == 1 then 0
    else FailedStarts(tr[..|tr| - 1], c) + if FailsToStart(tr[|tr| - 2], tr[|tr| - 1], c) then 1 else 0
  }

  /** The retransmissions that `c` may still cost before its next new message */
  ghost function Retries(s: Srv, c: Client): nat
  {
    if c in s.ses then s.ses[c].retry else RESEND_COUNTMAX
  }

  lemma StepRetries(e: Event, s: Srv, s': Srv, c: Client)
    requires Step(e, s, s') && Inv(s)
    ensures Retries(s, c) <= RESEND_COUNTMAX && Retries(s', c) <= RESEND_COUNTMAX
    ensures Builds(s, s', c) || FailsToStart(s, s', c) ==> !Resends(e, s, c)
    ensures !Builds(s, s', c) && !FailsToStart(s, s', c) ==>
              Retries(s', c) >= Retries(s, c) + if Resends(e, s, c) then 1 else 0
  {
    StepKeepsInv(e, s, s');
    assert forall x :: x in s.ses ==> SesOk(s.ses[x], s.ds);
    assert forall x :: x in s'.ses ==> SesOk(s'.ses[x], s'.ds);
    hide Inv, DsInv, SesOk, Effect, Evolves, Handled, GivesUp, Duplicate, Resent;
    if e.Packet? && e.c == c && c in s.ses {
      PacketRetries(e, s, s');
    } else if e.Packet? {
      BecameElsewhere(s.ses, e.c, Find(s'.ses, e.c), s'.ses);
      assert e.c != c ==> (c in s.ses <==> c in s.ses - {e.c}) && (c in s'.ses <==> c in s'.ses - {e.c});
      assert e.c != c && c in s.ses ==> (s'.ses - {e.c})[c] == (s.ses - {e.c})[c];
    }
  }

  lemma PacketRetries(e: Event, s: Srv, s': Srv)
    requires e.Packet? && e.c in s.ses && PacketStep(e.c, e.i, e.env, e.ok, s, s') && SesOk(s.ses[e.c], s.ds)
    ensures e.c in s'.ses
    ensures var t, t' := s.ses[e.c], s'.ses[e.c];
            if Duplicate(t, e.i) then
              && t'.blknum == t.blknum
              && t'.retry == if t.retry < RESEND_COUNTMAX then t.retry + 1 else t.retry
            else t'.retry == t.retry || (t'.blknum != t.blknum && !IsError(s'.msg))
  {
    hide DsInv, SesOk, Effect, Evolves, Handled, Duplicate, Resent;
    var t, post := s.ses[e.c], Find(s'.ses, e.c);
    KnownHandled(t, s.ds, e.env, s.msg, e.i, post, s'.ds, s'.msg, e.ok);
    if Duplicate(t, e.i) {
      DuplicateResent(t, s.ds, e.env, s.msg, e.i, post, s'.ds, s'.msg, e.ok);
      ResentFacts(t, s.ds, s.msg, e.i.now, post.value, s'.ds, s'.msg);
    }
  }

  /** Bounded retransmission: over any run, at most three retransmissions for each message built,
      whatever its client sends and however often the timer runs. A transfer that fails to start has
      built nothing, and may still be asked three times for its empty last message. */
  lemma {:induction false} BoundedRetransmission(tr: seq<Srv>, ev: seq<Event>, c: Client)
    requires Run(tr, ev) && Inv(tr[0]) && c !in tr[0].ses
    ensures ResendCount(tr, ev, c) <= 3 * (BuildCount(tr, c) + FailedStarts(tr, c))
    ensures ResendCount(tr, ev, c) + 3 <=
            3 * (BuildCount(tr, c) + FailedStarts(tr, c)) + Retries(tr[|ev|], c)
  {
    RunKeepsInv(tr, ev);
    var n := |ev|;
    if n > 0 {
      RunInit(tr, ev);
      BoundedRetransmission(tr[..n], ev[..n - 1], c);
      StepRetries(ev[n - 1], tr[n - 1], tr[n], c);
      assert tr[..|tr| - 1] == tr[..n];
    }
  }

  /** A repeated datagram changes no file, no file position, no buffer and no block number, unless
      it meets the retry limit: then the session is disabled and its file closed. */
  lemma DuplicateIdempotent(c: Client, i: Input, env: Env, ok: bool, s: Srv, s': Srv)
    requires PacketStep(c, i, env, ok, s, s') && Inv(s) && c in s.ses && Duplicate(s.ses[c], i)
    ensures c in s'.ses
    ensures var t := s.ses[c];
            if t.retry < 3 then
              && s'.ses[c] == t.(retry := t.retry + 1, lastsending := i.now) && s'.ds == s.ds && s'.msg == t.lastmsg
            else
              && s'.ses[c] == t.(disabled := true) && s'.ds == CloseData(t, s.ds)
              && SessionSpec.Sent(Some(s'.ses[c]), s'.msg, ok).None?
  {
  }

  /** What a session and its datastore session have in common with what they were, when its client
      has only repeated itself: at most, the session has been disabled and its file closed. */
  ghost predicate OnlyRepeated(t: Ses, d: Ds, t': Ses, d': Ds)
  {
    var k := t.Key();
    && t' == t.(retry := t'.retry, lastsending := t'.lastsending, disabled := t'.disabled)
    && (k in d'.open ==> k in d.open && d'.open[k] == d.open[k])
    && (k in d.open && k !in d'.open ==> t'.disabled)
    && (Writer(d, k) ==> Content(d', t.Path()) == Content(d, t.Path()) && OnlyBy(d', t.Path(), k))
  }

  /** Any number of repeats, however they fall between the steps of other clients and the timer: no
      block number, no buffer, no file and no place in a file has moved. */
  lemma {:induction false} RepeatsIdempotent(tr: seq<Srv>, ev: seq<Event>, c: Client)
    requires Run(tr, ev) && Inv(tr[0]) && c in tr[0].ses
    requires forall j {:trigger ev[j]} :: 0 <= j < |ev| && ev[j].Packet? && ev[j].c == c ==>
               c in tr[j].ses && InputOk(ev[j].i) && Duplicate(tr[j].ses[c], ev[j].i)
    ensures c in tr[|ev|].ses ==> OnlyRepeated(tr[0].ses[c], tr[0].ds, tr[|ev|].ses[c], tr[|ev|].ds)
  {
    hide Inv, Duplicate, OnlyRepeated, Step;
    var n := |ev|;
    if n == 0 {
      RepeatedNothing(tr[0], c);
    } else {
      RunInit(tr, ev);
      RunKeepsInv(tr, ev);
      assert forall j :: 0 <= j < n - 1 ==> ev[..n - 1][j] == ev[j];
      assert forall j :: 0 <= j < n ==> tr[..n][j] == tr[j];
      RepeatsIdempotent(tr[..n], ev[..n - 1], c);
      var e := ev[n - 1];
      NoReturn(e, tr[n - 1], tr[n], c);
      if c in tr[n].ses {
        RepeatStep(e, tr[n - 1], tr[n], c, tr[0].ses[c], tr[0].ds);
      }
    }
  }

  lemma RepeatedNothing(s: Srv, c: Client)
    requires Inv(s) && c in s.ses
    ensures OnlyRepeated(s.ses[c], s.ds, s.ses[c], s.ds)
  {
    assert Writer(s.ds, s.ses[c].Key()) ==> HandleOk(s.ds, s.ses[c].Key());
  }

  lemma NoReturn(e: Event, s: Srv, s': Srv, c: Client)
    requires Step(e, s, s') && (e.Packet? && e.c == c ==> c in s.ses)
    ensures c in s'.ses ==> c in s.ses
  {
    hide Handled, DsInv;
    if e.Packet? && e.c != c && c !in s.ses {
      NotMine(e, s, s', c);
    }
  }

  lemma RepeatStep(e: Event, s: Srv, s': Srv, c: Client, t: Ses, d: Ds)
    requires Step(e, s, s') && Inv(s) && c in s.ses && c in s'.ses && OnlyRepeated(t, d, s.ses[c], s.ds)
    requires e.Packet? && e.c == c ==> InputOk(e.i) && Duplicate(s.ses[c], e.i)
    ensures OnlyRepeated(t, d, s'.ses[c], s'.ds)
  {
    var k := t.Key();
    StepKeepsFiles(e, s, s');
    if e.Packet? && e.c == c {
      DuplicateIdempotent(c, e.i, e.env, e.ok, s, s');
    } else if e.Packet? {
      Isolation(e.c, e.i, e.env, e.ok, s, s', c);
    } else if e.Timer? && !TimerCloses(s.ses[c], e.now) {
      OwnKeyStays(c, e.now, s, s');
    } else if e.Timer? {
      assert GivesUp(s.ses, e.now, k);
    }
    hide Inv, DsInv, PacketStep, GivesUp, Undisturbed;
    if Writer(d, k) && !Writer(s.ds, k) {
      assert Sealed(s.ds, t.Path());
    }
  }

  /** The ACK before the current one is recognised exactly when the current block number is not 0. */
  lemma PreviousAckIff(t: Ses, i: Input, n: nat)
    requires InputOk(i) && Opcode(i.buf) == OP_ACK && t.blknum == Wrap(n + 1) && ParseAck(i.buf, i.len) == Some(Wrap(n))
    ensures Duplicate(t, i) <==> Wrap(n + 1) != 0
  {
  }
}
