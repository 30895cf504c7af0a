/** When the timer and the clean-up act, and how far apart their actions lie. */
module Timing {
  import opened Base
  import opened Packets
  import opened DatastoreSpec
  import opened SessionSpec
  import opened SessionTable
  import opened Server
  import opened ServerRuns
  import opened Replies

  // ---- one session ----

  /** More than ten seconds since the last message, and the transfer is going on */
  ghost predicate Waiting(t: Ses, now: nat) { now > t.lastsending + 10 && !t.fin && !t.disabled }

  /** The timer sends a waiting session's message again, up to three times, and then gives it up. */
  lemma TimerIff(t: Ses, now: nat)
    ensures TimerSends(t, now) <==> Waiting(t, now) && t.retry < 3
    ensures TimerCloses(t, now) <==> Waiting(t, now) && t.retry >= 3
    ensures var t' := TimerSes(t, now);
            && t' == t.(retry := t'.retry, lastsending := t'.lastsending, disabled := t'.disabled)
            && t'.retry == t.retry + (if Waiting(t, now) && t.retry < 3 then 1 else 0)
            && t'.lastsending == (if Waiting(t, now) && t.retry < 3 then now else t.lastsending)
            && t'.disabled == (t.disabled || (Waiting(t, now) && t.retry >= 3))
  {
  }

  /** A session is deleted when it is disabled, or has been finished and silent for more than 15 seconds. */
  lemma ExpiredIff(t: Ses, now: nat)
    ensures Expired(t, now) <==> t.disabled || (t.fin && now > t.lastsending + 15)
  {
  }

  // ---- the walk over the list ----

  /** What the walk sends: the last message of exactly the sessions that have waited, and have a retry left */
  lemma {:induction false} TimedSentIff(es: seq<Entry>, now: nat, c: Client, m: seq<byte>)
    ensures (c, m) in TimedSent(es, now) <==>
              exists k :: 0 <= k < |es| && es[k].0 == c && m == es[k].1.lastmsg && Waiting(es[k].1, now) && es[k].1.retry < 3
  {
    hide TimerSends, Waiting;
    if es != [] {
      var n := |es| - 1;
      TimedSentIff(es[..n], now, c, m);
      TimerIff(es[n].1, now);
      assert forall k :: 0 <= k < n ==> es[..n][k] == es[k];
    }
  }

  /** What it does to each session */
  lemma {:induction false} TimedAt(es: seq<Entry>, now: nat, k: nat)
    requires k < |es|
    ensures |Timed(es, now)| == |es| && Timed(es, now)[k] == (es[k].0, TimerSes(es[k].1, now))
  {
    hide TimerSes;
    var n := |es| - 1;
    TimedSize(es[..n], now);
    if k < n {
      TimedAt(es[..n], now, k);
    }
  }

  lemma {:induction false} TimedSize(es: seq<Entry>, now: nat)
    ensures |Timed(es, now)| == |es|
  {
    if es != [] {
      TimedSize(es[..|es| - 1], now);
    }
  }

  /** Which files it closes: those of the sessions that have waited without a retry left */
  lemma {:induction false} TimedDsIff(es: seq<Entry>, now: nat, d: Ds, key: DKey)
    ensures TimedDs(es, now, d).files == d.files
    ensures key in TimedDs(es, now, d).open <==>
              && key in d.open
              && !exists k :: 0 <= k < |es| && es[k].1.Key() == key && Waiting(es[k].1, now) && es[k].1.retry >= 3
  {
    hide TimerCloses, Waiting;
    if es != [] {
      var n := |es| - 1;
      TimedDsIff(es[..n], now, d, key);
      TimerIff(es[n].1, now);
      assert forall k :: 0 <= k < n ==> es[..n][k] == es[k];
    }
  }

  // ---- the table ----

  /** One clean-up removes exactly the expired sessions and leaves the others, and the datastore, as
      they were. */
  lemma CleanupRemovesIff(now: nat, s: Srv, s': Srv, c: Client)
    requires CleanupStep(now, s, s') && c in s.ses
    ensures var t := s.ses[c]; c !in s'.ses <==> t.disabled || (t.fin && now > t.lastsending + 15)
    ensures (c in s'.ses ==> s'.ses[c] == s.ses[c]) && s'.ds == s.ds
  {
  }

  // ---- runs ----

  /** When the session's message was last sent, or it was disabled since */
  ghost predicate SentAt(s: Srv, c: Client, when: nat)
  {
    c in s.ses ==> s.ses[c].disabled || s.ses[c].lastsending == when
  }

  /** A step that sends nothing to a client does not touch the time of its last message. */
  lemma SilentStep(e: Event, s: Srv, s': Srv, c: Client, when: nat)
    requires Step(e, s, s') && SentAt(s, c, when) && Out(e, s, s', c) == None
    ensures SentAt(s', c, when)
  {
    hide DsInv, GivesUp, Answered, Accepted, ParseReq, ParseData, ParseAck, ErrReply;
    if e.Packet? && e.c == c {
      SilentPacket(Find(s.ses, c), s.ds, e.env, s.msg, e.i, Find(s'.ses, c), s'.ds, s'.msg, e.ok);
    } else if e.Packet? {
      BecameElsewhere(s.ses, e.c, Find(s'.ses, e.c), s'.ses);
      assert c in s'.ses ==> c in s'.ses - {e.c} && (s'.ses - {e.c})[c] == (s.ses - {e.c})[c];
    }
  }

  /** A datagram without a reply disables its session, if it has one. */
  lemma SilentPacket(pre: Option<Ses>, d: Ds, env: Env, msg: seq<byte>, i: Input, post: Option<Ses>, d': Ds,
                     msg': seq<byte>, ok: bool)
    requires InputOk(i) && Handled(pre, d, env, msg, i, post, d', msg', ok) && SessionSpec.Sent(post, msg', ok) == None
    ensures post.Some? ==> post.value.disabled
  {
    hide Answered, Accepted, ParseReq, ParseData, ParseAck, ErrReply, Resent;
  }

  lemma {:induction false} SilentRun(tr: seq<Srv>, ev: seq<Event>, c: Client, when: nat)
    requires Run(tr, ev) && SentAt(tr[0], c, when)
    requires forall j {:trigger ev[j]} :: 0 <= j < |ev| ==> Out(ev[j], tr[j], tr[j + 1], c) == None
    ensures SentAt(tr[|ev|], c, when)
  {
    hide Step, SentAt, Out;
    var n := |ev|;
    if n > 0 {
      RunInit(tr, ev);
      forall j | 0 <= j < n - 1
        ensures Out(ev[..n - 1][j], tr[..n][j], tr[..n][j + 1], c) == None
      {
        var x := ev[j];
      }
      SilentRun(tr[..n], ev[..n - 1], c, when);
      var e := ev[n - 1];
      SilentStep(e, tr[n - 1], tr[n], c, when);
    }
  }

  function TimeOf(e: Event): nat
  {
    match e
    case Packet(_, i, _, _) => i.now
    case Timer(now) => now
    case Cleanup(now) => now
  }

  /** The step sends the last message of the session of `c`, new or again, and not by mistake. */
  ghost predicate SendsLast(e: Event, s: Srv, s': Srv, c: Client)
  {
    c in s'.ses && Out(e, s, s', c) == Some(s'.ses[c].lastmsg) && !Ignored(e, s, c)
  }

  /** Whenever the last message of a session goes out, its time is noted. */
  lemma SendStamps(e: Event, s: Srv, s': Srv, c: Client)
    requires Step(e, s, s') && SendsLast(e, s, s', c) && (c in s.ses ==> LastOk(s.ses[c]))
    ensures s'.ses[c].lastsending == TimeOf(e)
  {
    hide Handled, LastOk, GivesUp, DsInv;
    if e.Packet? {
      var post := Find(s'.ses, c);
      if c in s.ses {
        KnownStamps(s.ses[c], s.ds, e.env, s.msg, e.i, post, s'.ds, s'.msg, e.ok);
      } else {
        NewStamps(s.ds, e.env, s.msg, e.i, post, s'.ds, s'.msg, e.ok);
      }
    }
  }

  lemma KnownStamps(t: Ses, d: Ds, env: Env, msg: seq<byte>, i: Input, post: Option<Ses>, d': Ds, msg': seq<byte>, ok: bool)
    requires InputOk(i) && Handled(Some(t), d, env, msg, i, post, d', msg', ok) && Conforming(Some(t), i) && LastOk(t)
    requires post.Some? && SessionSpec.Sent(post, msg', ok) == Some(post.value.lastmsg)
    requires !(Opcode(i.buf) == OP_ACK && ParseAck(i.buf, i.len).Some?
               && ParseAck(i.buf, i.len).value != t.blknum && ParseAck(i.buf, i.len).value as int != t.blknum as int - 1)
    requires Opcode(i.buf) in {OP_RRQ, OP_WRQ, OP_DATA, OP_ACK, OP_ERROR}
    ensures post.value.lastsending == i.now
  {
    hide ParseReq, ParseData, ParseAck, ErrReply, DsInv, WordAt, Stream, ReadOnly, Loads, Readable;
    hide Refused, Stored, Finished, Storable, DataMsg, AckMsg;
    ServerErrorIs();
  }

  lemma NewStamps(d: Ds, env: Env, msg: seq<byte>, i: Input, post: Option<Ses>, d': Ds, msg': seq<byte>, ok: bool)
    requires InputOk(i) && Handled(None, d, env, msg, i, post, d', msg', ok)
    requires post.Some? && SessionSpec.Sent(post, msg', ok) == Some(post.value.lastmsg)
    ensures post.value.lastsending == i.now
  {
    hide ParseReq, ParseData, ParseAck, ErrReply, Stream, ReadOnly, Loads, Readable, DataMsg, AckMsg;
    ServerErrorIs();
  }

  /** Over any run: after a message of a session has gone out, new or again, the timer sends nothing to
      its client for ten seconds, unless something else has been sent in between. */
  lemma TimerApart(tr: seq<Srv>, ev: seq<Event>, c: Client, a: nat, b: nat)
    requires Run(tr, ev) && c !in tr[0].ses && a < b < |ev|
    requires SendsLast(ev[a], tr[a], tr[a + 1], c) && ev[b].Timer? && Out(ev[b], tr[b], tr[b + 1], c).Some?
    requires forall j {:trigger ev[j]} :: a < j < b ==> Out(ev[j], tr[j], tr[j + 1], c) == None
    ensures ev[b].now > TimeOf(ev[a]) + 10
  {
    hide Step, Out, SendsLast, LastOk;
    var first, last := ev[a], ev[b];
    assert Step(first, tr[a], tr[a + 1]) && Step(last, tr[b], tr[b + 1]);
    Prefix(tr, ev, a);
    RepeatsCounted(tr[..a + 1], ev[..a], c);
    SendStamps(first, tr[a], tr[a + 1], c);
    Middle(tr, ev, a, b);
    var es, ts := ev[a + 1..b], tr[a + 1..b + 1];
    forall j | 0 <= j < |es|
      ensures Out(es[j], ts[j], ts[j + 1], c) == None
    {
      var x := ev[a + 1 + j];
    }
    SilentRun(ts, es, c, TimeOf(first));
    TimerSent(last, tr[b], tr[b + 1], c);
  }

  lemma Prefix(tr: seq<Srv>, ev: seq<Event>, a: nat)
    requires Run(tr, ev) && a < |ev|
    ensures Run(tr[..a + 1], ev[..a]) && tr[..a + 1][0] == tr[0] && tr[..a + 1][a] == tr[a]
  {
    hide Step;
    forall j | 0 <= j < a
      ensures Step(ev[..a][j], tr[..a + 1][j], tr[..a + 1][j + 1])
    {
      var x := ev[j];
    }
  }

  lemma Middle(tr: seq<Srv>, ev: seq<Event>, a: nat, b: nat)
    requires Run(tr, ev) && a < b < |ev|
    ensures var ts := tr[a + 1..b + 1]; Run(ts, ev[a + 1..b]) && ts[0] == tr[a + 1] && ts[b - a - 1] == tr[b]
  {
    hide Step;
    var es, ts := ev[a + 1..b], tr[a + 1..b + 1];
    forall j | 0 <= j < |es|
      ensures Step(es[j], ts[j], ts[j + 1])
    {
      var x := ev[a + 1 + j];
    }
  }

  lemma TimerSent(e: Event, s: Srv, s': Srv, c: Client)
    requires e.Timer? && Step(e, s, s') && Out(e, s, s', c).Some?
    ensures c in s.ses && e.now > s.ses[c].lastsending + 10 && !s.ses[c].disabled
  {
  }
}
