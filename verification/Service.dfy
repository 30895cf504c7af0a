/** The loop body of iwtftp_service over the linked tables: every datagram, and the timer and the
    clean-up after it, is a step of the runs of ServerRuns. */
module Service {
  import opened Base
  import opened AssocList
  import opened DatastoreSpec
  import opened Datastore
  import opened SessionSpec
  import opened SessionTable
  import opened Server
  import opened ServerRuns
  import Timing

  /** The value that the tables and the message buffer stand for */
  ghost function State(ins: IwTftp, sinfo: SendInfo): Srv
    requires sinfo.Valid()
    reads ins, ins.ads, ins.ads.fs, sinfo, sinfo.msgbuf
  {
    Srv(ToMap(ins.entries), ins.ads.View(), sinfo.View())
  }

  /** A datagram from the socket, up to the call of sendto */
  method HandleDatagram(ins: IwTftp, sock: int, clip: string, clport: u16, dbuf: array<byte>, dlen: nat,
                        sinfo: SendInfo, now: nat)
    returns (reply: Option<seq<byte>>, from: int, ghost ok: bool)
    requires Ready(ins, sinfo) && sinfo.Valid() && ServerRuns.Inv(State(ins, sinfo))
    requires dbuf.Length == NWBUF_SIZE && dlen <= NWBUF_SIZE && dbuf != sinfo.msgbuf && ins.Apart(dbuf)
    requires forall x :: x in State(ins, sinfo).ses ==> State(ins, sinfo).ses[x].sock != sock
    requires Conforming(Find(State(ins, sinfo).ses, (clip, clport)), Input(dbuf[..], dlen, now, sock))
    modifies ins, ins.members, ins.repr, sinfo, sinfo.msgbuf, ins.ads, ins.ads.repr, ins.ads.fs`files
    ensures Ready(ins, sinfo) && sinfo.Valid() && ServerRuns.Inv(State(ins, sinfo))
    ensures var s, s', c := old(State(ins, sinfo)), State(ins, sinfo), (clip, clport);
            && Step(Packet(c, Input(old(dbuf[..]), dlen, now, sock), ins.ads.fs.env, ok), s, s')
            && reply == Out(Packet(c, Input(old(dbuf[..]), dlen, now, sock), ins.ads.fs.env, ok), s, s', c)
            && (reply.Some? ==> from == if c in s'.ses then s'.ses[c].sock else sock)
            && (reply == None <==> || (c in s'.ses && s'.ses[c].disabled)
                                   || (c !in s.ses && old(dbuf[0]) == 0 && old(dbuf[1]) == 5))
  {
    hide Ready, Handled, Became, ToMap, Conforming, IwTftp.Valid, Iwds.View, GrowsFresh, DsInv, PutReady;
    ghost var s, c, i := State(ins, sinfo), (clip, clport), Input(dbuf[..], dlen, now, sock);
    if c in s.ses {
      InvReady(s, c);
    }
    reply, from, ok := Receive(ins, sock, clip, clport, dbuf, dlen, sinfo, now);
    ReadyParts(ins, sinfo);
    ghost var s' := State(ins, sinfo);
    assert PacketStep(c, i, ins.ads.fs.env, ok, s, s');
    PacketKeepsInv(c, i, ins.ads.fs.env, ok, s, s');
  }

  lemma InvReady(s: Srv, c: Client)
    requires ServerRuns.Inv(s) && c in s.ses
    ensures PutReady(s.ses[c], s.ds)
  {
  }

  lemma ReadyParts(ins: IwTftp, sinfo: SendInfo)
    requires Ready(ins, sinfo)
    ensures sinfo.Valid() && ins.Valid() && ins.ads.Valid() && DsInv(ins.ads.View()) && ins.Apart(sinfo.msgbuf)
  {
  }

  // ---- the lists of the timer and of the clean-up as maps ----

  /** The timer on the list is the timer on the map. */
  lemma {:induction false} TimedMap(es: seq<Entry>, now: nat)
    requires UniqueKeys(es)
    ensures UniqueKeys(Timed(es, now))
    ensures ToMap(Timed(es, now)) == map c | c in ToMap(es) :: TimerSes(ToMap(es)[c], now)
  {
    var t := Timed(es, now);
    TimedLength(es, now);
    forall c
      ensures c in ToMap(t) <==> c in ToMap(es)
      ensures c in ToMap(es) ==> ToMap(t)[c] == TimerSes(ToMap(es)[c], now)
    {
      MapKeys(t, c);
      MapKeys(es, c);
      if c in ToMap(es) {
        var i :| 0 <= i < |es| && es[i].0 == c;
        assert t[i].0 == c;
        MapAt(es, i);
        MapAt(t, i);
      }
      if c in ToMap(t) {
        var i :| 0 <= i < |t| && t[i].0 == c;
        assert es[i].0 == c;
      }
    }
  }

  /** It closes exactly the files of the sessions that give up. */
  lemma {:induction false} TimedCloses(es: seq<Entry>, now: nat, d: Ds)
    ensures var e := TimedDs(es, now, d);
            && e.files == d.files
            && (forall k :: k in e.open <==> k in d.open && !ListGivesUp(es, now, k))
            && (forall k :: k in e.open ==> e.open[k] == d.open[k])
  {
    if es != [] {
      var n := |es| - 1;
      TimedCloses(es[..n], now, d);
      forall k
        ensures ListGivesUp(es, now, k) <==>
                ListGivesUp(es[..n], now, k) || (TimerCloses(es[n].1, now) && es[n].1.Key() == k)
      {
        if ListGivesUp(es, now, k) {
          var i :| 0 <= i < |es| && TimerCloses(es[i].1, now) && es[i].1.Key() == k;
          assert i < n ==> es[..n][i] == es[i];
        }
        if ListGivesUp(es[..n], now, k) {
          var i :| 0 <= i < n && TimerCloses(es[..n][i].1, now) && es[..n][i].1.Key() == k;
          assert es[..n][i] == es[i];
        }
      }
    }
  }

  ghost predicate ListGivesUp(es: seq<Entry>, now: nat, k: DKey)
  {
    exists i :: 0 <= i < |es| && TimerCloses(es[i].1, now) && es[i].1.Key() == k
  }

  lemma ListGivesUpIff(es: seq<Entry>, now: nat, k: DKey)
    requires UniqueKeys(es)
    ensures ListGivesUp(es, now, k) <==> GivesUp(ToMap(es), now, k)
  {
    if ListGivesUp(es, now, k) {
      var i :| 0 <= i < |es| && TimerCloses(es[i].1, now) && es[i].1.Key() == k;
      MapAt(es, i);
      assert es[i].0 in ToMap(es);
    }
    if GivesUp(ToMap(es), now, k) {
      var c :| c in ToMap(es) && TimerCloses(ToMap(es)[c], now) && ToMap(es)[c].Key() == k;
      MapKeys(es, c);
      var i :| 0 <= i < |es| && es[i].0 == c;
      MapAt(es, i);
    }
  }

  lemma TimedIsStep(es: seq<Entry>, now: nat, d: Ds, msg: seq<byte>)
    requires UniqueKeys(es)
    ensures TimerStep(now, Srv(ToMap(es), d, msg), Srv(ToMap(Timed(es, now)), TimedDs(es, now, d), msg))
  {
    TimedMap(es, now);
    TimedCloses(es, now, d);
    hide ToMap, Timed, TimedDs, TimerSes, TimerCloses, ListGivesUp, GivesUp;
    forall k
      ensures ListGivesUp(es, now, k) <==> GivesUp(ToMap(es), now, k)
    {
      ListGivesUpIff(es, now, k);
    }
  }

  /** After the datagrams of one round: the timer */
  method RunTimer(ins: IwTftp, sinfo: SendInfo, now: nat) returns (sent: seq<(Client, seq<byte>)>)
    requires Ready(ins, sinfo) && sinfo.Valid() && ServerRuns.Inv(State(ins, sinfo))
    modifies ins`entries, ins.members`lastsending, ins.members`retrycount, ins.members`disabled, ins.ads, ins.ads.repr
    ensures Ready(ins, sinfo) && sinfo.Valid() && ServerRuns.Inv(State(ins, sinfo))
    ensures Step(Timer(now), old(State(ins, sinfo)), State(ins, sinfo))
    ensures sent == TimedSent(old(ins.entries), now) && ins.entries == Timed(old(ins.entries), now)
    ensures var s := old(State(ins, sinfo)).ses;
            forall c, m :: (c, m) in sent <==> c in s && m == s[c].lastmsg && Timing.Waiting(s[c], now) && s[c].retry < 3
  {
    ghost var s, es := State(ins, sinfo), ins.entries;
    UniqueEntries(ins);
    hide ToMap, Timed, TimedDs, TimedSent, UniqueKeys, Iwds.View, Iwds.Valid, DsInv, IwTftp.Valid, TimerStep, ServerRuns.Inv;
    TimedIsStep(es, now, s.ds, s.msg);
    sent := ResendAllSession(ins, now);
    SentOnMap(es, now);
    TimerKeepsInv(now, s, State(ins, sinfo));
    InvDs(State(ins, sinfo));
  }

  /** What the walk sends, in terms of the map */
  lemma SentOnMap(es: seq<Entry>, now: nat)
    requires UniqueKeys(es)
    ensures var s := ToMap(es);
            forall c, m :: (c, m) in TimedSent(es, now) <==>
                             c in s && m == s[c].lastmsg && Timing.Waiting(s[c], now) && s[c].retry < 3
  {
    hide ToMap, TimedSent, Timing.Waiting, UniqueKeys;
    var s := ToMap(es);
    forall c, m
      ensures (c, m) in TimedSent(es, now) <==>
                c in s && m == s[c].lastmsg && Timing.Waiting(s[c], now) && s[c].retry < 3
    {
      Timing.TimedSentIff(es, now, c, m);
      MapKeys(es, c);
      forall k | 0 <= k < |es|
        ensures es[k].0 in s && s[es[k].0] == es[k].1
      {
        MapAt(es, k);
      }
    }
  }

  lemma UniqueEntries(ins: IwTftp)
    requires ins.Valid()
    ensures UniqueKeys(ins.entries)
  {
  }

  /** and the clean-up */
  method RunCleanup(ins: IwTftp, sinfo: SendInfo, now: nat)
    requires Ready(ins, sinfo) && sinfo.Valid() && ServerRuns.Inv(State(ins, sinfo))
    modifies ins`seshead, ins`nodes, ins`entries, ins.members`next, ins.members`prev
    ensures Ready(ins, sinfo) && sinfo.Valid() && ServerRuns.Inv(State(ins, sinfo))
    ensures Step(Cleanup(now), old(State(ins, sinfo)), State(ins, sinfo))
    ensures ins.entries == Keep(old(ins.entries), now)
  {
    ghost var s, es := State(ins, sinfo), ins.entries;
    UniqueEntries(ins);
    hide ToMap, Keep, UniqueKeys, Iwds.View, Iwds.Valid, DsInv, IwTftp.Valid, ServerRuns.Inv;
    KeepMap(es, now);
    ins.CleanupSession(now);
    CleanupKeepsInv(now, s, State(ins, sinfo));
  }
}
