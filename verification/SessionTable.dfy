/** The session list of src/tftp.c: a doubly linked list of sessions, one for each client. */
module SessionTable {
  import opened Base
  import opened Netascii
  import opened AssocList
  import opened Datastore
  import opened SessionSpec
  import opened Sessions

  /** A client: the text of its IP address, and its port */
  type Client = (string, u16)

  type Entry = (Client, Ses)

  /** `struct _iwtftp` without its sockets. `entries` is what the nodes of the list hold. */
  class IwTftp {
    const ads: Iwds
    var seshead: Session?
    ghost var nodes: seq<Session>
    ghost var entries: seq<Entry>
    ghost var members: set<Session>         // the nodes of the list, and perhaps deleted ones
    ghost var repr: set<object>             // the members with their buffers
    ghost var owner: map<object, Session>   // whose each buffer is

    ghost function At(i: int): Session? reads this { if 0 <= i < |nodes| then nodes[i] else null }

    /** The list is what its links say: no cycle, `prev` mirrors `next`. */
    ghost predicate Linked()
      reads this, members
    {
      && seshead == At(0)
      && (forall i {:trigger nodes[i]} :: 0 <= i < |nodes| ==> nodes[i] in members)
      && (forall i {:trigger nodes[i].next} :: 0 <= i < |nodes| ==> nodes[i].next == At(i + 1))
      && (forall i {:trigger nodes[i].prev} :: 0 <= i < |nodes| ==> nodes[i].prev == At(i - 1))
    }

    /** No two sessions of `ms` share a buffer. */
    static ghost predicate Separate(ms: set<Session>, repr: set<object>, owner: map<object, Session>)
    {
      forall n {:trigger n in ms} :: n in ms ==>
        && n.Repr() <= repr
        && n in owner && n.sesbuf in owner && n.sesbuf.storage in owner && n.lastmsg in owner
        && owner[n] == n && owner[n.sesbuf] == n && owner[n.sesbuf.storage] == n && owner[n.lastmsg] == n
    }

    static ghost predicate Holds(n: Session, e: Entry)
      reads n, n.sesbuf, n.sesbuf.storage, n.lastmsg
    {
      n.Valid() && (n.clip, n.clport) == e.0 && n.View() == e.1
    }

    ghost predicate Valid()
      reads this, members, repr
    {
      && Linked() && Separate(members, repr, owner) && |nodes| == |entries| && UniqueKeys(entries)
      && forall i {:trigger nodes[i]} :: 0 <= i < |nodes| ==> Holds(nodes[i], entries[i])
    }

    constructor (ads: Iwds)
      ensures Valid() && this.ads == ads && entries == [] && repr == {}
    {
      this.ads, seshead, nodes, entries, members, repr, owner := ads, null, [], [], {}, {}, map[];
    }

    lemma NodesDistinct()
      requires Valid()
      ensures Distinct(nodes)
    {
    }

    lemma Listed()
      requires Valid()
      ensures UniqueKeys(entries) && |nodes| == |entries|
    {
    }

    /** get_session */
    method GetSession(clip: string, clport: u16) returns (pm: Session?, ghost at: nat)
      requires Valid()
      ensures pm == null <==> (clip, clport) !in ToMap(entries)
      ensures pm != null ==> at < |nodes| && nodes[at] == pm && entries[at].0 == (clip, clport)
    {
      MapKeys(entries, (clip, clport));
      pm := seshead;
      at := 0;
      while pm != null
        invariant at <= |nodes| && pm == At(at)
        invariant forall i :: 0 <= i < at ==> entries[i].0 != (clip, clport)
        decreases |nodes| - at
      {
        if pm.clip == clip && pm.clport == clport {
          break;
        }
        pm := pm.next;
        at := at + 1;
      }
    }

    /** A buffer that belongs to no session */
    ghost predicate Apart(a: array<byte>)
      reads this
    {
      a !in owner
    }

    /** What the session at `at` is, seen from outside */
    lemma Member(at: nat)
      requires Valid() && at < |nodes|
      ensures var n := nodes[at];
              && n in members && n.Valid() && n.View() == entries[at].1 && (n.clip, n.clport) == entries[at].0
              && n.Repr() <= repr
    {
    }

    /** The other sessions share no buffer with the session at `at`. */
    lemma OthersApart(at: nat)
      requires Valid() && at < |nodes|
      ensures var c := nodes[at];
              forall n {:trigger n.sesbuf} {:trigger n.lastmsg} :: n in members && n != c ==>
                && n.sesbuf != c.sesbuf && n.sesbuf.storage != c.sesbuf.storage && n.sesbuf.storage != c.lastmsg
                && n.lastmsg != c.sesbuf.storage && n.lastmsg != c.lastmsg
    {
    }

    lemma NotOwned(a: array<byte>)
      requires Valid() && Apart(a)
      ensures forall n {:trigger n.sesbuf} {:trigger n.lastmsg} {:trigger n.Repr()} :: n in members ==>
                a != n.lastmsg && a != n.sesbuf.storage && a !in n.Repr()
    {
    }

    /** What changes only one session leaves the others, and the list, as they were. */
    twostate lemma OthersHold(new clses: Session, new at: nat)
      requires old(Valid()) && at < old(|nodes|) && clses == old(nodes)[at] && Distinct(old(nodes))
      requires unchanged(this)
      requires forall n {:trigger n in members} :: n in members ==> unchanged(n`next) && unchanged(n`prev)
      requires forall n {:trigger n in members} :: n in members && n != clses ==>
                 unchanged(n) && unchanged(n.sesbuf) && unchanged(n.sesbuf.storage) && unchanged(n.lastmsg)
      ensures Linked() && Separate(members, repr, owner) && |nodes| == |entries| && UniqueKeys(entries)
      ensures forall j {:trigger nodes[j]} :: 0 <= j < |nodes| && j != at ==> Holds(nodes[j], entries[j])
    {
      forall j | 0 <= j < |nodes| && j != at
        ensures Holds(nodes[j], entries[j])
      {
        assert nodes[j] in members && nodes[j] != clses;
        assert old(Holds(nodes[j], entries[j]));
      }
    }

    /** add_newsession without its sockets: `sock` is the descriptor that was created. The code
        links the node before it fills it; nothing sees the list in between. */
    method AddNewSession(clip: string, clport: u16, file: seq<byte>, mode: Mode, sock: int, ghost dir: Dir)
      returns (clses: Session)
      requires Valid() && (clip, clport) !in ToMap(entries)
      modifies this, members`prev
      ensures Valid() && fresh(clses.Repr()) && members == old(members) + {clses} && repr == old(repr) + clses.Repr()
      ensures owner.Keys == old(owner.Keys) + clses.Repr() && |nodes| > 0 && nodes[0] == clses
      ensures entries == [((clip, clport), Ses(dir, mode, sock, file, 0, false, false, 0, [], 0, [], false))] + old(entries)
    {
      clses := new Session();
      Identify(clses, clip, clport, file, mode, sock, dir);
      Insert(clses);
    }

    /** create_session: a node in front of the list */
    method Insert(node: Session)
      requires Valid() && (node.clip, node.clport) !in ToMap(entries)
      requires node.Valid() && node !in members && node.next == null && node.prev == null
      requires forall o :: o in node.Repr() ==> o !in owner
      modifies this, members`prev, node`next
      ensures Valid() && members == old(members) + {node} && repr == old(repr) + node.Repr()
      ensures owner.Keys == old(owner.Keys) + node.Repr() && nodes == [node] + old(nodes)
      ensures entries == [((node.clip, node.clport), old(node.View()))] + old(entries)
    {
      hide Valid, Holds, Linked, Separate, UniqueKeys, ToMap, Session.Valid, Session.View;
      Listed();
      ConsUnique(entries, (node.clip, node.clport), node.View());
      LinkKeeping(node);
      assert members - {node} == old(members);
      Adopt(node);
      Record([((node.clip, node.clport), node.View())] + entries);
    }

    /** Records what the nodes hold now. */
    ghost method Record(es: seq<Entry>)
      requires Linked() && Separate(members, repr, owner) && |nodes| == |es| && UniqueKeys(es)
      requires forall i {:trigger nodes[i]} :: 0 <= i < |nodes| ==> Holds(nodes[i], es[i])
      modifies this`entries
      ensures Valid() && entries == es
    {
      hide UniqueKeys, Session.Repr, Session.Valid, Session.View;
      entries := es;
    }

    method LinkKeeping(node: Session)
      requires Valid() && node.Valid() && node !in members && node.next == null && node.prev == null
      modifies this`seshead, this`nodes, this`members, members`prev, node`next
      ensures Linked() && Separate(old(members), repr, owner)
      ensures nodes == [node] + old(nodes) && members == old(members) + {node}
      ensures node.Valid() && node.View() == old(node.View())
      ensures var es := [((node.clip, node.clport), node.View())] + entries;
              forall i {:trigger nodes[i]} :: 0 <= i < |nodes| ==> Holds(nodes[i], es[i])
    {
      hide UniqueKeys, Separate, Session.Valid, Session.View, Holds;
      NodesDistinct();
      Link(node);
      TailHolds(node);
    }

    twostate lemma TailHolds(node: Session)
      requires old(Valid()) && old(node.Valid()) && nodes == [node] + old(nodes) && entries == old(entries)
      requires forall n :: n in old(members) + {node} ==>
                 && unchanged(n.sesbuf) && unchanged(n.sesbuf.storage) && unchanged(n.lastmsg)
                 && unchanged(n`clip) && unchanged(n`clport) && unchanged(n`clsock) && unchanged(n`tftpmode)
                 && unchanged(n`filename) && unchanged(n`blknum) && unchanged(n`fin) && unchanged(n`lastmsglen)
                 && unchanged(n`lastsending) && unchanged(n`retrycount) && unchanged(n`disabled) && unchanged(n`dir)
      ensures node.Valid() && node.View() == old(node.View())
      ensures var es := [((node.clip, node.clport), node.View())] + entries;
              forall i {:trigger nodes[i]} :: 0 <= i < |nodes| ==> Holds(nodes[i], es[i])
    {
      node.Relinked();
      var es := [((node.clip, node.clport), node.View())] + entries;
      forall i | 0 <= i < |nodes|
        ensures Holds(nodes[i], es[i])
      {
        if i > 0 {
          assert nodes[i] == old(nodes)[i - 1] && es[i] == entries[i - 1] && old(Holds(nodes[i - 1], entries[i - 1]));
          nodes[i].Relinked();
        }
      }
    }

    method Link(node: Session)
      requires Linked() && Distinct(nodes) && node !in members && node.next == null && node.prev == null
      modifies this`seshead, this`nodes, this`members, members`prev, node`next
      ensures Linked() && nodes == [node] + old(nodes) && members == old(members) + {node}
    {
      if seshead != null {
        node.next := seshead;
        seshead.prev := node;
      }
      seshead := node;
      nodes, members := [node] + nodes, members + {node};
    }

    ghost method Adopt(node: Session)
      requires Linked() && node in members && Separate(members - {node}, repr, owner)
      requires forall o :: o in node.Repr() ==> o !in owner
      modifies this`repr, this`owner
      ensures Linked() && Separate(members, repr, owner)
      ensures repr == old(repr) + node.Repr() && owner.Keys == old(owner.Keys) + node.Repr()
    {
      repr := repr + node.Repr();
      owner := owner[node := node][node.sesbuf := node][node.sesbuf.storage := node][node.lastmsg := node];
      assert forall n :: n in members ==> n == node || n in members - {node};
    }

    method Identify(clses: Session, clip: string, clport: u16, file: seq<byte>, mode: Mode, sock: int, ghost dir: Dir)
      requires clses.Valid() && clses.sesbuf.pos == 0
      requires clses.View() == Ses(Get, OctetMode, -1, [], 0, false, false, 0, [], 0, [], false)
      modifies clses`clip, clses`clport, clses`filename, clses`tftpmode, clses`clsock, clses`dir
      ensures clses.Valid() && (clses.clip, clses.clport) == (clip, clport)
      ensures clses.View() == Ses(dir, mode, sock, file, 0, false, false, 0, [], 0, [], false)
    {
      clses.clip := clip;
      clses.clport := clport;
      clses.filename := file;
      clses.tftpmode := mode;
      clses.clsock := sock;
      clses.dir := dir;
    }

    /** The unlinking part of del_session, by cases on the two neighbours; the node keeps its own
        links. */
    method Unlink(tmp: Session, ghost at: nat)
      requires Linked() && Distinct(nodes) && at < |nodes| && tmp == nodes[at]
      modifies this`seshead, this`nodes, members`next, members`prev
      ensures Linked() && nodes == RemoveAt(old(nodes), at)
      ensures tmp.next == old(tmp.next) && tmp.prev == old(tmp.prev)
    {
      assert tmp.next == At(at + 1) && tmp.prev == At(at - 1);
      if tmp.prev == null && tmp.next == null {
        seshead := null;
      } else if tmp.prev == null && tmp.next != null {
        tmp.next.prev := null;
        seshead := tmp.next;
      } else if tmp.prev != null && tmp.next == null {
        tmp.prev.next := null;
      } else {
        tmp.prev.next := tmp.next;
        tmp.next.prev := tmp.prev;
      }
      ghost var was := nodes;
      nodes := RemoveAt(nodes, at);
      forall i | 0 <= i < |nodes|
        ensures nodes[i] in members && nodes[i].next == At(i + 1) && nodes[i].prev == At(i - 1)
      {
        var j := if i < at then i else i + 1;
        assert nodes[i] == was[j] && was[j] != tmp;
        assert old(was[j].next) == (if j + 1 < |was| then was[j + 1] else null);
        assert old(was[j].prev) == (if j > 0 then was[j - 1] else null);
      }
    }

    /** del_session */
    method DelSession(clip: string, clport: u16) returns (ghost at: nat)
      requires Valid()
      modifies this`seshead, this`nodes, this`entries, members`next, members`prev
      ensures Valid()
      ensures ToMap(entries) == ToMap(old(entries)) - {(clip, clport)}
      ensures if (clip, clport) in ToMap(old(entries)) then
                && at < |old(nodes)| && old(entries)[at].0 == (clip, clport)
                && nodes == RemoveAt(old(nodes), at) && entries == RemoveAt(old(entries), at)
                && old(nodes)[at].next == old(nodes[at].next)
              else nodes == old(nodes) && entries == old(entries)
    {
      var tmp;
      tmp, at := GetSession(clip, clport);
      if tmp == null {
        assert ToMap(entries) - {(clip, clport)} == ToMap(entries);
        return;
      }
      RemoveUnique(entries, at);
      UnlinkKeeping(tmp, at);
      Record(RemoveAt(entries, at));
    }

    method UnlinkKeeping(tmp: Session, ghost at: nat)
      requires Valid() && at < |nodes| && tmp == nodes[at]
      modifies this`seshead, this`nodes, members`next, members`prev
      ensures Linked() && Separate(members, repr, owner) && nodes == RemoveAt(old(nodes), at)
      ensures tmp.next == old(tmp.next)
      ensures forall i {:trigger nodes[i]} :: 0 <= i < |nodes| ==> Holds(nodes[i], RemoveAt(entries, at)[i])
    {
      NodesDistinct();
      Unlink(tmp, at);
      RemainHolds(at);
    }

    twostate lemma RemainHolds(at: nat)
      requires old(Valid()) && at < old(|nodes|) && nodes == RemoveAt(old(nodes), at) && entries == old(entries)
      requires forall n :: n in old(members) ==>
                 && unchanged(n.sesbuf) && unchanged(n.sesbuf.storage) && unchanged(n.lastmsg)
                 && unchanged(n`clip) && unchanged(n`clport) && unchanged(n`clsock) && unchanged(n`tftpmode)
                 && unchanged(n`filename) && unchanged(n`blknum) && unchanged(n`fin) && unchanged(n`lastmsglen)
                 && unchanged(n`lastsending) && unchanged(n`retrycount) && unchanged(n`disabled) && unchanged(n`dir)
      ensures forall i {:trigger nodes[i]} :: 0 <= i < |nodes| ==> Holds(nodes[i], RemoveAt(entries, at)[i])
    {
      forall i | 0 <= i < |nodes|
        ensures Holds(nodes[i], RemoveAt(entries, at)[i])
      {
        var j := if i < at then i else i + 1;
        assert nodes[i] == old(nodes)[j] && RemoveAt(entries, at)[i] == entries[j] && old(Holds(nodes[j], entries[j]));
        nodes[i].Relinked();
      }
    }

    /** The body of the loop of cleanup_session: it may delete the node it stands on, and still goes
        on from that node's own link. */
    method CleanupOne(pm: Session, ghost j: nat, now: nat) returns (next: Session?)
      requires Valid() && j < |nodes| && nodes[j] == pm
      modifies this`seshead, this`nodes, this`entries, members`next, members`prev
      ensures Valid()
      ensures var gone := Expired(old(entries)[j].1, now);
              && nodes == (if gone then RemoveAt(old(nodes), j) else old(nodes))
              && entries == (if gone then RemoveAt(old(entries), j) else old(entries))
              && next == if gone then At(j) else At(j + 1)
    {
      assert Holds(pm, entries[j]) && pm.next == At(j + 1);
      MapAt(entries, j);
      ghost var at := j;
      if pm.disabled {
        at := DelSession(pm.clip, pm.clport);
      } else if pm.fin {
        if now > pm.lastsending + SESSION_CLOSEWAIT {
          at := DelSession(pm.clip, pm.clport);
        }
      }
      assert at == j;
      next := pm.next;
    }

    /** That body, when the first `k` sessions of the list `es` have been cleaned up */
    method CleanupNext(pm: Session, ghost es: seq<Entry>, ghost k: nat, now: nat) returns (next: Session?)
      requires Valid() && k < |es| && entries == Keep(es[..k], now) + es[k..] && pm == At(|Keep(es[..k], now)|)
      modifies this`seshead, this`nodes, this`entries, members`next, members`prev
      ensures Valid() && entries == Keep(es[..k + 1], now) + es[k + 1..] && next == At(|Keep(es[..k + 1], now)|)
    {
      hide Keep, Valid;
      KeepStep(es, k, now);
      next := CleanupOne(pm, |Keep(es[..k], now)|, now);
    }

    /** cleanup_session */
    method CleanupSession(now: nat)
      requires Valid()
      modifies this`seshead, this`nodes, this`entries, members`next, members`prev
      ensures Valid() && entries == Keep(old(entries), now)
    {
      hide *;
      ghost var es, k := entries, 0;
      Starts(now);
      Walked(es, k, now);
      var pm := seshead;
      while pm != null
        invariant Valid() && k <= |es| && (pm == null <==> k == |es|)
        invariant entries == Keep(es[..k], now) + es[k..] && pm == At(|Keep(es[..k], now)|)
        decreases |es| - k
      {
        pm := CleanupNext(pm, es, k, now);
        k := k + 1;
        Walked(es, k, now);
      }
      Walked(es, k, now);
    }

    lemma Starts(now: nat)
      requires Valid()
      ensures Keep(entries[..0], now) == [] && entries == [] + entries[0..] && seshead == At(0)
    {
    }

    /** The walk is over when the last session has been cleaned up. */
    lemma Walked(es: seq<Entry>, k: nat, now: nat)
      requires Valid() && k <= |es| && entries == Keep(es[..k], now) + es[k..]
      ensures At(|Keep(es[..k], now)|) == null <==> k == |es|
      ensures k == |es| ==> entries == Keep(es, now)
    {
      if k == |es| {
        assert es[..k] == es;
      }
    }

    /** del_allsession; releasing a node leaves nothing to model. */
    method DelAllSession()
      requires Valid()
      modifies this`seshead, this`nodes, this`entries
      ensures Valid() && entries == [] && seshead == null
    {
      var pm := seshead;
      ghost var k := 0;
      while pm != null
        invariant 0 <= k <= |nodes| && pm == At(k)
        decreases |nodes| - k
      {
        pm := pm.next;
        k := k + 1;
      }
      seshead := null;
      nodes, entries := [], [];
    }

    /** Records what has become of the session `clses`, the only one that has changed. */
    ghost method Refresh(clses: Session, at: nat)
      requires Linked() && Separate(members, repr, owner) && |nodes| == |entries| && UniqueKeys(entries)
      requires at < |nodes| && nodes[at] == clses && clses.Valid() && (clses.clip, clses.clport) == entries[at].0
      requires forall j {:trigger nodes[j]} :: 0 <= j < |nodes| && j != at ==> Holds(nodes[j], entries[j])
      modifies this`entries
      ensures Valid() && entries == old(entries)[at := (old(entries)[at].0, clses.View())]
      ensures ToMap(entries) == ToMap(old(entries))[old(entries)[at].0 := clses.View()]
    {
      hide ToMap, UniqueKeys, Linked, Separate, Session.Valid, Session.View;
      UpdateUnique(entries, at, clses.View());
      Record(entries[at := (entries[at].0, clses.View())]);
    }
  }

  lemma KeepStep(es: seq<Entry>, k: nat, now: nat)
    requires k < |es|
    ensures var a, b := Keep(es[..k], now), Keep(es[..k + 1], now);
            && (a + es[k..])[|a|] == es[k]
            && if Expired(es[k].1, now) then
                 b + es[k + 1..] == RemoveAt(a + es[k..], |a|) && |b| == |a|
               else b + es[k + 1..] == a + es[k..] && |b| == |a| + 1
  {
    assert es[..k + 1][..k] == es[..k];
    assert es[k..] == [es[k]] + es[k + 1..];
  }

  /** What cleanup_session keeps of the list, in order */
  function Keep(es: seq<Entry>, now: nat): seq<Entry>
  {
    if es == [] then []
    else Keep(es[..|es| - 1], now) + if Expired(es[|es| - 1].1, now) then [] else [es[|es| - 1]]
  }

  /** Cleaning a list up in two parts is cleaning it up at once: what is kept keeps its order. */
  lemma {:induction false} KeepConcat(a: seq<Entry>, b: seq<Entry>, now: nat)
    ensures Keep(a + b, now) == Keep(a, now) + Keep(b, now)
  {
    if b == [] {
      assert a + b == a;
    } else {
      var c := a + b;
      assert c[..|c| - 1] == a + b[..|b| - 1];
      KeepConcat(a, b[..|b| - 1], now);
    }
  }

  lemma KeepHead(es: seq<Entry>, now: nat)
    requires es != []
    ensures Keep(es, now) == (if Expired(es[0].1, now) then [] else [es[0]]) + Keep(es[1..], now)
  {
    assert es == [es[0]] + es[1..] && es[..1] == [es[0]] && |es[..1][..0]| == 0;
    KeepConcat([es[0]], es[1..], now);
    assert Keep([es[0]], now) == Keep([], now) + if Expired(es[0].1, now) then [] else [es[0]];
  }

  function KeepOf(m: map<Client, Ses>, now: nat): map<Client, Ses> { map k | k in m && !Expired(m[k], now) :: m[k] }

  /** On the map, cleaning up removes exactly the expired sessions. */
  lemma {:induction false} KeepMap(es: seq<Entry>, now: nat)
    requires UniqueKeys(es)
    ensures UniqueKeys(Keep(es, now)) && ToMap(Keep(es, now)) == KeepOf(ToMap(es), now)
  {
    hide Keep, Expired, ToMap;
    if es == [] {
      KeepNothing(es, now);
    } else {
      var k, v, rest := es[0].0, es[0].1, Keep(es[1..], now);
      KeepHead(es, now);
      KeepMap(es[1..], now);
      TailKeys(es);
      MapCons(es[1..], k, v);
      assert es == [es[0]] + es[1..];
      if Expired(v, now) {
        assert [] + rest == rest;
        assert KeepOf(ToMap(es[1..])[k := v], now) == KeepOf(ToMap(es[1..]), now);
      } else {
        ConsUnique(rest, k, v);
        assert KeepOf(ToMap(es[1..])[k := v], now) == KeepOf(ToMap(es[1..]), now)[k := v];
      }
    }
  }

  lemma KeepNothing(es: seq<Entry>, now: nat)
    requires es == []
    ensures Keep(es, now) == es && ToMap(es) == map[]
  {
  }

  lemma TailKeys(es: seq<Entry>)
    requires UniqueKeys(es) && es != []
    ensures UniqueKeys(es[1..]) && es[0].0 !in ToMap(es[1..])
  {
    MapKeys(es[1..], es[0].0);
    assert forall i :: 0 <= i < |es| - 1 ==> es[1..][i] == es[i + 1];
  }
}
