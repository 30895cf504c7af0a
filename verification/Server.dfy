/** tftp_proc and resend_allsession of src/tftp.c over the linked tables, proved against the
    relations of SessionSpec. */
module Server {
  import opened Base
  import opened AssocList
  import opened Packets
  import opened DatastoreSpec
  import opened Datastore
  import opened SessionSpec
  import opened Sessions
  import opened Transfer
  import opened Messages
  import opened SessionTable

  /** `struct sendinfo`: the message to send, and the session it belongs to. It lives as long as
      the service, so a step that sets no message leaves the one before. */
  class SendInfo {
    var ses: Session?
    const msgbuf: array<byte>
    var msglen: nat

    ghost predicate Valid() reads this { msgbuf.Length == MSG_MAX && msglen <= MSG_MAX }

    ghost function View(): seq<byte>
      requires Valid()
      reads this, msgbuf
    {
      msgbuf[..msglen]
    }

    constructor ()
      ensures Valid() && fresh(msgbuf) && ses == null
    {
      ses, msglen := null, 0;
      msgbuf := new byte[MSG_MAX](_ => 0);
    }

    method Load(msg: array<byte>, len: nat)
      requires Valid() && msg != msgbuf && len <= msg.Length == MSG_MAX
      modifies this`msglen, msgbuf
      ensures Valid() && View() == msg[..len]
    {
      MemCpy(msgbuf, 0, msg, 0, len);
      msglen := len;
    }

    /** The tail of the label errsend; the texts of the server always fit. */
    method PutError(code: u16, emsg: seq<byte>)
      requires Valid() && code <= 7 && |emsg| < 64
      modifies this`msglen, msgbuf
      ensures Valid() && View() == ErrReply(code, emsg)
    {
      var len := MakeTftperrMsg(code, msgbuf, emsg);
      msglen := len.value;
    }
  }

  /** The label resend */
  method Resend(clses: Session, ads: Iwds, sinfo: SendInfo, now: nat)
    requires clses.Valid() && ads.Valid() && sinfo.Valid() && sinfo.msgbuf !in clses.Repr()
    modifies clses`lastsending, clses`retrycount, clses`disabled, ads, ads.repr, sinfo`msglen, sinfo`ses, sinfo.msgbuf
    ensures clses.Valid() && ads.Valid() && ads.repr == old(ads.repr) && sinfo.Valid() && sinfo.ses == clses
    ensures Resent(old(clses.View()), old(ads.View()), old(sinfo.View()), now,
                   clses.View(), ads.View(), sinfo.View())
  {
    hide ToMap, Iwds.Valid, Iwds.View, DataStorage.Resumable, DataStorage.Filling, DataStorage.Unread, DataStorage.Pending;
    if clses.retrycount < RESEND_COUNTMAX {
      sinfo.Load(clses.lastmsg, clses.lastmsglen);
      clses.lastsending := now;
      clses.retrycount := clses.retrycount + 1;
    } else {
      clses.disabled := true;
      ads.Close(clses.clsock, clses.filename);
    }
    sinfo.ses := clses;
  }

  /** An ACK or a new RRQ makes the next block. */
  method Answer(clses: Session, ads: Iwds, sinfo: SendInfo, now: nat)
    requires clses.Valid() && clses.dir == Get && ads.Valid() && DsInv(ads.View())
    requires sinfo.Valid() && sinfo.msgbuf !in clses.Repr()
    modifies clses`blknum, clses`fin, clses`lastmsglen, clses`lastsending, clses`retrycount
    modifies clses.sesbuf, clses.sesbuf.storage, clses.lastmsg
    modifies sinfo`msglen, sinfo`ses, sinfo.msgbuf, ads, ads.repr, ads.fs`files
    ensures clses.Valid() && ads.Valid() && DsInv(ads.View()) && fresh(ads.repr - old(ads.repr))
    ensures sinfo.Valid() && sinfo.ses == clses
    ensures Answered(old(clses.View()), old(ads.View()), ads.fs.env, now, clses.View(), ads.View(), sinfo.View())
  {
    hide Built, NotBuilt, DsInv, ToMap, Iwds.Valid, Iwds.View, DataStorage.Resumable, DataStorage.Unread;
    var len := MakeTftpdataMsg(clses, ads, sinfo.msgbuf, now);
    if len.Some? {
      sinfo.msglen := len.value;
    } else {
      clses.fin := true;
      sinfo.PutError(ERR_SEEMSG, SERVER_ERROR);
    }
    sinfo.ses := clses;
  }

  lemma AckIsNoError(blk: u16)
    ensures AckMsg(blk) != ErrReply(ERR_ACCESSDENY, [])
  {
  }

  lemma StoredThenClosed(s: Ses, d: Ds, p: seq<byte>, s': Ses, e: Ds)
    requires Stored(s, d, p, s', e) && s.fin && DsInv(e)
    ensures Finished(s, d, p, s', CloseData(s, e)) && DsInv(CloseData(s, e))
  {
    hide Received;
    var f := CloseData(s, e);
    CloseFacts(e, s.Key());
    OnlyTouchesTrans(d, e, f, s.Key());
    if s.Key() !in d.open && s.Path() in d.files {
      assert f == d;
    }
  }

  /** The DATA block that was expected */
  method AcceptData(clses: Session, ads: Iwds, dbuf: array<byte>, n: nat, blk: u16, sinfo: SendInfo, now: nat)
    requires clses.Valid() && clses.dir == Put && ads.Valid() && DsInv(ads.View())
    requires clses.View().Key() in ads.View().open ==> Writer(ads.View(), clses.View().Key())
    requires sinfo.Valid() && sinfo.msgbuf !in clses.Repr()
    requires dbuf !in clses.Repr() && dbuf != sinfo.msgbuf && 4 + n <= dbuf.Length
    modifies clses`blknum, clses`fin, clses`lastmsglen, clses`lastsending, clses`retrycount
    modifies clses.sesbuf, clses.sesbuf.storage, clses.lastmsg
    modifies sinfo`msglen, sinfo`ses, sinfo.msgbuf, ads, ads.repr, ads.fs`files
    ensures clses.Valid() && clses.dir == Put && ads.Valid() && DsInv(ads.View()) && fresh(ads.repr - old(ads.repr))
    ensures sinfo.Valid() && sinfo.ses == clses
    ensures Accepted(old(clses.View()), old(ads.View()), ads.fs.env, blk, old(dbuf[4..4 + n]), now,
                     clses.View(), ads.View(), sinfo.View())
  {
    hide Stored, Finished, Refused, Storable, Received, OnlyTouches, ToMap, DsInv, Iwds.Valid, Iwds.View;
    hide DataStorage.Resumable, DataStorage.Filling, DataStorage.Unread, DataStorage.Pending, AckMsg, ErrReply;
    ghost var s, d, p := clses.View(), ads.View(), dbuf[4..4 + n];
    AckIsNoError(blk);
    MarkLast(clses, n);
    ghost var s1 := clses.View();
    assert s1 == s.(fin := s.fin || |p| < BLOCK_SIZE);
    var ok := PutSessionData(clses, ads, dbuf, 4, n);
    ghost var s2, e := clses.View(), ads.View();
    assert s2.fin == s1.fin by {
      StoredFin(s1, d, ads.fs.env, p, s2, e, ok);
    }
    if ok {
      if s1.fin {
        StoredThenClosed(s1, d, p, s2, e);
      }
      AckData(clses, ads, blk, sinfo, now);
    } else {
      RefuseData(clses, sinfo);
    }
  }

  method MarkLast(clses: Session, n: nat)
    requires clses.Valid()
    modifies clses`fin
    ensures clses.Valid() && clses.View() == old(clses.View()).(fin := old(clses.fin) || n < BLOCK_SIZE)
  {
    if n < BLOCK_SIZE {
      clses.fin := true;
    }
  }

  lemma StoredFin(s: Ses, d: Ds, env: Env, p: seq<byte>, s': Ses, d': Ds, ok: bool)
    requires if ok then Stored(s, d, p, s', d') else Refused(s, d, env, p, s', d')
    ensures s' == s.(buf := s'.buf)
  {
  }

  method AckData(clses: Session, ads: Iwds, blk: u16, sinfo: SendInfo, now: nat)
    requires clses.Valid() && ads.Valid() && sinfo.Valid() && sinfo.msgbuf !in clses.Repr()
    modifies clses`blknum, clses`lastmsglen, clses`lastsending, clses`retrycount, clses.lastmsg
    modifies sinfo`msglen, sinfo`ses, sinfo.msgbuf, ads, ads.repr
    ensures clses.Valid() && ads.Valid() && ads.repr == old(ads.repr) && sinfo.Valid() && sinfo.ses == clses
    ensures sinfo.View() == AckMsg(blk)
    ensures var s, d := old(clses.View()), old(ads.View());
            && clses.View() == s.(blknum := blk, lastmsg := AckMsg(blk), lastsending := now, retry := 0)
            && ads.View() == if s.fin then CloseData(s, d) else d
  {
    hide ToMap, Iwds.Valid, Iwds.View, DataStorage.Resumable, DataStorage.Filling, DataStorage.Unread, DataStorage.Pending;
    if clses.fin {
      ads.Close(clses.clsock, clses.filename);
    }
    sinfo.msglen := MakeTftpackMsg(clses, blk, sinfo.msgbuf, now);
    sinfo.ses := clses;
  }

  method RefuseData(clses: Session, sinfo: SendInfo)
    requires clses.Valid() && sinfo.Valid() && sinfo.msgbuf !in clses.Repr()
    modifies clses`fin, sinfo`msglen, sinfo`ses, sinfo.msgbuf
    ensures clses.Valid() && sinfo.Valid() && sinfo.ses == clses
    ensures clses.View() == old(clses.View()).(fin := true) && sinfo.View() == ErrReply(ERR_ACCESSDENY, [])
  {
    clses.fin := true;
    sinfo.PutError(ERR_ACCESSDENY, []);
    sinfo.ses := clses;
  }

  /** A session in which its requests to the datastore mean what they should */
  ghost predicate PutReady(s: Ses, d: Ds)
  {
    s.dir == Put && s.Key() in d.open ==> Writer(d, s.Key())
  }

  /** errsend in a session */
  method ErrSend(clses: Session, sinfo: SendInfo, code: u16)
    requires clses.Valid() && sinfo.Valid() && sinfo.msgbuf !in clses.Repr() && code <= 7
    modifies clses`fin, sinfo`msglen, sinfo`ses, sinfo.msgbuf
    ensures clses.Valid() && sinfo.Valid() && sinfo.ses == clses
    ensures clses.View() == old(clses.View()).(fin := true) && sinfo.View() == ErrReply(code, [])
  {
    clses.fin := true;
    sinfo.PutError(code, []);
    sinfo.ses := clses;
  }

  /** The case OP_DATA of tftp_proc, for a known client */
  method ProcData(clses: Session, ads: Iwds, dbuf: array<byte>, dlen: nat, sinfo: SendInfo, now: nat, ghost i: Input)
    requires clses.Valid() && clses.dir == Put && ads.Valid() && DsInv(ads.View()) && PutReady(clses.View(), ads.View())
    requires sinfo.Valid() && sinfo.msgbuf !in clses.Repr() && dbuf !in clses.Repr() && dbuf != sinfo.msgbuf
    requires InputOk(i) && dbuf[..] == i.buf && dlen == i.len && now == i.now
    modifies clses`blknum, clses`fin, clses`lastmsglen, clses`lastsending, clses`retrycount, clses`disabled
    modifies clses.sesbuf, clses.sesbuf.storage, clses.lastmsg
    modifies sinfo`msglen, sinfo`ses, sinfo.msgbuf, ads, ads.repr, ads.fs`files
    ensures clses.Valid() && ads.Valid() && DsInv(ads.View()) && fresh(ads.repr - old(ads.repr))
    ensures sinfo.Valid()
    ensures sinfo.ses == clses
    ensures DataHandled(Some(old(clses.View())), old(ads.View()), ads.fs.env, old(sinfo.View()), i,
                        Some(clses.View()), ads.View(), sinfo.View())
  {
    hide Accepted, DsInv, ToMap, Resent, Iwds.Valid, Iwds.View, ErrReply;
    hide DataStorage.Resumable, DataStorage.Filling, DataStorage.Unread, DataStorage.Pending;
    var datmsg := ParseData(dbuf[..], dlen);
    if datmsg.None? {
      ErrSend(clses, sinfo, ERR_ILLEGALOPE);
    } else if datmsg.value.blk == clses.blknum {
      Resend(clses, ads, sinfo, now);
      ResentInv(old(clses.View()), old(ads.View()), old(sinfo.View()), now, clses.View(), ads.View(), sinfo.View());
    } else if datmsg.value.blk == (if clses.blknum < 0xFFFF then clses.blknum + 1 else 0) {
      assert dbuf[4..4 + (dlen - 4)] == datmsg.value.payload;
      AcceptData(clses, ads, dbuf, dlen - 4, datmsg.value.blk, sinfo, now);
    } else {
      ErrSend(clses, sinfo, ERR_ILLEGALOPE);
    }
  }

  /** The case OP_ACK of tftp_proc, for a known client */
  method ProcAck(clses: Session, ads: Iwds, dbuf: array<byte>, dlen: nat, sinfo: SendInfo, now: nat, ghost i: Input)
    requires clses.Valid() && clses.dir == Get && ads.Valid() && DsInv(ads.View())
    requires sinfo.Valid() && sinfo.msgbuf !in clses.Repr() && dbuf !in clses.Repr() && dbuf != sinfo.msgbuf
    requires InputOk(i) && dbuf[..] == i.buf && dlen == i.len && now == i.now
    modifies clses`blknum, clses`fin, clses`lastmsglen, clses`lastsending, clses`retrycount, clses`disabled
    modifies clses.sesbuf, clses.sesbuf.storage, clses.lastmsg
    modifies sinfo`msglen, sinfo`ses, sinfo.msgbuf, ads, ads.repr, ads.fs`files
    ensures clses.Valid() && ads.Valid() && DsInv(ads.View()) && fresh(ads.repr - old(ads.repr))
    ensures sinfo.Valid()
    ensures sinfo.ses == clses
    ensures AckHandled(Some(old(clses.View())), old(ads.View()), ads.fs.env, old(sinfo.View()), i,
                       Some(clses.View()), ads.View(), sinfo.View())
  {
    hide Answered, DsInv, ToMap, Resent, Iwds.Valid, Iwds.View, ErrReply;
    hide DataStorage.Resumable, DataStorage.Filling, DataStorage.Unread, DataStorage.Pending;
    var ackmsg := ParseAck(dbuf[..], dlen);
    if ackmsg.None? {
      ErrSend(clses, sinfo, ERR_ILLEGALOPE);
    } else if ackmsg.value as int == clses.blknum as int - 1 {
      Resend(clses, ads, sinfo, now);
      ResentInv(old(clses.View()), old(ads.View()), old(sinfo.View()), now, clses.View(), ads.View(), sinfo.View());
    } else if ackmsg.value == clses.blknum {
      if clses.fin {
        Disable(clses, sinfo);
      } else {
        Answer(clses, ads, sinfo, now);
      }
    } else {
      sinfo.ses := clses;
    }
  }

  method Disable(clses: Session, sinfo: SendInfo)
    requires clses.Valid()
    modifies clses`disabled, sinfo`ses
    ensures clses.Valid() && clses.View() == old(clses.View()).(disabled := true) && sinfo.ses == clses
  {
    clses.disabled := true;
    sinfo.ses := clses;
  }

  /** The case OP_ERROR of tftp_proc, for a known client; the parsed message is only logged. */
  method ProcError(clses: Session, ads: Iwds, dbuf: array<byte>, dlen: nat, sinfo: SendInfo)
    requires clses.Valid() && ads.Valid() && DsInv(ads.View()) && dbuf.Length == NWBUF_SIZE
    modifies clses`disabled, sinfo`ses, ads, ads.repr
    ensures clses.Valid() && ads.Valid() && DsInv(ads.View()) && ads.repr == old(ads.repr) && sinfo.ses == clses
    ensures clses.View() == old(clses.View()).(disabled := true)
    ensures ads.View() == CloseData(old(clses.View()), old(ads.View()))
  {
    CloseKeepsInv(clses.View(), ads.View());
    var errmsg := ParseTftperror(dbuf, dlen);
    Disable(clses, sinfo);
    ads.Close(clses.clsock, clses.filename);
  }

  /** tftp_proc for a client that has a session */
  method ProcKnown(clses: Session, ads: Iwds, dbuf: array<byte>, dlen: nat, sinfo: SendInfo, now: nat, ghost i: Input)
    requires clses.Valid() && ads.Valid() && DsInv(ads.View()) && PutReady(clses.View(), ads.View())
    requires InputOk(i) && Conforming(Some(clses.View()), i)
    requires sinfo.Valid() && sinfo.msgbuf !in clses.Repr() && dbuf !in clses.Repr() && dbuf != sinfo.msgbuf
    requires InputOk(i) && dbuf[..] == i.buf && dlen == i.len && now == i.now
    modifies clses`blknum, clses`fin, clses`lastmsglen, clses`lastsending, clses`retrycount, clses`disabled
    modifies clses.sesbuf, clses.sesbuf.storage, clses.lastmsg
    modifies sinfo`msglen, sinfo`ses, sinfo.msgbuf, ads, ads.repr, ads.fs`files
    ensures clses.Valid() && ads.Valid() && DsInv(ads.View()) && fresh(ads.repr - old(ads.repr))
    ensures sinfo.Valid()
    ensures sinfo.ses == clses
    ensures Handled(Some(old(clses.View())), old(ads.View()), ads.fs.env, old(sinfo.View()), i,
                    Some(clses.View()), ads.View(), sinfo.View(), true)
  {
    hide DataHandled, AckHandled, Resent, DsInv, ToMap, CloseData, PutReady, Requested;
    var opcode := Opcode(dbuf[..]);
    if opcode == OP_RRQ || opcode == OP_WRQ {
      CloseKeepsInv(clses.View(), ads.View());
      Resend(clses, ads, sinfo, now);
      ResentInv(old(clses.View()), old(ads.View()), old(sinfo.View()), now, clses.View(), ads.View(), sinfo.View());
    } else if opcode == OP_DATA {
      ProcData(clses, ads, dbuf, dlen, sinfo, now, i);
    } else if opcode == OP_ACK {
      ProcAck(clses, ads, dbuf, dlen, sinfo, now, i);
    } else if opcode == OP_ERROR {
      ProcError(clses, ads, dbuf, dlen, sinfo);
    } else {
      sinfo.ses := clses;
    }
  }

  lemma ResentInv(s: Ses, d: Ds, msg: seq<byte>, now: nat, s': Ses, d': Ds, msg': seq<byte>)
    requires Resent(s, d, msg, now, s', d', msg') && DsInv(d)
    ensures DsInv(d')
  {
    CloseKeepsInv(s, d);
  }

  ghost function Find(m: map<Client, Ses>, c: Client): Option<Ses> { if c in m then Some(m[c]) else None }

  /** The first message of an accepted request */
  method FirstMessage(clses: Session, ads: Iwds, op: u16, sinfo: SendInfo, now: nat)
    requires clses.Valid() && ads.Valid() && DsInv(ads.View()) && (op == OP_RRQ ==> clses.dir == Get)
    requires sinfo.Valid() && sinfo.msgbuf !in clses.Repr()
    modifies clses`blknum, clses`fin, clses`lastmsglen, clses`lastsending, clses`retrycount
    modifies clses.sesbuf, clses.sesbuf.storage, clses.lastmsg
    modifies sinfo`msglen, sinfo`ses, sinfo.msgbuf, ads, ads.repr, ads.fs`files
    ensures clses.Valid() && ads.Valid() && DsInv(ads.View()) && fresh(ads.repr - old(ads.repr))
    ensures sinfo.Valid() && sinfo.ses == clses
    ensures var s, d := old(clses.View()), old(ads.View());
            if op == OP_RRQ then Answered(s, d, ads.fs.env, now, clses.View(), ads.View(), sinfo.View())
            else
              && clses.View() == s.(blknum := 0, lastmsg := AckMsg(0), lastsending := now, retry := 0)
              && ads.View() == d && sinfo.View() == AckMsg(0)
  {
    hide Answered, DsInv, ToMap;
    if op == OP_RRQ {
      Answer(clses, ads, sinfo, now);
    } else {
      sinfo.msglen := MakeTftpackMsg(clses, 0, sinfo.msgbuf, now);
      sinfo.ses := clses;
    }
  }

  /** What the server's tables and buffers need at any time */
  ghost predicate Ready(ins: IwTftp, sinfo: SendInfo)
    reads ins, ins.members, ins.repr, ins.ads, ins.ads.repr, ins.ads.fs, sinfo
  {
    && ins.Valid() && ins.ads.Valid() && DsInv(ins.ads.View())
    && sinfo.Valid() && ins.Apart(sinfo.msgbuf)
  }

  /** What has been added to the tables is new. */
  twostate predicate GrowsFresh(ins: IwTftp)
    reads ins, ins.ads
  {
    && fresh(ins.ads.repr - old(ins.ads.repr)) && fresh(ins.repr - old(ins.repr))
    && old(ins.owner.Keys) <= ins.owner.Keys && fresh(ins.owner.Keys - old(ins.owner.Keys))
  }

  /** The reply belongs to the session of `c`, if there is one. */
  ghost predicate Replies(ins: IwTftp, c: Client, sinfo: SendInfo)
    reads ins, sinfo, sinfo.ses
  {
    var m := ToMap(ins.entries);
    && (sinfo.ses == null <==> c !in m)
    && (c in m ==> sinfo.ses.disabled == m[c].disabled && sinfo.ses.clsock == m[c].sock)
  }

  /** What has become of client `c` is all that has changed in the table. */
  ghost predicate Became(m: map<Client, Ses>, c: Client, post: Option<Ses>, m': map<Client, Ses>)
  {
    m' == if post.None? then m - {c} else m[c := post.value]
  }

  lemma BecameAbsent(m: map<Client, Ses>, c: Client)
    requires c !in m
    ensures Became(m, c, Find(m, c), m)
  {
  }

  lemma BecamePresent(m: map<Client, Ses>, c: Client, m': map<Client, Ses>)
    requires c in m' && m' == m[c := m'[c]]
    ensures Became(m, c, Find(m', c), m')
  {
  }

  /** The first message of the session that has just been added */
  method FirstStep(ins: IwTftp, clses: Session, op: u16, sinfo: SendInfo, now: nat)
    requires Ready(ins, sinfo) && |ins.nodes| > 0 && ins.nodes[0] == clses && (op == OP_RRQ ==> clses.dir == Get)
    modifies ins`entries, ins.repr, sinfo, sinfo.msgbuf, ins.ads, ins.ads.repr, ins.ads.fs`files
    ensures Ready(ins, sinfo) && fresh(ins.ads.repr - old(ins.ads.repr)) && sinfo.ses == clses && clses.Valid()
    ensures unchanged(ins`repr) && unchanged(ins`owner)
    ensures ToMap(ins.entries) == ToMap(old(ins.entries))[old(ins.entries)[0].0 := clses.View()]
    ensures var s, d := old(ins.entries)[0].1, old(ins.ads.View());
            if op == OP_RRQ then Answered(s, d, ins.ads.fs.env, now, clses.View(), ins.ads.View(), sinfo.View())
            else
              && clses.View() == s.(blknum := 0, lastmsg := AckMsg(0), lastsending := now, retry := 0)
              && ins.ads.View() == d && sinfo.View() == AckMsg(0)
  {
    hide Answered, DsInv, ToMap, UniqueKeys, Distinct, IwTftp.Valid, IwTftp.Linked, IwTftp.Separate, IwTftp.Holds;
    hide Session.Valid, Session.View, Iwds.Valid, Iwds.View;
    ins.NodesDistinct();
    ins.Member(0);
    ins.OthersApart(0);
    ins.NotOwned(sinfo.msgbuf);
    FirstMessage(clses, ins.ads, op, sinfo, now);
    ins.OthersHold(clses, 0);
    ins.Refresh(clses, 0);
  }

  /** add_newsession for a request; the direction is what the request says. */
  method Admit(ins: IwTftp, clip: string, clport: u16, op: u16, req: Request, sock: int, sinfo: SendInfo)
    returns (clses: Session)
    requires Ready(ins, sinfo) && (clip, clport) !in ToMap(ins.entries)
    modifies ins, ins.members`prev
    ensures Ready(ins, sinfo) && GrowsFresh(ins)
    ensures ins.ads.View() == old(ins.ads.View()) && ins.ads.repr == old(ins.ads.repr)
    ensures |ins.nodes| > 0 && ins.nodes[0] == clses && (op == OP_RRQ ==> clses.dir == Get)
    ensures ins.entries == [((clip, clport), NewSes(op, req, sock))] + old(ins.entries)
    ensures ins.members == old(ins.members) + {clses} && fresh(ins.repr - old(ins.repr))
  {
    hide DsInv, UniqueKeys, IwTftp.Linked, IwTftp.Separate, IwTftp.Holds, IwTftp.Valid;
    hide Session.Valid, Iwds.Valid, Iwds.View, DataStorage.Unread, DataStorage.Pending, ToMap;
    clses := ins.AddNewSession(clip, clport, req.name, req.mode, sock, if op == OP_RRQ then Get else Put);
    ins.Member(0);
    ins.NotOwned(sinfo.msgbuf);
  }

  /** A new request that has passed every check */
  method StartTransfer(ins: IwTftp, clip: string, clport: u16, op: u16, req: Request, sock: int,
                       sinfo: SendInfo, now: nat)
    requires Ready(ins, sinfo) && (clip, clport) !in ToMap(ins.entries)
    modifies ins, ins.members, ins.repr, sinfo, sinfo.msgbuf, ins.ads, ins.ads.repr, ins.ads.fs`files
    ensures Ready(ins, sinfo) && GrowsFresh(ins)
    ensures (clip, clport) in ToMap(ins.entries)
    ensures Replies(ins, (clip, clport), sinfo)
    ensures var m, c, s, d := old(ToMap(ins.entries)), (clip, clport), NewSes(op, req, sock), old(ins.ads.View());
            var s' := ToMap(ins.entries)[c];
            && ToMap(ins.entries) == m[c := s']
            && if op == OP_RRQ then Answered(s, d, ins.ads.fs.env, now, s', ins.ads.View(), sinfo.View())
               else s' == s.(lastmsg := AckMsg(0), lastsending := now) && ins.ads.View() == d && sinfo.View() == AckMsg(0)
  {
    hide Answered, DsInv, ToMap, Ready, IwTftp.Valid, Iwds.Valid, Iwds.View, Session.Valid;
    hide DataStorage.Unread, DataStorage.Pending;
    ghost var es, s := ins.entries, NewSes(op, req, sock);
    var clses := Admit(ins, clip, clport, op, req, sock, sinfo);
    FirstStep(ins, clses, op, sinfo, now);
    MapConsUpdate(es, (clip, clport), s, clses.View());
  }

  /** tftp_proc for the client of the session at `at` */
  method KnownStep(ins: IwTftp, clses: Session, ghost at: nat, dbuf: array<byte>, dlen: nat,
                   sinfo: SendInfo, now: nat, ghost i: Input)
    requires Ready(ins, sinfo) && at < |ins.nodes| && ins.nodes[at] == clses
    requires PutReady(ins.entries[at].1, ins.ads.View())
    requires InputOk(i) && Conforming(Some(ins.entries[at].1), i)
    requires ins.Apart(dbuf) && dbuf != sinfo.msgbuf && dbuf[..] == i.buf && dlen == i.len && now == i.now
    modifies ins`entries, ins.repr, sinfo, sinfo.msgbuf, ins.ads, ins.ads.repr, ins.ads.fs`files
    ensures Ready(ins, sinfo) && GrowsFresh(ins)
    ensures clses.Valid() && sinfo.ses == clses
    ensures ToMap(ins.entries) == ToMap(old(ins.entries))[old(ins.entries)[at].0 := clses.View()]
    ensures Handled(Some(old(ins.entries)[at].1), old(ins.ads.View()), ins.ads.fs.env, old(sinfo.View()), i,
                    Some(clses.View()), ins.ads.View(), sinfo.View(), true)
  {
    hide Handled, DsInv, ToMap, UniqueKeys, Distinct, IwTftp.Valid, IwTftp.Linked, IwTftp.Separate, IwTftp.Holds;
    hide Session.Valid, Session.View, Iwds.Valid, Iwds.View, PutReady, Conforming;
    ins.NodesDistinct();
    ins.Member(at);
    ins.OthersApart(at);
    ins.NotOwned(sinfo.msgbuf);
    ins.NotOwned(dbuf);
    ProcKnown(clses, ins.ads, dbuf, dlen, sinfo, now, i);
    ins.OthersHold(clses, at);
    ins.Refresh(clses, at);
  }

  /** errsend without a session */
  method Refuse(ins: IwTftp, sinfo: SendInfo, code: u16)
    requires Ready(ins, sinfo) && code <= 7
    modifies sinfo, sinfo.msgbuf
    ensures Ready(ins, sinfo) && unchanged(ins) && ins.ads.View() == old(ins.ads.View())
    ensures sinfo.ses == null && sinfo.View() == ErrReply(code, [])
  {
    hide DsInv, ToMap, Iwds.Valid, Iwds.View, Session.Valid, Session.View;
    sinfo.PutError(code, []);
    sinfo.ses := null;
  }

  /** tftp_proc on a request of a client that has no session; `code` is the error that it meets. */
  method ProcRequest(ins: IwTftp, clip: string, clport: u16, dbuf: array<byte>, dlen: nat, op: u16,
                     sinfo: SendInfo, now: nat, sock: int, ghost i: Input)
    requires Ready(ins, sinfo) && (clip, clport) !in ToMap(ins.entries)
    requires InputOk(i) && dbuf[..] == i.buf && dlen == i.len && now == i.now && sock == i.sock
    requires op == OP_RRQ || op == OP_WRQ
    modifies ins, ins.members, ins.repr, sinfo, sinfo.msgbuf, ins.ads, ins.ads.repr, ins.ads.fs`files
    ensures Ready(ins, sinfo) && GrowsFresh(ins) && Replies(ins, (clip, clport), sinfo)
    ensures Became(ToMap(old(ins.entries)), (clip, clport), Find(ToMap(ins.entries), (clip, clport)), ToMap(ins.entries))
    ensures Requested(old(ins.ads.View()), ins.ads.fs.env, op, ParseReq(i.buf, i.len), i,
                      Find(ToMap(ins.entries), (clip, clport)), ins.ads.View(), sinfo.View())
  {
    hide Answered, DsInv, ToMap, Ready, Became, IwTftp.Valid, Iwds.Valid, Iwds.View, ParseReq;
    BecameAbsent(ToMap(ins.entries), (clip, clport));
    var req := ParseTftpreq(dbuf, dlen);
    if req.None? {
      Refuse(ins, sinfo, ERR_ILLEGALOPE);
      return;
    }
    var found := ins.ads.IsFile(req.value.name);
    if found && op == OP_WRQ {
      Refuse(ins, sinfo, ERR_FILEEXIST);
    } else if !found && op == OP_RRQ {
      Refuse(ins, sinfo, ERR_NOTFOUND);
    } else {
      StartTransfer(ins, clip, clport, op, req.value, sock, sinfo, now);
      BecamePresent(old(ToMap(ins.entries)), (clip, clport), ToMap(ins.entries));
    }
  }

  /** A session-less message that is no request: DATA and ACK are answered with an ERROR; an ERROR
      is dropped; anything else leaves the reply as it was. */
  method ProcStray(ins: IwTftp, opcode: u16, sinfo: SendInfo) returns (ok: bool)
    requires Ready(ins, sinfo)
    modifies sinfo, sinfo.msgbuf
    ensures Ready(ins, sinfo) && unchanged(ins) && ins.ads.View() == old(ins.ads.View())
    ensures ok <==> opcode != OP_ERROR
    ensures ok ==> sinfo.ses == null
    ensures sinfo.View() == if opcode == OP_DATA || opcode == OP_ACK then ErrReply(ERR_UNKNOWNID, []) else old(sinfo.View())
  {
    ok := true;
    if opcode == OP_DATA || opcode == OP_ACK {
      Refuse(ins, sinfo, ERR_UNKNOWNID);
    } else if opcode == OP_ERROR {
      ok := false;
    } else {
      Forget(ins, sinfo);
    }
  }

  method Forget(ins: IwTftp, sinfo: SendInfo)
    requires Ready(ins, sinfo)
    modifies sinfo`ses
    ensures Ready(ins, sinfo) && sinfo.ses == null && sinfo.View() == old(sinfo.View())
  {
    sinfo.ses := null;
  }

  /** tftp_proc. Nothing but the client's own session changes in the table, and what becomes of
      it, of the datastore and of the reply is what `Handled` says. */
  method TftpProc(ins: IwTftp, sock: int, clip: string, clport: u16, dbuf: array<byte>, dlen: nat,
                  sinfo: SendInfo, now: nat) returns (ok: bool)
    requires Ready(ins, sinfo)
    requires dbuf.Length == NWBUF_SIZE && dlen <= NWBUF_SIZE && dbuf != sinfo.msgbuf && ins.Apart(dbuf)
    requires var pre := Find(ToMap(ins.entries), (clip, clport));
             && Conforming(pre, Input(dbuf[..], dlen, now, sock))
             && (pre.Some? ==> PutReady(pre.value, ins.ads.View()))
    modifies ins, ins.members, ins.repr, sinfo, sinfo.msgbuf, ins.ads, ins.ads.repr, ins.ads.fs`files
    ensures Ready(ins, sinfo) && GrowsFresh(ins)
    ensures ok ==> Replies(ins, (clip, clport), sinfo)
    ensures var c, m, m' := (clip, clport), ToMap(old(ins.entries)), ToMap(ins.entries);
            && Became(m, c, Find(m', c), m')
            && Handled(Find(m, c), old(ins.ads.View()), ins.ads.fs.env, old(sinfo.View()),
                       Input(old(dbuf[..]), dlen, now, sock),
                       Find(m', c), ins.ads.View(), sinfo.View(), ok)
  {
    hide DsInv, ToMap, Ready, Became, IwTftp.Valid, Iwds.Valid, Iwds.View, Requested, Session.Valid;
    hide DataStorage.Unread, DataStorage.Pending;
    ghost var i, c := Input(dbuf[..], dlen, now, sock), (clip, clport);
    BecameAbsentOr(ToMap(ins.entries), c);
    ReadyValid(ins, sinfo);
    var clses, at := ins.GetSession(clip, clport);
    var opcode := Opcode(dbuf[..]);
    if clses != null {
      KnownFacts(ins, at);
      KnownStep(ins, clses, at, dbuf, dlen, sinfo, now, i);
      BecamePresent(ToMap(old(ins.entries)), c, ToMap(ins.entries));
      ok := true;
    } else if opcode == OP_RRQ || opcode == OP_WRQ {
      ProcRequest(ins, clip, clport, dbuf, dlen, opcode, sinfo, now, sock, i);
      ok := true;
    } else {
      ok := ProcStray(ins, opcode, sinfo);
    }
  }

  lemma ReadyValid(ins: IwTftp, sinfo: SendInfo)
    requires Ready(ins, sinfo)
    ensures ins.Valid()
  {
  }

  lemma BecameAbsentOr(m: map<Client, Ses>, c: Client)
    ensures c !in m ==> Became(m, c, Find(m, c), m)
  {
  }

  lemma KnownFacts(ins: IwTftp, at: nat)
    requires ins.Valid() && at < |ins.nodes|
    ensures Find(ToMap(ins.entries), ins.entries[at].0) == Some(ins.entries[at].1)
  {
    MapAt(ins.entries, at);
  }

  /** One datagram in iwtftp_service: tftp_proc, and then the reply unless the session has been
      disabled. */
  method Receive(ins: IwTftp, sock: int, clip: string, clport: u16, dbuf: array<byte>, dlen: nat,
                 sinfo: SendInfo, now: nat)
    returns (reply: Option<seq<byte>>, from: int, ghost ok: bool)
    requires Ready(ins, sinfo)
    requires dbuf.Length == NWBUF_SIZE && dlen <= NWBUF_SIZE && dbuf != sinfo.msgbuf && ins.Apart(dbuf)
    requires var pre := Find(ToMap(ins.entries), (clip, clport));
             && Conforming(pre, Input(dbuf[..], dlen, now, sock))
             && (pre.Some? ==> PutReady(pre.value, ins.ads.View()))
    modifies ins, ins.members, ins.repr, sinfo, sinfo.msgbuf, ins.ads, ins.ads.repr, ins.ads.fs`files
    ensures Ready(ins, sinfo) && GrowsFresh(ins)
    ensures var c, m, m' := (clip, clport), ToMap(old(ins.entries)), ToMap(ins.entries);
            && Became(m, c, Find(m', c), m')
            && Handled(Find(m, c), old(ins.ads.View()), ins.ads.fs.env, old(sinfo.View()),
                       Input(old(dbuf[..]), dlen, now, sock),
                       Find(m', c), ins.ads.View(), sinfo.View(), ok)
            && reply == Sent(Find(m', c), sinfo.View(), ok)
            && (reply.Some? ==> from == if c in m' then m'[c].sock else sock)
            && (reply == None <==> || (c in m' && m'[c].disabled)
                                   || (c !in m && old(dbuf[0]) == 0 && old(dbuf[1]) == 5))
  {
    hide Ready, Handled, Became, ToMap, Conforming, PutReady, IwTftp.Valid, Iwds.View, GrowsFresh, Sent;
    ReadyInfo(ins, sinfo);
    ghost var c, m, d, msg := (clip, clport), ToMap(ins.entries), ins.ads.View(), sinfo.View();
    ghost var i := Input(dbuf[..], dlen, now, sock);
    var r := TftpProc(ins, sock, clip, clport, dbuf, dlen, sinfo, now);
    ok := r;
    reply, from := None, if sinfo.ses != null then sinfo.ses.clsock else sock;
    ReadyInfo(ins, sinfo);
    if r && !(sinfo.ses != null && sinfo.ses.disabled) {
      reply := Some(sinfo.msgbuf[..sinfo.msglen]);
    }
    SilentIff(Find(m, c), d, ins.ads.fs.env, msg, i, Find(ToMap(ins.entries), c), ins.ads.View(), sinfo.View(), ok);
    SentIs(Find(ToMap(ins.entries), c), sinfo.View(), ok);
  }

  lemma SentIs(post: Option<Ses>, msg: seq<byte>, ok: bool)
    ensures Sent(post, msg, ok) == if ok && !(post.Some? && post.value.disabled) then Some(msg) else None
  {
  }

  /** A datagram goes without a reply exactly when its session is disabled afterwards, or when it is an
      ERROR without a session. */
  lemma SilentIff(pre: Option<Ses>, d: Ds, env: Env, msg: seq<byte>, i: Input, post: Option<Ses>, d': Ds,
                  msg': seq<byte>, ok: bool)
    requires InputOk(i) && Handled(pre, d, env, msg, i, post, d', msg', ok)
    ensures Sent(post, msg', ok) == None <==>
              (post.Some? && post.value.disabled) || (pre == None && i.buf[0] == 0 && i.buf[1] == 5)
  {
    hide ParseReq, ParseData, ParseAck, Answered, Accepted, Resent, ErrReply, Opcode;
    OpcodeBytes(i.buf, 5);
  }

  lemma OpcodeBytes(buf: seq<byte>, op: byte)
    requires |buf| >= 2
    ensures Opcode(buf) == op as int <==> buf[0] == 0 && buf[1] == op
  {
  }

  lemma ReadyInfo(ins: IwTftp, sinfo: SendInfo)
    requires Ready(ins, sinfo)
    ensures sinfo.Valid()
  {
  }

  // ---- resend_allsession ----

  /** The list after the timer has gone over it */
  function Timed(es: seq<Entry>, now: nat): seq<Entry>
  {
    if es == [] then []
    else Timed(es[..|es| - 1], now) + [(es[|es| - 1].0, TimerSes(es[|es| - 1].1, now))]
  }

  /** The datastore after it: the sessions that gave up have closed their files. */
  function TimedDs(es: seq<Entry>, now: nat, d: Ds): Ds
  {
    if es == [] then d
    else
      var s, e := es[|es| - 1].1, TimedDs(es[..|es| - 1], now, d);
      if TimerCloses(s, now) then CloseData(s, e) else e
  }

  /** What it sends again, in order */
  function TimedSent(es: seq<Entry>, now: nat): seq<(Client, seq<byte>)>
  {
    if es == [] then []
    else
      var e := es[|es| - 1];
      TimedSent(es[..|es| - 1], now) + if TimerSends(e.1, now) then [(e.0, e.1.lastmsg)] else []
  }

  /** What the loop does to one session */
  method ResendSession(pm: Session, ads: Iwds, now: nat) returns (sends: bool)
    requires pm.Valid() && ads.Valid()
    modifies pm`lastsending, pm`retrycount, pm`disabled, ads, ads.repr
    ensures pm.Valid() && ads.Valid() && ads.repr == old(ads.repr)
    ensures var s, d := old(pm.View()), old(ads.View());
            && pm.View() == TimerSes(s, now) && sends == TimerSends(s, now)
            && ads.View() == if TimerCloses(s, now) then CloseData(s, d) else d
  {
    hide ToMap, Iwds.Valid, Iwds.View, DataStorage.Resumable, DataStorage.Filling, DataStorage.Unread, DataStorage.Pending;
    if now <= pm.lastsending + RESEND_INTERVAL {
      return false;
    }
    if pm.fin || pm.disabled {
      return false;
    }
    if pm.retrycount >= RESEND_COUNTMAX {
      pm.disabled := true;
      ads.Close(pm.clsock, pm.filename);
      return false;
    }
    pm.retrycount := pm.retrycount + 1;
    pm.lastsending := now;
    return true;
  }

  /** The body of the loop */
  method ResendOne(ins: IwTftp, pm: Session, ghost at: nat, now: nat) returns (sent: seq<(Client, seq<byte>)>)
    requires ins.Valid() && ins.ads.Valid() && at < |ins.nodes| && ins.nodes[at] == pm
    modifies ins`entries, pm`lastsending, pm`retrycount, pm`disabled, ins.ads, ins.ads.repr
    ensures ins.Valid() && ins.ads.Valid() && ins.ads.repr == old(ins.ads.repr)
    ensures var e := old(ins.entries)[at];
            && ins.entries == old(ins.entries)[at := (e.0, TimerSes(e.1, now))]
            && ins.ads.View() == (if TimerCloses(e.1, now) then CloseData(e.1, old(ins.ads.View())) else old(ins.ads.View()))
            && sent == if TimerSends(e.1, now) then [(e.0, e.1.lastmsg)] else []
  {
    hide ToMap, UniqueKeys, Distinct, Iwds.Valid, Iwds.View, IwTftp.Valid, IwTftp.Linked, IwTftp.Separate, IwTftp.Holds;
    hide TimerSes, TimerSends, TimerCloses, Session.Valid, DataStorage.Unread, DataStorage.Pending;
    ins.NodesDistinct();
    ins.Member(at);
    ins.OthersApart(at);
    var msg := pm.lastmsg[..pm.lastmsglen];
    var sends := ResendSession(pm, ins.ads, now);
    sent := if sends then [((pm.clip, pm.clport), msg)] else [];
    ins.OthersHold(pm, at);
    ins.Refresh(pm, at);
  }

  lemma TimedStep(es: seq<Entry>, k: nat, now: nat, d: Ds)
    requires k < |es|
    ensures var a, b, e := Timed(es[..k], now), Timed(es[..k + 1], now), es[k];
            && |a| == k && (a + es[k..])[k] == e
            && (a + es[k..])[k := (e.0, TimerSes(e.1, now))] == b + es[k + 1..]
            && (var c := TimedDs(es[..k], now, d);
                TimedDs(es[..k + 1], now, d) == if TimerCloses(e.1, now) then CloseData(e.1, c) else c)
            && TimedSent(es[..k + 1], now) ==
               TimedSent(es[..k], now) + if TimerSends(e.1, now) then [(e.0, e.1.lastmsg)] else []
  {
    assert es[..k + 1][..k] == es[..k];
    TimedLength(es[..k], now);
  }

  lemma {:induction false} TimedLength(es: seq<Entry>, now: nat)
    ensures |Timed(es, now)| == |es|
    ensures forall i :: 0 <= i < |es| ==> Timed(es, now)[i] == (es[i].0, TimerSes(es[i].1, now))
  {
    if es != [] {
      TimedLength(es[..|es| - 1], now);
    }
  }

  /** resend_allsession; `sent` is what it hands to sendto. */
  method ResendAllSession(ins: IwTftp, now: nat) returns (sent: seq<(Client, seq<byte>)>)
    requires ins.Valid() && ins.ads.Valid()
    modifies ins`entries, ins.members`lastsending, ins.members`retrycount, ins.members`disabled, ins.ads, ins.ads.repr
    ensures ins.Valid() && ins.ads.Valid() && ins.ads.repr == old(ins.ads.repr)
    ensures ins.entries == Timed(old(ins.entries), now)
    ensures ins.ads.View() == TimedDs(old(ins.entries), now, old(ins.ads.View()))
    ensures sent == TimedSent(old(ins.entries), now)
  {
    hide Timed, TimedDs, TimedSent, TimerSes, ToMap, UniqueKeys, IwTftp.Separate, IwTftp.Holds, Iwds.Valid, Iwds.View;
    ghost var es, d, k := ins.entries, ins.ads.View(), 0;
    TimedStarts(es, now, d);
    var pm := ins.seshead;
    sent := [];
    while pm != null
      invariant ins.Valid() && ins.ads.Valid() && ins.ads.repr == old(ins.ads.repr) && unchanged(ins`nodes)
      invariant k <= |es| && pm == ins.At(k)
      invariant ins.entries == Timed(es[..k], now) + es[k..]
      invariant ins.ads.View() == TimedDs(es[..k], now, d)
      invariant sent == TimedSent(es[..k], now)
      decreases |es| - k
    {
      TimedStep(es, k, now, d);
      ins.Member(k);
      var more := ResendOne(ins, pm, k, now);
      sent := sent + more;
      pm := pm.next;
      k := k + 1;
    }
    assert k == |es| && es[..k] == es && es[k..] == [] && ins.entries == Timed(es, now);
  }

  lemma TimedStarts(es: seq<Entry>, now: nat, d: Ds)
    ensures es[..0] == [] && Timed(es[..0], now) + es[0..] == es
    ensures TimedDs(es[..0], now, d) == d && TimedSent(es[..0], now) == []
  {
  }
}
