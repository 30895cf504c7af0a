/** The message builders of src/tftp.c: they write a message and record it in the session as the
    last one sent. */
module Messages {
  import opened Base
  import opened Netascii
  import opened Packets
  import opened DatastoreSpec
  import opened Datastore
  import opened SessionSpec
  import opened Sessions
  import opened Transfer

  lemma StreamSame(s: Ses, t: Ses, d: Ds)
    requires s.mode == t.mode && s.sock == t.sock && s.name == t.name && s.buf == t.buf && s.fopt == t.fopt
    ensures Stream(s, d) == Stream(t, d)
  {
  }

  lemma DataBuiltFrom(s: Ses, d: Ds, now: nat, out: seq<byte>, s2: Ses, d2: Ds, s': Ses, d': Ds)
    requires DsInv(d2)
    requires Taken(s.(blknum := Next(s.blknum)), d, BLOCK_SIZE, out, s2, d2)
    requires d' == if |out| < BLOCK_SIZE then CloseData(s, d2) else d2
    requires s' == s2.(fin := s.fin || |out| < BLOCK_SIZE, lastmsg := Word(OP_DATA) + Word(Next(s.blknum)) + out,
                       lastsending := now, retry := 0)
    ensures DataBuilt(s, d, now, s', d')
  {
    hide Stream;
    StreamSame(s, s.(blknum := Next(s.blknum)), d);
    StreamSame(s', s2, d2);
    CloseFacts(d2, s.Key());
    if |out| < BLOCK_SIZE {
      ReadOnlyTrans(s, d, d2, d');
    }
  }

  lemma TakenShape(s: Ses, d: Ds, out: seq<byte>, s': Ses, d': Ds)
    requires Taken(s.(blknum := Next(s.blknum)), d, BLOCK_SIZE, out, s', d')
    ensures s'.fin == s.fin && CloseData(s', d') == CloseData(s, d')
  {
  }

  lemma CloseKeepsInv(s: Ses, d: Ds)
    requires DsInv(d)
    ensures DsInv(CloseData(s, d))
  {
    CloseFacts(d, s.Key());
  }

  lemma DataFailedFrom(s: Ses, d: Ds, s2: Ses, d': Ds)
    requires TakeFailed(s.(blknum := Next(s.blknum)), d, s2, d')
    ensures DataFailed(s, d, s2.(fin := true), d')
  {
  }

  lemma LoadsSame(s: Ses, t: Ses, d: Ds, env: Env, n: nat, ok: bool, d': Ds)
    requires s.mode == t.mode && s.sock == t.sock && s.name == t.name && s.buf == t.buf && s.fopt == t.fopt
    ensures Loads(s, d, env, n, ok, d') == Loads(t, d, env, n, ok, d')
  {
  }

  /** A short block can only come after a load. */
  lemma ShortLoads(s: Ses, d: Ds, env: Env, d': Ds)
    requires Loads(s, d, env, BLOCK_SIZE, true, d') && |Stream(s, d)| < BLOCK_SIZE && BufOk(s)
    ensures Readable(s, d, env)
  {
    LoadedFirst(s, d);
  }

  lemma LoadedFirst(s: Ses, d: Ds)
    requires BufOk(s)
    ensures |Loaded(s)| <= |Stream(s, d)|
  {
    WireConcat(s.mode, s.buf, Rest(s, d));
  }

  /** make_tftpdata_msg: a short block finishes the transfer and closes the file. */
  method MakeTftpdataMsg(clses: Session, ads: Iwds, buf: array<byte>, now: nat) returns (msglen: Option<nat>)
    requires clses.Valid() && clses.dir == Get && ads.Valid() && DsInv(ads.View())
    requires buf !in clses.Repr() && buf.Length == MSG_MAX
    modifies clses`blknum, clses`fin, clses`lastmsglen, clses`lastsending, clses`retrycount
    modifies clses.sesbuf, clses.sesbuf.storage, clses.lastmsg, buf, ads, ads.repr, ads.fs`files
    ensures clses.Valid() && ads.Valid() && DsInv(ads.View()) && fresh(ads.repr - old(ads.repr))
    ensures var s, d := old(clses.View()), old(ads.View());
            if msglen.Some? then
              && Built(s, d, ads.fs.env, now, clses.View(), ads.View())
              && msglen.value <= MSG_MAX && buf[..msglen.value] == clses.View().lastmsg
            else
              && clses.fin == s.fin
              && NotBuilt(s, d, ads.fs.env, clses.View().(fin := true), ads.View())
  {
    hide Stream, Taken, TakeFailed, Loads, Loaded, Readable, DataBuilt, DataFailed, Take, DsInv;
    ghost var s, d := clses.View(), ads.View();
    DataHeader(clses, buf);
    var datalen := GetSessionData(clses, ads, buf, 4, BLOCK_SIZE);
    ghost var d2 := ads.View();
    LoadsSame(s, s.(blknum := Next(s.blknum)), d, ads.fs.env, BLOCK_SIZE, datalen.Some?, d2);
    if datalen.None? {
      DataFailedFrom(s, d, clses.View(), d2);
      return None;
    }
    StreamSame(s, s.(blknum := Next(s.blknum)), d);
    var len := DataDone(clses, ads, buf, datalen.value, now, s, d, Take(Stream(s, d), BLOCK_SIZE));
    BuiltFrom(s, d, ads.fs.env, now, d2, clses.View(), ads.View());
    return Some(len);
  }

  lemma BuiltFrom(s: Ses, d: Ds, env: Env, now: nat, d2: Ds, s': Ses, d': Ds)
    requires DataBuilt(s, d, now, s', d') && Loads(s, d, env, BLOCK_SIZE, true, d2) && BufOk(s)
    requires d' == if |Take(Stream(s, d), BLOCK_SIZE)| < BLOCK_SIZE then CloseData(s, d2) else d2
    ensures Built(s, d, env, now, s', d')
  {
    hide Stream, Loads, DataBuilt;
    if |Stream(s, d)| < BLOCK_SIZE {
      ShortLoads(s, d, env, d2);
    }
  }

  /** The opcode and the new block number */
  method DataHeader(clses: Session, buf: array<byte>)
    requires clses.Valid() && buf !in clses.Repr() && buf.Length == MSG_MAX
    modifies clses`blknum, buf
    ensures clses.Valid() && clses.View() == old(clses.View()).(blknum := Next(old(clses.blknum)))
    ensures buf[..4] == Word(OP_DATA) + Word(Next(old(clses.blknum)))
  {
    WriteWord(buf, 0, OP_DATA);
    clses.blknum := if clses.blknum < 0xFFFF then clses.blknum + 1 else 0;
    WriteWord(buf, 2, clses.blknum);
  }

  /** The rest of make_tftpdata_msg once the data has been read */
  method DataDone(clses: Session, ads: Iwds, buf: array<byte>, datalen: nat, now: nat,
                  ghost s: Ses, ghost d: Ds, ghost out: seq<byte>) returns (len: nat)
    requires clses.Valid() && clses.dir == Get && ads.Valid() && DsInv(ads.View())
    requires buf !in clses.Repr() && buf.Length == MSG_MAX
    requires Taken(s.(blknum := Next(s.blknum)), d, BLOCK_SIZE, out, clses.View(), ads.View())
    requires datalen == |out| <= BLOCK_SIZE
    requires buf[..4 + datalen] == Word(OP_DATA) + Word(Next(s.blknum)) + out
    modifies clses`fin, clses`lastmsglen, clses`lastsending, clses`retrycount, clses.lastmsg, ads, ads.repr
    ensures clses.Valid() && clses.dir == Get && ads.Valid() && DsInv(ads.View()) && ads.repr == old(ads.repr)
    ensures DataBuilt(s, d, now, clses.View(), ads.View())
    ensures ads.View() == if |out| < BLOCK_SIZE then CloseData(s, old(ads.View())) else old(ads.View())
    ensures len <= MSG_MAX && buf[..len] == clses.View().lastmsg
  {
    ghost var s2, d2 := clses.View(), ads.View();
    hide *;
    TakenShape(s, d, out, s2, d2);
    CloseKeepsInv(s2, d2);
    len := 4 + datalen;
    Finish(clses, ads, buf, datalen, now);
    DataBuiltFrom(s, d, now, out, s2, d2, clses.View(), ads.View());
  }

  method Finish(clses: Session, ads: Iwds, buf: array<byte>, datalen: nat, now: nat)
    requires clses.Valid() && ads.Valid() && buf !in clses.Repr() && 4 + datalen <= buf.Length == MSG_MAX
    modifies clses`fin, clses`lastmsglen, clses`lastsending, clses`retrycount, clses.lastmsg, ads, ads.repr
    ensures clses.Valid() && ads.Valid() && ads.repr == old(ads.repr)
    ensures var s, d := old(clses.View()), old(ads.View());
            && clses.View() == s.(fin := s.fin || datalen < BLOCK_SIZE, lastmsg := buf[..4 + datalen],
                                  lastsending := now, retry := 0)
            && ads.View() == if datalen < BLOCK_SIZE then CloseData(s, d) else d
    ensures buf[..] == old(buf[..])
  {
    hide *;
    NotItsBuffer(clses, buf);
    CheckFin(clses, ads, datalen);
    Record(clses, buf, 4 + datalen, now);
  }

  /** The check for the last block */
  method CheckFin(clses: Session, ads: Iwds, datalen: nat)
    requires clses.Valid() && ads.Valid()
    modifies clses`fin, ads, ads.repr
    ensures clses.Valid() && ads.Valid() && ads.repr == old(ads.repr)
    ensures var s, d := old(clses.View()), old(ads.View());
            && clses.View() == s.(fin := s.fin || datalen < BLOCK_SIZE)
            && ads.View() == if datalen < BLOCK_SIZE then CloseData(s, d) else d
  {
    if datalen < BLOCK_SIZE {
      clses.fin := true;
      ads.Close(clses.clsock, clses.filename);
    }
  }

  /** What both builders keep for resending */
  method Record(clses: Session, buf: array<byte>, len: nat, now: nat)
    requires clses.Valid() && buf !in clses.Repr() && len <= buf.Length == MSG_MAX
    modifies clses`lastmsglen, clses`lastsending, clses`retrycount, clses.lastmsg
    ensures clses.Valid()
    ensures clses.View() == old(clses.View()).(lastmsg := buf[..len], lastsending := now, retry := 0)
  {
    MemCpy(clses.lastmsg, 0, buf, 0, len);
    assert clses.lastmsg[..len] == buf[..len];
    clses.lastmsglen := len;
    clses.lastsending := now;
    clses.retrycount := 0;
  }

  /** make_tftpack_msg; the code's check of the buffer size always passes on a message buffer. */
  method MakeTftpackMsg(clses: Session, blk: u16, buf: array<byte>, now: nat) returns (msglen: nat)
    requires clses.Valid() && buf !in clses.Repr() && buf.Length == MSG_MAX
    modifies clses`blknum, clses`lastmsglen, clses`lastsending, clses`retrycount, clses.lastmsg, buf
    ensures clses.Valid() && msglen <= MSG_MAX && buf[..msglen] == AckMsg(blk)
    ensures clses.View() ==
            old(clses.View()).(blknum := blk, lastmsg := AckMsg(blk), lastsending := now, retry := 0)
  {
    WriteWord(buf, 0, OP_ACK);
    clses.blknum := blk;
    WriteWord(buf, 2, clses.blknum);
    Record(clses, buf, 4, now);
    return 4;
  }
}
