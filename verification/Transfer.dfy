/** The data path of src/tftp.c between the datastore, the session buffer and the messages. */
module Transfer {
  import opened Base
  import opened Netascii
  import opened DatastoreSpec
  import opened Datastore
  import opened SessionSpec
  import opened PutSpec
  import opened Sessions

  // ---- reading ----

  lemma LoadKeepsStream(s: Ses, d: Ds, env: Env)
    requires s.buf == [] && !s.fopt && DsRead(d, env, s.Key(), SESSION_BUFSIZE).err == DsOk
    ensures var r := DsRead(d, env, s.Key(), SESSION_BUFSIZE);
            && Stream(s.(buf := r.data), r.ds) == Stream(s, d)
            && (r.data == [] ==> Stream(s, d) == [])
  {
    hide Rest, DsRead, Encode;
    var r := DsRead(d, env, s.Key(), SESSION_BUFSIZE);
    RestLoaded(s, d, env);
    assert s.buf + Rest(s, d) == Rest(s, d);
    EncodeNothing();
  }

  lemma EncodeNothing()
    ensures Encode([]) == []
  {
  }

  /** A load moves bytes from the file into the buffer. */
  lemma RestLoaded(s: Ses, d: Ds, env: Env)
    requires DsRead(d, env, s.Key(), SESSION_BUFSIZE).err == DsOk
    ensures var r := DsRead(d, env, s.Key(), SESSION_BUFSIZE);
            r.data + Rest(s.(buf := r.data), r.ds) == Rest(s, d) && (r.data == [] ==> Rest(s, d) == [])
  {
    var h := if s.Key() in d.open then d.open[s.Key()] else Handle(Reading, 0);
    TakeDrop(d.files[s.Path()], h.off, SESSION_BUFSIZE);
    hide Take, Drop;
  }

  lemma TakeDrop(c: seq<byte>, off: nat, n: nat)
    requires n > 0
    ensures var t := Take(Drop(c, off), n);
            t + Drop(c, off + |t|) == Drop(c, off) && (t == [] ==> Drop(c, off) == [])
  {
  }

  /** Moving `n` bytes of an octet buffer to the output moves them out of the stream. */
  lemma OctetStep(s: Ses, d: Ds, n: nat)
    requires s.mode == OctetMode && !s.fopt && n <= |s.buf|
    ensures Stream(s, d) == s.buf[..n] + Stream(s.(buf := s.buf[n..]), d)
  {
    hide Stream, Rest;
    var t := s.(buf := s.buf[n..]);
    OctetStream(s, d);
    OctetStream(t, d);
    RestSame(s, t, d);
    assert s.buf == s.buf[..n] + t.buf;
    Assoc(s.buf[..n], t.buf, Rest(s, d));
  }

  lemma RestSame(s: Ses, t: Ses, d: Ds)
    requires s.sock == t.sock && s.name == t.name
    ensures Rest(s, d) == Rest(t, d)
  {
  }

  lemma OctetStream(s: Ses, d: Ds)
    requires s.mode == OctetMode && !s.fopt
    ensures Stream(s, d) == s.buf + Rest(s, d)
  {
    hide Rest;
  }

  /** So does one call of the netascii translator. */
  lemma NetasciiStep(s: Ses, d: Ds, used: seq<byte>, out: seq<byte>, now: seq<byte>, f: bool)
    requires s.mode == NetasciiMode && BufOk(s) && s.buf == used + now
    requires Translates(s.fopt, used, out, f) && (f ==> now != [] && now[0] == LF)
    ensures Stream(s, d) == out + Stream(s.(buf := now, fopt := f), d)
  {
    var rest := Rest(s, d);
    var t := now + rest;
    Assoc(used, now, rest);
    EncodeConcat(used, t);
    CarryFirst(s.fopt, s.buf + rest);
    CarryFirst(f, t);
    var e, e' := Stream(s, d), Stream(s.(buf := now, fopt := f), d);
    Assoc(Encode(used), Carry(f), e');
    Assoc(Carry(s.fopt), out, e');
    CancelPrefix(Carry(s.fopt), e, out + e');
  }

  /** The same without the file */
  lemma LoadedIsStream(s: Ses)
    ensures Loaded(s) == Stream(s, Ds(map[], map[]))
  {
    hide Rest, Encode;
    NoRest(s);
    assert s.buf + Rest(s, Ds(map[], map[])) == s.buf;
  }

  lemma NoRest(s: Ses)
    ensures Rest(s, Ds(map[], map[])) == []
  {
  }

  lemma OctetMoves(s: Ses, d: Ds, n: nat)
    requires s.mode == OctetMode && !s.fopt && n <= |s.buf|
    ensures var t := s.(buf := s.buf[n..]);
            Stream(s, d) == s.buf[..n] + Stream(t, d) && Loaded(s) == s.buf[..n] + Loaded(t)
  {
    hide Stream, Loaded;
    LoadedIsStream(s);
    LoadedIsStream(s.(buf := s.buf[n..]));
    OctetStep(s, d, n);
    OctetStep(s, Ds(map[], map[]), n);
  }

  lemma TextMoves(s: Ses, d: Ds, used: seq<byte>, out: seq<byte>, t: Ses)
    requires s.mode == NetasciiMode && BufOk(s) && s.buf == used + t.buf && t == s.(buf := t.buf, fopt := t.fopt)
    requires Translates(s.fopt, used, out, t.fopt) && (t.fopt ==> t.buf != [] && t.buf[0] == LF)
    ensures Stream(s, d) == out + Stream(t, d) && Loaded(s) == out + Loaded(t)
  {
    hide Stream, Loaded, Translates;
    LoadedIsStream(s);
    LoadedIsStream(t);
    NetasciiStep(s, d, used, out, t.buf, t.fopt);
    NetasciiStep(s, Ds(map[], map[]), used, out, t.buf, t.fopt);
  }

  lemma CarryFirst(f: bool, s: seq<byte>)
    requires f ==> s != [] && s[0] == LF
    ensures Encode(s) == Carry(f) + Drop(Encode(s), if f then 1 else 0)
  {
  }

  lemma CancelPrefix<T>(p: seq<T>, a: seq<T>, b: seq<T>)
    requires p + a == p + b
    ensures a == b
  {
    assert (p + a)[|p|..] == a && (p + b)[|p|..] == b;
  }

  /** load_data */
  method LoadData(clses: Session, ads: Iwds) returns (ok: bool)
    requires clses.Valid() && clses.dir == Get && clses.sesbuf.datalen == 0 && ads.Valid()
    modifies clses.sesbuf, clses.sesbuf.storage, ads, ads.repr, ads.fs`files
    ensures clses.Valid() && ads.Valid() && fresh(ads.repr - old(ads.repr))
    ensures var s := old(clses.View());
            var r := DsRead(old(ads.View()), ads.fs.env, s.Key(), SESSION_BUFSIZE);
            && ok == (r.err == DsOk)
            && clses.View() == (if ok then s.(buf := r.data) else s)
            && ads.View() == if ok then r.ds else CloseKey(r.ds, s.Key())
  {
    hide Iwds.Valid, Iwds.View, DsRead;
    var sb := clses.sesbuf;
    var rlen, derr := ads.Read(clses.clsock, clses.filename, sb.storage, SESSION_BUFSIZE);
    if derr != DsOk {
      ads.Close(clses.clsock, clses.filename);
      return false;
    }
    sb.datalen := rlen;
    sb.pos := 0;
    return true;
  }

  /** `out` has been taken from the stream so far, of the `size` bytes that are wanted: all of it from
      the buffer, or some of it by a load. */
  ghost predicate Progress(s0: Ses, d0: Ds, env: Env, size: nat, out: seq<byte>, s: Ses, d: Ds)
  {
    && s == s0.(buf := s.buf, fopt := s.fopt) && BufOk(s) && ReadOnly(s0, d0, d) && DsInv(d)
    && Stream(s0, d0) == out + Stream(s, d)
    && (|| (d == d0 && Loaded(s0) == out + Loaded(s))
        || (|Loaded(s0)| < size && Readable(s0, d0, env) && s0.Key() in d.open))
  }

  lemma ReadOnlyTrans(s: Ses, d: Ds, e: Ds, f: Ds)
    requires ReadOnly(s, d, e) && ReadOnly(s, e, f)
    ensures ReadOnly(s, d, f)
  {
  }

  lemma ProgressLoaded(s0: Ses, d0: Ds, env: Env, size: nat, out: seq<byte>, s: Ses, d: Ds)
    requires Progress(s0, d0, env, size, out, s, d) && s.buf == [] && |out| < size
    requires DsRead(d, env, s.Key(), SESSION_BUFSIZE).err == DsOk
    ensures var r := DsRead(d, env, s.Key(), SESSION_BUFSIZE);
            && Progress(s0, d0, env, size, out, s.(buf := r.data), r.ds)
            && (r.data == [] ==>
                  Stream(s.(buf := r.data), r.ds) == [] && |Loaded(s0)| < size && Loads(s0, d0, env, size, true, r.ds))
  {
    hide Stream, Loaded, DsRead;
    var r := DsRead(d, env, s.Key(), SESSION_BUFSIZE);
    DataFits(d, env, s.Key(), SESSION_BUFSIZE);
    ReadFacts(d, env, s.Key(), SESSION_BUFSIZE);
    ReadOnlyTrans(s0, d0, d, r.ds);
    LoadKeepsStream(s, d, env);
    NothingLoaded(s);
  }

  lemma DataFits(d: Ds, env: Env, k: DKey, n: nat)
    ensures |DsRead(d, env, k, n).data| <= n
  {
  }

  lemma ProgressFailed(s0: Ses, d0: Ds, env: Env, size: nat, out: seq<byte>, s: Ses, d: Ds)
    requires Progress(s0, d0, env, size, out, s, d) && s.buf == [] && |out| < size
    requires DsRead(d, env, s.Key(), SESSION_BUFSIZE).err != DsOk
    ensures var e := CloseKey(DsRead(d, env, s.Key(), SESSION_BUFSIZE).ds, s.Key());
            TakeFailed(s0, d0, s, e) && Loads(s0, d0, env, size, false, e) && DsInv(e)
  {
    hide Stream, Loaded, DsRead;
    var r := DsRead(d, env, s.Key(), SESSION_BUFSIZE);
    ReadFacts(d, env, s.Key(), SESSION_BUFSIZE);
    CloseFacts(r.ds, s.Key());
    ReadOnlyTrans(s0, d0, d, r.ds);
    ReadOnlyTrans(s0, d0, r.ds, CloseKey(r.ds, s.Key()));
    NothingLoaded(s);
  }

  lemma ProgressFilled(s0: Ses, d0: Ds, env: Env, size: nat, out: seq<byte>, s: Ses, d: Ds, more: seq<byte>, s': Ses)
    requires Progress(s0, d0, env, size, out, s, d) && BufOk(s')
    requires s' == s.(buf := s'.buf, fopt := s'.fopt) && Stream(s, d) == more + Stream(s', d)
    requires Loaded(s) == more + Loaded(s')
    ensures Progress(s0, d0, env, size, out + more, s', d)
  {
    hide Stream, Loaded;
    Assoc(out, more, Stream(s', d));
    Assoc(out, more, Loaded(s'));
  }

  /** One round of the loop of get_session_data: what the buffer holds goes out, as far as there is
      room or, in netascii, up to the end of a line. */
  method Fill(clses: Session, dst: array<byte>, at: nat, room: nat, ghost d: Ds)
    returns (len: nat, ghost out: seq<byte>)
    requires clses.Valid() && clses.dir == Get && dst !in clses.Repr() && at + room <= dst.Length
    requires clses.sesbuf.datalen > 0 && room > 0 && (clses.sesbuf.fopt ==> room >= 2)
    modifies clses.sesbuf, dst
    ensures clses.Valid()
    ensures var s, s' := old(clses.View()), clses.View();
            && s' == s.(buf := s'.buf, fopt := s'.fopt)
            && Stream(s, d) == out + Stream(s', d) && Loaded(s) == out + Loaded(s')
    ensures 0 < len == |out| <= room && (clses.sesbuf.fopt ==> len == room)
    ensures dst[..at + len] == old(dst[..at]) + out
  {
    hide Stream, Loaded, Translates, Wire, Session.Valid, Session.View;
    ghost var s := clses.View();
    Fields(clses);
    if clses.tftpmode == OctetMode {
      len := CopyOut(clses, dst, at, room);
      out := s.buf[..len];
      OctetMoves(s, d, len);
    } else {
      ghost var used;
      len, used, out := CopyText(clses, dst, at, room);
      TextMoves(s, d, used, out, clses.View());
    }
    Fields(clses);
  }

  lemma Fields(clses: Session)
    requires clses.Valid() && clses.dir == Get
    ensures var s := clses.View();
            && s.mode == clses.tftpmode && s.fopt == clses.sesbuf.fopt && |s.buf| == clses.sesbuf.datalen
            && (s.fopt ==> s.mode == NetasciiMode && clses.sesbuf.datalen > 0)
  {
  }

  /** The netascii branch: the translator on the session buffer */
  method CopyText(clses: Session, dst: array<byte>, at: nat, room: nat)
    returns (len: nat, ghost used: seq<byte>, ghost out: seq<byte>)
    requires clses.Valid() && clses.dir == Get && clses.tftpmode == NetasciiMode
    requires dst !in clses.Repr() && at + room <= dst.Length
    requires clses.sesbuf.datalen > 0 && room > 0 && (clses.sesbuf.fopt ==> room >= 2)
    modifies clses.sesbuf, dst
    ensures clses.Valid()
    ensures var s, s' := old(clses.View()), clses.View();
            && s' == s.(buf := s'.buf, fopt := s'.fopt) && s.buf == used + s'.buf
            && Translates(s.fopt, used, out, s'.fopt)
            && (s'.fopt ==> s'.buf != [] && s'.buf[0] == LF && len == room)
    ensures 0 < len == |out| <= room
    ensures dst[..at + len] == old(dst[..at]) + out
  {
    hide Translates;
    len, used, out := clses.sesbuf.LocalToNetascii(dst, at, room);
  }

  /** The octet branch: a memcpy of what is there or what fits */
  method CopyOut(clses: Session, dst: array<byte>, at: nat, room: nat) returns (len: nat)
    requires clses.Valid() && clses.dir == Get && dst !in clses.Repr() && at + room <= dst.Length
    requires !clses.sesbuf.fopt
    modifies clses.sesbuf, dst
    ensures clses.Valid()
    ensures var s := old(clses.View());
            && len == Min(|s.buf|, room) && clses.View() == s.(buf := s.buf[len..])
            && dst[..at + len] == old(dst[..at]) + s.buf[..len]
  {
    var sb := clses.sesbuf;
    ghost var b := sb.Unread();
    len := if sb.datalen < room then sb.datalen else room;
    assert sb.storage[sb.pos..sb.pos + len] == b[..len];
    MemCpy(dst, at, sb.storage, sb.pos, len);
    sb.pos := sb.pos + len;
    sb.datalen := sb.datalen - len;
    assert sb.Unread() == b[len..];
  }

  /** The check of the session buffer at the head of that loop */
  method Refill(clses: Session, ads: Iwds, ghost s0: Ses, ghost d0: Ds, ghost size: nat, ghost out: seq<byte>)
    returns (ok: bool)
    requires clses.Valid() && clses.dir == Get && ads.Valid() && |out| < size
    requires Progress(s0, d0, ads.fs.env, size, out, clses.View(), ads.View())
    modifies clses.sesbuf, clses.sesbuf.storage, ads, ads.repr, ads.fs`files
    ensures clses.Valid() && ads.Valid() && fresh(ads.repr - old(ads.repr)) && DsInv(ads.View())
    ensures if ok then
              && Progress(s0, d0, ads.fs.env, size, out, clses.View(), ads.View())
              && clses.sesbuf.fopt == old(clses.sesbuf.fopt)
              && (clses.sesbuf.datalen == 0 ==>
                    && Stream(clses.View(), ads.View()) == [] && |Loaded(s0)| < size
                    && Loads(s0, d0, ads.fs.env, size, true, ads.View()))
            else
              TakeFailed(s0, d0, clses.View(), ads.View()) && Loads(s0, d0, ads.fs.env, size, false, ads.View())
  {
    hide Stream, Loaded, Loads, Readable, Translates, TakeFailed, DsRead, ReadOnly;
    ok := true;
    if clses.sesbuf.datalen == 0 {
      ghost var s, d := clses.View(), ads.View();
      ok := LoadData(clses, ads);
      if ok {
        ProgressLoaded(s0, d0, ads.fs.env, size, out, s, d);
      } else {
        ProgressFailed(s0, d0, ads.fs.env, size, out, s, d);
      }
    }
  }

  /** The state of get_session_data when `out` has been taken since the call. */
  ghost predicate Taking(clses: Session, ads: Iwds, s0: Ses, d0: Ds, size: nat, out: seq<byte>)
    reads clses.Repr(), ads, ads.repr, ads.fs
  {
    && clses.Valid() && clses.dir == Get && ads.Valid()
    && Progress(s0, d0, ads.fs.env, size, out, clses.View(), ads.View())
  }

  /** The end of the file, seen by a load */
  ghost predicate Exhausted(clses: Session, ads: Iwds, s0: Ses, d0: Ds, size: nat)
    reads clses.Repr(), ads, ads.fs
  {
    && clses.Valid() && Stream(clses.View(), ads.View()) == []
    && |Loaded(s0)| < size && Loads(s0, d0, ads.fs.env, size, true, ads.View())
  }

  /** `None` is a failed load; no bytes, the end of the file. */
  method Round(clses: Session, ads: Iwds, dst: array<byte>, at: nat, room: nat,
               ghost s0: Ses, ghost d0: Ds, ghost size: nat, ghost out: seq<byte>)
    returns (len: Option<nat>, ghost more: seq<byte>)
    requires Taking(clses, ads, s0, d0, size, out) && |out| < size
    requires dst !in clses.Repr() && at + room <= dst.Length
    requires room > 0 && (clses.sesbuf.fopt ==> room >= 2)
    modifies clses.sesbuf, clses.sesbuf.storage, dst, ads, ads.repr, ads.fs`files
    ensures fresh(ads.repr - old(ads.repr))
    ensures len.None? ==>
              && clses.Valid() && ads.Valid() && DsInv(ads.View())
              && TakeFailed(s0, d0, clses.View(), ads.View()) && Loads(s0, d0, ads.fs.env, size, false, ads.View())
    ensures len.Some? ==>
              && Taking(clses, ads, s0, d0, size, out + more) && len.value == |more| <= room
              && dst[..at + len.value] == old(dst[..at]) + more
              && (len.value == 0 ==> Exhausted(clses, ads, s0, d0, size))
              && (clses.sesbuf.fopt ==> len.value == room)
  {
    hide Stream, Loaded, Loads, Readable, TakeFailed, ReadOnly, DsInv, Iwds.Valid, Iwds.View, Session.Valid, Session.View;
    more := [];
    var ok := Refill(clses, ads, s0, d0, size, out);
    if !ok {
      return None, [];
    }
    ghost var s, d := clses.View(), ads.View();
    if clses.sesbuf.datalen == 0 {
      Fields(clses);
      assert out + [] == out;
      return Some(0), [];
    }
    var n;
    n, more := Fill(clses, dst, at, room, d);
    ProgressFilled(s0, d0, ads.fs.env, size, out, s, d, more, clses.View());
    len := Some(n);
  }

  /** get_session_data: the next `size` bytes of the encoded file, fewer only at its end, however
      the refills of the session buffer fall. */
  method GetSessionData(clses: Session, ads: Iwds, dst: array<byte>, at: nat, size: nat)
    returns (total: Option<nat>)
    requires clses.Valid() && clses.dir == Get && ads.Valid() && DsInv(ads.View())
    requires dst !in clses.Repr() && at + size <= dst.Length && size >= 2
    modifies clses.sesbuf, clses.sesbuf.storage, dst, ads, ads.repr, ads.fs`files
    ensures clses.Valid() && ads.Valid() && DsInv(ads.View()) && fresh(ads.repr - old(ads.repr))
    ensures var s, d := old(clses.View()), old(ads.View());
            var out := Take(Stream(s, d), size);
            && Loads(s, d, ads.fs.env, size, total.Some?, ads.View())
            && if total.Some? then
                 && Taken(s, d, size, out, clses.View(), ads.View())
                 && total.value == |out| <= size && dst[..at + total.value] == old(dst[..at]) + out
               else TakeFailed(s, d, clses.View(), ads.View())
  {
    hide *;
    ghost var s0, d0, out := clses.View(), ads.View(), [];
    ghost var was := dst[..at];
    var sum, fend := 0, false;
    TakingStarted(clses, ads, size);
    assert was + out == dst[..at];
    while !fend
      invariant Taking(clses, ads, s0, d0, size, out) && fresh(ads.repr - old(ads.repr))
      invariant sum == |out| <= size && dst[..at + sum] == was + out
      invariant !fend ==> sum < size && (clses.sesbuf.fopt ==> size - sum >= 2)
      invariant fend ==> sum == size || Exhausted(clses, ads, s0, d0, size)
      decreases if fend then 0 else 1 + size - sum
    {
      var len, more := Round(clses, ads, dst, at + sum, size - sum, s0, d0, size, out);
      if len.None? {
        return None;
      }
      Assoc(was, out, more);
      fend := len.value == 0 || len.value == size - sum;
      sum, out := sum + len.value, out + more;
    }
    TakingDone(clses, ads, s0, d0, out, size);
    return Some(sum);
  }

  lemma TakingStarted(clses: Session, ads: Iwds, size: nat)
    requires clses.Valid() && clses.dir == Get && ads.Valid() && DsInv(ads.View())
    ensures Taking(clses, ads, clses.View(), ads.View(), size, [])
  {
    hide Stream, Loaded;
    assert [] + Loaded(clses.View()) == Loaded(clses.View());
  }

  lemma TakingDone(clses: Session, ads: Iwds, s0: Ses, d0: Ds, out: seq<byte>, size: nat)
    requires Taking(clses, ads, s0, d0, size, out)
    requires |out| == size || (|out| < size && Exhausted(clses, ads, s0, d0, size))
    ensures clses.Valid() && ads.Valid() && DsInv(ads.View())
    ensures Take(Stream(s0, d0), size) == out && Taken(s0, d0, size, out, clses.View(), ads.View())
    ensures Loads(s0, d0, ads.fs.env, size, true, ads.View())
  {
    hide Loaded, Readable, Stream;
    ProgressDone(s0, d0, ads.fs.env, size, out, clses.View(), ads.View());
  }

  lemma ProgressDone(s0: Ses, d0: Ds, env: Env, size: nat, out: seq<byte>, s: Ses, d: Ds)
    requires Progress(s0, d0, env, size, out, s, d)
    requires || |out| == size
             || (|out| < size && Stream(s, d) == [] && |Loaded(s0)| < size && Loads(s0, d0, env, size, true, d))
    ensures Take(Stream(s0, d0), size) == out && Taken(s0, d0, size, out, s, d)
    ensures Loads(s0, d0, env, size, true, d)
  {
    hide Loaded, Stream, Readable, ReadOnly;
    var more := Stream(s, d);
    assert (out + more)[..|out|] == out && (out + more)[|out|..] == more && out + [] == out;
  }

  // ---- writing ----

  /** save_data: everything in the buffer in one request; a short write is a failure. */
  method SaveData(clses: Session, ads: Iwds) returns (ok: bool)
    requires clses.Valid() && clses.dir == Put && ads.Valid()
    modifies clses.sesbuf, ads, ads.repr, ads.fs`files
    ensures clses.Valid() && ads.Valid() && fresh(ads.repr - old(ads.repr))
    ensures var s, d := old(clses.View()), old(ads.View());
            var r := DsWrite(d, ads.fs.env, s.Key(), s.buf);
            && ok == (r.err == DsOk && r.wlen == |s.buf|)
            && clses.View() == (if ok then s.(buf := []) else s)
            && ads.View() == if ok then r.ds else CloseKey(r.ds, s.Key())
  {
    var sb := clses.sesbuf;
    var wlen, derr := ads.Write(clses.clsock, clses.filename, sb.storage, sb.datalen);
    if derr != DsOk || wlen != sb.datalen {
      ads.Close(clses.clsock, clses.filename);
      return false;
    }
    sb.datalen := 0;
    sb.pos := 0;
    return true;
  }

  /** One copying step of put_session_data */
  method CopyIn(clses: Session, data: array<byte>, at: nat, n: nat) returns (len: nat)
    requires clses.Valid() && clses.dir == Put && data !in clses.Repr() && at + n <= data.Length
    modifies clses.sesbuf, clses.sesbuf.storage
    ensures clses.Valid()
    ensures var s, q := old(clses.View()), data[at..at + n];
            && len == StepUsed(s, q) <= n
            && clses.View() == s.(buf := s.buf + Unwire(s.mode, q[..len]))
            && (s.mode == NetasciiMode ==>
                  clses.View().buf == s.buf + q[..SegLen(SESSION_BUFSIZE - |s.buf|, q)])
  {
    hide SegLen, SegUsed, Decode, DataStorage.Resumable, DataStorage.Reading, DataStorage.Unread;
    if clses.tftpmode == OctetMode {
      len := CopyAll(clses.sesbuf, data, at, n);
    } else {
      len := clses.sesbuf.NetasciiToLocal(data, at, n);
    }
  }

  /** The octet branch: a memcpy of as much as fits */
  method CopyAll(sb: DataStorage, data: array<byte>, at: nat, n: nat) returns (len: nat)
    requires sb.Filling() && data != sb.storage && at + n <= data.Length
    modifies sb`pos, sb`datalen, sb.storage
    ensures sb.Filling() && len == Min(SESSION_BUFSIZE - old(sb.datalen), n)
    ensures sb.Pending() == old(sb.Pending()) + data[at..at + n][..len]
  {
    ghost var q := data[at..at + n];
    len := sb.storage.Length - sb.datalen;
    if len > n {
      len := n;
    }
    assert data[at..at + len] == q[..len];
    sb.Append(data, at, len, q[..len]);
  }

  /** The state of put_session_data when `c` has been consumed since the call. */
  ghost predicate PuttingNow(clses: Session, ads: Iwds, s0: Ses, d0: Ds, c: seq<byte>, closed: bool)
    reads clses.Repr(), ads, ads.repr, ads.fs
  {
    && clses.Valid() && clses.dir == Put && ads.Valid()
    && Putting(s0, d0, c, clses.View(), ads.View(), closed)
    && (ads.View() == d0 || Paid(s0, d0, ads.fs.env, ads.View()))
  }

  /** The head of that loop when `k` bytes of the payload `p` have been consumed, and its end. */
  ghost predicate AtHead(clses: Session, ads: Iwds, s0: Ses, d0: Ds, p: seq<byte>, k: nat, closed: bool)
    requires k <= |p|
    reads clses.Repr(), ads, ads.repr, ads.fs
  {
    && PuttingNow(clses, ads, s0, d0, p[..k], closed)
    && Undecided(s0, p, clses.View(), p[k..], closed)
    && (k < |p| || clses.View().buf != [])
  }

  ghost predicate AtEnd(clses: Session, ads: Iwds, s0: Ses, d0: Ds, p: seq<byte>, closed: bool)
    reads clses.Repr(), ads, ads.repr, ads.fs
  {
    && PuttingNow(clses, ads, s0, d0, p, closed) && |clses.View().buf| < SESSION_BUFSIZE
    && (s0.fin ==> clses.View().buf == [] && (closed || clses.View().Key() in ads.View().open))
  }

  /** One round of the loop of put_session_data on the rest of the payload, which lies at `at`:
      copy, then flush if the buffer is full or the payload is the last one. */
  method PutRound(clses: Session, ads: Iwds, data: array<byte>, at: nat, n: nat,
                  ghost s0: Ses, ghost d0: Ds, ghost p: seq<byte>, ghost closed: bool)
    returns (len: Option<nat>, ghost closed': bool)
    requires n <= |p| && AtHead(clses, ads, s0, d0, p, |p| - n, closed) && (p != [] || s0.buf != [])
    requires data !in clses.Repr() && at + n <= data.Length && data[at..at + n] == p[|p| - n..]
    modifies clses.sesbuf, clses.sesbuf.storage, ads, ads.repr, ads.fs`files
    ensures fresh(ads.repr - old(ads.repr)) && clses.Valid() && ads.Valid() && clses.dir == Put
    ensures len.None? ==>
              && Refused(s0, d0, ads.fs.env, p, clses.View(), ads.View()) && DsInv(ads.View())
              && !Storable(s0, d0, ads.fs.env, p)
    ensures len.Some? ==> len.value <= n
    ensures len.Some? && len.value < n ==>
              && AtHead(clses, ads, s0, d0, p, |p| - (n - len.value), closed')
              && (len.value == 0 ==> clses.sesbuf.datalen < old(clses.sesbuf.datalen))
    ensures len.Some? && len.value == n ==>
              AtEnd(clses, ads, s0, d0, p, closed') && Storable(s0, d0, ads.fs.env, p)
  {
    ghost var k := |p| - n;
    Slices(p, k);
    len, closed' := PutStep(clses, ads, data, at, n, s0, d0, p, p[..k], p[k..], closed);
    hide Putting, Paid, Refused, Storable, Undecided;
    if len.Some? {
      assert p[..k] + p[k..][..len.value] == p[..k + len.value] && p[k..][len.value..] == p[k + len.value..];
      assert p[..|p|] == p;
    }
  }

  method PutStep(clses: Session, ads: Iwds, data: array<byte>, at: nat, n: nat,
                 ghost s0: Ses, ghost d0: Ds, ghost p: seq<byte>, ghost c: seq<byte>, ghost q: seq<byte>,
                 ghost closed: bool)
    returns (len: Option<nat>, ghost closed': bool)
    requires PuttingNow(clses, ads, s0, d0, c, closed) && Undecided(s0, p, clses.View(), q, closed)
    requires p == c + q && (q != [] || clses.View().buf != []) && (p != [] || s0.buf != [])
    requires data !in clses.Repr() && at + n <= data.Length && data[at..at + n] == q
    modifies clses.sesbuf, clses.sesbuf.storage, ads, ads.repr, ads.fs`files
    ensures fresh(ads.repr - old(ads.repr)) && clses.Valid() && ads.Valid() && clses.dir == Put
    ensures len.None? ==>
              && Refused(s0, d0, ads.fs.env, p, clses.View(), ads.View()) && DsInv(ads.View())
              && !Storable(s0, d0, ads.fs.env, p)
    ensures len.Some? ==>
              && len.value <= n && PuttingNow(clses, ads, s0, d0, c + q[..len.value], closed')
    ensures len.Some? && len.value < n ==>
              && Undecided(s0, p, clses.View(), q[len.value..], closed')
              && (len.value == 0 ==> clses.sesbuf.datalen < old(clses.sesbuf.datalen))
    ensures len.Some? && len.value == n ==>
              && Storable(s0, d0, ads.fs.env, p) && |clses.View().buf| < SESSION_BUFSIZE
              && (s0.fin ==> clses.View().buf == [] && (closed' || clses.View().Key() in ads.View().open))
  {
    hide Putting, Paid, Refused, Storable, Undecided, Received, OnlyTouches, SegLen, SegUsed, FlushesOk, DsWrite, Unwire;
    ghost var s, d := clses.View(), ads.View();
    var l := CopyIn(clses, data, at, n);
    ghost var s1 := clses.View();
    assert Stepped(s0, d0, ads.fs.env, p, c, s, d, closed, q, s1);
    if n > 0 && l == 0 {
      ZeroStep(s, q);
    }
    PuttingFin(s0, d0, c, s, d, closed);
    if clses.sesbuf.datalen == SESSION_BUFSIZE || clses.fin {
      var ok := SaveData(clses, ads);
      if !ok {
        RoundFailed(s0, d0, ads.fs.env, p, c, s, d, closed, q, s1);
        return None, closed;
      }
      RoundFlushed(s0, d0, ads.fs.env, p, c, s, d, closed, q, s1);
      return Some(l), s1.buf == [];
    }
    RoundCopied(s0, d0, ads.fs.env, p, c, s, d, closed, q, s1);
    return Some(l), false;
  }

  lemma NothingToPut(s: Ses, d: Ds, p: seq<byte>, env: Env)
    requires s.buf == [] && p == [] && BufOk(s) && (s.Key() in d.open ==> Writer(d, s.Key()))
    ensures Stored(s, d, p, s, d) && Storable(s, d, env, p)
  {
  }

  lemma PuttingFin(s0: Ses, d0: Ds, c: seq<byte>, s: Ses, d: Ds, closed: bool)
    requires Putting(s0, d0, c, s, d, closed)
    ensures s.fin == s0.fin && DsInv(d)
  {
  }

  /** put_session_data on the payload `data[at..at + n]`. The code returns the number of bytes
      consumed, which is always all of them; `ok` says that it did not fail. */
  method PutSessionData(clses: Session, ads: Iwds, data: array<byte>, at: nat, n: nat) returns (ok: bool)
    requires clses.Valid() && clses.dir == Put && ads.Valid() && DsInv(ads.View())
    requires clses.View().Key() in ads.View().open ==> Writer(ads.View(), clses.View().Key())
    requires data !in clses.Repr() && at + n <= data.Length
    modifies clses.sesbuf, clses.sesbuf.storage, ads, ads.repr, ads.fs`files
    ensures clses.Valid() && ads.Valid() && clses.dir == Put && fresh(ads.repr - old(ads.repr))
    ensures DsInv(ads.View())
    ensures var s, d, p := old(clses.View()), old(ads.View()), data[at..at + n];
            && (ok <==> Storable(s, d, ads.fs.env, p))
            && if ok then Stored(s, d, p, clses.View(), ads.View())
               else Refused(s, d, ads.fs.env, p, clses.View(), ads.View())
  {
    ghost var s0, d0, p := clses.View(), ads.View(), data[at..at + n];
    if clses.sesbuf.datalen == 0 && n == 0 {
      NothingToPut(s0, d0, p, ads.fs.env);
      return true;
    }
    PuttingStarted(s0, d0);
    assert p[..0] == [] && p[0..] == p;
    ok := PutLoop(clses, ads, data, at, n, s0, d0, p);
  }

  /** The loop of put_session_data */
  method PutLoop(clses: Session, ads: Iwds, data: array<byte>, at: nat, n: nat,
                 ghost s0: Ses, ghost d0: Ds, ghost p: seq<byte>) returns (ok: bool)
    requires data !in clses.Repr() && at + n <= data.Length && data[at..at + n] == p
    requires AtHead(clses, ads, s0, d0, p, 0, false) && (s0.buf != [] || p != [])
    modifies clses.sesbuf, clses.sesbuf.storage, ads, ads.repr, ads.fs`files
    ensures clses.Valid() && ads.Valid() && clses.dir == Put && fresh(ads.repr - old(ads.repr))
    ensures DsInv(ads.View()) && (ok <==> Storable(s0, d0, ads.fs.env, p))
    ensures if ok then Stored(s0, d0, p, clses.View(), ads.View())
            else Refused(s0, d0, ads.fs.env, p, clses.View(), ads.View())
  {
    hide *;
    NotItsBuffer(clses, data);
    ghost var all := data[..];
    var k, fend := 0, false;
    ghost var closed := false;
    while !fend
      invariant k <= n == |p| && data[..] == all && fresh(ads.repr - old(ads.repr))
      invariant !fend ==> AtHead(clses, ads, s0, d0, p, k, closed)
      invariant fend ==> AtEnd(clses, ads, s0, d0, p, closed) && Storable(s0, d0, ads.fs.env, p)
      decreases n - k, if fend then 0 else 1, clses.sesbuf.datalen
    {
      SubSlice(all, at, n, k);
      var len;
      len, closed := PutRound(clses, ads, data, at + k, n - k, s0, d0, p, closed);
      if len.None? {
        return false;
      }
      k := k + len.value;
      fend := k == n;
    }
    PutDone(clses, ads, s0, d0, p, closed);
    return true;
  }

  lemma NotItsBuffer(clses: Session, data: array<byte>)
    requires data !in clses.Repr()
    ensures data != clses.sesbuf.storage && data != clses.lastmsg
  {
  }

  lemma SubSlice(all: seq<byte>, at: nat, n: nat, k: nat)
    requires at + n <= |all| && k <= n
    ensures all[at + k..at + k + (n - k)] == all[at..at + n][k..]
  {
  }

  lemma Slices(p: seq<byte>, k: nat)
    requires k <= |p|
    ensures p == p[..k] + p[k..]
    ensures forall l: nat {:trigger p[k..][..l]} {:trigger p[k..][l..]} :: k + l <= |p| ==>
              p[..k] + p[k..][..l] == p[..k + l] && p[k..][l..] == p[k + l..]
  {
  }

  lemma PutDone(clses: Session, ads: Iwds, s0: Ses, d0: Ds, p: seq<byte>, closed: bool)
    requires AtEnd(clses, ads, s0, d0, p, closed)
    requires s0.buf != [] || p != []
    ensures clses.Valid() && clses.dir == Put && ads.Valid() && DsInv(ads.View())
    ensures Stored(s0, d0, p, clses.View(), ads.View())
  {
  }
}
