/** The session record of src/tftp.h and its data buffer, with the two translators that work on
    that buffer. */
module Sessions {
  import opened Base
  import opened Netascii
  import opened SessionSpec

  lemma Halves(s: seq<byte>, i: nat, j: nat, k: nat)
    requires i <= j <= k <= |s|
    ensures s[i..k] == s[i..j] + s[j..k]
  {
  }

  /** `struct datastorage`: `pos` is the offset of the C pointer into `storage`. */
  class DataStorage {
    var pos: nat
    var fopt: bool
    var datalen: nat
    const storage: array<byte>

    constructor ()
      ensures pos == 0 && !fopt && datalen == 0 && storage.Length == SESSION_BUFSIZE && fresh(storage)
    {
      pos, fopt, datalen := 0, false, 0;
      storage := new byte[SESSION_BUFSIZE](_ => 0);
    }

    /** A buffer that is being read: `datalen` bytes are left from `pos` on. */
    ghost predicate Reading()
      reads this
    {
      && storage.Length == SESSION_BUFSIZE && pos + datalen <= SESSION_BUFSIZE
    }

    ghost function Unread(): seq<byte>
      requires Reading()
      reads this, storage
    {
      storage[pos..pos + datalen]
    }

    /** A buffer that is being filled: `pos` is its end. */
    ghost predicate Filling()
      reads this
    {
      storage.Length == SESSION_BUFSIZE && pos == datalen <= SESSION_BUFSIZE && !fopt
    }

    ghost function Pending(): seq<byte>
      requires Filling()
      reads this, storage
    {
      storage[..datalen]
    }

    /** The state the translator may be resumed in: a CR is pending only before its LF. */
    ghost predicate Resumable()
      reads this, storage
    {
      Reading() && (fopt ==> datalen > 0 && storage[pos] == LF)
    }

    /** local_to_netascii: translates until the buffer or the destination is exhausted or a LF has
        been written. A CR that fills the destination leaves its LF for the next call.
        `used` are the bytes consumed, `out` the bytes written at `at`. */
    method LocalToNetascii(dst: array<byte>, at: nat, bufsize: nat)
      returns (dstlen: nat, ghost used: seq<byte>, ghost out: seq<byte>)
      requires Resumable() && dst != storage && at + bufsize <= dst.Length
      requires fopt ==> bufsize >= 2
      modifies this, dst
      ensures Resumable() && old(Unread()) == used + Unread()
      ensures dstlen <= bufsize && (dstlen == 0 <==> bufsize == 0 || old(datalen) == 0)
      ensures fopt ==> dstlen == bufsize
      ensures |out| == dstlen && dst[..at + dstlen] == old(dst[..at]) + out
      ensures Translates(old(fopt), used, out, fopt)
      ensures LfBehindCr(old(fopt), out)
    {
      hide Translates, Encode, LfBehindCr;
      ghost var f := fopt;
      var found;
      dstlen, found, out := CopyPlain(dst, at, bufsize);
      used := out;
      if found {
        var len, lf, nl := PutNewline(dst, at + dstlen, bufsize - dstlen);
        TranslatesConcat(f, used, out, f, lf, nl, fopt);
        Assoc(used, lf, Unread());
        Assoc(old(dst[..at]), out, nl);
        dstlen, used, out := dstlen + len, used + lf, out + nl;
      }
      TranslatedNewlines(f, used, out, fopt);
    }

    /** The bytes in front of the first LF, as many as fit */
    method CopyPlain(dst: array<byte>, at: nat, bufsize: nat)
      returns (dstlen: nat, found: bool, ghost out: seq<byte>)
      requires Resumable() && dst != storage && at + bufsize <= dst.Length
      modifies this`pos, this`datalen, dst
      ensures Resumable() && old(Unread()) == out + Unread()
      ensures dstlen <= bufsize && (found <==> dstlen < bufsize && datalen > 0)
      ensures fopt ==> dstlen == 0
      ensures found ==> storage[pos] == LF
      ensures |out| == dstlen && dst[..at + dstlen] == old(dst[..at]) + out
      ensures Translates(fopt, out, out, fopt)
    {
      hide Translates;
      var from := pos;
      dstlen, found := PassPlain(bufsize);
      out := storage[from..pos];
      Halves(storage[..], from, pos, pos + datalen);
      TranslatesPlain(fopt, out);
      MemCpy(dst, at, storage, from, dstlen);
    }

    /** The scan for the first LF: `n` bytes are passed. */
    method PassPlain(bufsize: nat) returns (n: nat, found: bool)
      requires Resumable()
      modifies this`pos, this`datalen
      ensures Resumable() && pos == old(pos) + n && datalen == old(datalen) - n && n <= bufsize
      ensures LF !in storage[old(pos)..pos]
      ensures found <==> n < bufsize && datalen > 0
      ensures (fopt ==> n == 0) && (found ==> storage[pos] == LF)
    {
      n, found := 0, false;
      while n < bufsize && datalen > 0
        invariant pos == old(pos) + n && datalen == old(datalen) - n && n <= bufsize && Reading()
        invariant LF !in storage[old(pos)..pos]
        invariant fopt ==> n == 0 && datalen > 0 && storage[pos] == LF
      {
        if storage[pos] == LF {
          found := true;
          break;
        }
        assert storage[old(pos)..pos + 1] == storage[old(pos)..pos] + [storage[pos]];
        pos, n, datalen := pos + 1, n + 1, datalen - 1;
      }
    }

    /** The LF at `pos` goes out as CR LF, as the LF of a CR already sent, or as a CR alone when
        there is room for only one byte. */
    method PutNewline(dst: array<byte>, at: nat, room: nat)
      returns (len: nat, ghost used: seq<byte>, ghost out: seq<byte>)
      requires Resumable() && dst != storage && at + room <= dst.Length
      requires datalen > 0 && storage[pos] == LF && room > 0 && (fopt ==> room >= 2)
      modifies this, dst
      ensures Resumable() && old(Unread()) == used + Unread()
      ensures 0 < len <= room && (fopt ==> len == room)
      ensures |out| == len && dst[..at + len] == old(dst[..at]) + out
      ensures Translates(old(fopt), used, out, fopt)
    {
      used := [];
      if room >= 2 {
        if fopt {
          dst[at] := storage[pos];
          len, out := 1, [LF];
          fopt := false;
        } else {
          dst[at] := CR;
          dst[at + 1] := storage[pos];
          len, out := 2, [CR, LF];
        }
        used := [LF];
        pos := pos + 1;
        datalen := datalen - 1;
      } else {
        dst[at] := CR;
        len, out := 1, [CR];
        fopt := true;
      }
    }

    /** netascii_to_local: copies up to the next CR, the end of the source or a full buffer, and
        skips that CR. */
    method NetasciiToLocal(src: array<byte>, at: nat, srclen: nat) returns (chklen: nat)
      requires Filling() && src != storage && at + srclen <= src.Length
      modifies this`pos, this`datalen, storage
      ensures Filling()
      ensures var p := src[at..at + srclen];
              && chklen == SegUsed(SESSION_BUFSIZE - old(datalen), p) <= srclen
              && Pending() == old(Pending()) + p[..SegLen(SESSION_BUFSIZE - old(datalen), p)]
              && Pending() == old(Pending()) + Decode(p[..chklen])
    {
      ghost var p := src[at..at + srclen];
      var found;
      chklen, found := FindCr(src, at, srclen, SESSION_BUFSIZE - datalen);
      SkipsCr(p, chklen);
      Append(src, at, chklen, p[..chklen]);
      if found {
        chklen := chklen + 1;
      }
    }

    /** The scan for the first CR, within `room` bytes */
    method FindCr(src: array<byte>, at: nat, srclen: nat, room: nat) returns (n: nat, found: bool)
      requires at + srclen <= src.Length
      ensures var p := src[at..at + srclen];
              n == SegLen(room, p) && CR !in p[..n] && SegUsed(room, p) == if found then n + 1 else n
      ensures found ==> n < srclen && src[at + n] == CR
    {
      ghost var p := src[at..at + srclen];
      n, found := 0, false;
      while n < room && n < srclen
        invariant n <= room && n <= srclen
        invariant CR !in p[..n]
        invariant SegLen(room, p) == n + SegLen(room - n, p[n..])
      {
        if src[at + n] == CR {
          found := true;
          break;
        }
        assert p[..n + 1] == p[..n] + [p[n]];
        assert p[n..][1..] == p[n + 1..];
        n := n + 1;
      }
    }

    /** The memcpy into the buffer and the two assignments after it */
    method Append(src: array<byte>, at: nat, n: nat, ghost plain: seq<byte>)
      requires Filling() && src != storage && at + n <= src.Length && n <= SESSION_BUFSIZE - datalen
      requires src[at..at + n] == plain
      modifies this`pos, this`datalen, storage
      ensures Filling() && Pending() == old(Pending()) + plain
    {
      ghost var was := Pending();
      MemCpy(storage, pos, src, at, n);
      pos := pos + n;
      datalen := datalen + n;
      assert Pending() == was + plain;
    }
  }

  lemma SkipsCr(p: seq<byte>, n: nat)
    requires n <= |p| && CR !in p[..n]
    ensures Decode(p[..n]) == p[..n]
    ensures n < |p| && p[n] == CR ==> Decode(p[..n + 1]) == p[..n]
  {
    DecodeIdentityIff(p[..n]);
    if n < |p| && p[n] == CR {
      assert p[..n + 1] == p[..n] + [CR];
      DecodeConcat(p[..n], [CR]);
      assert Decode([CR]) == [];
    }
  }

  /** `struct session`; the array lengths are those of the C arrays. */
  class Session {
    var next: Session?
    var prev: Session?
    var clip: string
    var clport: u16
    var clsock: int
    var tftpmode: Mode
    const sesbuf: DataStorage
    var filename: seq<byte>
    var blknum: u16
    var fin: bool
    const lastmsg: array<byte>
    var lastmsglen: nat
    var lastsending: nat
    var retrycount: nat
    var disabled: bool
    ghost var dir: Dir

    /** The zeroed node of create_session */
    constructor ()
      ensures next == null && prev == null && fresh(Repr()) && Valid() && sesbuf.pos == 0
      ensures dir == Get && View() == Ses(Get, OctetMode, -1, [], 0, false, false, 0, [], 0, [], false)
    {
      next, prev, clip, clport, clsock, tftpmode := null, null, "", 0, -1, OctetMode;
      filename, blknum, fin, lastmsglen, lastsending, retrycount, disabled := [], 0, false, 0, 0, 0, false;
      dir := Get;
      sesbuf := new DataStorage();
      lastmsg := new byte[MSG_MAX](_ => 0);
    }

    /** The node, its buffers and nothing else */
    ghost function Repr(): set<object> { {this, sesbuf, sesbuf.storage, lastmsg} }

    ghost predicate Valid()
      reads this, sesbuf, sesbuf.storage, lastmsg
    {
      && lastmsg.Length == MSG_MAX && lastmsglen <= MSG_MAX && lastmsg != sesbuf.storage
      && (dir == Get ==> sesbuf.Resumable() && (sesbuf.fopt ==> tftpmode == NetasciiMode))
      && (dir == Put ==> sesbuf.Filling())
    }

    ghost function View(): (s: Ses)
      requires Valid()
      reads this, sesbuf, sesbuf.storage, lastmsg
      ensures BufOk(s)
    {
      Ses(dir, tftpmode, clsock, filename, blknum, fin, disabled, retrycount,
          lastmsg[..lastmsglen], lastsending,
          if dir == Get then sesbuf.Unread() else sesbuf.Pending(), sesbuf.fopt)
    }

    /** Relinking does not touch what a session stands for. */
    twostate lemma Relinked()
      requires old(Valid()) && unchanged(sesbuf) && unchanged(sesbuf.storage) && unchanged(lastmsg)
      requires unchanged(`clsock) && unchanged(`tftpmode) && unchanged(`filename) && unchanged(`blknum)
      requires unchanged(`fin) && unchanged(`lastmsglen) && unchanged(`lastsending) && unchanged(`retrycount)
      requires unchanged(`disabled) && unchanged(`dir)
      ensures Valid() && View() == old(View())
    {
    }
  }
}
