/** The packet formats of section 5 of RFC 1350, as the server builds and parses them.
    The parsers look at the whole receive buffer `buf`: its first `len` bytes are the datagram
    and the rest is whatever an earlier datagram left there. */
module Packets {
  import opened Base
  import opened Netascii

  const OP_RRQ: u16 := 1
  const OP_WRQ: u16 := 2
  const OP_DATA: u16 := 3
  const OP_ACK: u16 := 4
  const OP_ERROR: u16 := 5

  const ERR_SEEMSG: u16 := 0
  const ERR_NOTFOUND: u16 := 1
  const ERR_ACCESSDENY: u16 := 2
  const ERR_ILLEGALOPE: u16 := 4
  const ERR_UNKNOWNID: u16 := 5
  const ERR_FILEEXIST: u16 := 6

  /** "netascii" and "octet" */
  const NETASCII: seq<byte> := [110, 101, 116, 97, 115, 99, 105, 105]
  const OCTET: seq<byte> := [111, 99, 116, 101, 116]

  datatype Request = Request(name: seq<byte>, mode: Mode)
  datatype Data = Data(blk: u16, payload: seq<byte>)
  datatype Error = Error(code: u16, text: seq<byte>)

  function ModeName(m: Mode): seq<byte> { if m == OctetMode then OCTET else NETASCII }

  /** htons and ntohs on a two-byte field */
  function Word(n: u16): (w: seq<byte>)
    ensures |w| == 2
  {
    [(n / 256) as byte, (n % 256) as byte]
  }

  function WordAt(m: seq<byte>, i: nat): u16
    requires i + 2 <= |m|
  {
    (m[i] as int) * 256 + m[i + 1] as int
  }

  lemma WordFacts(m: seq<byte>, i: nat, n: u16)
    requires i + 2 <= |m|
    ensures WordAt(m, i) == n <==> m[i..i + 2] == Word(n)
  {
  }

  function DataMsg(blk: u16, payload: seq<byte>): seq<byte> { Word(OP_DATA) + Word(blk) + payload }

  function AckMsg(blk: u16): seq<byte> { Word(OP_ACK) + Word(blk) }

  function ErrMsg(code: u16, text: seq<byte>): seq<byte> { Word(OP_ERROR) + Word(code) + text + [0] }

  function ReqMsg(op: u16, r: Request): seq<byte> { Word(op) + r.name + [0] + ModeName(r.mode) + [0] }

  // ---- the formats, byte by byte ----

  lemma AckFormat(blk: u16)
    ensures var m := AckMsg(blk);
            |m| == 4 && m[0] == 0 && m[1] == 4 && m[2] as int * 256 + m[3] as int == blk
  {
  }

  lemma DataFormat(blk: u16, payload: seq<byte>)
    ensures var m := DataMsg(blk, payload);
            && |m| == 4 + |payload| && m[0] == 0 && m[1] == 3 && m[2] as int * 256 + m[3] as int == blk
            && m[4..] == payload
  {
  }

  lemma ErrFormat(code: u16, text: seq<byte>)
    ensures var m := ErrMsg(code, text);
            && |m| == 5 + |text| && m[0] == 0 && m[1] == 5 && m[2] as int * 256 + m[3] as int == code
            && m[4..4 + |text|] == text && m[4 + |text|] == 0
  {
  }

  lemma ReqFormat(name: seq<byte>, mode: Mode)
    ensures var r, w := ReqMsg(OP_RRQ, Request(name, mode)), ReqMsg(OP_WRQ, Request(name, mode));
            var mn := if mode == OctetMode then Ascii("octet") else Ascii("netascii");
            && r == [0, 1] + name + [0] + mn + [0]
            && w == [0, 2] + name + [0] + mn + [0]
  {
    assert Ascii("octet") == OCTET && Ascii("netascii") == NETASCII;
  }

  function Opcode(buf: seq<byte>): u16
    requires |buf| >= 2
  {
    WordAt(buf, 0)
  }

  /** Length of the NUL-terminated string at `i`, if the NUL is among the first `max` bytes. */
  function StrLen(buf: seq<byte>, i: nat, max: nat): (n: Option<nat>)
    requires i + max <= |buf|
    ensures n.None? <==> 0 !in buf[i..i + max]
    ensures n.Some? ==> n.value < max && buf[i + n.value] == 0 && 0 !in buf[i..i + n.value]
    decreases |buf| - i
  {
    if max == 0 then None
    else if buf[i] == 0 then
      InSlice(buf, i, max, 0);
      Some(0)
    else
      var rest := StrLen(buf, i + 1, max - 1);
      var n := if rest.None? then max - 1 else rest.value;
      ConsSlice(buf, i, n);
      ConsSlice(buf, i, max - 1);
      if rest.None? then None else Some(rest.value + 1)
  }

  lemma ConsSlice(s: seq<byte>, i: nat, n: nat)
    requires i + 1 + n <= |s|
    ensures s[i..i + 1 + n] == [s[i]] + s[i + 1..i + 1 + n]
    ensures 0 in s[i..i + 1 + n] <==> s[i] == 0 || 0 in s[i + 1..i + 1 + n]
  {
  }

  lemma InSlice(s: seq<byte>, i: nat, n: nat, j: nat)
    requires j < n && i + n <= |s|
    ensures s[i + j] in s[i..i + n]
  {
  }

  /** The first NUL decides. */
  lemma StrLenIs(buf: seq<byte>, i: nat, max: nat, k: nat)
    requires i + max <= |buf| && k < max
    requires buf[i + k] == 0 && 0 !in buf[i..i + k]
    ensures StrLen(buf, i, max) == Some(k)
  {
  }

  /** The string of length `n` at `i` is what StrLen finds, and nothing else is. */
  lemma StrLenIff(buf: seq<byte>, i: nat, max: nat, s: seq<byte>)
    requires i + max <= |buf| && |s| < max
    ensures StrLen(buf, i, max) == Some(|s|) && buf[i..i + |s|] == s <==>
            buf[i..i + |s| + 1] == s + [0] && 0 !in s
  {
    assert buf[i..i + |s| + 1] == buf[i..i + |s|] + [buf[i + |s|]];
    if buf[i..i + |s| + 1] == s + [0] && 0 !in s {
      assert buf[i..i + |s| + 1][|s|] == 0;
      assert buf[i..i + |s|] == buf[i..i + |s| + 1][..|s|] == s;
      StrLenIs(buf, i, max, |s|);
    }
  }

  // ---- parse_tftpreq ----

  function ParseReq(buf: seq<byte>, len: nat): Option<Request>
    requires |buf| == NWBUF_SIZE
  {
    if len < 10 || (Opcode(buf) != OP_RRQ && Opcode(buf) != OP_WRQ) then None
    else
      var n := StrLen(buf, 2, FILENAME_MAX);
      if n.None? then None
      else
        var at := 2 + n.value + 1;
        var m := StrLen(buf, at, MODENAME_MAX);
        if m.None? then None
        else if buf[at..at + m.value] == NETASCII then Some(Request(buf[2..2 + n.value], NetasciiMode))
        else if buf[at..at + m.value] == OCTET then Some(Request(buf[2..2 + n.value], OctetMode))
        else None
  }

  method ParseTftpreq(msg: array<byte>, msglen: nat) returns (req: Option<Request>)
    requires msg.Length == NWBUF_SIZE
    ensures req == ParseReq(msg[..], msglen)
  {
    hide StrLen, Opcode;
    if msglen < 10 || (Opcode(msg[..]) != OP_RRQ && Opcode(msg[..]) != OP_WRQ) {
      return None;
    }
    var n := ScanNul(msg, 2, FILENAME_MAX);
    if n.None? {
      return None;
    }
    var at := 2 + n.value + 1;
    var m := ScanNul(msg, at, MODENAME_MAX);
    if m.None? {
      return None;
    }
    assert msg[..][2..2 + n.value] == msg[2..2 + n.value];
    assert msg[..][at..at + m.value] == msg[at..at + m.value];
    if msg[at..at + m.value] == NETASCII {
      return Some(Request(msg[2..2 + n.value], NetasciiMode));
    }
    if msg[at..at + m.value] == OCTET {
      return Some(Request(msg[2..2 + n.value], OctetMode));
    }
    return None;
  }

  /** The bounded scan for a terminating NUL that the request and error parsers share. */
  method ScanNul(msg: array<byte>, from: nat, max: nat) returns (n: Option<nat>)
    requires from + max <= msg.Length
    ensures n == StrLen(msg[..], from, max)
  {
    ghost var s := msg[..];
    var i := 0;
    while i < max
      invariant 0 <= i <= max
      invariant 0 !in s[from..from + i]
    {
      if msg[from + i] == 0 {
        StrLenIs(s, from, max, i);
        return Some(i);
      }
      assert s[from..from + (i + 1)] == s[from..from + i] + [s[from + i]];
      i := i + 1;
    }
    return None;
  }

  /** The parser accepts a buffer exactly when it begins with an encoded request, and then it
      recovers the file name and the mode that were encoded. */
  lemma ParseReqIff(buf: seq<byte>, len: nat, r: Request)
    requires |buf| == NWBUF_SIZE
    ensures ParseReq(buf, len) == Some(r) <==>
            len >= 10 && |r.name| < 256 && 0 !in r.name && (ReqMsg(OP_RRQ, r) <= buf || ReqMsg(OP_WRQ, r) <= buf)
  {
    if |r.name| < FILENAME_MAX {
      ReqMsgPrefix(buf, OP_RRQ, r);
      ReqMsgPrefix(buf, OP_WRQ, r);
      ReqFields(buf, r);
    }
  }

  predicate HasReqFields(buf: seq<byte>, r: Request)
    requires |buf| == NWBUF_SIZE && |r.name| < FILENAME_MAX
  {
    var at, mode := 3 + |r.name|, ModeName(r.mode);
    buf[2..at] == r.name + [0] && buf[at..at + |mode| + 1] == mode + [0]
  }

  /** The two strings that the parser finds */
  predicate Found(buf: seq<byte>, r: Request)
    requires |buf| == NWBUF_SIZE && |r.name| < FILENAME_MAX
  {
    var at, mode := 3 + |r.name|, ModeName(r.mode);
    && StrLen(buf, 2, FILENAME_MAX) == Some(|r.name|) && buf[2..2 + |r.name|] == r.name
    && StrLen(buf, at, MODENAME_MAX) == Some(|mode|) && buf[at..at + |mode|] == mode
  }

  lemma ReqFound(buf: seq<byte>, r: Request)
    requires |buf| == NWBUF_SIZE && |r.name| < FILENAME_MAX
    ensures ParseReq(buf, 10) == Some(r) <==> (Opcode(buf) == OP_RRQ || Opcode(buf) == OP_WRQ) && Found(buf, r)
  {
    hide StrLen, Opcode;
  }

  lemma FoundFields(buf: seq<byte>, r: Request)
    requires |buf| == NWBUF_SIZE && |r.name| < FILENAME_MAX
    ensures Found(buf, r) <==> HasReqFields(buf, r) && 0 !in r.name
  {
    hide StrLen, ModeName;
    ModeNames(r.mode);
    StrLenIff(buf, 2, FILENAME_MAX, r.name);
    StrLenIff(buf, 3 + |r.name|, MODENAME_MAX, ModeName(r.mode));
  }

  lemma ModeNames(m: Mode)
    ensures 0 !in ModeName(m) && 5 <= |ModeName(m)| < MODENAME_MAX
  {
  }

  lemma ReqFields(buf: seq<byte>, r: Request)
    requires |buf| == NWBUF_SIZE && |r.name| < FILENAME_MAX
    ensures ParseReq(buf, 10) == Some(r) <==>
            (Opcode(buf) == OP_RRQ || Opcode(buf) == OP_WRQ) && HasReqFields(buf, r) && 0 !in r.name
  {
    hide ParseReq, Found, HasReqFields, Opcode;
    ReqFound(buf, r);
    FoundFields(buf, r);
  }

  lemma ReqMsgPrefix(buf: seq<byte>, op: u16, r: Request)
    requires |buf| == NWBUF_SIZE && |r.name| < FILENAME_MAX
    ensures ReqMsg(op, r) <= buf <==> Opcode(buf) == op && HasReqFields(buf, r)
  {
    var at, mode := 3 + |r.name|, ModeName(r.mode);
    var end := at + |mode| + 1;
    var msg := ReqMsg(op, r);
    WordFacts(buf, 0, op);
    assert msg == Word(op) + (r.name + [0]) + (mode + [0]);
    assert buf[..end] == buf[0..2] + buf[2..at] + buf[at..end];
    if msg <= buf {
      assert msg == buf[..end];
      assert buf[0..2] == msg[0..2] && buf[2..at] == msg[2..at] && buf[at..end] == msg[at..end];
    }
  }

  // ---- parse_tftpdata and parse_tftpack ----

  function ParseData(buf: seq<byte>, len: nat): Option<Data>
    requires len <= |buf| == NWBUF_SIZE
  {
    if len < 4 || len - 4 > BLOCK_SIZE || Opcode(buf) != OP_DATA then None
    else Some(Data(WordAt(buf, 2), buf[4..len]))
  }

  lemma ParseDataIff(buf: seq<byte>, len: nat, d: Data)
    requires len <= |buf| == NWBUF_SIZE
    ensures ParseData(buf, len) == Some(d) <==> |d.payload| <= 512 && buf[..len] == DataMsg(d.blk, d.payload)
  {
  }

  function ParseAck(buf: seq<byte>, len: nat): Option<u16>
    requires len <= |buf| == NWBUF_SIZE
  {
    if len != 4 || Opcode(buf) != OP_ACK then None else Some(WordAt(buf, 2))
  }

  lemma ParseAckIff(buf: seq<byte>, len: nat, blk: u16)
    requires len <= |buf| == NWBUF_SIZE
    ensures ParseAck(buf, len) == Some(blk) <==> buf[..len] == AckMsg(blk)
  {
  }

  // ---- parse_tftperror ----

  function ParseErr(buf: seq<byte>, len: nat): Option<Error>
    requires |buf| == NWBUF_SIZE
  {
    if len < 5 || Opcode(buf) != OP_ERROR then None
    else
      var n := StrLen(buf, 4, EMSG_MAX);
      if n.None? then None else Some(Error(WordAt(buf, 2), buf[4..4 + n.value]))
  }

  method ParseTftperror(msg: array<byte>, msglen: nat) returns (err: Option<Error>)
    requires msg.Length == NWBUF_SIZE
    ensures err == ParseErr(msg[..], msglen)
  {
    if msglen < 5 || Opcode(msg[..]) != OP_ERROR {
      return None;
    }
    var n := ScanNul(msg, 4, EMSG_MAX);
    if n.None? {
      return None;
    }
    assert msg[..][4..4 + n.value] == msg[4..4 + n.value];
    return Some(Error(WordAt(msg[..], 2), msg[4..4 + n.value]));
  }

  lemma ParseErrIff(buf: seq<byte>, len: nat, e: Error)
    requires |buf| == NWBUF_SIZE
    ensures ParseErr(buf, len) == Some(e) <==> len >= 5 && |e.text| < 256 && 0 !in e.text && ErrMsg(e.code, e.text) <= buf
  {
    hide StrLen, WordAt;
    if |e.text| < EMSG_MAX {
      ErrFields(buf, e);
    }
  }

  lemma ErrFields(buf: seq<byte>, e: Error)
    requires |buf| == NWBUF_SIZE && |e.text| < EMSG_MAX
    ensures Opcode(buf) == OP_ERROR && WordAt(buf, 2) == e.code && buf[4..4 + |e.text|] == e.text
            && StrLen(buf, 4, EMSG_MAX) == Some(|e.text|) <==>
              0 !in e.text && ErrMsg(e.code, e.text) <= buf
  {
    hide StrLen, WordAt, Word, ErrMsg;
    WordFacts(buf, 0, OP_ERROR);
    WordFacts(buf, 2, e.code);
    StrLenIff(buf, 4, EMSG_MAX, e.text);
    ErrPrefix(buf, e);
  }

  lemma ErrPrefix(buf: seq<byte>, e: Error)
    requires 5 + |e.text| <= |buf|
    ensures ErrMsg(e.code, e.text) <= buf <==>
              buf[0..2] == Word(OP_ERROR) && buf[2..4] == Word(e.code) && buf[4..5 + |e.text|] == e.text + [0]
  {
    hide Word;
    var end, msg := 5 + |e.text|, ErrMsg(e.code, e.text);
    assert msg == Word(OP_ERROR) + Word(e.code) + (e.text + [0]);
    assert buf[..end] == buf[0..2] + buf[2..4] + buf[4..end];
    if msg <= buf {
      assert msg == buf[..end];
      assert buf[0..2] == msg[0..2] && buf[2..4] == msg[2..4] && buf[4..end] == msg[4..end];
    }
  }

  // ---- make_tftperr_msg ----

  function Ascii(s: string): (b: seq<byte>)
    ensures |b| == |s|
  {
    seq(|s|, i requires 0 <= i < |s| => (s[i] as int % 256) as byte)
  }

  /** The table `errmsgs`; code 0 takes its text from the caller. */
  function ErrText(code: u16): (t: seq<byte>)
    ensures |t| < 64
  {
    if code == 1 then Ascii("file not found")
    else if code == 2 then Ascii("access violation")
    else if code == 3 then Ascii("disk full or allocation exceeded")
    else if code == 4 then Ascii("illegal tftp operation")
    else if code == 5 then Ascii("unknown transfer id")
    else if code == 6 then Ascii("file already exists")
    else if code == 7 then Ascii("no such user")
    else []
  }

  function ErrReply(code: u16, text: seq<byte>): seq<byte>
  {
    ErrMsg(code, if code != ERR_SEEMSG then ErrText(code) else text)
  }

  predicate IsError(m: seq<byte>) { |m| >= 2 && WordAt(m, 0) == OP_ERROR }

  lemma ErrMsgIsError(code: u16, text: seq<byte>)
    ensures IsError(ErrMsg(code, text))
  {
  }

  lemma NoError(blk: u16, payload: seq<byte>)
    ensures !IsError(AckMsg(blk)) && !IsError(DataMsg(blk, payload))
  {
    assert AckMsg(blk)[0..2] == Word(OP_ACK) && DataMsg(blk, payload)[0..2] == Word(OP_DATA);
    WordFacts(AckMsg(blk), 0, OP_ERROR);
    WordFacts(DataMsg(blk, payload), 0, OP_ERROR);
  }

  method MakeTftperrMsg(code: u16, msgbuf: array<byte>, text: seq<byte>) returns (msglen: Option<nat>)
    requires msgbuf.Length == MSG_MAX
    requires code <= 7
    modifies msgbuf
    ensures msglen.Some? <==> |ErrReply(code, text)| <= 516
    ensures msglen.Some? ==> msglen.value <= 516 && msgbuf[..msglen.value] == ErrReply(code, text)
  {
    var emsg := text;
    if code != ERR_SEEMSG {
      emsg := ErrText(code);
    }
    WriteWord(msgbuf, 0, OP_ERROR);
    WriteWord(msgbuf, 2, code);
    if msgbuf.Length - 4 < |emsg| + 1 {
      return None;
    }
    PutBytes(msgbuf, 4, emsg + [0]);
    return Some(4 + |emsg| + 1);
  }

  method WriteWord(msgbuf: array<byte>, at: nat, n: u16)
    requires at + 2 <= msgbuf.Length
    modifies msgbuf
    ensures msgbuf[..at + 2] == old(msgbuf[..at]) + Word(n)
    ensures msgbuf[at + 2..] == old(msgbuf[at + 2..])
  {
    msgbuf[at] := (n / 256) as byte;
    msgbuf[at + 1] := (n % 256) as byte;
  }
}
