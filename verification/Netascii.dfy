/** The two text translations of the server, as functions on whole files.
    They are the code's own: a LF becomes CR LF on the way out, and every CR is deleted
    on the way in. Bare CR is not escaped and NUL is kept. */
module Netascii {
  import opened Base

  datatype Mode = NetasciiMode | OctetMode

  function Encode(s: seq<byte>): (e: seq<byte>)
  {
    if s == [] then []
    else (if s[0] == LF then [CR, LF] else [s[0]]) + Encode(s[1..])
  }

  function Decode(s: seq<byte>): (d: seq<byte>)
  {
    if s == [] then []
    else if s[0] == CR then Decode(s[1..])
    else [s[0]] + Decode(s[1..])
  }

  /** What a GET in mode `m` puts on the wire for the bytes `s`. */
  function Wire(m: Mode, s: seq<byte>): seq<byte> { if m == OctetMode then s else Encode(s) }

  /** What a PUT in mode `m` stores for the wire bytes `s`. */
  function Unwire(m: Mode, s: seq<byte>): seq<byte> { if m == OctetMode then s else Decode(s) }

  lemma {:induction false} EncodeConcat(a: seq<byte>, b: seq<byte>)
    ensures Encode(a + b) == Encode(a) + Encode(b)
  {
    if a == [] {
      assert a + b == b;
    } else {
      assert (a + b)[1..] == a[1..] + b;
      EncodeConcat(a[1..], b);
    }
  }

  lemma {:induction false} DecodeConcat(a: seq<byte>, b: seq<byte>)
    ensures Decode(a + b) == Decode(a) + Decode(b)
  {
    if a == [] {
      assert a + b == b;
    } else {
      assert (a + b)[1..] == a[1..] + b;
      DecodeConcat(a[1..], b);
    }
  }

  /** Decoding leaves no CR, and changes nothing exactly when there was none. */
  lemma {:induction false} DecodeIdentityIff(s: seq<byte>)
    ensures CR !in Decode(s)
    ensures |Decode(s)| <= |s|
    ensures Decode(s) == s <==> CR !in s
  {
    if s != [] {
      DecodeIdentityIff(s[1..]);
      assert s == [s[0]] + s[1..];
    }
  }

  lemma {:induction false} DecodeEncode(s: seq<byte>)
    ensures Decode(Encode(s)) == Decode(s)
  {
    if s != [] {
      var head := if s[0] == LF then [CR, LF] else [s[0]];
      DecodeConcat(head, Encode(s[1..]));
      DecodeEncode(s[1..]);
      assert s[0] == LF ==> head[1..] == [LF] && Decode(head) == [LF];
      assert Decode([s[0]]) == if s[0] == CR then [] else [s[0]];
    }
  }

  lemma UnwireShort(m: Mode, s: seq<byte>)
    ensures |Unwire(m, s)| <= |s|
  {
    DecodeIdentityIff(s);
  }

  /** Encoding changes nothing exactly when there is no LF. */
  lemma {:induction false} EncodeIdentityIff(s: seq<byte>)
    ensures |Encode(s)| >= |s|
    ensures Encode(s) == s <==> LF !in s
  {
    if s != [] {
      EncodeIdentityIff(s[1..]);
      assert s == [s[0]] + s[1..];
      assert s[0] != LF ==> Encode(s)[1..] == Encode(s[1..]);
    }
  }

  function LFs(s: seq<byte>): nat { multiset(s)[LF] }

  /** Every LF stands behind a CR; the first byte, behind the CR sent before. */
  predicate LfBehindCr(sent: bool, s: seq<byte>)
  {
    forall i {:trigger s[i]} :: 0 <= i < |s| && s[i] == LF ==> if i == 0 then sent else s[i - 1] == CR
  }

  /** Every LF goes out behind a CR, and nothing else is added. */
  lemma {:induction false} EncodeNewlines(s: seq<byte>)
    ensures LfBehindCr(false, Encode(s))
    ensures |Encode(s)| == |s| + LFs(s)
  {
    if s != [] {
      var head, rest := if s[0] == LF then [CR, LF] else [s[0]], s[1..];
      EncodeNewlines(rest);
      BehindJoin(false, head, Encode(rest));
      LFsCons(s);
    }
  }

  lemma BehindJoin(sent: bool, a: seq<byte>, b: seq<byte>)
    requires LfBehindCr(sent, a) && LfBehindCr(false, b)
    ensures LfBehindCr(sent, a + b)
  {
    var s := a + b;
    forall i | 0 <= i < |s| && s[i] == LF
      ensures if i == 0 then sent else s[i - 1] == CR
    {
      if i >= |a| {
        assert b[i - |a|] == LF;
      }
    }
  }

  lemma LFsCons(s: seq<byte>)
    requires s != []
    ensures LFs(s) == LFs(s[1..]) + if s[0] == LF then 1 else 0
  {
    assert s == [s[0]] + s[1..];
  }

  /** A file survives the trip out in one mode and back in another exactly when no LF goes out as text
      and comes back as bytes, and no CR comes back as text. */
  lemma RoundTripIff(m: Mode, n: Mode, s: seq<byte>)
    ensures Unwire(n, Wire(m, s)) == s <==>
            && (m == NetasciiMode && n == OctetMode ==> LF !in s)
            && (n == NetasciiMode ==> CR !in s)
    ensures n == NetasciiMode ==> Unwire(n, Wire(m, s)) == Decode(s)
  {
    DecodeEncode(s);
    DecodeIdentityIff(s);
    EncodeIdentityIff(s);
  }

  lemma WireConcat(m: Mode, a: seq<byte>, b: seq<byte>)
    ensures Wire(m, a + b) == Wire(m, a) + Wire(m, b)
  {
    EncodeConcat(a, b);
  }

  lemma UnwireConcat(m: Mode, a: seq<byte>, b: seq<byte>)
    ensures Unwire(m, a + b) == Unwire(m, a) + Unwire(m, b)
  {
    DecodeConcat(a, b);
  }

  /** The lone CR already sent for a LF that is still to be consumed (`fopt`). */
  function Carry(fopt: bool): seq<byte> { if fopt then [CR] else [] }

  /** One call of the translator that consumed `src`, produced `out` and changed `fopt` from `f`
      to `f'`. */
  ghost predicate Translates(f: bool, src: seq<byte>, out: seq<byte>, f': bool)
  {
    Carry(f) + out == Encode(src) + Carry(f')
  }

  /** Calls compose: any sequence of them translates as one call on all that they consumed. */
  lemma TranslatesConcat(f: bool, a: seq<byte>, x: seq<byte>, g: bool, b: seq<byte>, y: seq<byte>, h: bool)
    requires Translates(f, a, x, g) && Translates(g, b, y, h)
    ensures Translates(f, a + b, x + y, h)
  {
    EncodeConcat(a, b);
    Splice(Carry(f), x, Encode(a), Carry(g), y, Encode(b), Carry(h));
  }

  lemma Splice(c: seq<byte>, x: seq<byte>, e: seq<byte>, g: seq<byte>, y: seq<byte>, e': seq<byte>, h: seq<byte>)
    requires c + x == e + g && g + y == e' + h
    ensures c + (x + y) == (e + e') + h
  {
    assert c + (x + y) == (c + x) + y;
    assert (e + g) + y == e + (g + y);
    assert e + (e' + h) == (e + e') + h;
  }

  lemma TranslatesPlain(f: bool, s: seq<byte>)
    requires LF !in s && (f ==> s == [])
    ensures Translates(f, s, s, f)
  {
    EncodeIdentityIff(s);
  }

  /** What one call writes: every LF stands behind a CR, and the bytes are those consumed, with one more
      for each LF. */
  lemma TranslatedNewlines(f: bool, src: seq<byte>, out: seq<byte>, f': bool)
    requires Translates(f, src, out, f')
    ensures LfBehindCr(f, out)
    ensures |Carry(f)| + |out| == |src| + LFs(src) + |Carry(f')|
  {
    hide Encode;
    EncodeNewlines(src);
    BehindJoin(false, Encode(src), Carry(f'));
    BehindTail(f, out);
    assert |Carry(f) + out| == |Encode(src) + Carry(f')|;
  }

  lemma BehindTail(f: bool, s: seq<byte>)
    requires LfBehindCr(false, Carry(f) + s)
    ensures LfBehindCr(f, s)
  {
    var n, w := |Carry(f)|, Carry(f) + s;
    forall i | 0 <= i < |s| && s[i] == LF
      ensures if i == 0 then f else s[i - 1] == CR
    {
      assert w[n + i] == LF;
    }
  }

  /** A call of the translator: what it consumed and wrote, and `fopt` after it */
  datatype Call = Call(src: seq<byte>, out: seq<byte>, fopt: bool)

  ghost predicate Successive(f: bool, calls: seq<Call>)
    decreases calls
  {
    calls != [] ==> Translates(f, calls[0].src, calls[0].out, calls[0].fopt) && Successive(calls[0].fopt, calls[1..])
  }

  function Consumed(calls: seq<Call>): seq<byte> { if calls == [] then [] else calls[0].src + Consumed(calls[1..]) }

  function Written(calls: seq<Call>): seq<byte> { if calls == [] then [] else calls[0].out + Written(calls[1..]) }

  function Pending(f: bool, calls: seq<Call>): bool { if calls == [] then f else calls[|calls| - 1].fopt }

  lemma {:induction false} SuccessiveTranslate(f: bool, calls: seq<Call>)
    requires Successive(f, calls)
    ensures Translates(f, Consumed(calls), Written(calls), Pending(f, calls))
    decreases calls
  {
    if calls != [] {
      var c, rest := calls[0], calls[1..];
      SuccessiveTranslate(c.fopt, rest);
      assert Pending(c.fopt, rest) == Pending(f, calls);
      TranslatesConcat(f, c.src, c.out, c.fopt, Consumed(rest), Written(rest), Pending(c.fopt, rest));
    }
  }

  /** Successive calls, however the file and the blocks are cut: what they have written is the encoding of
      what they have consumed, perhaps with the CR of the next LF; every LF in it stands behind a CR. */
  lemma SuccessiveCalls(calls: seq<Call>)
    requires Successive(false, calls)
    ensures var src, out := Consumed(calls), Written(calls);
            && out == Encode(src) + Carry(Pending(false, calls))
            && LfBehindCr(false, out)
            && |out| == |src| + LFs(src) + if Pending(false, calls) then 1 else 0
  {
    SuccessiveTranslate(false, calls);
    TranslatedNewlines(false, Consumed(calls), Written(calls), Pending(false, calls));
    assert Carry(false) + Written(calls) == Written(calls);
  }
}
