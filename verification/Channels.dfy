/** First-in first-out channels that lose and duplicate messages, and the shape that a
    stop-and-wait exchange gives them. */
module Channels {
  import opened Base

  type Msg = seq<byte>

  ghost predicate All(ch: seq<Msg>, p: iset<Msg>) { forall m :: m in ch ==> m in p }

  /** Messages of `p`, and behind them messages of `q` */
  ghost predicate TwoPhase(ch: seq<Msg>, p: iset<Msg>, q: iset<Msg>)
  {
    exists j :: 0 <= j <= |ch| && All(ch[..j], p) && All(ch[j..], q)
  }

  /** What a receiver leaves in the channel: a message may come again. */
  function AfterHead(ch: seq<Msg>, keep: bool): seq<Msg>
    requires ch != []
  {
    if keep then ch else ch[1..]
  }

  function Post(ch: seq<Msg>, m: Option<Msg>): seq<Msg> { if m.Some? then ch + [m.value] else ch }

  lemma PostPhase(ch: seq<Msg>, p: iset<Msg>, q: iset<Msg>, m: Msg)
    requires TwoPhase(ch, p, q) && m in q
    ensures TwoPhase(ch + [m], p, q)
  {
    var j :| 0 <= j <= |ch| && All(ch[..j], p) && All(ch[j..], q);
    assert (ch + [m])[..j] == ch[..j] && (ch + [m])[j..] == ch[j..] + [m];
  }

  lemma AllPhase(ch: seq<Msg>, p: iset<Msg>, q: iset<Msg>)
    ensures All(ch, p) ==> TwoPhase(ch, p, q)
    ensures All(ch, q) ==> TwoPhase(ch, p, q)
  {
    assert ch[..|ch|] == ch && ch[..0] == [] && ch[0..] == ch && ch[|ch|..] == [];
  }

  lemma AllRemove(ch: seq<Msg>, p: iset<Msg>, at: nat)
    requires at < |ch|
    ensures All(ch, p) ==> All(RemoveAt(ch, at), p)
  {
  }

  lemma LosePhase(ch: seq<Msg>, p: iset<Msg>, q: iset<Msg>, at: nat)
    requires TwoPhase(ch, p, q) && at < |ch|
    ensures TwoPhase(RemoveAt(ch, at), p, q)
  {
    var j :| 0 <= j <= |ch| && All(ch[..j], p) && All(ch[j..], q);
    var r := RemoveAt(ch, at);
    if at < j {
      assert r[..j - 1] == RemoveAt(ch[..j], at) && r[j - 1..] == ch[j..];
    } else {
      assert r[..j] == ch[..j] && r[j..] == RemoveAt(ch[j..], at - j);
    }
  }

  /** The first message belongs to the first phase, or the first phase is over. */
  lemma HeadPhase(ch: seq<Msg>, p: iset<Msg>, q: iset<Msg>)
    requires TwoPhase(ch, p, q) && ch != []
    ensures ch[0] in p || (ch[0] in q && All(ch, q))
    ensures TwoPhase(ch[1..], p, q)
  {
    var j :| 0 <= j <= |ch| && All(ch[..j], p) && All(ch[j..], q);
    if j == 0 {
      assert ch[0..] == ch;
      AllPhase(ch[1..], p, q);
    } else {
      assert ch[..j][0] == ch[0] && ch[1..][..j - 1] == ch[..j][1..] && ch[1..][j - 1..] == ch[j..];
    }
  }

  /** The two channels of a stop-and-wait exchange. The server has made its answer number k
      (`d1`, after `d0`); the client has sent its messages k-1 (`a0`) and, when it has `caught`
      up, k (`a1`). */
  ghost predicate InStep(caught: bool, toC: seq<Msg>, toS: seq<Msg>,
                         d0: iset<Msg>, d1: iset<Msg>, a0: iset<Msg>, a1: iset<Msg>)
  {
    if caught then All(toC, d1) && TwoPhase(toS, a0, a1) else TwoPhase(toC, d0, d1) && All(toS, a0)
  }

  lemma LoseInStep(caught: bool, toC: seq<Msg>, toS: seq<Msg>, d0: iset<Msg>, d1: iset<Msg>, a0: iset<Msg>,
                   a1: iset<Msg>, at: nat)
    requires InStep(caught, toC, toS, d0, d1, a0, a1)
    ensures at < |toC| ==> InStep(caught, RemoveAt(toC, at), toS, d0, d1, a0, a1)
    ensures at < |toS| ==> InStep(caught, toC, RemoveAt(toS, at), d0, d1, a0, a1)
  {
    if at < |toC| && !caught {
      LosePhase(toC, d0, d1, at);
    }
    if at < |toS| && caught {
      LosePhase(toS, a0, a1, at);
    }
  }

  lemma HeadInStep(caught: bool, toC: seq<Msg>, toS: seq<Msg>, d0: iset<Msg>, d1: iset<Msg>, a0: iset<Msg>,
                   a1: iset<Msg>, keep: bool)
    requires InStep(caught, toC, toS, d0, d1, a0, a1)
    ensures toC != [] ==>
              && InStep(caught, AfterHead(toC, keep), toS, d0, d1, a0, a1)
              && ((!caught && toC[0] in d0) || (toC[0] in d1 && All(AfterHead(toC, keep), d1)))
    ensures toS != [] ==>
              && InStep(caught, toC, AfterHead(toS, keep), d0, d1, a0, a1)
              && (toS[0] in a0 || (caught && toS[0] in a1 && All(AfterHead(toS, keep), a1)))
  {
    if toC != [] && !caught {
      HeadPhase(toC, d0, d1);
    }
    if toS != [] && caught {
      HeadPhase(toS, a0, a1);
    }
  }

  /** Repeating the latest message of either side */
  lemma RepeatInStep(caught: bool, toC: seq<Msg>, toS: seq<Msg>, d0: iset<Msg>, d1: iset<Msg>, a0: iset<Msg>,
                     a1: iset<Msg>, m: Msg)
    requires InStep(caught, toC, toS, d0, d1, a0, a1)
    ensures m in d1 ==> InStep(caught, toC + [m], toS, d0, d1, a0, a1)
    ensures m in (if caught then a1 else a0) ==> InStep(caught, toC, toS + [m], d0, d1, a0, a1)
  {
    if m in d1 && !caught {
      PostPhase(toC, d0, d1, m);
    }
    if caught && m in a1 {
      PostPhase(toS, a0, a1, m);
    }
  }

  /** An answer that takes the server no further, or none */
  lemma ReplyInStep(caught: bool, toC: seq<Msg>, toS: seq<Msg>, d0: iset<Msg>, d1: iset<Msg>, a0: iset<Msg>,
                    a1: iset<Msg>, m: Option<Msg>)
    requires InStep(caught, toC, toS, d0, d1, a0, a1) && (m.Some? ==> m.value in d1)
    ensures InStep(caught, Post(toC, m), toS, d0, d1, a0, a1)
  {
  }

  /** The client takes answer k and sends its message k. */
  lemma CatchUp(toC: seq<Msg>, toS: seq<Msg>, d0: iset<Msg>, d1: iset<Msg>, a0: iset<Msg>, a1: iset<Msg>, m: Msg)
    requires InStep(false, toC, toS, d0, d1, a0, a1) && All(toC, d1) && m in a1
    ensures InStep(true, toC, toS + [m], d0, d1, a0, a1)
  {
    AllPhase(toS, a0, a1);
    PostPhase(toS, a0, a1, m);
  }

  /** The server takes message k and makes answer k+1 (`d2`). */
  lemma MoveOn(toC: seq<Msg>, toS: seq<Msg>, d0: iset<Msg>, d1: iset<Msg>, d2: iset<Msg>,
               a0: iset<Msg>, a1: iset<Msg>, a2: iset<Msg>, m: Option<Msg>)
    requires InStep(true, toC, toS, d0, d1, a0, a1) && All(toS, a1) && (m.Some? ==> m.value in d2)
    ensures InStep(false, Post(toC, m), toS, d1, d2, a1, a2)
  {
    AllPhase(toC, d1, d2);
    if m.Some? {
      PostPhase(toC, d1, d2, m.value);
    }
  }
}
