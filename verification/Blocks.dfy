/** A byte string cut into 512-byte blocks, the last one shorter than 512 and possibly empty
    (section 6 of RFC 1350). Blocks are numbered from 1. */
module Blocks {
  import opened Base

  function BlockCount(s: seq<byte>): nat { |s| / BLOCK_SIZE + 1 }

  lemma BlockCountPositive(s: seq<byte>)
    ensures BlockCount(s) > 0
  {
  }

  /** What blocks 1..k carry together. */
  function Sent(s: seq<byte>, k: nat): seq<byte> { Take(s, BLOCK_SIZE * k) }

  function Block(s: seq<byte>, k: nat): (b: seq<byte>)
    requires k > 0
    ensures |b| <= BLOCK_SIZE
  {
    Take(Drop(s, BLOCK_SIZE * (k - 1)), BLOCK_SIZE)
  }

  /** Blocks follow one another without gap or overlap; exactly the last is short, and after it
      the whole string has been sent. */
  lemma BlockFacts(s: seq<byte>, k: nat)
    requires 0 < k <= BlockCount(s)
    ensures Sent(s, k) == Sent(s, k - 1) + Block(s, k)
    ensures |Block(s, k)| < 512 <==> k == BlockCount(s)
    ensures k == BlockCount(s) ==> Sent(s, k) == s
    ensures k < BlockCount(s) ==> |Sent(s, k)| == 512 * k
  {
  }
}
