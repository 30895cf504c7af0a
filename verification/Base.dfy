/** Bytes, 16-bit words and the constants of src/tftp.h that the other modules share. */
module Base {

  newtype byte = x: int | 0 <= x < 256

  /** A `uint16_t` field such as a block number; the code wraps it by hand from 65535 to 0. */
  type u16 = n: nat | n < 0x1_0000

  datatype Option<+T> = None | Some(value: T)

  const CR: byte := 13
  const LF: byte := 10

  const BLOCK_SIZE: nat := 512        // TFTP_DATALEN_MAX
  const MSG_MAX: nat := 516           // TFTP_MSGLEN_MAX
  const SESSION_BUFSIZE: nat := 8192
  const NWBUF_SIZE: nat := 1024
  const FILENAME_MAX: nat := 256      // TFTP_FILENAME_MAX
  const MODENAME_MAX: nat := 9        // TFTP_MODENAME_MAX
  const EMSG_MAX: nat := 256          // TFTP_EMSGLEN_MAX
  const RESEND_INTERVAL: nat := 10
  const RESEND_COUNTMAX: nat := 3
  const SESSION_CLOSEWAIT: nat := 15

  function Min(a: nat, b: nat): nat { if a < b then a else b }

  /** The first `n` elements, or all of them when there are fewer. */
  function Take<T>(s: seq<T>, n: nat): seq<T> { s[..Min(n, |s|)] }

  function Drop<T>(s: seq<T>, n: nat): seq<T> { s[Min(n, |s|)..] }

  /** The block number after `n`, as make_tftpdata_msg and tftp_proc compute it. */
  function Next(n: u16): u16 { if n < 0xFFFF then n + 1 else 0 }

  /** The 16-bit block number that carries the unbounded count `n` on the wire. */
  function Wrap(n: nat): u16 { n % 0x1_0000 }

  lemma NextWrap(n: nat)
    ensures Next(Wrap(n)) == Wrap(n + 1)
  {
  }

  lemma WrapDiffers(n: nat)
    ensures Wrap(n) != Wrap(n + 1)
  {
  }

  lemma Assoc<T>(a: seq<T>, b: seq<T>, c: seq<T>)
    ensures a + (b + c) == (a + b) + c
  {
  }

  function RemoveAt<T>(s: seq<T>, at: nat): seq<T>
    requires at < |s|
  {
    s[..at] + s[at + 1..]
  }

  ghost predicate Distinct<T>(s: seq<T>) { forall i, j :: 0 <= i < j < |s| ==> s[i] != s[j] }

  /** memcpy from a value */
  method PutBytes(dst: array<byte>, at: nat, s: seq<byte>)
    requires at + |s| <= dst.Length
    modifies dst
    ensures dst[..at + |s|] == old(dst[..at]) + s
    ensures dst[at + |s|..] == old(dst[at + |s|..])
  {
    forall i | 0 <= i < |s| {
      dst[at + i] := s[i];
    }
  }

  /** memcpy between two different buffers. */
  method MemCpy(dst: array<byte>, at: nat, src: array<byte>, from: nat, n: nat)
    requires dst != src
    requires at + n <= dst.Length && from + n <= src.Length
    modifies dst
    ensures dst[..at + n] == old(dst[..at]) + src[from..from + n]
    ensures dst[at + n..] == old(dst[at + n..])
  {
    forall i | 0 <= i < n {
      dst[at + i] := src[from + i];
    }
  }
}
