/**
 * psmi_mq_mtucpy (psm_mq.c): the copy of one packet's payload into a
 * receive buffer, as whole 32-bit words followed by a tail of zero to three
 * bytes.
 */
module MtuCopy {
  import opened Words

  /** The first `i` bytes have been copied: `d`, the destination now, holds
      the first `i` bytes of `s0`, the source before the copy, and is still
      `d0` after them; the source `s` is unchanged from byte `i` on. The
      two buffers may be one and the same, since both start at byte 0. */
  ghost predicate CopiedUpTo(d: seq<bv8>, s: seq<bv8>, d0: seq<bv8>, s0: seq<bv8>, i: nat)
  {
    && i <= |d| == |d0| && i <= |s| == |s0|
    && (forall k :: 0 <= k < i ==> d[k] == s0[k])
    && (forall k :: i <= k < |d| ==> d[k] == d0[k])
    && (forall k :: i <= k < |s| ==> s[k] == s0[k])
  }

  /** Once all `n` bytes are copied, the destination is the first `n`
      bytes of the source followed by its own old bytes. */
  lemma CopiedPrefix(d: seq<bv8>, s: seq<bv8>, d0: seq<bv8>, s0: seq<bv8>, n: nat)
    requires CopiedUpTo(d, s, d0, s0, n)
    ensures d[..n] == s0[..n] && d[n..] == d0[n..]
  {
    assert d[..n] == s0[..n] by {
      forall k | 0 <= k < n ensures d[..n][k] == s0[..n][k] { }
    }
  }

  /** `*dest++ = *src++` at byte `i`. */
  method CopyByte(dest: array<bv8>, src: array<bv8>, i: nat, ghost d0: seq<bv8>, ghost s0: seq<bv8>)
    requires i < dest.Length && i < src.Length
    requires CopiedUpTo(dest[..], src[..], d0, s0, i)
    modifies dest
    ensures CopiedUpTo(dest[..], src[..], d0, s0, i + 1)
  {
    dest[i] := src[i];
  }

  /** hfi_dwordcpy: copies `ndwords` 32-bit words, each as its four bytes
      in order, from byte 0 on. */
  method DwordCopy(dest: array<bv8>, src: array<bv8>, ndwords: nat, ghost d0: seq<bv8>, ghost s0: seq<bv8>)
    requires 4 * ndwords <= dest.Length && 4 * ndwords <= src.Length
    requires CopiedUpTo(dest[..], src[..], d0, s0, 0)
    modifies dest
    ensures CopiedUpTo(dest[..], src[..], d0, s0, 4 * ndwords)
  {
    var w := 0;
    while w < ndwords
      invariant w <= ndwords
      invariant CopiedUpTo(dest[..], src[..], d0, s0, 4 * w)
    {
      CopyByte(dest, src, 4 * w, d0, s0);
      CopyByte(dest, src, 4 * w + 1, d0, s0);
      CopyByte(dest, src, 4 * w + 2, d0, s0);
      CopyByte(dest, src, 4 * w + 3, d0, s0);
      w := w + 1;
    }
  }

  /** psmi_mq_mtucpy: the first `nchars` bytes of `src` are copied to
      `dest`, and nothing after them changes. `nchars >> 2` is written
      `nchars / 4`, `(nchars >> 2) << 2` is `4 * (nchars / 4)` and
      `nchars & 3` is `nchars % 4`: the operands are unsigned. */
  method Mtucpy(dest: array<bv8>, src: array<bv8>, nchars: u32)
    requires nchars <= dest.Length && nchars <= src.Length
    modifies dest
    ensures dest[..nchars] == old(src[..nchars])
    ensures dest[nchars..] == old(dest[nchars..])
  {
    ghost var d0, s0 := dest[..], src[..];
    var ndwords := nchars / 4;
    if ndwords != 0 {
      DwordCopy(dest, src, ndwords, d0, s0);
    }
    var off := 4 * ndwords;
    // the switch falls through: case 3 copies a byte and goes on to case 2,
    // which copies one and goes on to case 1, which copies the last
    var tail := nchars % 4;
    assert off + tail == nchars;
    if tail == 3 {
      CopyByte(dest, src, off, d0, s0);
      CopyByte(dest, src, off + 1, d0, s0);
      CopyByte(dest, src, off + 2, d0, s0);
    } else if tail == 2 {
      CopyByte(dest, src, off, d0, s0);
      CopyByte(dest, src, off + 1, d0, s0);
    } else if tail == 1 {
      CopyByte(dest, src, off, d0, s0);
    }
    CopiedPrefix(dest[..], src[..], d0, s0, nchars);
  }
}
