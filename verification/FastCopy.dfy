/** Blocks of memory and the two copies aco_resume chooses between (libsrc/libaco/aco.c:46-157). */
module FastCopy {
  import opened Platform

  /** An allocated region: its first address and its bytes. Distinct blocks do not overlap. */
  class Block {
    const addr: nat
    const data: array<Byte>

    constructor (n: nat, addr: nat)
      ensures this.addr == addr && data.Length == n && fresh(data)
    {
      this.addr := addr;
      data := new Byte[n];
    }
  }

  /** What memcpy(dst + d, src + s, sz) leaves in the destination. */
  function Copied(dst: seq<Byte>, d: nat, src: seq<Byte>, s: nat, sz: nat): (r: seq<Byte>)
    requires d + sz <= |dst| && s + sz <= |src|
    ensures |r| == |dst|
  {
    dst[..d] + src[s..s + sz] + dst[d + sz..]
  }

  /** aco_amd64_inline_short_aligned_memcpy_test_ok */
  predicate FastCopyOk(dst: nat, src: nat, sz: nat) {
    src % 16 == 0 && dst % 16 == 0 && sz % 16 == 8 && sz / 16 <= 8
  }

  /** Bytes stored at d. */
  method Store(dst: Block, d: nat, bytes: seq<Byte>)
    requires d + |bytes| <= dst.data.Length
    modifies dst.data
    ensures dst.data[..] == Copied(old(dst.data[..]), d, bytes, 0, |bytes|)
  {
    forall i | 0 <= i < |bytes| {
      dst.data[d + i] := bytes[i];
    }
  }

  /** One move of `n` bytes through a register. */
  method Move(dst: Block, d: nat, src: Block, s: nat, n: nat)
    requires dst.data != src.data && d + n <= dst.data.Length && s + n <= src.data.Length
    modifies dst.data
    ensures dst.data[..] == Copied(old(dst.data[..]), d, src.data[..], s, n)
  {
    Store(dst, d, src.data[s..s + n]);
  }

  /** Case n of the switch: n registers of 16 bytes are loaded, then all are stored. */
  method MoveQuads(dst: Block, d: nat, src: Block, s: nat, n: nat)
    requires dst.data != src.data && n <= 8
    requires d + 16 * n <= dst.data.Length && s + 16 * n <= src.data.Length
    modifies dst.data
    ensures dst.data[..] == Copied(old(dst.data[..]), d, src.data[..], s, 16 * n)
  {
    hide Copied;
    var xmm := seq(n, k requires 0 <= k < n reads src.data => src.data[s + 16 * k..s + 16 * k + 16]);
    ghost var was := dst.data[..];
    CopiedNone(was, d, src.data[..], s);
    var i := 0;
    while i < n
      invariant 0 <= i <= n
      invariant dst.data[..] == Copied(was, d, src.data[..], s, 16 * i)
    {
      Store(dst, d + 16 * i, xmm[i]);
      CopiedFrom(Copied(was, d, src.data[..], s, 16 * i), d + 16 * i, src.data[..], s + 16 * i, 16);
      CopiedTwice(was, d, src.data[..], s, 16 * i, 16);
      i := i + 1;
    }
  }

  /** The switch on sz >> 4 followed by the trailing 8-byte store. */
  method InlineCopy(dst: Block, d: nat, src: Block, s: nat, sz: nat)
    requires dst.data != src.data && d + sz <= dst.data.Length && s + sz <= src.data.Length
    requires FastCopyOk(dst.addr + d, src.addr + s, sz)
    modifies dst.data
    ensures dst.data[..] == Copied(old(dst.data[..]), d, src.data[..], s, sz)
  {
    hide Copied;
    MoveQuads(dst, d, src, s, sz / 16);
    Move(dst, d + sz - 8, src, s + sz - 8, 8);
    CopiedTwice(old(dst.data[..]), d, src.data[..], s, sz - 8, 8);
  }

  lemma CopiedNone(dst: seq<Byte>, d: nat, src: seq<Byte>, s: nat)
    requires d <= |dst| && s <= |src|
    ensures Copied(dst, d, src, s, 0) == dst
  {
  }

  lemma CopiedFrom(dst: seq<Byte>, d: nat, src: seq<Byte>, s: nat, sz: nat)
    requires d + sz <= |dst| && s + sz <= |src|
    ensures Copied(dst, d, src[s..s + sz], 0, sz) == Copied(dst, d, src, s, sz)
  {
  }

  /** Copying m bytes and then the n bytes after them is copying m + n bytes. */
  lemma CopiedTwice(dst: seq<Byte>, d: nat, src: seq<Byte>, s: nat, m: nat, n: nat)
    requires d + m + n <= |dst| && s + m + n <= |src|
    ensures Copied(Copied(dst, d, src, s, m), d + m, src, s + m, n) == Copied(dst, d, src, s, m + n)
  {
    var one := Copied(dst, d, src, s, m);
    assert one[..d + m] == dst[..d] + src[s..s + m];
    assert one[d + m + n..] == dst[d + m + n..];
    assert src[s..s + m] + src[s + m..s + m + n] == src[s..s + m + n];
  }

  /** aco_amd64_optimized_memcpy_drop_in: whichever path is taken, the effect is memcpy's. */
  method CopyDropIn(a: Arch, dst: Block, d: nat, src: Block, s: nat, sz: nat)
    requires dst.data != src.data && d + sz <= dst.data.Length && s + sz <= src.data.Length
    modifies dst.data
    ensures dst.data[..] == Copied(old(dst.data[..]), d, src.data[..], s, sz)
  {
    if a.X64? && FastCopyOk(dst.addr + d, src.addr + s, sz) {
      InlineCopy(dst, d, src, s, sz);
    } else {
      Move(dst, d, src, s, sz);
    }
  }

  /**
   * On x86_64 the return slot is 8 mod 16, so with a 16-aligned suspended stack pointer every live
   * size is 8 mod 16: the fast path then only depends on the size limit and the buffer's alignment.
   */
  lemma FastPathOnX64(ret: nat, sp: nat, buf: nat)
    requires ret % 16 == 8 && sp % 16 == 0 && sp <= ret
    ensures FastCopyOk(buf, sp, ret - sp) <==> buf % 16 == 0 && ret - sp <= 136
    ensures FastCopyOk(sp, buf, ret - sp) <==> buf % 16 == 0 && ret - sp <= 136
  {
    assert (ret - sp) % 16 == 8;
    var q := (ret - sp) / 16;
    assert ret - sp == 16 * q + 8;
  }
}
