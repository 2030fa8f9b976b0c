/** update_frame_pool: an aligned width, the planes of the image, and the cache (src/Decoder.cpp:47-109). */
module Decoder {
  import opened Platform

  // ---------------------------------------------------------------- the lowest bit of a width

  /** Trailing zero bits. */
  function Zeros(n: nat): nat
    requires n > 0
  {
    if n % 2 == 1 then 0 else 1 + Zeros(n / 2)
  }

  lemma {:induction false} AndOfComplement(x: nat, k: nat)
    requires x < Scaled(1, k)
    ensures And(x, Scaled(1, k) - 1 - x) == 0
  {
    if x > 0 {
      assert k > 0 && Scaled(1, k) == 2 * Scaled(1, k - 1);
      AndOfComplement(x / 2, k - 1);
      assert (Scaled(1, k) - 1 - x) / 2 == Scaled(1, k - 1) - 1 - x / 2;
    }
  }

  /**
   * `w & ~(w - 1)` in k-bit words is the lowest bit set in w: 2 to the number of trailing zeros.
   * (In k bits the complement of w - 1 is 2^k - w.)
   */
  lemma {:induction false} LowBitTrick(w: nat, k: nat)
    requires 0 < w < Scaled(1, k)
    ensures And(w, Scaled(1, k) - w) == Scaled(1, Zeros(w))
  {
    assert k > 0 && Scaled(1, k) == 2 * Scaled(1, k - 1);
    if w % 2 == 1 {
      AndOfComplement(w / 2, k - 1);
      assert (Scaled(1, k) - w) / 2 == Scaled(1, k - 1) - 1 - w / 2;
    } else {
      LowBitTrick(w / 2, k - 1);
      assert (Scaled(1, k) - w) / 2 == Scaled(1, k - 1) - w / 2;
    }
  }

  /** The lowest bit set in an int; 0 has none. */
  function LowBit(w: int): nat {
    if w == 0 then 0 else Scaled(1, Zeros(if w < 0 then -w else w))
  }

  /** The least multiple of 2^k that is at least n. */
  function Ceil(n: nat, k: nat): (c: nat)
    ensures n <= c
  {
    if k == 0 then n else 2 * Ceil((n + 1) / 2, k - 1)
  }

  lemma {:induction false} CeilIsLeast(n: nat, k: nat, m: nat)
    ensures n > 0 ==> Zeros(Ceil(n, k)) >= k && Ceil(n, k) < n + Scaled(1, k)
    ensures m >= n && m > 0 && Zeros(m) >= k ==> m >= Ceil(n, k)
    decreases k
  {
    if k > 0 {
      CeilIsLeast((n + 1) / 2, k - 1, m / 2);
    }
  }

  lemma {:induction false} LowBitFits(n: nat)
    requires n > 0
    ensures 0 < Scaled(1, Zeros(n)) <= n
  {
    if n % 2 == 0 { LowBitFits(n / 2); }
  }

  lemma {:induction false} CeilOfMultiple(n: nat, k: nat)
    requires n > 0 && Zeros(n) >= k
    ensures Ceil(n, k) == n
  {
    if k > 0 { CeilOfMultiple(n / 2, k - 1); }
  }

  lemma {:induction false} CeilOfCeil(n: nat, j: nat, k: nat)
    requires j <= k
    ensures Ceil(Ceil(n, j), k) == Ceil(n, k)
    decreases k
  {
    if j > 0 { CeilOfCeil((n + 1) / 2, j - 1, k - 1); }
  }

  lemma {:induction false} CeilGrows(n: nat, j: nat, k: nat)
    requires j <= k
    ensures Ceil(n, j) <= Ceil(n, k)
    decreases k
  {
    if j > 0 { CeilGrows((n + 1) / 2, j - 1, k - 1); }
  }

  /** Adding the lowest bit of w goes to the next multiple of the next power of two, which has more zeros. */
  lemma {:induction false} NextUp(w: nat)
    requires w > 0
    ensures var w' := w + Scaled(1, Zeros(w)); Zeros(w') > Zeros(w) && w' == Ceil(w, Zeros(w) + 1)
  {
    if w % 2 == 0 {
      NextUp(w / 2);
      assert Scaled(1, Zeros(w)) == 2 * Scaled(1, Zeros(w / 2));
    }
  }

  /** The same downwards, for a negative width. */
  lemma {:induction false} NextDown(w: nat)
    requires w > 0
    ensures var b := Scaled(1, Zeros(w)); b <= w && (b < w ==> Zeros(w - b) > Zeros(w))
  {
    if w % 2 == 0 {
      NextDown(w / 2);
      assert Scaled(1, Zeros(w)) == 2 * Scaled(1, Zeros(w / 2));
    }
  }

  lemma {:induction false} ZerosBelow(w: nat, k: nat)
    requires 0 < w <= Scaled(1, k)
    ensures Zeros(w) <= k
  {
    if w % 2 == 0 { ZerosBelow(w / 2, k - 1); }
  }

  // ---------------------------------------------------------------- multiples of powers of two

  predicate Multiple(n: int, m: int) { m > 0 && n % m == 0 }

  lemma TimesIsMultiple(m: nat, q: int)
    requires m > 0
    ensures Multiple(m * q, m)
  {
    var p, r := m * q / m, m * q % m;
    assert m * q == m * p + r && r == m * (q - p);
    if q - p >= 1 { TimesAtLeast(q - p, m); } else if q - p <= -1 { TimesAtLeast(p - q, m); }
  }

  lemma MultiplesAdd(x: int, y: int, m: nat)
    requires Multiple(x, m) && Multiple(y, m)
    ensures Multiple(x + y, m) && Multiple(x - y, m)
    ensures x > y ==> x >= y + m
  {
    var p, q := x / m, y / m;
    assert x + y == m * (p + q) && x - y == m * (p - q);
    TimesIsMultiple(m, p + q);
    TimesIsMultiple(m, p - q);
    if p > q { TimesAtLeast(p - q, m); }
  }

  lemma MultipleOfLess(n: int, j: nat, k: nat)
    requires j <= k && Multiple(n, Scaled(1, k))
    ensures Multiple(n, Scaled(1, j))
  {
    ScaledGrows(1, j);
    if j < k {
      var m, q := Scaled(1, k - 1), n / Scaled(1, k);
      assert n == m * (2 * q);
      ScaledGrows(1, k - 1);
      TimesIsMultiple(m, 2 * q);
      MultipleOfLess(n, j, k - 1);
    }
  }

  lemma HalfMultiple(n: int, k: nat)
    ensures Multiple(n, Scaled(1, k + 1)) <==> n % 2 == 0 && Multiple(n / 2, Scaled(1, k))
  {
    var m := Scaled(1, k);
    ScaledGrows(1, k);
    if Multiple(n, 2 * m) {
      var q := n / (2 * m);
      assert n == 2 * (m * q);
      TimesIsMultiple(m, q);
    } else if n % 2 == 0 && Multiple(n / 2, m) {
      var q := n / 2 / m;
      assert n == 2 * m * q;
      TimesIsMultiple(2 * m, q);
    }
  }

  /** The trailing zeros say which powers of two divide n. */
  lemma {:induction false} ZerosDivide(n: int, k: nat)
    requires n != 0
    ensures Multiple(n, Scaled(1, k)) <==> k <= Zeros(if n < 0 then -n else n)
    decreases k
  {
    if k > 0 {
      HalfMultiple(n, k - 1);
      if n % 2 == 0 { ZerosDivide(n / 2, k - 1); }
    }
  }

  // ---------------------------------------------------------------- the helpers the function calls

  datatype Ret<T> = Got(value: T) | Err(code: int)

  /** What avcodec_align_dimensions2 writes. */
  datatype Aligned = Aligned(w: int, h: int, strides: seq<int>)

  /** What av_image_fill_pointers writes from a null base, and the total size it returns. */
  datatype Planes = Planes(data: seq<int>, total: nat)

  /** FFmpeg's helpers as functions of what they are given; the first argument is avctx->pix_fmt. */
  datatype Lib = Lib(
    align: (int, int, int) -> Aligned,
    lines: (int, int) -> Ret<seq<int>>,
    planes: (int, int, seq<int>) -> Ret<Planes>)

  predicate PlanesOk(p: Planes) {
    |p.data| == 4 && p.data[0] == 0 && forall i | 0 <= i < 4 :: 0 <= p.data[i] <= p.total
  }

  ghost predicate LibOk(lib: Lib) {
    && (forall pf, w, h | Int(w) && Int(h) ::
          var a := lib.align(pf, w, h);
          |a.strides| == 4 && Int(a.w) && Int(a.h) && forall i | 0 <= i < 4 :: a.strides[i] > 0)
    && (forall pf, w :: match lib.lines(pf, w) case Got(ls) => |ls| == 4 case Err(c) => c < 0)
    && (forall pf, h, ls :: match lib.planes(pf, h, ls) case Got(p) => PlanesOk(p) case Err(c) => c < 0)
  }

  predicate Int(n: int) { -0x8000_0000 <= n < 0x8000_0000 }

  /** All four remainders are 0. */
  predicate Fits(ls: seq<int>, strides: seq<int>)
    requires |ls| == |strides| == 4 && forall i | 0 <= i < 4 :: strides[i] > 0
  {
    forall i | 0 <= i < 4 :: ls[i] % strides[i] == 0
  }

  predicate StridesOk(strides: seq<int>) { |strides| == 4 && forall i | 0 <= i < 4 :: strides[i] > 0 }

  // ---------------------------------------------------------------- the alignment loop

  /** How the loop ends: with line sizes for width w, with an error, in an int overflow, or not at all. */
  datatype Found = Lines(ls: seq<int>, w: int) | Failed(code: int) | Overflow | Forever

  function Climb(w: int): (c: nat)
    requires Int(w)
    ensures w != 0 ==> c > 0
  {
    if w == 0 then 0
    else
      var n := if w < 0 then -w else w;
      assert n <= Scaled(1, 31) by { HalfIsScaled(); }
      ZerosBelow(n, 31);
      32 - Zeros(n)
  }

  lemma HalfIsScaled()
    ensures Scaled(1, 31) == 0x8000_0000
  {
    SpaceIsScaled(I386);
    assert Scaled(1, 32) == 2 * Scaled(1, 31);
  }

  lemma ClimbDrops(w: int)
    requires Int(w) && w != 0 && Int(w + LowBit(w))
    ensures Climb(w + LowBit(w)) < Climb(w)
  {
    if w > 0 { NextUp(w); } else { NextDown(-w); }
  }

  lemma LowBitSmall(w: int)
    requires Int(w)
    ensures w < 0 ==> w + LowBit(w) <= 0
    ensures w > 0 ==> w < w + LowBit(w) <= 2 * w
  {
    if w < 0 { LowBitFits(-w); } else if w > 0 { LowBitFits(w); }
  }

  /** The loop from width w on, and the number of times its body runs. */
  function Search(lib: Lib, pf: int, strides: seq<int>, w: int): (r: (Found, nat))
    requires LibOk(lib) && StridesOk(strides) && Int(w)
    ensures r.0.Failed? ==> r.0.code < 0
    ensures r.0.Lines? ==> |r.0.ls| == 4
    decreases Climb(w)
  {
    match lib.lines(pf, w)
    case Err(c) => (Failed(c), 1)
    case Got(ls) =>
      LowBitSmall(w);
      var next := w + LowBit(w);
      if !Int(next) || w == -0x8000_0000 then (Overflow, 1)
      else if Fits(ls, strides) then (Lines(ls, w), 1)
      else if next == w then (Forever, 1)
      else
        ClimbDrops(w);
        var (f, n) := Search(lib, pf, strides, next);
        (f, n + 1)
  }

  /** The do-while loop of update_frame_pool. */
  method AlignWidth(lib: Lib, pf: int, strides: seq<int>, w0: int) returns (r: Found, ghost rounds: nat)
    requires LibOk(lib) && StridesOk(strides) && Int(w0)
    ensures r == Search(lib, pf, strides, w0).0
    ensures rounds == Search(lib, pf, strides, w0).1
  {
    var w := w0;
    var unaligned := true;
    var linesize := [];
    rounds := 0;
    r := Forever;
    while unaligned
      invariant Int(w)
      invariant unaligned ==> Search(lib, pf, strides, w0).0 == Search(lib, pf, strides, w).0
      invariant unaligned ==> Search(lib, pf, strides, w0).1 == Search(lib, pf, strides, w).1 + rounds
      invariant !unaligned ==> (r, rounds) == Search(lib, pf, strides, w0)
      decreases unaligned, Climb(w)
    {
      var ret := lib.lines(pf, w);
      rounds := rounds + 1;
      if ret.Err? { return Failed(ret.code), rounds; }
      linesize := ret.value;
      LowBitSmall(w);
      if w == -0x8000_0000 || !Int(w + LowBit(w)) { return Overflow, rounds; }
      var was := w;
      w := w + LowBit(w);
      var i := 0;
      unaligned := false;
      while i < 4
        invariant 0 <= i <= 4
        invariant unaligned <==> exists j | 0 <= j < i :: linesize[j] % strides[j] != 0
      {
        unaligned := unaligned || linesize[i] % strides[i] != 0;
        i := i + 1;
      }
      if unaligned {
        if w == was { return Forever, rounds; }
        ClimbDrops(was);
      } else {
        r := Lines(linesize, was);
      }
    }
  }

  /** The width is tried and found wanting. */
  predicate Unfit(lib: Lib, pf: int, strides: seq<int>, w: int)
    requires LibOk(lib) && StridesOk(strides)
  {
    lib.lines(pf, w).Got? && !Fits(lib.lines(pf, w).value, strides)
  }

  /** Every power of two that rounds w0 up to something in [w, v) gives a width that does not fit. */
  ghost predicate Earlier(lib: Lib, pf: int, strides: seq<int>, w0: nat, w: nat, v: nat)
    requires LibOk(lib) && StridesOk(strides)
  {
    forall k: nat :: w <= Ceil(w0, k) < v ==> Unfit(lib, pf, strides, Ceil(w0, k))
  }

  /** v is w0 rounded up to a power of two, and the first such width from w on that is not unfit. */
  ghost predicate First(lib: Lib, pf: int, strides: seq<int>, w0: nat, w: nat, v: nat)
    requires LibOk(lib) && StridesOk(strides)
  {
    0 < w <= v && v == Ceil(w0, Zeros(v)) && Earlier(lib, pf, strides, w0, w, v)
  }

  /** The outcome of the loop from w on is decided by the first width that is not unfit. */
  ghost predicate EndsAtFirst(lib: Lib, pf: int, strides: seq<int>, w0: nat, w: nat, f: Found)
    requires LibOk(lib) && StridesOk(strides)
  {
    match f
    case Lines(ls, v) =>
      v > 0 && lib.lines(pf, v) == Got(ls) && Fits(ls, strides) && Int(v + LowBit(v)) && First(lib, pf, strides, w0, w, v)
    case Failed(c) =>
      exists v: nat :: lib.lines(pf, v) == Err(c) && First(lib, pf, strides, w0, w, v)
    case Overflow =>
      exists v: nat :: lib.lines(pf, v).Got? && !Int(v + LowBit(v)) && Int(v) && First(lib, pf, strides, w0, w, v)
    case Forever => false
  }

  /**
   * Every width tried is the start width rounded up to a power of two, and the line sizes kept belong to the
   * least such width that suits all four alignments; an error is that of the first width with an error.
   */
  lemma {:induction false} FirstFit(lib: Lib, pf: int, strides: seq<int>, w0: nat, w: nat)
    requires LibOk(lib) && StridesOk(strides) && 0 < w0 <= w && Int(w)
    requires w == Ceil(w0, Zeros(w))
    ensures EndsAtFirst(lib, pf, strides, w0, w, Search(lib, pf, strides, w).0)
    decreases Climb(w)
  {
    hide LibOk, Ceil, Fits, Earlier;
    LowBitSmall(w);
    var next := w + LowBit(w);
    NoneEarlier(lib, pf, strides, w0, w);
    if lib.lines(pf, w).Got? && Int(next) && Unfit(lib, pf, strides, w) {
      NextIsCeil(w0, w);
      ClimbDrops(w);
      FirstFit(lib, pf, strides, w0, next);
      var f := Search(lib, pf, strides, next).0;
      if f.Lines? {
        FirstFrom(lib, pf, strides, w0, w, f.w);
      } else if f.Failed? {
        var v: nat :| lib.lines(pf, v) == Err(f.code) && First(lib, pf, strides, w0, next, v);
        FirstFrom(lib, pf, strides, w0, w, v);
      } else {
        var v: nat :| lib.lines(pf, v).Got? && !Int(v + LowBit(v)) && Int(v) && First(lib, pf, strides, w0, next, v);
        FirstFrom(lib, pf, strides, w0, w, v);
      }
    } else if lib.lines(pf, w).Err? || !Int(next) {
      assert First(lib, pf, strides, w0, w, w);
    }
  }

  lemma NoneEarlier(lib: Lib, pf: int, strides: seq<int>, w0: nat, w: nat)
    requires LibOk(lib) && StridesOk(strides)
    ensures Earlier(lib, pf, strides, w0, w, w)
  {
  }

  lemma FirstFrom(lib: Lib, pf: int, strides: seq<int>, w0: nat, w: nat, v: nat)
    requires LibOk(lib) && StridesOk(strides) && 0 < w0 <= w && Int(w) && w == Ceil(w0, Zeros(w))
    requires Unfit(lib, pf, strides, w) && First(lib, pf, strides, w0, w + LowBit(w), v)
    ensures First(lib, pf, strides, w0, w, v)
  {
    hide LibOk, Fits, Unfit, Ceil;
    LowBitSmall(w);
    forall k: nat | w <= Ceil(w0, k) < v ensures Unfit(lib, pf, strides, Ceil(w0, k)) {
      if Ceil(w0, k) < w + LowBit(w) {
        NothingBetween(w0, w, k);
      }
    }
  }

  lemma NextIsCeil(w0: nat, w: nat)
    requires 0 < w0 <= w && w == Ceil(w0, Zeros(w))
    ensures var next := w + LowBit(w); next > 0 && next == Ceil(w0, Zeros(next)) && Zeros(next) > Zeros(w)
  {
    var next := w + LowBit(w);
    NextUp(w);
    CeilOfCeil(w0, Zeros(w), Zeros(w) + 1);
    CeilOfCeil(w0, Zeros(w) + 1, Zeros(next));
    CeilOfMultiple(next, Zeros(next));
  }

  lemma NothingBetween(w0: nat, w: nat, k: nat)
    requires 0 < w0 <= w && w == Ceil(w0, Zeros(w)) && w <= Ceil(w0, k) < w + LowBit(w)
    ensures Ceil(w0, k) == w
  {
    NextUp(w);
    if k <= Zeros(w) {
      CeilGrows(w0, k, Zeros(w));
    } else {
      CeilOfCeil(w0, Zeros(w), Zeros(w) + 1);
      CeilGrows(w0, Zeros(w) + 1, k);
    }
  }

  /** All line sizes fit whenever the width is a multiple of 2^k. */
  ghost predicate FitsAt(lib: Lib, pf: int, strides: seq<int>, k: nat)
    requires LibOk(lib) && StridesOk(strides)
  {
    forall w: nat | w > 0 && Zeros(w) >= k && lib.lines(pf, w).Got? :: Fits(lib.lines(pf, w).value, strides)
  }

  /** From every positive width the loop body runs at most k + 1 times, and never for ever. */
  lemma {:induction false} RoundsBound(lib: Lib, pf: int, strides: seq<int>, w: nat, k: nat)
    requires LibOk(lib) && StridesOk(strides) && FitsAt(lib, pf, strides, k) && 0 < w && Int(w)
    ensures Search(lib, pf, strides, w).1 <= 1 + (if Zeros(w) < k then k - Zeros(w) else 0)
    ensures !Search(lib, pf, strides, w).0.Forever?
    decreases Climb(w)
  {
    hide LibOk, Fits, FitsAt, Zeros, Climb;
    LowBitSmall(w);
    if Unfit(lib, pf, strides, w) && Int(w + LowBit(w)) {
      FitsThere(lib, pf, strides, w, k);
      NextUp(w);
      ClimbDrops(w);
      RoundsBound(lib, pf, strides, w + LowBit(w), k);
    }
  }

  /** The loop passes over widths that do not fit: it ends as it would from any first width that is not unfit. */
  lemma {:induction false} Reaches(lib: Lib, pf: int, strides: seq<int>, w0: nat, w: nat, v: nat)
    requires LibOk(lib) && StridesOk(strides) && 0 < w0 <= w <= v && Int(v)
    requires w == Ceil(w0, Zeros(w)) && First(lib, pf, strides, w0, w, v)
    ensures Search(lib, pf, strides, w).0 == Search(lib, pf, strides, v).0
    decreases v - w
  {
    hide LibOk, Fits, Ceil, Zeros, LowBit;
    if w < v {
      var next := w + LowBit(w);
      LowBitSmall(w);
      NextIsCeil(w0, w);
      if v < next { NothingBetween(w0, w, Zeros(v)); }
      assert Unfit(lib, pf, strides, Ceil(w0, Zeros(w)));
      Reaches(lib, pf, strides, w0, next, v);
    }
  }

  /**
   * The int overflow, for every positive width: it happens if and only if the first rounded-up width that is
   * not unfit, or else the last one, has line sizes and its successor is no int. Whether it fits plays no part.
   */
  lemma OverflowIff(lib: Lib, pf: int, strides: seq<int>, w: nat)
    requires LibOk(lib) && StridesOk(strides) && 0 < w && Int(w)
    ensures Search(lib, pf, strides, w).0.Overflow? <==>
            exists v: nat :: lib.lines(pf, v).Got? && !Int(v + LowBit(v)) && Int(v) && First(lib, pf, strides, w, w, v)
  {
    CeilOfMultiple(w, Zeros(w));
    FirstFit(lib, pf, strides, w, w);
    forall v: nat | lib.lines(pf, v).Got? && !Int(v + LowBit(v)) && Int(v) && First(lib, pf, strides, w, w, v)
      ensures Search(lib, pf, strides, w).0.Overflow?
    {
      Reaches(lib, pf, strides, w, w, v);
    }
  }

  lemma {:induction false} NoOverflowFrom(lib: Lib, pf: int, strides: seq<int>, w0: nat, w: nat, k: nat)
    requires LibOk(lib) && StridesOk(strides) && FitsAt(lib, pf, strides, k)
    requires 0 < w0 <= w && w0 + Scaled(1, k) <= 0x4000_0000
    requires w == Ceil(w0, Zeros(w)) && (w == w0 || w <= Ceil(w0, k)) && Int(w)
    ensures !Search(lib, pf, strides, w).0.Overflow?
    decreases Climb(w)
  {
    hide LibOk, Fits, Ceil, FitsAt, Zeros, LowBit, Climb;
    WidthBound(w0, w, k);
    LowBitSmall(w);
    if Unfit(lib, pf, strides, w) {
      FitsThere(lib, pf, strides, w, k);
      NextIsCeil(w0, w);
      NextBelow(w0, w, k);
      ClimbDrops(w);
      NoOverflowFrom(lib, pf, strides, w0, w + LowBit(w), k);
    }
  }

  lemma WidthBound(w0: nat, w: nat, k: nat)
    requires 0 < w0 && w0 + Scaled(1, k) <= 0x4000_0000 && (w == w0 || w <= Ceil(w0, k))
    ensures w < 0x4000_0000
  {
    LowBitFits(w0);
    assert Scaled(1, k) > 0 by { ScaledGrows(1, k); }
    CeilIsLeast(w0, k, 1);
  }

  lemma FitsThere(lib: Lib, pf: int, strides: seq<int>, w: nat, k: nat)
    requires LibOk(lib) && StridesOk(strides) && FitsAt(lib, pf, strides, k) && w > 0 && Unfit(lib, pf, strides, w)
    ensures Zeros(w) < k
  {
  }

  lemma NextBelow(w0: nat, w: nat, k: nat)
    requires 0 < w0 <= w && w == Ceil(w0, Zeros(w)) && Zeros(w) < k
    ensures w + LowBit(w) <= Ceil(w0, k)
  {
    NextUp(w);
    CeilOfCeil(w0, Zeros(w), Zeros(w) + 1);
    CeilGrows(w0, Zeros(w) + 1, k);
  }

  /**
   * The loop as a whole, for every positive start width: it ends within k + 1 rounds, as the first rounded-up
   * width that is not unfit decides.
   */
  lemma AlignmentLoop(lib: Lib, pf: int, strides: seq<int>, w: nat, k: nat)
    requires LibOk(lib) && StridesOk(strides) && FitsAt(lib, pf, strides, k) && 0 < w && Int(w)
    ensures Search(lib, pf, strides, w).1 <= k + 1
    ensures var f := Search(lib, pf, strides, w).0;
            !f.Forever? && EndsAtFirst(lib, pf, strides, w, w, f)
  {
    CeilOfMultiple(w, Zeros(w));
    RoundsBound(lib, pf, strides, w, k);
    FirstFit(lib, pf, strides, w, w);
  }

  /** In particular widths up to 2^30 - 2^k never overflow. */
  lemma NoOverflow(lib: Lib, pf: int, strides: seq<int>, w: nat, k: nat)
    requires LibOk(lib) && StridesOk(strides) && FitsAt(lib, pf, strides, k)
    requires 0 < w && w + Scaled(1, k) <= 0x4000_0000
    ensures !Search(lib, pf, strides, w).0.Overflow?
  {
    CeilOfMultiple(w, Zeros(w));
    NoOverflowFrom(lib, pf, strides, w, w, k);
  }

  // ---------------------------------------------------------------- where the loop ends, for any int width

  /** v is w rounded up to a multiple of some power of two. */
  ghost predicate RoundedUp(w: int, v: int) {
    exists k: nat :: RoundsTo(w, v, k)
  }

  predicate RoundsTo(w: int, v: int, k: nat) {
    Multiple(v, Scaled(1, k)) && w <= v < w + Scaled(1, k)
  }

  /** No next width: v - 1 is no int, or v plus a power of two that divides it is none. */
  ghost predicate NoNext(v: int) {
    v == -0x8000_0000 || (v > 0 && exists k: nat :: Multiple(v, Scaled(1, k)) && !Int(v + Scaled(1, k)))
  }

  /** Every smaller rounded-up width is unfit and has a next one. */
  ghost predicate Reached(lib: Lib, pf: int, strides: seq<int>, w: int, v: int)
    requires LibOk(lib) && StridesOk(strides)
  {
    && Int(v) && RoundedUp(w, v)
    && forall u | RoundedUp(w, u) && u < v :: Unfit(lib, pf, strides, u) && !NoNext(u)
  }

  /** The loop comes to v and goes no further. */
  ghost predicate StopsAt(lib: Lib, pf: int, strides: seq<int>, w: int, v: int)
    requires LibOk(lib) && StridesOk(strides)
  {
    Reached(lib, pf, strides, w, v) && (!Unfit(lib, pf, strides, v) || NoNext(v) || v == 0)
  }

  /** How it ends there. */
  ghost predicate EndsSo(lib: Lib, pf: int, strides: seq<int>, v: int, f: Found)
    requires LibOk(lib) && StridesOk(strides)
  {
    match lib.lines(pf, v)
    case Err(c) => f == Failed(c)
    case Got(ls) => f == if NoNext(v) then Overflow else if Fits(ls, strides) then Lines(ls, v) else Forever
  }

  lemma NoNextIff(w: int)
    requires Int(w)
    ensures NoNext(w) <==> w == -0x8000_0000 || !Int(w + LowBit(w))
  {
    LowBitSmall(w);
    if w > 0 {
      ZerosDivide(w, Zeros(w));
      forall k: nat | Multiple(w, Scaled(1, k)) ensures Scaled(1, k) <= LowBit(w) {
        ZerosDivide(w, k);
        ScaledMonotone(k, Zeros(w));
      }
    }
  }

  lemma ScaledMonotone(j: nat, k: nat)
    requires j <= k
    ensures Scaled(1, j) <= Scaled(1, k)
  {
    if j < k { ScaledMonotone(j, k - 1); }
  }

  lemma ItselfRounded(w: int)
    ensures RoundedUp(w, w)
  {
    assert RoundsTo(w, w, 0);
  }

  lemma EvenTimes(m: nat, h: int)
    requires m > 0
    ensures Multiple(m * (2 * h), 2 * m)
  {
    assert m * (2 * h) == 2 * m * h;
    TimesIsMultiple(2 * m, h);
  }

  lemma OddMultiple(n: int, m: nat)
    requires Multiple(n, m) && !Multiple(n, 2 * m)
    ensures Multiple(n + m, 2 * m)
  {
    hide Multiple;
    var q := OddQuotient(n, m);
    EvenTimes(m, q / 2);
    EvenTimes(m, (q + 1) / 2);
  }

  lemma OddQuotient(n: int, m: nat) returns (q: int)
    requires Multiple(n, m)
    ensures m > 0 && n == m * q && n + m == m * (q + 1)
    ensures q == 2 * (q / 2) || q + 1 == 2 * ((q + 1) / 2)
  {
    q := n / m;
  }

  lemma BitDivides(w: int)
    requires w != 0
    ensures Multiple(w, LowBit(w)) && !Multiple(w, 2 * LowBit(w))
    ensures Multiple(w + LowBit(w), 2 * LowBit(w))
  {
    var n := if w < 0 then -w else w;
    ZerosDivide(w, Zeros(n));
    ZerosDivide(w, Zeros(n) + 1);
    OddMultiple(w, LowBit(w));
  }

  /** What w rounds up to besides itself is what the next width rounds up to. */
  lemma NextRounds(w: int, v: int)
    requires w != 0
    ensures RoundedUp(w, v) <==> v == w || RoundedUp(w + LowBit(w), v)
  {
    if v == w {
      ItselfRounded(w);
    } else if RoundedUp(w, v) {
      var k: nat :| RoundsTo(w, v, k);
      StepsUp(w, v, k);
    } else if RoundedUp(w + LowBit(w), v) {
      var k: nat :| RoundsTo(w + LowBit(w), v, k);
      StepsBack(w, v, k);
    }
  }

  lemma StepsUp(w: int, v: int, k: nat)
    requires w != 0 && v != w && RoundsTo(w, v, k)
    ensures RoundedUp(w + LowBit(w), v)
  {
    var z := Zeros(if w < 0 then -w else w);
    BitDivides(w);
    if k <= z {
      MultipleOfLess(w, k, z);
      MultiplesAdd(v, w, Scaled(1, k));
    } else {
      MultipleOfLess(v, z, k);
      MultiplesAdd(v, w, Scaled(1, z));
      assert RoundsTo(w + LowBit(w), v, k);
    }
  }

  lemma StepsBack(w: int, v: int, k: nat)
    requires w != 0 && RoundsTo(w + LowBit(w), v, k)
    ensures RoundedUp(w, v)
  {
    var z, next := Zeros(if w < 0 then -w else w), w + LowBit(w);
    BitDivides(w);
    if k <= z + 1 {
      MultipleOfLess(next, k, z + 1);
      MultiplesAdd(v, next, Scaled(1, k));
      assert v == next;
      assert RoundsTo(w, v, z + 1);
    } else {
      var m := Scaled(1, k);
      MultiplesAdd(v, m, m);
      MultipleOfLess(v - m, z + 1, k);
      MultipleOfLess(v - m, z, z + 1);
      MultiplesAdd(v - m, w, Scaled(1, z));
      assert RoundsTo(w, v, k);
    }
  }

  lemma FirstStop(lib: Lib, pf: int, strides: seq<int>, w: int)
    requires LibOk(lib) && StridesOk(strides) && Int(w) && (!Unfit(lib, pf, strides, w) || NoNext(w) || w == 0)
    ensures StopsAt(lib, pf, strides, w, w)
  {
    ItselfRounded(w);
  }

  lemma Earliest(lib: Lib, pf: int, strides: seq<int>, w: int, v: int)
    requires LibOk(lib) && StridesOk(strides) && Int(w) && w != 0 && Unfit(lib, pf, strides, w) && !NoNext(w)
    requires StopsAt(lib, pf, strides, w + LowBit(w), v)
    ensures StopsAt(lib, pf, strides, w, v)
  {
    hide LibOk, Unfit, NoNext, LowBit, RoundedUp;
    forall u ensures RoundedUp(w, u) <==> u == w || RoundedUp(w + LowBit(w), u) { NextRounds(w, u); }
  }

  /** There is only one such width. */
  lemma OneStop(lib: Lib, pf: int, strides: seq<int>, w: int, u: int, v: int)
    requires LibOk(lib) && StridesOk(strides) && StopsAt(lib, pf, strides, w, u) && StopsAt(lib, pf, strides, w, v)
    ensures u == v
  {
    hide LibOk, Unfit, NoNext;
    if u < v { StopsAtZero(lib, pf, strides, w, u, v); } else if v < u { StopsAtZero(lib, pf, strides, w, v, u); }
  }

  lemma StopsAtZero(lib: Lib, pf: int, strides: seq<int>, w: int, u: int, v: int)
    requires LibOk(lib) && StridesOk(strides) && StopsAt(lib, pf, strides, w, u)
    requires Reached(lib, pf, strides, w, v) && u <= v
    ensures u == v
  {
    hide LibOk, Unfit, NoNext;
    if u < v {
      var k: nat :| RoundsTo(w, v, k);
      MultiplesAdd(v, 0, Scaled(1, k));
      assert false;
    }
  }

  /** Where the loop ends and how, for every int width: at the first rounded-up width it does not pass. */
  lemma {:induction false} EndsWhereItStops(lib: Lib, pf: int, strides: seq<int>, w: int)
    requires LibOk(lib) && StridesOk(strides) && Int(w)
    ensures exists v :: StopsAt(lib, pf, strides, w, v) && EndsSo(lib, pf, strides, v, Search(lib, pf, strides, w).0)
    decreases Climb(w)
  {
    hide LibOk, Fits;
    ItselfRounded(w);
    NoNextIff(w);
    LowBitSmall(w);
    var next := w + LowBit(w);
    if !Unfit(lib, pf, strides, w) || NoNext(w) || w == 0 {
      FirstStop(lib, pf, strides, w);
    } else {
      ClimbDrops(w);
      EndsWhereItStops(lib, pf, strides, next);
      var v :| StopsAt(lib, pf, strides, next, v) && EndsSo(lib, pf, strides, v, Search(lib, pf, strides, next).0);
      Earliest(lib, pf, strides, w, v);
    }
  }

  // ---------------------------------------------------------------- plane sizes

  /** Index of the last plane: the first one with no plane after it. */
  function LastPlane(data: seq<int>, i: nat): (n: nat)
    requires |data| == 4 && i <= 3
    ensures i <= n <= 3
    ensures forall j | i < j <= n :: data[j] != 0
    ensures n < 3 ==> data[n + 1] == 0
    decreases 3 - i
  {
    if i < 3 && data[i + 1] != 0 then LastPlane(data, i + 1) else i
  }

  /** From one plane to the next. */
  function Gap(data: seq<int>, i: nat): int
    requires |data| == 4 && i < 3
  {
    data[i + 1] - data[i]
  }

  /** The size of plane i: the distance to the next, the rest of the image for the last, 0 for an absent one. */
  function PlaneSize(p: Planes, i: nat): int
    requires PlanesOk(p) && i < 4
  {
    var n := LastPlane(p.data, 0);
    if i < n then Gap(p.data, i) else if i == n then p.total - p.data[n] else 0
  }

  function PlaneSizes(p: Planes): (s: seq<int>)
    requires PlanesOk(p)
    ensures |s| == 4 && forall i | 0 <= i < 4 :: s[i] == PlaneSize(p, i)
  {
    seq(4, i requires 0 <= i < 4 => PlaneSize(p, i))
  }

  lemma SizesAre(p: Planes, s: seq<int>, n: nat)
    requires PlanesOk(p) && |s| == 4 && n == LastPlane(p.data, 0)
    requires forall j | 0 <= j < n :: s[j] == Gap(p.data, j)
    requires s[n] == p.total - p.data[n] && forall j | n < j < 4 :: s[j] == 0
    ensures s == PlaneSizes(p)
  {
    forall j | 0 <= j < 4 ensures s[j] == PlaneSize(p, j) {
    }
  }

  lemma LastPlaneStep(data: seq<int>, i: nat)
    requires |data| == 4 && i <= 3
    ensures LastPlane(data, i) == if i < 3 && data[i + 1] != 0 then LastPlane(data, i + 1) else i
  {
  }

  method SplitPlanes(p: Planes) returns (size: array<int>)
    requires PlanesOk(p)
    ensures fresh(size) && size.Length == 4 && size[..] == PlaneSizes(p)
  {
    hide PlaneSizes, LastPlane;
    size := new int[4](_ => 0);
    var i := 0;
    LastPlaneStep(p.data, 0);
    while i < 3 && p.data[i + 1] != 0
      invariant 0 <= i <= 3 && LastPlane(p.data, 0) == LastPlane(p.data, i)
      invariant LastPlane(p.data, i) == if i < 3 && p.data[i + 1] != 0 then LastPlane(p.data, i + 1) else i
      invariant forall j | 0 <= j < i :: size[j] == Gap(p.data, j)
      invariant forall j | i <= j < 4 :: size[j] == 0
    {
      size[i] := p.data[i + 1] - p.data[i];
      i := i + 1;
      LastPlaneStep(p.data, i);
    }
    size[i] := p.total - (p.data[i] - p.data[0]);
    SizesAre(p, size[..], i);
  }

  /** size[i] is the way from plane i to the next, up to the last plane n, which has the rest of the image. */
  predicate SizesUpTo(p: Planes, size: seq<int>, n: nat)
    requires PlanesOk(p)
  {
    && |size| == 4 && n <= 3
    && (forall i | 0 < i <= n :: p.data[i] != 0) && (n < 3 ==> p.data[n + 1] == 0)
    && (forall i | 0 <= i < n :: size[i] == p.data[i + 1] - p.data[i])
    && size[n] == p.total - p.data[n] && forall i | n < i < 4 :: size[i] == 0
  }

  lemma SizesUpToIff(p: Planes, size: seq<int>)
    requires PlanesOk(p)
    ensures (exists n: nat :: SizesUpTo(p, size, n)) <==> size == PlaneSizes(p)
  {
    var last := LastPlane(p.data, 0);
    assert SizesUpTo(p, PlaneSizes(p), last);
    forall n: nat | SizesUpTo(p, size, n) ensures size == PlaneSizes(p) {
      assert n == 0 || n == 1 || n == 2 || n == 3;
      SizesAre(p, size, n);
    }
  }

  /** Whatever the layout, the plane sizes add up to the size of the image. */
  lemma SizesSum(p: Planes)
    requires PlanesOk(p)
    ensures var s := PlaneSizes(p); s[0] + s[1] + s[2] + s[3] == p.total
  {
    var n := LastPlane(p.data, 0);
    assert n == 0 || n == 1 || n == 2 || n == 3;
  }

  /** The planes that are present lie one after the other. */
  predicate Ascending(p: Planes)
    requires PlanesOk(p)
  {
    forall i | 0 <= i < LastPlane(p.data, 0) :: p.data[i] <= p.data[i + 1]
  }

  predicate InPlane(p: Planes, i: nat, x: int)
    requires PlanesOk(p) && i < 4
  {
    p.data[i] <= x < p.data[i] + PlaneSize(p, i)
  }

  /** Byte x of the image is in one plane and no other. */
  predicate InOnePlane(p: Planes, x: int)
    requires PlanesOk(p)
  {
    exists i: nat :: i < 4 && InPlane(p, i, x) && forall j: nat | j < 4 && j != i :: !InPlane(p, j, x)
  }

  lemma InItsPlane(p: Planes, x: int)
    requires PlanesOk(p) && Ascending(p) && 0 <= x < p.total
    ensures InOnePlane(p, x)
  {
    var n := LastPlane(p.data, 0);
    var i := if n >= 1 && x < p.data[1] then 0 else if n >= 2 && x < p.data[2] then 1
             else if n >= 3 && x < p.data[3] then 2 else n;
    assert InPlane(p, i, x);
    forall j: nat | j < 4 && j != i ensures !InPlane(p, j, x) {
      assert j == 0 || j == 1 || j == 2 || j == 3;
    }
  }

  /** Where the offsets step back from plane i to the next, the byte before plane i's start is in two planes. */
  lemma InTwoPlanes(p: Planes, i: nat)
    requires PlanesOk(p) && i < LastPlane(p.data, 0) && p.data[i] > p.data[i + 1]
    ensures 0 <= p.data[i] - 1 < p.total && !InOnePlane(p, p.data[i] - 1)
  {
    var x, n := p.data[i] - 1, LastPlane(p.data, 0);
    var before := if i == 1 then 0 else if p.data[1] > x then 0 else 1;
    assert InPlane(p, before, x);
    var after := if i == 0 || i + 1 == n then n else if p.data[i + 2] > x then i + 1 else n;
    assert InPlane(p, after, x);
  }

  /** The planes tile the image, every byte being in exactly one of them, if and only if their offsets ascend. */
  lemma PlanesTile(p: Planes)
    requires PlanesOk(p)
    ensures (forall x | 0 <= x < p.total :: InOnePlane(p, x)) <==> Ascending(p)
  {
    if Ascending(p) {
      forall x | 0 <= x < p.total ensures InOnePlane(p, x) {
        InItsPlane(p, x);
      }
    } else {
      var i :| 0 <= i < LastPlane(p.data, 0) && p.data[i] > p.data[i + 1];
      InTwoPlanes(p, i);
    }
  }

  // ---------------------------------------------------------------- the cache

  datatype Frame = Frame(format: int, width: int, height: int)

  /** What one computation yields, or how it fails. */
  datatype Layout = Layout(linesize: seq<int>, size: seq<int>, total: nat) | Fails(code: int) | Undefined

  /** The layout computed from nothing, for a pixel format and dimensions. */
  function Computed(lib: Lib, pf: int, width: int, height: int): (r: Layout)
    requires LibOk(lib) && Int(width) && Int(height)
    ensures r.Layout? ==> |r.linesize| == 4 && |r.size| == 4 && r.size[0] + r.size[1] + r.size[2] + r.size[3] == r.total
    ensures r.Fails? ==> r.code < 0
  {
    var a := lib.align(pf, width, height);
    match Search(lib, pf, a.strides, a.w).0
    case Failed(c) => Fails(c)
    case Overflow => Undefined
    case Forever => Undefined
    case Lines(ls, _) =>
      match lib.planes(pf, a.h, ls)
      case Err(_) => Fails(-1)
      case Got(p) =>
        SizesSum(p);
        Layout(ls, PlaneSizes(p), p.total)
  }

  /**
   * What update_frame_pool makes of a width and height: the loop starts from the aligned width, and the planes
   * have the aligned height and the line sizes the loop ended with.
   */
  ghost predicate Makes(lib: Lib, pf: int, width: int, height: int, r: Layout)
    requires LibOk(lib) && Int(width) && Int(height)
  {
    var a := lib.align(pf, width, height);
    exists v :: StopsAt(lib, pf, a.strides, a.w, v) && MakesAt(lib, pf, a.strides, a.h, v, r)
  }

  ghost predicate MakesAt(lib: Lib, pf: int, strides: seq<int>, height: int, v: int, r: Layout)
    requires LibOk(lib) && StridesOk(strides)
  {
    match lib.lines(pf, v)
    case Err(c) => r == Fails(c)
    case Got(ls) =>
      if NoNext(v) || !Fits(ls, strides) then r == Undefined
      else
        match lib.planes(pf, height, ls)
        case Err(_) => r == Fails(-1)
        case Got(p) =>
          r.Layout? && r.linesize == ls && r.total == p.total && exists n: nat :: SizesUpTo(p, r.size, n)
  }

  /** For every width and height there is one outcome. */
  lemma ComputedIs(lib: Lib, pf: int, width: int, height: int, r: Layout)
    requires LibOk(lib) && Int(width) && Int(height)
    ensures Makes(lib, pf, width, height, r) <==> r == Computed(lib, pf, width, height)
  {
    hide LibOk, Fits, NoNext, StopsAt, Search, SizesUpTo, PlaneSizes;
    var a := Dimensions(lib, pf, width, height);
    EndsWhereItStops(lib, pf, a.strides, a.w);
    var v :| StopsAt(lib, pf, a.strides, a.w, v) && EndsSo(lib, pf, a.strides, v, Search(lib, pf, a.strides, a.w).0);
    MadeAt(lib, pf, width, height, v, r);
    forall u | StopsAt(lib, pf, a.strides, a.w, u) ensures u == v { OneStop(lib, pf, a.strides, a.w, u, v); }
  }

  lemma Dimensions(lib: Lib, pf: int, width: int, height: int) returns (a: Aligned)
    requires LibOk(lib) && Int(width) && Int(height)
    ensures a == lib.align(pf, width, height) && StridesOk(a.strides) && Int(a.w) && Int(a.h)
  {
    a := lib.align(pf, width, height);
  }

  lemma MadeAt(lib: Lib, pf: int, width: int, height: int, v: int, r: Layout)
    requires LibOk(lib) && Int(width) && Int(height)
    requires var a := lib.align(pf, width, height);
             StridesOk(a.strides) && Int(a.w) && EndsSo(lib, pf, a.strides, v, Search(lib, pf, a.strides, a.w).0)
    ensures var a := lib.align(pf, width, height);
            MakesAt(lib, pf, a.strides, a.h, v, r) <==> r == Computed(lib, pf, width, height)
  {
    hide Fits, NoNext, Search, SizesUpTo, PlaneSizes;
    var a := lib.align(pf, width, height);
    if lib.lines(pf, v).Got? {
      var image := lib.planes(pf, a.h, lib.lines(pf, v).value);
      if image.Got? && r.Layout? { SizesUpToIff(image.value, r.size); }
    }
  }

  /** The fields of FFmpeg's pool that the key test and the result use, and the sizes kept beside it. */
  datatype Pool = Pool(format: int, width: int, height: int, linesize: seq<int>, size: seq<int>)

  predicate Hits(p: Pool, f: Frame) { p.format == f.format && p.width == f.width && p.height == f.height }

  function Kept(p: Pool, f: Frame, r: Layout): Pool {
    if Hits(p, f) || !r.Layout? then p else Pool(f.format, f.width, f.height, r.linesize, r.size)
  }

  /** A pool fresh from the allocator. */
  const EMPTY := Pool(0, 0, 0, [0, 0, 0, 0], [0, 0, 0, 0])

  class FramePool {
    var format: int
    var width: int
    var height: int
    const linesize: array<int>
    const size: array<int>
    var strides: seq<int>

    ghost predicate Valid()
      reads this
    {
      linesize.Length == 4 && size.Length == 4 && linesize != size
    }

    ghost function Value(): Pool
      reads this, linesize, size
    {
      Pool(format, width, height, linesize[..], size[..])
    }

    constructor ()
      ensures Valid() && fresh(linesize) && fresh(size) && Value() == EMPTY
    {
      format, width, height, strides := 0, 0, 0, [];
      linesize := new int[4](_ => 0);
      size := new int[4](_ => 0);
    }

    /** What is stored and returned once r has been made: all of a layout, and nothing of a failure. */
    ghost predicate Takes(was: Pool, frame: Frame, r: Layout, ret: int, defined: bool)
      reads this, linesize, size
    {
      match r
      case Layout(ls, s, _) =>
        ret == 0 && defined && Value() == Pool(frame.format, frame.width, frame.height, ls, s)
      case Fails(code) => ret == code && defined && Value() == was
      case Undefined => !defined && Value() == was
    }

    /** The loop that copies both results out. */
    method Keep(sizes: array<int>, ls: seq<int>)
      requires Valid() && sizes.Length == 4 && |ls| == 4 && sizes != size && sizes != linesize
      modifies linesize, size
      ensures size[..] == sizes[..] && linesize[..] == ls
    {
      var i := 0;
      while i < 4
        invariant 0 <= i <= 4
        invariant size[..i] == sizes[..i] && linesize[..i] == ls[..i]
      {
        size[i] := sizes[i];
        linesize[i] := ls[i];
        i := i + 1;
      }
    }

    /**
     * update_frame_pool; `video` is whether the codec's type is video. `defined` is false where the C code has
     * an int overflow or does not come back. A hit or a failure leaves the line sizes, the plane sizes and the
     * key alone.
     */
    method Update(lib: Lib, pf: int, frame: Frame, video: bool) returns (ret: int, defined: bool)
      requires Valid() && LibOk(lib) && Int(frame.width) && Int(frame.height)
      modifies this, linesize, size
      ensures Valid()
      ensures !video ==> ret == -1 && defined && Value() == old(Value()) && strides == old(strides)
      ensures video && old(format == frame.format && width == frame.width && height == frame.height) ==>
                ret == 0 && defined && Value() == old(Value()) && strides == old(strides)
      ensures video && old(format != frame.format || width != frame.width || height != frame.height) ==>
                && strides == lib.align(pf, frame.width, frame.height).strides
                && exists r ::
                     Makes(lib, pf, frame.width, frame.height, r) && Takes(old(Value()), frame, r, ret, defined)
      ensures video ==> Value() == Kept(old(Value()), frame, Computed(lib, pf, frame.width, frame.height))
    {
      if !video { return -1, true; }
      if format == frame.format && width == frame.width && height == frame.height { return 0, true; }
      ghost var r := Computed(lib, pf, frame.width, frame.height);
      ComputedIs(lib, pf, frame.width, frame.height, r);
      var a := lib.align(pf, frame.width, frame.height);
      strides := a.strides;
      var found, rounds := AlignWidth(lib, pf, a.strides, a.w);
      if found.Failed? { return found.code, true; }
      if !found.Lines? { return 0, false; }
      var image := lib.planes(pf, a.h, found.ls);
      if image.Err? { return -1, true; }
      var sizes := SplitPlanes(image.value);
      Keep(sizes, found.ls);
      format, width, height := frame.format, frame.width, frame.height;
      return 0, true;
    }
  }

  /** The pool after a sequence of frames, each with the codec's pixel format at the time. */
  function AfterFrames(lib: Lib, p: Pool, frames: seq<(int, Frame)>): Pool
    requires LibOk(lib) && FramesOk(frames)
    decreases |frames|
  {
    if frames == [] then p
    else
      var (pf, f) := frames[0];
      AfterFrames(lib, Kept(p, f, Computed(lib, pf, f.width, f.height)), frames[1..])
  }

  predicate FramesOk(frames: seq<(int, Frame)>) {
    forall i | 0 <= i < |frames| :: Int(frames[i].1.width) && Int(frames[i].1.height)
  }

  /** A frame that does not fill a pool of this key: a hit, or one with a failure. */
  ghost predicate LeavesAlone(lib: Lib, key: Frame, pf: int, f: Frame)
    requires LibOk(lib) && Int(f.width) && Int(f.height)
  {
    f == key || forall r | Makes(lib, pf, f.width, f.height, r) :: !r.Layout?
  }

  /** Frame k filled the pool, and none after it. */
  ghost predicate FilledBy(lib: Lib, frames: seq<(int, Frame)>, p: Pool, k: nat)
    requires LibOk(lib) && FramesOk(frames) && k < |frames|
  {
    var (pf, f) := frames[k];
    && f == Frame(p.format, p.width, p.height)
    && (exists total :: Makes(lib, pf, f.width, f.height, Layout(p.linesize, p.size, total)))
    && forall j | k < j < |frames| :: LeavesAlone(lib, f, frames[j].0, frames[j].1)
  }

  ghost predicate Unfilled(lib: Lib, frames: seq<(int, Frame)>, key: Frame)
    requires LibOk(lib) && FramesOk(frames)
  {
    forall j | 0 <= j < |frames| :: LeavesAlone(lib, key, frames[j].0, frames[j].1)
  }

  lemma OneLater(lib: Lib, frames: seq<(int, Frame)>, p: Pool, k: nat)
    requires LibOk(lib) && FramesOk(frames) && k + 1 < |frames| && FilledBy(lib, frames[1..], p, k)
    ensures FilledBy(lib, frames, p, k + 1)
  {
    hide LibOk, Makes, LeavesAlone;
    var f := frames[k + 1].1;
    forall j | k + 1 < j < |frames| ensures LeavesAlone(lib, f, frames[j].0, frames[j].1) {
      assert frames[1..][j - 1] == frames[j];
    }
  }

  lemma {:induction false} PoolFrom(lib: Lib, p: Pool, frames: seq<(int, Frame)>)
    requires LibOk(lib) && FramesOk(frames)
    ensures var q := AfterFrames(lib, p, frames);
            || (q == p && Unfilled(lib, frames, Frame(p.format, p.width, p.height)))
            || exists k: nat :: k < |frames| && FilledBy(lib, frames, q, k)
    decreases |frames|
  {
    hide LibOk, Makes, Computed;
    if frames != [] {
      var (pf, f) := frames[0];
      var r := Computed(lib, pf, f.width, f.height);
      var p', q, rest := Kept(p, f, r), AfterFrames(lib, p, frames), frames[1..];
      forall s ensures Makes(lib, pf, f.width, f.height, s) <==> s == r { ComputedIs(lib, pf, f.width, f.height, s); }
      PoolFrom(lib, p', rest);
      if k: nat :| k < |rest| && FilledBy(lib, rest, q, k) {
        OneLater(lib, frames, q, k);
      } else if !Hits(p, f) && r.Layout? {
        assert Makes(lib, pf, f.width, f.height, Layout(q.linesize, q.size, r.total));
        assert FilledBy(lib, frames, q, 0);
      }
    }
  }

  /**
   * What the pool holds, and so what a hit hands out, after any frames whatever: a frame of its key filled it,
   * with what update_frame_pool makes of that frame's dimensions at the codec's pixel format of that time, and no
   * later frame did; or no frame has filled it and everything in it is 0.
   */
  lemma PoolIs(lib: Lib, frames: seq<(int, Frame)>)
    requires LibOk(lib) && FramesOk(frames)
    ensures var p := AfterFrames(lib, EMPTY, frames);
            || (p == Pool(0, 0, 0, [0, 0, 0, 0], [0, 0, 0, 0]) && Unfilled(lib, frames, Frame(0, 0, 0)))
            || exists k: nat :: k < |frames| && FilledBy(lib, frames, p, k)
  {
    PoolFrom(lib, EMPTY, frames);
  }

  /** The codec's pixel format at the last frame that really filled the pool; `last` is that before these frames. */
  function LastPf(lib: Lib, p: Pool, last: Option<int>, frames: seq<(int, Frame)>): Option<int>
    requires LibOk(lib) && FramesOk(frames)
    decreases |frames|
  {
    if frames == [] then last
    else
      var (pf, f) := frames[0];
      var r := Computed(lib, pf, f.width, f.height);
      LastPf(lib, Kept(p, f, r), if !Hits(p, f) && r.Layout? then Some(pf) else last, frames[1..])
  }

  /** The line sizes and plane sizes kept are those of a layout. */
  predicate Keeps(p: Pool, r: Layout) { r.Layout? && p.linesize == r.linesize && p.size == r.size }

  /** The pool holds what was computed for its key with pixel format `last`, or has never been filled. */
  ghost predicate Holds(lib: Lib, p: Pool, last: Option<int>)
    requires LibOk(lib)
  {
    match last
    case None => p == EMPTY
    case Some(q) => Int(p.width) && Int(p.height) && Keeps(p, Computed(lib, q, p.width, p.height))
  }

  lemma {:induction false} StaysCurrent(lib: Lib, p: Pool, last: Option<int>, frames: seq<(int, Frame)>)
    requires LibOk(lib) && FramesOk(frames) && Holds(lib, p, last)
    ensures Holds(lib, AfterFrames(lib, p, frames), LastPf(lib, p, last, frames))
    decreases |frames|
  {
    if frames != [] {
      var (pf, f) := frames[0];
      var r := Computed(lib, pf, f.width, f.height);
      StaysCurrent(lib, Kept(p, f, r), if !Hits(p, f) && r.Layout? then Some(pf) else last, frames[1..]);
    }
  }

  /**
   * What a hit hands out, after any frames whatever, hits and failures included: the layout of the hit frame's
   * dimensions for the pixel format the codec had when the pool was last filled. Only an unfilled pool, which
   * hits a frame of format, width and height 0, holds zeros instead.
   */
  lemma HitHolds(lib: Lib, frames: seq<(int, Frame)>, f: Frame)
    requires LibOk(lib) && FramesOk(frames) && Hits(AfterFrames(lib, EMPTY, frames), f)
    ensures match LastPf(lib, EMPTY, None, frames)
            case None => f == Frame(0, 0, 0) && AfterFrames(lib, EMPTY, frames) == EMPTY
            case Some(q) =>
              Int(f.width) && Int(f.height) && Keeps(AfterFrames(lib, EMPTY, frames), Computed(lib, q, f.width, f.height))
  {
    StaysCurrent(lib, EMPTY, None, frames);
  }

  /** The frames before a hit: they last filled the pool at pixel format q, and it hits f. */
  ghost predicate HitAfter(lib: Lib, frames: seq<(int, Frame)>, f: Frame, q: int) {
    && LibOk(lib) && FramesOk(frames)
    && LastPf(lib, EMPTY, None, frames) == Some(q) && Hits(AfterFrames(lib, EMPTY, frames), f)
  }

  /** A hit with the codec at pixel format pf hands out what a fresh computation would. */
  ghost predicate FreshHit(lib: Lib, frames: seq<(int, Frame)>, f: Frame, q: int, pf: int)
    requires HitAfter(lib, frames, f, q)
  {
    Int(f.width) && Int(f.height) && Keeps(AfterFrames(lib, EMPTY, frames), Computed(lib, pf, f.width, f.height))
  }

  /** A hit is fresh exactly when the two pixel formats have the same layout at these dimensions. */
  lemma HitIsFresh(lib: Lib, frames: seq<(int, Frame)>, f: Frame, q: int, pf: int)
    requires HitAfter(lib, frames, f, q)
    ensures Int(f.width) && Int(f.height)
    ensures var r := Computed(lib, pf, f.width, f.height);
            var was := Computed(lib, q, f.width, f.height);
            FreshHit(lib, frames, f, q, pf) <==> r.Layout? && was.Layout? && r.linesize == was.linesize && r.size == was.size
    ensures pf == q ==> FreshHit(lib, frames, f, q, pf)
  {
    HitHolds(lib, frames, f);
  }

  /** While the codec's pixel format has always been the frame's, the pool was last filled at its own format. */
  lemma {:induction false} FilledAtFormat(lib: Lib, p: Pool, last: Option<int>, frames: seq<(int, Frame)>)
    requires LibOk(lib) && FramesOk(frames) && forall i | 0 <= i < |frames| :: frames[i].0 == frames[i].1.format
    requires last.Some? ==> p.format == last.value
    ensures var q := LastPf(lib, p, last, frames); q.Some? ==> AfterFrames(lib, p, frames).format == q.value
    decreases |frames|
  {
    if frames != [] {
      var (pf, f) := frames[0];
      var r := Computed(lib, pf, f.width, f.height);
      FilledAtFormat(lib, Kept(p, f, r), if !Hits(p, f) && r.Layout? then Some(pf) else last, frames[1..]);
    }
  }

  /** What a caller can check: the codec's pixel format is the frame's, now and in all frames so far. */
  lemma SameFormatIsFresh(lib: Lib, frames: seq<(int, Frame)>, f: Frame, q: int)
    requires HitAfter(lib, frames, f, q)
    requires forall i | 0 <= i < |frames| :: frames[i].0 == frames[i].1.format
    ensures q == f.format && FreshHit(lib, frames, f, q, f.format)
  {
    FilledAtFormat(lib, EMPTY, None, frames);
    HitIsFresh(lib, frames, f, q, f.format);
  }

  /** Line sizes that depend on the pixel format and nothing else worth noting. */
  const PLAIN: Lib := Lib(
    (pf: int, w: int, h: int) => Aligned(w, h, [1, 1, 1, 1]),
    (pf: int, w: int) => Got([pf * w, 0, 0, 0]),
    (pf: int, h: int, ls: seq<int>) => Got(Planes([0, 0, 0, 0], 0)))

  /** For any two pixel formats there are helpers and frames that make a hit stale. */
  lemma StaleHit(q: int, pf: int)
    requires q != pf
    ensures var f := Frame(2, 16, 16);
            HitAfter(PLAIN, [(q, f)], f, q) && !FreshHit(PLAIN, [(q, f)], f, q, pf)
  {
    var f := Frame(2, 16, 16);
    PlainLines(q);
    PlainLines(pf);
    assert [(q, f)][1..] == [];
    assert AfterFrames(PLAIN, EMPTY, [(q, f)]) == Kept(EMPTY, f, Computed(PLAIN, q, 16, 16));
  }

  /**
   * The exact condition on the codec alone: hits at pixel format pf on a pool last filled at q are fresh,
   * whatever the helpers and the frames, if and only if pf == q. The frame's own format plays no part.
   */
  lemma AlwaysFreshIff(q: int, pf: int)
    ensures (forall lib, frames, f | HitAfter(lib, frames, f, q) :: FreshHit(lib, frames, f, q, pf)) <==> pf == q
  {
    if pf == q {
      forall lib, frames, f | HitAfter(lib, frames, f, q) ensures FreshHit(lib, frames, f, q, pf) {
        HitIsFresh(lib, frames, f, q, pf);
      }
    } else {
      StaleHit(q, pf);
    }
  }

  lemma PlainOk()
    ensures LibOk(PLAIN)
  {
  }

  lemma PlainSearch(pf: int)
    ensures LibOk(PLAIN) && StridesOk([1, 1, 1, 1])
    ensures Search(PLAIN, pf, [1, 1, 1, 1], 16).0 == Lines([pf * 16, 0, 0, 0], 16)
  {
    hide LibOk, Zeros;
    PlainOk();
    LowBitSmall(16);
  }

  lemma PlainLines(pf: int)
    ensures LibOk(PLAIN)
    ensures var r := Computed(PLAIN, pf, 16, 16); r.Layout? && r.linesize == [pf * 16, 0, 0, 0]
  {
    hide LibOk, Search;
    PlainOk();
    PlainSearch(pf);
  }
}
