/** aco_share_stack_new2: how a share stack is sized and where its marks lie (libsrc/libaco/aco.c:208-288). */
module Geometry {
  import opened Platform

  /** The read-only fields of aco_share_stack_t. Addresses are natural numbers. */
  datatype Geom = Geom(ptr: nat, sz: nat, high: nat, ret: nat, limit: nat)

  /** x + y in a size_t. */
  function AddWrap(a: Arch, x: nat, y: nat): (r: nat)
    requires x < a.Space() && y < a.Space()
    ensures r < a.Space()
    ensures r < x <==> x + y >= a.Space()
  {
    if x + y >= a.Space() then x + y - a.Space() else x + y
  }

  /** What every address computation on a share stack relies on. */
  predicate GeomOk(a: Arch, g: Geom) {
    && g.ptr + g.sz <= a.Space()
    && g.high % 16 == 0
    && g.high == g.ret + a.W()
    && g.sz >= 4096 && g.limit == g.sz - 16 - 2 * a.W()
    && g.ptr + g.limit < g.high <= g.ptr + g.limit + 16
    && g.high <= g.ptr + g.sz
  }

  /** The save-time test on a suspended stack pointer. */
  predicate InWindow(g: Geom, sp: nat) {
    g.high <= g.limit + sp && sp <= g.ret
  }

  /**
   * The test speaks of the live size: the bytes up to the return slot and one word more are within the limit.
   * It has nothing to say against any size, small or large, that fits.
   */
  lemma WindowIsSize(a: Arch, g: Geom, sp: nat)
    requires GeomOk(a, g)
    ensures InWindow(g, sp) <==> sp <= g.ret && g.ret - sp + a.W() <= g.limit
  {
  }

  predicate IsPow2(n: int) {
    n > 0 && (n == 1 || (n % 2 == 0 && IsPow2(n / 2)))
  }

  /** The smallest request honoured is 4096 bytes; 0 asks for 2 MiB. */
  function Request(req: nat): nat {
    if req == 0 then 0x20_0000 else if req < 4096 then 4096 else req
  }

  /** Usable sizes that honour a request: at least 4096 bytes, all that is asked for, and 2 MiB for 0. */
  predicate Suits(req: nat, m: nat) { 4096 <= m && req <= m && (req == 0 ==> 0x20_0000 <= m) }

  function PageCeil(n: nat, pg: nat): (c: nat)
    requires pg > 0
    ensures n <= c < n + pg
  {
    if n % pg == 0 then n else n - n % pg + pg
  }

  /** Bytes to obtain from the system: the usable part, plus one guard page if asked; None where an assert aborts. */
  function StackBytes(a: Arch, req: nat, guard: bool, pg: int): Option<nat> {
    if !guard then Some(Request(req))
    else if !IsPow2(pg) || PageCeil(Request(req), pg) + pg >= a.Space() then None
    else Some(PageCeil(Request(req), pg) + pg)
  }

  function StackGeom(a: Arch, req: nat, guard: bool, pg: int, base: nat): Option<Geom> {
    match StackBytes(a, req, guard, pg)
    case None => None
    case Some(total) =>
      var skip := if guard then pg else 0;
      var sz := total - skip;
      var high := (base + total - 2 * a.W()) / 16 * 16;
      Some(Geom(base + skip, sz, high, high - a.W(), sz - 16 - 2 * a.W()))
  }

  lemma TimesMonotone(p: nat, q: nat, m: nat)
    requires p <= q
    ensures p * m <= q * m
  {
    if p < q {
      TimesMonotone(p, q - 1, m);
      assert q * m == (q - 1) * m + m;
    }
  }

  lemma FloorPlusPages(n: nat, pg: nat, k: nat)
    requires pg > 0
    ensures var m := n - n % pg + k * pg; m / pg == n / pg + k && m % pg == 0
  {
    var q := n / pg;
    assert n == q * pg + n % pg;
    assert (q + k) * pg == q * pg + k * pg;
    DivUnique(n - n % pg + k * pg, pg, q + k, 0);
  }

  /** PageCeil is the least page multiple that holds n bytes. */
  lemma PageCeilIsLeast(n: nat, pg: nat, m: nat)
    requires pg > 0
    ensures PageCeil(n, pg) % pg == 0
    ensures m >= n && m % pg == 0 ==> PageCeil(n, pg) <= m
  {
    FloorPlusPages(n, pg, if n % pg == 0 then 0 else 1);
    if m >= n && m % pg == 0 && n % pg != 0 {
      MultipleAbove(n, pg, m);
    }
  }

  lemma MultipleAbove(n: nat, pg: nat, m: nat)
    requires pg > 0 && m >= n && m % pg == 0 && n % pg != 0
    ensures m >= n - n % pg + pg
  {
    var p, q := m / pg, n / pg;
    assert m == p * pg && n == q * pg + n % pg;
    if p <= q {
      TimesMonotone(p, q, pg);
    } else {
      assert p * pg == q * pg + (p - q) * pg;
      TimesAtLeast(p - q, pg);
    }
  }

  // ---------------------------------------------------------------- the bit tests

  lemma {:induction false} AndZero(x: nat)
    ensures And(x, 0) == 0
  {
    if x > 0 { AndZero(x / 2); }
  }

  lemma {:induction false} AndSelf(x: nat)
    ensures And(x, x) == x
  {
    if x > 0 { AndSelf(x / 2); }
  }

  /** `((pgsz - 1) & pgsz) == 0` tests for a power of two. */
  lemma {:induction false} PowerTest(n: nat)
    requires n > 0
    ensures And(n - 1, n) == 0 <==> IsPow2(n)
  {
    if n % 2 == 0 {
      PowerTest(n / 2);
      assert (n - 1) / 2 == n / 2 - 1;
    } else if n > 1 {
      AndSelf(n / 2);
      assert (n - 1) / 2 == n / 2;
    }
  }

  lemma {:induction false} PowerIs(n: nat) returns (k: nat)
    requires IsPow2(n)
    ensures n == Scaled(1, k)
  {
    if n == 1 {
      k := 0;
    } else {
      var j := PowerIs(n / 2);
      k := j + 1;
    }
  }

  lemma {:induction false} PowersAre(k: nat)
    ensures IsPow2(Scaled(1, k))
  {
    if k > 0 {
      PowersAre(k - 1);
      PowerTwice(Scaled(1, k - 1));
    }
  }

  lemma PowerTwice(n: nat)
    requires IsPow2(n)
    ensures IsPow2(2 * n)
  {
    assert 2 * n / 2 == n && 2 * n % 2 == 0;
  }

  lemma {:induction false} ScaledIsTimes(q: nat, k: nat)
    ensures Scaled(q, k) == q * Scaled(1, k)
  {
    if k > 0 { ScaledIsTimes(q, k - 1); }
  }

  lemma {:induction false} LowBits(x: nat, k: nat, mask: nat) returns (q: nat)
    requires mask + 1 == Scaled(1, k)
    ensures x == Scaled(q, k) + And(x, mask) && And(x, mask) <= mask
  {
    if k == 0 {
      q := x;
      AndZero(x);
    } else {
      q := LowBits(x / 2, k - 1, mask / 2);
    }
  }

  /** `sz & (pg - 1)` is the remainder by a page size that is a power of two, so `sz & ~(pg - 1)` rounds down. */
  lemma MaskIsRemainder(x: nat, pg: nat)
    requires IsPow2(pg)
    ensures And(x, pg - 1) == x % pg
  {
    var k := PowerIs(pg);
    var q := LowBits(x, k, pg - 1);
    ScaledIsTimes(q, k);
    DivUnique(x, pg, q, And(x, pg - 1));
  }

  /**
   * The function's own steps, each size_t addition reduced modulo the address space and each assert
   * turned into `return None`. The result is exactly StackBytes: only a page size that is not a power
   * of two, or a size that does not fit, aborts.
   */
  method SizeShareStack(a: Arch, req: nat, guard: bool, pg: int) returns (r: Option<nat>)
    requires req < a.Space() && pg < a.Half()
    ensures r == StackBytes(a, req, guard, pg)
    ensures !guard ==> r == Some(if req == 0 then 0x20_0000 else Max(4096, req))
  {
    var sz := req;
    if sz == 0 {
      sz := 1024 * 1024 * 2;
    }
    if sz < 4096 {
      sz := 4096;
    }
    if sz <= 0 { return None; }
    if guard {
      if !IsPow2(pg) { return None; }
      r := AddGuardPage(a, sz, pg);
    } else {
      r := Some(sz);
    }
  }

  method AddGuardPage(a: Arch, sz0: nat, pg: nat) returns (r: Option<nat>)
    requires 0 < sz0 < a.Space() && 0 < pg < a.Half()
    ensures r == if PageCeil(sz0, pg) + pg >= a.Space() then None else Some(PageCeil(sz0, pg) + pg)
  {
    var sz := sz0;
    var two := AddWrap(a, pg, pg);
    if two / 2 != pg { return None; }
    if sz <= pg {
      sz := two;
      SmallRequest(sz0, pg);
    } else {
      var newSz;
      FloorAtLeastPage(sz, pg);
      if sz % pg != 0 {
        newSz := sz - sz % pg;
        FloorPlusPages(sz, pg, 2);
        if newSz < pg { return None; }
        if AddWrap(a, newSz, two) < newSz { return None; }
        newSz := AddWrap(a, newSz, two);
        if sz / pg + 2 != newSz / pg { return None; }
      } else {
        FloorPlusPages(sz, pg, 1);
        if AddWrap(a, sz, pg) < sz { return None; }
        newSz := AddWrap(a, sz, pg);
        if sz / pg + 1 != newSz / pg { return None; }
      }
      sz := newSz;
      if sz / pg <= 1 || sz % pg != 0 { return None; }
    }
    return Some(sz);
  }

  lemma SmallRequest(n: nat, pg: nat)
    requires 0 < n <= pg
    ensures PageCeil(n, pg) == pg
  {
    DivUnique(n, pg, if n == pg then 1 else 0, if n == pg then 0 else n);
  }

  lemma FloorAtLeastPage(n: nat, pg: nat)
    requires 0 < pg <= n
    ensures n - n % pg >= pg && n / pg >= 1
  {
    assert n == (n / pg) * pg + n % pg;
    if n / pg > 0 {
      TimesAtLeast(n / pg, pg);
    }
  }

  /** The marks, computed with wrapping size_t arithmetic from the region the system handed out. */
  method PlaceMarks(a: Arch, sz: nat, ptr: nat) returns (r: Option<Geom>)
    requires 4096 <= sz < a.Space() && ptr + sz <= a.Space()
    ensures r.Some? && GeomOk(a, r.value) && r.value.ptr == ptr && r.value.sz == sz
    ensures r.value.high == (ptr + sz - 2 * a.W()) / 16 * 16
    ensures r.value.limit == sz - 16 - 2 * a.W()
  {
    var up := AddWrap(a, sz - 2 * a.W(), ptr);
    up := up / 16 * 16;
    if sz <= 16 + 2 * a.W() + a.W() { return None; }
    return Some(Geom(ptr, sz, up, up - a.W(), sz - 16 - 2 * a.W()));
  }

  /** The smallest suitable size is the request itself, if that is large enough. */
  lemma LeastSuitable(req: nat)
    ensures Suits(req, Request(req)) && forall m: nat | Suits(req, m) :: Request(req) <= m
    ensures Request(req) == if req == 0 then 0x20_0000 else Max(4096, req)
  {
  }

  /**
   * When a stack can be had: without a guard page always; with one if and only if the page size is a power of
   * two and some page multiple that suits the request, plus one page, is less than the address space.
   */
  lemma StackFits(a: Arch, req: nat, guard: bool, pg: int)
    ensures !guard ==> StackBytes(a, req, guard, pg).Some?
    ensures guard ==>
              (StackBytes(a, req, guard, pg).Some? <==>
                 IsPow2(pg) && exists m: nat :: Suits(req, m) && m % pg == 0 && m + pg < a.Space())
  {
    LeastSuitable(req);
    if guard && IsPow2(pg) {
      var least := PageCeil(Request(req), pg);
      PageCeilIsLeast(Request(req), pg, 0);
      assert Suits(req, least);
      forall m: nat | Suits(req, m) && m % pg == 0 ensures least <= m {
        PageCeilIsLeast(Request(req), pg, m);
      }
    }
  }

  lemma StackFitsSpace(a: Arch, req: nat, guard: bool, pg: int)
    requires StackBytes(a, req, guard, pg).Some? && req < a.Space()
    ensures StackBytes(a, req, guard, pg).value < a.Space() && (guard ==> pg > 0)
  {
  }

  /**
   * The usable size is the least page multiple (without a guard page, the least size) that suits the request,
   * and the guard page lies below it.
   */
  lemma StackSize(a: Arch, req: nat, guard: bool, pg: int, base: nat)
    requires StackBytes(a, req, guard, pg).Some?
    ensures var g := StackGeom(a, req, guard, pg, base).value;
            && Suits(req, g.sz) && g.sz + (if guard then pg else 0) == StackBytes(a, req, guard, pg).value
            && (guard ==>
                  && base + pg == g.ptr && g.sz % pg == 0
                  && forall m: nat | Suits(req, m) && m % pg == 0 :: g.sz <= m)
            && (!guard ==>
                  && base == g.ptr && (req >= 4096 ==> g.sz == req) && (0 < req < 4096 ==> g.sz == 4096)
                  && (req == 0 ==> g.sz == 0x20_0000))
  {
    LeastSuitable(req);
    if guard {
      var sz := StackBytes(a, req, guard, pg).value - pg;
      PageCeilIsLeast(Request(req), pg, 0);
      assert sz == PageCeil(Request(req), pg);
      forall m: nat | Suits(req, m) && m % pg == 0 ensures sz <= m {
        PageCeilIsLeast(Request(req), pg, m);
      }
    }
  }

  /** For every request and page size that does not abort, the marks lie where the rest of the library needs them. */
  lemma StackGeomOk(a: Arch, req: nat, guard: bool, pg: int, base: nat)
    requires StackBytes(a, req, guard, pg).Some?
    requires base + StackBytes(a, req, guard, pg).value <= a.Space()
    ensures var g := StackGeom(a, req, guard, pg, base).value;
            && GeomOk(a, g) && g.sz >= req && g.sz >= 4096 && (req == 0 ==> g.sz >= 0x20_0000)
            && g.limit == g.sz - 16 - 2 * a.W()
            && g.ret == g.high - a.W() && g.high % 16 == 0
            && g.high + 2 * a.W() <= g.ptr + g.sz < g.high + 2 * a.W() + 16
            && (a.X64? ==> g.ret % 16 == 8)
            && (guard ==>
                  && base + pg == g.ptr && g.sz % pg == 0
                  && g.sz - pg < if req == 0 then 0x20_0000 else if req < 4096 then 4096 else req)
            && (!guard ==>
                  && base == g.ptr && (req >= 4096 ==> g.sz == req) && (0 < req < 4096 ==> g.sz == 4096)
                  && (req == 0 ==> g.sz == 0x20_0000))
  {
    var n := Request(req);
    var total := StackBytes(a, req, guard, pg).value;
    if guard {
      PageCeilIsLeast(n, pg, 0);
      assert total - pg == PageCeil(n, pg);
    }
    MarksOk(a, total - (if guard then pg else 0), base + (if guard then pg else 0));
  }

  lemma MarksOk(a: Arch, sz: nat, ptr: nat)
    requires 4096 <= sz && ptr + sz <= a.Space()
    ensures var high := (ptr + sz - 2 * a.W()) / 16 * 16;
            && GeomOk(a, Geom(ptr, sz, high, high - a.W(), sz - 16 - 2 * a.W()))
            && (a.X64? ==> (high - a.W()) % 16 == 8)
  {
  }
}
