/** The doubling of a private save buffer in aco_resume (libsrc/libaco/aco.c:392-404). */
module SaveBuffer {
  import opened Platform

  /** sz << 1 in a size_t. */
  function Shl1(a: Arch, sz: nat): (r: nat)
    ensures sz < a.Space() ==> r < a.Space()
  {
    if 2 * sz >= a.Space() then 2 * sz - a.Space() else 2 * sz
  }

  /** sz shifted k times, bits falling off the top. */
  function Shifted(a: Arch, sz: nat, k: nat): (r: nat)
    ensures sz < a.Space() ==> r < a.Space()
  {
    if k == 0 then sz else Shl1(a, Shifted(a, sz, k - 1))
  }

  /** The size the loop settles on from its k-th shift onwards; None when `assert(sz > 0)` fires. */
  function GrownFrom(a: Arch, sz: nat, need: nat, k: nat): (r: Option<nat>)
    requires k <= a.Bits()
    ensures r.Some? ==> need <= r.value && r.value > 0 && (sz < a.Space() ==> r.value < a.Space())
    decreases a.Bits() - k
  {
    var d := Shifted(a, sz, k);
    if d == 0 || k == a.Bits() then None
    else if d >= need then Some(d)
    else GrownFrom(a, sz, need, k + 1)
  }

  function Grown(a: Arch, sz: nat, need: nat): Option<nat> {
    GrownFrom(a, sz, need, 1)
  }

  /** How many doublings reach `need` when no bit is lost. */
  function Steps(sz: nat, need: nat): nat
    decreases need - sz
  {
    if sz >= need || sz == 0 then 0 else 1 + Steps(2 * sz, need)
  }

  /** After k shifts the word is 2^k times something that fits in the bits left. */
  lemma {:induction false} ShiftedIsScaled(a: Arch, sz: nat, k: nat) returns (t: nat)
    requires sz < a.Space() && k <= a.Bits()
    ensures t < Scaled(1, a.Bits() - k) && Shifted(a, sz, k) == Scaled(t, k)
  {
    SpaceIsScaled(a);
    if k == 0 {
      t := sz;
    } else {
      var u := ShiftedIsScaled(a, sz, k - 1);
      var top := Scaled(1, a.Bits() - k);
      ScaledTwice(1, a.Bits() - k, k);
      assert Scaled(top, k) == a.Space();
      if u >= top {
        t := u - top;
        ScaledAdd(t, top, k);
      } else {
        t := u;
        ScaledInside(top - u, k);
        ScaledAdd(u, top - u, k);
        ScaledGrows(top - u, k);
      }
    }
  }

  /** k shifts multiply by 2^k, modulo the address space. */
  lemma {:induction false} ShiftedIs(a: Arch, sz: nat, k: nat)
    requires sz < a.Space()
    ensures Shifted(a, sz, k) == Scaled(sz, k) % a.Space()
  {
    if k > 0 {
      ShiftedIs(a, sz, k - 1);
      TwiceMod(Scaled(sz, k - 1), a.Space());
    }
  }

  lemma TwiceMod(x: nat, m: nat)
    requires m > 0
    ensures var r := x % m; 2 * x % m == if 2 * r >= m then 2 * r - m else 2 * r
  {
    var q, r := x / m, x % m;
    assert x == q * m + r;
    if 2 * r >= m {
      DivUnique(2 * x, m, 2 * q + 1, 2 * r - m);
    } else {
      DivUnique(2 * x, m, 2 * q, 2 * r);
    }
  }

  lemma ShiftedOut(a: Arch, sz: nat)
    requires sz < a.Space()
    ensures Shifted(a, sz, a.Bits()) == 0
  {
    var t := ShiftedIsScaled(a, sz, a.Bits());
    ScaledZero(a.Bits());
  }

  lemma ScaledZero(k: nat)
    ensures Scaled(0, k) == 0
  {
  }

  lemma {:induction false} ZeroStays(a: Arch, sz: nat, j: nat, k: nat)
    requires sz < a.Space() && j <= k && Shifted(a, sz, j) == 0
    ensures Shifted(a, sz, k) == 0
  {
    if j < k { ZeroStays(a, sz, j, k - 1); }
  }

  /** The loop itself: shift, test for zero, test for the size, in a register that wraps. */
  method Grow(a: Arch, sz0: nat, need: nat) returns (r: Option<nat>)
    requires sz0 < a.Space()
    ensures r == Grown(a, sz0, need)
  {
    var sz := sz0;
    ghost var k := 0;
    ShiftedOut(a, sz0);
    while true
      invariant 0 <= k < a.Bits()
      invariant sz == Shifted(a, sz0, k)
      invariant Grown(a, sz0, need) == GrownFrom(a, sz0, need, k + 1)
      decreases a.Bits() - k
    {
      sz := Shl1(a, sz);
      k := k + 1;
      if sz == 0 {
        return None;
      }
      if sz >= need {
        return Some(sz);
      }
    }
  }

  /** j is the first shift, from the k-th on, after which the register holds at least `need`. */
  predicate FirstShift(a: Arch, sz: nat, need: nat, k: nat, j: nat) {
    k <= j < a.Bits() && Shifted(a, sz, j) >= need && forall i | k <= i < j :: Shifted(a, sz, i) < need
  }

  /**
   * For every size and need: the loop stops at the first shift that is large enough, bits lost off the top
   * or not, and the assert fires exactly when there is none.
   */
  lemma {:induction false} GrownExactly(a: Arch, sz: nat, need: nat, k: nat)
    requires 0 < k <= a.Bits() && sz < a.Space() && need > 0
    ensures match GrownFrom(a, sz, need, k)
            case Some(v) => exists j :: FirstShift(a, sz, need, k, j) && v == Shifted(a, sz, j)
            case None => forall j | k <= j < a.Bits() :: Shifted(a, sz, j) < need
    decreases a.Bits() - k
  {
    ShiftedOut(a, sz);
    if Shifted(a, sz, k) == 0 {
      forall j | k <= j < a.Bits() ensures Shifted(a, sz, j) == 0 {
        ZeroStays(a, sz, k, j);
      }
    } else if Shifted(a, sz, k) < need {
      GrownExactly(a, sz, need, k + 1);
      if GrownFrom(a, sz, need, k + 1).Some? {
        var j :| FirstShift(a, sz, need, k + 1, j) && GrownFrom(a, sz, need, k + 1).value == Shifted(a, sz, j);
        assert FirstShift(a, sz, need, k, j);
      }
    } else {
      assert FirstShift(a, sz, need, k, k);
    }
  }

  lemma {:induction false} StepsBounds(sz: nat, need: nat)
    requires 0 < sz < need
    ensures var k := Steps(sz, need); k >= 1 && Scaled(sz, k - 1) < need <= Scaled(sz, k)
    decreases need - sz
  {
    if 2 * sz < need {
      StepsBounds(2 * sz, need);
      var k := Steps(2 * sz, need);
      ScaledInside(sz, k);
      ScaledInside(sz, k - 1);
    } else {
      assert Steps(2 * sz, need) == 0;
      assert Scaled(sz, 1) == 2 * Scaled(sz, 0);
    }
  }

  /** Fewer doublings than the register has bits reach any need of at most half the space. */
  lemma StepsFit(a: Arch, sz: nat, need: nat)
    requires 0 < sz < need <= a.Half()
    ensures Steps(sz, need) < a.Bits()
  {
    SpaceIsScaled(a);
    StepsBounds(sz, need);
    var n := Steps(sz, need);
    ScaledMonotone(1, sz, n - 1);
    assert Scaled(1, a.Bits()) == 2 * Scaled(1, a.Bits() - 1);
    if n >= a.Bits() {
      ScaledLonger(1, a.Bits() - 1, n - 1);
    }
  }

  lemma {:induction false} GrownFromSteps(a: Arch, sz: nat, need: nat, k: nat)
    requires 0 < sz < need <= a.Half() && 0 < k <= Steps(sz, need)
    requires forall j :: 0 <= j < k ==> Scaled(sz, j) < need && Shifted(a, sz, j) == Scaled(sz, j)
    ensures Steps(sz, need) < a.Bits()
    ensures GrownFrom(a, sz, need, k) == Some(Scaled(sz, Steps(sz, need)))
    decreases Steps(sz, need) - k
  {
    hide Steps;
    StepsFit(a, sz, need);
    StepsBounds(sz, need);
    var n := Steps(sz, need);
    assert Scaled(sz, k) == 2 * Scaled(sz, k - 1);
    assert Shifted(a, sz, k) == Scaled(sz, k);
    ScaledGrows(sz, k);
    if k < n {
      ScaledLonger(sz, k, n - 1);
      GrownFromSteps(a, sz, need, k + 1);
    }
  }

  lemma ScaledMonotone(x: nat, y: nat, k: nat)
    requires x <= y
    ensures Scaled(x, k) <= Scaled(y, k)
  {
  }

  lemma ScaledLonger(x: nat, j: nat, k: nat)
    requires j <= k
    ensures Scaled(x, j) <= Scaled(x, k)
  {
  }

  /**
   * While the need is at most half the address space the assert never fires, and the loop stops
   * at the least power-of-two multiple of the old size that is large enough.
   */
  lemma {:induction false} GrownIsLeast(a: Arch, sz: nat, need: nat)
    requires 0 < sz < need <= a.Half()
    ensures sz < a.Space()
    ensures var k := Steps(sz, need);
            && k >= 1
            && Grown(a, sz, need) == Some(Scaled(sz, k))
            && Scaled(sz, k - 1) < need <= Scaled(sz, k) < a.Space()
  {
    SpaceIsScaled(a);
    StepsBounds(sz, need);
    GrownFromSteps(a, sz, need, 1);
  }
}
