/** The steps that do not switch: running code, creating and freeing. Each keeps the invariant and commutes with Abs. */
module Lifecycle {
  import opened Platform
  import opened Geometry
  import opened Switch
  import opened Machine
  import opened PrivateStacks
  import opened Refinement

  // ---------------------------------------------------------------- a coroutine body

  predicate BodyLegal(m: State, to: Ctx, low: seq<Byte>)
    requires Linked(m)
  {
    && m.running.Some?
    && CtxOk(m.arch, to)
    && var g := m.stks[m.cos[m.running.value].stk].geom;
       SpOk(m.arch, g, to.sp) && |low| == g.ret - g.ptr
  }

  lemma BodyRanStk(m: State, to: Ctx, low: seq<Byte>, j: nat)
    requires Linked(m) && BodyLegal(m, to, low) && j in m.stks && StkInv(m, j)
    requires Linked(BodyRan(m, to, low))
    ensures StkInv(BodyRan(m, to, low), j) && BodyRan(m, to, low).stks[j].geom == m.stks[j].geom
  {
    BodyKeepsTop(m, to, low, j);
  }

  lemma BodyKeepsTop(m: State, to: Ctx, low: seq<Byte>, j: nat)
    requires Linked(m) && BodyLegal(m, to, low) && j in m.stks
    ensures Top(BodyRan(m, to, low).stks[j]) == Top(m.stks[j])
    ensures BodyRan(m, to, low).stks[j].geom == m.stks[j].geom
  {
    assert Top(BodyRan(m, to, low).stks[j]) == Top(m.stks[j]);
  }

  lemma BodyRanCo(m: State, to: Ctx, low: seq<Byte>, d: nat)
    requires Linked(m) && BodyLegal(m, to, low) && d in m.cos && CoInv(m, d) && CoInv(m, m.running.value)
    requires StkInv(m, m.cos[m.running.value].stk) && Linked(BodyRan(m, to, low))
    ensures var m' := BodyRan(m, to, low);
            var g := m.stks[m.cos[m.running.value].stk].geom;
            && CoInv(m', d)
            && AbsCo(m', d) == if m.running == Some(d) then AbsCo(m, d).(live := low[to.sp - g.ptr..]) else AbsCo(m, d)
  {
  }

  lemma BodyRefines(m: State, to: Ctx, low: seq<Byte>)
    requires Inv(m) && BodyLegal(m, to, low)
    ensures Inv(BodyRan(m, to, low))
    ensures Abs(BodyRan(m, to, low)) ==
            PBody(Abs(m), to, low[to.sp - m.stks[m.cos[m.running.value].stk].geom.ptr..])
  {
    var m' := BodyRan(m, to, low);
    assert Linked(m');
    forall d | d in m'.cos ensures CoInv(m', d) {
      BodyRanCo(m, to, low, d);
    }
    forall j | j in m'.stks ensures StkInv(m', j) {
      BodyRanStk(m, to, low, j);
    }
    BodyKeepsAbs(m, to, low);
  }

  lemma BodyKeepsAbs(m: State, to: Ctx, low: seq<Byte>)
    requires Inv(m) && BodyLegal(m, to, low) && Linked(BodyRan(m, to, low))
    ensures Abs(BodyRan(m, to, low)) ==
            PBody(Abs(m), to, low[to.sp - m.stks[m.cos[m.running.value].stk].geom.ptr..])
  {
    var m' := BodyRan(m, to, low);
    var live := low[to.sp - m.stks[m.cos[m.running.value].stk].geom.ptr..];
    forall d | d in m.cos
      ensures AbsCo(m', d) == if m.running == Some(d) then AbsCo(m, d).(live := live) else AbsCo(m, d)
    {
      BodyRanCo(m, to, low, d);
    }
    BodyAbs(m, to, low, live);
  }

  lemma BodyRanWhere(m: State, to: Ctx, low: seq<Byte>)
    requires Linked(m) && m.running.Some?
    ensures var m' := BodyRan(m, to, low);
            && m' == m.(stks := m'.stks, cpu := to) && m'.stks.Keys == m.stks.Keys
            && forall j | j in m.stks :: m'.stks[j].geom == m.stks[j].geom
  {
  }

  lemma BodyAbs(m: State, to: Ctx, low: seq<Byte>, live: seq<Byte>)
    requires Linked(m) && m.running.Some? && Linked(BodyRan(m, to, low))
    requires forall d | d in m.cos ::
               AbsCo(BodyRan(m, to, low), d) ==
               if m.running == Some(d) then AbsCo(m, d).(live := live) else AbsCo(m, d)
    ensures Abs(BodyRan(m, to, low)) == PBody(Abs(m), to, live)
  {
    hide Live, Owns, BodyRan;
    BodyRanWhere(m, to, low);
    AbsIs(BodyRan(m, to, low), PBody(Abs(m), to, live));
  }

  // ---------------------------------------------------------------- creating

  lemma NewStkOk(a: Arch, prot: seq<Byte>, g: Geom, fill: seq<Byte>)
    requires GeomOk(a, g) && |fill| == g.sz && |prot| == a.W()
    ensures StkOk(a, prot, NewStk(g, prot, fill))
  {
    assert Top(NewStk(g, prot, fill)) == prot + fill[g.ret - g.ptr + |prot|..];
  }

  function StackAdded(m: State, k: nat, s: Stk): State { m.(stks := m.stks[k := s]) }

  lemma NewStackLinks(m: State, k: nat, s: Stk)
    requires Linked(m) && k !in m.stks && s.owner == None
    ensures Linked(StackAdded(m, k, s))
    ensures RunInv(m) ==> RunInv(StackAdded(m, k, s))
  {
  }

  lemma NewStackKeepsInv(m: State, k: nat, s: Stk)
    requires Inv(m) && k !in m.stks && StkOk(m.arch, m.prot, s) && s.owner == None
    ensures Inv(StackAdded(m, k, s))
  {
    NewStackLinks(m, k, s);
    var m' := StackAdded(m, k, s);
    forall d | d in m'.cos ensures CoInv(m', d) {
      assert CoInv(m, d);
    }
    forall j | j in m'.stks && j != k ensures StkInv(m', j) {
      assert StkInv(m, j);
    }
    assert StkInv(m', k);
  }

  lemma NewStackAbs(m: State, k: nat, s: Stk)
    requires Linked(m) && k !in m.stks && s.owner == None && Linked(StackAdded(m, k, s))
    ensures Abs(StackAdded(m, k, s)) == Abs(m).(geoms := Abs(m).geoms[k := s.geom])
  {
    forall d | d in m.cos ensures AbsCo(StackAdded(m, k, s), d) == AbsCo(m, d) {
    }
    hide AbsCo;
    AbsIs(StackAdded(m, k, s), Abs(m).(geoms := Abs(m).geoms[k := s.geom]));
  }

  lemma NewCoOk(m: State, main: nat, k: nat, saveSz: nat, fp: Word, arg: Word)
    requires k in m.stks && GeomOk(m.arch, m.stks[k].geom) && saveSz < m.arch.Space()
    ensures CoOk(m.arch, m.stks[k].geom, NewCo(m, main, k, saveSz, fp, arg), false, false)
  {
  }

  function Created(m: State, c: nat, co: Co): State { m.(cos := m.cos[c := co]) }

  function PCreated(p: PState, c: nat, co: Co): PState {
    p.(cos := p.cos[c := PCo(co.main, co.stk, co.arg, false, co.ctx, co.save.bytes)])
  }

  lemma CreatedCo(m: State, c: nat, co: Co, d: nat)
    requires Linked(m) && c !in m.cos && co.stk in m.stks && Linked(Created(m, c, co)) && d in m.cos
    ensures AbsCo(Created(m, c, co), d) == AbsCo(m, d)
    ensures CoInv(m, d) ==> CoInv(Created(m, c, co), d)
  {
  }

  lemma CreatedLinks(m: State, c: nat, co: Co)
    requires Linked(m) && c !in m.cos && co.stk in m.stks && co.main in m.mains
    ensures Linked(Created(m, c, co))
    ensures RunInv(m) ==> RunInv(Created(m, c, co))
    ensures forall j | j in m.stks && StkInv(m, j) :: StkInv(Created(m, c, co), j)
  {
    hide StkOk, CtxOk;
  }

  /** Nobody's stack belongs to a coroutine that is only now being made. */
  lemma CreatedNew(m: State, c: nat, co: Co)
    requires Linked(m) && c !in m.cos && co.stk in m.stks && Linked(Created(m, c, co))
    requires CoOk(m.arch, m.stks[co.stk].geom, co, false, false)
    ensures CoInv(Created(m, c, co), c)
  {
    hide CoOk;
  }

  lemma CreateKeepsInv(m: State, c: nat, co: Co)
    requires Inv(m) && c !in m.cos && co.stk in m.stks && co.main in m.mains
    requires CoOk(m.arch, m.stks[co.stk].geom, co, false, false)
    ensures Inv(Created(m, c, co))
  {
    hide CoOk, CoInv, StkInv, RunInv;
    CreatedLinks(m, c, co);
    CreatedNew(m, c, co);
    forall d | d in m.cos ensures CoInv(Created(m, c, co), d) {
      CreatedCo(m, c, co, d);
    }
  }

  lemma CreateAbs(m: State, c: nat, co: Co)
    requires Linked(m) && c !in m.cos && co.stk in m.stks && Linked(Created(m, c, co)) && !co.ended
    ensures Abs(Created(m, c, co)) == PCreated(Abs(m), c, co)
  {
    var m' := Created(m, c, co);
    var p := PCreated(Abs(m), c, co);
    forall d | d in m'.cos ensures AbsCo(m', d) == p.cos[d] {
      if d != c { CreatedCo(m, c, co, d); }
    }
    AbsIs(m', p);
  }

  // ---------------------------------------------------------------- freeing

  lemma DestroyedOwner(m: State, c: nat, d: nat)
    requires Linked(m) && c in m.cos && d in m.cos && d != c && Linked(Destroyed(m, c))
    ensures var m' := Destroyed(m, c);
            && m'.cos[d] == m.cos[d] && Owns(m', d) == Owns(m, d)
            && m'.stks[m.cos[d].stk].geom == m.stks[m.cos[d].stk].geom
            && m'.stks[m.cos[d].stk].mem == m.stks[m.cos[d].stk].mem
  {
  }

  lemma DestroyedCo(m: State, c: nat, d: nat)
    requires Linked(m) && c in m.cos && d in m.cos && d != c && Linked(Destroyed(m, c))
    ensures AbsCo(Destroyed(m, c), d) == AbsCo(m, d)
    ensures CoInv(m, d) ==> CoInv(Destroyed(m, c), d)
  {
    DestroyedOwner(m, c, d);
  }

  lemma DestroyedStk(m: State, c: nat, j: nat)
    requires Linked(m) && c in m.cos && j in m.stks && StkInv(m, j) && Linked(Destroyed(m, c))
    ensures StkInv(Destroyed(m, c), j) && Destroyed(m, c).stks[j].geom == m.stks[j].geom
  {
  }

  lemma DestroyedLinks(m: State, c: nat)
    requires Inv(m) && c in m.cos && m.running != Some(c)
    ensures Linked(Destroyed(m, c))
  {
    hide StkOk, CoOk, RunInv;
    forall j | j in m.stks && m.stks[j].owner == Some(c) ensures j == m.cos[c].stk {
      assert StkInv(m, j);
    }
  }

  /** aco_destroy of a suspended, ended or never-started coroutine disturbs no other coroutine's stack. */
  lemma DestroyRefines(m: State, c: nat)
    requires Inv(m) && c in m.cos && m.running != Some(c)
    ensures Inv(Destroyed(m, c))
    ensures Abs(Destroyed(m, c)) == Abs(m).(cos := Abs(m).cos - {c})
  {
    DestroyedLinks(m, c);
    var m' := Destroyed(m, c);
    forall d | d in m'.cos ensures CoInv(m', d) {
      DestroyedCo(m, c, d);
    }
    forall j | j in m'.stks ensures StkInv(m', j) {
      DestroyedStk(m, c, j);
    }
    DestroyAbs(m, c);
  }

  lemma DestroyAbs(m: State, c: nat)
    requires Linked(m) && c in m.cos && m.running != Some(c) && Linked(Destroyed(m, c))
    ensures Abs(Destroyed(m, c)) == Abs(m).(cos := Abs(m).cos - {c})
  {
    var m' := Destroyed(m, c);
    var p := Abs(m).(cos := Abs(m).cos - {c});
    forall d | d in m'.cos ensures AbsCo(m', d) == p.cos[d] {
      DestroyedCo(m, c, d);
    }
    AbsIs(m', p);
  }

  function StackFreed(m: State, k: nat): State { m.(stks := m.stks - {k}) }

  lemma FreeStackKeepsInv(m: State, k: nat)
    requires Inv(m) && k in m.stks && forall c | c in m.cos :: m.cos[c].stk != k
    ensures Inv(StackFreed(m, k))
  {
    hide StkOk, CoOk;
    var m' := StackFreed(m, k);
    forall d | d in m'.cos ensures CoInv(m', d) {
      assert CoInv(m, d);
    }
    forall j | j in m'.stks ensures StkInv(m', j) {
      assert StkInv(m, j);
    }
  }

  lemma FreeStackAbs(m: State, k: nat)
    requires Linked(m) && k in m.stks && Linked(StackFreed(m, k))
    ensures Abs(StackFreed(m, k)) == Abs(m).(geoms := Abs(m).geoms - {k})
  {
    AbsIs(StackFreed(m, k), Abs(m).(geoms := Abs(m).geoms - {k}));
  }

  /** Steps that only touch main contexts, the thread's FPU words or the registers of main code. */
  lemma OutsideRefines(m: State, m': State)
    requires Inv(m) && Linked(m') && RunInv(m')
    requires m'.arch == m.arch && m'.prot == m.prot && m'.cos == m.cos && m'.stks == m.stks && m'.running == m.running
    requires m.running == None || m'.cpu == m.cpu
    ensures Inv(m')
    ensures Abs(m') == Abs(m).(initCw := m'.initCw, initMxcsr := m'.initMxcsr, mains := m'.mains,
                               gtls := m'.gtls, cpu := m'.cpu)
  {
    forall d | d in m'.cos ensures CoInv(m', d) && AbsCo(m', d) == AbsCo(m, d) {
      assert CoInv(m, d);
    }
    forall j | j in m'.stks ensures StkInv(m', j) {
      assert StkInv(m, j);
    }
    AbsIs(m', Abs(m).(initCw := m'.initCw, initMxcsr := m'.initMxcsr, mains := m'.mains,
                      gtls := m'.gtls, cpu := m'.cpu));
  }
}
