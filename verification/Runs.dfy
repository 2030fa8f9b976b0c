/** Whole runs of the shared-stack machine, and what they guarantee. */
module Runs {
  import opened Platform
  import opened Geometry
  import opened Switch
  import opened Machine
  import opened PrivateStacks
  import opened Refinement
  import opened Lifecycle

  /** One step of the shared-stack machine. */
  function Step(m: State, l: Label): Result<State>
    requires Linked(m) && Legal(Abs(m), l)
  {
    match l
    case ThreadInit => Ok(m.(initCw := m.cpu.cw, initMxcsr := m.cpu.mxcsr))
    case NewMain(i) => Ok(m.(mains := m.mains[i := FirstCtx(m.arch, 0, 0, 0, 0)]))
    case NewStack(k, req, guard, pg, base, fill) =>
      (match StackGeom(m.arch, req, guard, pg, base)
       case None => Abort
       case Some(g) => Ok(StackAdded(m, k, NewStk(g, m.prot, fill))))
    case Create(c, main, k, saveSz, fp, arg) => Ok(Created(m, c, NewCo(m, main, k, saveSz, fp, arg)))
    case Compute(to) => Ok(m.(cpu := to))
    case Resume(c) => Resumed(m, c)
    case Body(to, low) => Ok(BodyRan(m, to, low))
    case Yield => Ok(SwitchOut(m, m.running.value))
    case Exit => Exited(m, m.running.value)
    case Destroy(c) => Ok(Destroyed(m, c))
    case FreeStack(k) => Ok(StackFreed(m, k))
    case FreeMain(i) => Ok(m.(mains := m.mains - {i}))
  }

  /** The only two calls that can abort the program, and exactly when they do. */
  predicate Aborts(m: State, l: Label)
    requires Linked(m) && Legal(Abs(m), l)
  {
    match l
    case NewStack(_, req, guard, pg, _, _) => StackBytes(m.arch, req, guard, pg) == None
    case Resume(c) => ResumeFails(m, c)
    case _ => false
  }

  /** A step aborts exactly when Aborts, keeps the invariant, and is the private machine's step seen through Abs. */
  predicate StepOk(m: State, l: Label)
    requires Linked(m) && Legal(Abs(m), l)
  {
    && (Step(m, l).Abort? <==> Aborts(m, l))
    && (Step(m, l).Ok? ==> Inv(Step(m, l).value) && PStep(Abs(m), l) == Ok(Abs(Step(m, l).value)))
  }

  lemma OutsideStep(m: State, l: Label)
    requires Inv(m) && Legal(Abs(m), l) && (l.ThreadInit? || l.Compute?)
    ensures StepOk(m, l)
  {
    OutsideRefines(m, Step(m, l).value);
  }

  lemma RunWithMains(m: State, mains: map<nat, Ctx>)
    requires Linked(m) && RunInv(m)
    requires forall i | i in mains :: CtxOk(m.arch, mains[i])
    requires forall c | c in m.cos :: m.cos[c].main in mains && mains[m.cos[c].main] == m.mains[m.cos[c].main]
    ensures Linked(m.(mains := mains)) && RunInv(m.(mains := mains))
  {
  }

  lemma MainsRefine(m: State, mains: map<nat, Ctx>)
    requires Inv(m)
    requires forall i | i in mains :: CtxOk(m.arch, mains[i])
    requires forall c | c in m.cos :: m.cos[c].main in mains && mains[m.cos[c].main] == m.mains[m.cos[c].main]
    ensures var m' := m.(mains := mains); Inv(m') && Abs(m') == Abs(m).(mains := mains)
  {
    RunWithMains(m, mains);
    OutsideRefines(m, m.(mains := mains));
  }

  lemma NewMainStep(m: State, i: nat)
    requires Inv(m) && Legal(Abs(m), NewMain(i))
    ensures StepOk(m, NewMain(i))
  {
    MainsRefine(m, m.mains[i := FirstCtx(m.arch, 0, 0, 0, 0)]);
  }

  lemma MainUnused(m: State, i: nat)
    requires Inv(m) && Legal(Abs(m), FreeMain(i))
    ensures forall j | j in m.mains :: CtxOk(m.arch, m.mains[j])
    ensures forall c | c in m.cos :: m.cos[c].main in m.mains && m.cos[c].main != i
  {
    hide CoInv, StkInv;
    forall c | c in m.cos ensures m.cos[c].main != i {
      assert Abs(m).cos[c].main == m.cos[c].main;
    }
  }

  lemma FreeMainStep(m: State, i: nat)
    requires Inv(m) && Legal(Abs(m), FreeMain(i))
    ensures StepOk(m, FreeMain(i))
  {
    hide Inv;
    MainUnused(m, i);
    MainsRefine(m, m.mains - {i});
  }

  lemma NewStackStep(m: State, l: Label)
    requires Inv(m) && l.NewStack? && Legal(Abs(m), l)
    ensures StepOk(m, l)
  {
    if StackBytes(m.arch, l.req, l.guard, l.pg).Some? {
      StackGeomOk(m.arch, l.req, l.guard, l.pg, l.base);
      var g := StackGeom(m.arch, l.req, l.guard, l.pg, l.base).value;
      NewStkOk(m.arch, m.prot, g, l.fill);
      NewStackKeepsInv(m, l.k, NewStk(g, m.prot, l.fill));
      NewStackAbs(m, l.k, NewStk(g, m.prot, l.fill));
    }
  }

  lemma CreateStep(m: State, l: Label)
    requires Inv(m) && l.Create? && Legal(Abs(m), l)
    ensures StepOk(m, l)
  {
    var co := NewCo(m, l.main, l.stk, l.saveSz, l.fp, l.arg);
    assert StkInv(m, l.stk);
    NewCoOk(m, l.main, l.stk, l.saveSz, l.fp, l.arg);
    CreateKeepsInv(m, l.c, co);
    CreateAbs(m, l.c, co);
  }

  lemma BodyLegalHere(m: State, to: Ctx, low: seq<Byte>)
    requires Linked(m) && Legal(Abs(m), Body(to, low))
    ensures BodyLegal(m, to, low)
    ensures var g := m.stks[m.cos[m.running.value].stk].geom;
            PStep(Abs(m), Body(to, low)) == Ok(PBody(Abs(m), to, low[to.sp - g.ptr..]))
  {
    assert Abs(m).cos[m.running.value].stk == m.cos[m.running.value].stk;
  }

  lemma BodyStep(m: State, to: Ctx, low: seq<Byte>)
    requires Inv(m) && Legal(Abs(m), Body(to, low))
    ensures StepOk(m, Body(to, low))
  {
    hide Legal, PStep, PBody, BodyRan, Abs, Inv;
    BodyLegalHere(m, to, low);
    BodyRefines(m, to, low);
  }

  lemma SwitchStep(m: State, l: Label)
    requires Inv(m) && (l.Resume? || l.Yield? || l.Exit?) && Legal(Abs(m), l)
    ensures StepOk(m, l)
  {
    if l.Resume? {
      ResumeRefines(m, l.co);
    } else if l.Yield? {
      YieldRefines(m, m.running.value);
    } else {
      ExitRefines(m, m.running.value);
    }
  }

  lemma FreeStep(m: State, l: Label)
    requires Inv(m) && (l.Destroy? || l.FreeStack?) && Legal(Abs(m), l)
    ensures StepOk(m, l)
  {
    hide Inv, Destroyed, StackFreed;
    if l.Destroy? {
      DestroyRefines(m, l.gone);
    } else {
      forall c | c in m.cos ensures m.cos[c].stk != l.freed {
        assert Abs(m).cos[c].stk == m.cos[c].stk;
      }
      FreeStackKeepsInv(m, l.freed);
      FreeStackAbs(m, l.freed);
    }
  }

  lemma StepRefines(m: State, l: Label)
    requires Inv(m) && Legal(Abs(m), l)
    ensures StepOk(m, l)
  {
    hide StepOk;
    match l {
      case NewStack(_, _, _, _, _, _) => NewStackStep(m, l);
      case Create(_, _, _, _, _, _) => CreateStep(m, l);
      case Body(to, low) => BodyStep(m, to, low);
      case Resume(_) => SwitchStep(m, l);
      case Yield => SwitchStep(m, l);
      case Exit => SwitchStep(m, l);
      case Destroy(_) => FreeStep(m, l);
      case FreeStack(_) => FreeStep(m, l);
      case NewMain(i) => NewMainStep(m, i);
      case FreeMain(i) => FreeMainStep(m, i);
      case _ => OutsideStep(m, l);
    }
  }

  // ---------------------------------------------------------------- runs

  /** How a sequence of events ends: all done, an abort, or an event the contract forbids. */
  datatype Outcome<T> = Done(state: T) | Aborted | Illegal

  function Run(m: State, ls: seq<Label>): (r: Outcome<State>)
    requires Inv(m)
    ensures r.Done? ==> Inv(r.state)
    decreases |ls|
  {
    if ls == [] then Done(m)
    else if !Legal(Abs(m), ls[0]) then Illegal
    else
      StepRefines(m, ls[0]);
      match Step(m, ls[0])
      case Abort => Aborted
      case Ok(m') => Run(m', ls[1..])
  }

  function PRun(p: PState, ls: seq<Label>): (r: Outcome<PState>)
    requires PLinked(p)
    ensures r.Done? ==> PLinked(r.state)
    decreases |ls|
  {
    if ls == [] then Done(p)
    else if !Legal(p, ls[0]) then Illegal
    else
      PStepLinked(p, ls[0]);
      match PStep(p, ls[0])
      case Abort => Aborted
      case Ok(p') => PRun(p', ls[1..])
  }

  /**
   * Refinement: as long as the shared-stack machine does not abort, it goes exactly where the
   * private-stack machine goes, over every run.
   */
  lemma {:induction false} RunsAgree(m: State, ls: seq<Label>)
    requires Inv(m)
    ensures Run(m, ls).Done? ==> PRun(Abs(m), ls) == Done(Abs(Run(m, ls).state))
    ensures Run(m, ls).Illegal? ==> PRun(Abs(m), ls).Illegal?
    decreases |ls|
  {
    if ls != [] && Legal(Abs(m), ls[0]) {
      StepRefines(m, ls[0]);
      if Step(m, ls[0]).Ok? {
        RunsAgree(Step(m, ls[0]).value, ls[1..]);
      }
    }
  }
}
