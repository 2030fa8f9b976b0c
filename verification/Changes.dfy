/** What each step of the machine changes in the state, in the form the calls on objects need. */
module Changes {
  import opened Platform
  import opened Geometry
  import opened Switch
  import opened PrivateStacks
  import opened Refinement
  import opened Lifecycle
  import opened Runs
  import M = Machine

  /** m' has other records than m for coroutine c and stack k only. */
  predicate Only(m: M.State, m': M.State, c: nat, k: nat)
    ensures Only(m, m', c, k) ==> c in m'.cos && k in m'.stks
  {
    && m'.mains == m.mains
    && c in m'.cos && m'.cos == m.cos[c := m'.cos[c]]
    && k in m'.stks && m'.stks == m.stks[k := m'.stks[k]]
  }

  lemma StateSays(m: M.State, c: nat)
    requires M.Inv(m) && c in m.cos
    ensures 0 < m.cos[c].save.cap < m.arch.Space()
    ensures m.cos[c].stk in m.stks
    ensures var owner := m.stks[m.cos[c].stk].owner;
            owner.Some? ==> owner.value in m.cos && m.cos[owner.value].stk == m.cos[c].stk
  {
    assert M.CoInv(m, c) && M.StkInv(m, m.cos[c].stk);
  }

  lemma RoomForCall(m: M.State)
    requires M.Inv(m)
    ensures m.cpu.sp >= m.arch.W()
  {
  }

  lemma ProtFits(m: M.State)
    requires M.Inv(m)
    ensures |m.prot| == m.arch.W()
  {
  }

  // ---------------------------------------------------------------- the parts of aco_resume

  /** What evicting owner o from stack k does to the state. */
  lemma OwnerEvicts(m: M.State, k: nat, o: nat)
    requires M.Inv(m) && m.running == None && k in m.stks
    requires m.stks[k].owner == Some(o) && o in m.cos && m.cos[o].stk == k
    ensures M.Evict(m, k).Ok? <==> M.Saved(m.arch, m.stks[k], m.cos[o]).Ok?
    ensures M.Evict(m, k).Ok? ==>
              var m' := M.Evict(m, k).value;
              && M.Inv(m') && m' == m.(cos := m'.cos, stks := m'.stks)
              && m'.cos == m.cos[o := M.Saved(m.arch, m.stks[k], m.cos[o]).value]
              && m'.stks == m.stks[k := m.stks[k].(owner := None, validSz := 0)]
  {
    hide M.Saved, M.Inv;
    if M.Evict(m, k).Ok? { EvictKeepsInv(m, k); }
  }

  /** What taking a stack nobody owns does to the state. */
  lemma TakerOccupies(m: M.State, c: nat)
    requires M.Inv(m) && CanOccupy(m, c)
    ensures M.Occupy(m, c).Ok? && c in m.cos && m.cos[c].stk in m.stks
    ensures |m.cos[c].save.bytes| + m.arch.W() <= m.stks[m.cos[c].stk].geom.limit
    ensures var m' := M.Occupy(m, c).value;
            var k := m.cos[c].stk;
            && M.Inv(m') && m' == m.(cos := m'.cos, stks := m'.stks) && Only(m, m', c, k)
            && m'.cos[c] == M.Restored(m.cos[c])
            && m'.stks[k] == M.Taken(m.arch, m.stks[k], c, m.cos[c].save.bytes)
            && M.Owns(m', c)
  {
    OccupyNeverAborts(m, c);
    OccupiedLinks(m, c);
    OccupyKeepsInv(m, c);
    hide M.Inv;
  }

  lemma SwitchedIn(m: M.State, c: nat)
    requires M.Inv(m) && CanSwitchIn(m, c)
    ensures m.cpu.sp >= m.arch.W()
    ensures var m' := M.SwitchIn(m, c);
            && M.Inv(m') && m'.cos == m.cos && m'.stks == m.stks && m'.mains == m.mains[m.cos[c].main := m.cpu]
            && m'.arch == m.arch && m'.prot == m.prot && m'.initCw == m.initCw && m'.initMxcsr == m.initMxcsr
            && m'.cpu == m.cos[c].ctx && m'.gtls == M.OfCo(c) && m'.running == Some(c)
  {
    SwitchInCorrect(m, c);
  }

  /** aco_resume, on the machine: what is tested, and what is done where it does not abort. */
  lemma ResumeParts(m: M.State, c: nat)
    requires M.Inv(m) && m.running == None && c in m.cos
    ensures var k := m.cos[c].stk;
            ResumeFails(m, c) <==> m.cos[c].ended || (!M.Owns(m, c) && M.Evict(m, k).Abort?)
    ensures m.cos[c].ended || (!M.Owns(m, c) && M.Evict(m, m.cos[c].stk).Abort?) ==> M.Resumed(m, c).Abort?
    ensures !m.cos[c].ended && M.Owns(m, c) ==> CanSwitchIn(m, c) && M.Resumed(m, c) == M.Ok(M.SwitchIn(m, c))
    ensures !m.cos[c].ended && !M.Owns(m, c) && M.Evict(m, m.cos[c].stk).Ok? ==>
              var m1 := M.Evict(m, m.cos[c].stk).value;
              && M.Linked(m1) && CanOccupy(m1, c)
              && (M.Occupy(m1, c).Ok? ==> M.Resumed(m, c) == M.Ok(M.SwitchIn(M.Occupy(m1, c).value, c)))
  {
    var k := m.cos[c].stk;
    EvictAborts(m, k);
    if M.Evict(m, k).Ok? { M.EvictedLinks(m, k); }
    hide M.SwitchIn, M.Occupy, M.Evict, M.Inv, Unsavable;
  }

  lemma ResumeIs(m: M.State, c: nat)
    requires M.Linked(m) && Legal(Abs(m), M.Resume(c))
    ensures m.running == None && c in m.cos && Step(m, M.Resume(c)) == M.Resumed(m, c)
  {
  }

  // ---------------------------------------------------------------- aco_yield and aco_exit

  lemma RunningIs(m: M.State)
    requires M.Linked(m) && m.running.Some?
    ensures Legal(Abs(m), M.Yield) && Step(m, M.Yield) == M.Ok(M.SwitchOut(m, m.running.value))
    ensures Legal(Abs(m), M.Exit) && Step(m, M.Exit) == Exited(m, m.running.value)
  {
  }

  lemma SwitchedOutOnly(m: M.State, c: nat)
    requires M.Linked(m) && c in m.cos
    ensures var m' := M.SwitchOut(m, c);
            && m' == m.(cos := m'.cos, cpu := m'.cpu, running := None, gtls := m'.gtls)
            && Only(m, m', c, m.cos[c].stk) && m'.cos[c] == m.cos[c].(ctx := m.cpu)
            && m'.stks[m.cos[c].stk] == m.stks[m.cos[c].stk]
            && m'.cpu == m.mains[m.cos[c].main] && m'.gtls == M.OfMain(m.cos[c].main)
  {
  }

  lemma YieldedRecords(m: M.State, c: nat)
    requires M.Inv(m) && m.running == Some(c)
    ensures var m' := M.SwitchOut(m, c);
            && M.Inv(m') && m' == m.(cos := m'.cos, cpu := m'.cpu, running := None, gtls := m'.gtls)
            && Only(m, m', c, m.cos[c].stk) && m'.cos[c] == m.cos[c].(ctx := m.cpu)
            && m'.stks[m.cos[c].stk] == m.stks[m.cos[c].stk]
            && m'.cpu == m.mains[m.cos[c].main] && m'.gtls == M.OfMain(m.cos[c].main)
  {
    hide M.Inv, M.SwitchOut, Only;
    YieldRefines(m, c);
    SwitchedOutOnly(m, c);
  }

  lemma ExitedOnly(m: M.State, c: nat)
    requires M.Linked(m) && m.running == Some(c) && Exited(m, c).Ok?
    ensures var m' := Exited(m, c).value;
            && m' == m.(cos := m'.cos, stks := m'.stks, cpu := m'.cpu, running := None, gtls := m'.gtls)
            && Only(m, m', c, m.cos[c].stk) && m'.cos[c] == m.cos[c].(ended := true, ctx := m.cpu)
            && m'.stks[m.cos[c].stk] == m.stks[m.cos[c].stk].(owner := None, validSz := 0)
            && m'.cpu == m.mains[m.cos[c].main] && m'.gtls == M.OfMain(m.cos[c].main)
  {
  }

  lemma ExitedRecords(m: M.State, c: nat)
    requires M.Inv(m) && m.running == Some(c)
    ensures Exited(m, c).Ok? && M.Linked(m) && m.stks[m.cos[c].stk].owner == Some(c)
    ensures var m' := Exited(m, c).value;
            && M.Inv(m') && m' == m.(cos := m'.cos, stks := m'.stks, cpu := m'.cpu, running := None, gtls := m'.gtls)
            && Only(m, m', c, m.cos[c].stk) && m'.cos[c] == m.cos[c].(ended := true, ctx := m.cpu)
            && m'.stks[m.cos[c].stk] == m.stks[m.cos[c].stk].(owner := None, validSz := 0)
            && m'.cpu == m.mains[m.cos[c].main] && m'.gtls == M.OfMain(m.cos[c].main)
  {
    hide M.Inv, M.SwitchOut, Only;
    ExitRefines(m, c);
    ExitedOnly(m, c);
  }

  // ---------------------------------------------------------------- creating and freeing

  lemma CreatedIs(m: M.State, l: M.Label)
    requires M.Inv(m) && Legal(Abs(m), l) && l.Create?
    ensures l.c !in m.cos && l.stk in m.stks && Step(m, l).Ok?
    ensures var ret := m.stks[l.stk].geom.ret;
            var rec := M.FirstRec(m.arch, l.main, l.stk, ret, m.initCw, m.initMxcsr, l.saveSz, l.fp, l.arg);
            Step(m, l) == M.Ok(Created(m, l.c, rec)) && M.Inv(Created(m, l.c, rec))
  {
    StepRefines(m, l);
    hide M.Inv, PStep;
  }

  lemma NewMainIs(m: M.State, i: nat)
    requires M.Inv(m) && Legal(Abs(m), M.NewMain(i))
    ensures i !in m.mains && Step(m, M.NewMain(i)).Ok?
    ensures M.Inv(Step(m, M.NewMain(i)).value)
  {
    StepRefines(m, M.NewMain(i));
    hide M.Inv, PStep;
  }

  lemma NewStackIs(m: M.State, l: M.Label)
    requires M.Inv(m) && l.NewStack? && l.k !in m.stks && l.req < m.arch.Space() && l.pg < m.arch.Half()
    requires StackBytes(m.arch, l.req, l.guard, l.pg).Some? ==>
               && l.base + StackBytes(m.arch, l.req, l.guard, l.pg).value <= m.arch.Space()
               && StackGeom(m.arch, l.req, l.guard, l.pg, l.base).Some?
               && |l.fill| == StackGeom(m.arch, l.req, l.guard, l.pg, l.base).value.sz
    ensures Legal(Abs(m), l)
    ensures Step(m, l).Ok? <==> StackBytes(m.arch, l.req, l.guard, l.pg).Some?
    ensures Step(m, l).Ok? ==>
              var g := StackGeom(m.arch, l.req, l.guard, l.pg, l.base);
              g.Some? && Step(m, l) == M.Ok(StackAdded(m, l.k, M.NewStk(g.value, m.prot, l.fill)))
    ensures Step(m, l).Ok? ==> M.Inv(Step(m, l).value)
  {
    StepRefines(m, l);
    hide M.Inv, PStep;
  }

  lemma DestroyedOnly(m: M.State, i: nat)
    requires M.Linked(m) && i in m.cos
    ensures var m' := M.Destroyed(m, i);
            var k := m.cos[i].stk;
            && m' == m.(cos := m.cos - {i}, stks := m'.stks) && k in m'.stks && m'.stks == m.stks[k := m'.stks[k]]
            && m'.stks[k] == if m.stks[k].owner == Some(i) then m.stks[k].(owner := None, validSz := 0) else m.stks[k]
  {
  }

  lemma OwnsOnlyItsOwn(m: M.State, i: nat)
    requires M.Inv(m) && i in m.cos
    ensures forall j | j in m.stks && j != m.cos[i].stk :: m.stks[j].owner != Some(i)
  {
    forall j | j in m.stks && j != m.cos[i].stk ensures m.stks[j].owner != Some(i) {
      assert M.StkInv(m, j);
    }
  }

  lemma DestroyIs(m: M.State, i: nat)
    requires M.Linked(m) && Legal(Abs(m), M.Destroy(i))
    ensures i in m.cos && m.running != Some(i) && Step(m, M.Destroy(i)) == M.Ok(M.Destroyed(m, i))
  {
  }

  lemma DestroyedRecords(m: M.State, i: nat)
    requires M.Inv(m) && Legal(Abs(m), M.Destroy(i))
    ensures i in m.cos && m.running != Some(i) && Step(m, M.Destroy(i)) == M.Ok(M.Destroyed(m, i))
    ensures var m' := M.Destroyed(m, i);
            var k := m.cos[i].stk;
            && M.Inv(m') && m' == m.(cos := m.cos - {i}, stks := m'.stks)
            && k in m'.stks && m'.stks == m.stks[k := m'.stks[k]]
            && m'.stks[k] == (if m.stks[k].owner == Some(i) then m.stks[k].(owner := None, validSz := 0) else m.stks[k])
            && forall j | j in m.stks && j != k :: m.stks[j].owner != Some(i)
  {
    hide M.Inv, M.Destroyed, PStep, Legal, Abs, Step;
    DestroyIs(m, i);
    DestroyRefines(m, i);
    OwnsOnlyItsOwn(m, i);
    DestroyedOnly(m, i);
  }

  // ---------------------------------------------------------------- what happens between the calls

  lemma ThreadInitIs(m: M.State)
    requires M.Inv(m)
    ensures Legal(Abs(m), M.ThreadInit)
    ensures Step(m, M.ThreadInit) == M.Ok(m.(initCw := m.cpu.cw, initMxcsr := m.cpu.mxcsr))
    ensures M.Inv(Step(m, M.ThreadInit).value)
  {
    StepRefines(m, M.ThreadInit);
  }

  lemma ComputeIs(m: M.State, at: Ctx)
    requires M.Inv(m) && Legal(Abs(m), M.Compute(at))
    ensures CtxOk(m.arch, at) && Step(m, M.Compute(at)) == M.Ok(m.(cpu := at)) && M.Inv(m.(cpu := at))
  {
    StepRefines(m, M.Compute(at));
  }

  lemma RanOnly(m: M.State, to: Ctx, low: seq<Byte>)
    requires M.Linked(m) && BodyLegal(m, to, low)
    ensures var i := m.running.value;
            var k := m.cos[i].stk;
            var m' := M.BodyRan(m, to, low);
            && m' == m.(stks := m'.stks, cpu := to) && Only(m, m', i, k) && m'.cos[i] == m.cos[i]
            && m'.stks[k] == m.stks[k].(mem := m'.stks[k].mem)
            && (|low| <= |m.stks[k].mem| ==> m'.stks[k].mem == low + m.stks[k].mem[|low|..])
  {
  }

  lemma BodyFits(m: M.State, to: Ctx, low: seq<Byte>)
    requires M.Inv(m) && BodyLegal(m, to, low)
    ensures CtxOk(m.arch, to) && |low| <= |m.stks[m.cos[m.running.value].stk].mem|
  {
    assert M.StkInv(m, m.cos[m.running.value].stk);
  }

  lemma RanRecords(m: M.State, to: Ctx, low: seq<Byte>)
    requires M.Inv(m) && Legal(Abs(m), M.Body(to, low))
    ensures m.running.Some? && CtxOk(m.arch, to) && Step(m, M.Body(to, low)) == M.Ok(M.BodyRan(m, to, low))
    ensures var i := m.running.value;
            var k := m.cos[i].stk;
            var m' := M.BodyRan(m, to, low);
            && M.Inv(m') && m' == m.(stks := m'.stks, cpu := to) && Only(m, m', i, k) && m'.cos[i] == m.cos[i]
            && |low| <= |m.stks[k].mem|
            && m'.stks[k] == m.stks[k].(mem := low + m.stks[k].mem[|low|..])
  {
    hide M.Inv, Only, M.BodyRan, BodyLegal;
    BodyLegalHere(m, to, low);
    BodyRefines(m, to, low);
    BodyFits(m, to, low);
    RanOnly(m, to, low);
  }

  // ---------------------------------------------------------------- runs

  lemma RunThen(m: M.State, ls: seq<M.Label>)
    requires M.Inv(m) && ls != [] && Legal(Abs(m), ls[0])
    ensures match Step(m, ls[0])
            case Abort => Run(m, ls).Aborted?
            case Ok(m') => M.Inv(m') && Run(m, ls) == Run(m', ls[1..])
  {
    StepRefines(m, ls[0]);
  }

  /** Whether a new stack can be had does not depend on where it is put. */
  lemma SameFate(m: M.State, l: M.Label, l': M.Label)
    requires M.Inv(m) && l.NewStack? && l'.NewStack? && Legal(Abs(m), l) && Legal(Abs(m), l')
    requires l.req == l'.req && l.guard == l'.guard && l.pg == l'.pg
    ensures Step(m, l).Ok? <==> Step(m, l').Ok?
  {
    hide M.Inv, Step, Legal, Abs, StackBytes;
    NewStackStep(m, l);
    NewStackStep(m, l');
  }
}
