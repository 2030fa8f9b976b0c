/**
 * The simple machine the library promises: every coroutine has a stack of its own that nobody else
 * touches. There is no owner, no copying and no save buffer, and a switch moves no memory.
 */
module PrivateStacks {
  import opened Platform
  import opened Geometry
  import opened Switch
  import opened Machine

  /** `live` is the private stack from the stack pointer up to the return slot. */
  datatype PCo = PCo(main: nat, stk: nat, arg: Word, ended: bool, ctx: Ctx, live: seq<Byte>)

  datatype PState = PState(
    arch: Arch, initCw: U16, initMxcsr: U32,
    mains: map<nat, Ctx>, cos: map<nat, PCo>, geoms: map<nat, Geom>,
    running: Option<nat>, gtls: Gtls, cpu: Ctx)

  predicate PLinked(p: PState) {
    && (forall c | c in p.cos :: p.cos[c].stk in p.geoms && p.cos[c].main in p.mains)
    && (p.running.Some? ==> p.running.value in p.cos)
  }

  /**
   * What the callers of the library and the coroutine bodies owe it: names are fresh or live as the call
   * needs, only main code resumes, a running coroutine is not destroyed, and a body keeps its stack
   * pointer inside its stack (with room for a return address) and writes only below the return slot.
   */
  predicate Legal(p: PState, l: Label)
    requires PLinked(p)
  {
    match l
    case ThreadInit => true
    case NewMain(i) => i !in p.mains && i !in p.cos
    case NewStack(k, req, guard, pg, base, fill) =>
      && k !in p.geoms && req < p.arch.Space() && pg < p.arch.Half()
      && var bytes := StackBytes(p.arch, req, guard, pg);
         bytes.Some? ==>
           && base + bytes.value <= p.arch.Space()
           && |fill| == StackGeom(p.arch, req, guard, pg, base).value.sz
    case Create(c, main, k, saveSz, _, _) =>
      c !in p.cos && c !in p.mains && main in p.mains && k in p.geoms && saveSz < p.arch.Space()
    case Compute(to) => p.running == None && CtxOk(p.arch, to) && to.sp >= p.arch.W()
    case Resume(c) => p.running == None && c in p.cos
    case Body(to, low) =>
      && p.running.Some?
      && CtxOk(p.arch, to)
      && var g := p.geoms[p.cos[p.running.value].stk];
         SpOk(p.arch, g, to.sp) && |low| == g.ret - g.ptr
    case Yield => p.running.Some?
    case Exit => p.running.Some?
    case Destroy(c) => c in p.cos && p.running != Some(c)
    case FreeStack(k) => k in p.geoms && forall c | c in p.cos :: p.cos[c].stk != k
    case FreeMain(i) => i in p.mains && forall c | c in p.cos :: p.cos[c].main != i
  }

  function PSwitchIn(p: PState, c: nat): PState
    requires PLinked(p) && c in p.cos
  {
    p.(mains := p.mains[p.cos[c].main := p.cpu], cpu := p.cos[c].ctx, running := Some(c), gtls := OfCo(c))
  }

  function PSwitchOut(p: PState, ended: bool): PState
    requires PLinked(p) && p.running.Some?
  {
    var c := p.running.value;
    var co := p.cos[c];
    p.(cos := p.cos[c := co.(ctx := p.cpu, ended := ended, live := if ended then [] else co.live)],
       cpu := p.mains[co.main], running := None, gtls := OfMain(co.main))
  }

  function PBody(p: PState, to: Ctx, live: seq<Byte>): PState
    requires PLinked(p) && p.running.Some?
  {
    var c := p.running.value;
    p.(cos := p.cos[c := p.cos[c].(live := live)], cpu := to)
  }

  function PStep(p: PState, l: Label): Result<PState>
    requires PLinked(p) && Legal(p, l)
  {
    match l
    case ThreadInit => Ok(p.(initCw := p.cpu.cw, initMxcsr := p.cpu.mxcsr))
    case NewMain(i) => Ok(p.(mains := p.mains[i := FirstCtx(p.arch, 0, 0, 0, 0)]))
    case NewStack(k, req, guard, pg, base, _) =>
      (match StackGeom(p.arch, req, guard, pg, base)
       case None => Abort
       case Some(g) => Ok(p.(geoms := p.geoms[k := g])))
    case Create(c, main, k, _, fp, arg) =>
      var first := FirstCtx(p.arch, fp, p.geoms[k].ret, p.initCw, p.initMxcsr);
      Ok(p.(cos := p.cos[c := PCo(main, k, arg, false, first, [])]))
    case Compute(to) => Ok(p.(cpu := to))
    case Resume(c) =>
      if p.cos[c].ended then Abort
      else Ok(PSwitchIn(p, c))
    case Body(to, low) =>
      var c := p.running.value;
      var g := p.geoms[p.cos[c].stk];
      Ok(PBody(p, to, low[to.sp - g.ptr..]))
    case Yield => Ok(PSwitchOut(p, false))
    case Exit => Ok(PSwitchOut(p, true))
    case Destroy(c) => Ok(p.(cos := p.cos - {c}))
    case FreeStack(k) => Ok(p.(geoms := p.geoms - {k}))
    case FreeMain(i) => Ok(p.(mains := p.mains - {i}))
  }

  lemma PStepLinked(p: PState, l: Label)
    requires PLinked(p) && Legal(p, l)
    ensures PStep(p, l).Ok? ==> PLinked(PStep(p, l).value)
  {
  }
}
