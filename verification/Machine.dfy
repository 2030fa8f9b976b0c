/**
 * The shared-stack coroutine machine of libaco as a transition system: many coroutines, several share
 * stacks, one coroutine's bytes on each stack at a time (libsrc/libaco/aco.c:306-492, aco.h:190-221).
 */
module Machine {
  import opened Platform
  import opened Geometry
  import opened Switch
  import SaveBuffer

  /**
   * aco_save_stack_t. `bytes` is the valid part of the buffer (its length is valid_sz) and `cap` is sz.
   * `init` and `grown` are history: the size given at creation and the doublings made since.
   */
  datatype Save = Save(bytes: seq<Byte>, cap: nat, maxCp: nat, ctSave: nat, ctRestore: nat, init: nat, grown: nat)

  /** aco_s of a non-main coroutine; `main` and `stk` name its main coroutine and its share stack. */
  datatype Co = Co(main: nat, stk: nat, fp: Word, arg: Word, ctx: Ctx, ended: bool, save: Save)

  /** aco_share_stack_t with the memory behind it; mem[i] is the byte at address geom.ptr + i. */
  datatype Stk = Stk(geom: Geom, mem: seq<Byte>, validSz: nat, owner: Option<nat>)

  /** aco_gtls_co */
  datatype Gtls = Unset | OfMain(id: nat) | OfCo(id: nat)

  datatype State = State(
    arch: Arch, prot: seq<Byte>,
    initCw: U16, initMxcsr: U32,
    mains: map<nat, Ctx>, cos: map<nat, Co>, stks: map<nat, Stk>,
    running: Option<nat>, gtls: Gtls, cpu: Ctx)

  datatype Result<T> = Ok(value: T) | Abort

  /** One event of a run. Everything the environment and the coroutine bodies choose is in the label. */
  datatype Label =
    | ThreadInit
    | NewMain(i: nat)
    | NewStack(k: nat, req: nat, guard: bool, pg: int, base: nat, fill: seq<Byte>)
    | Create(c: nat, main: nat, stk: nat, saveSz: nat, fp: Word, arg: Word)
    | Compute(at: Ctx)
    | Resume(co: nat)
    | Body(to: Ctx, low: seq<Byte>)
    | Yield
    | Exit
    | Destroy(gone: nat)
    | FreeStack(freed: nat)
    | FreeMain(over: nat)

  /** The bytes of a stack from address sp up to the return slot. */
  function Bytes(s: Stk, sp: nat): seq<Byte> {
    if s.geom.ptr <= sp <= s.geom.ret && s.geom.ret - s.geom.ptr <= |s.mem|
    then s.mem[sp - s.geom.ptr..s.geom.ret - s.geom.ptr] else []
  }

  lemma LiveSize(a: Arch, s: Stk, sp: nat)
    requires GeomOk(a, s.geom) && |s.mem| == s.geom.sz && InWindow(s.geom, sp)
    ensures s.geom.ptr <= sp && |Bytes(s, sp)| == s.geom.ret - sp
  {
  }

  /** The memory of a stack from the return slot up; no coroutine ever writes there. */
  function Top(s: Stk): seq<Byte> {
    if s.geom.ptr <= s.geom.ret && s.geom.ret - s.geom.ptr <= |s.mem| then s.mem[s.geom.ret - s.geom.ptr..] else []
  }

  /** The memory of a stack with `bytes` put just below the return slot. */
  function Placed(s: Stk, bytes: seq<Byte>): seq<Byte> {
    if s.geom.ptr + |bytes| <= s.geom.ret && s.geom.ret - s.geom.ptr <= |s.mem|
    then
      var top := s.geom.ret - s.geom.ptr;
      s.mem[..top - |bytes|] + bytes + s.mem[top..]
    else s.mem
  }

  // ---------------------------------------------------------------- the steps

  /** Lines 388-425 on a save buffer: it doubles if `live` does not fit, then holds exactly `live`. */
  function Filled(a: Arch, v: Save, live: seq<Byte>): Option<Save> {
    var grow := v.cap < |live|;
    var cap := if grow then SaveBuffer.Grown(a, v.cap, |live|) else Some(v.cap);
    if cap == None then None
    else Some(v.(
      bytes := live,
      cap := cap.value,
      maxCp := Max(v.maxCp, |live|),
      ctSave := v.ctSave + (if |live| > 0 then 1 else 0),
      grown := v.grown + (if grow then SaveBuffer.Steps(v.cap, |live|) else 0)))
  }

  /** Lines 373-425: the owner's live bytes go to its private buffer. */
  function Saved(a: Arch, s: Stk, o: Co): (r: Result<Co>)
    ensures r.Ok? ==> r.value == o.(save := r.value.save)
  {
    if !InWindow(s.geom, o.ctx.sp) then Abort
    else
      match Filled(a, o.save, Bytes(s, o.ctx.sp))
      case None => Abort
      case Some(v) => Ok(o.(save := v))
  }

  /** In sizes: the live bytes and a word fit the limit, and the buffer holds them or can be doubled until it does. */
  lemma SavedWhen(a: Arch, s: Stk, o: Co)
    requires GeomOk(a, s.geom) && |s.mem| == s.geom.sz
    ensures var g := s.geom;
            var sp := o.ctx.sp;
            Saved(a, s, o).Ok? <==>
              && sp <= g.ret && g.ret - sp + a.W() <= g.limit
              && (o.save.cap < g.ret - sp ==> SaveBuffer.Grown(a, o.save.cap, g.ret - sp).Some?)
  {
    hide SaveBuffer.Grown, SaveBuffer.Steps;
    WindowIsSize(a, s.geom, o.ctx.sp);
    if InWindow(s.geom, o.ctx.sp) { LiveSize(a, s, o.ctx.sp); }
  }

  /** Lines 369-431. */
  function Evict(m: State, k: nat): Result<State>
    requires Linked(m) && k in m.stks
  {
    var s := m.stks[k];
    if s.owner == None then Ok(m)
    else
      var o := m.cos[s.owner.value];
      if o.stk != k then Abort
      else
        match Saved(m.arch, s, o)
        case Abort => Abort
        case Ok(o') => Ok(m.(cos := m.cos[s.owner.value := o'], stks := m.stks[k := s.(owner := None, validSz := 0)]))
  }

  /** Lines 463-467 on the coroutine's own counters. */
  function Restored(co: Co): Co {
    co.(save := co.save.(
      ctRestore := co.save.ctRestore + (if |co.save.bytes| > 0 then 1 else 0),
      maxCp := Max(co.save.maxCp, |co.save.bytes|)))
  }

  /** A stack once coroutine c has put its bytes back and owns it. */
  function Taken(a: Arch, s: Stk, c: nat, bytes: seq<Byte>): Stk {
    s.(mem := Placed(s, bytes), owner := Some(c), validSz := |bytes| + a.W())
  }

  /** Who owned the stack before makes no difference to what c takes. */
  lemma TakenFromAnyone(a: Arch, s: Stk, s': Stk, c: nat, bytes: seq<Byte>)
    requires s' == s.(owner := s'.owner, validSz := s'.validSz)
    ensures Taken(a, s', c, bytes) == Taken(a, s, c, bytes)
  {
  }

  /** Lines 432-469: c's bytes go back below the return slot and c becomes the owner. */
  function Occupy(m: State, c: nat): Result<State>
    requires c in m.cos && m.cos[c].stk in m.stks
  {
    var co := m.cos[c];
    var s := m.stks[co.stk];
    if s.owner != None || |co.save.bytes| + m.arch.W() > s.geom.limit then Abort
    else Ok(m.(cos := m.cos[c := Restored(co)], stks := m.stks[co.stk := Taken(m.arch, s, c, co.save.bytes)]))
  }

  /** Lines 474-475: acosw from the main coroutine to c. */
  function SwitchIn(m: State, c: nat): State
    requires c in m.cos
  {
    m.(mains := m.mains[m.cos[c].main := m.cpu], cpu := m.cos[c].ctx, running := Some(c), gtls := OfCo(c))
  }

  /** Eviction renames nothing. */
  lemma EvictedLinks(m: State, k: nat)
    requires Linked(m) && k in m.stks && Evict(m, k).Ok?
    ensures var m' := Evict(m, k).value;
            && Linked(m') && m'.cos.Keys == m.cos.Keys && m'.stks.Keys == m.stks.Keys
            && m' == m.(cos := m'.cos, stks := m'.stks) && m'.stks[k].owner == None
            && (forall c | c in m.cos :: m'.cos[c] == m.cos[c].(save := m'.cos[c].save))
            && forall j | j in m.stks :: m'.stks[j].geom == m.stks[j].geom
  {
    if m.stks[k].owner.Some? {
      var c := m.stks[k].owner.value;
      var o := Saved(m.arch, m.stks[k], m.cos[c]).value;
      assert o.stk == m.cos[c].stk && o.main == m.cos[c].main;
    }
  }

  /** aco_resume up to the point where the coroutine runs. */
  function Resumed(m: State, c: nat): Result<State>
    requires Linked(m) && c in m.cos
  {
    var co := m.cos[c];
    if co.ended then Abort
    else if m.stks[co.stk].owner == Some(c) then Ok(SwitchIn(m, c))
    else
      match Evict(m, co.stk)
      case Abort => Abort
      case Ok(m1) =>
        EvictedLinks(m, co.stk);
        match Occupy(m1, c)
        case Abort => Abort
        case Ok(m2) => Ok(SwitchIn(m2, c))
  }

  /** aco_yield1, and line 476 of the aco_resume it returns to. */
  function SwitchOut(m: State, c: nat): State
    requires c in m.cos && m.cos[c].main in m.mains
  {
    m.(cos := m.cos[c := m.cos[c].(ctx := m.cpu)], cpu := m.mains[m.cos[c].main],
       running := None, gtls := OfMain(m.cos[c].main))
  }

  /** The part of aco_exit1 before its yield. */
  function Ended(m: State, c: nat): Result<State>
    requires c in m.cos && m.cos[c].stk in m.stks
  {
    var co := m.cos[c];
    var s := m.stks[co.stk];
    if s.owner != Some(c) then Abort
    else Ok(m.(cos := m.cos[c := co.(ended := true)],
               stks := m.stks[co.stk := s.(owner := None, validSz := 0)]))
  }

  /** What a fresh coroutine starts with: its entry point, the return slot, zeros and the thread's FPU words. */
  function FirstCtx(a: Arch, fp: Word, ret: nat, cw: U16, mxcsr: U32): (c: Ctx)
    ensures CtxOk(a, c)
  {
    Ctx(fp, ret, seq(NumCallee(a), _ => 0), cw, mxcsr)
  }

  /** Entry point, return slot and the thread's FPU words, field by field, and every other register 0. */
  lemma FirstCtxFields(a: Arch, fp: Word, ret: nat, cw: U16, mxcsr: U32)
    ensures var x := FirstCtx(a, fp, ret, cw, mxcsr);
            && x.ip == fp && x.sp == ret && x.cw == cw && x.mxcsr == mxcsr
            && |x.callee| == NumCallee(a) && forall i | 0 <= i < |x.callee| :: x.callee[i] == 0
  {
  }

  /** The record aco_create makes; a requested buffer size of 0 means 64. */
  function FirstRec(a: Arch, main: nat, k: nat, ret: nat, cw: U16, mxcsr: U32, saveSz: nat, fp: Word, arg: Word): Co {
    var cap := if saveSz == 0 then 64 else saveSz;
    Co(main, k, fp, arg, FirstCtx(a, fp, ret, cw, mxcsr), false, Save([], cap, 0, 0, 0, cap, 0))
  }

  function NewCo(m: State, main: nat, k: nat, saveSz: nat, fp: Word, arg: Word): Co
    requires k in m.stks
  {
    FirstRec(m.arch, main, k, m.stks[k].geom.ret, m.initCw, m.initMxcsr, saveSz, fp, arg)
  }

  /** Arbitrary code of the running coroutine: new registers, and new bytes everywhere below the return slot. */
  function BodyRan(m: State, to: Ctx, low: seq<Byte>): State
    requires m.running.Some? && m.running.value in m.cos && m.cos[m.running.value].stk in m.stks
  {
    var k := m.cos[m.running.value].stk;
    var s := m.stks[k];
    m.(stks := m.stks[k := s.(mem := if |low| <= |s.mem| then low + s.mem[|low|..] else s.mem)], cpu := to)
  }

  /** aco_share_stack_new2's record. */
  function NewStk(g: Geom, prot: seq<Byte>, fill: seq<Byte>): Stk {
    Stk(g, FirstMem(g, prot, fill), 0, None)
  }

  /** Memory of a new stack: anything, with the protector written at the return slot. */
  function FirstMem(g: Geom, prot: seq<Byte>, fill: seq<Byte>): seq<Byte> {
    if g.ptr <= g.ret && g.ret - g.ptr + |prot| <= |fill|
    then fill[..g.ret - g.ptr] + prot + fill[g.ret - g.ptr + |prot|..]
    else fill
  }

  /** aco_destroy */
  function Destroyed(m: State, c: nat): State
    requires c in m.cos && m.cos[c].stk in m.stks
  {
    var k := m.cos[c].stk;
    var s := m.stks[k];
    m.(cos := m.cos - {c},
       stks := if s.owner == Some(c) then m.stks[k := s.(owner := None, validSz := 0)] else m.stks)
  }

  // ---------------------------------------------------------------- the invariant

  predicate SaveOk(a: Arch, g: Geom, v: Save, stored: bool) {
    && |v.bytes| <= v.cap < a.Space()
    && 0 < v.cap && 0 < v.init
    && |v.bytes| <= v.maxCp
    && v.maxCp + a.W() <= g.limit
    && v.ctSave == v.ctRestore + (if stored && |v.bytes| > 0 then 1 else 0)
    && (g.sz <= a.Half() ==> GrowthOk(v))
  }

  /** The buffer is the initial one, or less than twice the largest copy it ever held. */
  predicate GrowthOk(v: Save) {
    && v.cap == Scaled(v.init, v.grown)
    && (v.grown > 0 ==> Scaled(v.init, v.grown - 1) < v.maxCp)
  }

  predicate SpOk(a: Arch, g: Geom, sp: nat) { g.ptr + a.W() <= sp <= g.ret }

  predicate CoOk(a: Arch, g: Geom, co: Co, owns: bool, on: bool) {
    && SaveOk(a, g, co.save, !co.ended && !owns)
    && CtxOk(a, co.ctx)
    && (owns ==> !co.ended)
    && (on ==> owns)
    && (!co.ended && !owns ==> co.ctx.sp + |co.save.bytes| == g.ret)
    && (!co.ended && !on ==> SpOk(a, g, co.ctx.sp))
  }

  predicate StkOk(a: Arch, prot: seq<Byte>, s: Stk) {
    && GeomOk(a, s.geom)
    && |s.mem| == s.geom.sz
    && prot <= Top(s)
    && (s.owner == None ==> s.validSz == 0)
  }

  /** Every reference in the state is to something that exists. */
  predicate Linked(m: State) {
    && (forall c | c in m.cos :: m.cos[c].stk in m.stks && m.cos[c].main in m.mains)
    && (forall k | k in m.stks :: m.stks[k].owner.Some? ==> m.stks[k].owner.value in m.cos)
    && (m.running.Some? ==> m.running.value in m.cos)
  }

  predicate Owns(m: State, c: nat)
    requires c in m.cos && m.cos[c].stk in m.stks
  {
    m.stks[m.cos[c].stk].owner == Some(c)
  }

  predicate CoInv(m: State, c: nat)
    requires c in m.cos && m.cos[c].stk in m.stks
  {
    CoOk(m.arch, m.stks[m.cos[c].stk].geom, m.cos[c], Owns(m, c), m.running == Some(c))
  }

  predicate StkInv(m: State, k: nat)
    requires k in m.stks && (m.stks[k].owner.Some? ==> m.stks[k].owner.value in m.cos)
  {
    var s := m.stks[k];
    && StkOk(m.arch, m.prot, s)
    && (s.owner.Some? ==>
          var o := m.cos[s.owner.value];
          o.stk == k && !o.ended && s.validSz == |o.save.bytes| + m.arch.W())
  }

  predicate RunInv(m: State)
    requires Linked(m)
  {
    && |m.prot| == m.arch.W()
    && CtxOk(m.arch, m.cpu)
    && (forall i | i in m.mains :: CtxOk(m.arch, m.mains[i]))
    && match m.running
       case None => m.cpu.sp >= m.arch.W() && !m.gtls.OfCo?
       case Some(c) =>
         && m.gtls == OfCo(c)
         && SpOk(m.arch, m.stks[m.cos[c].stk].geom, m.cpu.sp)
         && m.mains[m.cos[c].main].sp >= m.arch.W()
  }

  predicate Inv(m: State)
    ensures Inv(m) ==> Linked(m)
  {
    && Linked(m)
    && (forall c | c in m.cos :: CoInv(m, c))
    && (forall k | k in m.stks :: StkInv(m, k))
    && RunInv(m)
  }
}
