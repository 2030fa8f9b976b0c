/**
 * The library's calls on the objects and arrays of a whole thread. Each is done in place, and takes the state
 * that the memory is exactly where the machine's step takes it.
 */
module WholeHeap {
  import opened Platform
  import opened Geometry
  import opened Switch
  import opened Aco
  import opened Thread
  import opened PrivateStacks
  import opened Refinement
  import opened Lifecycle
  import opened Runs
  import opened Guarantees
  import opened Changes
  import opened Records
  import opened Naming
  import M = Machine

  // ---------------------------------------------------------------- evicting

  /** Saving the owner writes none of the other records. */
  method SaveBeside(a: Arch, o: Co, ghost n: Names, ghost m: M.State, ghost r: Rest) returns (ok: bool)
    requires o.Valid(a) && o.shareStack.Valid(a) && o.shareStack.owner == o && o.ptr.data != o.shareStack.mem.data
    requires 0 < o.sz < a.Space()
    requires RestIn(n, r) && Holds(a, n, m, r) && Clear(r, {o, o.reg, o.ptr.data})
    requires Clear(r, {o.shareStack, o.shareStack.mem.data})
    modifies o, o.ptr.data, o.shareStack
    ensures ok <==> M.Saved(a, old(o.shareStack.Rec()), old(o.Rec(a))).Ok?
    ensures ok ==>
              && o.Valid(a) && (o.ptr == old(o.ptr) || (fresh(o.ptr) && fresh(o.ptr.data)))
              && o.Rec(a) == M.Saved(a, old(o.shareStack.Rec()), old(o.Rec(a))).value
              && o.shareStack.Rec() == old(o.shareStack.Rec()).(owner := None, validSz := 0)
              && o.shareStack.owner == null
    ensures Holds(a, n, m, r)
  {
    hide RestIn, Holds, M.Saved, Co.Rec, ShareStack.Rec;
    assert allocated(r.mains) && allocated(r.cos) && allocated(r.stks);
    ok := SaveOwner(a, o);
  }

  /** Lines 372-427 of aco_resume: the owner's bytes go to its buffer. */
  method EvictOwner(rt: Runtime, s: ShareStack, ghost b: Book) returns (ok: bool, ghost b': Book)
    requires Is(rt, b) && s.owner != null && Filed(b, s.owner) && s.owner.shareStack == s && b.st.running == None
    requires s.id in b.st.stks
    modifies b.co, b.so
    ensures ok <==> M.Evict(b.st, s.id).Ok?
    ensures ok ==> Is(rt, b') && b'.st == M.Evict(b.st, s.id).value && s.owner == null
    ensures b' == b.(n := b'.n, co := b'.co, st := b'.st) && b'.n == b.n.(bufs := b'.n.bufs) && fresh(b'.co - b.co)
  {
    hide M.Inv, Formed, RestIn, Holds, Without, M.Evict, M.Saved, CoNow, StkNow, Co.Rec, ShareStack.Rec, Co.Valid;
    hide CoFoot, StkFoot;
    hide Clear;
    ghost var k, o := s.id, s.owner.id;
    ghost var m, r := b.st, Without(b, None, Some(o), Some(k));
    TheRecords(rt, b, s.owner);
    Split(rt, b, None, Some(o), Some(k));
    var owner := s.owner;
    b' := b;
    ok := SaveBeside(rt.a, owner, b.n, m, r);
    OwnerEvicts(m, k, o);
    if ok {
      b' := Book(b.n.(bufs := b.n.bufs[o := owner.ptr.data]), b.mo, b.co + {owner.ptr.data}, b.so, M.Evict(m, k).value);
      CoIs(rt.a, owner, b'.st.cos[o]);
      StkIs(b.n.cos, s, b'.st.stks[k]);
      Rebuffered(rt, b.n, b.mo, b.co, b.so, o, owner.ptr.data);
      CoStkJoin(rt, b, b'.st, o, k, owner.ptr.data);
    }
  }

  /** Lines 369-431 of aco_resume of c. */
  method Evict(rt: Runtime, c: Co, ghost b: Book) returns (ok: bool, ghost b': Book)
    requires Is(rt, b) && Filed(b, c) && b.st.running == None && c.shareStack != null
    requires c.shareStack.id in b.st.stks
    modifies b.co, b.so
    ensures ok <==> M.Evict(b.st, c.shareStack.id).Ok?
    ensures ok ==> Is(rt, b') && b'.st == M.Evict(b.st, c.shareStack.id).value && c.shareStack.owner == null
    ensures b' == b.(n := b'.n, co := b'.co, st := b'.st) && b'.n == b.n.(bufs := b'.n.bufs) && fresh(b'.co - b.co)
  {
    TheRecords(rt, b, c);
    hide M.Inv, Formed, RestIn, Holds, Without, M.Saved, CoNow, StkNow;
    hide Co.Rec, ShareStack.Rec, Co.Valid, CoFoot, StkFoot, M.Linked, ThreadNow;
    var s := c.shareStack;
    if s.owner == null { return true, b; }
    if s.owner.shareStack != s { return false, b; }
    ok, b' := EvictOwner(rt, s, b);
  }

  // ---------------------------------------------------------------- occupying

  /** The copy into the stack writes none of the other records. */
  method OccupyBeside(a: Arch, c: Co, ghost n: Names, ghost m: M.State, ghost r: Rest) returns (ok: bool)
    requires c.Valid(a) && c.shareStack.Valid(a) && c.ptr.data != c.shareStack.mem.data
    requires RestIn(n, r) && Holds(a, n, m, r) && Clear(r, {c, c.reg, c.ptr.data})
    requires Clear(r, {c.shareStack, c.shareStack.mem.data})
    modifies c`ctRestore, c`maxCpsz, c.shareStack, c.shareStack.mem.data
    ensures ok <==> old(c.shareStack.owner) == null && old(c.validSz) + a.W() <= c.shareStack.geom.limit
    ensures ok ==> c.Valid(a) && c.Rec(a) == M.Restored(old(c.Rec(a)))
    ensures ok ==> c.shareStack.Rec() == M.Taken(a, old(c.shareStack.Rec()), c.id, old(c.Save()).bytes)
    ensures ok ==> c.shareStack.owner == c
    ensures Holds(a, n, m, r)
  {
    hide RestIn, Holds, M.Taken, M.Restored, Co.Rec, ShareStack.Rec;
    assert allocated(r.mains) && allocated(r.cos) && allocated(r.stks);
    ok := Aco.Occupy(a, c);
  }

  /** Lines 432-469 of aco_resume of c. */
  method Occupy(rt: Runtime, c: Co, ghost b: Book) returns (ok: bool, ghost b': Book)
    requires Is(rt, b) && Filed(b, c) && CanOccupy(b.st, c.id)
    modifies b.co, b.so
    ensures ok && M.Occupy(b.st, c.id).Ok? && Is(rt, b') && b' == b.(st := M.Occupy(b.st, c.id).value)
    ensures CanSwitchIn(b'.st, c.id)
  {
    hide M.Inv, Formed, RestIn, Holds, Without, M.Occupy, M.Taken;
    hide M.Restored, CoNow, StkNow, Co.Rec, ShareStack.Rec, Co.Valid;
    hide CoFoot, StkFoot, Clear, Only;
    TheRecords(rt, b, c);
    var s := c.shareStack;
    ghost var k, i := s.id, c.id;
    ghost var m, r := b.st, Without(b, None, Some(i), Some(k));
    Split(rt, b, None, Some(i), Some(k));
    SavedBytes(rt.a, c);
    ok := OccupyBeside(rt.a, c, b.n, m, r);
    TakerOccupies(m, i);
    b' := b.(st := M.Occupy(m, i).value);
    CoStkIs(rt, b, b'.st, c);
  }

  // ---------------------------------------------------------------- the calls that switch

  /** The switch writes none of the other records. */
  method SwitchBeside(rt: Runtime, c: Co, ghost n: Names, ghost m: M.State, ghost r: Rest)
    requires c.main != null && c.reg.Length == c.main.reg.Length == NumRegs(rt.a) && c.reg != c.main.reg
    requires rt.cpu.sp >= rt.a.W()
    requires RestIn(n, r) && Holds(rt.a, n, m, r) && Clear(r, {rt, rt.cpu}) && Clear(r, {c.main.reg})
    modifies rt`gtls, rt.cpu, c.main.reg
    ensures c.main.Ctx(rt.a) == old(rt.cpu.Now(rt.a)) && rt.cpu.Now(rt.a) == old(c.Ctx(rt.a)) && rt.gtls == c
    ensures rt.fpucw == old(rt.fpucw) && rt.mxcsr == old(rt.mxcsr)
    ensures Holds(rt.a, n, m, r)
  {
    hide RestIn, Holds;
    assert allocated(r.mains) && allocated(r.cos) && allocated(r.stks);
    rt.gtls := c;
    assert Holds(rt.a, n, m, r);
    rt.SwitchTo(c.main, c);
  }

  /** acosw from c's main coroutine to c, with the assignment to aco_gtls_co before it. */
  method SwitchIn(rt: Runtime, c: Co, ghost b: Book) returns (ghost b': Book)
    requires Is(rt, b) && c.id in b.n.cos && b.n.cos[c.id] == c && CanSwitchIn(b.st, c.id)
    modifies rt`gtls, rt.cpu, b.mo
    ensures Is(rt, b') && b' == b.(st := M.SwitchIn(b.st, c.id))
  {
    hide M.Inv, Formed, RestIn, M.SwitchIn, Holds, Without;
    TheCo(rt, b, c);
    ghost var m, i := b.st, c.main.id;
    ghost var r := Without(b, Some(i), None, None);
    SwitchedIn(m, c.id);
    Split(rt, b, Some(i), None, None);
    assert c.main.reg in MainFoot(b.n, i);
    SwitchBeside(rt, c, b.n, m, r);
    b' := b.(st := M.SwitchIn(m, c.id));
    MainIs(rt.a, c.main, m.cpu);
    MainJoins(rt, b, b'.st, i);
  }

  /** aco_resume: it aborts exactly when the machine does, and leaves in memory exactly the machine's next state. */
  method Resume(rt: Runtime, c: Co, ghost b: Book) returns (ok: bool, ghost b': Book)
    requires Is(rt, b) && Filed(b, c) && Legal(Abs(b.st), M.Resume(c.id))
    modifies rt`gtls, rt.cpu, b.mo, b.co, b.so
    ensures c.id in b.st.cos && (ok <==> !ResumeFails(b.st, c.id))
    ensures ok <==> Step(b.st, M.Resume(c.id)).Ok?
    ensures ok ==> Is(rt, b') && M.Ok(b'.st) == Step(b.st, M.Resume(c.id))
    ensures b' == b.(n := b'.n, co := b'.co, st := b'.st) && b'.n == b.n.(bufs := b'.n.bufs) && fresh(b'.co - b.co)
  {
    ResumeIs(b.st, c.id);
    hide M.Inv, Formed, RestIn, Holds, ThreadNow, M.Resumed, M.Evict, M.Occupy, M.SwitchIn, ResumeFails, CanOccupy;
    hide Co.Rec, ShareStack.Rec, Co.Valid, ShareStack.Valid, CoFoot, StkFoot, CanSwitchIn, Step, Legal, Abs;
    TheRecords(rt, b, c);
    ResumeParts(b.st, c.id);
    ok, b' := !c.isEnd, b;
    if !ok { return; }
    if c.shareStack.owner != c {
      ok, b' := Evict(rt, c, b);
      if !ok { return; }
      ok, b' := Occupy(rt, c, b');
    }
    b' := SwitchIn(rt, c, b');
  }

  /** A yield writes none of the other records. */
  method YieldBeside(rt: Runtime, c: Co, ghost n: Names, ghost m: M.State, ghost r: Rest)
    requires Linked(rt.a, c) && rt.cpu.sp >= rt.a.W()
    requires RestIn(n, r) && Holds(rt.a, n, m, r) && Clear(r, {rt, rt.cpu}) && Clear(r, {c, c.reg, c.ptr.data})
    modifies rt`gtls, rt.cpu, c.reg
    ensures c.Rec(rt.a) == old(c.Rec(rt.a)).(ctx := old(rt.cpu.Now(rt.a)))
    ensures rt.cpu.Now(rt.a) == old(c.main.Ctx(rt.a)) && rt.gtls == c.main
    ensures rt.fpucw == old(rt.fpucw) && rt.mxcsr == old(rt.mxcsr)
    ensures c.Valid(rt.a) && c.ptr == old(c.ptr)
    ensures c.shareStack.Rec() == old(c.shareStack.Rec()) && c.shareStack.owner == old(c.shareStack.owner)
    ensures Holds(rt.a, n, m, r)
  {
    hide RestIn, Holds, Co.Rec;
    assert allocated(r.mains) && allocated(r.cos) && allocated(r.stks);
    rt.Yield(c);
  }

  /** aco_yield of the running coroutine c. */
  method Yield(rt: Runtime, c: Co, ghost b: Book) returns (ghost b': Book)
    requires Is(rt, b) && Filed(b, c) && b.st.running == Some(c.id)
    modifies rt`gtls, rt.cpu, b.co
    ensures Legal(Abs(b.st), M.Yield) && M.Ok(b'.st) == Step(b.st, M.Yield)
    ensures Is(rt, b') && b' == b.(st := b'.st)
  {
    RunningIs(b.st);
    hide Legal, Abs, Step;
    hide M.Inv, Formed, RestIn, Holds, Without, M.SwitchOut, CoNow;
    hide StkNow, Co.Rec, ShareStack.Rec, Co.Valid, Clear, Only;
    hide CoFoot, StkFoot;
    TheRecords(rt, b, c);
    TheCo(rt, b, c);
    ghost var k, i := c.shareStack.id, c.id;
    ghost var m, r := b.st, Without(b, None, Some(i), Some(k));
    Split(rt, b, None, Some(i), Some(k));
    RoomForCall(m);
    YieldBeside(rt, c, b.n, m, r);
    YieldedRecords(m, i);
    b' := b.(st := M.SwitchOut(m, i));
    CoStkIs(rt, b, b'.st, c);
  }

  /** An exit writes none of the other records. */
  method ExitBeside(rt: Runtime, c: Co, ghost n: Names, ghost m: M.State, ghost r: Rest) returns (ok: bool)
    requires Linked(rt.a, c) && rt.cpu.sp >= rt.a.W()
    requires RestIn(n, r) && Holds(rt.a, n, m, r) && Clear(r, {rt, rt.cpu}) && Clear(r, {c, c.reg, c.ptr.data})
    requires Clear(r, {c.shareStack, c.shareStack.mem.data})
    modifies rt`gtls, rt.cpu, c.reg, c`isEnd, c.shareStack`owner, c.shareStack`validSz
    ensures ok <==> old(c.shareStack.owner) == c
    ensures rt.fpucw == old(rt.fpucw) && rt.mxcsr == old(rt.mxcsr) && c.ptr == old(c.ptr)
    ensures ok ==>
              && c.Valid(rt.a) && c.Rec(rt.a) == old(c.Rec(rt.a)).(ended := true, ctx := old(rt.cpu.Now(rt.a)))
              && c.shareStack.Rec() == old(c.shareStack.Rec()).(owner := None, validSz := 0)
              && c.shareStack.owner == null
              && rt.cpu.Now(rt.a) == old(c.main.Ctx(rt.a)) && rt.gtls == c.main
    ensures Holds(rt.a, n, m, r)
  {
    hide RestIn, Holds, Co.Rec;
    assert allocated(r.mains) && allocated(r.cos) && allocated(r.stks);
    ok := rt.Exit(c);
  }

  /** aco_exit of the running coroutine c; its owner assert never fails. */
  method Exit(rt: Runtime, c: Co, ghost b: Book) returns (ok: bool, ghost b': Book)
    requires Is(rt, b) && Filed(b, c) && b.st.running == Some(c.id)
    modifies rt`gtls, rt.cpu, b.co, b.so
    ensures ok && Legal(Abs(b.st), M.Exit) && M.Ok(b'.st) == Step(b.st, M.Exit)
    ensures Is(rt, b') && b' == b.(st := b'.st)
  {
    RunningIs(b.st);
    hide Legal, Abs, Step;
    hide M.Inv, Formed, RestIn, Holds, Without, Exited, CoNow, StkNow, Co.Rec, ShareStack.Rec, Co.Valid, Clear, Only;
    hide CoFoot, StkFoot;
    TheRecords(rt, b, c);
    TheCo(rt, b, c);
    ghost var k, i := c.shareStack.id, c.id;
    ghost var m, r := b.st, Without(b, None, Some(i), Some(k));
    Split(rt, b, None, Some(i), Some(k));
    RoomForCall(m);
    ok := ExitBeside(rt, c, b.n, m, r);
    ExitedRecords(m, i);
    b' := b.(st := Exited(m, i).value);
    CoStkIs(rt, b, b'.st, c);
  }

  // ---------------------------------------------------------------- creating

  /** aco_create writes no record there is. */
  method CreateBeside(rt: Runtime, id: nat, main: Co, s: ShareStack, saveSz: nat, fp: Word, arg: Word, ghost b: Book)
    returns (c: Co)
    requires s.Valid(rt.a) && RestIn(b.n, Every(b)) && Holds(rt.a, b.n, b.st, Every(b)) && ThreadNow(rt, b.st)
    ensures c.Valid(rt.a) && c.id == id && c.main == main && c.shareStack == s
    ensures c.ptr != null && c.reg.Length == NumRegs(rt.a)
    ensures c.Rec(rt.a) == M.FirstRec(rt.a, main.id, s.id, s.geom.ret, rt.fpucw, rt.mxcsr, saveSz, fp, arg)
    ensures fresh({c, c.reg, c.ptr.data}) && Outside(b, c) && Outside(b, c.reg) && Outside(b, c.ptr.data)
    ensures Holds(rt.a, b.n, b.st, Every(b)) && ThreadNow(rt, b.st)
  {
    hide RestIn, Holds, Co.Rec, M.FirstRec;
    c := rt.Create(id, main, s, saveSz, fp, arg);
  }

  lemma ShapeOfNew(a: Arch, b: Book, c: Co, buf: array<Byte>)
    requires c.main != null && FiledMain(b, c.main) && c.shareStack != null && FiledStk(b, c.shareStack)
    requires c.reg.Length == NumRegs(a)
    ensures CoShape(a, NameCo(b.n, c, buf), c.id)
  {
  }

  /** The records with a new one are those of the state with a new one. */
  lemma WithCo(rt: Runtime, b: Book, c: Co, buf: array<Byte>, rec: M.Co)
    requires Formed(rt, b.n, b.mo, b.co, b.so) && RestIn(b.n, Every(b)) && Holds(rt.a, b.n, b.st, Every(b))
    requires c.id !in b.n.cos && CoShape(rt.a, NameCo(b.n, c, buf), c.id) && CoNow(rt.a, c, buf, rec)
    requires Outside(b, c) && Outside(b, c.reg) && Outside(b, buf)
    ensures var b' := Book(NameCo(b.n, c, buf), b.mo, b.co + {c, c.reg, buf}, b.so, Created(b.st, c.id, rec));
            && Formed(rt, b'.n, b'.mo, b'.co, b'.so)
            && RestIn(b'.n, Every(b')) && Holds(rt.a, b'.n, b'.st, Every(b'))
  {
    hide Formed, RestIn, Holds, CoNow, CoShape;
    FormedWithCo(rt, b, c, buf);
    HoldsWithCo(rt, b, c, buf, rec);
  }

  /** aco_create of a coroutine on a stack and for a main coroutine that exist. */
  method Create(rt: Runtime, id: nat, main: Co, s: ShareStack, saveSz: nat, fp: Word, arg: Word, ghost b: Book)
    returns (c: Co, ghost b': Book)
    requires Is(rt, b) && FiledMain(b, main) && FiledStk(b, s)
    requires Legal(Abs(b.st), M.Create(id, main.id, s.id, saveSz, fp, arg))
    ensures Is(rt, b') && M.Ok(b'.st) == Step(b.st, M.Create(id, main.id, s.id, saveSz, fp, arg))
    ensures c.id == id && Filed(b', c) && c.ptr != null
    ensures b' == b.(n := NameCo(b.n, c, c.ptr.data), co := b.co + {c, c.reg, c.ptr.data}, st := b'.st)
    ensures fresh(b'.co - b.co)
  {
    hide M.Inv, Formed, RestIn, Holds, CoNow, Co.Rec, ShareStack.Rec;
    hide Co.Valid, Step, StepOk, Legal, Abs, M.FirstRec, Shape;
    ghost var l := M.Create(id, main.id, s.id, saveSz, fp, arg);
    SameNames(rt, b);
    TheStk(rt, b, s);
    TheMain(rt, b, main);
    c := CreateBeside(rt, id, main, s, saveSz, fp, arg, b);
    CreatedIs(b.st, l);
    b' := Book(NameCo(b.n, c, c.ptr.data), b.mo, b.co + {c, c.reg, c.ptr.data}, b.so, Step(b.st, l).value);
    CoIs(rt.a, c, c.Rec(rt.a));
    ShapeOfNew(rt.a, b, c, c.ptr.data);
    hide NameCo, Outside, CoShape;
    WithCo(rt, b, c, c.ptr.data, c.Rec(rt.a));
  }

  method CreateMainBeside(rt: Runtime, id: nat, fp: Word, arg: Word, ghost b: Book) returns (c: Co)
    requires RestIn(b.n, Every(b)) && Holds(rt.a, b.n, b.st, Every(b)) && ThreadNow(rt, b.st)
    ensures c.id == id && c.main == null && c.fp == fp && c.arg == arg && MainNow(rt.a, c, M.FirstCtx(rt.a, 0, 0, 0, 0))
    ensures fresh({c, c.reg}) && Outside(b, c.reg) && c.reg.Length == NumRegs(rt.a)
    ensures Holds(rt.a, b.n, b.st, Every(b)) && ThreadNow(rt, b.st)
  {
    hide RestIn, Holds, M.FirstCtx;
    c := rt.CreateMain(id, fp, arg);
  }

  /** aco_create of a main coroutine. */
  method CreateMain(rt: Runtime, id: nat, fp: Word, arg: Word, ghost b: Book) returns (c: Co, ghost b': Book)
    requires Is(rt, b) && Legal(Abs(b.st), M.NewMain(id))
    ensures Is(rt, b') && M.Ok(b'.st) == Step(b.st, M.NewMain(id)) && c.id == id && FiledMain(b', c)
    ensures b' == b.(n := NameMain(b.n, c), mo := b.mo + {c.reg}, st := b'.st) && fresh(b'.mo - b.mo)
  {
    hide M.Inv, Formed, RestIn, Holds, MainNow, StepOk, Legal, Abs, M.FirstCtx, Shape;
    SameNames(rt, b);
    c := CreateMainBeside(rt, id, fp, arg, b);
    NewMainIs(b.st, id);
    b' := Book(NameMain(b.n, c), b.mo + {c.reg}, b.co, b.so, Step(b.st, M.NewMain(id)).value);
    FormedWithMain(rt, b, c);
    HoldsWithMain(rt, b, c, M.FirstCtx(rt.a, 0, 0, 0, 0));
  }

  method NewStackBeside(rt: Runtime, id: nat, req: nat, guard: bool, pg: int, ghost b: Book)
    returns (r: Option<ShareStack>, base: nat, fill: seq<Byte>)
    requires req < rt.a.Space() && pg < rt.a.Half() && |rt.prot| == rt.a.W()
    requires RestIn(b.n, Every(b)) && Holds(rt.a, b.n, b.st, Every(b)) && ThreadNow(rt, b.st)
    ensures r.Some? <==> StackBytes(rt.a, req, guard, pg).Some?
    ensures r.Some? ==>
              var s := r.value;
              && fresh({s, s.mem.data}) && Outside(b, s) && Outside(b, s.mem.data)
              && s.id == id && s.Valid(rt.a) && s.owner == null
              && base + StackBytes(rt.a, req, guard, pg).value <= rt.a.Space()
              && StackGeom(rt.a, req, guard, pg, base) == Some(s.geom)
              && |fill| == s.geom.sz
              && s.Rec() == M.NewStk(s.geom, rt.prot, fill)
    ensures Holds(rt.a, b.n, b.st, Every(b)) && ThreadNow(rt, b.st)
  {
    hide RestIn, Holds, M.NewStk;
    r, base, fill := rt.NewShareStack(id, req, guard, pg);
  }

  /** aco_share_stack_new2; the label records where the system put the stack and what was there. */
  method NewShareStack(rt: Runtime, id: nat, req: nat, guard: bool, pg: int, ghost b: Book)
    returns (r: Option<ShareStack>, l: M.Label, ghost b': Book)
    requires Is(rt, b) && id !in b.st.stks && req < rt.a.Space() && pg < rt.a.Half()
    ensures l.NewStack? && l == M.NewStack(id, req, guard, pg, l.base, l.fill) && Legal(Abs(b.st), l)
    ensures r.Some? <==> Step(b.st, l).Ok?
    ensures r.Some? ==>
              && Is(rt, b') && M.Ok(b'.st) == Step(b.st, l) && r.value.id == id && FiledStk(b', r.value)
              && b' == b.(n := NameStk(b.n, r.value), so := b.so + {r.value, r.value.mem.data}, st := b'.st)
    ensures b'.mo == b.mo && b'.co == b.co && fresh(b'.so - b.so)
  {
    hide M.Inv, Formed, RestIn, Holds, StkNow, Step, StepOk, Legal, Abs, M.NewStk, Shape, ShareStack.Rec;
    var base, fill;
    SameNames(rt, b);
    ProtFits(b.st);
    r, base, fill := NewStackBeside(rt, id, req, guard, pg, b);
    l := M.NewStack(id, req, guard, pg, base, fill);
    NewStackIs(b.st, l);
    b' := b;
    if r.Some? {
      var s := r.value;
      b' := Book(NameStk(b.n, s), b.mo, b.co, b.so + {s, s.mem.data}, Step(b.st, l).value);
      StkIs(b.n.cos, s, b'.st.stks[id]);
      FormedWithStk(rt, b, s);
      HoldsWithStk(rt, b, s, b'.st.stks[id]);
    }
  }

  // ---------------------------------------------------------------- freeing

  /** Freeing a coroutine writes none of the other records. */
  method DestroyBeside(rt: Runtime, c: Co, ghost n: Names, ghost m: M.State, ghost r: Rest)
    requires c.main != null && c.shareStack != null && RestIn(n, r) && Holds(rt.a, n, m, r) && ThreadNow(rt, m)
    requires c.ptr != null && Clear(r, {c, c.reg, c.ptr.data}) && Clear(r, {c.shareStack, c.shareStack.mem.data})
    modifies c, c.shareStack
    ensures c.shareStack.owner == (if old(c.shareStack.owner) == c then null else old(c.shareStack.owner))
    ensures c.shareStack.Rec() ==
            if old(c.shareStack.owner) == c then old(c.shareStack.Rec()).(owner := None, validSz := 0)
            else old(c.shareStack.Rec())
    ensures Holds(rt.a, n, m, r) && ThreadNow(rt, m)
  {
    hide RestIn, Holds, ShareStack.Rec;
    assert allocated(r.mains) && allocated(r.cos) && allocated(r.stks);
    rt.Destroy(c);
  }

  /** aco_destroy of a coroutine that is not running. */
  method Destroy(rt: Runtime, c: Co, ghost b: Book) returns (ghost b': Book)
    requires Is(rt, b) && Filed(b, c) && Legal(Abs(b.st), M.Destroy(c.id))
    modifies b.co, b.so
    ensures Is(rt, b') && M.Ok(b'.st) == Step(b.st, M.Destroy(c.id))
    ensures b' == b.(n := DropCo(b.n, c.id), co := b'.co, st := b'.st) && b'.co <= b.co && c !in b'.co
  {
    DestroyedRecords(b.st, c.id);
    hide M.Inv, Formed, RestIn, Holds, Without, CoNow, StkNow, Co.Rec, ShareStack.Rec, Co.Valid, Clear;
    hide CoFoot, StkFoot, Step, M.Destroyed, Legal, Abs;
    SameNames(rt, b);
    TheRecords(rt, b, c);
    TheCo(rt, b, c);
    ghost var k, i := c.shareStack.id, c.id;
    ghost var m, r := b.st, Without(b, None, Some(i), Some(k));
    Split(rt, b, None, Some(i), Some(k));
    DestroyBeside(rt, c, b.n, m, r);
    ghost var m' := M.Destroyed(m, i);
    b' := Book(DropCo(b.n, i), b.mo, b.co - CoFoot(b.n, i), b.so, m');
    StkIs(b.n.cos - {i}, c.shareStack, m'.stks[k]);
    HoldsDropCo(rt, b, i, k, m');
    RestFormed(rt, b, i, k);
  }

  /** aco_destroy of a main coroutine that no coroutine needs. */
  method DestroyMain(rt: Runtime, c: Co, ghost b: Book) returns (ghost b': Book)
    requires Is(rt, b) && FiledMain(b, c) && Legal(Abs(b.st), M.FreeMain(c.id))
    modifies rt.Freed(c)
    ensures Is(rt, b') && M.Ok(b'.st) == Step(b.st, M.FreeMain(c.id))
    ensures b' == b.(n := DropMain(b.n, c.id), mo := b.mo - {c.reg}, st := b'.st)
  {
    NobodysMain(rt, b, c.id);
    hide M.Inv, Formed, RestIn, Holds, Without, Step, Legal, Abs;
    TheMain(rt, b, c);
    rt.Destroy(c);
    ghost var i := c.id;
    Split(rt, b, Some(i), None, None);
    b' := Book(DropMain(b.n, i), b.mo - {c.reg}, b.co, b.so, b.st.(mains := b.st.mains - {i}));
    WithoutMain(rt, b, c);
    FormedDropMain(rt, b, i, b.mo - {c.reg});
    HoldsDropMain(rt, b, i, b.mo - {c.reg});
  }

  /** aco_share_stack_destroy of a stack no coroutine runs on gives its memory back and writes nothing. */
  lemma FreeStack(rt: Runtime, s: ShareStack, b: Book)
    requires Is(rt, b) && FiledStk(b, s) && Legal(Abs(b.st), M.FreeStack(s.id))
    ensures Step(b.st, M.FreeStack(s.id)).Ok?
    ensures var m := Step(b.st, M.FreeStack(s.id)).value;
            Is(rt, b.(n := DropStk(b.n, s.id), so := b.so - {s, s.mem.data}, st := m))
  {
    NobodysStack(rt, b, s.id);
    hide M.Inv, Formed, RestIn, Holds, Without, Step, Legal, Abs;
    Split(rt, b, None, None, Some(s.id));
    WithoutStk(rt, b, s);
    FormedDropStk(rt, b, s.id, b.so - {s, s.mem.data});
    HoldsDropStk(rt, b, s.id, b.so - {s, s.mem.data});
  }

  // ---------------------------------------------------------------- what happens between the calls

  method ThreadInitBeside(rt: Runtime, lastWordFp: Word, ghost b: Book)
    requires RestIn(b.n, Every(b)) && Holds(rt.a, b.n, b.st, Every(b))
    requires Clear(Every(b), {rt, rt.cpu}) && ThreadNow(rt, b.st)
    modifies rt`fpucw, rt`mxcsr, rt`lastWord
    ensures Holds(rt.a, b.n, b.st, Every(b))
    ensures ThreadNow(rt, b.st.(initCw := b.st.cpu.cw, initMxcsr := b.st.cpu.mxcsr))
  {
    hide RestIn, Holds;
    ghost var r := Every(b);
    assert allocated(r.mains) && allocated(r.cos) && allocated(r.stks);
    rt.ThreadInit(lastWordFp);
  }

  /** aco_thread_init */
  method ThreadInit(rt: Runtime, lastWordFp: Word, ghost b: Book) returns (ghost b': Book)
    requires Is(rt, b)
    modifies rt`fpucw, rt`mxcsr, rt`lastWord
    ensures Legal(Abs(b.st), M.ThreadInit) && Is(rt, b') && M.Ok(b'.st) == Step(b.st, M.ThreadInit)
    ensures b' == b.(st := b'.st)
  {
    ThreadInitIs(b.st);
    hide M.Inv, Formed, RestIn, Holds, Step, Legal, Abs;
    b' := b.(st := b.st.(initCw := b.st.cpu.cw, initMxcsr := b.st.cpu.mxcsr));
    SameNames(rt, b);
    Split(rt, b, None, None, None);
    assert Without(b, None, None, None) == Every(b);
    ThreadInitBeside(rt, lastWordFp, b);
    SameRecords(rt, b, b'.st);
  }

  /** Main code between two calls: any registers. */
  method Compute(rt: Runtime, at: Ctx, ghost b: Book) returns (ghost b': Book)
    requires Is(rt, b) && Legal(Abs(b.st), M.Compute(at))
    modifies rt.cpu
    ensures Is(rt, b') && M.Ok(b'.st) == Step(b.st, M.Compute(at)) && b' == b.(st := b'.st)
  {
    ComputeIs(b.st, at);
    hide M.Inv, Formed, RestIn, Holds, Step, Legal, Abs;
    b' := b.(st := b.st.(cpu := at));
    SameNames(rt, b);
    Split(rt, b, None, None, None);
    assert Without(b, None, None, None) == Every(b);
    rt.cpu.Compute(rt.a, at);
    assert Holds(rt.a, b.n, b.st, Every(b));
    SameRecords(rt, b, b'.st);
  }

  /** The code of a coroutine writes none of the other records. */
  method BodyBeside(rt: Runtime, c: Co, to: Ctx, low: seq<Byte>, ghost n: Names, ghost m: M.State, ghost r: Rest)
    requires Linked(rt.a, c) && CtxOk(rt.a, to) && |low| <= c.shareStack.mem.data.Length
    requires RestIn(n, r) && Holds(rt.a, n, m, r) && Clear(r, {rt, rt.cpu}) && Clear(r, {c, c.reg, c.ptr.data})
    requires Clear(r, {c.shareStack, c.shareStack.mem.data}) && ThreadNow(rt, m)
    modifies rt.cpu, c.shareStack.mem.data
    ensures c.Valid(rt.a) && c.ptr == old(c.ptr) && c.Rec(rt.a) == old(c.Rec(rt.a))
    ensures c.shareStack.owner == old(c.shareStack.owner)
    ensures c.shareStack.Rec() == var s := old(c.shareStack.Rec()); s.(mem := low + s.mem[|low|..])
    ensures Holds(rt.a, n, m, r) && ThreadNow(rt, m.(cpu := to))
  {
    hide RestIn, Holds;
    assert allocated(r.mains) && allocated(r.cos) && allocated(r.stks);
    ghost var mem, rec := c.shareStack.mem.data[..], c.Rec(rt.a);
    forall i | 0 <= i < |low| {
      c.shareStack.mem.data[i] := low[i];
    }
    assert c.shareStack.mem.data[..] == low + mem[|low|..];
    assert c.Rec(rt.a) == rec;
    rt.cpu.Compute(rt.a, to);
  }

  /** The code of the running coroutine between two calls: any registers, any bytes below the return slot. */
  method Body(rt: Runtime, c: Co, to: Ctx, low: seq<Byte>, ghost b: Book) returns (ghost b': Book)
    requires Is(rt, b) && Filed(b, c) && b.st.running == Some(c.id) && Legal(Abs(b.st), M.Body(to, low))
    modifies rt.cpu, b.so
    ensures Is(rt, b') && M.Ok(b'.st) == Step(b.st, M.Body(to, low)) && b' == b.(st := b'.st)
  {
    RanRecords(b.st, to, low);
    hide M.Inv, Formed, RestIn, Holds, Without, M.BodyRan, CoNow, StkNow, Co.Rec, ShareStack.Rec, Co.Valid, Clear, Only;
    hide CoFoot, StkFoot, Step, Legal, Abs;
    TheRecords(rt, b, c);
    TheCo(rt, b, c);
    ghost var k, i := c.shareStack.id, c.id;
    ghost var m, r := b.st, Without(b, None, Some(i), Some(k));
    Split(rt, b, None, Some(i), Some(k));
    BodyBeside(rt, c, to, low, b.n, m, r);
    b' := b.(st := M.BodyRan(m, to, low));
    CoStkIs(rt, b, b'.st, c);
  }

  /** A thread that has done nothing yet. */
  method Begin(a: Arch, prot: seq<Byte>, cpu: Cpu) returns (rt: Runtime, ghost b: Book)
    requires |prot| == a.W() && cpu.sp >= a.W()
    ensures fresh(rt) && rt.cpu == cpu && rt.a == a
    ensures Is(rt, b) && b.st == Start(a, prot, cpu.Now(a))
    ensures b.n == Names(map[], map[], map[], map[]) && b.mo == b.co == b.so == {}
  {
    rt := new Runtime(a, prot, cpu);
    b := Book(Names(map[], map[], map[], map[]), {}, {}, {}, Start(a, prot, cpu.Now(a)));
    StartOk(a, prot, cpu.Now(a));
  }
}
