/** What the library promises its users, for every run of the shared-stack machine. */
module Guarantees {
  import opened Platform
  import opened Geometry
  import opened Switch
  import opened Machine
  import opened PrivateStacks
  import opened Refinement
  import opened Lifecycle
  import opened Runs
  import SaveBuffer

  // ---------------------------------------------------------------- bodies that stay in their window

  /** Every suspended coroutine stopped inside the save window, and no stack exceeds half the address space. */
  predicate Tight(p: PState)
    requires PLinked(p)
  {
    && (forall k | k in p.geoms :: GeomOk(p.arch, p.geoms[k]) && p.geoms[k].sz <= p.arch.Half())
    && (forall c | c in p.cos :: TightCo(p, c))
  }

  predicate TightCo(p: PState, c: nat)
    requires PLinked(p) && c in p.cos
  {
    p.cos[c].ended || p.running == Some(c) || InWindow(p.geoms[p.cos[c].stk], p.cos[c].ctx.sp)
  }

  /** The further contract under which nothing aborts: yield inside the window, ask for no huge stack. */
  predicate Careful(p: PState, l: Label)
    requires PLinked(p) && Legal(p, l)
  {
    match l
    case Yield => InWindow(p.geoms[p.cos[p.running.value].stk], p.cpu.sp)
    case NewStack(_, req, guard, pg, base, _) =>
      (match StackGeom(p.arch, req, guard, pg, base)
       case None => true
       case Some(g) => g.sz <= p.arch.Half())
    case _ => true
  }

  predicate CarefulRun(p: PState, ls: seq<Label>)
    requires PLinked(p)
    decreases |ls|
  {
    ls == [] || !Legal(p, ls[0]) ||
    (Careful(p, ls[0]) &&
     (PStepLinked(p, ls[0]);
      match PStep(p, ls[0]) case Abort => true case Ok(p') => CarefulRun(p', ls[1..])))
  }

  lemma TightKept(p: PState, l: Label)
    requires PLinked(p) && Tight(p) && Legal(p, l) && Careful(p, l) && PStep(p, l).Ok?
    ensures PLinked(PStep(p, l).value) && Tight(PStep(p, l).value)
  {
    var p' := PStep(p, l).value;
    PStepLinked(p, l);
    if l.NewStack? {
      StackGeomOk(p.arch, l.req, l.guard, l.pg, l.base);
    }
    forall k | k in p'.geoms ensures GeomOk(p'.arch, p'.geoms[k]) && p'.geoms[k].sz <= p'.arch.Half() {
      assert k in p.geoms || l.NewStack?;
    }
    forall c | c in p'.cos ensures TightCo(p', c) {
      assert c in p.cos ==> TightCo(p, c);
    }
  }

  lemma WindowCanSave(a: Arch, s: Stk, o: Co)
    requires GeomOk(a, s.geom) && s.geom.sz <= a.Half() && o.save.cap > 0
    ensures CannotSave(a, s, o) <==> !InWindow(s.geom, o.ctx.sp)
  {
    if InWindow(s.geom, o.ctx.sp) && o.save.cap < s.geom.ret - o.ctx.sp {
      SaveBuffer.GrownIsLeast(a, o.save.cap, s.geom.ret - o.ctx.sp);
    }
  }

  lemma OwnerInWindow(m: State, k: nat)
    requires Inv(m) && Tight(Abs(m)) && m.running == None && k in m.stks && m.stks[k].owner.Some?
    ensures var o := m.cos[m.stks[k].owner.value];
            && o.save.cap > 0 && InWindow(m.stks[k].geom, o.ctx.sp)
            && GeomOk(m.arch, m.stks[k].geom) && m.stks[k].geom.sz <= m.arch.Half()
  {
    var o := m.stks[k].owner.value;
    assert StkInv(m, k);
    assert CoInv(m, o);
    assert TightCo(Abs(m), o);
    assert Abs(m).cos[o] == AbsCo(m, o);
    assert Abs(m).geoms[k] == m.stks[k].geom;
  }

  lemma TightNeverFails(m: State, c: nat)
    requires Inv(m) && Tight(Abs(m)) && m.running == None && c in m.cos
    ensures ResumeFails(m, c) <==> m.cos[c].ended
  {
    var k := m.cos[c].stk;
    if m.stks[k].owner.Some? {
      OwnerInWindow(m, k);
      WindowCanSave(m.arch, m.stks[k], m.cos[m.stks[k].owner.value]);
    }
  }

  /**
   * Full refinement: with bodies that yield inside their window the two machines agree on every run,
   * outcome for outcome; in particular the shared-stack machine aborts only where the private one does.
   */
  lemma {:induction false} CarefulRunsAgree(m: State, ls: seq<Label>)
    requires Inv(m) && Tight(Abs(m)) && CarefulRun(Abs(m), ls)
    ensures match Run(m, ls)
            case Done(m') => PRun(Abs(m), ls) == Done(Abs(m')) && Tight(Abs(m'))
            case Aborted => PRun(Abs(m), ls).Aborted?
            case Illegal => PRun(Abs(m), ls).Illegal?
    decreases |ls|
  {
    if ls != [] && Legal(Abs(m), ls[0]) {
      var l := ls[0];
      StepRefines(m, l);
      if Step(m, l).Ok? {
        TightKept(Abs(m), l);
        CarefulRunsAgree(Step(m, l).value, ls[1..]);
      } else if l.Resume? {
        TightNeverFails(m, l.co);
        assert Abs(m).cos[l.co].ended;
      }
    }
  }

  // ---------------------------------------------------------------- what comes back

  /** In the private machine only a coroutine's own events touch its stack and context. */
  lemma {:induction false} Untouched(p: PState, ls: seq<Label>, c: nat)
    requires PLinked(p) && c in p.cos && p.running != Some(c) && PRun(p, ls).Done?
    requires Resume(c) !in ls && Destroy(c) !in ls
    ensures var p' := PRun(p, ls).state;
            && p'.arch == p.arch && c in p'.cos && p'.running != Some(c) && p'.cos[c] == p.cos[c]
            && p'.geoms[p.cos[c].stk] == p.geoms[p.cos[c].stk]
    decreases |ls|
  {
    if ls != [] {
      PStepLinked(p, ls[0]);
      Untouched(PStep(p, ls[0]).value, ls[1..], c);
    }
  }

  lemma {:induction false} RunAppend(m: State, ks: seq<Label>, ls: seq<Label>)
    requires Inv(m)
    ensures Run(m, ks + ls) == match Run(m, ks) case Done(m') => Run(m', ls) case o => o
    decreases |ks|
  {
    if ks == [] {
      assert ks + ls == ls;
    } else {
      assert (ks + ls)[0] == ks[0] && (ks + ls)[1..] == ks[1..] + ls;
      if Legal(Abs(m), ks[0]) {
        StepRefines(m, ks[0]);
        if Step(m, ks[0]).Ok? {
          RunAppend(Step(m, ks[0]).value, ks[1..], ls);
        }
      }
    }
  }

  /** Two consecutive parts of a run. */
  lemma RunSplit(m: State, ks: seq<Label>, ls: seq<Label>) returns (mid: State)
    requires Inv(m) && Run(m, ks + ls).Done?
    ensures Run(m, ks) == Done(mid) && Inv(mid) && Run(mid, ls) == Run(m, ks + ls)
  {
    RunAppend(m, ks, ls);
    mid := Run(m, ks).state;
  }

  lemma RunOne(m: State, l: Label)
    requires Inv(m) && Run(m, [l]).Done?
    ensures Legal(Abs(m), l) && Step(m, l) == Ok(Run(m, [l]).state)
  {
    assert [l][1..] == [];
    StepRefines(m, l);
  }

  /**
   * The promise. A coroutine that yields and is resumed later, after any events whatever in between, by any
   * number of coroutines on the same or other stacks, continues with the same instruction pointer, stack
   * pointer, preserved registers and FPU words, and finds below its return slot exactly the bytes it left.
   */
  lemma StackComesBack(m: State, ls: seq<Label>, c: nat)
    requires Inv(m) && m.running == Some(c)
    requires Resume(c) !in ls && Destroy(c) !in ls && Run(m, [Yield] + ls + [Resume(c)]).Done?
    ensures var m' := Run(m, [Yield] + ls + [Resume(c)]).state;
            && m'.running == Some(c) && m'.gtls == OfCo(c)
            && m'.cpu == m.cpu
            && m'.cos[c].stk == m.cos[c].stk && m'.cos[c].arg == m.cos[c].arg
            && m'.stks[m.cos[c].stk].geom == m.stks[m.cos[c].stk].geom
            && Bytes(m'.stks[m'.cos[c].stk], m'.cpu.sp) == Bytes(m.stks[m.cos[c].stk], m.cpu.sp)
  {
    var m2 := RunSplit(m, [Yield] + ls, [Resume(c)]);
    var m1 := RunSplit(m, [Yield], ls);
    RunOne(m, Yield);
    RunOne(m2, Resume(c));
    Yielded(m, c, m1);
    RunsAgree(m1, ls);
    Untouched(Abs(m1), ls, c);
    Reentered(m2, c, Run(m2, [Resume(c)]).state);
  }

  lemma Yielded(m: State, c: nat, m1: State)
    requires Inv(m) && m.running == Some(c) && Inv(m1)
    requires Legal(Abs(m), Yield) && Step(m, Yield) == Ok(m1)
    ensures c in m1.cos && m1.running == None
    ensures var k := m.cos[c].stk; k in m1.stks && m1.stks[k].geom == m.stks[k].geom
    ensures var co := m.cos[c];
            AbsCo(m1, c) == PCo(co.main, co.stk, co.arg, false, m.cpu, Bytes(m.stks[co.stk], m.cpu.sp))
  {
    assert CoInv(m, c);
  }

  lemma Reentered(m: State, c: nat, m1: State)
    requires Inv(m) && Legal(Abs(m), Resume(c)) && Step(m, Resume(c)) == Ok(m1)
    ensures m1.running == Some(c) && m1.gtls == OfCo(c)
    ensures c in m1.cos && m1.cos[c].stk in m1.stks && m1.cos[c].stk == m.cos[c].stk
    ensures m1.cpu == m.cos[c].ctx && m1.cos[c].arg == m.cos[c].arg
    ensures m.cos[c].stk in m.stks && m1.stks[m.cos[c].stk].geom == m.stks[m.cos[c].stk].geom
    ensures Bytes(m1.stks[m1.cos[c].stk], m1.cpu.sp) == AbsCo(m, c).live
  {
    StepRefines(m, Resume(c));
    assert Abs(m1).cos[c] == AbsCo(m1, c) == AbsCo(m, c);
    assert CoInv(m1, c);
  }

  /** The stack pointer of the running coroutine is inside its stack, and the memory goes that far. */
  predicate OnItsStack(m: State, c: nat)
    requires Linked(m)
  {
    && m.running == Some(c)
    && var s := m.stks[m.cos[c].stk];
       s.geom.ptr <= m.cpu.sp <= s.geom.ret && s.geom.ret - s.geom.ptr <= |s.mem|
  }

  lemma RunningSp(m: State, c: nat)
    requires Inv(m) && m.running == Some(c)
    ensures OnItsStack(m, c) && |m.stks[m.cos[c].stk].mem| == m.stks[m.cos[c].stk].geom.sz
  {
    assert StkInv(m, m.cos[c].stk);
  }

  /** The same of the memory itself: from the stack pointer to the return slot every byte of the stack is as it was. */
  lemma BytesComeBack(m: State, ls: seq<Label>, c: nat)
    requires Inv(m) && m.running == Some(c)
    requires Resume(c) !in ls && Destroy(c) !in ls && Run(m, [Yield] + ls + [Resume(c)]).Done?
    ensures OnItsStack(m, c)
    ensures var m', k := Run(m, [Yield] + ls + [Resume(c)]).state, m.cos[c].stk;
            && k in m'.stks && m'.stks[k].geom == m.stks[k].geom && |m'.stks[k].mem| == |m.stks[k].mem|
            && var lo, hi := m.cpu.sp - m.stks[k].geom.ptr, m.stks[k].geom.ret - m.stks[k].geom.ptr;
               m'.stks[k].mem[lo..hi] == m.stks[k].mem[lo..hi]
  {
    hide Inv, Run;
    StackComesBack(m, ls, c);
    RunningSp(m, c);
    RunningSp(Run(m, [Yield] + ls + [Resume(c)]).state, c);
  }

  /** aco_exit is final: whatever happens next, a resume of a coroutine that has exited aborts. */
  lemma ExitIsFinal(m: State, ls: seq<Label>, c: nat)
    requires Inv(m) && m.running == Some(c) && Destroy(c) !in ls && Run(m, [Exit] + ls).Done?
    ensures var m' := Run(m, [Exit] + ls).state;
            && c in m'.cos && m'.running != Some(c)
            && (m'.running == None ==> Run(m, [Exit] + ls + [Resume(c)]).Aborted?)
  {
    hide Inv, Run;
    var m1 := RunSplit(m, [Exit], ls);
    RunOne(m, Exit);
    ExitedNow(m, m1, c);
    RunsAgree(m1, ls);
    StaysEnded(Abs(m1), ls, c);
    RunAppend(m, [Exit] + ls, [Resume(c)]);
    EndedAborts(Run(m, [Exit] + ls).state, c);
  }

  lemma ExitedNow(m: State, m1: State, c: nat)
    requires Inv(m) && m.running == Some(c) && Inv(m1) && Legal(Abs(m), Exit) && Step(m, Exit) == Ok(m1)
    ensures c in Abs(m1).cos && Abs(m1).cos[c].ended && Abs(m1).running != Some(c)
  {
    StepRefines(m, Exit);
  }

  lemma {:induction false} StaysEnded(p: PState, ls: seq<Label>, c: nat)
    requires PLinked(p) && c in p.cos && p.cos[c].ended && p.running != Some(c)
    requires PRun(p, ls).Done? && Destroy(c) !in ls
    ensures var p' := PRun(p, ls).state; c in p'.cos && p'.cos[c].ended && p'.running != Some(c)
    decreases |ls|
  {
    if ls != [] {
      PStepLinked(p, ls[0]);
      StaysEnded(PStep(p, ls[0]).value, ls[1..], c);
    }
  }

  lemma EndedAborts(m: State, c: nat)
    requires Inv(m) && c in Abs(m).cos && Abs(m).cos[c].ended
    ensures c in m.cos && (m.running == None ==> Run(m, [Resume(c)]).Aborted?)
  {
    hide Inv;
    if m.running == None { EndedNow(m, c); }
  }

  lemma EndedNow(m: State, c: nat)
    requires Linked(m) && m.running == None && c in Abs(m).cos && Abs(m).cos[c].ended
    ensures Legal(Abs(m), Resume(c)) && Step(m, Resume(c)).Abort?
  {
    assert Abs(m).cos[c] == AbsCo(m, c);
  }

  lemma Entered(m: State, l: Label, ls: seq<Label>)
    requires Inv(m) && l.Create? && Resume(l.c) !in ls && Destroy(l.c) !in ls
    requires Run(m, [l] + ls + [Resume(l.c)]).Done?
    ensures l.stk in m.stks
    ensures var m' := Run(m, [l] + ls + [Resume(l.c)]).state;
            var ret := m.stks[l.stk].geom.ret;
            && m'.running == Some(l.c) && m'.cos[l.c].stk == l.stk && m'.cos[l.c].arg == l.arg
            && m'.stks[l.stk].geom.ret == ret
            && m'.cpu == FirstCtx(m.arch, l.fp, ret, m.initCw, m.initMxcsr)
            && m.prot <= Top(m'.stks[l.stk])
  {
    var c := l.c;
    var m2 := RunSplit(m, [l] + ls, [Resume(c)]);
    var m1 := RunSplit(m, [l], ls);
    RunOne(m, l);
    RunOne(m2, Resume(c));
    assert Abs(m1).cos[c] == AbsCo(m1, c);
    RunsAgree(m1, ls);
    Untouched(Abs(m1), ls, c);
    assert Abs(m2).cos[c] == AbsCo(m2, c);
    var m3 := Run(m2, [Resume(c)]).state;
    Reentered(m2, c, m3);
    FirstSlot(m1, m2, m3, ls, c);
  }

  /**
   * The same for a coroutine's first entry: its function, the return slot, zeros and the thread's FPU words,
   * with the protector as the return address its function would use, and its argument for aco_get_arg.
   */
  lemma FirstEntry(m: State, l: Label, ls: seq<Label>)
    requires Inv(m) && l.Create? && Resume(l.c) !in ls && Destroy(l.c) !in ls
    requires Run(m, [l] + ls + [Resume(l.c)]).Done?
    ensures l.stk in m.stks
    ensures var m' := Run(m, [l] + ls + [Resume(l.c)]).state;
            var ret := m.stks[l.stk].geom.ret;
            && m'.running == Some(l.c) && m'.cos[l.c].stk == l.stk && m'.cos[l.c].arg == l.arg
            && m'.stks[l.stk].geom.ret == ret
            && m'.cpu.ip == l.fp && m'.cpu.sp == ret
            && |m'.cpu.callee| == NumCallee(m.arch) && (forall i | 0 <= i < |m'.cpu.callee| :: m'.cpu.callee[i] == 0)
            && m'.cpu.cw == m.initCw && m'.cpu.mxcsr == m.initMxcsr
            && m.prot <= Top(m'.stks[l.stk])
  {
    hide Inv, Run, FirstCtx, Top;
    Entered(m, l, ls);
    FirstCtxFields(m.arch, l.fp, m.stks[l.stk].geom.ret, m.initCw, m.initMxcsr);
  }

  lemma StepKeepsWords(m: State, l: Label)
    requires Inv(m) && Legal(Abs(m), l) && Step(m, l).Ok? && l != ThreadInit
    ensures Step(m, l).value.initCw == m.initCw && Step(m, l).value.initMxcsr == m.initMxcsr
  {
    hide Inv;
    StepRefines(m, l);
    assert Abs(Step(m, l).value).initCw == Step(m, l).value.initCw;
  }

  lemma {:induction false} RunKeepsWords(m: State, ls: seq<Label>)
    requires Inv(m) && ThreadInit !in ls && Run(m, ls).Done?
    ensures Run(m, ls).state.initCw == m.initCw && Run(m, ls).state.initMxcsr == m.initMxcsr
    decreases |ls|
  {
    if ls != [] {
      StepRefines(m, ls[0]);
      StepKeepsWords(m, ls[0]);
      RunKeepsWords(Step(m, ls[0]).value, ls[1..]);
    }
  }

  /** The FPU words a coroutine starts with are those the CPU had at the last aco_thread_init before its creation. */
  lemma WordsOfThreadInit(m: State, ks: seq<Label>, l: Label, ls: seq<Label>)
    requires Inv(m) && ThreadInit !in ks && l.Create? && Resume(l.c) !in ls && Destroy(l.c) !in ls
    requires Run(m, [ThreadInit] + ks + ([l] + ls + [Resume(l.c)])).Done?
    ensures var m' := Run(m, [ThreadInit] + ks + ([l] + ls + [Resume(l.c)])).state;
            m'.cpu.ip == l.fp && m'.cpu.cw == m.cpu.cw && m'.cpu.mxcsr == m.cpu.mxcsr
  {
    hide Inv, Run;
    var m2 := RunSplit(m, [ThreadInit] + ks, [l] + ls + [Resume(l.c)]);
    var m1 := RunSplit(m, [ThreadInit], ks);
    RunOne(m, ThreadInit);
    RunKeepsWords(m1, ks);
    FirstEntry(m2, l, ls);
  }

  lemma FirstSlot(m1: State, m2: State, m3: State, ls: seq<Label>, c: nat)
    requires Inv(m1) && c in m1.cos && Run(m1, ls) == Done(m2) && Inv(m3)
    requires c in m2.cos && m2.cos[c].stk == m1.cos[c].stk
    requires Abs(m2).geoms[m2.cos[c].stk] == Abs(m1).geoms[m1.cos[c].stk]
    requires Legal(Abs(m2), Resume(c)) && Step(m2, Resume(c)) == Ok(m3)
    ensures var k := m1.cos[c].stk;
            k in m3.stks && m3.stks[k].geom == m1.stks[k].geom && m1.prot <= Top(m3.stks[k])
  {
    var k := m1.cos[c].stk;
    StepKeepsSlot(m2, Resume(c), k);
    RunKeepsProt(m1, ls);
    assert StkInv(m3, k);
  }

  // ---------------------------------------------------------------- the return slot

  predicate SameSlot(m: State, m': State, k: nat)
    requires k in m.stks
  {
    m'.prot == m.prot && k in m'.stks && Top(m'.stks[k]) == Top(m.stks[k]) && m'.stks[k].geom == m.stks[k].geom
  }

  lemma EvictKeepsSlot(m: State, j: nat, k: nat)
    requires Linked(m) && j in m.stks && k in m.stks && Evict(m, j).Ok?
    ensures SameSlot(m, Evict(m, j).value, k)
  {
  }

  lemma OccupyKeepsSlot(m: State, c: nat, k: nat)
    requires Linked(m) && c in m.cos && k in m.stks && Occupy(m, c).Ok?
    requires GeomOk(m.arch, m.stks[m.cos[c].stk].geom)
    requires |m.stks[m.cos[c].stk].mem| == m.stks[m.cos[c].stk].geom.sz
    ensures SameSlot(m, Occupy(m, c).value, k)
  {
    PlacedOk(m.arch, m.stks[m.cos[c].stk], m.cos[c].save.bytes);
  }

  lemma ResumeKeepsSlot(m: State, c: nat, k: nat)
    requires Inv(m) && m.running == None && c in m.cos && k in m.stks && Resumed(m, c).Ok?
    ensures SameSlot(m, Resumed(m, c).value, k)
  {
    hide Top, Taken, Saved;
    var j := m.cos[c].stk;
    if !Owns(m, c) {
      EvictedLinks(m, j);
      EvictKeepsSlot(m, j, k);
      assert StkInv(m, j);
      OccupyKeepsSlot(Evict(m, j).value, c, k);
    }
  }

  lemma SwitchKeepsSlot(m: State, l: Label, k: nat)
    requires Linked(m) && Legal(Abs(m), l) && Step(m, l).Ok? && k in m.stks && (l.Yield? || l.Exit?)
    ensures SameSlot(m, Step(m, l).value, k)
  {
  }

  lemma OtherKeepsSlot(m: State, l: Label, k: nat)
    requires Linked(m) && Legal(Abs(m), l) && Step(m, l).Ok? && k in m.stks && l != FreeStack(k)
    requires !l.Resume? && !l.Body? && !l.Yield? && !l.Exit?
    ensures SameSlot(m, Step(m, l).value, k)
  {
    hide NewStk, NewCo, StackGeom, StackBytes, FirstCtx;
  }

  /** No step but freeing a stack changes the bytes from its return slot up. */
  lemma StepKeepsSlot(m: State, l: Label, k: nat)
    requires Inv(m) && Legal(Abs(m), l) && Step(m, l).Ok? && k in m.stks && l != FreeStack(k)
    ensures SameSlot(m, Step(m, l).value, k)
  {
    if l.Resume? {
      ResumeKeepsSlot(m, l.co, k);
    } else if l.Body? {
      BodyLegalHere(m, l.to, l.low);
      BodyKeepsTop(m, l.to, l.low, k);
    } else if l.Yield? || l.Exit? {
      SwitchKeepsSlot(m, l, k);
    } else {
      OtherKeepsSlot(m, l, k);
    }
  }

  /** Over any run that does not free the stack, its return slot holds the protector and nothing above it changes. */
  lemma {:induction false} TopStays(m: State, ls: seq<Label>, k: nat)
    requires Inv(m) && k in m.stks && FreeStack(k) !in ls && Run(m, ls).Done?
    ensures var m' := Run(m, ls).state;
            k in m'.stks && Top(m'.stks[k]) == Top(m.stks[k]) && m.prot <= Top(m.stks[k])
    decreases |ls|
  {
    assert StkInv(m, k);
    if ls != [] {
      StepRefines(m, ls[0]);
      StepKeepsSlot(m, ls[0], k);
      TopStays(Step(m, ls[0]).value, ls[1..], k);
    }
  }

  /** In every reachable state the word at the return slot of every stack is the protector. */
  lemma Protected(start: State, ls: seq<Label>, k: nat)
    requires Inv(start) && Run(start, ls).Done? && k in Run(start, ls).state.stks
    ensures var s := Run(start, ls).state.stks[k];
            var slot := s.geom.ret - s.geom.ptr;
            && 0 <= slot && slot + |start.prot| <= |s.mem| && |start.prot| == start.arch.W()
            && s.mem[slot..slot + |start.prot|] == start.prot
  {
    hide CoInv;
    var m := Run(start, ls).state;
    RunKeepsProt(start, ls);
    assert StkInv(m, k);
    SlotHolds(m.arch, m.prot, m.stks[k]);
  }

  lemma SlotHolds(a: Arch, prot: seq<Byte>, s: Stk)
    requires StkOk(a, prot, s)
    ensures var slot := s.geom.ret - s.geom.ptr;
            0 <= slot && slot + |prot| <= |s.mem| && s.mem[slot..slot + |prot|] == prot
  {
    assert Top(s)[..|prot|] == prot;
  }

  lemma {:induction false} RunKeepsProt(m: State, ls: seq<Label>)
    requires Inv(m) && Run(m, ls).Done?
    ensures Run(m, ls).state.prot == m.prot
    decreases |ls|
  {
    if ls != [] {
      StepRefines(m, ls[0]);
      StepKeepsProt(m, ls[0]);
      RunKeepsProt(Step(m, ls[0]).value, ls[1..]);
    }
  }

  lemma StepKeepsProt(m: State, l: Label)
    requires Inv(m) && Legal(Abs(m), l) && Step(m, l).Ok?
    ensures Step(m, l).value.prot == m.prot
  {
    if l.Resume? {
      ResumeKeepsSlot(m, l.co, m.cos[l.co].stk);
    }
  }

  // ---------------------------------------------------------------- the main coroutine

  lemma {:induction false} MainUntouched(p: PState, ls: seq<Label>, c: nat)
    requires PLinked(p) && p.running == Some(c) && PRun(p, ls).Done?
    requires Yield !in ls && Exit !in ls
    ensures var p' := PRun(p, ls).state;
            && p'.running == Some(c) && p'.gtls == p.gtls
            && p'.cos[c].main == p.cos[c].main
            && p'.mains[p.cos[c].main] == p.mains[p.cos[c].main]
    decreases |ls|
  {
    if ls != [] {
      PStepLinked(p, ls[0]);
      MainUntouched(PStep(p, ls[0]).value, ls[1..], c);
    }
  }

  /**
   * Bracketing. Once c is resumed, c alone runs and aco_gtls_co names it until it yields or exits; that
   * returns to the one outstanding aco_resume, whose caller finds all its registers as it left them.
   */
  lemma MainComesBack(m: State, ls: seq<Label>, c: nat, back: Label)
    requires Inv(m) && c in m.cos && (back.Yield? || back.Exit?) && Yield !in ls && Exit !in ls
    requires Run(m, [Resume(c)] + ls + [back]).Done?
    ensures Run(m, [Resume(c)] + ls).Done?
    ensures Run(m, [Resume(c)] + ls).state.running == Some(c) && Run(m, [Resume(c)] + ls).state.gtls == OfCo(c)
    ensures var m' := Run(m, [Resume(c)] + ls + [back]).state;
            m'.running == None && m'.cpu == m.cpu && m'.gtls == OfMain(m.cos[c].main)
  {
    var m2 := RunSplit(m, [Resume(c)] + ls, [back]);
    var m1 := RunSplit(m, [Resume(c)], ls);
    RunOne(m, Resume(c));
    RunOne(m2, back);
    ResumeRefines(m, c);
    assert Abs(m).cos[c] == AbsCo(m, c);
    RunsAgree(m1, ls);
    MainUntouched(Abs(m1), ls, c);
    StepRefines(m2, back);
  }

  // ---------------------------------------------------------------- reachable states

  /** A thread before its first call into the library. */
  function Start(a: Arch, prot: seq<Byte>, cpu: Ctx): State {
    State(a, prot, 0, 0, map[], map[], map[], None, Unset, cpu)
  }

  lemma StartOk(a: Arch, prot: seq<Byte>, cpu: Ctx)
    requires |prot| == a.W() && CtxOk(a, cpu) && cpu.sp >= a.W()
    ensures Inv(Start(a, prot, cpu)) && Tight(Abs(Start(a, prot, cpu)))
  {
  }

  /**
   * The bookkeeping of every coroutine in every reachable state. One more save than restores exactly while
   * its bytes are in its buffer; the restore side never raises max_cpsz; and the buffer is the one asked
   * for at creation or less than twice the largest copy, each doubling having been forced by a copy.
   */
  lemma Bookkeeping(start: State, ls: seq<Label>, c: nat)
    requires Inv(start) && Run(start, ls).Done? && c in Run(start, ls).state.cos
    ensures var m := Run(start, ls).state;
            var co := m.cos[c];
            var v := co.save;
            && v.ctSave - v.ctRestore == (if !co.ended && !Owns(m, c) && |v.bytes| > 0 then 1 else 0)
            && Restored(co).save.maxCp == v.maxCp
            && |v.bytes| <= v.cap && |v.bytes| <= v.maxCp && v.maxCp + m.arch.W() <= m.stks[co.stk].geom.limit
            && (m.stks[co.stk].geom.sz <= m.arch.Half() ==>
                  && (v.cap == v.init || v.cap < 2 * v.maxCp)
                  && (v.grown > 0 ==> Scaled(v.init, v.grown - 1) < v.maxCp))
  {
    var m := Run(start, ls).state;
    assert CoInv(m, c);
    SaveFacts(m.arch, m.stks[m.cos[c].stk].geom, m.cos[c], !m.cos[c].ended && !Owns(m, c));
  }

  /**
   * Who is on a stack, in every reachable state: nobody, with a valid size of 0, or one live coroutine of this
   * stack that has not ended. Every other live coroutine's bytes are in its buffer and end at the return slot.
   */
  lemma Ownership(start: State, ls: seq<Label>, k: nat, c: nat)
    requires Inv(start) && Run(start, ls).Done?
    requires var m := Run(start, ls).state; k in m.stks && c in m.cos && m.cos[c].stk == k
    ensures var m := Run(start, ls).state;
            var s := m.stks[k];
            match s.owner
            case None => s.validSz == 0
            case Some(o) =>
              o in m.cos && m.cos[o].stk == k && !m.cos[o].ended && s.validSz == |m.cos[o].save.bytes| + m.arch.W()
    ensures var m := Run(start, ls).state;
            var co := m.cos[c];
            var s := m.stks[k];
            !co.ended && s.owner != Some(c) ==>
              && m.running != Some(c)
              && co.ctx.sp == s.geom.ret - |co.save.bytes|
              && |co.save.bytes| <= co.save.cap && |co.save.bytes| <= s.geom.limit - m.arch.W()
  {
    var m := Run(start, ls).state;
    assert StkInv(m, k);
    assert CoInv(m, c);
  }

  lemma SaveFacts(a: Arch, g: Geom, co: Co, stored: bool)
    requires SaveOk(a, g, co.save, stored)
    ensures var v := co.save;
            && v.ctSave - v.ctRestore == (if stored && |v.bytes| > 0 then 1 else 0)
            && Restored(co).save.maxCp == v.maxCp
            && (g.sz <= a.Half() ==> v.cap == v.init || v.cap < 2 * v.maxCp)
  {
    if co.save.grown > 0 {
      assert Scaled(co.save.init, co.save.grown) == 2 * Scaled(co.save.init, co.save.grown - 1);
    }
  }

  // ---------------------------------------------------------------- the counters over a coroutine's life

  /** l resumes another coroutine on the stack that o owns, so that o's bytes are saved. */
  predicate PutsOff(m: State, l: Label, o: nat)
    requires Linked(m) && o in m.cos
  {
    && l.Resume? && l.co != o && l.co in m.cos && m.cos[l.co].stk == m.cos[o].stk
    && m.stks[m.cos[o].stk].owner == Some(o)
  }

  /** The save record after o's live bytes have gone to its buffer. */
  predicate TookCopy(v: Save, v': Save, live: seq<Byte>) {
    && v'.bytes == live && v'.maxCp == (if v.maxCp < |live| then |live| else v.maxCp)
    && v'.ctSave == v.ctSave + (if |live| > 0 then 1 else 0) && v'.ctRestore == v.ctRestore
    && v'.init == v.init && (|live| <= v.cap ==> v'.cap == v.cap && v'.grown == v.grown)
  }

  /** In a resume of d: of c put off its stack, ... */
  lemma PutOffSaves(m: State, d: nat, c: nat)
    requires Inv(m) && m.running == None && c in m.cos && Resumed.requires(m, d) && Resumed(m, d).Ok?
    requires PutsOff(m, Resume(d), c)
    ensures var m' := Resumed(m, d).value;
            c in m'.cos && TookCopy(m.cos[c].save, m'.cos[c].save, Bytes(m.stks[m.cos[c].stk], m.cos[c].ctx.sp))
  {
    hide Inv, Taken, Saved, Restored, Bytes, TookCopy;
    ResumedRecords(m, d);
    SavedTookCopy(m.arch, m.stks[m.cos[c].stk], m.cos[c]);
  }

  /** ... of c itself when somebody else or nobody is on its stack, ... */
  lemma PutBackRestores(m: State, c: nat)
    requires Inv(m) && m.running == None && c in m.cos && Resumed(m, c).Ok?
    requires m.stks[m.cos[c].stk].owner != Some(c)
    ensures var v, m' := m.cos[c].save, Resumed(m, c).value;
            c in m'.cos && m'.cos[c].save == v.(ctRestore := v.ctRestore + (if |v.bytes| > 0 then 1 else 0))
  {
    hide Taken, Saved;
    ResumedRecords(m, c);
    assert CoInv(m, c);
  }

  /** ... and of anyone else. */
  lemma OthersKeep(m: State, d: nat, c: nat)
    requires Inv(m) && m.running == None && c in m.cos && d in m.cos && Resumed(m, d).Ok?
    requires !PutsOff(m, Resume(d), c) && (d != c || m.stks[m.cos[c].stk].owner == Some(c))
    ensures c in Resumed(m, d).value.cos && Resumed(m, d).value.cos[c] == m.cos[c]
  {
    hide Taken, Saved, Restored;
    ResumedRecords(m, d);
    assert StkInv(m, m.cos[d].stk);
  }

  lemma SavedTookCopy(a: Arch, s: Stk, o: Co)
    requires Saved(a, s, o).Ok?
    ensures TookCopy(o.save, Saved(a, s, o).value.save, Bytes(s, o.ctx.sp))
  {
    hide SaveBuffer.Steps, SaveBuffer.Grown, Bytes;
  }

  lemma NoResumeKeeps(m: State, l: Label, c: nat)
    requires Inv(m) && Legal(Abs(m), l) && Step(m, l).Ok? && c in m.cos && l != Destroy(c) && !l.Resume?
    ensures c in Step(m, l).value.cos && Step(m, l).value.cos[c].save == m.cos[c].save
  {
    hide Inv, NewStk, NewCo, StackGeom, StackBytes, FirstCtx;
  }

  lemma ResumeLegal(m: State, c: nat)
    requires Linked(m) && Legal(Abs(m), Resume(c))
    ensures m.running == None && c in m.cos && Step(m, Resume(c)) == Resumed(m, c)
  {
  }

  /**
   * What any step does to a coroutine's save record: put off its stack it takes a copy of its live bytes; put
   * back, when it has any bytes, it counts one more restore; and nothing else touches the record.
   */
  lemma StepSaves(m: State, l: Label, c: nat)
    requires Inv(m) && Legal(Abs(m), l) && Step(m, l).Ok? && c in m.cos && l != Destroy(c)
    ensures var v, m' := m.cos[c].save, Step(m, l).value;
            && c in m'.cos
            && if PutsOff(m, l, c) then TookCopy(v, m'.cos[c].save, Bytes(m.stks[m.cos[c].stk], m.cos[c].ctx.sp))
               else if l == Resume(c) && m.stks[m.cos[c].stk].owner != Some(c)
               then m'.cos[c].save == v.(ctRestore := v.ctRestore + (if |v.bytes| > 0 then 1 else 0))
               else m'.cos[c].save == v
  {
    hide TookCopy, Bytes, Inv, Legal, Step;
    if !l.Resume? {
      NoResumeKeeps(m, l, c);
    } else {
      ResumeLegal(m, l.co);
      if PutsOff(m, l, c) {
        PutOffSaves(m, l.co, c);
      } else if l.co == c && m.stks[m.cos[c].stk].owner != Some(c) {
        PutBackRestores(m, c);
      } else {
        OthersKeep(m, l.co, c);
      }
    }
  }

  /** The bytes in c's buffer after the first n events. */
  function BufferAt(m: State, ls: seq<Label>, n: nat, c: nat): nat
    requires Inv(m) && n <= |ls|
  {
    match Run(m, ls[..n])
    case Done(m') => if c in m'.cos then |m'.cos[c].save.bytes| else 0
    case _ => 0
  }

  lemma BufferLater(m: State, ls: seq<Label>, n: nat, c: nat)
    requires Inv(m) && 0 < n <= |ls| && Legal(Abs(m), ls[0]) && Step(m, ls[0]).Ok? && Inv(Step(m, ls[0]).value)
    ensures BufferAt(m, ls, n, c) == BufferAt(Step(m, ls[0]).value, ls[1..], n - 1, c)
  {
    hide Inv;
    assert ls[..n][0] == ls[0] && ls[..n][1..] == ls[1..][..n - 1];
  }

  lemma BufferNow(m: State, ls: seq<Label>, c: nat)
    requires Inv(m) && c in m.cos
    ensures BufferAt(m, ls, 0, c) == |m.cos[c].save.bytes| <= m.cos[c].save.maxCp
  {
    assert ls[..0] == [];
    assert CoInv(m, c);
  }

  /** The largest copy grows to the copy taken, or stays. */
  lemma StepCopies(m: State, l: Label, c: nat)
    requires Inv(m) && Legal(Abs(m), l) && Step(m, l).Ok? && c in m.cos && l != Destroy(c)
    ensures Inv(Step(m, l).value) && c in Step(m, l).value.cos
    ensures var top, v' := m.cos[c].save.maxCp, Step(m, l).value.cos[c].save;
            top <= v'.maxCp && (v'.maxCp != top ==> v'.maxCp == |v'.bytes|) && v'.init == m.cos[c].save.init
  {
    hide Inv, Step, PutsOff, Bytes;
    StepRefines(m, l);
    StepSaves(m, l, c);
  }

  /** No copy in c's buffer is larger than `top`, which is `was` or the size of one of them. */
  ghost predicate Peak(m: State, ls: seq<Label>, c: nat, was: nat, top: nat)
    requires Inv(m)
  {
    && was <= top
    && (forall n: nat | n <= |ls| :: BufferAt(m, ls, n, c) <= top)
    && (top == was || exists n: nat :: n <= |ls| && BufferAt(m, ls, n, c) == top)
  }

  lemma PeakEarlier(m: State, ls: seq<Label>, c: nat, top: nat)
    requires Inv(m) && c in m.cos && ls != [] && Legal(Abs(m), ls[0]) && Step(m, ls[0]).Ok? && ls[0] != Destroy(c)
    requires var m1 := Step(m, ls[0]).value;
             Inv(m1) && c in m1.cos && Peak(m1, ls[1..], c, m1.cos[c].save.maxCp, top)
    ensures Peak(m, ls, c, m.cos[c].save.maxCp, top)
  {
    hide Inv, Step, Run, Legal, BufferAt, Abs, Linked, PLinked;
    var m1, rest := Step(m, ls[0]).value, ls[1..];
    BufferNow(m, ls, c);
    BufferNow(m1, rest, c);
    StepCopies(m, ls[0], c);
    forall n: nat | 0 < n <= |ls| ensures BufferAt(m, ls, n, c) == BufferAt(m1, rest, n - 1, c) {
      BufferLater(m, ls, n, c);
    }
    if top != m.cos[c].save.maxCp {
      var n: nat :| n <= |rest| && BufferAt(m1, rest, n, c) == top;
      assert BufferAt(m, ls, n + 1, c) == top;
    }
  }

  lemma {:induction false} CopiesBelow(m: State, ls: seq<Label>, c: nat)
    requires Inv(m) && c in m.cos && Destroy(c) !in ls && Run(m, ls).Done?
    ensures c in Run(m, ls).state.cos
    ensures Peak(m, ls, c, m.cos[c].save.maxCp, Run(m, ls).state.cos[c].save.maxCp)
    ensures Run(m, ls).state.cos[c].save.init == m.cos[c].save.init
    decreases |ls|
  {
    hide Inv, Step, Peak, BufferAt;
    if ls == [] {
      BufferNow(m, ls, c);
      PeakNow(m, c);
    } else {
      StepCopies(m, ls[0], c);
      CopiesBelow(Step(m, ls[0]).value, ls[1..], c);
      PeakEarlier(m, ls, c, Run(m, ls).state.cos[c].save.maxCp);
    }
  }

  lemma PeakNow(m: State, c: nat)
    requires Inv(m) && c in m.cos
    ensures Peak(m, [], c, m.cos[c].save.maxCp, m.cos[c].save.maxCp)
  {
    hide Inv, BufferAt;
    BufferNow(m, [], c);
  }

  /** The record aco_create makes, field by field; a requested buffer size of 0 means 64. */
  lemma CreatedRecord(m: State, l: Label)
    requires Linked(m) && l.Create? && Legal(Abs(m), l)
    ensures Step(m, l).Ok? && l.stk in m.stks
    ensures var m' := Step(m, l).value;
            && l.c in m'.cos
            && var co := m'.cos[l.c];
            && co.main == l.main && co.stk == l.stk && co.fp == l.fp && co.arg == l.arg && !co.ended
            && co.ctx.ip == l.fp && co.ctx.sp == m.stks[l.stk].geom.ret
            && co.ctx.cw == m.initCw && co.ctx.mxcsr == m.initMxcsr
            && co.save.bytes == [] && co.save.cap == co.save.init == (if l.saveSz == 0 then 64 else l.saveSz)
            && co.save.maxCp == co.save.ctSave == co.save.ctRestore == co.save.grown == 0
  {
  }

  lemma FirstIsLegal(m: State, l: Label, ls: seq<Label>)
    requires Inv(m) && Run(m, [l] + ls).Done?
    ensures Legal(Abs(m), l)
  {
  }

  lemma LifeBegins(m: State, l: Label, ls: seq<Label>)
    requires Inv(m) && l.Create? && Legal(Abs(m), l) && Run(m, [l] + ls).Done?
    ensures Step(m, l).Ok? && Inv(Step(m, l).value) && Run(m, [l] + ls) == Run(Step(m, l).value, ls)
    ensures l.c !in m.cos && BufferAt(m, [l] + ls, 0, l.c) == 0
    ensures forall n: nat | 0 < n <= |[l] + ls| ::
              BufferAt(m, [l] + ls, n, l.c) == BufferAt(Step(m, l).value, ls, n - 1, l.c)
  {
    hide Inv, Step;
    assert ([l] + ls)[1..] == ls && ([l] + ls)[..0] == [];
    StepRefines(m, l);
    assert l.c !in Abs(m).cos;
    forall n: nat | 0 < n <= |[l] + ls|
      ensures BufferAt(m, [l] + ls, n, l.c) == BufferAt(Step(m, l).value, ls, n - 1, l.c)
    {
      BufferLater(m, [l] + ls, n, l.c);
    }
  }

  /**
   * max_cpsz over a whole life: after any events since its creation it is the largest number of bytes that the
   * coroutine's buffer has held at any time, and its first buffer had the size asked for, 64 bytes for 0.
   */
  lemma LargestCopy(m: State, l: Label, ls: seq<Label>)
    requires Inv(m) && l.Create? && Destroy(l.c) !in ls && Run(m, [l] + ls).Done?
    ensures l.c in Run(m, [l] + ls).state.cos
    ensures var m', top := Run(m, [l] + ls).state, Run(m, [l] + ls).state.cos[l.c].save.maxCp;
            && m'.cos[l.c].save.init == (if l.saveSz == 0 then 64 else l.saveSz)
            && (forall n: nat | n <= |[l] + ls| :: BufferAt(m, [l] + ls, n, l.c) <= top)
            && exists n: nat :: n <= |[l] + ls| && BufferAt(m, [l] + ls, n, l.c) == top
  {
    hide Inv, Step, Run, Legal, BufferAt, Abs, Linked, PLinked;
    FirstIsLegal(m, l, ls);
    LifeBegins(m, l, ls);
    CreatedRecord(m, l);
    var m1, all := Step(m, l).value, [l] + ls;
    CopiesBelow(m1, ls, l.c);
    var top := Run(m, all).state.cos[l.c].save.maxCp;
    if n: nat :| n <= |ls| && BufferAt(m1, ls, n, l.c) == top {
      assert BufferAt(m, all, n + 1, l.c) == top;
    } else {
      assert BufferAt(m, all, 0, l.c) == top;
    }
  }
}
