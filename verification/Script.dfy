/**
 * Any sequence of events whatever, played in place on the objects and arrays of a thread: the memory ends where
 * the run of the machine ends, and so a coroutine that is resumed finds its bytes in memory.
 */
module Script {
  import opened Platform
  import opened Aco
  import opened Thread
  import opened PrivateStacks
  import opened Refinement
  import opened Runs
  import opened Guarantees
  import opened Changes
  import opened Records
  import opened Naming
  import W = WholeHeap
  import M = Machine

  /** The client's own table of what it has created, by name. */
  datatype Table = Table(mains: map<nat, Co>, cos: map<nat, Co>, stks: map<nat, ShareStack>)

  ghost predicate Lists(t: Table, b: Book) { t.mains == b.n.mains && t.cos == b.n.cos && t.stks == b.n.stks }

  /** The same coroutine objects are under the same names, unless the events destroy them. */
  predicate Keeps(t: Table, t': Table, ls: seq<M.Label>) {
    forall c | c in t.cos && M.Destroy(c) !in ls :: c in t'.cos && t'.cos[c] == t.cos[c]
  }

  /** The event as it happened: the system chooses where a new stack is and what is in it. */
  predicate Varies(l: M.Label, did: M.Label) {
    did == l || (l.NewStack? && did.NewStack? && did == l.(base := did.base, fill := did.fill))
  }

  /** What happened is the script, or the script up to a stack that the system put elsewhere. */
  predicate Follows(ls: seq<M.Label>, ran: seq<M.Label>) {
    || ran == ls
    || (0 < |ran| <= |ls| && ran[..|ran| - 1] == ls[..|ran| - 1]
        && ran[|ran| - 1] != ls[|ran| - 1] && Varies(ls[|ran| - 1], ran[|ran| - 1]))
  }

  // ---------------------------------------------------------------- one event

  lemma InTable(rt: Runtime, b: Book, c: nat)
    requires Is(rt, b) && c in b.st.cos
    ensures c in b.n.cos && b.n.cos[c].id == c && Filed(b, b.n.cos[c])
  {
    SameNames(rt, b);
    NamedRight(rt, b, c);
  }

  lemma MainInTable(rt: Runtime, b: Book, i: nat)
    requires Is(rt, b) && i in b.st.mains
    ensures i in b.n.mains && b.n.mains[i].id == i && FiledMain(b, b.n.mains[i])
  {
    SameNames(rt, b);
    hide M.Inv, Holds;
    assert MainShape(rt.a, b.n, i);
  }

  lemma StkInTable(rt: Runtime, b: Book, k: nat)
    requires Is(rt, b) && k in b.st.stks
    ensures k in b.n.stks && b.n.stks[k].id == k && FiledStk(b, b.n.stks[k])
  {
    SameNames(rt, b);
    hide M.Inv, Holds;
    assert StkShape(rt.a, b.n, k);
  }

  /** The running coroutine is the one that aco_gtls_co names. */
  lemma Gtls(rt: Runtime, b: Book)
    requires Is(rt, b) && b.st.running.Some?
    ensures rt.gtls != null && b.st.running == Some(rt.gtls.id) && rt.gtls.id in b.st.cos
  {
    hide Formed, Holds;
  }

  /** aco_resume, aco_yield and aco_exit. */
  method DoSwitch(rt: Runtime, l: M.Label, t: Table, ghost b: Book) returns (ok: bool, ghost b': Book)
    requires Is(rt, b) && Lists(t, b) && Legal(Abs(b.st), l) && (l.Resume? || l.Yield? || l.Exit?)
    modifies rt`gtls, rt.cpu, b.mo, b.co, b.so
    ensures ok ==> Is(rt, b') && Lists(t, b') && Step(b.st, l) == M.Ok(b'.st)
    ensures !ok ==> Step(b.st, l).Abort?
    ensures b'.mo == b.mo && b'.so == b.so && fresh(b'.co - b.co)
  {
    SwitchLegal(b.st, l);
    hide Formed, Holds, ThreadNow, RestIn, Step, Legal, Abs, M.Inv, ResumeFails, Filed;
    ok := true;
    if l.Resume? {
      InTable(rt, b, l.co);
      ok, b' := W.Resume(rt, t.cos[l.co], b);
    } else {
      Gtls(rt, b);
      InTable(rt, b, rt.gtls.id);
      var c := t.cos[rt.gtls.id];
      if l.Yield? {
        b' := W.Yield(rt, c, b);
      } else {
        ok, b' := W.Exit(rt, c, b);
      }
    }
  }

  lemma SwitchLegal(m: M.State, l: M.Label)
    requires M.Linked(m) && Legal(Abs(m), l)
    ensures l.Resume? ==> l.co in m.cos
    ensures l.Yield? || l.Exit? ==> m.running.Some?
  {
  }

  /** aco_create of a main coroutine. */
  method DoNewMain(rt: Runtime, l: M.Label, t: Table, ghost b: Book) returns (t': Table, ghost b': Book)
    requires Is(rt, b) && Lists(t, b) && Legal(Abs(b.st), l) && l.NewMain?
    ensures Is(rt, b') && Lists(t', b') && Step(b.st, l) == M.Ok(b'.st) && t'.cos == t.cos
    ensures fresh(b'.mo - b.mo) && b'.co == b.co && b'.so == b.so
  {
    hide Is, Step, Legal, Abs;
    var c;
    c, b' := W.CreateMain(rt, l.i, 0, 0, b);
    t' := t.(mains := t.mains[c.id := c]);
  }

  /** aco_create of a coroutine. */
  method DoCreate(rt: Runtime, l: M.Label, t: Table, ghost b: Book) returns (t': Table, ghost b': Book)
    requires Is(rt, b) && Lists(t, b) && Legal(Abs(b.st), l) && l.Create?
    ensures Is(rt, b') && Lists(t', b') && Step(b.st, l) == M.Ok(b'.st)
    ensures l.c !in t.cos && l.c in t'.cos && t'.cos == t.cos[l.c := t'.cos[l.c]]
    ensures b'.mo == b.mo && fresh(b'.co - b.co) && b'.so == b.so
  {
    CreateLegal(b.st, l);
    NotInTable(rt, b, l.c);
    MainInTable(rt, b, l.main);
    StkInTable(rt, b, l.stk);
    hide Is, Step, Legal, Abs, FiledMain, FiledStk, Filed;
    var c;
    c, b' := W.Create(rt, l.c, t.mains[l.main], t.stks[l.stk], l.saveSz, l.fp, l.arg, b);
    t' := t.(cos := t.cos[c.id := c]);
  }

  lemma NotInTable(rt: Runtime, b: Book, c: nat)
    requires Is(rt, b) && c !in b.st.cos
    ensures c !in b.n.cos
  {
    SameNames(rt, b);
  }

  /** aco_share_stack_new2 */
  method DoNewStack(rt: Runtime, l: M.Label, t: Table, ghost b: Book)
    returns (ok: bool, did: M.Label, t': Table, ghost b': Book)
    requires Is(rt, b) && Lists(t, b) && Legal(Abs(b.st), l) && l.NewStack?
    ensures ok ==> Is(rt, b') && Lists(t', b') && Legal(Abs(b.st), did) && Step(b.st, did) == M.Ok(b'.st)
    ensures !ok ==> Step(b.st, l).Abort?
    ensures Varies(l, did) && t'.cos == t.cos && b'.mo == b.mo && b'.co == b.co && fresh(b'.so - b.so)
  {
    CreateLegal(b.st, l);
    hide Formed, Holds, ThreadNow, Step, Legal, Abs, M.Inv, FiledStk;
    var r;
    r, did, b' := W.NewShareStack(rt, l.k, l.req, l.guard, l.pg, b);
    SameFate(b.st, l, did);
    ok, t' := r.Some?, t;
    if ok {
      t' := t.(stks := t.stks[l.k := r.value]);
    }
  }

  lemma CreateLegal(m: M.State, l: M.Label)
    requires M.Linked(m) && Legal(Abs(m), l)
    ensures l.Create? ==> l.c !in m.cos && l.main in m.mains && l.stk in m.stks
    ensures l.NewStack? ==> l.k !in m.stks && l.req < m.arch.Space() && l.pg < m.arch.Half()
  {
  }

  /** aco_destroy of a coroutine. */
  method DoDestroy(rt: Runtime, l: M.Label, t: Table, ghost b: Book) returns (t': Table, ghost b': Book)
    requires Is(rt, b) && Lists(t, b) && Legal(Abs(b.st), l) && l.Destroy?
    modifies b.co, b.so
    ensures Is(rt, b') && Lists(t', b') && Step(b.st, l) == M.Ok(b'.st) && t'.cos == t.cos - {l.gone}
    ensures b'.mo == b.mo && b'.co <= b.co && b'.so == b.so
  {
    FreeLegal(b.st, l);
    InTable(rt, b, l.gone);
    hide Is, Step, Legal, Abs, Filed;
    b' := W.Destroy(rt, t.cos[l.gone], b);
    t' := t.(cos := t.cos - {l.gone});
  }

  /** aco_share_stack_destroy */
  method DoFreeStack(rt: Runtime, l: M.Label, t: Table, ghost b: Book) returns (t': Table, ghost b': Book)
    requires Is(rt, b) && Lists(t, b) && Legal(Abs(b.st), l) && l.FreeStack?
    ensures Is(rt, b') && Lists(t', b') && Step(b.st, l) == M.Ok(b'.st) && t'.cos == t.cos
    ensures b'.mo == b.mo && b'.co == b.co && b'.so <= b.so
  {
    FreeLegal(b.st, l);
    StkInTable(rt, b, l.freed);
    hide Is, Step, Legal, Abs, FiledStk;
    var s := t.stks[l.freed];
    W.FreeStack(rt, s, b);
    b' := b.(n := DropStk(b.n, l.freed), so := b.so - {s, s.mem.data}, st := Step(b.st, l).value);
    t' := t.(stks := t.stks - {l.freed});
  }

  /** aco_destroy of a main coroutine. */
  method DoFreeMain(rt: Runtime, l: M.Label, t: Table, ghost b: Book) returns (t': Table, ghost b': Book)
    requires Is(rt, b) && Lists(t, b) && Legal(Abs(b.st), l) && l.FreeMain?
    ensures Is(rt, b') && Lists(t', b') && Step(b.st, l) == M.Ok(b'.st) && t'.cos == t.cos
    ensures b'.mo <= b.mo && b'.co == b.co && b'.so == b.so
  {
    FreeLegal(b.st, l);
    MainInTable(rt, b, l.over);
    TheMain(rt, b, t.mains[l.over]);
    hide Is, Step, Legal, Abs, FiledMain;
    b' := W.DestroyMain(rt, t.mains[l.over], b);
    t' := t.(mains := t.mains - {l.over});
  }

  lemma FreeLegal(m: M.State, l: M.Label)
    requires M.Linked(m) && Legal(Abs(m), l)
    ensures l.Destroy? ==> l.gone in m.cos
    ensures l.FreeStack? ==> l.freed in m.stks
    ensures l.FreeMain? ==> l.over in m.mains
  {
  }

  /** aco_thread_init, and code of main or of the running coroutine. */
  method DoRun(rt: Runtime, l: M.Label, t: Table, ghost b: Book) returns (ghost b': Book)
    requires Is(rt, b) && Lists(t, b) && Legal(Abs(b.st), l) && (l.ThreadInit? || l.Compute? || l.Body?)
    modifies rt, rt.cpu, b.so
    ensures Is(rt, b') && Lists(t, b') && Step(b.st, l) == M.Ok(b'.st) && b' == b.(st := b'.st)
  {
    RunLegal(b.st, l);
    hide Formed, Holds, ThreadNow, RestIn, Step, Legal, Abs, M.Inv, Filed;
    if l.ThreadInit? {
      b' := W.ThreadInit(rt, 0, b);
    } else if l.Compute? {
      b' := W.Compute(rt, l.at, b);
    } else {
      Gtls(rt, b);
      InTable(rt, b, rt.gtls.id);
      b' := W.Body(rt, t.cos[rt.gtls.id], l.to, l.low, b);
    }
  }

  lemma RunLegal(m: M.State, l: M.Label)
    requires M.Linked(m) && Legal(Abs(m), l)
    ensures l.Body? ==> m.running.Some?
  {
  }

  /** One event, whichever it is. */
  method Do(rt: Runtime, l: M.Label, t: Table, ghost b: Book)
    returns (ok: bool, did: M.Label, t': Table, ghost b': Book)
    requires Is(rt, b) && Lists(t, b) && Legal(Abs(b.st), l)
    modifies rt, rt.cpu, b.mo, b.co, b.so
    ensures ok ==> Is(rt, b') && Lists(t', b') && Legal(Abs(b.st), did) && Step(b.st, did) == M.Ok(b'.st)
    ensures !ok ==> Step(b.st, l).Abort?
    ensures Varies(l, did) && Keeps(t, t', [l])
    ensures fresh(b'.mo - b.mo) && fresh(b'.co - b.co) && fresh(b'.so - b.so)
  {
    hide Is, Lists, Step, Legal, Abs, M.Inv;
    ok, did, t' := true, l, t;
    if l.Resume? || l.Yield? || l.Exit? {
      ok, b' := DoSwitch(rt, l, t, b);
    } else if l.NewMain? {
      t', b' := DoNewMain(rt, l, t, b);
    } else if l.NewStack? {
      ok, did, t', b' := DoNewStack(rt, l, t, b);
    } else if l.Create? {
      t', b' := DoCreate(rt, l, t, b);
    } else if l.Destroy? {
      t', b' := DoDestroy(rt, l, t, b);
    } else if l.FreeStack? {
      t', b' := DoFreeStack(rt, l, t, b);
    } else if l.FreeMain? {
      t', b' := DoFreeMain(rt, l, t, b);
    } else {
      b' := DoRun(rt, l, t, b);
    }
  }

  // ---------------------------------------------------------------- any sequence of events

  lemma KeepsOn(t: Table, t1: Table, t2: Table, ls: seq<M.Label>)
    requires ls != [] && Keeps(t, t1, [ls[0]]) && Keeps(t1, t2, ls[1..])
    ensures Keeps(t, t2, ls)
  {
  }

  lemma KeepsAll(t: Table, ls: seq<M.Label>)
    ensures Keeps(t, t, ls)
  {
  }

  lemma KeepsFirst(t: Table, t1: Table, ls: seq<M.Label>)
    requires ls != [] && Keeps(t, t1, [ls[0]])
    ensures Keeps(t, t1, ls)
  {
  }

  lemma FollowsOn(ls: seq<M.Label>, rest: seq<M.Label>)
    requires ls != [] && Follows(ls[1..], rest)
    ensures Follows(ls, [ls[0]] + rest)
  {
    var ran := [ls[0]] + rest;
    if rest == ls[1..] {
      assert ran == ls;
    } else {
      assert ran[..|ran| - 1] == [ls[0]] + rest[..|rest| - 1];
      assert ls[..|ran| - 1] == [ls[0]] + ls[1..][..|rest| - 1];
    }
  }

  lemma RunHead(m: M.State, l: M.Label, rest: seq<M.Label>)
    requires M.Inv(m) && Legal(Abs(m), l) && Step(m, l).Ok?
    ensures M.Inv(Step(m, l).value) && Run(m, [l] + rest) == Run(Step(m, l).value, rest)
  {
    hide Legal, Abs, Step, M.Inv;
    assert ([l] + rest)[1..] == rest;
    RunThen(m, [l] + rest);
  }

  /**
   * Any events whatever that the contract allows, in place: the memory ends as the state in which the machine's
   * run ends, and the script stops only where that run aborts. `ran` is what happened, which is the script
   * unless the system puts a new stack where the script does not say.
   */
  method Play(rt: Runtime, ls: seq<M.Label>, t: Table, ghost b: Book)
    returns (ok: bool, ran: seq<M.Label>, t': Table, ghost b': Book)
    requires Is(rt, b) && Lists(t, b) && !Run(b.st, ls).Illegal?
    modifies rt, rt.cpu, b.mo, b.co, b.so
    ensures ok ==> Is(rt, b') && Lists(t', b') && Follows(ls, ran) && Run(b.st, ran) == Done(b'.st)
    ensures !ok ==> Run(b.st, ls).Aborted?
    ensures Keeps(t, t', ls)
    ensures fresh(b'.mo - b.mo) && fresh(b'.co - b.co) && fresh(b'.so - b.so)
    decreases |ls|
  {
    hide Formed, Holds, ThreadNow, RestIn, Lists, Step, Legal, Abs, M.Inv, Keeps, Varies, Follows, Run;
    ok, ran, t', b' := true, ls, t, b;
    if ls == [] {
      NothingRan(b.st);
      KeepsAll(t, ls);
    } else {
      FirstLegal(b.st, ls);
      RunThen(b.st, ls);
      var did;
      ok, did, t', b' := Do(rt, ls[0], t, b);
      KeepsFirst(t, t', ls);
      if !ok { return; }
      RunHead(b.st, did, []);
      NothingRan(b'.st);
      if did == ls[0] {
        ghost var t1, m1 := t', b'.st;
        ok, ran, t', b' := Play(rt, ls[1..], t', b');
        KeepsOn(t, t1, t', ls);
        if ok {
          FollowsOn(ls, ran);
          RunHead(b.st, did, ran);
          ran := [did] + ran;
        }
      } else {
        OtherStack(ls, did);
        ran := [did];
        assert [did] + [] == [did];
      }
    }
  }

  lemma NothingRan(m: M.State)
    requires M.Inv(m)
    ensures Run(m, []) == Done(m) && Follows([], [])
  {
  }

  lemma FirstLegal(m: M.State, ls: seq<M.Label>)
    requires M.Inv(m) && ls != [] && !Run(m, ls).Illegal?
    ensures Legal(Abs(m), ls[0])
  {
  }

  lemma OtherStack(ls: seq<M.Label>, did: M.Label)
    requires ls != [] && did != ls[0] && Varies(ls[0], did)
    ensures Follows(ls, [did])
  {
  }

  // ---------------------------------------------------------------- the promise, on the bytes in memory

  ghost function MemOf(c: Co): set<object> { if c.shareStack == null then {} else {c.shareStack.mem.data} }

  /** The bytes of the running coroutine c, from the stack pointer to the return slot. */
  ghost function OnStack(rt: Runtime, c: Co): seq<Byte>
    reads rt, rt.cpu, c, c.shareStack, MemOf(c)
  {
    if c.shareStack == null then []
    else
      var s := c.shareStack;
      if s.geom.ptr <= rt.cpu.sp <= s.geom.ret && s.geom.ret - s.geom.ptr <= s.mem.data.Length
      then s.mem.data[rt.cpu.sp - s.geom.ptr..s.geom.ret - s.geom.ptr] else []
  }

  lemma OnStackRec(rt: Runtime, c: Co)
    ensures c.shareStack != null ==> OnStack(rt, c) == M.Bytes(c.shareStack.Rec(), rt.cpu.sp)
  {
  }

  lemma OnStackIs(rt: Runtime, b: Book, c: Co)
    requires Is(rt, b) && Filed(b, c)
    ensures c.id in b.st.cos && b.st.cos[c.id].stk in b.st.stks
    ensures OnStack(rt, c) == M.Bytes(b.st.stks[b.st.cos[c.id].stk], b.st.cpu.sp) && rt.cpu.Now(rt.a) == b.st.cpu
  {
    hide M.Inv, Formed, Holds, Co.Rec, Co.Valid, CoFoot, StkFoot, OnStack, M.Bytes, ShareStack.Rec;
    TheRecords(rt, b, c);
    OnStackRec(rt, c);
  }

  /**
   * Coroutine c gives way, anything whatever happens, on its stack and elsewhere, and it is resumed. Whatever was
   * copied and whatever buffers were replaced on the way, c goes on where it was, with its own bytes in the array
   * of its stack.
   */
  method GiveWay(rt: Runtime, c: Co, ls: seq<M.Label>, t: Table, ghost b: Book)
    returns (ok: bool, ran: seq<M.Label>, t': Table, ghost b': Book)
    requires Is(rt, b) && Lists(t, b) && Filed(b, c) && b.st.running == Some(c.id)
    requires M.Resume(c.id) !in ls && M.Destroy(c.id) !in ls
    requires !Run(b.st, [M.Yield] + ls + [M.Resume(c.id)]).Illegal?
    modifies rt, rt.cpu, b.mo, b.co, b.so
    ensures !ok ==> Run(b.st, [M.Yield] + ls + [M.Resume(c.id)]).Aborted?
    ensures ok ==> Is(rt, b') && Lists(t', b') && Run(b.st, ran) == Done(b'.st)
    ensures ok ==> Follows([M.Yield] + ls + [M.Resume(c.id)], ran) && Filed(b', c)
    ensures ok && ran == [M.Yield] + ls + [M.Resume(c.id)] ==>
              && b'.st.running == Some(c.id)
              && rt.cpu.Now(rt.a) == old(rt.cpu.Now(rt.a)) && OnStack(rt, c) == old(OnStack(rt, c))
  {
    hide Formed, Holds, ThreadNow, RestIn, OnStack, M.Bytes, M.Inv, Run, Follows;
    var run := [M.Yield] + ls + [M.Resume(c.id)];
    OnStackIs(rt, b, c);
    ok, ran, t', b' := Play(rt, run, t, b);
    assert c.id in t.cos && M.Destroy(c.id) !in run;
    if ok && ran == run {
      StackComesBack(b.st, ls, c.id);
      OnStackIs(rt, b', c);
    }
  }
}
