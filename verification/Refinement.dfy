/**
 * The shared-stack machine, looked at through Abs, is the private-stack machine: every step keeps the
 * invariant, every step commutes with Abs, and the only abort the private machine does not have is the
 * save-time test on the occupant's stack pointer (or its buffer size wrapping).
 */
module Refinement {
  import opened Platform
  import opened Geometry
  import opened Machine
  import opened PrivateStacks
  import SaveBuffer

  /** A coroutine's own bytes, wherever they are: on the stack under its current or suspended SP, or in its buffer. */
  function Live(m: State, c: nat): seq<Byte>
    requires c in m.cos && m.cos[c].stk in m.stks
  {
    var co := m.cos[c];
    if co.ended then []
    else if m.running == Some(c) then Bytes(m.stks[co.stk], m.cpu.sp)
    else if Owns(m, c) then Bytes(m.stks[co.stk], co.ctx.sp)
    else co.save.bytes
  }

  function AbsCo(m: State, c: nat): PCo
    requires c in m.cos && m.cos[c].stk in m.stks
  {
    var co := m.cos[c];
    PCo(co.main, co.stk, co.arg, co.ended, co.ctx, Live(m, c))
  }

  function AbsCos(m: State): (r: map<nat, PCo>)
    requires Linked(m)
    ensures r.Keys == m.cos.Keys
  {
    map c | c in m.cos :: AbsCo(m, c)
  }

  function Geoms(m: State): (r: map<nat, Geom>)
    ensures r.Keys == m.stks.Keys
  {
    map k | k in m.stks :: m.stks[k].geom
  }

  function Abs(m: State): (p: PState)
    requires Linked(m)
    ensures PLinked(p)
  {
    PState(m.arch, m.initCw, m.initMxcsr, m.mains, AbsCos(m), Geoms(m), m.running, m.gtls, m.cpu)
  }

  // ---------------------------------------------------------------- saving and restoring

  /** Saving one coroutine keeps its record in order and its bytes exactly. */
  lemma SavedOk(a: Arch, prot: seq<Byte>, s: Stk, o: Co)
    requires StkOk(a, prot, s) && CoOk(a, s.geom, o, true, false) && !o.ended
    ensures Saved(a, s, o).Ok? ==>
              var o' := Saved(a, s, o).value;
              && CoOk(a, s.geom, o', false, false)
              && o' == o.(save := o'.save)
              && o'.save.bytes == Bytes(s, o.ctx.sp)
              && |o'.save.bytes| == s.geom.ret - o.ctx.sp
    ensures InWindow(s.geom, o.ctx.sp) && s.geom.sz <= a.Half() ==> Saved(a, s, o).Ok?
  {
    if InWindow(s.geom, o.ctx.sp) {
      var live := Bytes(s, o.ctx.sp);
      assert |live| == s.geom.ret - o.ctx.sp;
      if s.geom.sz <= a.Half() && o.save.cap < |live| {
        SaveBuffer.GrownIsLeast(a, o.save.cap, |live|);
        var n := SaveBuffer.Steps(o.save.cap, |live|);
        ScaledTwice(o.save.init, o.save.grown, n);
        ScaledTwice(o.save.init, o.save.grown, n - 1);
      }
    }
  }

  lemma EvictedCo(m: State, k: nat, d: nat)
    requires Linked(m) && k in m.stks && m.running == None && d in m.cos
    requires Evict(m, k).Ok? && Linked(Evict(m, k).value)
    requires StkInv(m, k) && CoInv(m, d)
    requires m.stks[k].owner.Some? ==> CoInv(m, m.stks[k].owner.value)
    ensures var m' := Evict(m, k).value; d in m'.cos && CoInv(m', d) && AbsCo(m', d) == AbsCo(m, d)
  {
    if m.stks[k].owner == Some(d) {
      SavedOk(m.arch, m.prot, m.stks[k], m.cos[d]);
    }
  }

  lemma EvictedStk(m: State, k: nat, j: nat)
    requires Linked(m) && k in m.stks && j in m.stks
    requires StkInv(m, k) && StkInv(m, j) && Evict(m, k).Ok? && Linked(Evict(m, k).value)
    ensures StkInv(Evict(m, k).value, j)
  {
  }

  /** Eviction changes who is on the stack ... */
  lemma EvictKeepsInv(m: State, k: nat)
    requires Inv(m) && k in m.stks && m.running == None && Evict(m, k).Ok?
    ensures Inv(Evict(m, k).value)
  {
    EvictedLinks(m, k);
    var m' := Evict(m, k).value;
    EvictedRun(m, m');
    forall d | d in m'.cos ensures CoInv(m', d) {
      EvictedCo(m, k, d);
    }
    forall j | j in m'.stks ensures StkInv(m', j) {
      EvictedStk(m, k, j);
    }
  }

  lemma EvictedRun(m: State, m': State)
    requires Linked(m) && Linked(m') && RunInv(m)
    requires m' == m.(cos := m'.cos, stks := m'.stks) && m.running == None
    ensures RunInv(m')
  {
  }

  /** ... and nothing a coroutine can see. */
  lemma EvictKeepsAbs(m: State, k: nat)
    requires Inv(m) && k in m.stks && m.running == None && Evict(m, k).Ok?
    ensures Linked(Evict(m, k).value) && Abs(Evict(m, k).value) == Abs(m)
  {
    EvictedLinks(m, k);
    var m' := Evict(m, k).value;
    forall d | d in m'.cos ensures AbsCo(m', d) == AbsCo(m, d) {
      EvictedCo(m, k, d);
    }
    AbsIs(m', Abs(m));
  }

  /** Abs(m) is p when they agree coroutine by coroutine and stack by stack. */
  lemma AbsIs(m: State, p: PState)
    requires Linked(m)
    requires p == PState(m.arch, m.initCw, m.initMxcsr, m.mains, p.cos, p.geoms, m.running, m.gtls, m.cpu)
    requires p.cos.Keys == m.cos.Keys && forall d | d in m.cos :: AbsCo(m, d) == p.cos[d]
    requires p.geoms.Keys == m.stks.Keys && forall j | j in m.stks :: m.stks[j].geom == p.geoms[j]
    ensures Abs(m) == p
  {
    assert AbsCos(m) == p.cos;
    assert Geoms(m) == p.geoms;
  }

  // ---------------------------------------------------------------- occupying a stack

  /** Putting bytes below the return slot makes exactly them readable there, and leaves the rest alone. */
  lemma PlacedOk(a: Arch, s: Stk, bytes: seq<Byte>)
    requires GeomOk(a, s.geom) && |s.mem| == s.geom.sz && |bytes| + a.W() <= s.geom.limit
    ensures var s' := s.(mem := Placed(s, bytes));
            && |s'.mem| == |s.mem|
            && Top(s') == Top(s)
            && Bytes(s', s.geom.ret - |bytes|) == bytes
  {
    var s' := s.(mem := Placed(s, bytes));
    assert Top(s') == Top(s);
    assert Bytes(s', s.geom.ret - |bytes|) == bytes;
  }

  lemma TakenOk(a: Arch, prot: seq<Byte>, s: Stk, c: nat, bytes: seq<Byte>)
    requires StkOk(a, prot, s) && |bytes| + a.W() <= s.geom.limit
    ensures StkOk(a, prot, Taken(a, s, c, bytes))
  {
    PlacedOk(a, s, bytes);
    assert Top(Taken(a, s, c, bytes)) == Top(s.(mem := Placed(s, bytes)));
  }

  predicate CanOccupy(m: State, c: nat)
    requires Linked(m)
  {
    m.running == None && c in m.cos && !m.cos[c].ended && m.stks[m.cos[c].stk].owner == None
  }

  /** The asserts at lines 432 and 434 never fire. */
  lemma OccupyNeverAborts(m: State, c: nat)
    requires Inv(m) && CanOccupy(m, c)
    ensures Occupy(m, c).Ok?
  {
    assert CoInv(m, c);
  }

  lemma OccupiedLinks(m: State, c: nat)
    requires Linked(m) && CanOccupy(m, c) && Occupy(m, c).Ok?
    ensures var m' := Occupy(m, c).value;
            && Linked(m') && m'.cos.Keys == m.cos.Keys && m'.stks.Keys == m.stks.Keys
            && m' == m.(cos := m'.cos, stks := m'.stks) && Owns(m', c) && !m'.cos[c].ended
            && forall j | j in m.stks :: m'.stks[j].geom == m.stks[j].geom
  {
  }

  lemma OccupiedCo(m: State, c: nat, d: nat)
    requires Linked(m) && CanOccupy(m, c) && Occupy(m, c).Ok? && Linked(Occupy(m, c).value)
    requires StkInv(m, m.cos[c].stk) && CoInv(m, c) && d in m.cos && CoInv(m, d)
    ensures var m' := Occupy(m, c).value; d in m'.cos && CoInv(m', d) && AbsCo(m', d) == AbsCo(m, d)
  {
    if d == c {
      PlacedOk(m.arch, m.stks[m.cos[c].stk], m.cos[c].save.bytes);
    }
  }

  lemma OccupiedStk(m: State, c: nat, j: nat)
    requires Linked(m) && CanOccupy(m, c) && Occupy(m, c).Ok? && Linked(Occupy(m, c).value)
    requires CoInv(m, c) && j in m.stks && StkInv(m, j)
    ensures StkInv(Occupy(m, c).value, j)
  {
    if j == m.cos[c].stk {
      TakenOk(m.arch, m.prot, m.stks[j], c, m.cos[c].save.bytes);
    }
  }

  lemma OccupyKeepsInv(m: State, c: nat)
    requires Inv(m) && CanOccupy(m, c) && Occupy(m, c).Ok?
    ensures Inv(Occupy(m, c).value)
  {
    OccupiedLinks(m, c);
    var m' := Occupy(m, c).value;
    EvictedRun(m, m');
    forall d | d in m'.cos ensures CoInv(m', d) {
      OccupiedCo(m, c, d);
    }
    forall j | j in m'.stks ensures StkInv(m', j) {
      OccupiedStk(m, c, j);
    }
  }

  lemma OccupyKeepsAbs(m: State, c: nat)
    requires Inv(m) && CanOccupy(m, c) && Occupy(m, c).Ok?
    ensures Linked(Occupy(m, c).value) && Abs(Occupy(m, c).value) == Abs(m)
  {
    OccupiedLinks(m, c);
    var m' := Occupy(m, c).value;
    forall d | d in m'.cos ensures AbsCo(m', d) == AbsCo(m, d) {
      OccupiedCo(m, c, d);
    }
    AbsIs(m', Abs(m));
  }

  // ---------------------------------------------------------------- switching

  predicate CanSwitchIn(m: State, c: nat)
    requires Linked(m)
  {
    m.running == None && c in m.cos && Owns(m, c)
  }

  lemma SwitchedInCo(m: State, c: nat, d: nat)
    requires Linked(m) && CanSwitchIn(m, c) && d in m.cos && CoInv(m, d)
    requires Linked(SwitchIn(m, c))
    ensures var m' := SwitchIn(m, c); CoInv(m', d) && AbsCo(m', d) == AbsCo(m, d)
  {
  }

  /** The switch moves no memory: the coroutine finds its stack where its own bytes are. */
  lemma SwitchInCorrect(m: State, c: nat)
    requires Inv(m) && CanSwitchIn(m, c)
    ensures Inv(SwitchIn(m, c))
    ensures Abs(SwitchIn(m, c)) == PSwitchIn(Abs(m), c)
  {
    var m' := SwitchIn(m, c);
    assert Linked(m');
    SwitchedInRun(m, c);
    forall d | d in m'.cos ensures CoInv(m', d) && AbsCo(m', d) == AbsCo(m, d) {
      SwitchedInCo(m, c, d);
    }
    forall j | j in m'.stks ensures StkInv(m', j) {
      assert StkInv(m, j);
    }
    AbsIs(m', PSwitchIn(Abs(m), c));
  }

  lemma SwitchedInRun(m: State, c: nat)
    requires Linked(m) && RunInv(m) && CanSwitchIn(m, c) && CoInv(m, c)
    requires StkInv(m, m.cos[c].stk) && Linked(SwitchIn(m, c))
    ensures RunInv(SwitchIn(m, c))
    ensures !m.cos[c].ended
  {
  }

  /** o's live bytes cannot be saved: its stack pointer is outside the window, or its buffer size wraps to 0. */
  predicate CannotSave(a: Arch, s: Stk, o: Co) {
    || !InWindow(s.geom, o.ctx.sp)
    || (o.save.cap < s.geom.ret - o.ctx.sp && SaveBuffer.Grown(a, o.save.cap, s.geom.ret - o.ctx.sp) == None)
  }

  predicate Unsavable(m: State, k: nat)
    requires Linked(m) && k in m.stks
  {
    m.stks[k].owner.Some? && CannotSave(m.arch, m.stks[k], m.cos[m.stks[k].owner.value])
  }

  lemma SavedAborts(a: Arch, prot: seq<Byte>, s: Stk, o: Co)
    requires StkOk(a, prot, s)
    ensures Saved(a, s, o).Abort? <==> CannotSave(a, s, o)
  {
    hide Bytes, Top, SaveBuffer.Grown, SaveBuffer.Steps;
    if InWindow(s.geom, o.ctx.sp) {
      LiveSize(a, s, o.ctx.sp);
    }
  }

  lemma EvictAborts(m: State, k: nat)
    requires Linked(m) && k in m.stks && StkInv(m, k)
    ensures Evict(m, k).Abort? <==> Unsavable(m, k)
  {
    if m.stks[k].owner.Some? {
      SavedAborts(m.arch, m.prot, m.stks[k], m.cos[m.stks[k].owner.value]);
    }
  }

  /** The test of aco_resume that can fail: the coroutine has ended, or another occupant cannot be saved. */
  predicate ResumeFails(m: State, c: nat)
    requires Linked(m) && c in m.cos
  {
    m.cos[c].ended || (!Owns(m, c) && Unsavable(m, m.cos[c].stk))
  }

  /**
   * aco_resume of any coroutine in any reachable state: it aborts exactly when ResumeFails, so no other
   * assert in it ever fires, and otherwise it is the private machine's plain switch.
   */
  lemma ResumeRefines(m: State, c: nat)
    requires Inv(m) && m.running == None && c in m.cos
    ensures Resumed(m, c).Abort? <==> ResumeFails(m, c)
    ensures Resumed(m, c).Ok? ==>
              Inv(Resumed(m, c).value) && Abs(Resumed(m, c).value) == PSwitchIn(Abs(m), c)
  {
    if !m.cos[c].ended {
      if Owns(m, c) {
        SwitchInCorrect(m, c);
      } else {
        EvictAborts(m, m.cos[c].stk);
        if Evict(m, m.cos[c].stk).Ok? {
          ResumeAfterEvict(m, c);
        }
      }
    }
  }

  /** Some doubling of a buffer, bits lost off the top or not, holds the need. */
  ghost predicate SomeDoubling(a: Arch, cap: nat, need: nat) {
    exists j: nat :: 1 <= j < a.Bits() && SaveBuffer.Shifted(a, cap, j) >= need
  }

  lemma GrowsIff(a: Arch, cap: nat, need: nat)
    requires cap < a.Space() && need > 0
    ensures SaveBuffer.Grown(a, cap, need).Some? <==> SomeDoubling(a, cap, need)
  {
    SaveBuffer.GrownExactly(a, cap, need, 1);
  }

  /** The owner of the target's stack and its live size, from its stack pointer to the return slot. */
  lemma LiveOwner(m: State, c: nat)
    requires Inv(m) && m.running == None && c in m.cos && m.stks[m.cos[c].stk].owner.Some?
    ensures var s := m.stks[m.cos[c].stk];
            var o := m.cos[s.owner.value];
            && GeomOk(m.arch, s.geom) && o.ctx.sp <= s.geom.ret && 0 < o.save.cap < m.arch.Space()
  {
    assert StkInv(m, m.cos[c].stk);
    assert CoInv(m, m.stks[m.cos[c].stk].owner.value);
  }

  lemma CannotSaveIff(a: Arch, s: Stk, o: Co)
    requires GeomOk(a, s.geom) && o.ctx.sp <= s.geom.ret && 0 < o.save.cap < a.Space()
    ensures var live := s.geom.ret - o.ctx.sp;
            && (CannotSave(a, s, o) <==>
                  live + a.W() > s.geom.limit || (live > o.save.cap && !SomeDoubling(a, o.save.cap, live)))
            && (s.geom.sz <= a.Half() ==> (CannotSave(a, s, o) <==> live + a.W() > s.geom.limit))
  {
    hide SomeDoubling, SaveBuffer.Grown;
    var live := s.geom.ret - o.ctx.sp;
    WindowIsSize(a, s.geom, o.ctx.sp);
    if o.save.cap < live {
      GrowsIff(a, o.save.cap, live);
      if s.geom.sz <= a.Half() && InWindow(s.geom, o.ctx.sp) {
        SaveBuffer.GrownIsLeast(a, o.save.cap, live);
      }
    }
  }

  /**
   * When aco_resume of a coroutine that has not ended aborts, in sizes: another coroutine owns the stack, and
   * its live bytes and a word exceed the limit, or no doubling of its buffer holds them. On a stack of at most
   * half the address space only the former can happen.
   */
  lemma ResumeAbortsIff(m: State, c: nat)
    requires Inv(m) && m.running == None && c in m.cos && !m.cos[c].ended
    ensures var s := m.stks[m.cos[c].stk];
            Resumed(m, c).Abort? <==>
              && s.owner.Some? && s.owner.value != c
              && var o := m.cos[s.owner.value];
                 var live := s.geom.ret - o.ctx.sp;
                 || live + m.arch.W() > s.geom.limit
                 || (live > o.save.cap && !SomeDoubling(m.arch, o.save.cap, live))
    ensures var s := m.stks[m.cos[c].stk];
            s.geom.sz <= m.arch.Half() ==>
              (Resumed(m, c).Abort? <==>
                 && s.owner.Some? && s.owner.value != c
                 && s.geom.ret - m.cos[s.owner.value].ctx.sp + m.arch.W() > s.geom.limit)
  {
    hide Inv, Resumed, CannotSave, GeomOk, SomeDoubling;
    ResumeRefines(m, c);
    var s := m.stks[m.cos[c].stk];
    if s.owner.Some? {
      LiveOwner(m, c);
      CannotSaveIff(m.arch, s, m.cos[s.owner.value]);
    }
  }

  lemma ResumeAfterEvict(m: State, c: nat)
    requires Inv(m) && m.running == None && c in m.cos
    requires !m.cos[c].ended && !Owns(m, c) && Evict(m, m.cos[c].stk).Ok?
    ensures Resumed(m, c).Ok? && Inv(Resumed(m, c).value)
    ensures Abs(Resumed(m, c).value) == PSwitchIn(Abs(m), c)
  {
    hide Inv, Evict, Occupy, SwitchIn, Abs, PSwitchIn;
    var k := m.cos[c].stk;
    EvictedLinks(m, k);
    EvictKeepsInv(m, k);
    EvictKeepsAbs(m, k);
    var m1 := Evict(m, k).value;
    OccupyNeverAborts(m1, c);
    OccupiedLinks(m1, c);
    OccupyKeepsInv(m1, c);
    OccupyKeepsAbs(m1, c);
    SwitchInCorrect(Occupy(m1, c).value, c);
  }

  // ---------------------------------------------------------------- yield and exit

  lemma SwitchedOutCo(m: State, c: nat, d: nat)
    requires Linked(m) && m.running == Some(c) && d in m.cos && CoInv(m, d) && RunInv(m) && CoInv(m, c)
    requires Linked(SwitchOut(m, c))
    ensures var m' := SwitchOut(m, c);
            CoInv(m', d) && AbsCo(m', d) == if d == c then AbsCo(m, d).(ctx := m.cpu) else AbsCo(m, d)
  {
  }

  lemma SwitchedOutRun(m: State, c: nat)
    requires Linked(m) && m.running == Some(c) && RunInv(m) && Linked(SwitchOut(m, c))
    ensures RunInv(SwitchOut(m, c))
  {
  }

  lemma YieldRefines(m: State, c: nat)
    requires Inv(m) && m.running == Some(c)
    ensures Inv(SwitchOut(m, c))
    ensures Abs(SwitchOut(m, c)) == PSwitchOut(Abs(m), false)
  {
    var m' := SwitchOut(m, c);
    assert Linked(m');
    SwitchedOutRun(m, c);
    forall d | d in m'.cos ensures CoInv(m', d) {
      SwitchedOutCo(m, c, d);
    }
    forall j | j in m'.stks ensures StkInv(m', j) {
      assert StkInv(m, j);
    }
    YieldKeepsAbs(m, c);
  }

  lemma YieldKeepsAbs(m: State, c: nat)
    requires Inv(m) && m.running == Some(c) && Linked(SwitchOut(m, c))
    ensures Abs(SwitchOut(m, c)) == PSwitchOut(Abs(m), false)
  {
    var m' := SwitchOut(m, c);
    assert !m.cos[c].ended by { assert CoInv(m, c); }
    forall d | d in m'.cos
      ensures AbsCo(m', d) == if d == c then AbsCo(m, d).(ctx := m.cpu) else AbsCo(m, d)
    {
      SwitchedOutCo(m, c, d);
    }
    SwitchedOutAbs(m, c);
  }

  lemma SwitchedOutAbs(m: State, c: nat)
    requires Linked(m) && m.running == Some(c) && Linked(SwitchOut(m, c)) && !m.cos[c].ended
    requires forall d | d in m.cos ::
               AbsCo(SwitchOut(m, c), d) == if d == c then AbsCo(m, d).(ctx := m.cpu) else AbsCo(m, d)
    ensures Abs(SwitchOut(m, c)) == PSwitchOut(Abs(m), false)
  {
    hide Live, Owns;
    AbsIs(SwitchOut(m, c), PSwitchOut(Abs(m), false));
  }

  /** aco_exit1: end, leave the stack, switch out. */
  function Exited(m: State, c: nat): Result<State>
    requires Linked(m) && c in m.cos
  {
    match Ended(m, c)
    case Abort => Abort
    case Ok(m1) => Ok(SwitchOut(m1, c))
  }

  lemma ExitedCo(m: State, c: nat, d: nat)
    requires Linked(m) && m.running == Some(c) && d in m.cos && CoInv(m, d) && RunInv(m) && CoInv(m, c)
    requires Exited(m, c).Ok? && Linked(Exited(m, c).value)
    ensures var m' := Exited(m, c).value;
            && CoInv(m', d)
            && AbsCo(m', d) == if d == c then AbsCo(m, d).(ctx := m.cpu, ended := true, live := []) else AbsCo(m, d)
  {
  }

  lemma ExitedStk(m: State, c: nat, j: nat)
    requires Linked(m) && m.running == Some(c) && j in m.stks && StkInv(m, j) && CoInv(m, c)
    requires Exited(m, c).Ok? && Linked(Exited(m, c).value)
    ensures StkInv(Exited(m, c).value, j)
    ensures Exited(m, c).value.stks[j].geom == m.stks[j].geom
  {
  }

  lemma ExitedRun(m: State, c: nat)
    requires Linked(m) && m.running == Some(c) && RunInv(m)
    requires Exited(m, c).Ok? && Linked(Exited(m, c).value)
    ensures RunInv(Exited(m, c).value)
  {
  }

  lemma ExitNeverAborts(m: State, c: nat)
    requires Inv(m) && m.running == Some(c)
    ensures Exited(m, c).Ok? && Linked(Exited(m, c).value)
  {
    assert CoInv(m, c);
  }

  /** aco_exit1 never fails its owner assert, and is the private machine's exit. */
  lemma ExitRefines(m: State, c: nat)
    requires Inv(m) && m.running == Some(c)
    ensures Exited(m, c).Ok? && Inv(Exited(m, c).value)
    ensures Abs(Exited(m, c).value) == PSwitchOut(Abs(m), true)
  {
    ExitNeverAborts(m, c);
    var m' := Exited(m, c).value;
    ExitedRun(m, c);
    forall d | d in m'.cos ensures CoInv(m', d) {
      ExitedCo(m, c, d);
    }
    forall j | j in m'.stks ensures StkInv(m', j) {
      ExitedStk(m, c, j);
    }
    ExitKeepsAbs(m, c);
  }

  lemma ExitKeepsAbs(m: State, c: nat)
    requires Inv(m) && m.running == Some(c) && Exited(m, c).Ok? && Linked(Exited(m, c).value)
    ensures Abs(Exited(m, c).value) == PSwitchOut(Abs(m), true)
  {
    var m' := Exited(m, c).value;
    forall d | d in m'.cos
      ensures AbsCo(m', d) == if d == c then AbsCo(m, d).(ctx := m.cpu, ended := true, live := []) else AbsCo(m, d)
    {
      ExitedCo(m, c, d);
    }
    forall j | j in m'.stks ensures m'.stks[j].geom == m.stks[j].geom {
      ExitedStk(m, c, j);
    }
    ExitedAbs(m, c);
  }

  lemma ExitedAbs(m: State, c: nat)
    requires Linked(m) && m.running == Some(c) && Exited(m, c).Ok? && Linked(Exited(m, c).value)
    requires var m' := Exited(m, c).value;
             && (forall d | d in m.cos ::
                  AbsCo(m', d) == if d == c then AbsCo(m, d).(ctx := m.cpu, ended := true, live := []) else AbsCo(m, d))
             && forall j | j in m.stks :: m'.stks[j].geom == m.stks[j].geom
    ensures Abs(Exited(m, c).value) == PSwitchOut(Abs(m), true)
  {
    hide Live, Owns;
    AbsIs(Exited(m, c).value, PSwitchOut(Abs(m), true));
  }

  // ---------------------------------------------------------------- a resume, record by record

  /** Taking a stack nobody owns changes the taker and the stack. */
  lemma OccupiedRecords(m: State, c: nat)
    requires Linked(m) && c in m.cos && Occupy(m, c).Ok?
    ensures var m' := Occupy(m, c).value;
            && m'.stks == m.stks[m.cos[c].stk := Taken(m.arch, m.stks[m.cos[c].stk], c, m.cos[c].save.bytes)]
            && m'.cos == m.cos[c := Restored(m.cos[c])]
            && m' == m.(cos := m'.cos, stks := m'.stks)
  {
  }

  /** Evicting somebody else changes the owner's record and the stack's owner. */
  lemma EvictedRecords(m: State, k: nat, c: nat)
    requires Linked(m) && k in m.stks && Evict(m, k).Ok?
    requires c in m.cos && m.cos[c].stk == k && m.stks[k].owner != Some(c)
    ensures var s := m.stks[k];
            var m' := Evict(m, k).value;
            && m'.cos[c] == m.cos[c]
            && m'.stks == m.stks[k := s.(owner := None, validSz := m'.stks[k].validSz)]
            && (s.owner == None ==> m'.cos == m.cos)
            && (s.owner != None ==>
                  var o := s.owner.value;
                  && Saved(m.arch, s, m.cos[o]).Ok?
                  && m'.cos == m.cos[o := Saved(m.arch, s, m.cos[o]).value])
  {
  }

  lemma PutTwice(stks: map<nat, Stk>, k: nat, s: Stk, t: Stk)
    ensures stks[k := s][k := t] == stks[k := t]
  {
  }

  /**
   * The records a resume changes, and nothing else: the main coroutine's context, the previous owner, the
   * target and its stack. The imperative aco_resume is proved to leave exactly these values.
   */
  lemma ResumedRecords(m: State, c: nat)
    requires Linked(m) && c in m.cos && Resumed(m, c).Ok?
    ensures var co := m.cos[c];
            var s := m.stks[co.stk];
            var m' := Resumed(m, c).value;
            && m' == SwitchIn(m, c).(cos := m'.cos, stks := m'.stks)
            && (s.owner == Some(c) ==> m'.cos == m.cos && m'.stks == m.stks)
            && (s.owner != Some(c) ==> m'.stks == m.stks[co.stk := Taken(m.arch, s, c, co.save.bytes)])
            && (s.owner == None ==> m'.cos == m.cos[c := Restored(co)])
            && (s.owner != None && s.owner != Some(c) ==>
                  var o := s.owner.value;
                  && Saved(m.arch, s, m.cos[o]).Ok?
                  && m'.cos == m.cos[o := Saved(m.arch, s, m.cos[o]).value][c := Restored(co)])
  {
    hide Taken, Saved, Evict, Occupy;
    var k := m.cos[c].stk;
    var s := m.stks[k];
    if s.owner != Some(c) {
      EvictedLinks(m, k);
      EvictedRecords(m, k, c);
      var m1 := Evict(m, k).value;
      OccupiedRecords(m1, c);
      TakenFromAnyone(m.arch, s, m1.stks[k], c, m.cos[c].save.bytes);
      PutTwice(m.stks, k, s.(owner := None, validSz := m1.stks[k].validSz), Taken(m.arch, s, c, m.cos[c].save.bytes));
    }
  }
}
