/**
 * The refinement as a user sees it: a program made of main code and coroutine bodies, each acting on what
 * it can see, cannot tell the shared-stack machine from private stacks.
 */
module Programs {
  import opened Platform
  import opened Switch
  import opened Machine
  import opened PrivateStacks
  import opened Refinement
  import opened Runs
  import opened Guarantees

  /** What the running code can depend on: its registers and, in a coroutine, its own stack from SP up. */
  datatype View = MainView(cpu: Ctx) | BodyView(co: nat, cpu: Ctx, live: seq<Byte>)

  /** What it does next: a library event, or plain code that leaves new registers and new live bytes. */
  datatype Act = Call(l: Label) | Work(to: Ctx, live: seq<Byte>) | Halt

  /** All the code there is. `W` is whatever lies outside the coroutine stacks. */
  type Program<!W> = (W, View) -> (W, Act)

  /** The bytes below a body's stack pointer are dead: the two machines may fill them differently. */
  type Junk = (State) -> seq<Byte>

  function SharedView(m: State): View
    requires Linked(m)
  {
    match m.running
    case None => MainView(m.cpu)
    case Some(c) => BodyView(c, m.cpu, Bytes(m.stks[m.cos[c].stk], m.cpu.sp))
  }

  function PrivateView(p: PState): View
    requires PLinked(p)
  {
    match p.running
    case None => MainView(p.cpu)
    case Some(c) => BodyView(c, p.cpu, p.cos[c].live)
  }

  /** `live` below the return slot of a stack of n bytes, on top of as much junk as fits. */
  function Padded(junk: seq<Byte>, live: seq<Byte>, n: nat): (low: seq<Byte>)
    requires |live| <= n
    ensures |low| == n && low[n - |live|..] == live
  {
    var k := n - |live|;
    var pad := if k <= |junk| then junk[..k] else junk + seq(k - |junk|, _ => 0);
    pad + live
  }

  /** The event an act stands for, or None when it halts or is not something a body may do. */
  function EventOf(p: PState, act: Act, junk: seq<Byte>): (e: Option<Label>)
    requires PLinked(p)
    ensures e.Some? ==> Legal(p, e.value)
  {
    match act
    case Halt => None
    case Call(l) => if l.Body? || !Legal(p, l) then None else Some(l)
    case Work(to, live) =>
      if p.running == None then None
      else
        var g := p.geoms[p.cos[p.running.value].stk];
        if !CtxOk(p.arch, to) || !SpOk(p.arch, g, to.sp) || |live| != g.ret - to.sp then None
        else Some(Body(to, Padded(junk, live, g.ret - g.ptr)))
  }

  /** The views of the first n steps on private stacks. */
  function PrivateTrace<W>(p: PState, w: W, prog: Program<W>, n: nat): seq<View>
    requires PLinked(p)
    decreases n
  {
    if n == 0 then []
    else
      var v := PrivateView(p);
      var (w', act) := prog(w, v);
      [v] +
      match EventOf(p, act, [])
      case None => []
      case Some(l) =>
        PStepLinked(p, l);
        match PStep(p, l)
        case Abort => []
        case Ok(p') => PrivateTrace(p', w', prog, n - 1)
  }

  /** The views of the first n steps on shared stacks. */
  function SharedTrace<W>(m: State, w: W, prog: Program<W>, junk: Junk, n: nat): seq<View>
    requires Inv(m)
    decreases n
  {
    if n == 0 then []
    else
      var v := SharedView(m);
      var (w', act) := prog(w, v);
      [v] +
      match EventOf(Abs(m), act, junk(m))
      case None => []
      case Some(l) =>
        StepRefines(m, l);
        match Step(m, l)
        case Abort => []
        case Ok(m') => SharedTrace(m', w', prog, junk, n - 1)
  }

  /** The program keeps the window contract for n steps. */
  predicate CarefulProgram<W>(p: PState, w: W, prog: Program<W>, n: nat)
    requires PLinked(p)
    decreases n
  {
    n == 0 ||
    var (w', act) := prog(w, PrivateView(p));
    match EventOf(p, act, [])
    case None => true
    case Some(l) =>
      Careful(p, l) &&
      (PStepLinked(p, l);
       match PStep(p, l) case Abort => true case Ok(p') => CarefulProgram(p', w', prog, n - 1))
  }

  lemma SameView(m: State)
    requires Inv(m)
    ensures SharedView(m) == PrivateView(Abs(m))
  {
    if m.running.Some? {
      assert CoInv(m, m.running.value);
      assert Abs(m).cos[m.running.value] == AbsCo(m, m.running.value);
    }
  }

  /** Dead bytes do not matter to the private machine. */
  lemma JunkIrrelevant(p: PState, act: Act, junk: seq<Byte>)
    requires PLinked(p)
    ensures EventOf(p, act, junk) == None <==> EventOf(p, act, []) == None
    ensures EventOf(p, act, junk).Some? ==>
              && PStep(p, EventOf(p, act, junk).value) == PStep(p, EventOf(p, act, []).value)
              && (Careful(p, EventOf(p, act, junk).value) <==> Careful(p, EventOf(p, act, []).value))
  {
  }

  /**
   * For every program and every way dead bytes are overwritten: as long as the shared-stack machine has
   * not aborted, the program has seen exactly what it would have seen on private stacks.
   */
  lemma {:induction false} Indistinguishable<W>(m: State, w: W, prog: Program<W>, junk: Junk, n: nat)
    requires Inv(m)
    ensures SharedTrace(m, w, prog, junk, n) <= PrivateTrace(Abs(m), w, prog, n)
    decreases n
  {
    hide Inv, Abs, EventOf, Legal, Step, PStep, PLinked;
    if n > 0 {
      SameView(m);
      var (w', act) := prog(w, SharedView(m));
      JunkIrrelevant(Abs(m), act, junk(m));
      var e := EventOf(Abs(m), act, junk(m));
      if e.Some? {
        StepRefines(m, e.value);
        if Step(m, e.value).Ok? {
          Indistinguishable(Step(m, e.value).value, w', prog, junk, n - 1);
        }
      }
    }
  }

  /** A program that keeps the window contract never meets the one abort private stacks do not have. */
  lemma {:induction false} IndistinguishableForever<W>(m: State, w: W, prog: Program<W>, junk: Junk, n: nat)
    requires Inv(m) && Tight(Abs(m)) && CarefulProgram(Abs(m), w, prog, n)
    ensures SharedTrace(m, w, prog, junk, n) == PrivateTrace(Abs(m), w, prog, n)
    decreases n
  {
    if n > 0 {
      SameView(m);
      var (w', act) := prog(w, SharedView(m));
      JunkIrrelevant(Abs(m), act, junk(m));
      var e := EventOf(Abs(m), act, junk(m));
      if e.Some? {
        StepRefines(m, e.value);
        NextStep(m, e.value);
        if Step(m, e.value).Ok? {
          IndistinguishableForever(Step(m, e.value).value, w', prog, junk, n - 1);
        }
      }
    }
  }

  /** A careful step aborts on one machine exactly when it aborts on the other, and stays careful. */
  lemma NextStep(m: State, l: Label)
    requires Inv(m) && Legal(Abs(m), l) && StepOk(m, l) && Tight(Abs(m)) && Careful(Abs(m), l)
    ensures Step(m, l).Abort? <==> PStep(Abs(m), l).Abort?
    ensures Step(m, l).Ok? ==> Tight(Abs(Step(m, l).value))
  {
    if Step(m, l).Ok? {
      TightKept(Abs(m), l);
    } else if l.Resume? {
      TightNeverFails(m, l.co);
      assert Abs(m).cos[l.co].ended;
    }
  }
}
