/**
 * The start, notify and shutdown protocol of the task pool as interleaved steps of the main thread and the
 * task threads (src/TaskPool.cpp:21-83, src/Task.cpp:36-59, 201-222).
 */
module TaskPool {
  import opened Platform

  /** Where a thread is in Task::svc: at sem_wait, at the loop test, in the loop body, at notify, or returned. */
  datatype Pc = Waiting | Testing | Working | Notifying | Returned

  /** A Task: its semaphore, m_bExit, whether a join has reset m_tid to 0, and its thread. `posts` is history. */
  datatype Task = Task(sem: nat, exit: bool, joined: bool, pc: Pc, posts: nat)

  /** What main is doing: nothing, or at task i of start, stop, or one of the two loops of clear. */
  datatype Main =
    Idle | Starting(i: nat) | Stopping(i: nat) | ClearStopping(i: nat) | Releasing(i: nat) | Joining(i: nat)

  /** `once` is cfg.m_seclive == 0; `sem` is the pool's semaphore. */
  datatype State = State(once: bool, tasks: seq<Task>, sem: nat, main: Main)

  datatype Call = Start | Stop | Clear

  datatype Label = Invoke(call: Call) | MainGoes | ThreadGoes(i: nat)

  /** TaskPool::init: a thread for every configured core. */
  function Init(n: nat, once: bool): State {
    State(once, seq(n, _ => Task(0, false, false, Waiting, 0)), 0, Idle)
  }

  /** TaskPool::is_stop, polled by main at any time. */
  predicate IsStop(s: State) { s.sem == |s.tasks| }

  /** One step of a thread; None where it is blocked or has returned. */
  function ThreadStep(s: State, i: nat): Option<State>
    requires i < |s.tasks|
  {
    var t := s.tasks[i];
    match t.pc
    case Waiting => if t.sem == 0 then None else Some(s.(tasks := s.tasks[i := t.(sem := t.sem - 1, pc := Testing)]))
    case Testing => Some(s.(tasks := s.tasks[i := t.(pc := if t.exit then Notifying else Working)]))
    case Working => Some(s.(tasks := s.tasks[i := t.(pc := if s.once then Notifying else Testing)]))
    case Notifying => Some(s.(tasks := s.tasks[i := t.(pc := Returned)], sem := s.sem + 1))
    case Returned => None
  }

  /** One step of main inside a call; None where pthread_join blocks or no call is under way. */
  function MainStep(s: State): Option<State> {
    match s.main
    case Idle => None
    case Starting(i) =>
      if i >= |s.tasks| then Some(s.(main := Idle))
      else
        var t := s.tasks[i];
        var t' := if t.joined then t else t.(sem := t.sem + 1, posts := t.posts + 1);
        Some(s.(tasks := s.tasks[i := t'], main := Starting(i + 1)))
    case Stopping(i) =>
      if i >= |s.tasks| then Some(s.(main := Idle))
      else Some(s.(tasks := s.tasks[i := s.tasks[i].(exit := true)], main := Stopping(i + 1)))
    case ClearStopping(i) =>
      if i >= |s.tasks| then Some(s.(main := Releasing(0)))
      else Some(s.(tasks := s.tasks[i := s.tasks[i].(exit := true)], main := ClearStopping(i + 1)))
    case Releasing(i) =>
      if i >= |s.tasks| then Some(s.(main := Idle))
      else
        Some(s.(tasks := s.tasks[i := s.tasks[i].(exit := true)],
                main := if s.tasks[i].joined then Releasing(i + 1) else Joining(i)))
    case Joining(i) =>
      if i >= |s.tasks| || s.tasks[i].pc != Returned then None
      else Some(s.(tasks := s.tasks[i := s.tasks[i].(joined := true)], main := Releasing(i + 1)))
  }

  function Step(s: State, l: Label): Option<State> {
    match l
    case Invoke(call) =>
      if s.main != Idle then None
      else Some(s.(main := match call case Start => Starting(0) case Stop => Stopping(0) case Clear => ClearStopping(0)))
    case MainGoes => MainStep(s)
    case ThreadGoes(i) => if i < |s.tasks| then ThreadStep(s, i) else None
  }

  /** An interleaving; None if one of its steps is not enabled. */
  function Run(s: State, ls: seq<Label>): Option<State>
    decreases |ls|
  {
    if ls == [] then Some(s)
    else
      match Step(s, ls[0])
      case None => None
      case Some(s') => Run(s', ls[1..])
  }

  // ---------------------------------------------------------------- the invariant

  function HasNotified(t: Task): nat { if t.pc == Returned then 1 else 0 }

  function Notified(ts: seq<Task>): nat {
    if ts == [] then 0 else HasNotified(ts[0]) + Notified(ts[1..])
  }

  lemma {:induction false} NotifiedPut(ts: seq<Task>, i: nat, t: Task)
    requires i < |ts|
    ensures Notified(ts[i := t]) == Notified(ts) - HasNotified(ts[i]) + HasNotified(t)
  {
    if i == 0 {
      assert ts[0 := t][1..] == ts[1..];
    } else {
      assert ts[i := t][1..] == ts[1..][i - 1 := t];
      NotifiedPut(ts[1..], i - 1, t);
    }
  }

  lemma {:induction false} AllNotified(ts: seq<Task>)
    ensures Notified(ts) <= |ts|
    ensures Notified(ts) == |ts| <==> forall i | 0 <= i < |ts| :: ts[i].pc == Returned
  {
    if ts != [] {
      AllNotified(ts[1..]);
      assert forall i | 1 <= i < |ts| :: ts[i] == ts[1..][i - 1];
      assert forall i | 0 <= i < |ts| - 1 :: ts[1..][i] == ts[i + 1];
    }
  }

  /** Every post of a task's semaphore is still there or let its thread through; only a returned thread is joined. */
  predicate TaskOk(t: Task) {
    && t.sem + (if t.pc == Waiting then 0 else 1) == t.posts
    && (t.joined ==> t.pc == Returned)
  }

  /** In the second loop of clear every exit flag is set, and the tasks passed are joined. */
  predicate MainOk(s: State) {
    match s.main
    case ClearStopping(i) => forall j | 0 <= j < |s.tasks| && j < i :: s.tasks[j].exit
    case Releasing(i) => i <= |s.tasks| && Released(s, i)
    case Joining(i) => i < |s.tasks| && !s.tasks[i].joined && Released(s, i)
    case _ => true
  }

  predicate Released(s: State, i: nat) {
    && (forall j | 0 <= j < |s.tasks| :: s.tasks[j].exit)
    && (forall j | 0 <= j < |s.tasks| && j < i :: s.tasks[j].joined)
  }

  predicate Inv(s: State) {
    && (forall i | 0 <= i < |s.tasks| :: TaskOk(s.tasks[i]))
    && s.sem == Notified(s.tasks)
    && MainOk(s)
  }

  lemma ThreadKeepsInv(s: State, i: nat)
    requires Inv(s) && i < |s.tasks| && ThreadStep(s, i).Some?
    ensures Inv(ThreadStep(s, i).value)
    ensures var s' := ThreadStep(s, i).value;
            && |s'.tasks| == |s.tasks| && s'.once == s.once && s'.main == s.main
            && s'.tasks == s.tasks[i := s'.tasks[i]]
            && s'.tasks[i].exit == s.tasks[i].exit && s'.tasks[i].joined == s.tasks[i].joined
            && s'.tasks[i].posts == s.tasks[i].posts
  {
    var s' := ThreadStep(s, i).value;
    assert TaskOk(s.tasks[i]);
    NotifiedPut(s.tasks, i, s'.tasks[i]);
    forall j | 0 <= j < |s'.tasks| ensures TaskOk(s'.tasks[j]) {
      assert TaskOk(s.tasks[j]);
    }
  }

  /** What a step of main may do to a task: post its semaphore, set its flag, join it once it has returned. */
  predicate Handled(t: Task, t': Task) {
    && t'.pc == t.pc && t'.posts >= t.posts && t'.sem - t.sem == t'.posts - t.posts
    && (t.exit ==> t'.exit) && (t.joined ==> t'.joined) && (t'.joined ==> t.joined || t.pc == Returned)
  }

  lemma MainHandles(s: State)
    requires MainStep(s).Some?
    ensures var s' := MainStep(s).value;
            && s.main != Idle && |s'.tasks| == |s.tasks| && s'.once == s.once && s'.sem == s.sem
            && (if s.main.i < |s.tasks| then s'.tasks == s.tasks[s.main.i := s'.tasks[s.main.i]] else s'.tasks == s.tasks)
            && forall j | 0 <= j < |s.tasks| :: Handled(s.tasks[j], s'.tasks[j])
  {
  }

  lemma MainKeepsTasks(s: State)
    requires Inv(s) && MainStep(s).Some?
    ensures var s' := MainStep(s).value;
            && |s'.tasks| == |s.tasks| && s'.once == s.once && s'.sem == s.sem
            && Notified(s'.tasks) == Notified(s.tasks)
            && forall j | 0 <= j < |s'.tasks| :: TaskOk(s'.tasks[j]) && Handled(s.tasks[j], s'.tasks[j])
  {
    hide MainStep;
    var s' := MainStep(s).value;
    MainHandles(s);
    if s.main.i < |s.tasks| {
      NotifiedPut(s.tasks, s.main.i, s'.tasks[s.main.i]);
      assert Handled(s.tasks[s.main.i], s'.tasks[s.main.i]);
    }
    forall j | 0 <= j < |s'.tasks| ensures TaskOk(s'.tasks[j]) {
      assert TaskOk(s.tasks[j]) && Handled(s.tasks[j], s'.tasks[j]);
    }
  }

  lemma MainKeepsOk(s: State)
    requires Inv(s) && MainStep(s).Some?
    ensures MainOk(MainStep(s).value)
  {
  }

  lemma StepKeepsInv(s: State, l: Label)
    requires Inv(s) && Step(s, l).Some?
    ensures Inv(Step(s, l).value) && |Step(s, l).value.tasks| == |s.tasks| && Step(s, l).value.once == s.once
  {
    match l
    case ThreadGoes(i) => ThreadKeepsInv(s, i);
    case MainGoes =>
      MainKeepsTasks(s);
      MainKeepsOk(s);
    case Invoke(_) =>
  }

  lemma {:induction false} InitOk(n: nat, once: bool)
    ensures Inv(Init(n, once))
    decreases n
  {
    if n > 0 {
      InitOk(n - 1, once);
      assert Init(n, once).tasks[1..] == Init(n - 1, once).tasks;
    }
  }

  lemma {:induction false} RunKeepsInv(s: State, ls: seq<Label>)
    requires Inv(s) && Run(s, ls).Some?
    ensures Inv(Run(s, ls).value) && |Run(s, ls).value.tasks| == |s.tasks| && Run(s, ls).value.once == s.once
    decreases |ls|
  {
    if ls != [] {
      StepKeepsInv(s, ls[0]);
      RunKeepsInv(Step(s, ls[0]).value, ls[1..]);
    }
  }

  // ---------------------------------------------------------------- notification

  /** The step in which thread i posts the pool's semaphore. */
  predicate NotifyStep(s: State, l: Label, i: nat) {
    l == ThreadGoes(i) && i < |s.tasks| && s.tasks[i].pc == Notifying
  }

  function Notifies(s: State, ls: seq<Label>, i: nat): nat
    decreases |ls|
  {
    if ls == [] || Step(s, ls[0]).None? then 0
    else (if NotifyStep(s, ls[0], i) then 1 else 0) + Notifies(Step(s, ls[0]).value, ls[1..], i)
  }

  lemma {:induction false} NotifiesCount(s: State, ls: seq<Label>, i: nat)
    requires Run(s, ls).Some? && i < |s.tasks|
    ensures |Run(s, ls).value.tasks| == |s.tasks|
    ensures HasNotified(s.tasks[i]) + Notifies(s, ls, i) == HasNotified(Run(s, ls).value.tasks[i])
    decreases |ls|
  {
    if ls != [] {
      NotifiesCount(Step(s, ls[0]).value, ls[1..], i);
    }
  }

  /**
   * In every interleaving: is_stop is true exactly when every thread has notified; a thread notifies at most
   * once, has done so exactly when it has returned, and only after a start() posted its own semaphore.
   */
  lemma Notification(n: nat, once: bool, ls: seq<Label>)
    requires Run(Init(n, once), ls).Some?
    ensures var s := Run(Init(n, once), ls).value;
            && |s.tasks| == n
            && s.sem == Notified(s.tasks)
            && (IsStop(s) <==> forall i | 0 <= i < n :: s.tasks[i].pc == Returned)
            && (forall i | 0 <= i < n ::
                  && Notifies(Init(n, once), ls, i) == (if s.tasks[i].pc == Returned then 1 else 0)
                  && (Notifies(Init(n, once), ls, i) > 0 ==> s.tasks[i].posts > 0))
  {
    InitOk(n, once);
    RunKeepsInv(Init(n, once), ls);
    var s := Run(Init(n, once), ls).value;
    AllNotified(s.tasks);
    forall i | 0 <= i < n
      ensures Notifies(Init(n, once), ls, i) == HasNotified(s.tasks[i])
      ensures Notifies(Init(n, once), ls, i) > 0 ==> s.tasks[i].posts > 0
    {
      NotifiesCount(Init(n, once), ls, i);
      assert TaskOk(s.tasks[i]);
    }
  }

  // ---------------------------------------------------------------- shutdown

  /** Main is in the second loop of clear. */
  predicate Shutting(s: State) { s.main.Releasing? || s.main.Joining? }

  predicate InClear(s: State) { s.main.ClearStopping? || Shutting(s) }

  predicate AllStarted(s: State) { forall i | 0 <= i < |s.tasks| :: s.tasks[i].posts > 0 }

  predicate AllJoined(s: State) { forall i | 0 <= i < |s.tasks| :: s.tasks[i].joined }

  /** Steps a thread whose exit flag is set has yet to take, at most. */
  function Rank(t: Task): nat {
    match t.pc case Waiting => 4 case Working => 3 case Testing => 2 case Notifying => 1 case Returned => 0
  }

  function RankSum(ts: seq<Task>): nat {
    if ts == [] then 0 else Rank(ts[0]) + RankSum(ts[1..])
  }

  lemma {:induction false} RankSumPut(ts: seq<Task>, i: nat, t: Task)
    requires i < |ts|
    ensures RankSum(ts[i := t]) == RankSum(ts) - Rank(ts[i]) + Rank(t)
  {
    if i == 0 {
      assert ts[0 := t][1..] == ts[1..];
    } else {
      assert ts[i := t][1..] == ts[1..][i - 1 := t];
      RankSumPut(ts[1..], i - 1, t);
    }
  }

  lemma {:induction false} RankSumSmall(ts: seq<Task>)
    ensures RankSum(ts) <= 4 * |ts|
  {
    if ts != [] { RankSumSmall(ts[1..]); }
  }

  /** Steps left to the whole system in the second loop of clear, at most. */
  function Measure(s: State): nat {
    RankSum(s.tasks) +
    match s.main
    case Releasing(i) => if i <= |s.tasks| then 2 * (|s.tasks| - i) + 1 else 0
    case Joining(i) => if i <= |s.tasks| then 2 * (|s.tasks| - i) else 0
    case _ => 0
  }

  predicate NearerEnd(s: State, s': State) {
    Measure(s') < Measure(s) && (Shutting(s') || (s'.main == Idle && AllJoined(s')))
  }

  lemma ThreadDescends(s: State, i: nat)
    requires Inv(s) && Shutting(s) && i < |s.tasks| && ThreadStep(s, i).Some?
    ensures NearerEnd(s, ThreadStep(s, i).value)
  {
    assert s.tasks[i].exit;
    RankSumPut(s.tasks, i, ThreadStep(s, i).value.tasks[i]);
  }

  lemma MainDescends(s: State)
    requires Inv(s) && Shutting(s) && MainStep(s).Some?
    ensures NearerEnd(s, MainStep(s).value)
  {
    if s.main.i < |s.tasks| {
      RankSumPut(s.tasks, s.main.i, MainStep(s).value.tasks[s.main.i]);
    }
  }

  /** Once all exit flags are set every step, of whichever thread, brings the end nearer. */
  lemma ShutdownDescends(s: State, l: Label)
    requires Inv(s) && Shutting(s) && Step(s, l).Some?
    ensures NearerEnd(s, Step(s, l).value)
  {
    if l.ThreadGoes? { ThreadDescends(s, l.i); } else { MainDescends(s); }
  }

  /** While a clear of started tasks is not over somebody can take a step: nothing deadlocks. */
  lemma SomebodyGoes(s: State) returns (l: Label)
    requires Inv(s) && InClear(s) && AllStarted(s)
    ensures Step(s, l).Some? && (s.main.ClearStopping? ==> l == MainGoes)
  {
    if s.main.Joining? && s.tasks[s.main.i].pc != Returned {
      assert TaskOk(s.tasks[s.main.i]);
      l := ThreadGoes(s.main.i);
    } else {
      l := MainGoes;
    }
  }

  lemma StartedStays(s: State, l: Label)
    requires Inv(s) && AllStarted(s) && Step(s, l).Some?
    ensures AllStarted(Step(s, l).value)
  {
    if l.ThreadGoes? {
      ThreadKeepsInv(s, l.i);
    } else if l.MainGoes? {
      MainKeepsTasks(s);
    }
  }

  /**
   * However the steps are interleaved, the second loop of clear is over, with every thread joined, after at
   * most Measure(s) <= 6n + 1 of them.
   */
  lemma {:induction false} ClearCompletes(s: State, ls: seq<Label>) returns (k: nat)
    requires Inv(s) && Shutting(s) && Run(s, ls).Some? && |ls| >= Measure(s)
    ensures k <= |ls| && k <= Measure(s) <= 6 * |s.tasks| + 1
    ensures Run(s, ls[..k]).Some? && Run(s, ls[..k]).value.main == Idle && AllJoined(Run(s, ls[..k]).value)
    decreases |ls|
  {
    RankSumSmall(s.tasks);
    var s' := Step(s, ls[0]).value;
    ShutdownDescends(s, ls[0]);
    StepKeepsInv(s, ls[0]);
    if s'.main == Idle {
      k := 1;
      assert ls[..1][1..] == [];
    } else {
      var j := ClearCompletes(s', ls[1..]);
      k := j + 1;
      assert ls[..k][0] == ls[0] && ls[..k][1..] == ls[1..][..j];
    }
  }

  function MainSteps(ls: seq<Label>): nat {
    if ls == [] then 0 else (if ls[0] == MainGoes then 1 else 0) + MainSteps(ls[1..])
  }

  /** The first loop of clear never blocks: it takes main one step per task and one to leave. */
  lemma {:induction false} FirstLoopCompletes(s: State, ls: seq<Label>) returns (k: nat)
    requires Inv(s) && s.main.ClearStopping? && s.main.i <= |s.tasks|
    requires Run(s, ls).Some? && MainSteps(ls) >= |s.tasks| - s.main.i + 1
    ensures k <= |ls| && Run(s, ls[..k]).Some? && Run(s, ls[..k]).value.main == Releasing(0)
    decreases |ls|
  {
    var s' := Step(s, ls[0]).value;
    StepKeepsInv(s, ls[0]);
    if s'.main == Releasing(0) {
      k := 1;
      assert ls[..1][1..] == [];
    } else {
      var j := FirstLoopCompletes(s', ls[1..]);
      k := j + 1;
      assert ls[..k][0] == ls[0] && ls[..k][1..] == ls[1..][..j];
    }
  }

  /** A task that was never started keeps clear waiting for ever: its thread is stuck at its semaphore. */
  lemma {:induction false} UnstartedBlocks(s: State, ls: seq<Label>, i: nat)
    requires Inv(s) && InClear(s) && i < |s.tasks| && s.tasks[i].posts == 0 && Run(s, ls).Some?
    ensures InClear(Run(s, ls).value) && i < |Run(s, ls).value.tasks| && Run(s, ls).value.tasks[i].posts == 0
    decreases |ls|
  {
    if ls != [] {
      StepKeepsInv(s, ls[0]);
      UnstartedStays(s, ls[0], i);
      UnstartedBlocks(Step(s, ls[0]).value, ls[1..], i);
    }
  }

  lemma UnstartedStays(s: State, l: Label, i: nat)
    requires Inv(s) && InClear(s) && i < |s.tasks| && s.tasks[i].posts == 0 && Step(s, l).Some?
    ensures InClear(Step(s, l).value) && Step(s, l).value.tasks[i].posts == 0
  {
    assert TaskOk(s.tasks[i]);
  }

  /** A run that brings a clear of started tasks to its end. */
  lemma {:induction false} Finishing(s: State) returns (ls: seq<Label>)
    requires Inv(s) && InClear(s) && AllStarted(s) && (s.main.ClearStopping? ==> s.main.i <= |s.tasks|)
    ensures Run(s, ls).Some? && Run(s, ls).value.main == Idle
    decreases if s.main.ClearStopping? then 1 + |s.tasks| - s.main.i else 0, Measure(s)
  {
    var l := SomebodyGoes(s);
    var s' := Step(s, l).value;
    StepKeepsInv(s, l);
    StartedStays(s, l);
    if Shutting(s) { ShutdownDescends(s, l); }
    if s'.main == Idle {
      ls := [l];
      assert ls[1..] == [];
    } else {
      var rest := Finishing(s');
      ls := [l] + rest;
      assert ls[1..] == rest;
    }
  }

  /** A clear under way can end exactly when start() has reached every task. */
  lemma ClearEndsIff(s: State)
    requires Inv(s) && InClear(s) && (s.main.ClearStopping? ==> s.main.i <= |s.tasks|)
    ensures (exists ls :: Run(s, ls).Some? && Run(s, ls).value.main == Idle) <==> AllStarted(s)
  {
    if AllStarted(s) {
      var ls := Finishing(s);
    } else {
      var i :| 0 <= i < |s.tasks| && s.tasks[i].posts == 0;
      forall ls | Run(s, ls).Some? ensures Run(s, ls).value.main != Idle {
        UnstartedBlocks(s, ls, i);
      }
    }
  }

  /**
   * After a completed clear nothing notifies any more, every thread stays joined, and no later call, in
   * particular the destructor's clear, ever waits in a join.
   */
  lemma {:induction false} NothingAfterClear(s: State, ls: seq<Label>)
    requires Inv(s) && AllJoined(s) && !s.main.Joining? && Run(s, ls).Some?
    ensures var s' := Run(s, ls).value;
            AllJoined(s') && !s'.main.Joining? && s'.sem == s.sem && forall i | 0 <= i < |ls| :: !ls[i].ThreadGoes?
    decreases |ls|
  {
    if ls != [] {
      StepKeepsInv(s, ls[0]);
      JoinedStays(s, ls[0]);
      NothingAfterClear(Step(s, ls[0]).value, ls[1..]);
      assert forall i | 1 <= i < |ls| :: ls[i] == ls[1..][i - 1];
    }
  }

  lemma JoinedStays(s: State, l: Label)
    requires Inv(s) && AllJoined(s) && !s.main.Joining? && Step(s, l).Some?
    ensures !l.ThreadGoes?
    ensures var s' := Step(s, l).value; AllJoined(s') && !s'.main.Joining? && s'.sem == s.sem
  {
  }

  // ---------------------------------------------------------------- running until the work is done

  /** Steps left to a thread that goes round its loop once. */
  function OnceRank(t: Task): nat {
    match t.pc case Waiting => 4 case Testing => 3 case Working => 2 case Notifying => 1 case Returned => 0
  }

  function OnceSum(ts: seq<Task>): nat {
    if ts == [] then 0 else OnceRank(ts[0]) + OnceSum(ts[1..])
  }

  lemma {:induction false} OnceSumPut(ts: seq<Task>, i: nat, t: Task)
    requires i < |ts|
    ensures OnceSum(ts[i := t]) == OnceSum(ts) - OnceRank(ts[i]) + OnceRank(t)
  {
    if i == 0 {
      assert ts[0 := t][1..] == ts[1..];
    } else {
      assert ts[i := t][1..] == ts[1..][i - 1 := t];
      OnceSumPut(ts[1..], i - 1, t);
    }
  }

  lemma {:induction false} OnceSumBounds(ts: seq<Task>)
    ensures OnceSum(ts) <= 4 * |ts|
    ensures OnceSum(ts) == 0 <==> forall i | 0 <= i < |ts| :: ts[i].pc == Returned
  {
    if ts != [] {
      OnceSumBounds(ts[1..]);
      assert forall i | 1 <= i < |ts| :: ts[i] == ts[1..][i - 1];
      assert forall i | 0 <= i < |ts| - 1 :: ts[1..][i] == ts[i + 1];
    }
  }

  function ThreadSteps(ls: seq<Label>): nat {
    if ls == [] then 0 else (if ls[0].ThreadGoes? then 1 else 0) + ThreadSteps(ls[1..])
  }

  lemma OnceStep(s: State, l: Label)
    requires Inv(s) && s.once && Step(s, l).Some?
    ensures OnceSum(Step(s, l).value.tasks) + (if l.ThreadGoes? then 1 else 0) <= OnceSum(s.tasks)
  {
    var s' := Step(s, l).value;
    if l.ThreadGoes? {
      OnceSumPut(s.tasks, l.i, s'.tasks[l.i]);
    } else if l.MainGoes? && s.main.i < |s.tasks| {
      OnceSumPut(s.tasks, s.main.i, s'.tasks[s.main.i]);
    }
  }

  lemma {:induction false} OnceRun(s: State, ls: seq<Label>)
    requires Inv(s) && s.once && Run(s, ls).Some?
    ensures OnceSum(Run(s, ls).value.tasks) + ThreadSteps(ls) <= OnceSum(s.tasks)
    decreases |ls|
  {
    if ls != [] {
      StepKeepsInv(s, ls[0]);
      OnceStep(s, ls[0]);
      OnceRun(Step(s, ls[0]).value, ls[1..]);
    }
  }

  lemma {:induction false} StartedThroughout(s: State, ls: seq<Label>)
    requires Inv(s) && AllStarted(s) && Run(s, ls).Some?
    ensures AllStarted(Run(s, ls).value)
    decreases |ls|
  {
    if ls != [] {
      StepKeepsInv(s, ls[0]);
      StartedStays(s, ls[0]);
      StartedThroughout(Step(s, ls[0]).value, ls[1..]);
    }
  }

  /**
   * With m_seclive == 0 the started threads come to their end by themselves, whatever main does meanwhile: no
   * run has more than 4n thread steps, one with that many has is_stop true, and until it is true a thread can
   * take a step. So polling is_stop ends.
   */
  lemma OnceFinishes(s: State, ls: seq<Label>)
    requires Inv(s) && s.once && AllStarted(s) && Run(s, ls).Some?
    ensures ThreadSteps(ls) <= OnceSum(s.tasks) <= 4 * |s.tasks|
    ensures ThreadSteps(ls) == OnceSum(s.tasks) ==> IsStop(Run(s, ls).value)
    ensures ThreadSteps(ls) >= 4 * |s.tasks| ==> IsStop(Run(s, ls).value)
    ensures var s' := Run(s, ls).value;
            IsStop(s') || exists i | 0 <= i < |s'.tasks| :: ThreadStep(s', i).Some?
  {
    var s' := Run(s, ls).value;
    RunKeepsInv(s, ls);
    OnceRun(s, ls);
    StartedThroughout(s, ls);
    OnceSumBounds(s.tasks);
    OnceSumBounds(s'.tasks);
    AllNotified(s'.tasks);
    if !IsStop(s') {
      var i :| 0 <= i < |s'.tasks| && s'.tasks[i].pc != Returned;
      assert TaskOk(s'.tasks[i]);
      assert ThreadStep(s', i).Some?;
    }
  }

  lemma {:induction false} RankSumZero(ts: seq<Task>)
    ensures RankSum(ts) == 0 <==> forall i | 0 <= i < |ts| :: ts[i].pc == Returned
  {
    if ts != [] {
      RankSumZero(ts[1..]);
      assert forall i | 1 <= i < |ts| :: ts[i] == ts[1..][i - 1];
      assert forall i | 0 <= i < |ts| - 1 :: ts[1..][i] == ts[i + 1];
    }
  }

  predicate AllStopping(s: State) { forall i | 0 <= i < |s.tasks| :: s.tasks[i].exit }

  lemma StoppingThread(s: State, i: nat)
    requires AllStopping(s) && i < |s.tasks| && ThreadStep(s, i).Some?
    ensures AllStopping(ThreadStep(s, i).value)
    ensures RankSum(ThreadStep(s, i).value.tasks) < RankSum(s.tasks)
  {
    var t' := ThreadStep(s, i).value.tasks[i];
    assert s.tasks[i].exit;
    RankSumPut(s.tasks, i, t');
  }

  lemma StoppingMain(s: State)
    requires AllStopping(s) && MainStep(s).Some?
    ensures AllStopping(MainStep(s).value)
    ensures RankSum(MainStep(s).value.tasks) == RankSum(s.tasks)
  {
    hide MainStep;
    MainHandles(s);
    if s.main.i < |s.tasks| { RankSumPut(s.tasks, s.main.i, MainStep(s).value.tasks[s.main.i]); }
  }

  lemma StoppingStep(s: State, l: Label)
    requires AllStopping(s) && Step(s, l).Some?
    ensures AllStopping(Step(s, l).value)
    ensures RankSum(Step(s, l).value.tasks) + (if l.ThreadGoes? then 1 else 0) <= RankSum(s.tasks)
  {
    hide ThreadStep, MainStep;
    if l.ThreadGoes? { StoppingThread(s, l.i); } else if l.MainGoes? { StoppingMain(s); }
  }

  lemma {:induction false} StoppingRun(s: State, ls: seq<Label>)
    requires Inv(s) && AllStopping(s) && Run(s, ls).Some?
    ensures AllStopping(Run(s, ls).value)
    ensures RankSum(Run(s, ls).value.tasks) + ThreadSteps(ls) <= RankSum(s.tasks)
    decreases |ls|
  {
    if ls != [] {
      StepKeepsInv(s, ls[0]);
      StoppingStep(s, ls[0]);
      StoppingRun(Step(s, ls[0]).value, ls[1..]);
    }
  }

  /**
   * Once every exit flag is set, as stop() leaves them, started threads come to their end, whatever m_seclive is
   * and whatever main does: no run has more than 4n thread steps, one with that many has is_stop true, and until
   * it is true a thread can take a step.
   */
  lemma StoppedFinish(s: State, ls: seq<Label>)
    requires Inv(s) && AllStopping(s) && AllStarted(s) && Run(s, ls).Some?
    ensures ThreadSteps(ls) <= 4 * |s.tasks|
    ensures ThreadSteps(ls) == 4 * |s.tasks| ==> IsStop(Run(s, ls).value)
    ensures var s' := Run(s, ls).value;
            IsStop(s') || exists i | 0 <= i < |s'.tasks| :: ThreadStep(s', i).Some?
  {
    var s' := Run(s, ls).value;
    RunKeepsInv(s, ls);
    StoppingRun(s, ls);
    StartedThroughout(s, ls);
    RankSumSmall(s.tasks);
    RankSumZero(s'.tasks);
    AllNotified(s'.tasks);
    if !IsStop(s') {
      var i :| 0 <= i < |s'.tasks| && s'.tasks[i].pc != Returned;
      assert TaskOk(s'.tasks[i]);
      assert ThreadStep(s', i).Some?;
    }
  }

  /** start() reaches every task: one step of main for each, whatever the threads do in between. */
  lemma {:induction false} StartReachesAll(s: State, ls: seq<Label>)
    requires Inv(s) && s.main.Starting? && s.main.i <= |s.tasks| && Run(s, ls).Some?
    requires forall j | 0 <= j < s.main.i :: s.tasks[j].posts > 0
    requires MainSteps(ls) >= |s.tasks| - s.main.i
    ensures AllStarted(Run(s, ls).value)
    decreases |ls|
  {
    if s.main.i == |s.tasks| {
      StartedThroughout(s, ls);
    } else {
      var s' := Step(s, ls[0]).value;
      StepKeepsInv(s, ls[0]);
      PostsStay(s, ls[0]);
      assert TaskOk(s.tasks[s.main.i]);
      StartReachesAll(s', ls[1..]);
    }
  }

  lemma PostsStay(s: State, l: Label)
    requires Step(s, l).Some?
    ensures |Step(s, l).value.tasks| == |s.tasks|
    ensures forall j | 0 <= j < |s.tasks| :: Step(s, l).value.tasks[j].posts >= s.tasks[j].posts
  {
  }

  /** stop() sets every exit flag: one step of main for each task, whatever the threads do in between. */
  lemma {:induction false} StopSetsAll(s: State, ls: seq<Label>)
    requires Inv(s) && s.main.Stopping? && s.main.i <= |s.tasks| && Run(s, ls).Some?
    requires forall j | 0 <= j < s.main.i :: s.tasks[j].exit
    requires MainSteps(ls) >= |s.tasks| - s.main.i
    ensures AllStopping(Run(s, ls).value)
    decreases |ls|
  {
    if s.main.i == |s.tasks| {
      StoppingRun(s, ls);
    } else {
      var s' := Step(s, ls[0]).value;
      StepKeepsInv(s, ls[0]);
      StopSetsAll(s', ls[1..]);
    }
  }

  // ---------------------------------------------------------------- the work itself

  /** Times thread i goes through its loop body. */
  function Works(s: State, ls: seq<Label>, i: nat): nat
    decreases |ls|
  {
    if ls == [] || Step(s, ls[0]).None? then 0
    else
      (if ls[0] == ThreadGoes(i) && i < |s.tasks| && s.tasks[i].pc == Working then 1 else 0)
      + Works(Step(s, ls[0]).value, ls[1..], i)
  }

  predicate Done(t: Task) { t.pc == Notifying || t.pc == Returned }

  lemma TaskMoves(s: State, l: Label, i: nat)
    requires Inv(s) && Step(s, l).Some? && i < |s.tasks|
    ensures var t, t' := s.tasks[i], Step(s, l).value.tasks[i];
            && (t.exit ==> t'.exit)
            && (l != ThreadGoes(i) ==> t'.pc == t.pc)
            && (l == ThreadGoes(i) ==> ThreadStep(s, i).Some? && t'.exit == t.exit)
  {
    if l.MainGoes? { MainHandles(s); }
  }

  lemma {:induction false} WorksCount(s: State, ls: seq<Label>, i: nat)
    requires Inv(s) && Run(s, ls).Some? && i < |s.tasks| == |Run(s, ls).value.tasks|
    ensures var t, t', n := s.tasks[i], Run(s, ls).value.tasks[i], Works(s, ls, i);
            && (t.exit ==> t'.exit)
            && (Done(t) ==> n == 0 && Done(t'))
            && (s.once && t.pc == Working ==> n == if Done(t') then 1 else 0)
            && (s.once && (t.pc == Waiting || t.pc == Testing) ==> n <= 1 && (n == 1 ==> Done(t')))
            && (!Done(t) && Done(t') && !t'.exit ==> s.once && n == 1)
    decreases |ls|
  {
    hide Inv;
    if ls != [] {
      var s' := Step(s, ls[0]).value;
      StepKeepsInv(s, ls[0]);
      TaskMoves(s, ls[0], i);
      WorksCount(s', ls[1..], i);
    }
  }

  /**
   * No thread notifies without having done its work, unless it has been told to stop: in every interleaving, a
   * thread about to notify or back from it whose exit flag is not set has gone through its loop body exactly
   * once, with m_seclive == 0; and with m_seclive == 0 no thread goes through it twice.
   */
  lemma WorkIsDone(n: nat, once: bool, ls: seq<Label>, i: nat)
    requires i < n && Run(Init(n, once), ls).Some?
    ensures |Run(Init(n, once), ls).value.tasks| == n
    ensures var t, k := Run(Init(n, once), ls).value.tasks[i], Works(Init(n, once), ls, i);
            && (once ==> k <= 1)
            && ((t.pc == Notifying || t.pc == Returned) && !t.exit ==> once && k == 1)
  {
    InitOk(n, once);
    RunKeepsInv(Init(n, once), ls);
    WorksCount(Init(n, once), ls, i);
  }

  predicate Spinning(s: State) {
    && !s.once && (s.main == Idle || s.main.Starting?)
    && forall i | 0 <= i < |s.tasks| :: !s.tasks[i].exit && s.tasks[i].pc != Notifying && s.tasks[i].pc != Returned
  }

  /** Otherwise the threads go round for ever: without stop or clear nobody notifies. */
  lemma {:induction false} SpinsOtherwise(s: State, ls: seq<Label>)
    requires Spinning(s) && Run(s, ls).Some? && Invoke(Stop) !in ls && Invoke(Clear) !in ls
    ensures Spinning(Run(s, ls).value) && Run(s, ls).value.sem == s.sem
    decreases |ls|
  {
    if ls != [] {
      SpinsOtherwise(Step(s, ls[0]).value, ls[1..]);
    }
  }
}
