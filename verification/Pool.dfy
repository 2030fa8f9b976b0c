/**
 * Task and TaskPool as main calls them (src/TaskPool.cpp:36-83, src/Task.cpp:36-59): each call, run without a
 * step of another thread in between, is proved to be the machine's own sequence of main steps.
 */
module Pool {
  import opened Platform
  import P = TaskPool

  /** Main steps from s on, as long as one is enabled and at most n of them. */
  function Alone(s: P.State, n: nat): P.State
    decreases n
  {
    if n == 0 then s
    else
      match P.MainStep(s)
      case None => s
      case Some(s') => Alone(s', n - 1)
  }

  /** Main steps alone are an interleaving. */
  lemma {:induction false} AloneIsARun(s: P.State, n: nat) returns (ls: seq<P.Label>)
    ensures P.Run(s, ls) == Some(Alone(s, n))
    decreases n
  {
    if n == 0 || P.MainStep(s) == None {
      ls := [];
    } else {
      var rest := AloneIsARun(P.MainStep(s).value, n - 1);
      ls := [P.MainGoes] + rest;
      assert ls[1..] == rest;
    }
  }

  /** The second loop of clear at task i: one step past a joined task, two where a returned thread is joined. */
  function Passed(s: P.State, i: nat): P.State
    requires i < |s.tasks|
  {
    s.(tasks := s.tasks[i := s.tasks[i].(exit := true, joined := true)], main := P.Releasing(i + 1))
  }

  /** Main waits for the thread of task i. */
  function Waiting(s: P.State, i: nat): P.State
    requires i < |s.tasks|
  {
    s.(tasks := s.tasks[i := s.tasks[i].(exit := true)], main := P.Joining(i))
  }

  lemma ReleaseSteps(s: P.State, i: nat, n: nat)
    requires s.main == P.Releasing(i) && i < |s.tasks| && n >= 2
    ensures s.tasks[i].joined || s.tasks[i].pc == P.Returned ==>
              Alone(s, n) == Alone(Passed(s, i), if s.tasks[i].joined then n - 1 else n - 2)
    ensures !s.tasks[i].joined && s.tasks[i].pc != P.Returned ==> Alone(s, n) == Waiting(s, i)
  {
    var s1 := P.MainStep(s).value;
    if !s.tasks[i].joined && s.tasks[i].pc != P.Returned {
      assert P.MainStep(s1) == None;
    } else if !s.tasks[i].joined {
      assert s1.tasks[i := s1.tasks[i].(joined := true)] == Passed(s, i).tasks;
      assert P.MainStep(s1) == Some(Passed(s, i));
    }
  }

  /** Without a thread in the way, the stop loops take one step a task. */
  lemma StopSteps(s: P.State, i: nat, n: nat)
    requires (s.main == P.Stopping(i) || s.main == P.ClearStopping(i)) && i < |s.tasks| && n >= 1
    ensures var main := if s.main.Stopping? then P.Stopping(i + 1) else P.ClearStopping(i + 1);
            Alone(s, n) == Alone(s.(tasks := s.tasks[i := s.tasks[i].(exit := true)], main := main), n - 1)
  {
  }

  lemma StartSteps(s: P.State, i: nat, n: nat)
    requires s.main == P.Starting(i) && i < |s.tasks| && n >= 1
    ensures var t := s.tasks[i];
            var t' := if t.joined then t else t.(sem := t.sem + 1, posts := t.posts + 1);
            Alone(s, n) == Alone(s.(tasks := s.tasks[i := t'], main := P.Starting(i + 1)), n - 1)
  {
  }

  /** The step that leaves a loop. */
  lemma LastStep(s: P.State, n: nat)
    requires n >= 1 && s.main != P.Idle && !s.main.Joining? && s.main.i >= |s.tasks|
    ensures Alone(s, n) == if s.main.ClearStopping? then Alone(s.(main := P.Releasing(0)), n - 1) else s.(main := P.Idle)
  {
    if !s.main.ClearStopping? {
      assert P.MainStep(s.(main := P.Idle)) == None;
    }
  }

  class Task {
    var sem: nat
    var exit: bool
    /** m_tid != 0 */
    var hasThread: bool
    /** Where the thread is, which only pthread_join looks at. */
    var pc: P.Pc
    ghost var posts: nat

    ghost function Value(): P.Task
      reads this
    {
      P.Task(sem, exit, !hasThread, pc, posts)
    }

    constructor ()
      ensures Value() == P.Task(0, false, false, P.Waiting, 0)
    {
      sem, exit, hasThread, pc, posts := 0, false, true, P.Waiting, 0;
    }

    method Start() returns (ok: bool)
      modifies this
      ensures ok <==> old(hasThread)
      ensures Value() == if ok then old(Value()).(sem := old(sem) + 1, posts := old(posts) + 1) else old(Value())
    {
      if !hasThread { return false; }
      sem := sem + 1;
      posts := posts + 1;
      ok := true;
    }

    method Stop()
      modifies this
      ensures Value() == old(Value()).(exit := true)
    {
      exit := true;
    }

    /** pthread_join comes back once the thread has returned; `done` is false while it waits. */
    method Release() returns (done: bool)
      modifies this
      ensures done <==> !old(hasThread) || pc == P.Returned
      ensures Value() == if done then old(Value()).(exit := true, joined := true) else old(Value()).(exit := true)
    {
      exit := true;
      if hasThread {
        if pc != P.Returned { return false; }
        hasThread := false;
      }
      done := true;
    }
  }

  class TaskPool {
    var sem: nat
    var tasks: seq<Task>
    ghost const once: bool

    ghost predicate Valid()
      reads this
    {
      forall i, j | 0 <= i < j < |tasks| :: tasks[i] != tasks[j]
    }

    /** The machine's state with main at a given point. */
    ghost function At(main: P.Main): (s: P.State)
      reads this, tasks
      ensures |s.tasks| == |tasks| && forall i | 0 <= i < |tasks| :: s.tasks[i] == tasks[i].Value()
    {
      P.State(once, seq(|tasks|, i requires 0 <= i < |tasks| reads this, tasks => tasks[i].Value()), sem, main)
    }

    constructor (once: bool)
      ensures Valid() && At(P.Idle) == P.Init(0, once)
    {
      this.once := once;
      sem, tasks := 0, [];
    }

    /** One round of TaskPool::init's loop: a task with its thread. */
    method AddTask()
      requires Valid() && At(P.Idle) == P.Init(|tasks|, once)
      modifies this
      ensures Valid() && |tasks| == old(|tasks|) + 1 && At(P.Idle) == P.Init(|tasks|, once)
    {
      var task := new Task();
      ghost var was := At(P.Idle).tasks;
      tasks := tasks + [task];
      assert forall i | 0 <= i < |tasks| - 1 :: tasks[i].Value() == was[i];
      assert At(P.Idle).tasks == P.Init(|tasks|, once).tasks;
    }

    method Start()
      requires Valid()
      modifies tasks
      ensures At(P.Idle) == Alone(old(At(P.Starting(0))), |tasks| + 1)
    {
      hide Alone, P.MainStep;
      var i := 0;
      while i < |tasks|
        invariant 0 <= i <= |tasks|
        invariant Alone(old(At(P.Starting(0))), |tasks| + 1) == Alone(At(P.Starting(i)), |tasks| + 1 - i)
      {
        ghost var s := At(P.Starting(i));
        StartSteps(s, i, |tasks| + 1 - i);
        var _ := tasks[i].Start();
        assert At(P.Idle).tasks == s.tasks[i := tasks[i].Value()];
        i := i + 1;
      }
      LastStep(At(P.Starting(i)), 1);
    }

    method Stop()
      requires Valid()
      modifies tasks
      ensures At(P.Idle) == Alone(old(At(P.Stopping(0))), |tasks| + 1)
      ensures forall j | 0 <= j < |tasks| :: tasks[j].exit && tasks[j].hasThread == old(tasks[j].hasThread)
    {
      hide Alone, P.MainStep;
      var i := 0;
      while i < |tasks|
        invariant 0 <= i <= |tasks|
        invariant Alone(old(At(P.Stopping(0))), |tasks| + 1) == Alone(At(P.Stopping(i)), |tasks| + 1 - i)
        invariant forall j | 0 <= j < |tasks| ::
                    (j < i ==> tasks[j].exit) && tasks[j].hasThread == old(tasks[j].hasThread)
      {
        ghost var s := At(P.Stopping(i));
        StopSteps(s, i, |tasks| + 1 - i);
        tasks[i].Stop();
        assert At(P.Idle).tasks == s.tasks[i := tasks[i].Value()];
        i := i + 1;
      }
      LastStep(At(P.Stopping(i)), 1);
    }

    /** cfg.m_vecCore has one core for every task. */
    method IsStop() returns (r: bool)
      ensures r <==> P.IsStop(At(P.Idle))
    {
      r := sem == |tasks|;
    }

    /**
     * Both loops of clear as far as they get without a step of another thread: `main` is Idle if clear has come
     * back, and otherwise names the task whose thread it waits for.
     */
    method Clear() returns (main: P.Main)
      requires Valid()
      modifies tasks
      ensures At(main) == Alone(old(At(P.ClearStopping(0))), 3 * |tasks| + 2)
      ensures main == P.Idle ==> P.AllJoined(At(main))
      ensures main != P.Idle ==>
                main.Joining? && main.i < |tasks| && tasks[main.i].hasThread && tasks[main.i].pc != P.Returned
    {
      hide Alone, P.MainStep;
      StopAll();
      LastStep(At(P.ClearStopping(|tasks|)), 2 * |tasks| + 2);
      main := ReleaseAll();
    }

    /** The first loop. */
    method StopAll()
      requires Valid()
      modifies tasks
      ensures Alone(old(At(P.ClearStopping(0))), 3 * |tasks| + 2) == Alone(At(P.ClearStopping(|tasks|)), 2 * |tasks| + 2)
    {
      hide Alone, P.MainStep;
      var i := 0;
      while i < |tasks|
        invariant 0 <= i <= |tasks|
        invariant Alone(old(At(P.ClearStopping(0))), 3 * |tasks| + 2) == Alone(At(P.ClearStopping(i)), 3 * |tasks| + 2 - i)
      {
        ghost var s := At(P.ClearStopping(i));
        StopSteps(s, i, 3 * |tasks| + 2 - i);
        tasks[i].Stop();
        assert At(P.Idle).tasks == s.tasks[i := tasks[i].Value()];
        i := i + 1;
      }
    }

    /** The second loop. */
    method ReleaseAll() returns (main: P.Main)
      requires Valid()
      modifies tasks
      ensures At(main) == Alone(old(At(P.Releasing(0))), 2 * |tasks| + 1)
      ensures main == P.Idle ==> P.AllJoined(At(main))
      ensures main != P.Idle ==>
                main.Joining? && main.i < |tasks| && tasks[main.i].hasThread && tasks[main.i].pc != P.Returned
    {
      hide Alone, P.MainStep;
      var i := 0;
      ghost var left := 2 * |tasks| + 1;
      while i < |tasks|
        invariant 0 <= i <= |tasks| && left >= 2 * (|tasks| - i) + 1
        invariant forall j | 0 <= j < i :: !tasks[j].hasThread
        invariant Alone(old(At(P.Releasing(0))), 2 * |tasks| + 1) == Alone(At(P.Releasing(i)), left)
      {
        ghost var s := At(P.Releasing(i));
        ReleaseSteps(s, i, left);
        left := left - if tasks[i].hasThread then 2 else 1;
        var done := tasks[i].Release();
        assert At(P.Idle).tasks == s.tasks[i := tasks[i].Value()];
        if !done { return P.Joining(i); }
        i := i + 1;
      }
      LastStep(At(P.Releasing(i)), left);
      return P.Idle;
    }
  }
}
