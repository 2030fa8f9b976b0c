/** The demo program: co_fp0 and the round-robin loop over the factory (libsrc/libaco/test/main.cpp:10-36, 73-109). */
module RoundRobin {
  import opened Platform
  import opened Geometry
  import opened Switch
  import opened Machine
  import opened PrivateStacks
  import opened Refinement
  import opened Lifecycle
  import opened Guarantees
  import opened Factory

  // ---------------------------------------------------------------- the schedule

  /** Resumes a coroutine with yield count ct needs: one for each yield and one in which it returns. */
  function Turns(ct: Key): nat { if ct > 0 then ct + 1 else 1 }

  function MaxTurns(args: seq<Key>): (m: nat)
    ensures forall j | 0 <= j < |args| :: Turns(args[j]) <= m
    ensures args != [] ==> exists j | 0 <= j < |args| :: Turns(args[j]) == m
  {
    if args == [] then 0
    else
      var m := MaxTurns(args[1..]);
      var n := Turns(args[0]);
      assert forall j | 1 <= j < |args| :: args[j] == args[1..][j - 1];
      if |args| > 1 && n < m then
        assert exists j | 0 <= j < |args[1..]| :: Turns(args[1..][j]) == m;
        m
      else
        assert Turns(args[0]) == n;
        n
  }

  /** The coroutines from index j on that still have something to do in round r, in index order. */
  function Pick(args: seq<Key>, r: nat, j: nat): seq<nat>
    requires j <= |args|
    decreases |args| - j
  {
    if j == |args| then []
    else (if r < Turns(args[j]) then [j] else []) + Pick(args, r, j + 1)
  }

  /** Rounds r, r + 1, ... until nobody is left. */
  function Rounds(args: seq<Key>, r: nat): seq<nat>
    decreases MaxTurns(args) - r
  {
    if MaxTurns(args) <= r then [] else Pick(args, r, 0) + Rounds(args, r + 1)
  }

  /** Turns left to the coroutines from index j on when round r begins. */
  function TurnsLeft(args: seq<Key>, r: nat, j: nat): nat
    requires j <= |args|
    decreases |args| - j
  {
    if j == |args| then 0
    else (if r < Turns(args[j]) then Turns(args[j]) - r else 0) + TurnsLeft(args, r, j + 1)
  }

  /** The positive yield counts added up, and one more for each coroutine. */
  function TotalResumes(args: seq<Key>): nat {
    if args == [] then 0 else (if args[0] > 0 then args[0] else 0) + 1 + TotalResumes(args[1..])
  }

  lemma {:induction false} PickCounts(args: seq<Key>, r: nat, j: nat)
    requires j <= |args|
    ensures |Pick(args, r, j)| + TurnsLeft(args, r + 1, j) == TurnsLeft(args, r, j)
    decreases |args| - j
  {
    if j < |args| { PickCounts(args, r, j + 1); }
  }

  lemma {:induction false} NobodyLeftOver(args: seq<Key>, r: nat, j: nat)
    requires j <= |args| && forall k | j <= k < |args| :: Turns(args[k]) <= r
    ensures TurnsLeft(args, r, j) == 0 && Pick(args, r, j) == []
    decreases |args| - j
  {
    if j < |args| { NobodyLeftOver(args, r, j + 1); }
  }

  lemma {:induction false} TurnsLeftIsTotal(args: seq<Key>, j: nat)
    requires j <= |args|
    ensures TurnsLeft(args, 0, j) == TotalResumes(args[j..])
    decreases |args| - j
  {
    if j < |args| {
      TurnsLeftIsTotal(args, j + 1);
      assert args[j..][1..] == args[j + 1..];
    }
  }

  lemma {:induction false} RoundsCount(args: seq<Key>, r: nat)
    ensures |Rounds(args, r)| == TurnsLeft(args, r, 0)
    decreases MaxTurns(args) - r
  {
    if MaxTurns(args) <= r {
      NobodyLeftOver(args, r, 0);
    } else {
      RoundsCount(args, r + 1);
      PickCounts(args, r, 0);
    }
  }

  /** Altogether there are as many resumes as the yield counts add up to, and one more for each coroutine. */
  lemma RoundsTotal(args: seq<Key>)
    ensures |Rounds(args, 0)| == TotalResumes(args)
  {
    RoundsCount(args, 0);
    TurnsLeftIsTotal(args, 0);
    assert args[0..] == args;
  }

  /** How often k occurs. */
  function Count(log: seq<nat>, k: nat): nat {
    if log == [] then 0 else (if log[0] == k then 1 else 0) + Count(log[1..], k)
  }

  lemma {:induction false} CountAppend(a: seq<nat>, b: seq<nat>, k: nat)
    ensures Count(a + b, k) == Count(a, k) + Count(b, k)
  {
    if a == [] {
      assert a + b == b;
    } else {
      assert (a + b)[1..] == a[1..] + b;
      CountAppend(a[1..], b, k);
    }
  }

  lemma {:induction false} PickOnce(args: seq<Key>, r: nat, j: nat, k: nat)
    requires j <= |args| && k < |args|
    ensures Count(Pick(args, r, j), k) == if j <= k && r < Turns(args[k]) then 1 else 0
    decreases |args| - j
  {
    if j < |args| {
      PickOnce(args, r, j + 1, k);
      CountAppend(if r < Turns(args[j]) then [j] else [], Pick(args, r, j + 1), k);
    }
  }

  /** Each coroutine gets exactly its own number of turns. */
  lemma {:induction false} FairShare(args: seq<Key>, r: nat, k: nat)
    requires k < |args|
    ensures Count(Rounds(args, r), k) == if r < Turns(args[k]) then Turns(args[k]) - r else 0
    decreases MaxTurns(args) - r
  {
    if r < MaxTurns(args) {
      FairShare(args, r + 1, k);
      PickOnce(args, r, 0, k);
      CountAppend(Pick(args, r, 0), Rounds(args, r + 1), k);
    } else {
      assert Turns(args[k]) <= r;
    }
  }

  lemma {:induction false} CountIsMultiset(log: seq<nat>, k: nat)
    ensures Count(log, k) == multiset(log)[k]
  {
    if log != [] {
      CountIsMultiset(log[1..], k);
      assert log == [log[0]] + log[1..];
    }
  }

  /** Each coroutine is resumed once for each of its yields, and once more to return; nobody else is. */
  lemma EachItsOwn(args: seq<Key>, k: nat)
    ensures k < |args| ==> multiset(Rounds(args, 0))[k] == 1 + (if args[k] > 0 then args[k] else 0) as int
    ensures k >= |args| ==> k !in Rounds(args, 0)
  {
    CountIsMultiset(Rounds(args, 0), k);
    if k < |args| { FairShare(args, 0, k); } else { NobodyElse(args, 0, k); }
  }

  lemma {:induction false} NotPicked(args: seq<Key>, r: nat, j: nat, k: nat)
    requires j <= |args| <= k
    ensures k !in Pick(args, r, j)
    decreases |args| - j
  {
    if j < |args| { NotPicked(args, r, j + 1, k); }
  }

  lemma {:induction false} NobodyElse(args: seq<Key>, r: nat, k: nat)
    requires |args| <= k
    ensures k !in Rounds(args, r)
    decreases MaxTurns(args) - r
  {
    if r < MaxTurns(args) {
      NotPicked(args, r, 0, k);
      NobodyElse(args, r + 1, k);
    }
  }

  // ---------------------------------------------------------------- between two resumes of one coroutine

  /** Where index i stands among those picked: the smaller ones before it, the larger ones after it. */
  lemma {:induction false} PickAt(args: seq<Key>, r: nat, j: nat, p: nat, k: nat)
    requires j <= |args| && p < |Pick(args, r, j)| && k < |args|
    ensures var i := Pick(args, r, j)[p];
            && j <= i < |args| && r < Turns(args[i])
            && Count(Pick(args, r, j)[..p], k) == (if j <= k < i && r < Turns(args[k]) then 1 else 0)
            && Count(Pick(args, r, j)[p + 1..], k) == (if i < k && r < Turns(args[k]) then 1 else 0)
    decreases |args| - j
  {
    var all, rest := Pick(args, r, j), Pick(args, r, j + 1);
    if r >= Turns(args[j]) {
      assert all == rest;
      PickAt(args, r, j + 1, p, k);
    } else if p == 0 {
      assert all[1..] == rest;
      PickOnce(args, r, j + 1, k);
    } else {
      assert all[1..] == rest && all[p] == rest[p - 1];
      assert all[..p] == [j] + rest[..p - 1] && all[p + 1..] == rest[p..];
      PickAt(args, r, j + 1, p - 1, k);
      CountAppend([j], rest[..p - 1], k);
    }
  }

  /** i is resumed at a and next at b. */
  predicate Consecutive(log: seq<nat>, i: nat, a: nat, b: nat) {
    a < b < |log| && log[a] == i && log[b] == i && i !in log[a + 1..b]
  }

  /** The first resume of i in the schedule from round r on is in round r, among those picked. */
  lemma FirstIsPicked(args: seq<Key>, r: nat, i: nat, b: nat)
    requires i < |args| && b < |Rounds(args, r)| && Rounds(args, r)[b] == i
    ensures b < |Pick(args, r, 0)| || i in Rounds(args, r)[..b]
  {
    FairShare(args, r, i);
    PickOnce(args, r, 0, i);
    CountIsMultiset(Rounds(args, r), i);
    CountIsMultiset(Pick(args, r, 0), i);
    var p :| 0 <= p < |Pick(args, r, 0)| && Pick(args, r, 0)[p] == i;
    if |Pick(args, r, 0)| <= b {
      assert Rounds(args, r)[..b][p] == i;
    }
  }

  /** A stretch that begins in `now`, where i does not come again, and ends in `rest`. */
  lemma Straddles(now: seq<nat>, rest: seq<nat>, i: nat, a: nat, b: nat)
    requires a < |now| && Consecutive(now + rest, i, a, b) && Count(now[a + 1..], i) == 0
    ensures |now| <= b && rest[b - |now|] == i && i !in rest[..b - |now|]
    ensures (now + rest)[..a] == now[..a] && (now + rest)[a..b] == [i] + (now[a + 1..] + rest[..b - |now|])
  {
    CountIsMultiset(now[a + 1..], i);
    assert (now + rest)[a + 1..b] == now[a + 1..] + rest[..b - |now|];
  }

  /** Up to the first resume of i from round r on: the smaller ones with turns left, each once. */
  lemma UpToFirst(args: seq<Key>, r: nat, i: nat, b: nat, k: nat)
    requires i < |args| && k < |args| && b < |Rounds(args, r)| && Rounds(args, r)[b] == i && i !in Rounds(args, r)[..b]
    ensures Count(Rounds(args, r)[..b], k) == if k < i && r < Turns(args[k]) then 1 else 0
  {
    FirstIsPicked(args, r, i, b);
    PickAt(args, r, 0, b, k);
    assert Rounds(args, r)[..b] == Pick(args, r, 0)[..b];
  }

  /** From a resume of i in round r to its next one, in round r + 1. */
  lemma AcrossRounds(args: seq<Key>, r: nat, i: nat, a: nat, b: nat, k: nat)
    requires a < |Pick(args, r, 0)| && k < |args| && k != i
    requires Consecutive(Pick(args, r, 0) + Rounds(args, r + 1), i, a, b)
    ensures var all := Pick(args, r, 0) + Rounds(args, r + 1);
            Count(all[a..b], k) == if r + Count(all[..a], k) < Turns(args[k]) then 1 else 0
  {
    var now, rest := Pick(args, r, 0), Rounds(args, r + 1);
    assert now[a] == i;
    PickAt(args, r, 0, a, k);
    PickAt(args, r, 0, a, i);
    AcrossHere(args, r, i, a, b, k);
  }

  lemma AcrossHere(args: seq<Key>, r: nat, i: nat, a: nat, b: nat, k: nat)
    requires a < |Pick(args, r, 0)| && i < |args| && k < |args| && k != i
    requires Consecutive(Pick(args, r, 0) + Rounds(args, r + 1), i, a, b)
    requires var now := Pick(args, r, 0);
             && Count(now[a + 1..], i) == 0
             && Count(now[..a], k) == (if k < i && r < Turns(args[k]) then 1 else 0)
             && Count(now[a + 1..], k) == (if i < k && r < Turns(args[k]) then 1 else 0)
    ensures var all := Pick(args, r, 0) + Rounds(args, r + 1);
            Count(all[a..b], k) == if r + Count(all[..a], k) < Turns(args[k]) then 1 else 0
  {
    hide Turns, Rounds, Pick;
    var now, rest := Pick(args, r, 0), Rounds(args, r + 1);
    Straddles(now, rest, i, a, b);
    UpToFirst(args, r + 1, i, b - |now|, k);
    CountAppend(now[a + 1..], rest[..b - |now|], k);
    CountAppend([i], now[a + 1..] + rest[..b - |now|], k);
    assert Count([i], k) == 0;
  }

  lemma {:induction false} BetweenFrom(args: seq<Key>, r: nat, i: nat, a: nat, b: nat, k: nat)
    requires k < |args| && k != i && Consecutive(Rounds(args, r), i, a, b)
    ensures Count(Rounds(args, r)[a..b], k) == if r + Count(Rounds(args, r)[..a], k) < Turns(args[k]) then 1 else 0
    decreases MaxTurns(args) - r
  {
    hide Turns, Pick;
    var now, all, rest := Pick(args, r, 0), Rounds(args, r), Rounds(args, r + 1);
    var n := |now|;
    assert all == now + rest;
    if a < n {
      AcrossRounds(args, r, i, a, b, k);
    } else {
      assert all[a + 1..b] == rest[a + 1 - n..b - n] && all[a..b] == rest[a - n..b - n];
      BetweenFrom(args, r + 1, i, a - n, b - n, k);
      assert all[..a] == now + rest[..a - n];
      CountAppend(now, rest[..a - n], k);
      PickOnce(args, r, 0, k);
    }
  }

  /** Between two resumes of i each other coroutine that has not returned is resumed, and only once. */
  ghost predicate TakesTurns(log: seq<nat>, args: seq<Key>) {
    forall i: nat, a: nat, b: nat, k: nat | Consecutive(log, i, a, b) && k < |args| && k != i ::
      OncePerLap(log, args, a, b, k)
  }

  /** From a to b k comes once if before a it has come no more than its yield count, and not otherwise. */
  predicate OncePerLap(log: seq<nat>, args: seq<Key>, a: nat, b: nat, k: nat)
    requires a <= b <= |log| && k < |args|
  {
    multiset(log[a..b])[k] == if multiset(log[..a])[k] <= (if args[k] > 0 then args[k] else 0) then 1 else 0
  }

  /** Before i is resumed for the first time those with a smaller index have been, each once, and nobody else. */
  ghost predicate StartsInOrder(log: seq<nat>, args: seq<Key>) {
    forall a: nat, k: nat | a < |log| && log[a] !in log[..a] && k < |args| ::
      multiset(log[..a])[k] == if k < log[a] then 1 else 0
  }

  /** The log of the program: how long it is, who is in it how often, and in what order. */
  ghost predicate IsRoundRobin(log: seq<nat>, args: seq<Key>) {
    && |log| == TotalResumes(args)
    && (forall k | k in log :: k < |args|)
    && (forall k | 0 <= k < |args| :: multiset(log)[k] == 1 + (if args[k] > 0 then args[k] else 0) as int)
    && StartsInOrder(log, args) && TakesTurns(log, args)
  }

  lemma Between(args: seq<Key>)
    ensures TakesTurns(Rounds(args, 0), args)
  {
    var log := Rounds(args, 0);
    forall i: nat, a: nat, b: nat, k: nat | Consecutive(log, i, a, b) && k < |args| && k != i
      ensures OncePerLap(log, args, a, b, k)
    {
      BetweenFrom(args, 0, i, a, b, k);
      CountIsMultiset(log[a..b], k);
      CountIsMultiset(log[..a], k);
    }
  }

  lemma InOrder(args: seq<Key>)
    ensures StartsInOrder(Rounds(args, 0), args)
  {
    var log := Rounds(args, 0);
    forall a: nat, k: nat | a < |log| && log[a] !in log[..a] && k < |args|
      ensures multiset(log[..a])[k] == if k < log[a] then 1 else 0
    {
      EachItsOwn(args, log[a]);
      UpToFirst(args, 0, log[a], a, k);
      CountIsMultiset(log[..a], k);
    }
  }

  /** The schedule is round robin, said of the log alone. */
  lemma ScheduleIsRoundRobin(args: seq<Key>)
    ensures IsRoundRobin(Rounds(args, 0), args)
  {
    RoundsTotal(args);
    InOrder(args);
    Between(args);
    forall k: nat ensures k in Rounds(args, 0) ==> k < |args| { EachItsOwn(args, k); }
    forall k | 0 <= k < |args|
      ensures multiset(Rounds(args, 0))[k] == 1 + (if args[k] > 0 then args[k] else 0) as int
    {
      EachItsOwn(args, k);
    }
  }

  // ---------------------------------------------------------------- co_fp0

  /** The address of co_fp0, and the return address of its call of Coroutine::yield. */
  const CO_FP0: Word := 2
  const YIELD_POINT: Word := 3

  /**
   * co_fp0 from one switch to the next, called by routine_proxy with a pointer to `arg`. Its frame of
   * `frame` bytes holds ct and the buffer it fills with 0xff; ct is nowhere else while it is suspended.
   */
  function CoFp0(g: Geom, arg: Key, frame: nat, cpu: Ctx, live: seq<Byte>): Slice
    requires 4 <= frame <= g.ret - g.ptr
  {
    var ct := if cpu.ip == ROUTINE_PROXY then arg else Decode(live) - 1;
    var to := cpu.(ip := YIELD_POINT, sp := g.ret - frame);
    var dead := seq(g.ret - g.ptr - frame, _ => 0);
    if 0 < ct < 0x8000_0000
    then Slice(to, dead + (Encode(ct) + seq(frame - 4, _ => 0xff)), false)
    else Slice(to, seq(g.ret - g.ptr, _ => 0xff), true)
  }

  /** A frame no smaller than its variables and no larger than the stack allows. */
  predicate FrameOk(a: Arch, g: Geom, frame: nat) {
    4 + 1024 <= frame && frame + 2 * a.W() <= g.limit
  }

  /** The coroutine that counts `arg` down has had t turns: it is about to start, or waits with ct in its frame. */
  predicate Waits(co: PCo, arg: Key, t: nat) {
    && !co.ended
    && (t == 0 || t <= arg)
    && if t == 0 then co.ctx.ip == ROUTINE_PROXY
       else co.ctx.ip == YIELD_POINT && Decode(co.live) == arg - (t - 1)
  }

  /** Another turn of one coroutine: turn t yields if t is less than its count, and the one after that returns. */
  lemma OneTurn(p: PState, id: nat, arg: Key, frame: nat, t: nat)
    requires PLinked(p) && id in p.cos && Waits(p.cos[id], arg, t) && CtxOk(p.arch, p.cos[id].ctx)
    requires var g := p.geoms[p.cos[id].stk]; GeomOk(p.arch, g) && FrameOk(p.arch, g, frame)
    ensures var g := p.geoms[p.cos[id].stk];
            var s := CoFp0(g, arg, frame, p.cos[id].ctx, p.cos[id].live);
            && SliceLegal(p, id, s) && InWindow(g, s.to.sp)
            && (!s.done <==> t < arg)
            && (!s.done ==> Waits(PSlice(p, id, s).cos[id], arg, t + 1))
  {
    var g := p.geoms[p.cos[id].stk];
    var s := CoFp0(g, arg, frame, p.cos[id].ctx, p.cos[id].live);
    if !s.done {
      var ct := arg - t;
      var rest := seq(frame - 4, _ => 0xff as Byte);
      Decodes(ct, rest);
      assert s.low[s.to.sp - g.ptr..] == Encode(ct) + rest;
    }
  }

  // ---------------------------------------------------------------- the loop's state

  /** Turns coroutine j has had when the loop is at index i of round r. */
  function Had(j: int, i: nat, r: nat): nat { if j < i then r + 1 else r }

  /** The map holds exactly the coroutines with turns left, none of them stopped, and each waits where it should. */
  predicate Standing(cos: map<nat, PCo>, es: map<Key, Entry>, args: seq<Key>, sstk: nat, i: nat, r: nat) {
    && (forall key | key in es :: 0 <= key < |args| && StandsAt(cos, es[key], args[key], sstk, Had(key, i, r)))
    && (forall key: Key | 0 <= key < |args| && key !in es :: Turns(args[key]) <= Had(key, i, r))
  }

  predicate StandsAt(cos: map<nat, PCo>, e: Entry, arg: Key, sstk: nat, t: nat)
    ensures StandsAt(cos, e, arg, sstk, t) ==> !e.stop && t < Turns(arg)
  {
    && e.hwnd.Some? && !e.stop && e.hwnd.value in cos
    && cos[e.hwnd.value].stk == sstk
    && Waits(cos[e.hwnd.value], arg, t)
  }

  /** Distinct keys name distinct coroutines. */
  predicate Apart(es: map<Key, Entry>, id: nat, i: Key) {
    forall key | key in es && key != i :: es[key].hwnd != Some(id)
  }

  /** Index i has just been passed: its coroutine `id` is gone, or still there and one turn further. */
  lemma Passed(cos: map<nat, PCo>, es: map<Key, Entry>, cos': map<nat, PCo>, es': map<Key, Entry>,
               args: seq<Key>, sstk: nat, i: Key, r: nat, id: nat)
    requires 0 <= i < |args| && Standing(cos, es, args, sstk, i, r)
    requires es' - {i} == es - {i} && Apart(es, id, i) && OnlyOne(cos, cos', id)
    requires i in es' ==> i in es && StandsAt(cos', es'[i], args[i], sstk, r + 1)
    requires i !in es' ==> Turns(args[i]) <= r + 1
    ensures Standing(cos', es', args, sstk, i + 1, r)
  {
    forall key | key in es' ensures 0 <= key < |args| && StandsAt(cos', es'[key], args[key], sstk, Had(key, i + 1, r)) {
      if key != i {
        SameElsewhere(es, es', i, key);
        assert StandsAt(cos, es[key], args[key], sstk, Had(key, i, r));
      }
    }
    forall key: Key | 0 <= key < |args| && key !in es' ensures Turns(args[key]) <= Had(key, i + 1, r) {
      if key != i { SameElsewhere(es, es', i, key); }
    }
  }

  /** A coroutine that has had its turn and yielded ... */
  lemma PassedStill(cos: map<nat, PCo>, es: map<Key, Entry>, cos': map<nat, PCo>, es': map<Key, Entry>,
                    args: seq<Key>, sstk: nat, i: Key, r: nat, id: nat)
    requires 0 <= i < |args| && Standing(cos, es, args, sstk, i, r) && i in es
    requires es' == es[i := Entry(Some(id), false)] && Apart(es, id, i) && OnlyOne(cos, cos', id)
    requires StandsAt(cos', es'[i], args[i], sstk, r + 1)
    ensures Standing(cos', es', args, sstk, i + 1, r)
  {
    Passed(cos, es, cos', es', args, sstk, i, r, id);
  }

  /** ... or returned and been removed. */
  lemma PassedGone(cos: map<nat, PCo>, es: map<Key, Entry>, cos': map<nat, PCo>, es': map<Key, Entry>,
                   args: seq<Key>, sstk: nat, i: Key, r: nat, id: nat)
    requires 0 <= i < |args| && Standing(cos, es, args, sstk, i, r) && i in es
    requires es' == es[i := Entry(Some(id), true)] && Apart(es, id, i) && OnlyOne(cos, cos', id)
    requires r + 1 == Turns(args[i])
    ensures Standing(cos' - {id}, es' - {i}, args, sstk, i + 1, r)
  {
    Passed(cos, es, cos' - {id}, es' - {i}, args, sstk, i, r, id);
  }

  lemma FindsIt(cos: map<nat, PCo>, es: map<Key, Entry>, args: seq<Key>, sstk: nat, i: Key, r: nat)
    requires 0 <= i < |args| && Standing(cos, es, args, sstk, i, r) && i in es
    ensures StandsAt(cos, es[i], args[i], sstk, r) && r < Turns(args[i])
  {
  }

  /** Index i was already done. */
  lemma NotThere(cos: map<nat, PCo>, es: map<Key, Entry>, args: seq<Key>, sstk: nat, i: Key, r: nat)
    requires 0 <= i < |args| && Standing(cos, es, args, sstk, i, r) && (i in es ==> es[i].stop)
    ensures i !in es && Standing(cos, es, args, sstk, i + 1, r) && Turns(args[i]) <= r
  {
  }

  lemma SameElsewhere(es: map<Key, Entry>, es': map<Key, Entry>, i: Key, key: Key)
    requires es' - {i} == es - {i} && key != i
    ensures key in es' <==> key in es
    ensures key in es ==> es'[key] == es[key]
  {
    assert key in es' <==> key in es' - {i};
    assert key in es <==> key in es - {i};
    if key in es {
      assert es'[key] == (es' - {i})[key];
      assert es[key] == (es - {i})[key];
    }
  }

  lemma Wrapped(cos: map<nat, PCo>, es: map<Key, Entry>, args: seq<Key>, sstk: nat, r: nat)
    requires Standing(cos, es, args, sstk, |args|, r)
    ensures Standing(cos, es, args, sstk, 0, r + 1)
  {
  }

  /** While somebody is left, the round is one of the schedule's. */
  lemma SomebodyLeft(cos: map<nat, PCo>, es: map<Key, Entry>, args: seq<Key>, sstk: nat, i: nat, r: nat)
    requires Standing(cos, es, args, sstk, i, r) && es != map[]
    ensures r < MaxTurns(args) && args != []
  {
    var key :| key in es;
    assert StandsAt(cos, es[key], args[key], sstk, Had(key, i, r));
  }

  /** When nobody is left, the schedule is over. */
  lemma ScheduleOver(cos: map<nat, PCo>, es: map<Key, Entry>, args: seq<Key>, sstk: nat, i: nat, r: nat)
    requires Standing(cos, es, args, sstk, i, r) && es == map[] && i <= |args| < 0x8000_0000
    ensures Pick(args, r, i) == [] && Rounds(args, r + 1) == []
  {
    forall k | 0 <= k < |args| ensures Turns(args[k]) <= Had(k, i, r) {
      var key: Key := k;
      assert key !in es;
    }
    NobodyLeftOver(args, r, i);
    if args != [] {
      var j :| 0 <= j < |args| && Turns(args[j]) == MaxTurns(args);
      assert Turns(args[j]) <= r + 1;
    }
  }

  // ---------------------------------------------------------------- what the library's promise gives the loop

  /** Only coroutine id has moved from cos to cos', and it may have gone. */
  predicate OnlyOne(cos: map<nat, PCo>, cos': map<nat, PCo>, id: nat) {
    forall d | d in cos && d != id :: d in cos' && cos'[d] == cos[d]
  }

  lemma SliceTight(p: PState, id: nat, slice: Slice)
    requires PLinked(p) && p.running == None && Tight(p) && id in p.cos && SliceLegal(p, id, slice)
    requires InWindow(p.geoms[p.cos[id].stk], slice.to.sp)
    ensures var p' := PSlice(p, id, slice);
            && p'.arch == p.arch && p'.geoms == p.geoms && p'.running == None && Tight(p')
            && OnlyOne(p.cos, p'.cos, id) && id in p'.cos && p'.cos[id].stk == p.cos[id].stk
  {
    forall c | c in p.cos ensures TightCo(PSlice(p, id, slice), c) {
      assert TightCo(p, c);
    }
  }

  lemma FewerTight(p: PState, p': PState)
    requires PLinked(p) && PLinked(p') && Tight(p)
    requires p'.arch == p.arch && p'.geoms == p.geoms && p'.running == p.running
    requires forall c | c in p'.cos :: c in p.cos && p'.cos[c] == p.cos[c]
    ensures Tight(p')
  {
    forall c | c in p'.cos ensures TightCo(p', c) {
      assert TightCo(p, c);
    }
  }

  lemma CreatedTight(p: PState, c: nat, co: Co)
    requires PLinked(p) && Tight(p) && c !in p.cos && co.stk in p.geoms && co.main in p.mains
    requires co.ctx.sp == p.geoms[co.stk].ret
    ensures PLinked(PCreated(p, c, co)) && Tight(PCreated(p, c, co))
  {
    forall d | d in PCreated(p, c, co).cos ensures TightCo(PCreated(p, c, co), d) {
      assert d in p.cos ==> TightCo(p, d);
    }
  }

  // ---------------------------------------------------------------- the loop

  lemma Inside(m: State, id: nat)
    requires Inv(m) && id in m.cos
    ensures var k := m.cos[id].stk;
            && k in m.stks && Abs(m).cos[id].stk == k && Abs(m).geoms[k] == m.stks[k].geom
            && GeomOk(m.arch, m.stks[k].geom) && CtxOk(m.arch, Abs(m).cos[id].ctx)
            && Abs(m).cos[id].ended == m.cos[id].ended && Abs(m).arch == m.arch && Abs(m).running == m.running
  {
    assert CoInv(m, id);
    assert StkInv(m, m.cos[id].stk);
    assert Abs(m).cos[id] == AbsCo(m, id);
  }

  /** What holds of it whatever index the loop is at. */
  ghost predicate Steady(f: CoroutineFactory, frame: nat)
    reads f, f.crMap.Values
    ensures Steady(f, frame) ==> Inv(f.rt)
  {
    && f.Valid() && Tight(Abs(f.rt))
    && f.sstk in Abs(f.rt).geoms && FrameOk(Abs(f.rt).arch, Abs(f.rt).geoms[f.sstk], frame)
    && (forall key | key in f.crMap :: f.crMap[key].fp == CO_FP0 && f.crMap[key].arg == key)
  }

  /** One resume, of a coroutine with turns left. */
  method Turn(f: CoroutineFactory, args: seq<Key>, frame: nat, i: Key, ghost r: nat) returns (ghost id: nat)
    requires 0 <= i < |args| && Steady(f, frame) && i in f.crMap
    requires StandsAt(Abs(f.rt).cos, f.Entries()[i], args[i], f.sstk, r)
    modifies f`rt, f.crMap[i]
    ensures Steady(f, frame) && f.Entries() == old(f.Entries())[i := Entry(Some(id), f.crMap[i].isStop)]
    ensures Apart(old(f.Entries()), id, i) && f.crMap[i].hwnd == Some(id)
    ensures !f.crMap[i].isStop <==> r < args[i]
    ensures OnlyOne(old(Abs(f.rt).cos), Abs(f.rt).cos, id)
    ensures !f.crMap[i].isStop ==> StandsAt(Abs(f.rt).cos, f.Entries()[i], args[i], f.sstk, r + 1)
  {
    hide Inv, Agrees, Abs, Tight, SliceLegal, PSlice, ResumeFails, CoFp0;
    var cr := f.crMap[i];
    ghost var m := f.rt;
    id := f.Id(i);
    OnlyEntry(m, f.Entries(), f.hwnd, f.sstk, f.keyOf, i);
    Inside(m, id);
    OneTurn(Abs(m), id, args[i], frame, r);
    TightNeverFails(m, id);
    var g, ct := f.rt.stks[f.sstk].geom, args[cr.arg];
    var found, aborted, slice := f.CrResume(i, (cpu, live) => CoFp0(g, ct, frame, cpu, live));
    SliceTight(Abs(m), id, slice);
  }

  /** The body of the loop at index i. */
  method Visit(f: CoroutineFactory, args: seq<Key>, frame: nat, i: Key, ghost r: nat) returns (ran: bool)
    requires 0 <= i < |args| && Running(f, args, frame, i, r)
    modifies f, f.crMap.Values
    ensures Running(f, args, frame, i + 1, r)
    ensures ran <==> r == 0 || r <= args[i]
    ensures f.crMap.Values <= old(f.crMap.Values)
  {
    hide Inv, Agrees, Abs, Tight, StandsAt, Steady, Standing, Apart, OnlyOne;
    ghost var cos, es := Abs(f.rt).cos, f.Entries();
    if i !in f.crMap || f.crMap[i].isStop {
      NotThere(cos, es, args, f.sstk, i, r);
      return false;
    }
    FindsIt(cos, es, args, f.sstk, i, r);
    ghost var id := Turn(f, args, frame, i, r);
    ghost var cos', es' := Abs(f.rt).cos, f.Entries();
    if f.crMap[i].isStop {
      Finish(f, frame, i);
      PassedGone(cos, es, cos', es', args, f.sstk, i, r, id);
    } else {
      PassedStill(cos, es, cos', es', args, f.sstk, i, r, id);
    }
    return true;
  }

  /** cr_remove of a coroutine that has returned. */
  method Finish(f: CoroutineFactory, frame: nat, i: Key)
    requires Steady(f, frame) && i in f.crMap
    modifies f, f.crMap[i]
    ensures Steady(f, frame) && f.crMap == old(f.crMap) - {i} && f.Entries() == old(f.Entries()) - {i}
    ensures old(f.crMap[i].hwnd).Some? && Abs(f.rt).cos == old(Abs(f.rt).cos) - {old(f.crMap[i].hwnd).value}
  {
    hide Inv, Agrees, Abs, Tight, Destroyed;
    ghost var m, id := f.rt, f.Id(i);
    Inside(m, id);
    var _ := f.CrRemove(i);
    DestroyRefines(m, id);
    FewerTight(Abs(m), Abs(f.rt));
  }

  // ---------------------------------------------------------------- creating them all

  lemma FreshWaits(m: State, hwnd: nat, sstk: nat, addr: Word, arg: Key)
    requires sstk in m.stks
    ensures var co := Fresh(m, hwnd, sstk, 0, addr);
            && Waits(PCo(co.main, co.stk, co.arg, false, co.ctx, co.save.bytes), arg, 0)
            && co.ctx.sp == m.stks[sstk].geom.ret
  {
  }

  lemma Added(cos: map<nat, PCo>, es: map<Key, Entry>, args: seq<Key>, sstk: nat, i: Key, id: nat, co: PCo)
    requires 0 <= i < |args| && Standing(cos, es, args[..i], sstk, 0, 0)
    requires id !in cos && co.stk == sstk && Waits(co, args[i], 0)
    ensures i !in es && Standing(cos[id := co], es[i := Entry(Some(id), false)], args[..i + 1], sstk, 0, 0)
  {
    var es' := es[i := Entry(Some(id), false)];
    forall key | key in es'
      ensures 0 <= key <= i && StandsAt(cos[id := co], es'[key], args[..i + 1][key], sstk, Had(key, 0, 0))
    {
      if key != i {
        assert StandsAt(cos, es[key], args[..i][key], sstk, Had(key, 0, 0));
      }
    }
  }

  /** cr_create of one more coroutine. */
  method CreateOne(f: CoroutineFactory, args: seq<Key>, frame: nat, i: Key)
    requires 0 <= i < |args| && Steady(f, frame)
    requires Standing(Abs(f.rt).cos, f.Entries(), args[..i], f.sstk, 0, 0)
    modifies f
    ensures Steady(f, frame) && Standing(Abs(f.rt).cos, f.Entries(), args[..i + 1], f.sstk, 0, 0)
    ensures fresh(f.crMap.Values - old(f.crMap.Values))
  {
    hide Inv, Agrees, Abs, Tight, Created, Fresh, Standing, Waits;
    ghost var m, cos, es := f.rt, Abs(f.rt).cos, f.Entries();
    Shape(m);
    NotYet(cos, es, args, f.sstk, i);
    var ok := f.CrCreate(CO_FP0, i, 0, i);
    ghost var id := f.crMap[i].hwnd.value;
    ghost var co := Fresh(m, f.hwnd, f.sstk, 0, f.crMap[i].addr);
    FreshIs(m, f.hwnd, f.sstk, 0, f.crMap[i].addr);
    FreshWaits(m, f.hwnd, f.sstk, f.crMap[i].addr, args[i]);
    CreateAbs(m, id, co);
    CreatedTight(Abs(m), id, co);
    Added(cos, es, args, f.sstk, i, id, PCo(co.main, co.stk, co.arg, false, co.ctx, co.save.bytes));
  }

  lemma NotYet(cos: map<nat, PCo>, es: map<Key, Entry>, args: seq<Key>, sstk: nat, i: Key)
    requires 0 <= i < |args| && Standing(cos, es, args[..i], sstk, 0, 0)
    ensures i !in es
  {
  }

  lemma Shape(m: State)
    requires Linked(m)
    ensures Abs(m).arch == m.arch && Abs(m).cos.Keys == m.cos.Keys && Abs(m).mains == m.mains
    ensures Abs(m).geoms.Keys == m.stks.Keys && forall k | k in m.stks :: Abs(m).geoms[k] == m.stks[k].geom
  {
  }

  /** The first loop of main. */
  method CreateAll(f: CoroutineFactory, args: seq<Key>, frame: nat)
    requires |args| < 0x8000_0000 && Steady(f, frame) && f.crMap == map[]
    modifies f
    ensures Running(f, args, frame, 0, 0) && fresh(f.crMap.Values)
  {
    hide Inv, Agrees, Abs, Tight, Waits;
    var i := 0;
    while i < |args|
      invariant 0 <= i <= |args|
      invariant Steady(f, frame) && Standing(Abs(f.rt).cos, f.Entries(), args[..i], f.sstk, 0, 0)
      invariant fresh(f.crMap.Values)
    {
      CreateOne(f, args, frame, i);
      i := i + 1;
    }
    assert args[..i] == args;
  }

  /** What holds of the factory at index i of round r. */
  ghost predicate Running(f: CoroutineFactory, args: seq<Key>, frame: nat, i: nat, r: nat)
    reads f, f.crMap.Values
  {
    Steady(f, frame) && Standing(Abs(f.rt).cos, f.Entries(), args, f.sstk, i, r)
  }

  lemma StillRunning(f: CoroutineFactory, args: seq<Key>, frame: nat, i: nat, r: nat)
    requires Running(f, args, frame, i, r) && f.crMap != map[]
    ensures r < MaxTurns(args) && args != []
  {
    hide Inv, Agrees, Abs, Tight, Standing;
    SomebodyLeft(Abs(f.rt).cos, f.Entries(), args, f.sstk, i, r);
  }

  lemma NextLap(f: CoroutineFactory, args: seq<Key>, frame: nat, r: nat)
    requires Running(f, args, frame, |args|, r)
    ensures Running(f, args, frame, 0, r + 1)
  {
    hide Inv, Agrees, Abs, Tight, Standing;
    Wrapped(Abs(f.rt).cos, f.Entries(), args, f.sstk, r);
  }

  lemma AllDone(f: CoroutineFactory, args: seq<Key>, frame: nat, i: nat, r: nat)
    requires Running(f, args, frame, i, r) && f.crMap == map[] && i <= |args| < 0x8000_0000
    ensures Steady(f, frame) && Pick(args, r, i) == [] && Rounds(args, r + 1) == []
  {
    hide Inv, Agrees, Abs, Tight, Standing;
    ScheduleOver(Abs(f.rt).cos, f.Entries(), args, f.sstk, i, r);
  }

  /**
   * The second loop of main. Whatever the yield counts, it ends with the map empty, and the resumes it has
   * made are round robin: each coroutine is resumed once for each of its yields and once more, and between two
   * resumes of one coroutine each other one that is left gets one turn.
   */
  method RunAll(f: CoroutineFactory, args: seq<Key>, frame: nat) returns (resumed: seq<nat>)
    requires |args| < 0x8000_0000 && Running(f, args, frame, 0, 0)
    modifies f, f.crMap.Values
    ensures f.crMap == map[] && Steady(f, frame)
    ensures resumed == Rounds(args, 0) && IsRoundRobin(resumed, args)
  {
    hide IsRoundRobin, Running, Steady, OnSchedule, Pick, Rounds;
    var i: nat := 0;
    ghost var r := 0;
    resumed := [];
    Opening(args);
    while f.crMap != map[]
      invariant 0 <= i <= |args| && (args != [] ==> i < |args|)
      invariant Running(f, args, frame, i, r)
      invariant f.crMap.Values <= old(f.crMap.Values)
      invariant OnSchedule(resumed, args, i, r)
      decreases MaxTurns(args) - r, |args| - i
    {
      StillRunning(f, args, frame, i, r);
      var ran := Visit(f, args, frame, i, r);
      Recorded(resumed, args, i, r);
      resumed := if ran then resumed + [i] else resumed;
      i := i + 1;
      if i == |args| {
        NextLap(f, args, frame, r);
        NextRound(resumed, args, r);
        i := 0;
        r := r + 1;
      }
    }
    AllDone(f, args, frame, i, r);
    Closing(resumed, args, i, r);
    ScheduleIsRoundRobin(args);
  }

  /** The resumes made so far and those the schedule still holds make up the whole schedule. */
  predicate OnSchedule(log: seq<nat>, args: seq<Key>, i: nat, r: nat)
    requires i <= |args|
  {
    log + Pick(args, r, i) + Rounds(args, r + 1) == Rounds(args, 0)
  }

  lemma Opening(args: seq<Key>)
    ensures OnSchedule([], args, 0, 0)
  {
  }

  lemma Recorded(log: seq<nat>, args: seq<Key>, i: nat, r: nat)
    requires i < |args| && OnSchedule(log, args, i, r)
    ensures OnSchedule(if r < Turns(args[i]) then log + [i] else log, args, i + 1, r)
  {
    if r < Turns(args[i]) {
      assert log + Pick(args, r, i) == log + [i] + Pick(args, r, i + 1);
    }
  }

  lemma NextRound(log: seq<nat>, args: seq<Key>, r: nat)
    requires OnSchedule(log, args, |args|, r)
    ensures OnSchedule(log, args, 0, r + 1)
  {
    var next := Pick(args, r + 1, 0);
    if MaxTurns(args) <= r + 1 {
      NobodyLeftOver(args, r + 1, 0);
    }
    assert log + [] == log;
    assert Rounds(args, r + 1) == next + Rounds(args, r + 2);
    assert log + (next + Rounds(args, r + 2)) == log + next + Rounds(args, r + 2);
  }

  lemma Closing(log: seq<nat>, args: seq<Key>, i: nat, r: nat)
    requires i <= |args| && OnSchedule(log, args, i, r) && Pick(args, r, i) == [] && Rounds(args, r + 1) == []
    ensures log == Rounds(args, 0)
  {
  }

  // ---------------------------------------------------------------- the whole program

  /** The default share stack of 2 MiB is no more than half the address space, whatever the page size. */
  lemma DefaultStack(a: Arch, pg: int, base: nat, fill: seq<Byte>)
    requires StackReady(a, 0, pg, base, fill)
    ensures var g := StackGeom(a, 0, true, pg, base).value;
            GeomOk(a, g) && g.sz <= a.Half() && 0x20_0000 <= g.sz
  {
    StackGeomOk(a, 0, true, pg, base);
    if 0x20_0000 <= pg {
      SmallRequest(0x20_0000, pg);
    }
  }

  lemma OpenedCo(m: State, pg: int, base: nat, fill: seq<Byte>, hwnd: nat, k: nat, c: nat)
    requires Linked(m) && k !in m.stks && c in m.cos
    requires StackReady(m.arch, 0, pg, base, fill) && Linked(Opened(m, 0, pg, base, fill, hwnd, k))
    ensures AbsCo(Opened(m, 0, pg, base, fill, hwnd, k), c) == AbsCo(m, c)
  {
  }

  lemma OpenedAbs(m: State, pg: int, base: nat, fill: seq<Byte>, hwnd: nat, k: nat)
    requires Linked(m) && m.running == None && k !in m.stks
    requires StackReady(m.arch, 0, pg, base, fill) && Linked(Opened(m, 0, pg, base, fill, hwnd, k))
    ensures var p := Abs(Opened(m, 0, pg, base, fill, hwnd, k));
            && p.arch == m.arch && p.running == None && p.cos == Abs(m).cos
            && p.geoms == Abs(m).geoms[k := StackGeom(m.arch, 0, true, pg, base).value]
  {
    hide AbsCo, StackBytes;
    var m' := Opened(m, 0, pg, base, fill, hwnd, k);
    forall c | c in m.cos ensures AbsCo(m', c) == AbsCo(m, c) {
      OpenedCo(m, pg, base, fill, hwnd, k, c);
    }
    assert AbsCos(m') == AbsCos(m);
    assert Geoms(m') == Geoms(m)[k := StackGeom(m.arch, 0, true, pg, base).value];
  }

  lemma MoreStacksTight(p: PState, p': PState, k: nat, g: Geom)
    requires PLinked(p) && PLinked(p') && Tight(p) && p.running == None
    requires p'.arch == p.arch && p'.running == None && p'.cos == p.cos && p'.geoms == p.geoms[k := g] && k !in p.geoms
    requires GeomOk(p.arch, g) && g.sz <= p.arch.Half()
    ensures Tight(p')
  {
    forall c | c in p'.cos ensures TightCo(p', c) {
      assert TightCo(p, c);
    }
  }

  lemma OpenedTight(m: State, pg: int, base: nat, fill: seq<Byte>, hwnd: nat, k: nat)
    requires Linked(m) && Tight(Abs(m)) && m.running == None && k !in m.stks
    requires StackReady(m.arch, 0, pg, base, fill) && Linked(Opened(m, 0, pg, base, fill, hwnd, k))
    ensures var p := Abs(Opened(m, 0, pg, base, fill, hwnd, k));
            Tight(p) && p.arch == m.arch && k in p.geoms && p.geoms[k] == StackGeom(m.arch, 0, true, pg, base).value
  {
    hide Opened, Tight;
    DefaultStack(m.arch, pg, base, fill);
    OpenedAbs(m, pg, base, fill, hwnd, k);
    Shape(m);
    MoreStacksTight(Abs(m), Abs(Opened(m, 0, pg, base, fill, hwnd, k)), k, StackGeom(m.arch, 0, true, pg, base).value);
  }

  /**
   * main, with the factory's destructor: for any number of coroutines, any counts, any page size and any
   * frame of co_fp0 up to 1 MiB, nothing aborts, the loop ends, its resumes are round robin, and the thread is
   * left without the factory's stack, its main coroutine and its coroutines.
   */
  method Demo(rt0: State, args: seq<Key>, frame: nat, pg: int, base: nat, fill: seq<Byte>, hwnd: nat, sstk: nat)
    returns (resumed: seq<nat>, rt: State)
    requires Inv(rt0) && Tight(Abs(rt0)) && rt0.running == None && hwnd !in rt0.mains && hwnd !in rt0.cos
    requires sstk !in rt0.stks && StackReady(rt0.arch, 0, pg, base, fill)
    requires 4 + 1024 <= frame <= 0x10_0000 && |args| < 0x8000_0000
    ensures resumed == Rounds(args, 0) && IsRoundRobin(resumed, args)
    ensures Inv(rt) && sstk !in rt.stks && hwnd !in rt.mains && forall id | id in rt.cos :: rt.cos[id].stk != sstk
  {
    hide Abs, Tight, Agrees, Opened, Running, IsRoundRobin;
    DefaultStack(rt0.arch, pg, base, fill);
    var f := new CoroutineFactory(rt0, 0, pg, base, fill, hwnd, sstk);
    OpenedTight(rt0, pg, base, fill, hwnd, sstk);
    CreateAll(f, args, frame);
    resumed := RunAll(f, args, frame);
    var _ := f.Close();
    rt := f.rt;
  }
}
