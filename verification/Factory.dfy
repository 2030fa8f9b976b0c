/** The C++ wrapper: Coroutine and CoroutineFactory<int> (src/Coroutine.cpp). */
module Factory {
  import opened Platform
  import opened Geometry
  import opened Switch
  import opened Machine
  import opened PrivateStacks
  import opened Refinement
  import opened Lifecycle
  import opened Runs

  /** int, the key type the factory is instantiated at. */
  type Key = k: int | -0x8000_0000 <= k < 0x8000_0000

  /** The address of Coroutine::routine_proxy. */
  const ROUTINE_PROXY: Word := 1

  /** What a routine does from one switch to the next: it leaves registers and stack bytes, and yields or returns. */
  datatype Slice = Slice(to: Ctx, low: seq<Byte>, done: bool)

  /** A routine, given the registers and the stack bytes it finds when it is switched to. */
  type Routine = (Ctx, seq<Byte>) -> Slice

  /** class Coroutine; `hwnd` is None where m_hwnd is NULL. */
  class Coroutine {
    const addr: Word
    const mainHwnd: nat
    const sstk: nat
    var hwnd: Option<nat>
    var fp: Word
    var arg: Word
    var isStop: bool

    constructor (mainHwnd: nat, sstk: nat)
      ensures this.mainHwnd == mainHwnd && this.sstk == sstk && hwnd == None && !isStop
    {
      addr := *;
      this.mainHwnd, this.sstk := mainHwnd, sstk;
      hwnd, fp, arg, isStop := None, 0, 0, false;
    }

    /** Coroutine::create, on the library's state m: refused if there is a handle already. */
    method Create(m: State, routine: Word, arg: Word, size: nat) returns (ok: bool, m': State)
      requires Inv(m) && mainHwnd in m.mains && sstk in m.stks && size < m.arch.Space()
      modifies this
      ensures ok <==> old(hwnd) == None
      ensures !ok ==> m' == m && hwnd == old(hwnd) && fp == old(fp) && this.arg == old(this.arg)
      ensures isStop == old(isStop)
      ensures ok ==>
                && fp == routine && this.arg == arg && hwnd.Some? && hwnd.value !in m.cos
                && m' == Created(m, hwnd.value, Fresh(m, mainHwnd, sstk, size, addr))
                && Inv(m')
    {
      if hwnd.Some? { return false, m; }
      fp, this.arg := routine, arg;
      var id := FreshId(m);
      m' := CreateCall(m, id, mainHwnd, sstk, size, ROUTINE_PROXY, addr);
      hwnd := Some(id);
      ok := true;
    }
  }

  /** Some name is not in use. */
  lemma FreshName(used: set<nat>) returns (n: nat)
    ensures n !in used
  {
    n := Above(used);
  }

  lemma Above(used: set<nat>) returns (n: nat)
    ensures forall x | x in used :: x < n
    decreases |used|
  {
    if used == {} {
      n := 0;
    } else {
      var x :| x in used;
      var k := Above(used - {x});
      n := if x < k then k else x + 1;
      forall y | y in used ensures y < n {
        assert y == x || y in used - {x};
      }
    }
  }

  /** What the factory's map says about one coroutine. */
  datatype Entry = Entry(hwnd: Option<nat>, stop: bool)

  /** The entry under `key` is one live coroutine of the factory, and its stop flag is the library's end flag. */
  predicate EntryOk(m: State, e: Entry, key: Key, hwnd: nat, sstk: nat, keyOf: map<nat, Key>) {
    && e.hwnd.Some?
    && var id := e.hwnd.value;
       && id in m.cos && m.cos[id].stk == sstk && m.cos[id].main == hwnd
       && id in keyOf && keyOf[id] == key
       && (e.stop <==> m.cos[id].ended)
  }

  /** A coroutine on the factory's stack is in the map under the key the registry gives; the others are not its. */
  predicate Registered(m: State, es: map<Key, Entry>, id: nat, hwnd: nat, sstk: nat, keyOf: map<nat, Key>)
    requires id in m.cos
  {
    && (m.cos[id].stk == sstk <==> m.cos[id].main == hwnd)
    && (m.cos[id].stk == sstk ==> id in keyOf && keyOf[id] in es && es[keyOf[id]].hwnd == Some(id))
  }

  /** While main code runs, the map and the library agree: each live coroutine is under exactly one key. */
  predicate Agrees(m: State, es: map<Key, Entry>, hwnd: nat, sstk: nat, keyOf: map<nat, Key>)
    ensures Agrees(m, es, hwnd, sstk, keyOf) ==> m.running == None && hwnd in m.mains && sstk in m.stks
  {
    && m.running == None && hwnd in m.mains && sstk in m.stks
    && (forall key | key in es :: EntryOk(m, es[key], key, hwnd, sstk, keyOf))
    && (forall id | id in m.cos :: Registered(m, es, id, hwnd, sstk, keyOf))
  }

  class CoroutineFactory {
    /** The state of libaco in this thread. */
    var rt: State
    const hwnd: nat
    const sstk: nat
    var crMap: map<Key, Coroutine>
    ghost var keyOf: map<nat, Key>

    ghost function Entries(): (es: map<Key, Entry>)
      reads this, crMap.Values
      ensures es.Keys == crMap.Keys
    {
      map key | key in crMap :: Entry(crMap[key].hwnd, crMap[key].isStop)
    }

    ghost predicate Valid()
      reads this, crMap.Values
    {
      Inv(rt) && Agrees(rt, Entries(), hwnd, sstk, keyOf)
    }

    /** aco_thread_init, a main coroutine and a share stack with its guard page. */
    constructor (rt0: State, size: nat, pg: int, base: nat, fill: seq<Byte>, hwnd: nat, sstk: nat)
      requires Inv(rt0) && rt0.running == None && hwnd !in rt0.mains && hwnd !in rt0.cos
      requires sstk !in rt0.stks && StackReady(rt0.arch, size, pg, base, fill)
      ensures Valid() && this.hwnd == hwnd && this.sstk == sstk && crMap == map[]
      ensures rt == Opened(rt0, size, pg, base, fill, hwnd, sstk)
    {
      this.hwnd, this.sstk := hwnd, sstk;
      hide Inv, Agrees, NewStk, StackBytes, FirstCtx;
      var m1 := ThreadInitCall(rt0);
      var m2 := CreateMainCall(m1, hwnd);
      var m3 := ShareStackNewCall(m2, size, pg, base, fill, sstk);
      NobodyYet(rt0, hwnd, sstk);
      NothingAgrees(m3, hwnd, sstk);
      assert m3 == Opened(rt0, size, pg, base, fill, hwnd, sstk);
      hide Opened, Linked, StackGeom;
      rt, crMap, keyOf := m3, map[], map[];
    }

    /** std::map::insert, which leaves an entry that is there alone; the result is its `second`. */
    method Insert(key: Key, cr: Coroutine) returns (inserted: bool)
      modifies `crMap
      ensures inserted <==> key !in old(crMap)
      ensures crMap == if inserted then old(crMap)[key := cr] else old(crMap)
    {
      inserted := key !in crMap;
      if inserted {
        crMap := crMap[key := cr];
      }
    }

    /** cr_create; the insertion never finds the key taken, so the branch after it is dead. */
    method CrCreate(routine: Word, arg: Word, size: nat, key: Key) returns (ok: bool)
      requires Valid() && size < rt.arch.Space()
      modifies this
      ensures Valid()
      ensures ok <==> key !in old(crMap)
      ensures !ok ==> rt == old(rt) && crMap == old(crMap)
      ensures ok ==>
                && key in crMap && fresh(crMap[key]) && crMap == old(crMap)[key := crMap[key]]
                && crMap[key].fp == routine && crMap[key].arg == arg && !crMap[key].isStop && crMap[key].hwnd.Some?
                && var id := crMap[key].hwnd.value;
                   && id !in old(rt).cos
                   && rt == Created(old(rt), id, Fresh(old(rt), hwnd, sstk, size, crMap[key].addr))
                   && Entries() == old(Entries())[key := Entry(Some(id), false)]
    {
      hide Inv, Agrees, Created, Fresh;
      if key in crMap { return false; }
      var cr := new Coroutine(hwnd, sstk);
      ghost var m0, es := rt, Entries();
      FreshIs(rt, hwnd, sstk, size, cr.addr);
      ok, rt := cr.Create(rt, routine, arg, size);
      ghost var id := cr.hwnd.value;
      CreatedAgrees(m0, es, hwnd, sstk, keyOf, id, key, Fresh(m0, hwnd, sstk, size, cr.addr));
      var inserted := Insert(key, cr);
      if !inserted {
        // `delete cr; return false;`
        assert false;
      }
      keyOf := keyOf[id := key];
      assert Entries() == es[key := Entry(Some(id), false)];
    }

    /** The library's name of the coroutine under a key. */
    ghost function Id(key: Key): (id: nat)
      requires Valid() && key in crMap
      reads this, crMap.Values
      ensures id in rt.cos && crMap[key].hwnd == Some(id)
    {
      assert EntryOk(rt, Entries()[key], key, hwnd, sstk, keyOf);
      crMap[key].hwnd.value
    }

    /**
     * cr_resume: the routine runs on the registers and the bytes its share stack really holds after the
     * resume; routine_proxy marks a routine that returns. Only this coroutine moves on.
     */
    method CrResume(key: Key, routine: Routine) returns (found: bool, aborted: bool, ghost slice: Slice)
      requires Valid()
      requires key in crMap ==> SliceLegal(Abs(rt), Id(key), Seen(Abs(rt), Id(key), routine))
      modifies this`rt, if key in crMap then {crMap[key]} else {}
      ensures found <==> key in crMap
      ensures !found ==> !aborted && rt == old(rt)
      ensures found ==> (aborted <==> ResumeFails(old(rt), old(Id(key))))
      ensures !aborted ==> Valid()
      ensures found && !aborted ==>
                && slice == Seen(old(Abs(rt)), old(Id(key)), routine)
                && Abs(rt) == PSlice(old(Abs(rt)), old(Id(key)), slice)
                && crMap[key].hwnd == old(crMap[key].hwnd) && crMap[key].isStop == slice.done
                && crMap[key].fp == old(crMap[key].fp) && crMap[key].arg == old(crMap[key].arg)
                && Entries() == old(Entries())[key := Entry(crMap[key].hwnd, slice.done)]
    {
      hide Inv, Agrees, PSlice, SliceLegal, ResumeFails, Abs;
      if key !in crMap { return false, false, Slice(rt.cpu, [], false); }
      var cr := crMap[key];
      ghost var m0, es := rt, Entries();
      OnlyEntry(m0, es, hwnd, sstk, keyOf, key);
      ghost var id := Id(key);
      var ok, m, s := SliceCall(rt, cr.hwnd.value, routine);
      slice := s;
      if !ok { return true, true, slice; }
      rt := m;
      if s.done {
        cr.isStop := true;
      }
      SlicedAgrees(m0, m, es, hwnd, sstk, keyOf, key, s);
      forall other | other in crMap && other != key ensures crMap[other] != cr {
        assert es[other].hwnd != es[key].hwnd;
      }
      assert Entries() == es[key := Entry(Some(id), s.done)];
      return true, false, slice;
    }

    /** cr_is_quit: while main code runs, the wrapper's flag is the library's. */
    method CrIsQuit(key: Key) returns (r: bool)
      requires Valid()
      ensures r <==> key in crMap && rt.cos[Id(key)].ended
    {
      if key !in crMap { return false; }
      assert EntryOk(rt, Entries()[key], key, hwnd, sstk, keyOf);
      r := crMap[key].isStop;
    }

    /** `es` is what the map says about the keys that are left. */
    ghost predicate Left(es: map<Key, Entry>)
      reads this, crMap.Values
    {
      && es.Keys <= crMap.Keys
      && (forall key | key in es :: es[key] == Entry(crMap[key].hwnd, crMap[key].isStop))
      && Inv(rt) && Agrees(rt, es, hwnd, sstk, keyOf)
    }

    /** `delete iter->second` */
    method DeleteOne(key: Key, ghost es: map<Key, Entry>)
      requires Left(es) && key in es
      modifies `rt, crMap[key]
      ensures Left(es - {key})
      ensures Rest(old(Abs(rt).cos), Abs(rt).cos, sstk)
    {
      hide Agrees, Inv, Abs, Destroyed;
      var cr := crMap[key];
      RemovedAgrees(rt, es, hwnd, sstk, keyOf, key);
      rt := DestroyCall(rt, cr.hwnd.value);
      cr.hwnd := None;
      forall other | other in es && other != key ensures crMap[other] != cr {
        assert es[other].hwnd != es[key].hwnd;
      }
    }

    /** The destructor's loop over the map. */
    method DeleteAll() returns (freed: nat)
      requires Valid()
      modifies `rt, crMap.Values
      ensures freed == |crMap|
      ensures Inv(rt) && rt.running == None && hwnd in rt.mains && sstk in rt.stks
      ensures forall id | id in rt.cos :: rt.cos[id].stk != sstk && rt.cos[id].main != hwnd
      ensures Rest(old(Abs(rt).cos), Abs(rt).cos, sstk)
    {
      hide Agrees, Inv, Abs, Rest, Registered, EntryOk, Linked, Destroyed;
      var keys := crMap.Keys;
      ghost var p0, es := Abs(rt).cos, Entries();
      RestSame(p0, sstk);
      freed := 0;
      while keys != {}
        invariant es.Keys == keys && freed + |keys| == |crMap.Keys|
        invariant Left(es)
        invariant Rest(p0, Abs(rt).cos, sstk)
        decreases keys
      {
        ghost var p := Abs(rt).cos;
        var key := NextKey(keys);
        DeleteOne(key, es);
        RestThen(p0, p, Abs(rt).cos, sstk);
        es := es - {key};
        keys := keys - {key};
        freed := freed + 1;
      }
      NobodyLeft(rt, es, hwnd, sstk, keyOf);
    }

    /**
     * The destructor: every coroutine of the factory is freed exactly once, then the share stack, then the
     * main coroutine; every other coroutine of the thread keeps its stack and context.
     */
    method Close() returns (freed: nat)
      requires Valid()
      modifies this, crMap.Values
      ensures crMap == map[] && freed == |old(crMap)|
      ensures Inv(rt) && sstk !in rt.stks && hwnd !in rt.mains
      ensures forall id | id in rt.cos :: rt.cos[id].stk != sstk
      ensures Rest(old(Abs(rt).cos), Abs(rt).cos, sstk)
    {
      hide Agrees, Inv, Abs, Rest;
      freed := DeleteAll();
      var m := FreeStackCall(rt, sstk);
      rt := FreeMainCall(m, hwnd);
      crMap := map[];
    }

    /** cr_remove: the wrapper's destructor frees the coroutine, then the key goes. */
    method CrRemove(key: Key) returns (ok: bool)
      requires Valid()
      modifies this, if key in crMap then {crMap[key]} else {}
      ensures Valid()
      ensures ok <==> key in old(crMap)
      ensures !ok ==> rt == old(rt) && crMap == old(crMap)
      ensures ok ==>
                && crMap == old(crMap) - {key}
                && old(crMap[key].hwnd).Some?
                && rt == Destroyed(old(rt), old(crMap[key].hwnd).value)
                && old(crMap)[key].hwnd == None
                && Entries() == old(Entries()) - {key}
    {
      hide Inv, Agrees, Destroyed, Registered, Linked;
      if key !in crMap { return false; }
      var cr := crMap[key];
      ghost var m0, es := rt, Entries();
      RemovedAgrees(m0, es, hwnd, sstk, keyOf, key);
      rt := DestroyCall(rt, cr.hwnd.value);
      crMap := crMap - {key};
      cr.hwnd := None;
      forall other | other in crMap ensures crMap[other] != cr {
        assert es[other].hwnd != es[key].hwnd;
      }
      assert Entries() == es - {key};
      ok := true;
    }
  }

  /** The factory's constructor with its aborts: null where aco_share_stack_new stops the program. */
  method Open(rt0: State, size: nat, pg: int, base: nat, fill: seq<Byte>, hwnd: nat, sstk: nat)
    returns (f: CoroutineFactory?)
    requires Inv(rt0) && rt0.running == None && hwnd !in rt0.mains && hwnd !in rt0.cos && sstk !in rt0.stks
    requires size < rt0.arch.Space() && pg < rt0.arch.Half() && Region(rt0.arch, size, pg, base, fill)
    ensures f == null <==> !IsPow2(pg) || forall m: nat | Suits(size, m) && m % pg == 0 :: m + pg >= rt0.arch.Space()
    ensures f != null ==>
              && fresh(f) && f.Valid() && f.hwnd == hwnd && f.sstk == sstk && f.crMap == map[]
              && StackReady(rt0.arch, size, pg, base, fill) && f.rt == Opened(rt0, size, pg, base, fill, hwnd, sstk)
    ensures f != null ==>
              && sstk in f.rt.stks
              && var sz := f.rt.stks[sstk].geom.sz;
                 Suits(size, sz) && sz % pg == 0 && forall m: nat | Suits(size, m) && m % pg == 0 :: sz <= m
  {
    StackFits(rt0.arch, size, true, pg);
    if StackBytes(rt0.arch, size, true, pg).Some? { StackSize(rt0.arch, size, true, pg, base); }
    var total := SizeShareStack(rt0.arch, size, true, pg);
    if total == None { return null; }
    f := new CoroutineFactory(rt0, size, pg, base, fill, hwnd, sstk);
  }

  /** Seen as private stacks, only coroutines on stack k have gone from p0 to p. */
  predicate Rest(p0: map<nat, PCo>, p: map<nat, PCo>, k: nat) {
    && (forall d | d in p0 && p0[d].stk != k :: d in p)
    && (forall d | d in p :: d in p0 && p[d] == p0[d])
  }

  lemma RestSame(p: map<nat, PCo>, k: nat)
    ensures Rest(p, p, k)
  {
  }

  lemma RestThen(p0: map<nat, PCo>, p: map<nat, PCo>, q: map<nat, PCo>, k: nat)
    requires Rest(p0, p, k) && Rest(p, q, k)
    ensures Rest(p0, q, k)
  {
  }

  lemma NobodyLeft(m: State, es: map<Key, Entry>, hwnd: nat, sstk: nat, keyOf: map<nat, Key>)
    requires Agrees(m, es, hwnd, sstk, keyOf) && es == map[]
    ensures forall id | id in m.cos :: m.cos[id].stk != sstk && m.cos[id].main != hwnd
  {
    forall id | id in m.cos ensures m.cos[id].stk != sstk && m.cos[id].main != hwnd {
      assert Registered(m, es, id, hwnd, sstk, keyOf);
    }
  }

  lemma SameRecord(m: State, m': State, d: nat)
    requires Linked(m) && Linked(m') && d in m.cos && d in m'.cos
    requires Abs(m').cos[d].main == Abs(m).cos[d].main && Abs(m').cos[d].stk == Abs(m).cos[d].stk
    ensures m'.cos[d].main == m.cos[d].main && m'.cos[d].stk == m.cos[d].stk
    ensures Abs(m').cos[d].ended == m'.cos[d].ended && Abs(m).cos[d].ended == m.cos[d].ended
  {
    assert Abs(m').cos[d] == AbsCo(m', d) && Abs(m).cos[d] == AbsCo(m, d);
  }

  lemma PSliceKeeps(p: PState, id: nat, slice: Slice)
    requires PLinked(p) && id in p.cos && SliceLegal(p, id, slice)
    ensures var q := PSlice(p, id, slice);
            && q.cos.Keys == p.cos.Keys && q.geoms == p.geoms && q.running == p.running
            && p.mains.Keys <= q.mains.Keys
            && forall d | d in p.cos ::
                 && q.cos[d].main == p.cos[d].main && q.cos[d].stk == p.cos[d].stk
                 && q.cos[d].ended == if d == id then slice.done else p.cos[d].ended
  {
  }

  lemma SameShape(m: State, m': State)
    requires Linked(m) && Linked(m')
    requires Abs(m').cos.Keys == Abs(m).cos.Keys && Abs(m').geoms == Abs(m).geoms
    ensures m'.cos.Keys == m.cos.Keys && m'.stks.Keys == m.stks.Keys
  {
    assert Abs(m).cos.Keys == m.cos.Keys && Abs(m').cos.Keys == m'.cos.Keys;
    assert Abs(m).geoms.Keys == m.stks.Keys && Abs(m').geoms.Keys == m'.stks.Keys;
  }

  /** Agreement only depends on names and end flags. */
  lemma AgreesCarries(m: State, m': State, es: map<Key, Entry>, hwnd: nat, sstk: nat, keyOf: map<nat, Key>,
                      key: Key, done: bool)
    requires Agrees(m, es, hwnd, sstk, keyOf) && key in es
    requires m'.running == None && m.mains.Keys <= m'.mains.Keys && m'.stks.Keys == m.stks.Keys
    requires m'.cos.Keys == m.cos.Keys
    requires forall d | d in m.cos ::
               && m'.cos[d].main == m.cos[d].main && m'.cos[d].stk == m.cos[d].stk
               && m'.cos[d].ended == if es[key].hwnd == Some(d) then done else m.cos[d].ended
    ensures Agrees(m', es[key := Entry(es[key].hwnd, done)], hwnd, sstk, keyOf)
  {
    OnlyEntry(m, es, hwnd, sstk, keyOf, key);
    var es' := es[key := Entry(es[key].hwnd, done)];
    forall d | d in m'.cos ensures Registered(m', es', d, hwnd, sstk, keyOf) {
      assert Registered(m, es, d, hwnd, sstk, keyOf);
    }
    forall k | k in es' ensures EntryOk(m', es'[k], k, hwnd, sstk, keyOf) {
      assert EntryOk(m, es[k], k, hwnd, sstk, keyOf);
    }
  }

  /** After a resume has come back the stop flag of that one entry follows the library's end flag. */
  lemma SlicedAgrees(m: State, m': State, es: map<Key, Entry>, hwnd: nat, sstk: nat, keyOf: map<nat, Key>,
                     key: Key, slice: Slice)
    requires Linked(m) && Linked(m') && Agrees(m, es, hwnd, sstk, keyOf) && key in es && es[key].hwnd.Some?
    requires es[key].hwnd.value in m.cos && SliceLegal(Abs(m), es[key].hwnd.value, slice)
    requires Abs(m') == PSlice(Abs(m), es[key].hwnd.value, slice)
    ensures Agrees(m', es[key := Entry(es[key].hwnd, slice.done)], hwnd, sstk, keyOf)
  {
    hide PSlice, SliceLegal, Agrees;
    PSliceKeeps(Abs(m), es[key].hwnd.value, slice);
    SameShape(m, m');
    forall d | d in m.cos
      ensures m'.cos[d].main == m.cos[d].main && m'.cos[d].stk == m.cos[d].stk
      ensures m'.cos[d].ended == if es[key].hwnd == Some(d) then slice.done else m.cos[d].ended
    {
      SameRecord(m, m', d);
    }
    AgreesCarries(m, m', es, hwnd, sstk, keyOf, key, slice.done);
  }

  /** The record cr_create makes for a new coroutine. */
  function Fresh(m: State, hwnd: nat, sstk: nat, size: nat, addr: Word): Co
    requires sstk in m.stks
  {
    NewCo(m, hwnd, sstk, size, ROUTINE_PROXY, addr)
  }

  lemma FreshIs(m: State, hwnd: nat, sstk: nat, size: nat, addr: Word)
    requires sstk in m.stks
    ensures Fresh(m, hwnd, sstk, size, addr) == NewCo(m, hwnd, sstk, size, ROUTINE_PROXY, addr)
    ensures var co := Fresh(m, hwnd, sstk, size, addr); co.stk == sstk && co.main == hwnd && !co.ended
  {
  }

  lemma CreatedAgrees(m: State, es: map<Key, Entry>, hwnd: nat, sstk: nat, keyOf: map<nat, Key>,
          id: nat, key: Key, co: Co)
    requires Agrees(m, es, hwnd, sstk, keyOf) && key !in es && id !in m.cos
    requires co.stk == sstk && co.main == hwnd && !co.ended
    ensures Agrees(Created(m, id, co), es[key := Entry(Some(id), false)], hwnd, sstk, keyOf[id := key])
  {
  }

  lemma OnlyEntry(m: State, es: map<Key, Entry>, hwnd: nat, sstk: nat, keyOf: map<nat, Key>, key: Key)
    requires Agrees(m, es, hwnd, sstk, keyOf) && key in es
    ensures EntryOk(m, es[key], key, hwnd, sstk, keyOf)
    ensures forall other | other in es && other != key :: es[other].hwnd != es[key].hwnd
  {
  }

  lemma RemovedAgrees(m: State, es: map<Key, Entry>, hwnd: nat, sstk: nat, keyOf: map<nat, Key>, key: Key)
    requires Agrees(m, es, hwnd, sstk, keyOf) && key in es
    ensures EntryOk(m, es[key], key, hwnd, sstk, keyOf)
    ensures forall other | other in es && other != key :: es[other].hwnd != es[key].hwnd
    ensures Agrees(Destroyed(m, es[key].hwnd.value), es - {key}, hwnd, sstk, keyOf)
  {
  }

  /** The iterator's next entry; the order of std::map is not relied on. */
  method NextKey(keys: set<Key>) returns (key: Key)
    requires keys != {}
    ensures key in keys
  {
    key :| key in keys;
  }

  /** malloc's choice of an address for a new record. */
  method FreshId(m: State) returns (id: nat)
    ensures id !in m.cos && id !in m.mains
  {
    ghost var n := FreshName(m.cos.Keys + m.mains.Keys);
    assert n !in m.cos && n !in m.mains;
    id :| id !in m.cos && id !in m.mains;
  }

  lemma NobodyYet(m: State, i: nat, k: nat)
    requires Linked(m) && i !in m.mains && k !in m.stks
    ensures forall id | id in m.cos :: m.cos[id].stk != k && m.cos[id].main != i
  {
  }

  lemma NothingAgrees(m: State, i: nat, k: nat)
    requires Linked(m) && m.running == None && i in m.mains && k in m.stks
    requires forall id | id in m.cos :: m.cos[id].stk != k && m.cos[id].main != i
    ensures Agrees(m, map[], i, k, map[])
  {
  }

  /** If aco_share_stack_new does not abort on the request, the system finds it a region, holding `fill`. */
  predicate Region(a: Arch, size: nat, pg: int, base: nat, fill: seq<Byte>) {
    StackBytes(a, size, true, pg).Some? ==>
      && base + StackBytes(a, size, true, pg).value <= a.Space()
      && |fill| == StackGeom(a, size, true, pg, base).value.sz
  }

  predicate StackReady(a: Arch, size: nat, pg: int, base: nat, fill: seq<Byte>) {
    && size < a.Space() && pg < a.Half()
    && StackBytes(a, size, true, pg).Some?
    && Region(a, size, pg, base, fill)
  }

  /** The library state of a new factory. */
  function Opened(m: State, size: nat, pg: int, base: nat, fill: seq<Byte>, hwnd: nat, k: nat): State
    requires StackReady(m.arch, size, pg, base, fill)
  {
    var g := StackGeom(m.arch, size, true, pg, base).value;
    m.(initCw := m.cpu.cw, initMxcsr := m.cpu.mxcsr,
       mains := m.mains[hwnd := FirstCtx(m.arch, 0, 0, 0, 0)],
       stks := m.stks[k := NewStk(g, m.prot, fill)])
  }

  // ---------------------------------------------------------------- library calls on the thread's state

  method ThreadInitCall(m: State) returns (m': State)
    requires Inv(m)
    ensures Inv(m') && m' == m.(initCw := m.cpu.cw, initMxcsr := m.cpu.mxcsr)
  {
    StepRefines(m, ThreadInit);
    m' := Step(m, ThreadInit).value;
  }

  method CreateMainCall(m: State, i: nat) returns (m': State)
    requires Inv(m) && i !in m.mains && i !in m.cos
    ensures Inv(m') && m' == m.(mains := m.mains[i := FirstCtx(m.arch, 0, 0, 0, 0)])
  {
    StepRefines(m, NewMain(i));
    m' := Step(m, NewMain(i)).value;
  }

  method ShareStackNewCall(m: State, size: nat, pg: int, base: nat, fill: seq<Byte>, k: nat) returns (m': State)
    requires Inv(m) && k !in m.stks && StackReady(m.arch, size, pg, base, fill)
    ensures Inv(m')
    ensures m' == m.(stks := m.stks[k := NewStk(StackGeom(m.arch, size, true, pg, base).value, m.prot, fill)])
  {
    var l := NewStack(k, size, true, pg, base, fill);
    StepRefines(m, l);
    m' := Step(m, l).value;
  }

  method CreateCall(m: State, c: nat, main: nat, k: nat, saveSz: nat, fp: Word, arg: Word) returns (m': State)
    requires Inv(m) && c !in m.cos && c !in m.mains && main in m.mains && k in m.stks && saveSz < m.arch.Space()
    ensures Inv(m') && m' == Created(m, c, NewCo(m, main, k, saveSz, fp, arg))
  {
    var l := Create(c, main, k, saveSz, fp, arg);
    StepRefines(m, l);
    m' := Step(m, l).value;
  }

  method DestroyCall(m: State, c: nat) returns (m': State)
    requires Inv(m) && c in m.cos && m.running == None
    ensures Inv(m') && m' == Destroyed(m, c)
    ensures m.cos[c].stk == Abs(m).cos[c].stk && Abs(m').cos == Abs(m).cos - {c}
  {
    DestroyRefines(m, c);
    m' := Destroyed(m, c);
  }

  /** What a slice owes: registers in order, a stack pointer inside the stack, bytes for all below the slot. */
  predicate SliceLegal(p: PState, id: nat, slice: Slice)
    requires PLinked(p) && id in p.cos
  {
    var g := p.geoms[p.cos[id].stk];
    CtxOk(p.arch, slice.to) && SpOk(p.arch, g, slice.to.sp) && |slice.low| == g.ret - g.ptr
  }

  /** A resume as its caller sees it, on private stacks: only this coroutine has moved on. */
  function PSlice(p: PState, id: nat, slice: Slice): PState
    requires PLinked(p) && id in p.cos && SliceLegal(p, id, slice)
  {
    var co := p.cos[id];
    var live := slice.low[slice.to.sp - p.geoms[co.stk].ptr..];
    p.(cos := p.cos[id := co.(ctx := slice.to, ended := slice.done, live := if slice.done then [] else live)],
       mains := p.mains[co.main := p.cpu], gtls := OfMain(co.main))
  }

  lemma PSliceIs(p: PState, id: nat, slice: Slice)
    requires PLinked(p) && p.running == None && id in p.cos && SliceLegal(p, id, slice) && !p.cos[id].ended
    ensures var live := slice.low[slice.to.sp - p.geoms[p.cos[id].stk].ptr..];
            PSwitchOut(PBody(PSwitchIn(p, id), slice.to, live), slice.done) == PSlice(p, id, slice)
  {
  }

  /** What a routine does with the registers and bytes that are its own. */
  function Seen(p: PState, id: nat, routine: Routine): Slice
    requires PLinked(p) && id in p.cos
  {
    routine(p.cos[id].ctx, p.cos[id].live)
  }

  /** aco_resume, the routine until it switches, and the switch back. */
  method SliceCall(m: State, id: nat, routine: Routine) returns (ok: bool, m': State, slice: Slice)
    requires Inv(m) && m.running == None && id in m.cos && SliceLegal(Abs(m), id, Seen(Abs(m), id, routine))
    ensures ok <==> !ResumeFails(m, id)
    ensures ok ==> !m.cos[id].ended
    ensures ok ==> slice == Seen(Abs(m), id, routine) && Inv(m') && Abs(m') == PSlice(Abs(m), id, slice)
  {
    hide Inv, Abs, PSwitchIn, PSwitchOut, PBody, PSlice;
    ok, m' := ResumeCall(m, id);
    if ok {
      slice := routine(m'.cpu, Bytes(m'.stks[m'.cos[id].stk], m'.cpu.sp));
      PSliceIs(Abs(m), id, slice);
      m' := BodyCall(m', id, slice);
      m' := LeaveCall(m', id, slice.done);
    } else {
      slice := Slice(m.cpu, [], false);
    }
  }

  method ResumeCall(m: State, id: nat) returns (ok: bool, m': State)
    requires Inv(m) && m.running == None && id in m.cos
    ensures ok <==> !ResumeFails(m, id)
    ensures ok ==> !m.cos[id].ended
    ensures ok ==>
              && Inv(m') && m'.running == Some(id) && Abs(m') == PSwitchIn(Abs(m), id)
              && Abs(m').arch == Abs(m).arch && Abs(m').geoms == Abs(m).geoms && Abs(m').cos == Abs(m).cos
              && Abs(m).running == None && id in Abs(m).cos && !Abs(m).cos[id].ended
    ensures ok ==>
              && m'.cpu == Abs(m).cos[id].ctx
              && Bytes(m'.stks[m'.cos[id].stk], m'.cpu.sp) == Abs(m).cos[id].live
  {
    ResumeRefines(m, id);
    match Resumed(m, id)
    case Abort => return false, m;
    case Ok(m1) =>
      FindsItsBytes(m1, id);
      return true, m1;
  }

  /** What a running coroutine's share stack holds under its stack pointer is its private stack. */
  lemma FindsItsBytes(m: State, id: nat)
    requires Inv(m) && m.running == Some(id)
    ensures id in m.cos && Bytes(m.stks[m.cos[id].stk], m.cpu.sp) == Abs(m).cos[id].live
  {
    assert CoInv(m, id);
    assert Abs(m).cos[id] == AbsCo(m, id);
  }

  /** Yield, or aco_exit when the routine has returned. */
  method LeaveCall(m: State, id: nat, done: bool) returns (m': State)
    requires Inv(m) && m.running == Some(id)
    ensures Inv(m') && Abs(m') == PSwitchOut(Abs(m), done)
  {
    if done {
      ExitRefines(m, id);
      m' := Exited(m, id).value;
    } else {
      YieldRefines(m, id);
      m' := SwitchOut(m, id);
    }
  }

  method BodyCall(m: State, id: nat, slice: Slice) returns (m': State)
    requires Inv(m) && m.running == Some(id) && id in Abs(m).cos && SliceLegal(Abs(m), id, slice)
    ensures Inv(m') && m'.running == Some(id)
    ensures Abs(m') == PBody(Abs(m), slice.to, slice.low[slice.to.sp - Abs(m).geoms[Abs(m).cos[id].stk].ptr..])
  {
    assert Abs(m).cos[id].stk == m.cos[id].stk;
    BodyRefines(m, slice.to, slice.low);
    m' := BodyRan(m, slice.to, slice.low);
  }

  method FreeStackCall(m: State, k: nat) returns (m': State)
    requires Inv(m) && k in m.stks && forall c | c in m.cos :: m.cos[c].stk != k
    ensures Inv(m') && m' == StackFreed(m, k) && Abs(m').cos == Abs(m).cos
  {
    FreeStackKeepsInv(m, k);
    FreeStackAbs(m, k);
    m' := StackFreed(m, k);
  }

  method FreeMainCall(m: State, i: nat) returns (m': State)
    requires Inv(m) && i in m.mains && forall c | c in m.cos :: m.cos[c].main != i
    ensures Inv(m') && m' == m.(mains := m.mains - {i}) && Abs(m').cos == Abs(m).cos
  {
    MainsRefine(m, m.mains - {i});
    m' := m.(mains := m.mains - {i});
  }
}
