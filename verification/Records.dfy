/**
 * All of libaco's records of one thread as objects, mirrored as one state of the machine: which objects they
 * are, that they share nothing, and how one record is taken apart from the others and put back.
 */
module Records {
  import opened Platform
  import opened Geometry
  import opened Switch
  import opened Aco
  import opened Thread
  import opened Changes
  import M = Machine

  /** Which object is which coroutine and stack, and the array of each save buffer. */
  datatype Names = Names(
    mains: map<nat, Co>, cos: map<nat, Co>, stks: map<nat, ShareStack>, bufs: map<nat, array<Byte>>)

  // ---------------------------------------------------------------- shape

  predicate MainShape(a: Arch, n: Names, i: nat)
    requires i in n.mains
  {
    var m := n.mains[i];
    m.id == i && m.main == null && m.reg.Length == NumRegs(a)
  }

  /** A coroutine object is filed under its own name, and so are the main coroutine and the stack it points at. */
  predicate CoShape(a: Arch, n: Names, c: nat)
    requires c in n.cos
  {
    var co := n.cos[c];
    && co.id == c && co.reg.Length == NumRegs(a) && c in n.bufs
    && co.main != null && co.main.id in n.mains && n.mains[co.main.id] == co.main
    && co.shareStack != null && co.shareStack.id in n.stks && n.stks[co.shareStack.id] == co.shareStack
  }

  predicate StkShape(a: Arch, n: Names, k: nat)
    requires k in n.stks
  {
    var s := n.stks[k];
    s.id == k && GeomOk(a, s.geom) && s.mem.addr == s.geom.ptr && s.mem.data.Length == s.geom.sz
  }

  /** No two records of a kind share an array. */
  predicate Disjoint(n: Names) {
    && (forall i, j | i in n.mains && j in n.mains && i != j :: n.mains[i].reg != n.mains[j].reg)
    && (forall c, d | c in n.cos && d in n.cos && c != d :: n.cos[c].reg != n.cos[d].reg)
    && (forall c, d | c in n.bufs && d in n.bufs && c != d :: n.bufs[c] != n.bufs[d])
    && (forall j, k | j in n.stks && k in n.stks && j != k :: n.stks[j].mem.data != n.stks[k].mem.data)
  }

  predicate Shape(a: Arch, n: Names) {
    && n.bufs.Keys == n.cos.Keys
    && (forall i | i in n.mains :: MainShape(a, n, i))
    && (forall c | c in n.cos :: CoShape(a, n, c))
    && (forall k | k in n.stks :: StkShape(a, n, k))
    && Disjoint(n)
  }

  // ---------------------------------------------------------------- objects and the records they are

  /** The arrays of all main coroutines but some are among `objs`; likewise for coroutines and stacks. */
  ghost predicate MainsIn(n: Names, objs: set<object>, but: set<nat>) {
    forall i | i in n.mains && i !in but :: n.mains[i].reg in objs
  }

  ghost predicate CosIn(n: Names, objs: set<object>, but: set<nat>) {
    forall c | c in n.cos && c in n.bufs && c !in but :: n.cos[c] in objs && n.cos[c].reg in objs && n.bufs[c] in objs
  }

  ghost predicate StksIn(n: Names, objs: set<object>, but: set<nat>) {
    forall k | k in n.stks && k !in but :: n.stks[k] in objs && n.stks[k].mem.data in objs
  }

  /** The object of a main coroutine has this context. */
  ghost predicate MainNow(a: Arch, m: Co, ctx: Ctx)
    reads m.reg
  {
    m.reg.Length == NumRegs(a) && m.Ctx(a) == ctx
  }

  /** The object of a coroutine, with its buffer in `buf`, is this record. */
  ghost predicate CoNow(a: Arch, co: Co, buf: array<Byte>, rec: M.Co)
    reads co, co.reg, buf
  {
    co.Valid(a) && co.ptr.data == buf && co.Rec(a) == rec
  }

  /** The object of a stack is this record, and its owner is the coroutine object filed under the owner's name. */
  ghost predicate StkNow(cos: map<nat, Co>, s: ShareStack, rec: M.Stk)
    reads s, s.mem.data
  {
    s.Rec() == rec && (s.owner != null ==> s.owner.id in cos && cos[s.owner.id] == s.owner)
  }

  ghost predicate AllMains(a: Arch, n: Names, objs: set<object>, ctxs: map<nat, Ctx>, but: set<nat>)
    requires MainsIn(n, objs, but)
    reads objs
    ensures AllMains(a, n, objs, ctxs, but) ==> ctxs.Keys == n.mains.Keys
  {
    ctxs.Keys == n.mains.Keys && forall i | i in n.mains && i !in but :: MainNow(a, n.mains[i], ctxs[i])
  }

  ghost predicate AllCos(a: Arch, n: Names, objs: set<object>, recs: map<nat, M.Co>, but: set<nat>)
    requires CosIn(n, objs, but)
    reads objs
    ensures AllCos(a, n, objs, recs, but) ==> recs.Keys == n.cos.Keys == n.bufs.Keys
  {
    && recs.Keys == n.cos.Keys == n.bufs.Keys
    && forall c | c in n.cos && c !in but :: CoNow(a, n.cos[c], n.bufs[c], recs[c])
  }

  ghost predicate AllStks(n: Names, objs: set<object>, recs: map<nat, M.Stk>, but: set<nat>)
    requires StksIn(n, objs, but)
    reads objs
    ensures AllStks(n, objs, recs, but) ==> recs.Keys == n.stks.Keys
  {
    recs.Keys == n.stks.Keys && forall k | k in n.stks && k !in but :: StkNow(n.cos, n.stks[k], recs[k])
  }

  // ---------------------------------------------------------------- one record apart from the others

  ghost function MainFoot(n: Names, i: nat): set<object> { if i in n.mains then {n.mains[i].reg} else {} }

  ghost function CoFoot(n: Names, c: nat): set<object> {
    if c in n.cos && c in n.bufs then {n.cos[c], n.cos[c].reg, n.bufs[c]} else {}
  }

  ghost function StkFoot(n: Names, k: nat): set<object> {
    if k in n.stks then {n.stks[k], n.stks[k].mem.data} else {}
  }

  /** The others do without the objects of one. */
  lemma MainsLess(a: Arch, n: Names, objs: set<object>, ctxs: map<nat, Ctx>, i: nat)
    requires Shape(a, n) && MainsIn(n, objs, {}) && AllMains(a, n, objs, ctxs, {})
    ensures MainsIn(n, objs - MainFoot(n, i), {i}) && AllMains(a, n, objs - MainFoot(n, i), ctxs, {i})
    ensures i in n.mains ==> i in ctxs && MainNow(a, n.mains[i], ctxs[i]) && MainFoot(n, i) <= objs
  {
  }

  lemma CosLess(a: Arch, n: Names, objs: set<object>, recs: map<nat, M.Co>, c: nat)
    requires Shape(a, n) && CosIn(n, objs, {}) && AllCos(a, n, objs, recs, {})
    ensures CosIn(n, objs - CoFoot(n, c), {c}) && AllCos(a, n, objs - CoFoot(n, c), recs, {c})
    ensures c in n.cos ==> c in n.bufs && c in recs && CoNow(a, n.cos[c], n.bufs[c], recs[c]) && CoFoot(n, c) <= objs
  {
    hide CoNow, Shape;
    if c in n.cos { OwnObjects(a, n, c); }
  }

  /** No other coroutine has an object of this one. */
  lemma OwnObjects(a: Arch, n: Names, c: nat)
    requires Shape(a, n) && c in n.cos
    ensures c in n.bufs
    ensures forall d | d in n.cos && d != c ::
              d in n.bufs && n.cos[d] != n.cos[c] && n.cos[d].reg != n.cos[c].reg && n.bufs[d] != n.bufs[c]
  {
    assert CoShape(a, n, c);
    forall d | d in n.cos && d != c ensures n.cos[d] != n.cos[c] {
      assert CoShape(a, n, d);
    }
  }

  lemma StksLess(a: Arch, n: Names, objs: set<object>, recs: map<nat, M.Stk>, k: nat)
    requires Shape(a, n) && StksIn(n, objs, {}) && AllStks(n, objs, recs, {})
    ensures StksIn(n, objs - StkFoot(n, k), {k}) && AllStks(n, objs - StkFoot(n, k), recs, {k})
    ensures k in n.stks ==> k in recs && StkNow(n.cos, n.stks[k], recs[k]) && StkFoot(n, k) <= objs
  {
    hide StkNow;
    forall j | j in n.stks && j != k ensures k in n.stks ==> n.stks[j] != n.stks[k] {
      assert StkShape(a, n, j);
      assert k in n.stks ==> StkShape(a, n, k);
    }
  }

  /** The others and one are all. */
  lemma MainsPut(a: Arch, n: Names, objs: set<object>, ctxs: map<nat, Ctx>, i: nat, ctx: Ctx)
    requires MainsIn(n, objs, {}) && MainsIn(n, objs - MainFoot(n, i), {i}) && i in n.mains
    requires AllMains(a, n, objs - MainFoot(n, i), ctxs, {i}) && MainNow(a, n.mains[i], ctx)
    ensures AllMains(a, n, objs, ctxs[i := ctx], {})
  {
    hide MainNow;
  }

  /** ... also when the one has moved to another buffer. */
  lemma CosPut(a: Arch, n: Names, objs: set<object>, recs: map<nat, M.Co>, c: nat, rec: M.Co, buf: array<Byte>)
    requires CosIn(n, objs, {}) && CosIn(n, objs - CoFoot(n, c), {c}) && c in n.cos && c in n.bufs
    requires AllCos(a, n, objs - CoFoot(n, c), recs, {c}) && CoNow(a, n.cos[c], buf, rec)
    ensures var n' := n.(bufs := n.bufs[c := buf]);
            CosIn(n', objs + {buf}, {}) && AllCos(a, n', objs + {buf}, recs[c := rec], {})
  {
    hide CoNow;
  }

  lemma StksPut(n: Names, objs: set<object>, recs: map<nat, M.Stk>, k: nat, rec: M.Stk)
    requires StksIn(n, objs, {}) && StksIn(n, objs - StkFoot(n, k), {k}) && k in n.stks
    requires AllStks(n, objs - StkFoot(n, k), recs, {k}) && StkNow(n.cos, n.stks[k], rec)
    ensures AllStks(n, objs, recs[k := rec], {})
  {
    hide StkNow;
  }

  // ---------------------------------------------------------------- the records a call does not write

  /** Sets of objects, and the names left out of them. */
  datatype Rest = Rest(mains: set<object>, i: set<nat>, cos: set<object>, c: set<nat>, stks: set<object>, k: set<nat>)

  ghost predicate RestIn(n: Names, r: Rest) {
    MainsIn(n, r.mains, r.i) && CosIn(n, r.cos, r.c) && StksIn(n, r.stks, r.k)
  }

  ghost predicate Holds(a: Arch, n: Names, m: M.State, r: Rest)
    requires RestIn(n, r)
    reads r.mains, r.cos, r.stks
  {
    && AllMains(a, n, r.mains, m.mains, r.i)
    && AllCos(a, n, r.cos, m.cos, r.c)
    && AllStks(n, r.stks, m.stks, r.k)
  }

  /** No object of the rest is written where these are. */
  ghost predicate Clear(r: Rest, w: set<object>) { w !! r.mains && w !! r.cos && w !! r.stks }

  // ---------------------------------------------------------------- the whole

  function GtlsOf(g: Co?): M.Gtls {
    if g == null then M.Unset else if g.main == null then M.OfMain(g.id) else M.OfCo(g.id)
  }

  /**
   * A thread's records: the names, the arrays of main coroutines, the objects and arrays of coroutines, those
   * of stacks, and the state of the machine that they are.
   */
  datatype Book = Book(n: Names, mo: set<object>, co: set<object>, so: set<object>, st: M.State)

  ghost predicate SetsApart(rt: Runtime, mo: set<object>, co: set<object>, so: set<object>) {
    && (forall o | o in mo :: o !in co && o !in so && o != rt && o != rt.cpu)
    && (forall o | o in co :: o !in so && o != rt && o != rt.cpu)
    && (forall o | o in so :: o != rt && o != rt.cpu)
  }

  /** The named objects have their places, and their sets share nothing with each other or the thread's own. */
  ghost predicate Formed(rt: Runtime, n: Names, mo: set<object>, co: set<object>, so: set<object>)
    ensures Formed(rt, n, mo, co, so) ==> MainsIn(n, mo, {}) && CosIn(n, co, {}) && StksIn(n, so, {})
  {
    Shape(rt.a, n) && MainsIn(n, mo, {}) && CosIn(n, co, {}) && StksIn(n, so, {}) && SetsApart(rt, mo, co, so)
  }

  ghost predicate ThreadNow(rt: Runtime, m: M.State)
    reads rt, rt.cpu
  {
    && m.arch == rt.a && m.prot == rt.prot && m.initCw == rt.fpucw && m.initMxcsr == rt.mxcsr
    && m.gtls == GtlsOf(rt.gtls) && m.cpu == rt.cpu.Now(rt.a)
  }

  ghost function Every(b: Book): Rest { Rest(b.mo, {}, b.co, {}, b.so, {}) }

  /** The objects in memory are the state b.st, and that is in order. */
  ghost predicate Is(rt: Runtime, b: Book)
    reads rt, rt.cpu, b.mo, b.co, b.so
  {
    Formed(rt, b.n, b.mo, b.co, b.so) && ThreadNow(rt, b.st) && M.Inv(b.st) && Holds(rt.a, b.n, b.st, Every(b))
  }

  /** All records but those of one main coroutine, one coroutine and one stack. */
  ghost function Without(b: Book, i: Option<nat>, c: Option<nat>, k: Option<nat>): Rest {
    Rest(
      if i.Some? then b.mo - MainFoot(b.n, i.value) else b.mo, if i.Some? then {i.value} else {},
      if c.Some? then b.co - CoFoot(b.n, c.value) else b.co, if c.Some? then {c.value} else {},
      if k.Some? then b.so - StkFoot(b.n, k.value) else b.so, if k.Some? then {k.value} else {})
  }

  lemma SplitRecords(rt: Runtime, b: Book, i: Option<nat>, c: Option<nat>, k: Option<nat>)
    requires Is(rt, b)
    ensures RestIn(b.n, Without(b, i, c, k)) && Holds(rt.a, b.n, b.st, Without(b, i, c, k))
  {
    hide Shape, MainsIn, CosIn, StksIn, AllMains, AllCos, AllStks, MainFoot, CoFoot, StkFoot, M.Inv;
    if i.Some? { MainsLess(rt.a, b.n, b.mo, b.st.mains, i.value); }
    if c.Some? { CosLess(rt.a, b.n, b.co, b.st.cos, c.value); }
    if k.Some? { StksLess(rt.a, b.n, b.so, b.st.stks, k.value); }
  }

  lemma SplitSets(rt: Runtime, b: Book, i: Option<nat>, c: Option<nat>, k: Option<nat>)
    requires Formed(rt, b.n, b.mo, b.co, b.so)
    requires (i.Some? ==> i.value in b.n.mains) && (c.Some? ==> c.value in b.n.cos) && (k.Some? ==> k.value in b.n.stks)
    ensures Clear(Without(b, i, c, k), {rt, rt.cpu})
    ensures i.Some? ==> Clear(Without(b, i, c, k), MainFoot(b.n, i.value))
    ensures c.Some? ==> Clear(Without(b, i, c, k), CoFoot(b.n, c.value))
    ensures k.Some? ==> Clear(Without(b, i, c, k), StkFoot(b.n, k.value))
  {
    hide Shape;
    assert i.Some? ==> MainFoot(b.n, i.value) <= b.mo;
    assert c.Some? ==> CoFoot(b.n, c.value) <= b.co;
    assert k.Some? ==> StkFoot(b.n, k.value) <= b.so;
  }

  /** The others do without the objects of these three, which are apart from them, as are the thread's own. */
  lemma Split(rt: Runtime, b: Book, i: Option<nat>, c: Option<nat>, k: Option<nat>)
    requires Is(rt, b)
    requires (i.Some? ==> i.value in b.n.mains) && (c.Some? ==> c.value in b.n.cos) && (k.Some? ==> k.value in b.n.stks)
    ensures RestIn(b.n, Without(b, i, c, k)) && Holds(rt.a, b.n, b.st, Without(b, i, c, k))
    ensures Clear(Without(b, i, c, k), {rt, rt.cpu})
    ensures i.Some? ==> Clear(Without(b, i, c, k), MainFoot(b.n, i.value))
    ensures c.Some? ==> Clear(Without(b, i, c, k), CoFoot(b.n, c.value))
    ensures k.Some? ==> Clear(Without(b, i, c, k), StkFoot(b.n, k.value))
  {
    hide Formed, Holds, Without, M.Inv, Clear, RestIn;
    SplitRecords(rt, b, i, c, k);
    SplitSets(rt, b, i, c, k);
  }

  // ---------------------------------------------------------------- finding records

  /** c is the coroutine object filed under its name. */
  predicate Filed(b: Book, c: Co) { c.id in b.n.cos && b.n.cos[c.id] == c }

  predicate FiledMain(b: Book, c: Co) { c.id in b.n.mains && b.n.mains[c.id] == c }

  predicate FiledStk(b: Book, s: ShareStack) { s.id in b.n.stks && b.n.stks[s.id] == s }

  lemma FindCo(rt: Runtime, b: Book, c: Co)
    requires Is(rt, b) && Filed(b, c)
    ensures CoShape(rt.a, b.n, c.id) && c.id in b.n.bufs && c.id in b.st.cos
    ensures CoNow(rt.a, c, b.n.bufs[c.id], b.st.cos[c.id]) && CoFoot(b.n, c.id) <= b.co
  {
    hide M.Inv, CoNow, StkNow, MainNow, ThreadNow, Disjoint, CoShape, StkShape;
    hide MainShape, MainsIn, CosIn, StksIn, AllMains, AllCos, AllStks;
    hide CoFoot;
    CosLess(rt.a, b.n, b.co, b.st.cos, c.id);
  }

  lemma FindStk(rt: Runtime, b: Book, s: ShareStack)
    requires Is(rt, b) && s.id in b.n.stks && b.n.stks[s.id] == s
    ensures StkShape(rt.a, b.n, s.id) && s.id in b.st.stks
    ensures StkNow(b.n.cos, s, b.st.stks[s.id]) && StkFoot(b.n, s.id) <= b.so
  {
    hide M.Inv, CoNow, StkNow, MainNow, ThreadNow, Disjoint, CoShape, StkShape;
    hide MainShape, MainsIn, CosIn, StksIn, AllMains, AllCos, AllStks;
    hide StkFoot;
    StksLess(rt.a, b.n, b.so, b.st.stks, s.id);
  }

  lemma BufferApart(rt: Runtime, b: Book, c: Co, s: ShareStack)
    requires Formed(rt, b.n, b.mo, b.co, b.so) && c.id in b.n.bufs
    requires CoFoot(b.n, c.id) <= b.co && StkFoot(b.n, s.id) <= b.so
    requires Filed(b, c) && s.id in b.n.stks && b.n.stks[s.id] == s
    ensures b.n.bufs[c.id] != s.mem.data
  {
    assert b.n.bufs[c.id] in CoFoot(b.n, c.id) && s.mem.data in StkFoot(b.n, s.id);
  }

  /** A coroutine, its buffer and its stack in memory are the records the state has of them. */
  lemma TheRecords(rt: Runtime, b: Book, c: Co)
    requires Is(rt, b) && Filed(b, c)
    ensures c.ptr != null && c.shareStack != null && c.Valid(rt.a) && c.shareStack.Valid(rt.a)
    ensures var s := c.shareStack;
            && 0 < c.sz < rt.a.Space() && c.id in b.n.bufs && c.ptr.data == b.n.bufs[c.id] && c.ptr.data != s.mem.data
            && s.id in b.n.stks && b.n.stks[s.id] == s && s.id in b.st.stks && s.Rec() == b.st.stks[s.id]
            && c.id in b.st.cos && c.Rec(rt.a) == b.st.cos[c.id] && b.st.cos[c.id].stk == s.id && b.st.arch == rt.a
            && (s.owner != null ==> Filed(b, s.owner) && s.owner.id in b.st.cos && s.owner.shareStack == s)
            && b.st.stks[s.id].owner == (if s.owner == null then None else Some(s.owner.id))
            && c.isEnd == b.st.cos[c.id].ended && c.validSz == |b.st.cos[c.id].save.bytes|
            && s.geom == b.st.stks[s.id].geom
    ensures var s := c.shareStack;
            && (CoFoot(b.n, c.id) == {c, c.reg, c.ptr.data} <= b.co)
            && (StkFoot(b.n, s.id) == {s, s.mem.data} <= b.so)
  {
    hide M.Inv, Formed, Holds;
    FindCo(rt, b, c);
    var s := c.shareStack;
    FindStk(rt, b, s);
    BufferApart(rt, b, c, s);
    StateSays(b.st, c.id);
    if s.owner != null { FindCo(rt, b, s.owner); }
  }

  /** A named coroutine, its main coroutine and its context. */
  lemma TheCo(rt: Runtime, b: Book, c: Co)
    requires Is(rt, b) && c.id in b.n.cos && b.n.cos[c.id] == c
    ensures c.main != null && c.main.id in b.n.mains && b.n.mains[c.main.id] == c.main && c.main.main == null
    ensures c in b.co && c.reg in b.co && c.main.reg in b.mo && c.reg != c.main.reg
    ensures c.reg.Length == NumRegs(rt.a) && c.main.reg.Length == NumRegs(rt.a)
    ensures c.id in b.st.cos && c.Ctx(rt.a) == b.st.cos[c.id].ctx && c.main.id == b.st.cos[c.id].main
    ensures c.main.id in b.st.mains && c.main.Ctx(rt.a) == b.st.mains[c.main.id]
  {
    assert CoShape(rt.a, b.n, c.id);
    assert MainShape(rt.a, b.n, c.main.id) && MainNow(rt.a, c.main, b.st.mains[c.main.id]);
    assert CoNow(rt.a, c, b.n.bufs[c.id], b.st.cos[c.id]);
  }

  lemma TheStk(rt: Runtime, b: Book, s: ShareStack)
    requires Is(rt, b) && FiledStk(b, s)
    ensures s.Valid(rt.a) && s.id in b.st.stks && s.Rec() == b.st.stks[s.id] && s.geom == b.st.stks[s.id].geom
  {
    hide M.Inv, Formed, Holds;
    FindStk(rt, b, s);
  }

  lemma TheMain(rt: Runtime, b: Book, c: Co)
    requires Is(rt, b) && FiledMain(b, c)
    ensures c.main == null && c.reg.Length == NumRegs(rt.a)
  {
    hide M.Inv, Holds;
    assert MainShape(rt.a, b.n, c.id);
  }

  /** The state has the same names. */
  lemma SameNames(rt: Runtime, b: Book)
    requires Is(rt, b)
    ensures b.n.mains.Keys == b.st.mains.Keys && b.n.cos.Keys == b.st.cos.Keys == b.n.bufs.Keys
    ensures b.n.stks.Keys == b.st.stks.Keys
    ensures RestIn(b.n, Every(b))
  {
    hide M.Inv, Shape, MainsIn, CosIn, StksIn, SetsApart, AllMains, AllCos, AllStks;
  }

  lemma SavedBytes(a: Arch, c: Co)
    requires c.Valid(a)
    ensures c.Rec(a).save == c.Save()
  {
  }

  // ---------------------------------------------------------------- putting records back

  lemma MainIs(a: Arch, m: Co, ctx: Ctx)
    requires m.reg.Length == NumRegs(a) && m.Ctx(a) == ctx
    ensures MainNow(a, m, ctx)
  {
  }

  lemma CoIs(a: Arch, co: Co, rec: M.Co)
    requires co.Valid(a) && co.Rec(a) == rec
    ensures CoNow(a, co, co.ptr.data, rec)
  {
  }

  lemma StkIs(cos: map<nat, Co>, s: ShareStack, rec: M.Stk)
    requires s.Rec() == rec && (s.owner != null ==> s.owner.id in cos && cos[s.owner.id] == s.owner)
    ensures StkNow(cos, s, rec)
  {
  }

  /** Main coroutine i has a new context, and all other records are those of m. */
  lemma MainJoins(rt: Runtime, b: Book, m': M.State, i: nat)
    requires Formed(rt, b.n, b.mo, b.co, b.so) && RestIn(b.n, Without(b, Some(i), None, None))
    requires i in b.n.mains && i in m'.mains && MainNow(rt.a, b.n.mains[i], m'.mains[i])
    requires Holds(rt.a, b.n, b.st, Without(b, Some(i), None, None))
    requires m'.cos == b.st.cos && m'.stks == b.st.stks && m'.mains == b.st.mains[i := m'.mains[i]]
    ensures Holds(rt.a, b.n, m', Every(b))
  {
    MainsPut(rt.a, b.n, b.mo, b.st.mains, i, m'.mains[i]);
  }

  /** A shape holds of n when each record has its own and they are disjoint. */
  lemma ShapeIs(a: Arch, n: Names)
    requires n.bufs.Keys == n.cos.Keys && Disjoint(n)
    requires forall i | i in n.mains :: MainShape(a, n, i)
    requires forall c | c in n.cos :: CoShape(a, n, c)
    requires forall k | k in n.stks :: StkShape(a, n, k)
    ensures Shape(a, n)
  {
  }

  lemma ShapeRebuffered(a: Arch, n: Names, c: nat, buf: array<Byte>)
    requires Shape(a, n) && c in n.cos && c in n.bufs && forall d | d in n.bufs && d != c :: n.bufs[d] != buf
    ensures Shape(a, n.(bufs := n.bufs[c := buf]))
  {
    var n' := n.(bufs := n.bufs[c := buf]);
    assert Disjoint(n');
    hide Disjoint;
    forall d | d in n'.cos ensures CoShape(a, n', d) {
      assert CoShape(a, n, d);
    }
    forall i | i in n'.mains ensures MainShape(a, n', i) {
      assert MainShape(a, n, i);
    }
    forall k | k in n'.stks ensures StkShape(a, n', k) {
      assert StkShape(a, n, k);
    }
    hide CoShape, MainShape, StkShape;
    ShapeIs(a, n');
  }

  lemma ShapeApart(a: Arch, n: Names, co: set<object>, c: nat, buf: array<Byte>)
    requires Shape(a, n) && CosIn(n, co, {}) && c in n.bufs && (buf == n.bufs[c] || buf !in co)
    ensures forall d | d in n.bufs && d != c :: n.bufs[d] != buf
  {
  }

  /** The heap is in order again when coroutine c has got a buffer that is its own. */
  lemma Rebuffered(rt: Runtime, n: Names, mo: set<object>, co: set<object>, so: set<object>, c: nat, buf: array<Byte>)
    requires Formed(rt, n, mo, co, so) && c in n.cos && c in n.bufs
    requires buf == n.bufs[c] || buf !in mo + co + so
    ensures Formed(rt, n.(bufs := n.bufs[c := buf]), mo, co + {buf}, so)
  {
    hide Shape;
    ShapeApart(rt.a, n, co, c, buf);
    ShapeRebuffered(rt.a, n, c, buf);
  }

  /** Coroutine c and stack k have new records, c perhaps a new buffer, and all other records are those of b. */
  lemma CoStkJoin(rt: Runtime, b: Book, m': M.State, c: nat, k: nat, buf: array<Byte>)
    requires Formed(rt, b.n, b.mo, b.co, b.so) && c in b.n.cos && c in b.n.bufs && k in b.n.stks
    requires RestIn(b.n, Without(b, None, Some(c), Some(k)))
    requires Holds(rt.a, b.n, b.st, Without(b, None, Some(c), Some(k)))
    requires m'.mains == b.st.mains && c in m'.cos && m'.cos == b.st.cos[c := m'.cos[c]]
    requires k in m'.stks && m'.stks == b.st.stks[k := m'.stks[k]]
    requires CoNow(rt.a, b.n.cos[c], buf, m'.cos[c]) && StkNow(b.n.cos, b.n.stks[k], m'.stks[k])
    ensures var b' := Book(b.n.(bufs := b.n.bufs[c := buf]), b.mo, b.co + {buf}, b.so, m');
            RestIn(b'.n, Every(b')) && Holds(rt.a, b'.n, m', Every(b'))
  {
    hide CoNow, StkNow, MainNow, CoFoot, StkFoot, Shape;
    CosPut(rt.a, b.n, b.co, b.st.cos, c, m'.cos[c], buf);
    StksPut(b.n, b.so, b.st.stks, k, m'.stks[k]);
  }

  /** Coroutine c and its stack have the records of m', and all other records are those of b. */
  lemma CoStkIs(rt: Runtime, b: Book, m': M.State, c: Co)
    requires Formed(rt, b.n, b.mo, b.co, b.so) && Filed(b, c) && c.id in b.n.bufs && c.shareStack != null
    requires c.shareStack.id in b.n.stks && b.n.stks[c.shareStack.id] == c.shareStack
    requires var r := Without(b, None, Some(c.id), Some(c.shareStack.id)); RestIn(b.n, r) && Holds(rt.a, b.n, b.st, r)
    requires M.Inv(m') && ThreadNow(rt, m') && Only(b.st, m', c.id, c.shareStack.id)
    requires c.Valid(rt.a) && c.ptr.data == b.n.bufs[c.id] && c.ptr.data in b.co && c.Rec(rt.a) == m'.cos[c.id]
    requires c.shareStack.Rec() == m'.stks[c.shareStack.id]
    requires c.shareStack.owner != null ==> Filed(b, c.shareStack.owner)
    ensures Is(rt, b.(st := m'))
  {
    hide CoNow, StkNow, Holds, RestIn, Without, Formed, M.Inv, Co.Rec, ShareStack.Rec, Co.Valid;
    CoIs(rt.a, c, m'.cos[c.id]);
    StkIs(b.n.cos, c.shareStack, m'.stks[c.shareStack.id]);
    CoStkJoin(rt, b, m', c.id, c.shareStack.id, b.n.bufs[c.id]);
    assert b.n.bufs[c.id := b.n.bufs[c.id]] == b.n.bufs;
    assert b.co + {b.n.bufs[c.id]} == b.co;
  }

  /** Only the thread's own part of the state is another. */
  lemma SameRecords(rt: Runtime, b: Book, m': M.State)
    requires RestIn(b.n, Every(b)) && Holds(rt.a, b.n, b.st, Every(b))
    requires m'.mains == b.st.mains && m'.cos == b.st.cos && m'.stks == b.st.stks
    ensures Holds(rt.a, b.n, m', Every(b))
  {
  }
}
