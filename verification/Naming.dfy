/** Records that are new to a thread, and records that are gone. */
module Naming {
  import opened Platform
  import opened Switch
  import opened Aco
  import opened Thread
  import opened PrivateStacks
  import opened Refinement
  import opened Lifecycle
  import opened Runs
  import opened Records
  import M = Machine

  // ---------------------------------------------------------------- a new coroutine

  /** An object of none of the records. */
  predicate Outside(b: Book, x: object) { x !in b.mo && x !in b.co && x !in b.so }

  function NameCo(n: Names, c: Co, buf: array<Byte>): Names {
    n.(cos := n.cos[c.id := c], bufs := n.bufs[c.id := buf])
  }

  lemma DisjointWithCo(n: Names, c: Co, buf: array<Byte>)
    requires Disjoint(n) && n.bufs.Keys == n.cos.Keys && c.id !in n.cos
    requires forall d | d in n.cos :: n.cos[d].reg != c.reg && n.bufs[d] != buf
    ensures Disjoint(NameCo(n, c, buf))
  {
  }

  lemma ShapeWithCo(a: Arch, n: Names, c: Co, buf: array<Byte>)
    requires Shape(a, n) && c.id !in n.cos && CoShape(a, NameCo(n, c, buf), c.id)
    requires forall d | d in n.cos :: n.cos[d].reg != c.reg && n.bufs[d] != buf
    ensures Shape(a, NameCo(n, c, buf))
  {
    var n' := NameCo(n, c, buf);
    DisjointWithCo(n, c, buf);
    hide Disjoint;
    forall d | d in n'.cos ensures CoShape(a, n', d) {
      if d != c.id { assert CoShape(a, n, d); }
    }
    forall i | i in n'.mains ensures MainShape(a, n', i) {
      assert MainShape(a, n, i);
    }
    forall k | k in n'.stks ensures StkShape(a, n', k) {
      assert StkShape(a, n, k);
    }
    hide CoShape, MainShape, StkShape;
    ShapeIs(a, n');
  }

  lemma ApartFromCo(n: Names, co: set<object>, c: Co, buf: array<Byte>)
    requires CosIn(n, co, {}) && n.bufs.Keys == n.cos.Keys && c.reg !in co && buf !in co
    ensures forall d | d in n.cos :: n.cos[d].reg != c.reg && n.bufs[d] != buf
  {
  }

  lemma BufsNamed(a: Arch, n: Names)
    requires Shape(a, n)
    ensures n.bufs.Keys == n.cos.Keys
  {
  }

  lemma ApartWithCo(rt: Runtime, b: Book, c: Co, buf: array<Byte>)
    requires SetsApart(rt, b.mo, b.co, b.so) && Outside(b, c) && Outside(b, c.reg) && Outside(b, buf)
    ensures SetsApart(rt, b.mo, b.co + {c, c.reg, buf}, b.so)
  {
  }

  lemma PlacesWithCo(b: Book, c: Co, buf: array<Byte>)
    requires MainsIn(b.n, b.mo, {}) && CosIn(b.n, b.co, {}) && StksIn(b.n, b.so, {})
    ensures var n := NameCo(b.n, c, buf);
            MainsIn(n, b.mo, {}) && CosIn(n, b.co + {c, c.reg, buf}, {}) && StksIn(n, b.so, {})
  {
  }

  lemma FormedWithCo(rt: Runtime, b: Book, c: Co, buf: array<Byte>)
    requires Formed(rt, b.n, b.mo, b.co, b.so) && c.id !in b.n.cos && CoShape(rt.a, NameCo(b.n, c, buf), c.id)
    requires Outside(b, c) && Outside(b, c.reg) && Outside(b, buf)
    ensures Formed(rt, NameCo(b.n, c, buf), b.mo, b.co + {c, c.reg, buf}, b.so)
  {
    hide SetsApart, Shape, CoShape, MainsIn, CosIn, StksIn;
    BufsNamed(rt.a, b.n);
    ApartFromCo(b.n, b.co, c, buf);
    ShapeWithCo(rt.a, b.n, c, buf);
    ApartWithCo(rt, b, c, buf);
    PlacesWithCo(b, c, buf);
  }

  lemma CosWithOne(a: Arch, n: Names, objs: set<object>, recs: map<nat, M.Co>, c: Co, buf: array<Byte>, rec: M.Co)
    requires CosIn(n, objs, {}) && AllCos(a, n, objs, recs, {}) && c.id !in n.cos && CoNow(a, c, buf, rec)
    ensures CosIn(NameCo(n, c, buf), objs + {c, c.reg, buf}, {})
    ensures AllCos(a, NameCo(n, c, buf), objs + {c, c.reg, buf}, recs[c.id := rec], {})
  {
    hide CoNow;
  }

  lemma StksWithOne(n: Names, objs: set<object>, recs: map<nat, M.Stk>, c: Co, buf: array<Byte>)
    requires StksIn(n, objs, {}) && AllStks(n, objs, recs, {}) && c.id !in n.cos
    ensures StksIn(NameCo(n, c, buf), objs, {}) && AllStks(NameCo(n, c, buf), objs, recs, {})
  {
  }

  lemma HoldsWithCo(rt: Runtime, b: Book, c: Co, buf: array<Byte>, rec: M.Co)
    requires RestIn(b.n, Every(b)) && Holds(rt.a, b.n, b.st, Every(b)) && c.id !in b.n.cos
    requires CoNow(rt.a, c, buf, rec)
    ensures var b' := Book(NameCo(b.n, c, buf), b.mo, b.co + {c, c.reg, buf}, b.so, Created(b.st, c.id, rec));
            RestIn(b'.n, Every(b')) && Holds(rt.a, b'.n, b'.st, Every(b'))
  {
    CosWithOne(rt.a, b.n, b.co, b.st.cos, c, buf, rec);
    StksWithOne(b.n, b.so, b.st.stks, c, buf);
    hide CoNow, MainNow, StkNow, AllCos, AllStks, CosIn, StksIn;
  }

  // ---------------------------------------------------------------- a new main coroutine

  function NameMain(n: Names, c: Co): Names { n.(mains := n.mains[c.id := c]) }

  lemma ShapeWithMain(a: Arch, n: Names, c: Co)
    requires Shape(a, n) && c.id !in n.mains && c.main == null && c.reg.Length == NumRegs(a)
    requires forall i | i in n.mains :: n.mains[i].reg != c.reg
    ensures Shape(a, NameMain(n, c))
  {
    var n' := NameMain(n, c);
    assert Disjoint(n');
    hide Disjoint;
    forall d | d in n'.cos ensures CoShape(a, n', d) {
      assert CoShape(a, n, d);
    }
    forall i | i in n'.mains ensures MainShape(a, n', i) {
      if i != c.id { assert MainShape(a, n, i); }
    }
    forall k | k in n'.stks ensures StkShape(a, n', k) {
      assert StkShape(a, n, k);
    }
    hide CoShape, MainShape, StkShape;
    ShapeIs(a, n');
  }

  lemma FormedWithMain(rt: Runtime, b: Book, c: Co)
    requires Formed(rt, b.n, b.mo, b.co, b.so) && c.id !in b.n.mains && Outside(b, c.reg)
    requires c.main == null && c.reg.Length == NumRegs(rt.a)
    ensures Formed(rt, NameMain(b.n, c), b.mo + {c.reg}, b.co, b.so)
  {
    hide Shape;
    ShapeWithMain(rt.a, b.n, c);
  }

  lemma HoldsWithMain(rt: Runtime, b: Book, c: Co, ctx: Ctx)
    requires RestIn(b.n, Every(b)) && Holds(rt.a, b.n, b.st, Every(b)) && c.id !in b.n.mains && MainNow(rt.a, c, ctx)
    ensures var b' := Book(NameMain(b.n, c), b.mo + {c.reg}, b.co, b.so, b.st.(mains := b.st.mains[c.id := ctx]));
            RestIn(b'.n, Every(b')) && Holds(rt.a, b'.n, b'.st, Every(b'))
  {
    hide CoNow, MainNow;
  }

  // ---------------------------------------------------------------- a new stack

  function NameStk(n: Names, s: ShareStack): Names { n.(stks := n.stks[s.id := s]) }

  lemma ShapeWithStk(a: Arch, n: Names, s: ShareStack)
    requires Shape(a, n) && s.id !in n.stks && StkShape(a, NameStk(n, s), s.id)
    requires forall k | k in n.stks :: n.stks[k].mem.data != s.mem.data
    ensures Shape(a, NameStk(n, s))
  {
    var n' := NameStk(n, s);
    assert Disjoint(n');
    hide Disjoint;
    forall d | d in n'.cos ensures CoShape(a, n', d) {
      assert CoShape(a, n, d);
    }
    forall i | i in n'.mains ensures MainShape(a, n', i) {
      assert MainShape(a, n, i);
    }
    forall k | k in n'.stks ensures StkShape(a, n', k) {
      if k != s.id { assert StkShape(a, n, k); }
    }
    hide CoShape, MainShape, StkShape;
    ShapeIs(a, n');
  }

  lemma FormedWithStk(rt: Runtime, b: Book, s: ShareStack)
    requires Formed(rt, b.n, b.mo, b.co, b.so) && s.id !in b.n.stks && StkShape(rt.a, NameStk(b.n, s), s.id)
    requires Outside(b, s) && Outside(b, s.mem.data)
    ensures Formed(rt, NameStk(b.n, s), b.mo, b.co, b.so + {s, s.mem.data})
  {
    hide Shape;
    ShapeWithStk(rt.a, b.n, s);
  }

  lemma HoldsWithStk(rt: Runtime, b: Book, s: ShareStack, rec: M.Stk)
    requires RestIn(b.n, Every(b)) && Holds(rt.a, b.n, b.st, Every(b)) && s.id !in b.n.stks && StkNow(b.n.cos, s, rec)
    ensures var b' := Book(NameStk(b.n, s), b.mo, b.co, b.so + {s, s.mem.data}, StackAdded(b.st, s.id, rec));
            RestIn(b'.n, Every(b')) && Holds(rt.a, b'.n, b'.st, Every(b'))
  {
    hide CoNow, MainNow, StkNow;
  }

  // ---------------------------------------------------------------- a freed coroutine

  function DropCo(n: Names, i: nat): Names { n.(cos := n.cos - {i}, bufs := n.bufs - {i}) }

  lemma ShapeDropCo(a: Arch, n: Names, i: nat)
    requires Shape(a, n)
    ensures Shape(a, DropCo(n, i))
  {
    var n' := DropCo(n, i);
    assert Disjoint(n');
    hide Disjoint;
    forall d | d in n'.cos ensures CoShape(a, n', d) {
      assert CoShape(a, n, d);
    }
    forall j | j in n'.mains ensures MainShape(a, n', j) {
      assert MainShape(a, n, j);
    }
    forall k | k in n'.stks ensures StkShape(a, n', k) {
      assert StkShape(a, n, k);
    }
    hide CoShape, MainShape, StkShape;
    ShapeIs(a, n');
  }

  lemma FormedDropCo(rt: Runtime, b: Book, i: nat, co: set<object>)
    requires Formed(rt, b.n, b.mo, b.co, b.so) && co <= b.co && CosIn(b.n, co, {i})
    ensures Formed(rt, DropCo(b.n, i), b.mo, co, b.so)
  {
    hide Shape;
    ShapeDropCo(rt.a, b.n, i);
  }

  lemma CosDropped(a: Arch, n: Names, objs: set<object>, recs: map<nat, M.Co>, i: nat)
    requires CosIn(n, objs, {i}) && AllCos(a, n, objs, recs, {i})
    ensures CosIn(DropCo(n, i), objs, {}) && AllCos(a, DropCo(n, i), objs, recs - {i}, {})
  {
    hide CoNow;
  }

  /** Another coroutine owns it, or none does. */
  lemma StillOwned(cos: map<nat, Co>, s: ShareStack, rec: M.Stk, i: nat)
    requires StkNow(cos, s, rec) && rec.owner != Some(i)
    ensures StkNow(cos - {i}, s, rec)
  {
  }

  lemma StksDropped(n: Names, objs: set<object>, recs: map<nat, M.Stk>, i: nat, but: set<nat>)
    requires StksIn(n, objs, but) && AllStks(n, objs, recs, but)
    requires forall j | j in recs && j !in but :: recs[j].owner != Some(i)
    ensures StksIn(DropCo(n, i), objs, but) && AllStks(DropCo(n, i), objs, recs, but)
  {
    forall k | k in n.stks && k !in but ensures StkNow(n.cos - {i}, n.stks[k], recs[k]) {
      StillOwned(n.cos, n.stks[k], recs[k], i);
    }
    hide StkNow;
  }

  lemma StksDropPut(n: Names, objs: set<object>, recs: map<nat, M.Stk>, i: nat, k: nat, rec: M.Stk)
    requires StksIn(n, objs, {}) && StksIn(n, objs - StkFoot(n, k), {k}) && k in n.stks
    requires AllStks(n, objs - StkFoot(n, k), recs, {k}) && StkNow(n.cos - {i}, n.stks[k], rec)
    requires forall j | j in recs && j != k :: recs[j].owner != Some(i)
    ensures StksIn(DropCo(n, i), objs, {}) && AllStks(DropCo(n, i), objs, recs[k := rec], {})
  {
    hide StkNow, AllStks;
    StksDropped(n, objs - StkFoot(n, k), recs, i, {k});
    StksPut(DropCo(n, i), objs, recs, k, rec);
  }

  /** Coroutine i is gone, stack k has a new record, and all others are those of b. */
  lemma HoldsDropCo(rt: Runtime, b: Book, i: nat, k: nat, m': M.State)
    requires Formed(rt, b.n, b.mo, b.co, b.so) && i in b.n.cos && k in b.n.stks
    requires RestIn(b.n, Without(b, None, Some(i), Some(k)))
    requires Holds(rt.a, b.n, b.st, Without(b, None, Some(i), Some(k)))
    requires m' == b.st.(cos := b.st.cos - {i}, stks := m'.stks)
    requires k in m'.stks && m'.stks == b.st.stks[k := m'.stks[k]]
    requires forall j | j in b.st.stks && j != k :: b.st.stks[j].owner != Some(i)
    requires StkNow(b.n.cos - {i}, b.n.stks[k], m'.stks[k])
    ensures var b' := Book(DropCo(b.n, i), b.mo, b.co - CoFoot(b.n, i), b.so, m');
            RestIn(b'.n, Every(b')) && Holds(rt.a, b'.n, m', Every(b'))
  {
    hide CoNow, StkNow, MainNow, CoFoot, StkFoot, Shape, AllCos, AllStks, CosIn, StksIn, SetsApart;
    CosDropped(rt.a, b.n, b.co - CoFoot(b.n, i), b.st.cos, i);
    StksDropPut(b.n, b.so, b.st.stks, i, k, m'.stks[k]);
  }

  lemma RestFormed(rt: Runtime, b: Book, i: nat, k: nat)
    requires Formed(rt, b.n, b.mo, b.co, b.so) && RestIn(b.n, Without(b, None, Some(i), Some(k)))
    ensures Formed(rt, DropCo(b.n, i), b.mo, b.co - CoFoot(b.n, i), b.so)
  {
    hide Formed, CosIn, MainsIn, StksIn, CoFoot, StkFoot;
    FormedDropCo(rt, b, i, b.co - CoFoot(b.n, i));
  }

  // ---------------------------------------------------------------- a freed main coroutine

  function DropMain(n: Names, i: nat): Names { n.(mains := n.mains - {i}) }

  lemma ShapeDropMain(a: Arch, n: Names, i: nat)
    requires Shape(a, n) && forall d | d in n.cos :: n.cos[d].main != null ==> n.cos[d].main.id != i
    ensures Shape(a, DropMain(n, i))
  {
    var n' := DropMain(n, i);
    assert Disjoint(n');
    hide Disjoint;
    forall d | d in n'.cos ensures CoShape(a, n', d) {
      assert CoShape(a, n, d);
    }
    forall j | j in n'.mains ensures MainShape(a, n', j) {
      assert MainShape(a, n, j);
    }
    forall k | k in n'.stks ensures StkShape(a, n', k) {
      assert StkShape(a, n, k);
    }
    hide CoShape, MainShape, StkShape;
    ShapeIs(a, n');
  }

  lemma FormedDropMain(rt: Runtime, b: Book, i: nat, mo: set<object>)
    requires Formed(rt, b.n, b.mo, b.co, b.so) && mo <= b.mo && MainsIn(b.n, mo, {i})
    requires forall d | d in b.n.cos :: b.n.cos[d].main != null ==> b.n.cos[d].main.id != i
    ensures Formed(rt, DropMain(b.n, i), mo, b.co, b.so)
  {
    hide Shape;
    ShapeDropMain(rt.a, b.n, i);
  }

  lemma HoldsDropMain(rt: Runtime, b: Book, i: nat, mo: set<object>)
    requires MainsIn(b.n, mo, {i}) && CosIn(b.n, b.co, {}) && StksIn(b.n, b.so, {})
    requires Holds(rt.a, b.n, b.st, Rest(mo, {i}, b.co, {}, b.so, {}))
    ensures var b' := Book(DropMain(b.n, i), mo, b.co, b.so, b.st.(mains := b.st.mains - {i}));
            RestIn(b'.n, Every(b')) && Holds(rt.a, b'.n, b'.st, Every(b'))
  {
    hide CoNow, MainNow, StkNow;
  }

  lemma WithoutMain(rt: Runtime, b: Book, c: Co)
    requires FiledMain(b, c) && RestIn(b.n, Without(b, Some(c.id), None, None))
    requires Holds(rt.a, b.n, b.st, Without(b, Some(c.id), None, None))
    ensures MainsIn(b.n, b.mo - {c.reg}, {c.id}) && CosIn(b.n, b.co, {}) && StksIn(b.n, b.so, {})
    ensures Holds(rt.a, b.n, b.st, Rest(b.mo - {c.reg}, {c.id}, b.co, {}, b.so, {}))
  {
    hide MainsIn, CosIn, StksIn, Holds;
    assert Without(b, Some(c.id), None, None) == Rest(b.mo - {c.reg}, {c.id}, b.co, {}, b.so, {});
  }

  lemma NamedRight(rt: Runtime, b: Book, d: nat)
    requires Is(rt, b) && d in b.n.cos
    ensures CoShape(rt.a, b.n, d)
  {
    hide M.Inv, Holds, CoShape;
  }

  lemma MainOf(rt: Runtime, b: Book, d: nat)
    requires Is(rt, b) && d in b.n.cos
    ensures b.n.cos[d].main != null && d in b.st.cos && b.n.cos[d].main.id == b.st.cos[d].main
  {
    hide M.Inv, Formed, Holds;
    NamedRight(rt, b, d);
    TheCo(rt, b, b.n.cos[d]);
  }

  /** A main coroutine that no coroutine has for its own. */
  lemma NobodysMain(rt: Runtime, b: Book, i: nat)
    requires Is(rt, b) && Legal(Abs(b.st), M.FreeMain(i))
    ensures i in b.st.mains && Step(b.st, M.FreeMain(i)) == M.Ok(b.st.(mains := b.st.mains - {i}))
    ensures M.Inv(b.st.(mains := b.st.mains - {i}))
    ensures forall d | d in b.n.cos :: b.n.cos[d].main != null ==> b.n.cos[d].main.id != i
  {
    FreeMainStep(b.st, i);
    forall d | d in b.n.cos ensures b.n.cos[d].main != null ==> b.n.cos[d].main.id != i {
      MainOf(rt, b, d);
      assert Abs(b.st).cos[d].main == b.st.cos[d].main;
    }
  }

  // ---------------------------------------------------------------- a freed stack

  function DropStk(n: Names, k: nat): Names { n.(stks := n.stks - {k}) }

  lemma ShapeDropStk(a: Arch, n: Names, k: nat)
    requires Shape(a, n) && forall d | d in n.cos :: n.cos[d].shareStack != null ==> n.cos[d].shareStack.id != k
    ensures Shape(a, DropStk(n, k))
  {
    var n' := DropStk(n, k);
    assert Disjoint(n');
    hide Disjoint;
    forall d | d in n'.cos ensures CoShape(a, n', d) {
      assert CoShape(a, n, d);
    }
    forall j | j in n'.mains ensures MainShape(a, n', j) {
      assert MainShape(a, n, j);
    }
    forall j | j in n'.stks ensures StkShape(a, n', j) {
      assert StkShape(a, n, j);
    }
    hide CoShape, MainShape, StkShape;
    ShapeIs(a, n');
  }

  lemma FormedDropStk(rt: Runtime, b: Book, k: nat, so: set<object>)
    requires Formed(rt, b.n, b.mo, b.co, b.so) && so <= b.so && StksIn(b.n, so, {k})
    requires forall d | d in b.n.cos :: b.n.cos[d].shareStack != null ==> b.n.cos[d].shareStack.id != k
    ensures Formed(rt, DropStk(b.n, k), b.mo, b.co, so)
  {
    hide Shape;
    ShapeDropStk(rt.a, b.n, k);
  }

  lemma HoldsDropStk(rt: Runtime, b: Book, k: nat, so: set<object>)
    requires MainsIn(b.n, b.mo, {}) && CosIn(b.n, b.co, {}) && StksIn(b.n, so, {k})
    requires Holds(rt.a, b.n, b.st, Rest(b.mo, {}, b.co, {}, so, {k}))
    ensures var b' := Book(DropStk(b.n, k), b.mo, b.co, so, StackFreed(b.st, k));
            RestIn(b'.n, Every(b')) && Holds(rt.a, b'.n, b'.st, Every(b'))
  {
    hide CoNow, MainNow, StkNow;
  }

  lemma WithoutStk(rt: Runtime, b: Book, s: ShareStack)
    requires FiledStk(b, s) && RestIn(b.n, Without(b, None, None, Some(s.id)))
    requires Holds(rt.a, b.n, b.st, Without(b, None, None, Some(s.id)))
    ensures MainsIn(b.n, b.mo, {}) && CosIn(b.n, b.co, {}) && StksIn(b.n, b.so - {s, s.mem.data}, {s.id})
    ensures Holds(rt.a, b.n, b.st, Rest(b.mo, {}, b.co, {}, b.so - {s, s.mem.data}, {s.id}))
  {
    hide MainsIn, CosIn, StksIn, Holds;
    assert Without(b, None, None, Some(s.id)) == Rest(b.mo, {}, b.co, {}, b.so - {s, s.mem.data}, {s.id});
  }

  lemma StackOf(rt: Runtime, b: Book, d: nat)
    requires Is(rt, b) && d in b.n.cos
    ensures var s := b.n.cos[d].shareStack; s != null && d in b.st.cos && s.id == b.st.cos[d].stk
  {
    hide M.Inv, Formed, Holds;
    NamedRight(rt, b, d);
    TheRecords(rt, b, b.n.cos[d]);
  }

  /** A stack that no coroutine runs on. */
  lemma NobodysStack(rt: Runtime, b: Book, k: nat)
    requires Is(rt, b) && Legal(Abs(b.st), M.FreeStack(k))
    ensures k in b.st.stks && Step(b.st, M.FreeStack(k)) == M.Ok(StackFreed(b.st, k)) && M.Inv(StackFreed(b.st, k))
    ensures forall d | d in b.n.cos :: b.n.cos[d].shareStack != null ==> b.n.cos[d].shareStack.id != k
  {
    FreeStep(b.st, M.FreeStack(k));
    forall d | d in b.n.cos ensures b.n.cos[d].shareStack != null ==> b.n.cos[d].shareStack.id != k {
      StackOf(rt, b, d);
      assert Abs(b.st).cos[d].stk == b.st.cos[d].stk;
    }
  }
}
