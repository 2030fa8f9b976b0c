/**
 * The library calls that write one coroutine and its stack, on the records in memory. Each contract gives the
 * new value of every record the call writes, by the functions the steps of module Machine are made of;
 * `modifies` says that every other record is untouched. aco_resume, which may write a second coroutine, is in
 * module WholeHeap, where all the calls are put together.
 */
module Thread {
  import opened Platform
  import opened Geometry
  import opened Switch
  import opened FastCopy
  import opened Aco
  import M = Machine

  /** A non-main coroutine in order, with the records it points at. */
  ghost predicate Linked(a: Arch, c: Co)
    reads c, c.main, c.shareStack
  {
    && c.Valid(a) && c.shareStack.Valid(a)
    && c.ptr.data != c.shareStack.mem.data
    && c.main != c && c.main.reg.Length == NumRegs(a) && c.main.reg != c.reg
  }

  /** The address of aco_default_protector_last_word. */
  const DEFAULT_LAST_WORD: Word := 4

  class Runtime {
    const a: Arch
    /** The bytes of aco_funcp_protector_asm's address. */
    const prot: seq<Byte>
    const cpu: Cpu
    /** aco_gtls_co and aco_gtls_fpucw_mxcsr */
    var gtls: Co?
    var fpucw: U16
    var mxcsr: U32
    /** aco_gtls_last_word_fp */
    var lastWord: Word

    constructor (a: Arch, prot: seq<Byte>, cpu: Cpu)
      requires |prot| == a.W()
      ensures this.a == a && this.prot == prot && this.cpu == cpu && gtls == null
      ensures fpucw == 0 && mxcsr == 0 && lastWord == DEFAULT_LAST_WORD
    {
      this.a, this.prot, this.cpu := a, prot, cpu;
      gtls, fpucw, mxcsr, lastWord := null, 0, 0, DEFAULT_LAST_WORD;
    }

    /** aco_thread_init; a null callback keeps the one there is. */
    method ThreadInit(lastWordFp: Word)
      modifies this`fpucw, this`mxcsr, this`lastWord
      ensures fpucw == old(cpu.fpucw) && mxcsr == old(cpu.mxcsr)
      ensures lastWord == if lastWordFp == 0 then old(lastWord) else lastWordFp
    {
      fpucw, mxcsr := cpu.fpucw, cpu.mxcsr;
      if lastWordFp != 0 {
        lastWord := lastWordFp;
      }
    }

    /** acosw(from, to) as the compiler calls it. */
    method SwitchTo(from: Co, to: Co)
      requires from.reg.Length == to.reg.Length == NumRegs(a) && from.reg != to.reg && cpu.sp >= a.W()
      modifies cpu, from.reg
      ensures from.Ctx(a) == old(cpu.Now(a))
      ensures cpu.Now(a) == old(to.Ctx(a))
    {
      ghost var here := cpu.Now(a);
      var retaddr := cpu.Call(a, 0);
      ghost var inside := cpu.Now(a).(ip := retaddr, sp := cpu.sp + a.W());
      assert inside == here;
      StoredThenLoaded(a, from.reg[..], here);
      Acosw(a, cpu, retaddr, from.reg, to.reg);
    }

    /** aco_yield1, and the end of the aco_resume it returns to. */
    method Yield(c: Co)
      requires Linked(a, c) && cpu.sp >= a.W()
      modifies this`gtls, cpu, c.reg
      ensures c.Rec(a) == old(c.Rec(a)).(ctx := old(cpu.Now(a)))
      ensures cpu.Now(a) == old(c.main.Ctx(a)) && gtls == c.main
    {
      SwitchTo(c, c.main);
      gtls := c.main;
    }

    /** aco_exit1 */
    method Exit(c: Co) returns (ok: bool)
      requires Linked(a, c) && cpu.sp >= a.W()
      modifies this`gtls, cpu, c.reg, c`isEnd, c.shareStack`owner, c.shareStack`validSz
      ensures ok <==> old(c.shareStack.owner) == c
      ensures ok ==>
                && c.Rec(a) == old(c.Rec(a)).(ended := true, ctx := old(cpu.Now(a)))
                && c.shareStack.Rec() == old(c.shareStack.Rec()).(owner := None, validSz := 0)
                && cpu.Now(a) == old(c.main.Ctx(a)) && gtls == c.main
    {
      c.isEnd := true;
      if c.shareStack.owner != c { return false; }
      c.shareStack.owner := null;
      c.shareStack.validSz := 0;
      Yield(c);
      ok := true;
    }

    /** aco_create(NULL, ...) */
    method CreateMain(id: nat, fp: Word, arg: Word) returns (c: Co)
      ensures fresh(c) && fresh(c.reg) && c.id == id && c.main == null && c.reg.Length == NumRegs(a)
      ensures c.fp == fp && c.arg == arg && c.shareStack == null && c.ptr == null
      ensures c.Ctx(a) == M.FirstCtx(a, 0, 0, 0, 0) && forall i | 0 <= i < c.reg.Length :: c.reg[i] == 0
    {
      c := new Co(id, a, null, null, fp, arg);
      assert c.Ctx(a).callee == M.FirstCtx(a, 0, 0, 0, 0).callee;
    }

    /** Lines 318-333: the entry point, the return slot and the FPU words go to their register slots. */
    method FirstRegs(c: Co, fp: Word, ret: nat)
      requires c.reg.Length == NumRegs(a) && forall i | 0 <= i < c.reg.Length :: c.reg[i] == 0
      modifies c.reg
      ensures c.Ctx(a) == M.FirstCtx(a, fp, ret, fpucw, mxcsr)
    {
      ghost var zeros, first := c.reg[..], M.FirstCtx(a, fp, ret, fpucw, mxcsr);
      if a.I386? {
        c.reg[0] := fp;
        c.reg[1] := ret;
        c.reg[6] := fpucw;
        c.reg[7] := mxcsr;
      } else {
        c.reg[4] := fp;
        c.reg[5] := ret;
        c.reg[8] := FpuWord(0, fpucw, mxcsr);
      }
      assert c.reg[..] == Stored(a, zeros, first);
      StoredThenLoaded(a, zeros, first);
    }

    /** aco_create for a non-main coroutine. */
    method Create(id: nat, main: Co, s: ShareStack, saveSz: nat, fp: Word, arg: Word) returns (c: Co)
      requires s.Valid(a)
      ensures fresh(c) && fresh(c.reg) && c.Valid(a) && fresh(c.ptr) && fresh(c.ptr.data)
      ensures c.id == id && c.main == main && c.shareStack == s
      ensures c.Rec(a) == M.FirstRec(a, main.id, s.id, s.geom.ret, fpucw, mxcsr, saveSz, fp, arg)
      ensures var x := c.Ctx(a);
              && x.ip == fp && x.sp == s.geom.ret && x.cw == fpucw && x.mxcsr == mxcsr
              && forall i | 0 <= i < |x.callee| :: x.callee[i] == 0
      ensures c.fp == fp && c.arg == arg && !c.isEnd && c.validSz == c.maxCpsz == c.ctSave == c.ctRestore == 0
      ensures c.ptr.data.Length == c.sz == if saveSz == 0 then 64 else saveSz
    {
      M.FirstCtxFields(a, fp, s.geom.ret, fpucw, mxcsr);
      c := new Co(id, a, main, s, fp, arg);
      FirstRegs(c, fp, s.geom.ret);
      var sz := saveSz;
      if sz == 0 {
        sz := 64;
      }
      c.ptr := Malloc(sz);
      c.sz := sz;
      c.validSz := 0;
      c.init := sz;
    }

    /** What aco_destroy may write. */
    ghost function Freed(c: Co): set<object> {
      if c.main == null || c.shareStack == null then {} else {c, c.shareStack}
    }

    /** aco_destroy: a main coroutine is just freed; another leaves its stack and its buffer is freed. */
    method Destroy(c: Co)
      requires c.main != null ==> c.shareStack != null
      modifies Freed(c)
      ensures c.main != null ==>
                && c.ptr == null
                && c.shareStack.owner == (if old(c.shareStack.owner) == c then null else old(c.shareStack.owner))
                && c.shareStack.Rec() ==
                   if old(c.shareStack.owner) == c then old(c.shareStack.Rec()).(owner := None, validSz := 0)
                   else old(c.shareStack.Rec())
    {
      if c.main == null { return; }
      if c.shareStack.owner == c {
        c.shareStack.owner := null;
        c.shareStack.validSz := 0;
      }
      c.ptr := null;
    }

    /**
     * aco_share_stack_new2: size the stack, get the region, place the marks, write the protector. The system
     * chooses where the region is and what is in it.
     */
    method NewShareStack(id: nat, req: nat, guard: bool, pg: int)
      returns (r: Option<ShareStack>, base: nat, fill: seq<Byte>)
      requires req < a.Space() && pg < a.Half() && |prot| == a.W()
      ensures r.Some? <==> StackBytes(a, req, guard, pg).Some?
      ensures r.Some? ==>
                var s := r.value;
                && fresh(s) && fresh(s.mem.data) && s.id == id && s.Valid(a) && s.owner == null
                && base + StackBytes(a, req, guard, pg).value <= a.Space()
                && StackGeom(a, req, guard, pg, base) == Some(s.geom)
                && |fill| == s.geom.sz
                && s.Rec() == M.NewStk(s.geom, prot, fill)
    {
      hide StackBytes, Request, IsPow2, PageCeil, Max, M.FirstMem;
      r, base, fill := None, 0, [];
      var total := SizeShareStack(a, req, guard, pg);
      if total == None { return; }
      StackFitsSpace(a, req, guard, pg);
      var region := MapRegion(a, total.value);
      StackSize(a, req, guard, pg, region);
      var skip := if guard then pg else 0;
      var sz := total.value - skip;
      var geom := PlaceMarks(a, sz, region + skip);
      if geom == None { return; }
      var g := geom.value;
      var mem := new Block(sz, g.ptr);
      base, fill := region, mem.data[..];
      WriteProtector(mem, g);
      var s := new ShareStack(id, g, mem);
      assert s.Rec() == M.NewStk(g, prot, fill);
      r := Some(s);
    }

    /** Line 281: the return slot gets the protector's address. */
    method WriteProtector(mem: Block, g: Geom)
      requires GeomOk(a, g) && mem.data.Length == g.sz && |prot| == a.W()
      modifies mem.data
      ensures mem.data[..] == M.FirstMem(g, prot, old(mem.data[..]))
    {
      var top := g.ret - g.ptr;
      forall i | 0 <= i < a.W() {
        mem.data[top + i] := prot[i];
      }
    }

    /** mmap or malloc: a region the system finds in the address space. */
    method MapRegion(a: Arch, n: nat) returns (base: nat)
      requires n <= a.Space()
      ensures base + n <= a.Space()
    {
      base :| base + n <= a.Space() by { assert 0 + n <= a.Space(); }
    }
  }
}
