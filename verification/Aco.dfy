/**
 * libaco's own records, updated in place. Every step is proved, record by record, to leave the values the
 * transition functions of module Machine prescribe (libsrc/libaco/aco.c:364-473).
 */
module Aco {
  import opened Platform
  import opened Geometry
  import opened Switch
  import opened FastCopy
  import SaveBuffer
  import M = Machine

  /** aco_share_stack_t. `id` stands for the record's own address. */
  class ShareStack {
    const id: nat
    const geom: Geom
    const mem: Block
    var validSz: nat
    var owner: Co?

    constructor (id: nat, geom: Geom, mem: Block)
      ensures this.id == id && this.geom == geom && this.mem == mem
      ensures validSz == 0 && owner == null
    {
      this.id, this.geom, this.mem := id, geom, mem;
      validSz, owner := 0, null;
    }

    ghost predicate Valid(a: Arch)
      reads this
    {
      GeomOk(a, geom) && mem.addr == geom.ptr && mem.data.Length == geom.sz
    }

    ghost function Rec(): M.Stk
      reads this, mem.data
    {
      M.Stk(geom, mem.data[..], validSz, if owner == null then None else Some(owner.id))
    }
  }

  /** aco_t. A main coroutine has neither `main` nor a share stack nor a save buffer. */
  class Co {
    const id: nat
    const reg: array<Word>
    const main: Co?
    const shareStack: ShareStack?
    const fp: Word
    const arg: Word
    var isEnd: bool
    var ptr: Block?
    var sz: nat
    var validSz: nat
    var maxCpsz: nat
    var ctSave: nat
    var ctRestore: nat
    ghost var init: nat
    ghost var grown: nat

    /** malloc and memset, then the fields aco_create assigns. */
    constructor (id: nat, a: Arch, main: Co?, shareStack: ShareStack?, fp: Word, arg: Word)
      ensures this.id == id && this.main == main && this.shareStack == shareStack && this.fp == fp && this.arg == arg
      ensures fresh(reg) && reg.Length == NumRegs(a) && forall i | 0 <= i < reg.Length :: reg[i] == 0
      ensures !isEnd && ptr == null && sz == validSz == maxCpsz == ctSave == ctRestore == grown == 0
    {
      this.id, this.main, this.shareStack, this.fp, this.arg := id, main, shareStack, fp, arg;
      reg := new Word[NumRegs(a)](_ => 0);
      isEnd, ptr := false, null;
      sz, validSz, maxCpsz, ctSave, ctRestore := 0, 0, 0, 0, 0;
      init, grown := 0, 0;
    }

    ghost function BufRepr(): set<object>
      reads this
    {
      if ptr == null then {} else {ptr.data}
    }

    /** A non-main coroutine whose record is in order. */
    ghost predicate Valid(a: Arch)
      reads this
    {
      && main != null && shareStack != null
      && reg.Length == NumRegs(a)
      && ptr != null && sz == ptr.data.Length && validSz <= sz
    }

    ghost function Ctx(a: Arch): Ctx
      requires reg.Length == NumRegs(a)
      reads reg
    {
      CtxOf(a, reg[..])
    }

    ghost function Save(): M.Save
      requires ptr != null && validSz <= ptr.data.Length
      reads this, BufRepr()
    {
      M.Save(ptr.data[..validSz], sz, maxCpsz, ctSave, ctRestore, init, grown)
    }

    ghost function Rec(a: Arch): M.Co
      requires Valid(a)
      reads this, reg, BufRepr()
    {
      M.Co(main.id, shareStack.id, fp, arg, Ctx(a), isEnd, Save())
    }
  }

  /** malloc: a fresh block at an address the system chooses. */
  method Malloc(n: nat) returns (b: Block)
    ensures fresh(b) && fresh(b.data) && b.data.Length == n
  {
    var addr: nat :| true;
    b := new Block(n, addr);
  }

  /** Lines 392-404: a buffer too small for the occupant's bytes is freed and replaced by a doubled one. */
  method Reserve(a: Arch, o: Co) returns (ok: bool)
    requires o.ptr != null && o.sz == o.ptr.data.Length && 0 < o.sz < a.Space()
    modifies o`ptr, o`sz, o`grown
    ensures var grow := old(o.sz) < o.validSz;
            var cap := if grow then SaveBuffer.Grown(a, old(o.sz), o.validSz) else Some(old(o.sz));
            && (ok <==> cap.Some?)
            && (ok ==>
                  && o.ptr != null && o.sz == o.ptr.data.Length == cap.value && o.validSz <= o.sz
                  && o.grown == old(o.grown) + (if grow then SaveBuffer.Steps(old(o.sz), o.validSz) else 0)
                  && (o.ptr == old(o.ptr) || (fresh(o.ptr) && fresh(o.ptr.data))))
  {
    if o.sz < o.validSz {
      o.ptr := null;
      var grown := SaveBuffer.Grow(a, o.sz, o.validSz);
      if grown == None {
        return false;
      }
      o.grown := o.grown + SaveBuffer.Steps(o.sz, o.validSz);
      o.sz := grown.value;
      o.ptr := Malloc(o.sz);
    }
    return true;
  }

  /** Lines 407-425: the bytes from the occupant's stack pointer up to the return slot go to its buffer. */
  method CopyOut(a: Arch, o: Co, s: ShareStack, sp: nat)
    requires s.Valid(a) && o.ptr != null && o.ptr.data != s.mem.data && o.validSz <= o.ptr.data.Length
    requires s.geom.ptr <= sp <= s.geom.ret && o.validSz == s.geom.ret - sp
    modifies o.ptr.data, o`ctSave, o`maxCpsz
    ensures o.ptr.data[..o.validSz] == old(M.Bytes(s.Rec(), sp))
    ensures o.ctSave == old(o.ctSave) + (if o.validSz > 0 then 1 else 0)
    ensures o.maxCpsz == Max(old(o.maxCpsz), o.validSz)
  {
    if o.validSz > 0 {
      CopyDropIn(a, o.ptr, 0, s.mem, sp - s.geom.ptr, o.validSz);
      o.ctSave := o.ctSave + 1;
    }
    if o.validSz > o.maxCpsz {
      o.maxCpsz := o.validSz;
    }
  }

  /** Lines 388-425: with the stack pointer inside the window, make room and copy out. */
  method SaveBytes(a: Arch, o: Co, s: ShareStack, sp: nat) returns (ok: bool)
    requires o.Valid(a) && s.Valid(a) && o.ptr.data != s.mem.data && 0 < o.sz < a.Space()
    requires InWindow(s.geom, sp)
    modifies o`validSz, o`ptr, o`sz, o`grown, o`ctSave, o`maxCpsz, o.ptr.data
    ensures ok ==> o.Valid(a) && (o.ptr == old(o.ptr) || (fresh(o.ptr) && fresh(o.ptr.data)))
    ensures M.Filled(a, old(o.Save()), old(M.Bytes(s.Rec(), sp))) == if ok then Some(o.Save()) else None
  {
    M.LiveSize(a, s.Rec(), sp);
    ghost var v, live := o.Save(), M.Bytes(s.Rec(), sp);
    o.validSz := s.geom.ret - sp;
    ok := Reserve(a, o);
    if ok {
      assert M.Bytes(s.Rec(), sp) == live;
      CopyOut(a, o, s, sp);
      assert M.Filled(a, v, live).value == o.Save();
    }
  }

  /** Lines 373-427 of aco_resume: the occupant's bytes move to its buffer and it leaves the stack. */
  method SaveOwner(a: Arch, o: Co) returns (ok: bool)
    requires o.Valid(a) && o.shareStack.Valid(a) && o.shareStack.owner == o
    requires o.ptr.data != o.shareStack.mem.data
    requires 0 < o.sz < a.Space()
    modifies o, o.ptr.data, o.shareStack
    ensures ok <==> M.Saved(a, old(o.shareStack.Rec()), old(o.Rec(a))).Ok?
    ensures var g := o.shareStack.geom;
            var sp := old(o.Ctx(a)).sp;
            ok <==>
              && sp <= g.ret && g.ret - sp + a.W() <= g.limit
              && (old(o.sz) < g.ret - sp ==> SaveBuffer.Grown(a, old(o.sz), g.ret - sp).Some?)
    ensures ok ==>
              && o.Valid(a)
              && o.Rec(a) == M.Saved(a, old(o.shareStack.Rec()), old(o.Rec(a))).value
              && o.shareStack.Rec() == old(o.shareStack.Rec()).(owner := None, validSz := 0)
              && o.shareStack.owner == null
              && (o.ptr == old(o.ptr) || (fresh(o.ptr) && fresh(o.ptr.data)))
  {
    hide GeomOk, M.Bytes, M.Filled, SaveBuffer.Grown, SaveBuffer.Steps, CtxOf;
    var s := o.shareStack;
    M.SavedWhen(a, s.Rec(), o.Rec(a));
    var sp := SavedSp(a, o.reg);
    if !(s.geom.ret >= sp && s.geom.high - s.geom.limit <= sp) {
      return false;
    }
    ok := SaveBytes(a, o, s, sp);
    if ok {
      s.owner := null;
      s.validSz := 0;
    }
  }

  /** reg[ACO_REG_IDX_SP] */
  method SavedSp(a: Arch, reg: array<Word>) returns (sp: nat)
    requires reg.Length == NumRegs(a)
    ensures sp == CtxOf(a, reg[..]).sp
  {
    sp := reg[if a.X64? then 5 else 1];
  }

  /** Lines 441-467: the bytes of c's buffer go back below the return slot. */
  method CopyIn(a: Arch, c: Co, s: ShareStack)
    requires s.Valid(a) && c.ptr != null && c.ptr.data != s.mem.data && c.validSz <= c.ptr.data.Length
    requires c.validSz + a.W() <= s.geom.limit
    modifies c`ctRestore, c`maxCpsz, s.mem.data
    ensures s.mem.data[..] == M.Placed(old(s.Rec()), c.ptr.data[..c.validSz])
    ensures c.ptr.data[..] == old(c.ptr.data[..])
    ensures c.ctRestore == old(c.ctRestore) + (if c.validSz > 0 then 1 else 0)
    ensures c.maxCpsz == Max(old(c.maxCpsz), c.validSz)
  {
    ghost var s0 := s.Rec();
    if c.validSz > 0 {
      CopyDropIn(a, s.mem, s.geom.ret - c.validSz - s.geom.ptr, c.ptr, 0, c.validSz);
      c.ctRestore := c.ctRestore + 1;
    }
    assert s.mem.data[..] == M.Placed(s0, c.ptr.data[..c.validSz]);
    if c.validSz > c.maxCpsz {
      c.maxCpsz := c.validSz;
    }
  }

  /** Lines 432-469 of aco_resume: c's bytes go back below the return slot and c owns the stack. */
  method Occupy(a: Arch, c: Co) returns (ok: bool)
    requires c.Valid(a) && c.shareStack.Valid(a) && c.ptr.data != c.shareStack.mem.data
    modifies c`ctRestore, c`maxCpsz, c.shareStack, c.shareStack.mem.data
    ensures ok <==> old(c.shareStack.owner) == null && old(c.validSz) + a.W() <= c.shareStack.geom.limit
    ensures ok ==> c.Valid(a) && c.Rec(a) == M.Restored(old(c.Rec(a)))
    ensures ok ==> c.shareStack.Rec() == M.Taken(a, old(c.shareStack.Rec()), c.id, old(c.Save()).bytes)
    ensures ok ==> c.shareStack.owner == c
  {
    var s := c.shareStack;
    if s.owner != null { return false; }
    if c.validSz > s.geom.limit - a.W() { return false; }
    CopyIn(a, c, s);
    s.validSz := c.validSz + a.W();
    s.owner := c;
    return true;
  }
}
