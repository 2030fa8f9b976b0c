/** acosw: saving one register file and loading another (libsrc/libaco/acosw.S:57-121). */
module Switch {
  import opened Platform

  /**
   * Where a piece of code continues: the instruction pointer, the stack pointer, the registers a callee
   * must preserve (section 3.2.1 of the System V AMD64 psABI), the x87 control word and MXCSR.
   */
  datatype Ctx = Ctx(ip: Word, sp: nat, callee: seq<Word>, cw: U16, mxcsr: U32)

  /** r12 r13 r14 r15 rbx rbp, or ebp edi esi ebx. */
  function NumCallee(a: Arch): nat { if a.X64? then 6 else 4 }

  predicate CtxOk(a: Arch, c: Ctx) { |c.callee| == NumCallee(a) }

  /** Length of aco_s.reg. */
  function NumRegs(a: Arch): nat { if a.X64? then 9 else 8 }

  /** The 8-byte slot after fnstcw at byte 0 and stmxcsr at byte 4; bytes 2 and 3 keep their value. */
  function FpuWord(slot: Word, cw: U16, mxcsr: U32): Word {
    cw + slot / 0x1_0000 % 0x1_0000 * 0x1_0000 + mxcsr * 0x1_0000_0000
  }

  /** reg[] read back as a context. */
  function CtxOf(a: Arch, reg: seq<Word>): (c: Ctx)
    requires |reg| == NumRegs(a)
    ensures CtxOk(a, c)
  {
    if a.X64? then
      Ctx(reg[4], reg[5], [reg[0], reg[1], reg[2], reg[3], reg[6], reg[7]],
          reg[8] % 0x1_0000, reg[8] / 0x1_0000_0000 % 0x1_0000_0000)
    else
      Ctx(reg[0], reg[1], [reg[2], reg[3], reg[4], reg[5]], reg[6] % 0x1_0000, reg[7] % 0x1_0000_0000)
  }

  /** reg[] after a context is stored over it. */
  function Stored(a: Arch, reg: seq<Word>, c: Ctx): (r: seq<Word>)
    requires |reg| == NumRegs(a) && CtxOk(a, c)
    ensures |r| == NumRegs(a)
  {
    if a.X64? then
      [c.callee[0], c.callee[1], c.callee[2], c.callee[3], c.ip, c.sp, c.callee[4], c.callee[5],
       FpuWord(reg[8], c.cw, c.mxcsr)]
    else
      [c.ip, c.sp, c.callee[0], c.callee[1], c.callee[2], c.callee[3],
       c.cw + reg[6] / 0x1_0000 * 0x1_0000, c.mxcsr]
  }

  /** Nothing of a context is lost in the register array, on either architecture. */
  lemma StoredThenLoaded(a: Arch, reg: seq<Word>, c: Ctx)
    requires |reg| == NumRegs(a) && CtxOk(a, c)
    ensures CtxOf(a, Stored(a, reg, c)) == c
  {
    hide FpuWord;
    var r := CtxOf(a, Stored(a, reg, c));
    assert r.callee == c.callee;
    if a.X64? {
      FpuWordLoads(reg[8], c.cw, c.mxcsr);
    } else {
      ControlWordLoads(reg[6], c.cw);
    }
  }

  lemma Halves(low: nat, high: nat)
    requires low < 0x1_0000_0000
    ensures (low + high * 0x1_0000_0000) / 0x1_0000_0000 == high
    ensures (low + high * 0x1_0000_0000) % 0x1_0000 == low % 0x1_0000
  {
    assert low + high * 0x1_0000_0000 == low + high * 0x1_0000 * 0x1_0000;
  }

  lemma FpuWordLoads(slot: Word, cw: U16, mxcsr: U32)
    ensures FpuWord(slot, cw, mxcsr) % 0x1_0000 == cw
    ensures FpuWord(slot, cw, mxcsr) / 0x1_0000_0000 % 0x1_0000_0000 == mxcsr
  {
    var mid := slot / 0x1_0000 % 0x1_0000;
    assert 0 <= mid < 0x1_0000;
    Halves(cw + mid * 0x1_0000, mxcsr);
  }

  lemma ControlWordLoads(slot: Word, cw: U16)
    ensures (cw + slot / 0x1_0000 * 0x1_0000) % 0x1_0000 == cw
  {
  }

  /** The registers acosw touches. On i386 r12-r15 are unused. */
  class Cpu {
    var ip: Word
    var sp: nat
    var bp: Word
    var bx: Word
    var di: Word
    var si: Word
    var r12: Word
    var r13: Word
    var r14: Word
    var r15: Word
    var fpucw: U16
    var mxcsr: U32

    /** The context execution is in. */
    function Now(a: Arch): (c: Ctx)
      reads this
      ensures CtxOk(a, c)
    {
      Ctx(ip, sp, if a.X64? then [r12, r13, r14, r15, bx, bp] else [bp, di, si, bx], fpucw, mxcsr)
    }

    /**
     * `call acosw`: the return address goes below the stack pointer; it is the word at [sp] on entry. That word
     * is dead after the switch, and is kept here in `retaddr` and not in the bytes of the stack.
     */
    method Call(a: Arch, target: Word) returns (retaddr: Word)
      requires sp >= a.W()
      modifies this
      ensures retaddr == old(ip) && ip == target && sp + a.W() == old(sp)
      ensures CtxOk(a, old(Now(a))) && Now(a) == old(Now(a)).(ip := target, sp := sp)
    {
      retaddr := ip;
      sp := sp - a.W();
      ip := target;
    }

    /** Any computation between two switches: every register may change. */
    method Compute(a: Arch, c: Ctx)
      requires CtxOk(a, c)
      modifies this
      ensures Now(a) == c
    {
      ip, sp, fpucw, mxcsr := c.ip, c.sp, c.cw, c.mxcsr;
      if a.X64? {
        r12, r13, r14, r15, bx, bp := c.callee[0], c.callee[1], c.callee[2], c.callee[3], c.callee[4], c.callee[5];
      } else {
        bp, di, si, bx := c.callee[0], c.callee[1], c.callee[2], c.callee[3];
      }
    }
  }

  method SaveX64(cpu: Cpu, retaddr: Word, from: array<Word>)
    requires from.Length == 9
    modifies from
    ensures from[..] == Stored(X64, old(from[..]), cpu.Now(X64).(ip := retaddr, sp := cpu.sp + 8))
  {
    hide FpuWord;
    from[0] := cpu.r12;
    from[1] := cpu.r13;
    from[2] := cpu.r14;
    from[3] := cpu.r15;
    from[4] := retaddr;
    from[5] := cpu.sp + 8;
    from[6] := cpu.bx;
    from[7] := cpu.bp;
    from[8] := FpuWord(from[8], cpu.fpucw, cpu.mxcsr);
    assert from[..] == [from[0], from[1], from[2], from[3], from[4], from[5], from[6], from[7], from[8]];
  }

  method LoadX64(cpu: Cpu, to: array<Word>)
    requires to.Length == 9
    modifies cpu
    ensures cpu.Now(X64) == CtxOf(X64, to[..])
  {
    cpu.r12 := to[0];
    cpu.r13 := to[1];
    cpu.r14 := to[2];
    cpu.r15 := to[3];
    cpu.bx := to[6];
    cpu.bp := to[7];
    cpu.fpucw := to[8] % 0x1_0000;
    cpu.mxcsr := to[8] / 0x1_0000_0000 % 0x1_0000_0000;
    cpu.sp := to[5];
    cpu.ip := to[4];
  }

  method SaveI386(cpu: Cpu, retaddr: Word, from: array<Word>)
    requires from.Length == 8
    modifies from
    ensures from[..] == Stored(I386, old(from[..]), cpu.Now(I386).(ip := retaddr, sp := cpu.sp + 4))
  {
    from[2] := cpu.bp;
    from[1] := cpu.sp + 4;
    from[0] := retaddr;
    from[3] := cpu.di;
    from[4] := cpu.si;
    from[5] := cpu.bx;
    from[6] := cpu.fpucw + from[6] / 0x1_0000 * 0x1_0000;
    from[7] := cpu.mxcsr;
  }

  method LoadI386(cpu: Cpu, to: array<Word>)
    requires to.Length == 8
    modifies cpu
    ensures cpu.Now(I386) == CtxOf(I386, to[..])
  {
    cpu.sp := to[1];
    cpu.bp := to[2];
    cpu.ip := to[0];
    cpu.di := to[3];
    cpu.si := to[4];
    cpu.bx := to[5];
    cpu.fpucw := to[6] % 0x1_0000;
    cpu.mxcsr := to[7] % 0x1_0000_0000;
  }

  /** acosw(from, to), one store or load per register; `retaddr` is the word at [sp]. */
  method Acosw(a: Arch, cpu: Cpu, retaddr: Word, from: array<Word>, to: array<Word>)
    requires from.Length == to.Length == NumRegs(a) && from != to
    modifies cpu, from
    ensures from[..] == Stored(a, old(from[..]), old(cpu.Now(a)).(ip := retaddr, sp := old(cpu.sp) + a.W()))
    ensures cpu.Now(a) == CtxOf(a, to[..])
    ensures a.X64? ==>
              && from[..8] == old([cpu.r12, cpu.r13, cpu.r14, cpu.r15, retaddr, cpu.sp + 8, cpu.bx, cpu.bp])
              && from[8] % 0x1_0000 == old(cpu.fpucw) && from[8] / 0x1_0000_0000 % 0x1_0000_0000 == old(cpu.mxcsr)
              && [cpu.r12, cpu.r13, cpu.r14, cpu.r15, cpu.ip, cpu.sp, cpu.bx, cpu.bp] == to[..8]
              && cpu.fpucw == to[8] % 0x1_0000 && cpu.mxcsr == to[8] / 0x1_0000_0000 % 0x1_0000_0000
    ensures a.I386? ==>
              && from[..6] == old([retaddr, cpu.sp + 4, cpu.bp, cpu.di, cpu.si, cpu.bx])
              && from[6] % 0x1_0000 == old(cpu.fpucw) && from[7] == old(cpu.mxcsr)
              && [cpu.ip, cpu.sp, cpu.bp, cpu.di, cpu.si, cpu.bx] == to[..6]
              && cpu.fpucw == to[6] % 0x1_0000 && cpu.mxcsr == to[7] % 0x1_0000_0000
  {
    ghost var slots, now := from[..], cpu.Now(a);
    if a.X64? {
      SaveX64(cpu, retaddr, from);
      FpuWordLoads(slots[8], now.cw, now.mxcsr);
      LoadX64(cpu, to);
    } else {
      SaveI386(cpu, retaddr, from);
      ControlWordLoads(slots[6], now.cw);
      LoadI386(cpu, to);
    }
  }
}
