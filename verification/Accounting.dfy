/** The accounting allocator: jut_malloc, jut_realloc and jut_free under policy 4 (src/ff_mem.cpp:39-158). */
module Accounting {
  import opened Platform

  /** ALIGN: the header that precedes every block. */
  const HEADER: nat := 64
  const WRAP: nat := 0x1_0000_0000

  /**
   * What libc holds and what the decoders count. `blocks` maps the base of every libc block to its bytes,
   * header included; used[c] and peak[c] are m_mem_used and memused_max of decoder c, both uint32_t. `arch`
   * gives the width of a size_t.
   */
  datatype Mem = Mem(arch: Arch, blocks: map<nat, seq<Byte>>, used: seq<U32>, peak: seq<U32>)

  /**
   * A call, with the thread's decoder if it has one and what libc does: `at` is the base it returns, None for
   * NULL, and `fill` what the memory happens to contain. A realloc to 0 bytes that returns NULL may free the
   * block, as it does in glibc; then `gone` is set. A pointer of 0 is NULL.
   */
  datatype Op =
    | Malloc(ctx: Option<nat>, size: nat, at: Option<nat>, fill: seq<Byte>)
    | Realloc(ctx: Option<nat>, ptr: nat, size: nat, at: Option<nat>, fill: seq<Byte>, gone: bool)
    | Free(ctx: Option<nat>, ptr: nat)
    | Write(ptr: nat, off: nat, bytes: seq<Byte>)

  predicate Live(blocks: map<nat, seq<Byte>>, ptr: nat) { ptr >= HEADER && ptr - HEADER in blocks }

  // ---------------------------------------------------------------- blocks behind a header

  /** hdr->size: the uint32_t in the first four bytes. */
  function HdrSize(raw: seq<Byte>): nat { Decode(raw) }

  /** hdr->size = size, with its conversion to uint32_t. */
  function WithSize(raw: seq<Byte>, size: nat): (r: seq<Byte>)
    requires |raw| >= 4
    ensures |r| == |raw| && HdrSize(r) == size % WRAP && forall i | 4 <= i < |raw| :: r[i] == raw[i]
  {
    Decodes(size % WRAP, raw[4..]);
    Encode(size % WRAP) + raw[4..]
  }

  /** What realloc leaves of a block: as much as fits, and whatever memory follows. */
  function Resized(was: seq<Byte>, n: nat, fill: seq<Byte>): (r: seq<Byte>)
    requires |fill| == n
    ensures |r| == n
  {
    if n <= |was| then was[..n] else was + fill[|was|..]
  }

  /** size + ALIGN in a size_t. */
  function Asked(a: Arch, size: nat): (n: nat)
    requires size < a.Space()
    ensures n == if size + HEADER < a.Space() then size + HEADER else size + HEADER - a.Space()
  {
    if size + HEADER < a.Space() then size + HEADER else size + HEADER - a.Space()
  }

  /** hdr->size = size in what libc gave; in fewer than four bytes it would not even fit. */
  function Stamped(raw: seq<Byte>, size: nat): (r: seq<Byte>)
    ensures |r| == |raw|
    ensures |raw| >= HEADER ==> r == WithSize(raw, size)
  {
    if |raw| >= 4 then WithSize(raw, size) else raw
  }

  predicate BlockOk(raw: seq<Byte>) { |raw| >= HEADER && HdrSize(raw) == (|raw| - HEADER) % WRAP }

  predicate MemOk(m: Mem) {
    && |m.used| == |m.peak|
    && (forall b | b in m.blocks :: b > 0 && BlockOk(m.blocks[b]))
  }

  /** What the caller owes, and what libc grants: live pointers, writes inside the block, bases not in use. */
  predicate Legal(m: Mem, op: Op) {
    match op
    case Malloc(ctx, size, at, fill) =>
      && CtxOk(m, ctx) && size < m.arch.Space() && |fill| == Asked(m.arch, size)
      && (at.Some? ==> at.value > 0 && at.value !in m.blocks)
    case Realloc(ctx, ptr, size, at, fill, gone) =>
      && CtxOk(m, ctx) && size < m.arch.Space() && |fill| == Asked(m.arch, size)
      && (ptr == 0 || Live(m.blocks, ptr))
      && (at.Some? ==> at.value > 0 && (at.value !in m.blocks || at.value + HEADER == ptr))
      && (gone ==> ptr != 0 && Asked(m.arch, size) == 0 && at.None?)
    case Free(ctx, ptr) => CtxOk(m, ctx) && (ptr == 0 || Live(m.blocks, ptr))
    case Write(ptr, off, bytes) =>
      Live(m.blocks, ptr) && HEADER + off + |bytes| <= |m.blocks[ptr - HEADER]|
  }

  predicate CtxOk(m: Mem, ctx: Option<nat>) { ctx.Some? ==> ctx.value < |m.used| }

  function Add32(x: U32, y: nat): U32 { (x + y) % WRAP }

  function Sub32(x: U32, y: U32): (r: U32)
    ensures r == (x - y) % WRAP
  {
    if x >= y then x - y else x - y + WRAP
  }

  /** Adding to the count of the calling thread's decoder, if there is one. */
  function Charged(used: seq<U32>, ctx: Option<nat>, size: nat): (r: seq<U32>)
    requires ctx.Some? ==> ctx.value < |used|
    ensures |r| == |used|
  {
    if ctx.None? then used else used[ctx.value := Add32(used[ctx.value], size)]
  }

  function Credited(used: seq<U32>, ctx: Option<nat>, hdr: U32): (r: seq<U32>)
    requires ctx.Some? ==> ctx.value < |used|
    ensures |r| == |used|
  {
    if ctx.None? then used else used[ctx.value := Sub32(used[ctx.value], hdr)]
  }

  function Raised(peak: seq<U32>, ctx: Option<nat>, used: seq<U32>): seq<U32>
    requires ctx.Some? ==> ctx.value < |used| == |peak|
  {
    if ctx.None? then peak else peak[ctx.value := Max(peak[ctx.value], used[ctx.value])]
  }

  /** One call: the memory after it, and the pointer it returns. */
  function Step(m: Mem, op: Op): (Mem, nat)
    requires MemOk(m) && Legal(m, op)
  {
    match op
    case Malloc(ctx, size, at, fill) =>
      if at.None? then (m, 0)
      else
        var used := Charged(m.used, ctx, size);
        var blocks := m.blocks[at.value := Stamped(fill, size)];
        (m.(blocks := blocks, used := used, peak := Raised(m.peak, ctx, used)), at.value + HEADER)
    case Realloc(ctx, ptr, size, at, fill, gone) =>
      if ptr == 0 && size == 0 then (m, 0)
      else
        var raw := if ptr == 0 then [] else m.blocks[ptr - HEADER];
        var used := if ptr == 0 then m.used else Credited(m.used, ctx, HdrSize(raw));
        if gone then (m.(blocks := m.blocks - {ptr - HEADER}, used := used), 0)
        else if at.None? then (m.(used := used), 0)
        else
          var rest := if ptr == 0 then m.blocks else m.blocks - {ptr - HEADER};
          var block := Stamped(Resized(raw, Asked(m.arch, size), fill), size);
          (m.(blocks := rest[at.value := block], used := Charged(used, ctx, size % WRAP)), at.value + HEADER)
    case Free(ctx, ptr) =>
      if ptr == 0 then (m, 0)
      else
        var used := Credited(m.used, ctx, HdrSize(m.blocks[ptr - HEADER]));
        (m.(blocks := m.blocks - {ptr - HEADER}, used := used), 0)
    case Write(ptr, off, bytes) =>
      var raw := m.blocks[ptr - HEADER];
      var at := HEADER + off;
      (m.(blocks := m.blocks[ptr - HEADER := raw[..at] + bytes + raw[at + |bytes|..]]), 0)
  }

  /** The call asks libc for memory, and size + ALIGN wraps in a size_t. */
  predicate Wraps(a: Arch, op: Op) {
    match op
    case Malloc(_, size, _, _) => size + HEADER >= a.Space()
    case Realloc(_, ptr, size, _, _, _) => (ptr != 0 || size != 0) && size + HEADER >= a.Space()
    case _ => false
  }

  /** libc grants such a request: the block is shorter than its header. */
  predicate Short(a: Arch, op: Op) { Wraps(a, op) && op.at.Some? }

  /** The request wraps to exactly 0 bytes and libc frees the block, while the NULL says that the call failed. */
  predicate Dangles(op: Op) { op.Realloc? && op.gone }

  predicate Breaks(a: Arch, op: Op) { Short(a, op) || Dangles(op) }

  // ---------------------------------------------------------------- plain malloc, realloc and free

  /** What the C library promises of a call on pointers and contents: its result r and the heap p' after it. */
  predicate PlainAllows(p: map<nat, seq<Byte>>, op: Op, r: nat, p': map<nat, seq<Byte>>) {
    match op
    case Malloc(_, size, _, _) =>
      (r == 0 && p' == p) ||
      (r != 0 && r !in p && r in p' && |p'[r]| == size && p' == p[r := p'[r]])
    case Realloc(_, ptr, size, _, _, _) =>
      (ptr == 0 || ptr in p) &&
      ((r == 0 && p' == p) ||
       ((ptr != 0 || size != 0) && r != 0 && (r == ptr || r !in p) && r in p' && |p'[r]| == size
        && (ptr != 0 ==> SamePrefix(p[ptr], p'[r])) && p' == (p - {ptr})[r := p'[r]]))
    case Free(_, ptr) => (ptr == 0 || ptr in p) && r == 0 && p' == p - {ptr}
    case Write(ptr, off, bytes) =>
      && ptr in p && off + |bytes| <= |p[ptr]| && r == 0
      && p' == p[ptr := p[ptr][..off] + bytes + p[ptr][off + |bytes|..]]
  }

  predicate SamePrefix(x: seq<Byte>, y: seq<Byte>) {
    forall i | 0 <= i < |x| && i < |y| :: y[i] == x[i]
  }

  predicate PlainLegal(p: map<nat, seq<Byte>>, op: Op) {
    match op
    case Malloc(_, size, at, fill) => at.Some? ==> |fill| == size + HEADER
    case Realloc(_, ptr, size, at, fill, _) => (at.Some? ==> |fill| == size + HEADER) && (ptr == 0 || ptr in p)
    case Free(_, ptr) => ptr == 0 || ptr in p
    case Write(ptr, off, bytes) => ptr in p && off + |bytes| <= |p[ptr]|
  }

  /** The plain heap after a call that finds the memory libc gave. */
  function PlainStep(p: map<nat, seq<Byte>>, op: Op): map<nat, seq<Byte>>
    requires PlainLegal(p, op)
  {
    match op
    case Malloc(_, size, at, fill) => if at.None? then p else p[at.value + HEADER := fill[HEADER..]]
    case Realloc(_, ptr, size, at, fill, _) =>
      if (ptr == 0 && size == 0) || at.None? then p
      else
        var was := if ptr == 0 then [] else p[ptr];
        (p - {ptr})[at.value + HEADER := Resized(was, size, fill[HEADER..])]
    case Free(_, ptr) => p - {ptr}
    case Write(ptr, off, bytes) => p[ptr := p[ptr][..off] + bytes + p[ptr][off + |bytes|..]]
  }

  /** The heap with headers and the plain heap p hold the same contents under the same pointers. */
  ghost predicate Same(blocks: map<nat, seq<Byte>>, p: map<nat, seq<Byte>>) {
    forall ptr: nat :: SameAt(blocks, p, ptr)
  }

  predicate SameAt(blocks: map<nat, seq<Byte>>, p: map<nat, seq<Byte>>, ptr: nat) {
    && (ptr in p <==> Live(blocks, ptr))
    && (ptr in p ==> |blocks[ptr - HEADER]| >= HEADER && p[ptr] == blocks[ptr - HEADER][HEADER..])
  }

  lemma SamePut(blocks: map<nat, seq<Byte>>, p: map<nat, seq<Byte>>, b: nat, raw: seq<Byte>)
    requires Same(blocks, p) && |raw| >= HEADER
    ensures Same(blocks[b := raw], p[b + HEADER := raw[HEADER..]])
  {
    var blocks', p' := blocks[b := raw], p[b + HEADER := raw[HEADER..]];
    forall ptr: nat ensures SameAt(blocks', p', ptr) {
      assert SameAt(blocks, p, ptr);
    }
  }

  lemma SameDrop(blocks: map<nat, seq<Byte>>, p: map<nat, seq<Byte>>, ptr: nat)
    requires Same(blocks, p) && Live(blocks, ptr)
    ensures Same(blocks - {ptr - HEADER}, p - {ptr})
  {
    var blocks', p' := blocks - {ptr - HEADER}, p - {ptr};
    forall q: nat ensures SameAt(blocks', p', q) {
      assert SameAt(blocks, p, q);
    }
  }

  lemma NoNull(blocks: map<nat, seq<Byte>>, p: map<nat, seq<Byte>>)
    requires Same(blocks, p)
    ensures 0 !in p && p - {0} == p
  {
    assert SameAt(blocks, p, 0);
  }

  /** Every call but a granted one that wraps keeps each header equal to its block's size (modulo 2^32). */
  lemma StepKeepsMem(m: Mem, op: Op)
    requires MemOk(m) && Legal(m, op)
    ensures MemOk(Step(m, op).0) <==> !Short(m.arch, op)
    ensures Step(m, op).0.arch == m.arch && |Step(m, op).0.used| == |m.used|
  {
    if op.Write? {
      var raw := m.blocks[op.ptr - HEADER];
      var raw' := Step(m, op).0.blocks[op.ptr - HEADER];
      assert raw'[0] == raw[0] && raw'[1] == raw[1] && raw'[2] == raw[2] && raw'[3] == raw[3];
    } else if Short(m.arch, op) {
      assert op.at.value in Step(m, op).0.blocks;
      assert !BlockOk(Step(m, op).0.blocks[op.at.value]);
    }
  }

  /** The call does on p what the C library promises, and leaves the two heaps the same. */
  ghost predicate Refines(m: Mem, p: map<nat, seq<Byte>>, op: Op)
    requires MemOk(m) && Legal(m, op)
  {
    exists p' :: PlainAllows(p, op, Step(m, op).1, p') && Same(Step(m, op).0.blocks, p')
  }

  /** What holds of a call that does not break: the plain heap it goes to, and that this is allowed. */
  predicate IsPlain(p: map<nat, seq<Byte>>, op: Op, r: nat) {
    PlainLegal(p, op) && PlainAllows(p, op, r, PlainStep(p, op))
  }

  lemma MallocIsPlain(m: Mem, p: map<nat, seq<Byte>>, op: Op)
    requires MemOk(m) && op.Malloc? && Legal(m, op) && Same(m.blocks, p) && !Breaks(m.arch, op)
    ensures IsPlain(p, op, Step(m, op).1) && Same(Step(m, op).0.blocks, PlainStep(p, op))
  {
    if op.at.Some? {
      SamePut(m.blocks, p, op.at.value, WithSize(op.fill, op.size));
      assert WithSize(op.fill, op.size)[HEADER..] == op.fill[HEADER..];
      assert SameAt(m.blocks, p, op.at.value + HEADER);
    }
  }

  lemma FreeIsPlain(m: Mem, p: map<nat, seq<Byte>>, op: Op)
    requires MemOk(m) && op.Free? && Legal(m, op) && Same(m.blocks, p)
    ensures IsPlain(p, op, Step(m, op).1) && Same(Step(m, op).0.blocks, PlainStep(p, op))
  {
    assert SameAt(m.blocks, p, op.ptr);
    if op.ptr != 0 { SameDrop(m.blocks, p, op.ptr); } else { NoNull(m.blocks, p); }
  }

  lemma WriteIsPlain(m: Mem, p: map<nat, seq<Byte>>, op: Op)
    requires MemOk(m) && op.Write? && Legal(m, op) && Same(m.blocks, p)
    ensures IsPlain(p, op, Step(m, op).1) && Same(Step(m, op).0.blocks, PlainStep(p, op))
  {
    assert SameAt(m.blocks, p, op.ptr);
    var raw := m.blocks[op.ptr - HEADER];
    var at := HEADER + op.off;
    var raw' := raw[..at] + op.bytes + raw[at + |op.bytes|..];
    SamePut(m.blocks, p, op.ptr - HEADER, raw');
    assert raw'[HEADER..] == p[op.ptr][..op.off] + op.bytes + p[op.ptr][op.off + |op.bytes|..];
  }

  lemma ReallocMoves(m: Mem, p: map<nat, seq<Byte>>, op: Op)
    requires MemOk(m) && op.Realloc? && Legal(m, op) && op.at.Some? && (op.ptr != 0 || op.size != 0)
    requires Same(m.blocks, p) && !Breaks(m.arch, op)
    ensures PlainLegal(p, op) && Same(Step(m, op).0.blocks, PlainStep(p, op))
  {
    assert op.ptr != 0 ==> SameAt(m.blocks, p, op.ptr);
    var raw := if op.ptr == 0 then [] else m.blocks[op.ptr - HEADER];
    var was := if op.ptr == 0 then [] else p[op.ptr];
    var rest := if op.ptr == 0 then m.blocks else m.blocks - {op.ptr - HEADER};
    var block := WithSize(Resized(raw, op.size + HEADER, op.fill), op.size);
    if op.ptr == 0 {
      NoNull(m.blocks, p);
    } else {
      SameDrop(m.blocks, p, op.ptr);
    }
    SamePut(rest, p - {op.ptr}, op.at.value, block);
    assert block[HEADER..] == Resized(raw, op.size + HEADER, op.fill)[HEADER..];
    ResizedBody(raw, op.size, op.fill, was);
  }

  lemma ReallocIsPlain(m: Mem, p: map<nat, seq<Byte>>, op: Op)
    requires MemOk(m) && op.Realloc? && Legal(m, op) && Same(m.blocks, p) && !Breaks(m.arch, op)
    ensures IsPlain(p, op, Step(m, op).1) && Same(Step(m, op).0.blocks, PlainStep(p, op))
  {
    assert op.ptr != 0 ==> SameAt(m.blocks, p, op.ptr);
    if op.at.Some? && (op.ptr != 0 || op.size != 0) {
      ReallocMoves(m, p, op);
      assert SameAt(m.blocks, p, op.at.value + HEADER);
      assert SamePrefix(if op.ptr == 0 then [] else p[op.ptr], PlainStep(p, op)[op.at.value + HEADER]);
    }
  }

  lemma WrapIsNotPlain(m: Mem, p: map<nat, seq<Byte>>, op: Op)
    requires MemOk(m) && Legal(m, op) && Same(m.blocks, p) && Breaks(m.arch, op)
    ensures !Refines(m, p, op)
  {
    var (m', r) := Step(m, op);
    forall p' | PlainAllows(p, op, r, p') ensures !Same(m'.blocks, p') {
      if Dangles(op) {
        assert SameAt(m.blocks, p, op.ptr);
        assert !SameAt(m'.blocks, p', op.ptr);
      } else {
        assert |m'.blocks[op.at.value]| < HEADER;
        assert r in p' && !SameAt(m'.blocks, p', r);
      }
    }
  }

  /** For every live pointer there is such a size: NULL comes back, and the block is gone all the same. */
  lemma NullButFreed(m: Mem, ctx: Option<nat>, ptr: nat)
    requires MemOk(m) && CtxOk(m, ctx) && Live(m.blocks, ptr)
    ensures var op := Realloc(ctx, ptr, m.arch.Space() - 64, None, [], true);
            && Legal(m, op) && Dangles(op)
            && Step(m, op).1 == 0 && !Live(Step(m, op).0.blocks, ptr)
  {
  }

  /**
   * Behind the headers a call is plain malloc, realloc or free, the same pointer naming the same contents, if
   * and only if it is neither a granted request whose size + 64 wraps, where the pointer lies past the block,
   * nor a realloc whose size + 64 is 2^64 (2^32) and frees the block, where the pointer dangles.
   */
  lemma StepIsPlain(m: Mem, p: map<nat, seq<Byte>>, op: Op)
    requires MemOk(m) && Legal(m, op) && Same(m.blocks, p)
    ensures Refines(m, p, op) <==> !Breaks(m.arch, op)
    ensures Breaks(m.arch, op) <==>
              || ((op.Malloc? || (op.Realloc? && (op.ptr != 0 || op.size != 0))) && op.at.Some?
                  && op.size + 64 >= m.arch.Space())
              || (op.Realloc? && op.gone)
  {
    if Breaks(m.arch, op) {
      WrapIsNotPlain(m, p, op);
    } else {
      match op {
        case Malloc(_, _, _, _) => MallocIsPlain(m, p, op);
        case Realloc(_, _, _, _, _, _) => ReallocIsPlain(m, p, op);
        case Free(_, _) => FreeIsPlain(m, p, op);
        case Write(_, _, _) => WriteIsPlain(m, p, op);
      }
    }
  }

  /** The same call by the same thread, whatever libc does. */
  predicate SameRequest(op: Op, op': Op) {
    match op
    case Malloc(ctx, size, _, _) => op'.Malloc? && op'.ctx == ctx && op'.size == size
    case Realloc(ctx, ptr, size, _, _, _) => op'.Realloc? && op'.ctx == ctx && op'.ptr == ptr && op'.size == size
    case _ => op' == op
  }

  /** Some base is free. */
  lemma FreeBase(bases: set<nat>) returns (b: nat)
    ensures b > 0 && forall x | x in bases :: x < b
    decreases |bases|
  {
    if bases == {} {
      b := 1;
    } else {
      var x :| x in bases;
      var c := FreeBase(bases - {x});
      b := if x < c then c else x + 1;
      forall y | y in bases ensures y < b {
        assert y == x || y in bases - {x};
      }
    }
  }

  /** Before the call: it is plain whatever libc does if and only if size + 64 does not wrap in a size_t. */
  lemma PlainForSureIff(m: Mem, p: map<nat, seq<Byte>>, op: Op)
    requires MemOk(m) && Legal(m, op) && Same(m.blocks, p)
    ensures (forall op' | SameRequest(op, op') && Legal(m, op') :: Refines(m, p, op')) <==>
              (op.Malloc? || (op.Realloc? && (op.ptr != 0 || op.size != 0)) ==> op.size + 64 < m.arch.Space())
  {
    forall op' | SameRequest(op, op') && Legal(m, op') ensures Refines(m, p, op') <==> !Breaks(m.arch, op') {
      StepIsPlain(m, p, op');
    }
    if Wraps(m.arch, op) {
      var b := FreeBase(m.blocks.Keys);
      assert b !in m.blocks;
      var granted :=
        match op
        case Malloc(ctx, size, _, fill) => Malloc(ctx, size, Some(b), fill)
        case Realloc(ctx, ptr, size, _, fill, _) => Realloc(ctx, ptr, size, Some(b), fill, false)
        case _ => op;
      assert SameRequest(op, granted) && Legal(m, granted) && Breaks(m.arch, granted);
    }
  }

  lemma ResizedBody(raw: seq<Byte>, size: nat, fill: seq<Byte>, was: seq<Byte>)
    requires |fill| == size + HEADER && if raw == [] then was == [] else |raw| >= HEADER && was == raw[HEADER..]
    ensures Resized(raw, size + HEADER, fill)[HEADER..] == Resized(was, size, fill[HEADER..])
  {
  }

  // ---------------------------------------------------------------- the counts

  function UsedSum(used: seq<U32>): nat {
    if used == [] then 0 else used[0] + UsedSum(used[1..])
  }

  lemma {:induction false} UsedSumPut(used: seq<U32>, i: nat, x: U32)
    requires i < |used|
    ensures UsedSum(used[i := x]) == UsedSum(used) - used[i] + x
  {
    if i == 0 {
      assert used[0 := x][1..] == used[1..];
    } else {
      assert used[i := x][1..] == used[1..][i - 1 := x];
      UsedSumPut(used[1..], i - 1, x);
    }
  }

  function UserSize(raw: seq<Byte>): nat { if |raw| < HEADER then 0 else |raw| - HEADER }

  /** The sizes asked for of all live blocks together. */
  ghost function LiveSum(blocks: map<nat, seq<Byte>>): nat
    decreases |blocks|
  {
    if blocks == map[] then 0
    else
      var b :| b in blocks;
      UserSize(blocks[b]) + LiveSum(blocks - {b})
  }

  lemma {:induction false} LiveSumDrop(blocks: map<nat, seq<Byte>>, b: nat)
    requires b in blocks
    ensures LiveSum(blocks) == UserSize(blocks[b]) + LiveSum(blocks - {b})
    decreases |blocks|
  {
    var c :| c in blocks && LiveSum(blocks) == UserSize(blocks[c]) + LiveSum(blocks - {c});
    if c != b {
      LiveSumDrop(blocks - {c}, b);
      LiveSumDrop(blocks - {b}, c);
      assert blocks - {c} - {b} == blocks - {b} - {c};
    }
  }

  lemma LiveSumPut(blocks: map<nat, seq<Byte>>, b: nat, raw: seq<Byte>)
    ensures LiveSum(blocks[b := raw]) == UserSize(raw) + LiveSum(blocks - {b})
  {
    LiveSumDrop(blocks[b := raw], b);
    assert blocks[b := raw] - {b} == blocks - {b};
  }

  /** How far the decoders' counts are from the truth. */
  ghost function Balance(m: Mem): int { UsedSum(m.used) - LiveSum(m.blocks) }

  /** Equality of unsigned 32-bit quantities. */
  predicate Congruent(x: int, y: int) { (x - y) % WRAP == 0 }

  lemma Remainder(x: int)
    ensures Congruent(x % WRAP, x)
  {
    var q := x / WRAP;
    assert x == q * WRAP + x % WRAP;
    Multiple(-q);
  }

  lemma Multiple(q: int)
    ensures (q * WRAP) % WRAP == 0
  {
  }

  lemma Itself(x: int)
    ensures Congruent(x, x)
  {
  }

  lemma Chain(x: int, y: int, z: int)
    requires Congruent(x, y) && Congruent(y, z)
    ensures Congruent(x, z)
  {
    Sums(x, y, y, z);
  }

  lemma Sums(x: int, y: int, u: int, v: int)
    requires Congruent(x, y) && Congruent(u, v)
    ensures Congruent(x + u, y + v) && Congruent(x - u, y - v)
  {
  }

  /** The size of the block a pointer names; NULL names none. */
  function SizeAt(m: Mem, ptr: nat): nat {
    if Live(m.blocks, ptr) then UserSize(m.blocks[ptr - HEADER]) else 0
  }

  /** The user bytes a granted request really gets: none if it wraps. */
  function Gained(a: Arch, size: nat): nat { if size + HEADER < a.Space() then size else 0 }

  /**
   * What one call makes the counts miss: everything without a decoder, the old size when realloc fails and
   * keeps the block, and the bytes a wrapped request is charged for and does not get.
   */
  function Missed(m: Mem, op: Op): int {
    match op
    case Malloc(ctx, size, at, _) =>
      if at.None? then 0 else (if ctx.Some? then size else 0) - Gained(m.arch, size)
    case Realloc(ctx, ptr, size, at, _, gone) =>
      if ptr == 0 && size == 0 then 0
      else if gone then (if ctx.Some? then 0 else SizeAt(m, ptr))
      else if at.None? then (if ctx.Some? then 0 - SizeAt(m, ptr) else 0)
      else if ctx.Some? then size - Gained(m.arch, size)
      else SizeAt(m, ptr) - Gained(m.arch, size)
    case Free(ctx, ptr) => if ctx.None? then SizeAt(m, ptr) else 0
    case Write(_, _, _) => 0
  }

  lemma AddIs(x: U32, y: nat)
    ensures Congruent(Add32(x, y), x + y)
  {
    Remainder(x + y);
  }

  lemma SubIs(x: U32, y: U32)
    ensures Congruent(Sub32(x, y), x - y)
  {
    Remainder(x - y);
  }

  /** Changing one summand by something congruent to d changes the sum by something congruent to d. */
  lemma SumMoves(used: seq<U32>, i: nat, x: U32, d: int)
    requires i < |used| && Congruent(x, used[i] + d)
    ensures Congruent(UsedSum(used[i := x]), UsedSum(used) + d)
  {
    hide Congruent, UsedSum;
    UsedSumPut(used, i, x);
    var rest := UsedSum(used) - used[i];
    Itself(rest);
    Sums(x, used[i] + d, rest, rest);
  }

  lemma ChargedSum(used: seq<U32>, ctx: Option<nat>, size: nat, n: nat)
    requires (ctx.Some? ==> ctx.value < |used|) && Congruent(size, n)
    ensures Congruent(UsedSum(Charged(used, ctx, size)), UsedSum(used) + if ctx.Some? then n else 0)
  {
    hide Congruent, UsedSum, Add32;
    if ctx.Some? {
      var x := used[ctx.value];
      AddIs(x, size);
      Itself(x);
      Sums(x, x, size, n);
      Chain(Add32(x, size), x + size, x + n);
      SumMoves(used, ctx.value, Add32(x, size), n);
    } else {
      Itself(UsedSum(used));
    }
  }

  lemma CreditedSum(used: seq<U32>, ctx: Option<nat>, hdr: U32, size: nat)
    requires (ctx.Some? ==> ctx.value < |used|) && hdr == size % WRAP
    ensures Congruent(UsedSum(Credited(used, ctx, hdr)), UsedSum(used) - if ctx.Some? then size else 0)
  {
    hide Congruent, UsedSum, Sub32;
    if ctx.Some? {
      var x := used[ctx.value];
      SubIs(x, hdr);
      Itself(x);
      Remainder(size);
      Sums(x, x, hdr, size);
      Chain(Sub32(x, hdr), x - hdr, x - size);
      SumMoves(used, ctx.value, Sub32(x, hdr), 0 - size);
    } else {
      Itself(UsedSum(used));
    }
  }

  /** What one call adds to the live bytes. */
  function LiveDelta(m: Mem, op: Op): int {
    match op
    case Malloc(_, size, at, _) => if at.Some? then Gained(m.arch, size) else 0
    case Realloc(_, ptr, size, at, _, gone) =>
      if gone then 0 - SizeAt(m, ptr)
      else if at.None? || (ptr == 0 && size == 0) then 0 else Gained(m.arch, size) - SizeAt(m, ptr)
    case Free(_, ptr) => 0 - SizeAt(m, ptr)
    case Write(_, _, _) => 0
  }

  lemma LiveStep(m: Mem, op: Op)
    requires MemOk(m) && Legal(m, op)
    ensures LiveSum(Step(m, op).0.blocks) == LiveSum(m.blocks) + LiveDelta(m, op)
  {
    hide LiveSum, WithSize, Stamped, Resized, Charged, Credited, Raised;
    match op
    case Malloc(_, size, at, fill) =>
      if at.Some? {
        LiveSumPut(m.blocks, at.value, Stamped(fill, size));
        assert m.blocks - {at.value} == m.blocks;
      }
    case Realloc(_, ptr, size, at, fill, gone) =>
      if gone {
        LiveSumDrop(m.blocks, ptr - HEADER);
      } else if at.Some? && (ptr != 0 || size != 0) {
        LiveRealloc(m, op);
      }
    case Free(_, ptr) =>
      if ptr != 0 { LiveSumDrop(m.blocks, ptr - HEADER); }
    case Write(ptr, _, _) =>
      LiveSumDrop(m.blocks, ptr - HEADER);
      LiveSumPut(m.blocks, ptr - HEADER, Step(m, op).0.blocks[ptr - HEADER]);
  }

  lemma LiveRealloc(m: Mem, op: Op)
    requires MemOk(m) && op.Realloc? && Legal(m, op) && op.at.Some? && (op.ptr != 0 || op.size != 0)
    ensures LiveSum(Step(m, op).0.blocks) == LiveSum(m.blocks) + Gained(m.arch, op.size) - SizeAt(m, op.ptr)
  {
    hide LiveSum, WithSize, Stamped, Resized, Charged, Credited, Raised;
    var raw := if op.ptr == 0 then [] else m.blocks[op.ptr - HEADER];
    var rest := if op.ptr == 0 then m.blocks else m.blocks - {op.ptr - HEADER};
    if op.ptr != 0 { LiveSumDrop(m.blocks, op.ptr - HEADER); }
    LiveSumPut(rest, op.at.value, Stamped(Resized(raw, Asked(m.arch, op.size), op.fill), op.size));
    assert rest - {op.at.value} == rest;
  }

  lemma UsedRealloc(m: Mem, op: Op)
    requires MemOk(m) && op.Realloc? && Legal(m, op) && (op.ptr != 0 || op.size != 0)
    ensures Congruent(UsedSum(Step(m, op).0.used), UsedSum(m.used) + LiveDelta(m, op) + Missed(m, op))
  {
    hide UsedSum, Congruent, Charged, Credited, WithSize, Stamped, Resized, HdrSize;
    var raw := if op.ptr == 0 then [] else m.blocks[op.ptr - HEADER];
    var used := if op.ptr == 0 then m.used else Credited(m.used, op.ctx, HdrSize(raw));
    var taken := if op.ctx.Some? then SizeAt(m, op.ptr) else 0;
    if op.ptr == 0 {
      Itself(UsedSum(m.used));
    } else {
      CreditedSum(m.used, op.ctx, HdrSize(raw), UserSize(raw));
    }
    assert Congruent(UsedSum(used), UsedSum(m.used) - taken);
    if op.at.Some? {
      var given := if op.ctx.Some? then op.size else 0;
      Remainder(op.size);
      ChargedSum(used, op.ctx, op.size % WRAP, op.size);
      Itself(given);
      Sums(UsedSum(used), UsedSum(m.used) - taken, given, given);
      Chain(UsedSum(Charged(used, op.ctx, op.size % WRAP)), UsedSum(used) + given, UsedSum(m.used) - taken + given);
    }
  }

  lemma UsedStep(m: Mem, op: Op)
    requires MemOk(m) && Legal(m, op)
    ensures Congruent(UsedSum(Step(m, op).0.used), UsedSum(m.used) + LiveDelta(m, op) + Missed(m, op))
  {
    hide UsedSum, Congruent, Charged, Credited, WithSize, Stamped, Resized, HdrSize;
    Itself(UsedSum(m.used));
    match op
    case Malloc(ctx, size, at, fill) =>
      Itself(size);
      if at.Some? { ChargedSum(m.used, ctx, size, size); }
    case Realloc(_, ptr, size, _, _, _) =>
      if ptr != 0 || size != 0 { UsedRealloc(m, op); }
    case Free(ctx, ptr) =>
      if ptr != 0 { CreditedSum(m.used, ctx, HdrSize(m.blocks[ptr - HEADER]), UserSize(m.blocks[ptr - HEADER])); }
    case Write(_, _, _) =>
  }

  /** One call moves the balance by exactly what it makes the counts miss, modulo 2^32. */
  lemma StepBalance(m: Mem, op: Op)
    requires MemOk(m) && Legal(m, op)
    ensures Congruent(Balance(Step(m, op).0), Balance(m) + Missed(m, op))
  {
    hide Step, LiveSum, UsedSum, Congruent, LiveDelta, Missed;
    LiveStep(m, op);
    UsedStep(m, op);
    var live := LiveSum(Step(m, op).0.blocks);
    Itself(live);
    Sums(UsedSum(Step(m, op).0.used), UsedSum(m.used) + LiveDelta(m, op) + Missed(m, op), live, live);
  }

  // ---------------------------------------------------------------- runs

  /** How a sequence of calls ends: all done, at a granted request that wraps, or at a call that is not legal. */
  datatype Outcome = Done(mem: Mem) | Broken | Illegal

  function Run(m: Mem, ops: seq<Op>): (r: Outcome)
    requires MemOk(m)
    ensures r.Done? ==> MemOk(r.mem) && r.mem.arch == m.arch && |r.mem.used| == |m.used|
    decreases |ops|
  {
    if ops == [] then Done(m)
    else if !Legal(m, ops[0]) then Illegal
    else if Short(m.arch, ops[0]) then Broken
    else
      StepKeepsMem(m, ops[0]);
      Run(Step(m, ops[0]).0, ops[1..])
  }

  /** Call after call, the pointers returned are ones the C library may return, and the contents stay the same. */
  ghost predicate RunRefines(m: Mem, p: map<nat, seq<Byte>>, ops: seq<Op>)
    requires MemOk(m)
    decreases |ops|
  {
    ops == [] ||
    (Legal(m, ops[0]) &&
     var (m', r) := Step(m, ops[0]);
     MemOk(m') && exists p' :: PlainAllows(p, ops[0], r, p') && Same(m'.blocks, p') && RunRefines(m', p', ops[1..]))
  }

  /** A sequence of legal calls can go on to its end if and only if none is a granted request that wraps. */
  lemma {:induction false} RunEnds(m: Mem, ops: seq<Op>)
    requires MemOk(m) && !Run(m, ops).Illegal?
    ensures Run(m, ops).Done? <==> forall i | 0 <= i < |ops| :: !Short(m.arch, ops[i])
    decreases |ops|
  {
    if ops != [] && !Short(m.arch, ops[0]) {
      StepKeepsMem(m, ops[0]);
      RunEnds(Step(m, ops[0]).0, ops[1..]);
      assert forall i | 1 <= i < |ops| :: ops[i] == ops[1..][i - 1];
      assert forall i | 0 <= i < |ops| - 1 :: ops[1..][i] == ops[i + 1];
    }
  }

  /**
   * A sequence of legal calls is one on a plain heap if and only if none is a granted request that wraps or a
   * realloc that frees its block.
   */
  lemma {:induction false} RunIsPlain(m: Mem, p: map<nat, seq<Byte>>, ops: seq<Op>)
    requires MemOk(m) && Same(m.blocks, p) && !Run(m, ops).Illegal?
    ensures RunRefines(m, p, ops) <==> forall i | 0 <= i < |ops| :: !Breaks(m.arch, ops[i])
    decreases |ops|
  {
    if ops != [] {
      var m' := Step(m, ops[0]).0;
      StepIsPlain(m, p, ops[0]);
      StepKeepsMem(m, ops[0]);
      assert forall i | 1 <= i < |ops| :: ops[i] == ops[1..][i - 1];
      if !Breaks(m.arch, ops[0]) {
        assert forall i | 0 <= i < |ops| - 1 :: ops[1..][i] == ops[i + 1];
        var p' :| PlainAllows(p, ops[0], Step(m, ops[0]).1, p') && Same(m'.blocks, p');
        RunIsPlain(m', p', ops[1..]);
        forall p'' | PlainAllows(p, ops[0], Step(m, ops[0]).1, p'') && Same(m'.blocks, p'')
          ensures RunRefines(m', p'', ops[1..]) <==> forall i | 0 <= i < |ops| - 1 :: !Breaks(m.arch, ops[1..][i])
        {
          RunIsPlain(m', p'', ops[1..]);
        }
      }
    }
  }

  /** All that the calls of a run make the counts miss. */
  function MissedInAll(m: Mem, ops: seq<Op>): int
    requires MemOk(m) && Run(m, ops).Done?
    decreases |ops|
  {
    if ops == [] then 0
    else
      StepKeepsMem(m, ops[0]);
      Missed(m, ops[0]) + MissedInAll(Step(m, ops[0]).0, ops[1..])
  }

  lemma {:induction false} RunBalance(m: Mem, ops: seq<Op>)
    requires MemOk(m) && Run(m, ops).Done?
    ensures Congruent(Balance(Run(m, ops).mem), Balance(m) + MissedInAll(m, ops))
    decreases |ops|
  {
    hide Congruent, Balance, Missed, Step;
    if ops == [] {
      Itself(Balance(m));
    } else {
      StepKeepsMem(m, ops[0]);
      var m' := Step(m, ops[0]).0;
      StepBalance(m, ops[0]);
      RunBalance(m', ops[1..]);
      var later := MissedInAll(m', ops[1..]);
      Itself(later);
      Sums(Balance(m'), Balance(m) + Missed(m, ops[0]), later, later);
      Chain(Balance(Run(m, ops).mem), Balance(m') + later, Balance(m) + Missed(m, ops[0]) + later);
    }
  }

  /** An allocator nobody has used, with n decoders. */
  function Unused(a: Arch, n: nat): (m: Mem)
    ensures MemOk(m)
  {
    Mem(a, map[], seq(n, _ => 0), seq(n, _ => 0))
  }

  lemma {:induction false} NothingUsed(used: seq<U32>)
    requires forall i | 0 <= i < |used| :: used[i] == 0
    ensures UsedSum(used) == 0
  {
    if used != [] { NothingUsed(used[1..]); }
  }

  /** The call has a decoder, and is not a realloc that fails and keeps its block. */
  predicate Counted(op: Op) {
    match op
    case Malloc(ctx, _, at, _) => ctx.Some? || at.None?
    case Realloc(ctx, ptr, size, at, _, gone) =>
      (ptr == 0 && size == 0) || (ctx.Some? && (ptr == 0 || at.Some? || gone))
    case Free(ctx, ptr) => ctx.Some? || ptr == 0
    case Write(_, _, _) => true
  }

  lemma {:induction false} CountedMissNothing(m: Mem, ops: seq<Op>)
    requires MemOk(m) && Run(m, ops).Done? && forall i | 0 <= i < |ops| :: Counted(ops[i])
    ensures MissedInAll(m, ops) == 0
    decreases |ops|
  {
    if ops != [] {
      StepKeepsMem(m, ops[0]);
      CountedMissNothing(Step(m, ops[0]).0, ops[1..]);
    }
  }

  /**
   * Conservation. After any calls whatever, from any threads, the decoders' counts add up (modulo 2^32) to
   * the live bytes exactly when the uncounted calls cancel out; in particular when every call is counted.
   */
  lemma Conservation(a: Arch, n: nat, ops: seq<Op>)
    requires Run(Unused(a, n), ops).Done?
    ensures var m := Run(Unused(a, n), ops).mem;
            && (Congruent(UsedSum(m.used), LiveSum(m.blocks)) <==> MissedInAll(Unused(a, n), ops) % WRAP == 0)
            && ((forall i | 0 <= i < |ops| :: Counted(ops[i])) ==> Congruent(UsedSum(m.used), LiveSum(m.blocks)))
  {
    hide Run, MissedInAll, Congruent, UsedSum, LiveSum, Unused, Counted, MemOk;
    UnusedBalance(a, n);
    RunBalance(Unused(a, n), ops);
    BalancedIff(Run(Unused(a, n), ops).mem, MissedInAll(Unused(a, n), ops));
    if forall i | 0 <= i < |ops| :: Counted(ops[i]) {
      CountedMissNothing(Unused(a, n), ops);
    }
  }

  lemma UnusedBalance(a: Arch, n: nat)
    ensures Balance(Unused(a, n)) == 0
  {
    NothingUsed(Unused(a, n).used);
  }

  lemma BalancedIff(m: Mem, missed: int)
    requires Congruent(Balance(m), missed)
    ensures Congruent(UsedSum(m.used), LiveSum(m.blocks)) <==> missed % WRAP == 0
  {
    SameResidue(Balance(m), missed);
  }

  lemma SameResidue(x: int, y: int)
    requires Congruent(x, y)
    ensures x % WRAP == y % WRAP
  {
  }

  // ---------------------------------------------------------------- the high-water mark

  /** The largest count decoder c has had right after one of its own mallocs. */
  function MallocPeak(m: Mem, ops: seq<Op>, c: nat): nat
    requires MemOk(m) && Run(m, ops).Done? && c < |m.used|
    decreases |ops|
  {
    if ops == [] then 0
    else
      StepKeepsMem(m, ops[0]);
      var m' := Step(m, ops[0]).0;
      var own := ops[0].Malloc? && ops[0].at.Some? && ops[0].ctx == Some(c);
      Max(if own then m'.used[c] else 0, MallocPeak(m', ops[1..], c))
  }

  /**
   * memused_max is the largest count seen right after the decoder's mallocs, and only those: growth by
   * realloc never raises it.
   */
  lemma {:induction false} PeakOfMallocs(m: Mem, ops: seq<Op>, c: nat)
    requires MemOk(m) && Run(m, ops).Done? && c < |m.used|
    ensures c < |Run(m, ops).mem.peak| && Run(m, ops).mem.peak[c] == Max(m.peak[c], MallocPeak(m, ops, c))
    decreases |ops|
  {
    if ops != [] {
      StepKeepsMem(m, ops[0]);
      PeakOfMallocs(Step(m, ops[0]).0, ops[1..], c);
    }
  }

  /**
   * No realloc raises memused_max, however much it adds to the count: whoever called it, granted or not, and
   * whatever the count becomes.
   */
  lemma PeakMissesRealloc(m: Mem, op: Op, c: nat)
    requires MemOk(m) && op.Realloc? && Legal(m, op) && c < |m.used|
    ensures var m' := Step(m, op).0;
            && m'.peak == m.peak
            && (op.ctx == Some(c) && op.at.Some? && (op.ptr != 0 || op.size != 0) ==>
                  m'.used[c] == (m.used[c] - SizeAt(m, op.ptr) + op.size) % WRAP)
  {
    hide WithSize, Stamped, Resized, HdrSize;
    if op.ctx == Some(c) && op.at.Some? && (op.ptr != 0 || op.size != 0) {
      var u := m.used[c];
      var less := if op.ptr == 0 then u else Sub32(u, HdrSize(m.blocks[op.ptr - HEADER]));
      assert Step(m, op).0.used[c] == Add32(less, op.size % WRAP);
      Counted32(u, SizeAt(m, op.ptr), op.size, less);
    }
  }

  lemma Freed32(u: U32, was: nat)
    ensures Sub32(u, was % WRAP) == (u - was) % WRAP
  {
    Remainder(was);
    Itself(u);
    Sums(u, u, was % WRAP, was);
    SameResidue(u - was % WRAP, u - was);
  }

  /**
   * Whose count a call moves and by how much, decoder by decoder: that of the calling thread's decoder, by the
   * size asked for and by the user bytes of the block given up, modulo 2^32. Nobody else's count or peak moves,
   * and a peak moves only to the count right after its decoder's own malloc.
   */
  lemma CountsMove(m: Mem, op: Op, d: nat)
    requires MemOk(m) && Legal(m, op) && d < |m.used|
    ensures var m' := Step(m, op).0;
            && |m'.used| == |m'.peak| == |m.used|
            && (match op
                case Malloc(ctx, size, at, _) =>
                  if ctx == Some(d) && at.Some? then
                    && m'.used[d] == (m.used[d] + size) % WRAP
                    && m'.peak[d] == (if m'.used[d] > m.peak[d] then m'.used[d] else m.peak[d])
                  else m'.used[d] == m.used[d] && m'.peak[d] == m.peak[d]
                case Realloc(ctx, ptr, size, at, _, _) =>
                  && m'.peak[d] == m.peak[d]
                  && m'.used[d] == if ctx != Some(d) || (ptr == 0 && size == 0) then m.used[d]
                                   else (m.used[d] - SizeAt(m, ptr) + (if at.Some? then size else 0)) % WRAP
                case Free(ctx, ptr) =>
                  && m'.peak[d] == m.peak[d]
                  && m'.used[d] == if ctx != Some(d) then m.used[d] else (m.used[d] - SizeAt(m, ptr)) % WRAP
                case Write(_, _, _) => m'.used == m.used && m'.peak == m.peak)
  {
    hide WithSize, Stamped, Resized, HdrSize, Sub32;
    match op
    case Realloc(ctx, ptr, size, at, _, _) =>
      if ptr != 0 { Freed32(m.used[d], SizeAt(m, ptr)); }
      PeakMissesRealloc(m, op, d);
    case Free(ctx, ptr) =>
      if ptr != 0 { Freed32(m.used[d], SizeAt(m, ptr)); }
    case _ =>
  }

  lemma Counted32(u: U32, was: nat, size: nat, less: U32)
    requires less == (u - was % WRAP) % WRAP
    ensures Add32(less, size % WRAP) == (u - was + size) % WRAP
  {
    TwiceRound(u, was, size);
  }

  lemma TwiceRound(x: int, y: nat, z: nat)
    ensures ((x - y % WRAP) % WRAP + z % WRAP) % WRAP == (x - y + z) % WRAP
  {
    hide Congruent;
    var u := x - y % WRAP;
    Remainder(y);
    Itself(x);
    Sums(x, x, y % WRAP, y);
    Remainder(u);
    Chain(u % WRAP, u, x - y);
    Remainder(z);
    Sums(u % WRAP, x - y, z % WRAP, z);
    SameResidue(u % WRAP + z % WRAP, x - y + z);
  }

  // ---------------------------------------------------------------- the functions themselves

  /** The fields of class Decoder that the allocator keeps. */
  class Decoder {
    var memUsed: U32
    var memUsedMax: U32

    constructor ()
      ensures memUsed == 0 && memUsedMax == 0
    {
      memUsed, memUsedMax := 0, 0;
    }
  }

  /** The process's libc heap, and the three functions as one thread calls them; `dc` is what tls_get_ctx returns. */
  class Allocator {
    const arch: Arch
    var blocks: map<nat, seq<Byte>>

    constructor (arch: Arch)
      ensures this.arch == arch && blocks == map[]
    {
      this.arch, blocks := arch, map[];
    }

    /** The heap with the calling thread's decoder as the only one. */
    ghost function View(dc: Decoder?): Mem
      reads this, dc
    {
      if dc == null then Mem(arch, blocks, [], []) else Mem(arch, blocks, [dc.memUsed], [dc.memUsedMax])
    }

    static ghost function Ctx(dc: Decoder?): Option<nat> { if dc == null then None else Some(0) }

    method JutMalloc(dc: Decoder?, size: nat, at: Option<nat>, fill: seq<Byte>) returns (p: nat)
      requires MemOk(View(dc)) && Legal(View(dc), Malloc(Ctx(dc), size, at, fill))
      modifies this, dc
      ensures View(dc) == old(Step(View(dc), Malloc(Ctx(dc), size, at, fill))).0
      ensures p == old(Step(View(dc), Malloc(Ctx(dc), size, at, fill))).1
      ensures p == if at.Some? then at.value + 64 else 0
    {
      ghost var after := Step(View(dc), Malloc(Ctx(dc), size, at, fill)).0;
      if at.None? { return 0; }
      blocks := blocks[at.value := Stamped(fill, size)];
      if dc != null {
        dc.memUsed := Add32(dc.memUsed, size);
        if dc.memUsed > dc.memUsedMax {
          dc.memUsedMax := dc.memUsed;
        }
      }
      p := at.value + HEADER;
      assert View(dc).used == after.used && View(dc).peak == after.peak;
    }

    method JutRealloc(dc: Decoder?, ptr: nat, size: nat, at: Option<nat>, fill: seq<Byte>, gone: bool)
      returns (p: nat)
      requires MemOk(View(dc)) && Legal(View(dc), Realloc(Ctx(dc), ptr, size, at, fill, gone))
      modifies this, dc
      ensures View(dc) == old(Step(View(dc), Realloc(Ctx(dc), ptr, size, at, fill, gone))).0
      ensures p == old(Step(View(dc), Realloc(Ctx(dc), ptr, size, at, fill, gone))).1
      ensures p == if at.Some? && (ptr != 0 || size != 0) then at.value + 64 else 0
    {
      ghost var after := Step(View(dc), Realloc(Ctx(dc), ptr, size, at, fill, gone)).0;
      var raw := [];
      if ptr != 0 {
        raw := blocks[ptr - HEADER];
        if dc != null {
          dc.memUsed := Sub32(dc.memUsed, HdrSize(raw));
        }
      } else if size == 0 {
        return 0;
      }
      if at.None? {
        if gone {
          blocks := blocks - {ptr - HEADER};
        }
        assert View(dc).used == after.used && View(dc).peak == after.peak;
        return 0;
      }
      if ptr != 0 {
        blocks := blocks - {ptr - HEADER};
      }
      var hdrSize := size % WRAP;
      blocks := blocks[at.value := Stamped(Resized(raw, Asked(arch, size), fill), size)];
      if dc != null {
        dc.memUsed := Add32(dc.memUsed, hdrSize);
      }
      p := at.value + HEADER;
      assert View(dc).used == after.used && View(dc).peak == after.peak;
    }

    method JutFree(dc: Decoder?, ptr: nat)
      requires MemOk(View(dc)) && Legal(View(dc), Free(Ctx(dc), ptr))
      modifies this, dc
      ensures View(dc) == old(Step(View(dc), Free(Ctx(dc), ptr))).0
    {
      if ptr == 0 { return; }
      if dc != null {
        dc.memUsed := Sub32(dc.memUsed, HdrSize(blocks[ptr - HEADER]));
      }
      blocks := blocks - {ptr - HEADER};
    }
  }
}
