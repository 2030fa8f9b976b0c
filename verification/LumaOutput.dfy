/** on_recv_frame: writing the luma plane of a frame to the output file (src/Task.cpp:86-106). */
module LumaOutput {
  import opened Platform

  /** The fields of AVFrame used: dimensions, line size and the bytes of plane 0. */
  datatype Frame = Frame(width: nat, height: nat, linesize: nat, data: seq<Byte>)

  /** An open output file; a write appends all of its bytes. */
  class File {
    var content: seq<Byte>

    constructor ()
      ensures content == []
    {
      content := [];
    }

    method Write(bytes: seq<Byte>)
      modifies this
      ensures content == old(content) + bytes
    {
      content := content + bytes;
    }
  }

  /** Lines may be padded but not short, and the plane holds all of them. */
  predicate FrameOk(f: Frame) { f.width <= f.linesize && f.height * f.linesize <= |f.data| }

  lemma RowInside(f: Frame, r: nat)
    requires FrameOk(f) && r < f.height
    ensures r * f.linesize + f.width <= (r + 1) * f.linesize <= |f.data|
  {
    assert (r + 1) * f.linesize <= f.height * f.linesize;
  }

  function Row(f: Frame, r: nat): (b: seq<Byte>)
    requires FrameOk(f) && r < f.height
    ensures |b| == f.width
  {
    RowInside(f, r);
    f.data[r * f.linesize..r * f.linesize + f.width]
  }

  /** The first n rows, each cut to the width, one after the other. */
  function Rows(f: Frame, n: nat): seq<Byte>
    requires FrameOk(f) && n <= f.height
  {
    if n == 0 then [] else Rows(f, n - 1) + Row(f, n - 1)
  }

  /** With no padding the rows are the plane as it lies in memory. */
  lemma {:induction false} RowsUnpadded(f: Frame, n: nat)
    requires FrameOk(f) && n <= f.height && f.width == f.linesize
    ensures n * f.width <= |f.data| && Rows(f, n) == f.data[..n * f.width]
  {
    if n > 0 {
      RowsUnpadded(f, n - 1);
      RowInside(f, n - 1);
      assert n * f.width == (n - 1) * f.width + f.width;
    }
  }

  /** The byte at row r and column c of an image with the given line size. */
  function Pixel(b: seq<Byte>, linesize: nat, r: nat, c: nat): Option<Byte> {
    if r * linesize + c < |b| then Some(b[r * linesize + c]) else None
  }

  lemma PixelBefore(a: seq<Byte>, b: seq<Byte>, linesize: nat, r: nat, c: nat)
    requires r * linesize + c < |a|
    ensures Pixel(a + b, linesize, r, c) == Pixel(a, linesize, r, c)
  {
  }

  lemma PixelInRow(f: Frame, r: nat, c: nat)
    requires FrameOk(f) && r < f.height && c < f.width
    ensures Pixel(f.data, f.linesize, r, c) == Some(Row(f, r)[c])
  {
    RowInside(f, r);
  }

  lemma BelowRow(w: nat, n: nat, r: nat, c: nat)
    requires r < n && c < w
    ensures r * w + c < n * w
  {
    assert (r + 1) * w <= n * w;
  }

  /** The output is the frame without its padding: the same pixel at every row and column. */
  lemma {:induction false} PixelAt(f: Frame, n: nat, r: nat, c: nat)
    requires FrameOk(f) && r < n <= f.height && c < f.width
    ensures |Rows(f, n)| == n * f.width
    ensures Pixel(Rows(f, n), f.width, r, c) == Pixel(f.data, f.linesize, r, c) == Some(Row(f, r)[c])
  {
    hide FrameOk, Row;
    RowsLength(f, n);
    RowsLength(f, n - 1);
    PixelInRow(f, r, c);
    if r < n - 1 {
      PixelAt(f, n - 1, r, c);
      BelowRow(f.width, n - 1, r, c);
      PixelBefore(Rows(f, n - 1), Row(f, n - 1), f.width, r, c);
    } else {
      BelowRow(f.width, n, r, c);
    }
  }

  lemma {:induction false} RowsLength(f: Frame, n: nat)
    requires FrameOk(f) && n <= f.height
    ensures |Rows(f, n)| == n * f.width
  {
    if n > 0 {
      RowsLength(f, n - 1);
      assert n * f.width == (n - 1) * f.width + f.width;
    }
  }

  /** The row loop's uint16_t counter, and what it has written. */
  datatype Loop = Loop(i: nat, out: seq<Byte>)

  /** The loop after at most n rounds: a round runs while the counter is below the height. */
  function RowLoop(f: Frame, n: nat): (r: Loop)
    requires FrameOk(f)
    ensures r.i < 0x1_0000
  {
    if n == 0 then Loop(0, [])
    else
      var s := RowLoop(f, n - 1);
      if s.i < f.height then Loop((s.i + 1) % 0x1_0000, s.out + Row(f, s.i)) else s
  }

  /** The loop test has failed by then. */
  predicate Ended(f: Frame, n: nat)
    requires FrameOk(f)
  {
    RowLoop(f, n).i >= f.height
  }

  /** Up to 65535 rows the counter is the number of rows written. */
  lemma {:induction false} LoopWrites(f: Frame, n: nat)
    requires FrameOk(f) && f.height <= 0xffff
    ensures var k := if n < f.height then n else f.height; RowLoop(f, n) == Loop(k, Rows(f, k))
  {
    if n > 0 { LoopWrites(f, n - 1); }
  }

  /** The row loop comes to an end if and only if the height is at most 65535, and then after exactly height rounds. */
  lemma LoopEndsIff(f: Frame)
    requires FrameOk(f)
    ensures (exists n: nat :: Ended(f, n)) <==> f.height <= 0xffff
    ensures f.height <= 0xffff ==> forall n: nat :: Ended(f, n) <==> n >= f.height
  {
    if f.height <= 0xffff {
      forall n: nat ensures Ended(f, n) <==> n >= f.height {
        LoopWrites(f, n);
      }
      assert Ended(f, f.height);
    }
  }

  method WriteRow(file: File, f: Frame, i: nat)
    requires FrameOk(f) && i < f.height
    modifies file
    ensures file.content == old(file.content) + Row(f, i)
  {
    RowInside(f, i);
    file.Write(f.data[i * f.linesize..i * f.linesize + f.width]);
  }

  /** The loop with its 16-bit counter, watched for at most `rounds` rounds. */
  method WriteRows(file: File, f: Frame, rounds: nat) returns (ended: bool)
    requires FrameOk(f)
    modifies file
    ensures ended <==> Ended(f, rounds)
    ensures file.content == old(file.content) + RowLoop(f, rounds).out
  {
    hide FrameOk, Row;
    var i: nat := 0;
    var n := 0;
    while n < rounds
      invariant n <= rounds && i == RowLoop(f, n).i
      invariant file.content == old(file.content) + RowLoop(f, n).out
    {
      if i < f.height {
        WriteRow(file, f, i);
        i := (i + 1) % 0x1_0000;
      }
      n := n + 1;
    }
    ended := i >= f.height;
  }

  /**
   * on_recv_frame, its row loop watched for at most `rounds` rounds; without an open file it writes nothing.
   * Up to 65535 rows both branches write the same bytes, and above that the row loop goes on for ever.
   */
  method OnRecvFrame(file: File?, f: Frame, rounds: nat) returns (ended: bool)
    requires FrameOk(f)
    modifies file
    ensures file == null || f.width == f.linesize ==> ended
    ensures file != null && f.width == f.linesize ==> file.content == old(file.content) + Rows(f, f.height)
    ensures file != null && f.width != f.linesize ==>
              (ended <==> Ended(f, rounds)) && file.content == old(file.content) + RowLoop(f, rounds).out
    ensures file != null && f.height <= 0xffff && rounds >= f.height ==>
              ended && file.content == old(file.content) + Rows(f, f.height)
    ensures file != null && f.height > 0xffff && f.width != f.linesize ==> !ended
  {
    if file == null { return true; }
    if f.width == f.linesize {
      RowsUnpadded(f, f.height);
      file.Write(f.data[..f.width * f.height]);
      ended := true;
    } else {
      ended := WriteRows(file, f, rounds);
      if f.height <= 0xffff { LoopWrites(f, rounds); }
    }
  }
}
