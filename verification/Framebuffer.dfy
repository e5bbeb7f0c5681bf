/** The console's pixel buffer (cmd/argui/vncwidget.go:86-158). */
module Framebuffer {
  import opened Bytes

  /** Where a byte of a row lies in a buffer of rows of `stride` bytes. */
  function Offset(row: int, stride: nat, column: int): int {
    row * stride + column
  }

  lemma RowsApart(row: nat, other: nat, stride: nat)
    requires row < other
    ensures row * stride + stride <= other * stride
  {
    var gap := other - row - 1;
    assert other * stride == row * stride + stride + gap * stride;
    assert gap * stride >= 0;
  }

  lemma OffsetInside(row: nat, rows: nat, stride: nat, column: nat)
    requires row < rows && column <= stride
    ensures 0 <= Offset(row, stride, 0) <= Offset(row, stride, column) <= Size(rows, stride)
  {
    RowsApart(row, rows, stride);
    assert row * stride >= 0;
  }

  function Size(rows: nat, stride: nat): nat {
    rows * stride
  }

  /** A slice of one row holds bytes of that row only. */
  lemma InSlice(row: nat, column: nat, target: nat, from: nat, until: nat, stride: nat)
    requires column < stride && from <= until <= stride
    ensures Offset(target, stride, from) <= Offset(row, stride, column) < Offset(target, stride, until)
       <==> row == target && from <= column < until
  {
    if row < target {
      RowsApart(row, target, stride);
    } else if target < row {
      RowsApart(target, row, stride);
    }
  }

  function Max(a: int, b: int): int {
    if a < b then b else a
  }

  function Min(a: int, b: int): int {
    if a < b then a else b
  }

  /** The built-in `copy` when the source fits. */
  method CopyInto(target: array<byte>, at: nat, source: bytes)
    requires at + |source| <= target.Length
    modifies target
    ensures forall i :: 0 <= i < target.Length ==>
              target[i] == if at <= i < at + |source| then source[i - at] else old(target[i])
  {
    for k := 0 to |source|
      invariant forall i :: 0 <= i < target.Length ==>
                  target[i] == if at <= i < at + k then source[i - at] else old(target[i])
    {
      target[at + k] := source[k];
    }
  }

  method Blank(size: nat) returns (bits: array<byte>)
    ensures fresh(bits) && bits.Length == size && forall i :: 0 <= i < size ==> bits[i] == 0
  {
    bits := new byte[size](_ => 0);
  }

  class Widget {
    var bits: array?<byte>
    var width: nat
    var height: nat
    var stride: nat

    constructor ()
      ensures Valid() && bits == null
    {
      bits := null;
      width := 0;
      height := 0;
      stride := 0;
    }

    ghost predicate Valid()
      reads this
    {
      bits != null ==> 4 * width <= stride && bits.Length == Size(height, stride)
    }

    /** A byte of the buffer, by row and by column within the row. */
    ghost function At(row: nat, column: nat): byte
      requires Valid() && bits != null && row < height && column < stride
      reads this, bits
    {
      OffsetInside(row, height, stride, column + 1);
      bits[Offset(row, stride, column)]
    }

    /** vncwidget.go:86-99. */
    method Resize(width: nat, height: nat, stride: nat)
      requires 4 * width <= stride
      modifies this
      ensures Valid() && bits != null && fresh(bits) && this.width == width && this.height == height
              && this.stride == stride
      ensures forall row, column :: 0 <= row < height && 0 <= column < stride ==> At(row, column) == 0
    {
      var blank := Blank(Size(height, stride));
      bits := blank;
      this.width, this.height, this.stride := width, height, stride;
      forall row, column | 0 <= row < height && 0 <= column < stride
        ensures At(row, column) == 0
      {
        OffsetInside(row, height, stride, column + 1);
        assert At(row, column) == blank[Offset(row, stride, column)];
      }
    }

    /**
     * vncwidget.go:101-121.  Exactly the part of the rectangle that lies on
     * the desktop takes the pixels of the block.
     */
    method Fill(x: int, y: int, w: nat, h: nat, pixels: bytes)
      requires Valid() && |pixels| == Size(h, 4 * w)
      modifies bits
      ensures bits != null ==>
                forall row, column :: 0 <= row < height && 0 <= column < stride ==>
                  At(row, column) == if InBlock(x, y, w, h, row, column)
                    then InRows(pixels, 4 * w, h, row - y, column - 4 * x)
                                     else old(At(row, column))
    {
      if bits != null {
        Put(x, y, w, h, pixels);
      }
    }

    /** The loop at vncwidget.go:108-120, the same as the one at 146-157. */
    method Put(x: int, y: int, w: nat, h: nat, pixels: bytes)
      requires Valid() && bits != null && |pixels| == Size(h, 4 * w)
      modifies bits
      ensures forall row, column :: 0 <= row < height && 0 <= column < stride ==>
                At(row, column) == if InBlock(x, y, w, h, row, column)
                  then InRows(pixels, 4 * w, h, row - y, column - 4 * x)
                                   else old(At(row, column))
    {
      for row := 0 to h
        invariant forall t, c :: 0 <= t < height && 0 <= c < stride ==>
                    At(t, c) == if InBlock(x, y, w, row, t, c) then InRows(pixels, 4 * w, h, t - y, c - 4 * x)
                      else old(At(t, c))
      {
        FillRow(x, y + row, w, PixelRow(pixels, 4 * w, h, row));
      }
    }

    predicate Inside(x: int, y: int, w: nat, h: nat)
      reads this
    {
      0 <= x && x + w <= width && 0 <= y && y + h <= height
    }

    /** The byte lies on the desktop and within the rectangle. */
    predicate InBlock(x: int, y: int, w: nat, h: nat, row: int, column: int)
      reads this`width
    {
      y <= row < y + h && 4 * x <= column < 4 * (x + w) && column < 4 * width
    }

    method FillRow(x: int, target: int, w: nat, source: bytes)
      requires Valid() && bits != null && |source| == 4 * w
      modifies bits
      ensures forall t, c :: 0 <= t < height && 0 <= c < stride ==>
                At(t, c) == if InBlock(x, target, w, 1, t, c) then source[c - 4 * x] else old(At(t, c))
    {
      if target < 0 || target >= height {
        return;
      }
      var left := Max(x, 0);
      var right := Min(x + w, width);
      if right <= left {
        return;
      }
      OffsetInside(target, height, stride, 4 * right);
      ghost var before := bits[..];
      CopyInto(bits, Offset(target, stride, 4 * left), source[4 * (left - x)..4 * (right - x)]);
      forall t, c | 0 <= t < height && 0 <= c < stride
        ensures At(t, c) == if InBlock(x, target, w, 1, t, c) then source[c - 4 * x] else old(At(t, c))
      {
        InSlice(t, c, target, 4 * left, 4 * right, stride);
        OffsetInside(t, height, stride, c + 1);
        assert old(At(t, c)) == before[Offset(t, stride, c)];
      }
    }

    /**
     * What the copied block holds: a byte of the desktop, or 0 below, above or
     * right of it.  A block that begins left of the desktop is taken from column 0.
     */
    ghost function Source(srcX: int, srcY: int, w: nat, row: int, column: nat): byte
      requires Valid() && bits != null
      reads this, bits
    {
      if 0 <= srcY + row < height && column < 4 * (Min(srcX + w, width) - Max(srcX, 0))
      then At(srcY + row, 4 * Max(srcX, 0) + column) else 0
    }

    /** The slice of a source row begins within the buffer; otherwise the program would panic. */
    ghost predicate Sliceable(srcX: int, srcY: int, row: int)
      requires Valid() && bits != null
      reads this
    {
      0 <= srcY + row < height ==> Offset(srcY + row, stride, 4 * Max(srcX, 0)) <= bits.Length
    }

    /**
     * vncwidget.go:123-158.  The rectangle takes, all at once, what the source
     * rectangle held before, even when the two overlap.
     */
    method Copy(srcX: int, srcY: int, x: int, y: int, w: nat, h: nat) returns (ok: bool)
      requires Valid()
      modifies bits
      ensures ok <==> bits == null || forall row :: 0 <= row < h ==> Sliceable(srcX, srcY, row)
      ensures bits != null ==>
                forall row, column :: 0 <= row < height && 0 <= column < stride ==>
                  At(row, column) == if ok && InBlock(x, y, w, h, row, column)
                    then old(Source(srcX, srcY, w, row - y, column - 4 * x))
                                     else old(At(row, column))
      ensures bits != null && Inside(srcX, srcY, w, h) ==>
                && ok
                && forall row, column ::
                   0 <= row < height && 0 <= column < stride && InBlock(x, y, w, h, row, column) ==>
                     At(row, column) == old(At(row - y + srcY, column - 4 * x + 4 * srcX))
    {
      if bits == null {
        return true;
      }
      if Inside(srcX, srcY, w, h) {
        SourceInside(srcX, srcY, w, h);
      }
      var block;
      ok, block := TakeBlock(srcX, srcY, w, h);
      if !ok {
        return;
      }
      Put(x, y, w, h, block);
    }

    /**
     * A slice begins past the buffer exactly when the source column lies
     * further right than all rows from its own on are long.
     */
    lemma NotSliceable(srcX: int, srcY: int, row: int)
      requires Valid() && bits != null
      ensures !Sliceable(srcX, srcY, row) <==>
                0 <= srcY + row < height && 4 * srcX > Size(height - (srcY + row), stride)
    {
      var at := srcY + row;
      if 0 <= at < height {
        assert Size(height, stride) == at * stride + Size(height - at, stride);
      }
    }

    /** A source within the desktop is read in full. */
    lemma SourceInside(srcX: int, srcY: int, w: nat, h: nat)
      requires Valid() && bits != null && Inside(srcX, srcY, w, h)
      ensures forall row :: 0 <= row < h ==> Sliceable(srcX, srcY, row)
      ensures forall row, column :: 0 <= row < h && 0 <= column < 4 * w ==>
                Source(srcX, srcY, w, row, column) == At(row + srcY, column + 4 * srcX)
    {
      forall row | 0 <= row < h
        ensures Sliceable(srcX, srcY, row)
      {
        OffsetInside(srcY + row, height, stride, 4 * srcX);
      }
    }

    method TakeBlock(srcX: int, srcY: int, w: nat, h: nat) returns (ok: bool, block: bytes)
      requires Valid() && bits != null
      ensures ok <==> forall row :: 0 <= row < h ==> Sliceable(srcX, srcY, row)
      ensures ok ==> |block| == Size(h, 4 * w)
      ensures ok ==> forall row, column :: 0 <= row < h && 0 <= column < 4 * w ==>
                InRows(block, 4 * w, h, row, column) == Source(srcX, srcY, w, row, column)
    {
      block := [];
      for row := 0 to h
        invariant |block| == Size(row, 4 * w)
        invariant forall r :: 0 <= r < row ==> Sliceable(srcX, srcY, r)
        invariant forall r, c :: 0 <= r < row && 0 <= c < 4 * w ==>
                    InRows(block, 4 * w, row, r, c) == Source(srcX, srcY, w, r, c)
      {
        var line;
        ok, line := TakeLine(srcX, srcY, row, w);
        if !ok {
          assert !Sliceable(srcX, srcY, row);
          return;
        }
        AppendRow(block, line, 4 * w, row);
        block := block + line;
      }
      ok := true;
    }

    method TakeLine(srcX: int, srcY: int, row: nat, w: nat) returns (ok: bool, line: bytes)
      requires Valid() && bits != null
      ensures ok <==> Sliceable(srcX, srcY, row)
      ensures ok ==> |line| == 4 * w && forall c :: 0 <= c < 4 * w ==> line[c] == Source(srcX, srcY, w, row, c)
    {
      var sourceRow := srcY + row;
      if sourceRow < 0 || sourceRow >= height {
        return true, seq(4 * w, _ => 0);
      }
      var start := Offset(sourceRow, stride, 4 * Max(srcX, 0));
      var end := Offset(sourceRow, stride, 4 * Min(srcX + w, width));
      if end < start {
        end := start;
      }
      if start > bits.Length {
        return false, [];
      }
      OffsetInside(sourceRow, height, stride, 4 * width);
      var part := bits[start..end];
      line := part + seq(4 * w - |part|, _ => 0);
      ok := true;
      forall c | 0 <= c < 4 * w
        ensures line[c] == Source(srcX, srcY, w, row, c)
      {
        if c < |part| {
          assert Offset(sourceRow, stride, 4 * Max(srcX, 0) + c) == start + c;
        }
      }
    }
  }

  /** A desktop of one row and one column, and a CopyRect whose source lies two columns to the right of it. */
  method SourceRightOfTheDesktop() returns (widget: Widget, ok: bool)
    ensures widget.width == 1 && widget.height == 1 && widget.stride == 4 && fresh(widget)
    ensures widget.Valid() && widget.bits != null && !widget.Sliceable(3, 0, 0) && !ok
  {
    widget := new Widget();
    widget.Resize(1, 1, 4);
    widget.NotSliceable(3, 0, 0);
    assert Size(1, 4) == 4;
    ok := widget.Copy(3, 0, 0, 0, 1, 1);
  }

  lemma AppendRow(block: bytes, line: bytes, stride: nat, rows: nat)
    requires |block| == Size(rows, stride) && |line| == stride
    ensures |block + line| == Size(rows + 1, stride)
    ensures forall r, c :: 0 <= r < rows && 0 <= c < stride ==>
              InRows(block + line, stride, rows + 1, r, c) == InRows(block, stride, rows, r, c)
    ensures forall c :: 0 <= c < stride ==> InRows(block + line, stride, rows + 1, rows, c) == line[c]
  {
    assert Size(rows + 1, stride) == Size(rows, stride) + stride;
    forall r, c | 0 <= r < rows && 0 <= c < stride
      ensures InRows(block + line, stride, rows + 1, r, c) == InRows(block, stride, rows, r, c)
    {
      OffsetInside(r, rows, stride, c + 1);
    }
    forall c | 0 <= c < stride
      ensures InRows(block + line, stride, rows + 1, rows, c) == line[c]
    {
      assert Offset(rows, stride, c) == |block| + c;
    }
  }

  /** Rows and columns reach every byte of the buffer. */
  lemma EveryByteHasAPlace(i: nat, rows: nat, stride: nat)
    requires i < Size(rows, stride)
    ensures stride > 0 && i / stride < rows && Offset(i / stride, stride, i % stride) == i
  {
  }

  /** A byte of a block of `rows` rows without padding. */
  function InRows(block: bytes, stride: nat, rows: nat, row: int, column: int): byte
    requires |block| == Size(rows, stride) && 0 <= row < rows && 0 <= column < stride
  {
    OffsetInside(row, rows, stride, column + 1);
    block[Offset(row, stride, column)]
  }

  function PixelRow(block: bytes, stride: nat, rows: nat, row: nat): (r: bytes)
    requires |block| == Size(rows, stride) && row < rows
    ensures |r| == stride && forall c :: 0 <= c < stride ==> r[c] == InRows(block, stride, rows, row, c)
  {
    OffsetInside(row, rows, stride, stride);
    block[row * stride..row * stride + stride]
  }
}
