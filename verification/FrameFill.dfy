/**
 * The framebuffer fill of lkml/drm-app/drm_app.c: a nested loop that paints a mapped dumb buffer
 * with one colour, indexing it as if a line were exactly as long as it is wide.
 */
module FrameFill {

  const U63: int := 0x8000_0000_0000_0000

  /** Mode sizes are 16-bit fields. */
  const MODE_LIMIT: nat := 0x1_0000

  function Upto(n: nat): seq<nat> {
    seq(n, i requires 0 <= i < n => i)
  }

  lemma {:induction false} RowFits(y: nat, w: nat, h: nat)
    requires y < h
    ensures y * w + w <= h * w
    decreases h
  {
    if y < h - 1 {
      RowFits(y, w, h - 1);
      assert h * w == (h - 1) * w + w;
    } else {
      assert h * w == y * w + w;
    }
  }

  lemma AreaBelow(w: nat, h: nat)
    requires w < MODE_LIMIT && h < MODE_LIMIT
    ensures h * w < MODE_LIMIT * MODE_LIMIT
  {
    RowFits(h, w, MODE_LIMIT);
  }

  lemma UptoHas(n: nat, i: nat)
    ensures i in Upto(n) <==> i < n
  {
    if i < n {
      assert Upto(n)[i] == i;
    }
  }

  /** One line of the loop, lines 300-303; `fault` is a store outside the mapping. */
  method FillRow(fb: array<int>, w: nat, h: nat, y: nat, col: int, ghost before: seq<nat>)
    returns (fault: bool, ghost writes: seq<nat>)
    requires y < h && h * w < U63 && y * w <= fb.Length && before == Upto(y * w)
    modifies fb
    ensures fault <==> fb.Length < y * w + w
    ensures writes == Upto(if fault then fb.Length else y * w + w)
    ensures forall i | y * w <= i < y * w + w && i < fb.Length :: fb[i] == col
    ensures forall i | 0 <= i < y * w || y * w + w <= i < fb.Length :: fb[i] == old(fb[i])
  {
    RowFits(y, w, h);
    writes := before;
    var x := 0;
    while x < w
      invariant 0 <= x <= w && y * w + x <= fb.Length && writes == Upto(y * w + x)
      invariant forall i | y * w <= i < y * w + x :: fb[i] == col
      invariant forall i | 0 <= i < y * w || y * w + x <= i < fb.Length :: fb[i] == old(fb[i])
    {
      var location := y * w + x;
      assert 0 <= location < U63;   // no wrap in a 64-bit long
      if location >= fb.Length {
        fault := true;
        return;
      }
      fb[location] := col;
      writes := writes + [location];
      x := x + 1;
    }
    fault := false;
  }

  /**
   * Lines 299-303, with a 64-bit long. The stores go to words 0, 1, 2, .. in order, each once, up
   * to w*h; they leave the mapping exactly when it is shorter than that.
   */
  method Fill(fb: array<int>, w: nat, h: nat, col: int) returns (fault: bool, ghost writes: seq<nat>)
    requires w < MODE_LIMIT && h < MODE_LIMIT
    modifies fb
    ensures fault <==> fb.Length < h * w
    ensures writes == Upto(if fault then fb.Length else h * w)
    ensures forall i | 0 <= i < fb.Length :: fb[i] == if i in writes then col else old(fb[i])
  {
    writes := [];
    fault := false;
    AreaBelow(w, h);
    var y := 0;
    while y < h && !fault
      invariant 0 <= y <= h && (!fault ==> y * w <= fb.Length)
      invariant fault ==> fb.Length < h * w
      invariant writes == Upto(if fault then fb.Length else y * w)
      invariant forall i | 0 <= i < |writes| :: fb[i] == col
      invariant forall i | |writes| <= i < fb.Length :: fb[i] == old(fb[i])
    {
      RowFits(y, w, h);
      assert y * w + w == (y + 1) * w;
      fault, writes := FillRow(fb, w, h, y, col, writes);
      y := y + 1;
    }
    forall i | 0 <= i < fb.Length ensures i in writes <==> i < |writes| {
      UptoHas(|writes|, i);
    }
  }

  /** The mapping of a dumb buffer is large enough for the loop: lines at least as long as wide. */
  lemma MappingHoldsFill(w: nat, h: nat, pitch: nat, size: nat)
    requires pitch >= 4 * w && size >= pitch * h
    ensures 4 * (h * w) <= size
  {
  }

  /** The word of visible pixel (x, y) in a buffer whose lines are `pitch` bytes apart. */
  function PixelWord(x: nat, y: nat, pitch: nat): nat {
    y * (pitch / 4) + x
  }

  /** The pixel's word is among the stores. */
  ghost predicate Painted(writes: seq<nat>, x: nat, y: nat, pitch: nat) {
    PixelWord(x, y, pitch) in writes
  }

  /** The loop paints a pixel exactly when its word lies in the first w*h. */
  lemma PaintedIff(w: nat, h: nat, pitch: nat, x: nat, y: nat)
    ensures Painted(Upto(h * w), x, y, pitch) <==> y * (pitch / 4) + x < h * w
  {
    UptoHas(h * w, PixelWord(x, y, pitch));
  }

  /** A later pixel, in reading order, is painted only if the earlier ones are. */
  lemma PaintedIsPrefix(x: nat, y: nat, x': nat, y': nat, pitch: nat, w: nat, h: nat)
    requires x < w && 4 * w <= pitch && y <= y' && (y == y' ==> x <= x')
    requires Painted(Upto(h * w), x', y', pitch)
    ensures Painted(Upto(h * w), x, y, pitch)
  {
    PaintedIff(w, h, pitch, x, y);
    PaintedIff(w, h, pitch, x', y');
    if y < y' {
      RowFits(y, pitch / 4, y');
    }
  }

  /** A padded line length pushes the last pixel beyond the stores. */
  lemma {:induction false} LastPixelUnpainted(w: nat, h: nat, stride: nat)
    requires w > 0 && h > 1 && stride > w
    ensures (h - 1) * stride + (w - 1) >= h * w
  {
    if h > 2 {
      LastPixelUnpainted(w, h - 1, stride);
      assert (h - 1) * stride == (h - 2) * stride + stride;
      assert h * w == (h - 1) * w + w;
    }
  }

  /**
   * Every visible pixel is painted exactly when a line is as long as the screen is wide, or there
   * is at most one line, or nothing to paint. Any other pitch leaves part of the screen unpainted.
   */
  lemma AllPaintedIff(w: nat, h: nat, pitch: nat)
    requires pitch % 4 == 0 && pitch >= 4 * w
    ensures (forall x: nat, y: nat | x < w && y < h :: Painted(Upto(h * w), x, y, pitch))
       <==> w == 0 || h <= 1 || pitch == 4 * w
  {
    if w > 0 && h > 1 && pitch > 4 * w {
      LastPixelUnpainted(w, h, pitch / 4);
      PaintedIff(w, h, pitch, w - 1, h - 1);
      assert !Painted(Upto(h * w), w - 1, h - 1, pitch);
    } else {
      forall x: nat, y: nat | x < w && y < h ensures Painted(Upto(h * w), x, y, pitch) {
        PaintedIff(w, h, pitch, x, y);
        RowFits(y, w, h);
        if h == 1 {
          assert y == 0;
        }
      }
    }
  }

  /** Row `y` is painted from end to end exactly when its last pixel is. */
  lemma RowPaintedIff(y: nat, pitch: nat, w: nat, h: nat)
    ensures (forall x: nat | x < w :: Painted(Upto(h * w), x, y, pitch)) <==> w == 0 || y * (pitch / 4) + w <= h * w
  {
    forall x: nat | x < w
      ensures Painted(Upto(h * w), x, y, pitch) <==> y * (pitch / 4) + x < h * w
    {
      PaintedIff(w, h, pitch, x, y);
    }
    if w > 0 && y * (pitch / 4) + w > h * w {
      PaintedIff(w, h, pitch, w - 1, y);
      assert !Painted(Upto(h * w), w - 1, y, pitch);
    }
  }
}
