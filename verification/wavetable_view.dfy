/** The wavetable preview: a row of vertical bars sampling a 3-D wavetable
    at the stored table-selection phase. The wavetable lookup is a
    parameter; its data is computed elsewhere. */
module WavetableView {
  import opened Basics

  /** The widget's only state: the table-selection phase it last drew. */
  datatype View = View(tablesPhase: real)

  /** A new preview has drawn table phase 0. */
  function Init(): (v: View)
    ensures v.tablesPhase == 0.0
  {
    View(0.0)
  }

  datatype Updated = Updated(view: View, repaint: bool)

  /** `update(p)`: stores `p` and asks for a repaint exactly when it
      differs from the stored phase. */
  function Update(v: View, p: real): (r: Updated)
    ensures r.view.tablesPhase == p
    ensures r.repaint <==> v.tablesPhase != p
    ensures !r.repaint ==> r.view == v
  {
    if v.tablesPhase != p then Updated(View(p), true) else Updated(v, false)
  }

  /** A repeated `update` with the same phase is a no-op. */
  lemma UpdateIdempotent(v: View, p: real)
    ensures Update(Update(v, p).view, p) == Updated(Update(v, p).view, false)
  {
  }

  /** The first `update` repaints exactly when its phase is not 0. */
  lemma FirstUpdateRepaints(p: real)
    ensures Update(Init(), p).repaint <==> p != 0.0
  {
  }

  /** The fractional part of `p`: the reference for the phase wrap. */
  function Frac(p: real): (f: real)
    ensures 0.0 <= f < 1.0
    ensures (p - f).Floor as real == p - f
  {
    p - p.Floor as real
  }

  /** The phase wrap of the paint loop: subtract one while the phase is at
      least one. For a non-negative phase the result is its fractional part. */
  method WrapPhase(p: real) returns (r: real)
    ensures p >= 0.0 ==> r == Frac(p) && 0.0 <= r < 1.0
    ensures p < 1.0 ==> r == p
  {
    r := p;
    var k := 0;
    while r >= 1.0
      invariant r == p - k as real
      invariant 0 <= k
      invariant p >= 0.0 ==> 0.0 <= r
      invariant p < 1.0 ==> k == 0
      decreases r.Floor
    {
      r := r - 1.0;
      k := k + 1;
    }
    assert p >= 0.0 ==> p.Floor == k;
  }

  /** One bar of the preview: a filled rectangle from x to x + w and from y down to y + h. */
  datatype Bar = Bar(x: real, y: real, w: real, h: real)

  /** How many wave cycles lie left of bar `i` of `numRects` bars when
      the bars span `numCycles` cycles. */
  function CyclesBefore(numRects: nat, numCycles: nat, i: nat): (c: real)
    requires numRects > 0
    ensures 0.0 <= c
  {
    var iX := i as real / numRects as real;
    DivNonNegative(i as real, numRects as real);
    MulNonNegative(iX, numCycles as real);
    iX * numCycles as real
  }

  /** The position within one wave cycle that bar `i` samples. */
  function BarPhase(numRects: nat, numCycles: nat, i: nat): (ph: real)
    requires numRects > 0
    ensures 0.0 <= ph < 1.0
  {
    Frac(CyclesBefore(numRects, numCycles, i))
  }

  /** Bar `i` of `numRects` bars spread over `b` for the (negated) table
      sample `smpl`: it spans from the middle line to the sample scaled by
      half the height, whichever way round they lie. */
  function BarFor(b: Rect, numRects: nat, i: nat, smpl: real): (bar: Bar)
    requires numRects > 0
    ensures bar.h >= 0.0
    ensures bar.y <= b.y + b.h / 2.0 <= bar.y + bar.h
    ensures || (bar.y == b.y + b.h * 0.5 && bar.y + bar.h == b.y + b.h * 0.5 + smpl * (b.h * 0.5))
            || (bar.y == b.y + b.h * 0.5 + smpl * (b.h * 0.5) && bar.y + bar.h == b.y + b.h * 0.5)
  {
    var iX := i as real / numRects as real;
    var rad := b.h * 0.5;
    var midY := b.y + rad;
    Bar(b.x + iX * b.w, Min(midY, midY + smpl * rad), b.w / numRects as real, Abs(smpl * rad))
  }

  lemma DivNonNegative(a: real, b: real)
    requires 0.0 <= a && 0.0 < b
    ensures 0.0 <= a / b
  {
  }

  lemma MulNonNegative(a: real, b: real)
    requires 0.0 <= a && 0.0 <= b
    ensures 0.0 <= a * b
  {
  }

  /** The bar arithmetic of `paint`: bar `i` is the one `BarFor` describes
      for the negated table sample at the stored table phase and the bar's
      wrapped phase, so no bar has negative height. */
  method Paint(tables: (real, real) -> real, tablesPhase: real, b: Rect, numRects: nat, numCycles: nat)
    returns (bars: seq<Bar>)
    requires numRects > 0
    ensures |bars| == numRects
    ensures forall i :: 0 <= i < numRects ==> bars[i] == BarFor(b, numRects, i, tables(tablesPhase, BarPhase(numRects, numCycles, i)) * -1.0)
    ensures forall i :: 0 <= i < numRects ==> bars[i].h >= 0.0
  {
    var rad := b.h * 0.5;
    var midY := b.y + rad;
    var wRatio := b.w / numRects as real;
    bars := [];
    var i := 0;
    while i < numRects
      invariant 0 <= i <= numRects
      invariant |bars| == i
      invariant forall j :: 0 <= j < i ==> bars[j] == BarFor(b, numRects, j, tables(tablesPhase, BarPhase(numRects, numCycles, j)) * -1.0)
    {
      var iX := i as real / numRects as real;
      var tablePhase := WrapPhase(CyclesBefore(numRects, numCycles, i));
      var smpl := tables(tablesPhase, tablePhase) * -1.0;
      var x := b.x + iX * b.w;
      var y := midY;
      var bottom := midY + smpl * rad;
      if bottom < y {
        y, bottom := bottom, y;
      }
      assert Bar(x, y, wRatio, bottom - y) == BarFor(b, numRects, i, smpl);
      bars := bars + [Bar(x, y, wRatio, bottom - y)];
      i := i + 1;
    }
  }
}
