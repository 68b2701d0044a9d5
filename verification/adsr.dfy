/** The envelope preview of the audio-rate modulator: a closed path drawn
    from its attack, decay, sustain and release values, rebuilt only when
    one of them changed or a rebuild is forced. */
module Adsr {
  import opened Basics

  /** The four envelope values as the preview last read them. */
  datatype Envelope = Envelope(a: real, d: real, s: real, r: real)

  /** The preview's state: the cached values and the path drawn from them.
      The path is closed: its last point joins its first. */
  datatype Preview = Preview(vals: Envelope, path: seq<Point>)

  /** A fresh preview caches -1 for every value, so the first read rebuilds. */
  function Init(): (p: Preview)
    ensures p.vals.a < 0.0 && p.vals.d < 0.0 && p.vals.s < 0.0 && p.vals.r < 0.0
    ensures p.path == []
  {
    Preview(Envelope(-1.0, -1.0, -1.0, -1.0), [])
  }

  /** `updatePath`: from the bottom-left corner up to the attack peak on the
      top edge, down to the sustain level, then to the bottom-right corner.
      Attack and decay take their share of the width relative to
      attack + decay + release; when that sum is zero a flat line at the
      sustain level spans the whole width instead. */
  function BuildPath(e: Envelope, b: Rect): (p: seq<Point>)
    ensures |p| == 4
    ensures p[0] == b.BottomLeft() && p[3] == b.BottomRight()
    ensures e.a + e.d + e.r != 0.0 ==>
              && p[1] == Point(b.x + b.w * e.a / (e.a + e.d + e.r), b.y)
              && p[2] == Point(p[1].x + b.w * e.d / (e.a + e.d + e.r), b.Bottom() - b.h * e.s)
    ensures e.a + e.d + e.r == 0.0 ==>
              p[1] == Point(b.x, b.Bottom() - b.h * e.s) && p[2] == Point(b.Right(), b.Bottom() - b.h * e.s)
  {
    var max := e.a + e.d + e.r;
    if max != 0.0 then
      var maxInv := 1.0 / max;
      var atkX := b.x + b.w * (e.a * maxInv);
      var dcyX := atkX + b.w * (e.d * maxInv);
      var susY := b.Bottom() - b.h * e.s;
      assert b.w * (e.a * maxInv) == b.w * e.a / max;
      assert b.w * (e.d * maxInv) == b.w * e.d / max;
      [b.BottomLeft(), Point(atkX, b.y), Point(dcyX, susY), b.BottomRight()]
    else
      var susY := b.Bottom() - b.h * e.s;
      [b.BottomLeft(), Point(b.x, susY), Point(b.Right(), susY), b.BottomRight()]
  }

  /** With non-negative values, a positive sum and a sustain in [0, 1], the
      path's corners run left to right inside the bounds, the sustain level
      lies between the top and the bottom edge, and the release segment takes
      exactly its share of the width. */
  lemma PathShape(e: Envelope, b: Rect)
    requires 0.0 <= e.a && 0.0 <= e.d && 0.0 <= e.r && 0.0 < e.a + e.d + e.r
    requires 0.0 <= e.s <= 1.0 && 0.0 <= b.w && 0.0 <= b.h
    ensures var p := BuildPath(e, b);
            && b.x <= p[1].x <= p[2].x <= b.Right()
            && b.y <= p[2].y <= b.Bottom()
            && b.Right() - p[2].x == b.w * e.r / (e.a + e.d + e.r)
  {
    var sum := e.a + e.d + e.r;
    var p := BuildPath(e, b);
    var wa, wd, wr := b.w * e.a / sum, b.w * e.d / sum, b.w * e.r / sum;
    SharesFillWidth(b.w, e.a, e.d, e.r);
    MulDivNonNegative(b.w, e.a, sum);
    MulDivNonNegative(b.w, e.d, sum);
    MulDivNonNegative(b.w, e.r, sum);
    SustainWithinBounds(b, e.s);
    assert p[1].x == b.x + wa && p[2].x == b.x + wa + wd;
  }

  /** The attack, decay and release shares of the width add up to the width. */
  lemma SharesFillWidth(w: real, a: real, d: real, r: real)
    requires a + d + r != 0.0
    ensures w * a / (a + d + r) + w * d / (a + d + r) + w * r / (a + d + r) == w
  {
    var sum := a + d + r;
    assert w * a / sum + w * d / sum + w * r / sum == w * sum / sum;
  }

  lemma MulDivNonNegative(w: real, v: real, sum: real)
    requires 0.0 <= w && 0.0 <= v && 0.0 < sum
    ensures 0.0 <= w * v / sum
  {
  }

  lemma SustainWithinBounds(b: Rect, s: real)
    requires 0.0 <= b.h && 0.0 <= s <= 1.0
    ensures b.y <= b.Bottom() - b.h * s <= b.Bottom()
  {
  }

  /** When attack, decay and release are all zero the path is the bounds'
      bottom edge with a horizontal line at the sustain level above it, that
      line running across the full width. */
  lemma FlatPath(e: Envelope, b: Rect)
    requires e.a == 0.0 && e.d == 0.0 && e.r == 0.0
    ensures var p := BuildPath(e, b);
            && p[1].y == p[2].y
            && b.Bottom() - p[1].y == b.h * e.s
            && p[2].x - p[1].x == b.w
  {
  }

  datatype Updated = Updated(preview: Preview, rebuilt: bool)

  /** `update(forced)` with the freshly read values `e`: the path is rebuilt
      (and a repaint requested) exactly when forced or when a value differs
      from the cache; afterwards the cache holds `e`. The timer calls it
      unforced; a resize calls it forced. */
  function Update(v: Preview, forced: bool, e: Envelope, b: Rect): (r: Updated)
    ensures r.rebuilt <==> forced || v.vals.a != e.a || v.vals.d != e.d || v.vals.s != e.s || v.vals.r != e.r
    ensures r.preview.vals == e
    ensures r.rebuilt ==> r.preview.path == BuildPath(e, b)
    ensures !r.rebuilt ==> r.preview == v
  {
    if forced || v.vals.a != e.a || v.vals.d != e.d || v.vals.s != e.s || v.vals.r != e.r then
      Updated(Preview(e, BuildPath(e, b)), true)
    else
      Updated(v, false)
  }

  /** Because the cache starts negative, the first unforced read of a
      non-negative attack rebuilds the path. */
  lemma FirstUpdateRebuilds(e: Envelope, b: Rect)
    requires 0.0 <= e.a
    ensures Update(Init(), false, e, b).rebuilt
    ensures Update(Init(), false, e, b).preview.path == BuildPath(e, b)
  {
  }

  /** An unforced update with the values just cached changes nothing. */
  lemma UpdateSettles(v: Preview, forced: bool, e: Envelope, b: Rect, b': Rect)
    ensures Update(Update(v, forced, e, b).preview, false, e, b') == Updated(Update(v, forced, e, b).preview, false)
  {
  }
}
