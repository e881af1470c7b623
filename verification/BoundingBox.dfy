/** From two bitmaps to the box of all contacts, and from the box to a second touch. */
module BoundingBox {
  import opened Bitmap
  import opened CArith

  const PROTO_V3 := 0x300
  const PROTO_V4 := 0x400
  const PROTO_V5 := 0x500

  /** A semi-multi-touch panel. */
  datatype Panel = Panel(proto: nat, xMax: nat, yMax: nat, xBits: nat, yBits: nat) {
    /** At least two electrodes an axis, as the division needs, at most a word of
        them, and ranges whose squared distances fit in 31 bits. */
    predicate Valid() {
      2 <= xBits <= WIDTH && 2 <= yBits <= WIDTH && xMax < 0x4000 && yMax < 0x4000
    }
  }

  datatype Pos = Pos(x: int, y: int)

  function Max(a: nat, b: nat): nat {
    if a > b then a else b
  }

  /** A single run is divided between two points. */
  function Divide(p: Point): (Point, Point) {
    var i := p.num / 2;
    (Point(p.start, p.num - i), Point(p.start + i, Max(i, 1)))
  }

  function Ends(low: Point, high: Point, fingers: nat): (Point, Point) {
    if fingers == 1 then Divide(low) else (low, high)
  }

  /** Twice the middle of a run. */
  function Middle(p: Point): nat
    requires p.num > 0
  {
    2 * p.start + p.num - 1
  }

  // The two points of an axis are runs inside the map, the low one in front.
  lemma EndsInside(bits: nat, n: nat, low: Point, high: Point, fingers: nat)
    requires bits != 0 && bits < Pow2(n) && Found(bits, low, high, fingers)
    ensures var (l, h) := Ends(low, high, fingers);
            && l.num > 0 && h.num > 0 && l.End() <= n && h.End() <= n
            && l.start <= h.start && Middle(l) <= Middle(h)
            && Full(bits, l.start, l.End()) && Full(bits, h.start, h.End())
  {
    BitBelow(bits, low.End() - 1, n);
    if fingers >= 2 {
      BitBelow(bits, high.End() - 1, n);
    }
  }

  function Coordinate(max: nat, n: nat, p: Point): (c: nat)
    requires n >= 2 && p.num > 0
  {
    max * Middle(p) / (2 * (n - 1))
  }

  // Coordinates stay within the panel and in the order of the runs.
  lemma CoordinatesOrdered(max: nat, n: nat, p: Point, q: Point)
    requires n >= 2 && p.num > 0 && q.num > 0 && q.End() <= n && Middle(p) <= Middle(q)
    ensures 0 <= Coordinate(max, n, p) <= Coordinate(max, n, q) <= max
  {
    var d := 2 * (n - 1);
    MultiplyMonotone(max, Middle(p), Middle(q));
    DivideMonotone(max * Middle(p), max * Middle(q), d);
    MultiplyMonotone(max, Middle(q), d);
    QuotientAtMost(max * Middle(q), max, d);
  }

  /** The four corners, clockwise from top left; the fifth protocol counts x from the
      other side, the third and fourth y. */
  function Corners(panel: Panel, xl: Point, xh: Point, yl: Point, yh: Point): seq<Pos>
    requires panel.Valid() && xl.num > 0 && xh.num > 0 && yl.num > 0 && yh.num > 0
  {
    var flipX, flipY := panel.proto == PROTO_V5, panel.proto == PROTO_V3 || panel.proto == PROTO_V4;
    var x0, x1 := Coordinate(panel.xMax, panel.xBits, xl), Coordinate(panel.xMax, panel.xBits, xh);
    var y0, y1 := Coordinate(panel.yMax, panel.yBits, yl), Coordinate(panel.yMax, panel.yBits, yh);
    var left, right := if flipX then panel.xMax - x0 else x0, if flipX then panel.xMax - x1 else x1;
    var top, bottom := if flipY then panel.yMax - y0 else y0, if flipY then panel.yMax - y1 else y1;
    [Pos(left, top), Pos(right, top), Pos(right, bottom), Pos(left, bottom)]
  }

  predicate Inside(panel: Panel, p: Pos) {
    0 <= p.x <= panel.xMax && 0 <= p.y <= panel.yMax
  }

  /** Four corners in order around an axis-aligned rectangle. */
  predicate Rectangle(c: seq<Pos>) {
    |c| == 4 && c[0].x == c[3].x && c[1].x == c[2].x && c[0].y == c[1].y && c[2].y == c[3].y
  }

  lemma CornersBox(panel: Panel, xMap: nat, yMap: nat, xl: Point, xh: Point, yl: Point, yh: Point, xs: nat, ys: nat)
    requires panel.Valid() && 0 < xMap < Pow2(panel.xBits) && 0 < yMap < Pow2(panel.yBits)
    requires Found(xMap, xl, xh, xs) && Found(yMap, yl, yh, ys)
    ensures var (x0, x1) := Ends(xl, xh, xs); var (y0, y1) := Ends(yl, yh, ys);
            && x0.num > 0 && x1.num > 0 && y0.num > 0 && y1.num > 0
            && var c := Corners(panel, x0, x1, y0, y1);
               && Rectangle(c) && (forall i :: 0 <= i < 4 ==> Inside(panel, c[i]))
               && (if panel.proto == PROTO_V5 then c[1].x <= c[0].x else c[0].x <= c[1].x)
               && (if panel.proto == PROTO_V3 || panel.proto == PROTO_V4 then c[3].y <= c[0].y else c[0].y <= c[3].y)
  {
    EndsInside(xMap, panel.xBits, xl, xh, xs);
    EndsInside(yMap, panel.yBits, yl, yh, ys);
    var (x0, x1) := Ends(xl, xh, xs);
    var (y0, y1) := Ends(yl, yh, ys);
    CoordinatesOrdered(panel.xMax, panel.xBits, x0, x1);
    CoordinatesOrdered(panel.yMax, panel.yBits, y0, y1);
  }

  function Square(d: int): int {
    d * d
  }

  function Distance(a: Pos, b: Pos): int {
    Square(a.x - b.x) + Square(a.y - b.y)
  }

  lemma DistanceFits(a: Pos, b: Pos)
    requires 0 <= a.x < 0x4000 && 0 <= a.y < 0x4000 && 0 <= b.x < 0x4000 && 0 <= b.y < 0x4000
    ensures 0 <= Distance(a, b) < 0x7fffffff
  {
    SquareBound(a.x - b.x, 0x4000);
    SquareBound(a.y - b.y, 0x4000);
  }

  // Of four sums of two numbers each, as around a rectangle, a largest lies opposite
  // a smallest.
  lemma OppositeSums(d: seq<int>, l: int, r: int, t: int, b: int, k: nat)
    requires d == [l + t, r + t, r + b, l + b] && k < 4 && forall i :: 0 <= i < 4 ==> d[k] <= d[i]
    ensures forall i :: 0 <= i < 4 ==> d[i] <= d[(k + 2) % 4]
  {
    assert d[k] <= d[0] && d[k] <= d[1] && d[k] <= d[2] && d[k] <= d[3];
    assert k == 0 || k == 1 || k == 2 || k == 3;
  }

  // Opposite a nearest corner of a rectangle lies a farthest one.
  lemma OppositeNearest(c: seq<Pos>, st: Pos, k: nat)
    requires Rectangle(c) && k < 4 && forall i :: 0 <= i < 4 ==> Distance(st, c[k]) <= Distance(st, c[i])
    ensures forall i :: 0 <= i < 4 ==> Distance(st, c[i]) <= Distance(st, c[(k + 2) % 4])
  {
    var l, r, t, b := Square(st.x - c[0].x), Square(st.x - c[1].x), Square(st.y - c[0].y), Square(st.y - c[3].y);
    var d := [Distance(st, c[0]), Distance(st, c[1]), Distance(st, c[2]), Distance(st, c[3])];
    assert forall i :: 0 <= i < 4 ==> d[i] == Distance(st, c[i]);
    OppositeSums(d, l, r, t, b, k);
    forall i | 0 <= i < 4 ensures Distance(st, c[i]) <= Distance(st, c[(k + 2) % 4]) {
      assert d[i] <= d[(k + 2) % 4];
    }
  }

  method NearestCorner(c: seq<Pos>, st: Pos) returns (k: int)
    requires Rectangle(c) && forall i :: 0 <= i < 4 ==> 0 <= Distance(st, c[i]) < 0x7fffffff
    ensures 0 <= k < 4 && forall i :: 0 <= i < 4 ==> Distance(st, c[k]) <= Distance(st, c[i])
  {
    k := -1;
    var closest := 0x7fffffff;
    for i := 0 to 4
      invariant if i == 0 then k == -1 && closest == 0x7fffffff
                else 0 <= k < i && closest == Distance(st, c[k])
      invariant forall j :: 0 <= j < i ==> closest <= Distance(st, c[j])
    {
      var distance := Distance(st, c[i]);
      if distance < closest {
        k, closest := i, distance;
      }
    }
  }

  /** A corner of the rectangle as far from st as any. */
  ghost predicate Farthest(c: seq<Pos>, st: Pos, k: int) {
    0 <= k < |c| && forall i :: 0 <= i < |c| ==> Distance(st, c[i]) <= Distance(st, c[k])
  }

  /** The two points of an axis: the lowest and the highest run, or two halves of the
      only one. */
  ghost predicate AxisRuns(bits: nat, low: Point, high: Point) {
    exists first, last, fingers :: Found(bits, first, last, fingers) &&
      if fingers == 1 then Halved(first, low, high) else low == first && high == last
  }

  /** A run in two: the larger half in front, and behind it as many as are left, from
      where so many lie before it; a run of one is both. */
  predicate Halved(run: Point, low: Point, high: Point) {
    && low.start == run.start && 0 <= 2 * low.num - run.num <= 1
    && high.start == run.start + (run.num - low.num) && high.num == (if run.num == 1 then 1 else run.num - low.num)
  }

  /** The coordinate c stands for the middle of the run on an axis of n electrodes from
      0 to max, counted from the other side if reversed, rounded towards electrode 0. */
  predicate Lies(max: nat, n: nat, reversed: bool, run: Point, c: int) {
    var u := if reversed then max - c else c;
    2 * (n - 1) * u <= max * (2 * run.start + run.num - 1) < 2 * (n - 1) * (u + 1)
  }

  lemma CoordinateLies(max: nat, n: nat, p: Point)
    requires n >= 2 && p.num > 0
    ensures Lies(max, n, false, p, Coordinate(max, n, p)) && Lies(max, n, true, p, max - Coordinate(max, n, p))
  {
    var d, a := 2 * (n - 1), max * Middle(p);
    assert a == d * (a / d) + a % d;
    assert d * (a / d + 1) == d * (a / d) + d;
  }

  // The first electrode alone lies at 0 and the last one at the end of the axis.
  lemma EndElectrodes(max: nat, n: nat, c: int)
    requires n >= 2
    ensures Lies(max, n, false, Point(0, 1), c) <==> c == 0
    ensures Lies(max, n, false, Point(n - 1, 1), c) <==> c == max
    ensures Lies(max, n, true, Point(0, 1), c) <==> c == max
    ensures Lies(max, n, true, Point(n - 1, 1), c) <==> c == 0
  {
    var d := 2 * (n - 1);
    assert max * (2 * 0 + 1 - 1) == 0 && max * (2 * (n - 1) + 1 - 1) == d * max;
    Between(d, c, 0);
    Between(d, c, max);
    Between(d, max - c, 0);
    Between(d, max - c, max);
  }

  lemma Between(d: int, u: int, v: int)
    requires d > 0
    ensures d * u <= d * v < d * (u + 1) <==> u == v
  {
    Subtract(d, v, u);
    Subtract(d, u, v);
    MultipleApart(d, v - u);
    assert d * (u + 1) == d * u + d;
  }

  // The two halves of a run part it exactly if it is of even length; of an odd run of
  // three or more they share the middle electrode and leave the last one out.
  lemma HalvesPart(run: Point, low: Point, high: Point)
    requires run.num > 0 && Halved(run, low, high)
    ensures low.End() == high.start && high.End() == run.End() <==> run.num % 2 == 0
    ensures run.num % 2 == 1 && run.num > 1 ==> low.End() == high.start + 1 && high.End() == run.End() - 1
  {
  }

  /** The box of two non-empty bitmaps, each side where its run lies. */
  ghost predicate BoxOf(panel: Panel, xMap: nat, yMap: nat, c: seq<Pos>) {
    && Rectangle(c)
    && (exists low, high :: AxisRuns(xMap, low, high) && low.num > 0 && high.num > 0
          && Lies(panel.xMax, panel.xBits, panel.proto == PROTO_V5, low, c[0].x)
          && Lies(panel.xMax, panel.xBits, panel.proto == PROTO_V5, high, c[1].x))
    && (exists low, high :: AxisRuns(yMap, low, high) && low.num > 0 && high.num > 0
          && Lies(panel.yMax, panel.yBits, panel.proto == PROTO_V3 || panel.proto == PROTO_V4, low, c[0].y)
          && Lies(panel.yMax, panel.yBits, panel.proto == PROTO_V3 || panel.proto == PROTO_V4, high, c[3].y))
  }

  lemma EndsAxis(bits: nat, low: Point, high: Point, fingers: nat)
    requires Found(bits, low, high, fingers) && low.num > 0
    ensures var (a, b) := Ends(low, high, fingers); AxisRuns(bits, a, b)
  {
    var (a, b) := Ends(low, high, fingers);
    assert fingers == 1 ==> Halved(low, a, b);
  }

  lemma CornersAreBox(panel: Panel, xMap: nat, yMap: nat, x0: Point, x1: Point, y0: Point, y1: Point)
    requires panel.Valid() && AxisRuns(xMap, x0, x1) && AxisRuns(yMap, y0, y1)
    requires x0.num > 0 && x1.num > 0 && y0.num > 0 && y1.num > 0
    ensures BoxOf(panel, xMap, yMap, Corners(panel, x0, x1, y0, y1))
  {
    CoordinateLies(panel.xMax, panel.xBits, x0);
    CoordinateLies(panel.xMax, panel.xBits, x1);
    CoordinateLies(panel.yMax, panel.yBits, y0);
    CoordinateLies(panel.yMax, panel.yBits, y1);
  }

  class Surface {
    const panel: Panel
    /** The corner taken for the second touch, or -1 when it is to be chosen. */
    var secondTouch: int

    ghost predicate Valid()
      reads this
    {
      panel.Valid() && -1 <= secondTouch < 4
    }

    constructor (panel: Panel)
      requires panel.Valid()
      ensures Valid() && this.panel == panel
    {
      this.panel, secondTouch := panel, 0;
    }

    /** Unless a corner is chosen already, the one opposite the nearest. */
    method ChooseSecondTouch(c: seq<Pos>, st: Pos)
      requires Valid() && Rectangle(c) && forall i :: 0 <= i < 4 ==> Inside(panel, c[i])
      requires 0 <= st.x < 0x4000 && 0 <= st.y < 0x4000
      modifies this
      ensures 0 <= secondTouch < 4
      ensures if old(secondTouch) == -1 then Farthest(c, st, secondTouch) else secondTouch == old(secondTouch)
    {
      if secondTouch == -1 {
        forall i | 0 <= i < 4 ensures 0 <= Distance(st, c[i]) < 0x7fffffff {
          assert Inside(panel, c[i]);
          DistanceFits(st, c[i]);
        }
        var k := NearestCorner(c, st);
        OppositeNearest(c, st, k);
        secondTouch := (k + 2) % 4;
      }
    }

    /** The number of contacts, 0 if a bitmap is empty, and the two touches: the one
        reported, and a corner of the box.  The corner is chosen, farthest from the
        reported touch, only when none is; otherwise the choice is kept. */
    method ProcessBitmap(xMap: nat, yMap: nat, st: Pos)
        returns (fingers: nat, mt0: Pos, mt1: Pos, ghost corner: seq<Pos>)
      requires Valid() && xMap < Pow2(panel.xBits) && yMap < Pow2(panel.yBits)
      requires 0 <= st.x < 0x4000 && 0 <= st.y < 0x4000
      modifies this
      ensures Valid() && (fingers == 0 <==> xMap == 0 || yMap == 0)
      ensures fingers == 0 ==> secondTouch == old(secondTouch)
      ensures fingers != 0 ==>
        && fingers == Max(|Beginnings(xMap, WIDTH)|, |Beginnings(yMap, WIDTH)|)
        && BoxOf(panel, xMap, yMap, corner)
        && Rectangle(corner) && (forall i :: 0 <= i < 4 ==> Inside(panel, corner[i]))
        && mt0 == st && 0 <= secondTouch < 4 && mt1 == corner[secondTouch]
        && (if old(secondTouch) == -1 then Farthest(corner, st, secondTouch) else secondTouch == old(secondTouch))
    {
      fingers, mt0, mt1, corner := 0, st, st, [];
      if xMap == 0 || yMap == 0 {
        return;
      }
      PowGrows(panel.xBits, WIDTH);
      PowGrows(panel.yBits, WIDTH);
      var zero := Point(0, 0);
      var xl, xh, xs := GetBitmapPoints(xMap, zero, zero);
      var yl, yh, ys := GetBitmapPoints(yMap, zero, zero);
      fingers := Max(xs, ys);
      CornersBox(panel, xMap, yMap, xl, xh, yl, yh, xs, ys);
      var (x0, x1) := Ends(xl, xh, xs);
      var (y0, y1) := Ends(yl, yh, ys);
      EndsAxis(xMap, xl, xh, xs);
      EndsAxis(yMap, yl, yh, ys);
      CornersAreBox(panel, xMap, yMap, x0, x1, y0, y1);
      var c := Corners(panel, x0, x1, y0, y1);
      ChooseSecondTouch(c, st);
      mt1, corner := c[secondTouch], c;
    }
  }

  lemma {:induction false} PowGrows(n: nat, m: nat)
    requires n <= m
    ensures Pow2(n) <= Pow2(m)
    decreases m
  {
    if n < m {
      PowGrows(n, m - 1);
    }
  }
}
