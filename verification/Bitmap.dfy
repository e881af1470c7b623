/** Multi-touch bitmaps: the runs of active electrodes along an axis, the box they
    span, and the corner of it taken for the second touch. */
module Bitmap {

  datatype Point = Point(start: nat, num: nat) {
    function End(): nat {
      start + num
    }
  }

  function Pow2(n: nat): (p: nat)
    ensures p >= 1
  {
    if n == 0 then 1 else 2 * Pow2(n - 1)
  }

  predicate Bit(bits: nat, i: nat) {
    if i == 0 then bits % 2 == 1 else Bit(bits / 2, i - 1)
  }

  lemma {:induction false} BitBelow(bits: nat, i: nat, n: nat)
    requires bits < Pow2(n) && Bit(bits, i)
    ensures i < n
  {
    if n == 0 {
      NoBits(i);
    } else if i != 0 {
      BitBelow(bits / 2, i - 1, n - 1);
    }
  }

  lemma {:induction false} SomeBit(bits: nat) returns (i: nat)
    requires bits != 0
    ensures Bit(bits, i)
  {
    if bits % 2 == 1 {
      i := 0;
    } else {
      i := SomeBit(bits / 2);
      i := i + 1;
    }
  }

  /** A run begins at bit i. */
  predicate Begins(bits: nat, i: nat) {
    Bit(bits, i) && (i == 0 || !Bit(bits, i - 1))
  }

  ghost predicate Clear(bits: nat, from: nat, to: nat) {
    forall i :: from <= i < to ==> !Bit(bits, i)
  }

  ghost predicate Full(bits: nat, from: nat, to: nat) {
    forall i :: from <= i < to ==> Bit(bits, i)
  }

  /** A maximal run of set bits. */
  ghost predicate IsRun(bits: nat, p: Point) {
    p.num > 0 && Begins(bits, p.start) && Full(bits, p.start, p.End()) && !Bit(bits, p.End())
  }

  const WIDTH := 32

  ghost function Beginnings(bits: nat, n: nat): set<nat> {
    set i: nat | i < n && Begins(bits, i)
  }

  /** The runs of a bitmap, found: how many there are, the lowest in low, and the
      highest in high when there are at least two. */
  ghost predicate Found(bits: nat, low: Point, high: Point, fingers: nat) {
    && fingers == |Beginnings(bits, WIDTH)|
    && (bits == 0 <==> fingers == 0)
    && (fingers >= 1 ==> IsRun(bits, low) && Clear(bits, 0, low.start))
    && (fingers == 1 ==> forall i :: i >= low.End() ==> !Bit(bits, i))
    && (fingers >= 2 ==> IsRun(bits, high) && low.End() < high.start && forall i :: i >= high.End() ==> !Bit(bits, i))
  }

  // The runs found are the only ones that fit.
  lemma FoundUnique(bits: nat, low: Point, high: Point, low': Point, high': Point, fingers: nat, fingers': nat)
    requires Found(bits, low, high, fingers) && Found(bits, low', high', fingers')
    ensures fingers == fingers' && (fingers >= 1 ==> low == low') && (fingers >= 2 ==> high == high')
  {
    if fingers >= 1 {
      RunUnique(bits, low, low');
    }
    if fingers >= 2 {
      LastRunUnique(bits, high, high');
    }
  }

  lemma RunUnique(bits: nat, p: Point, q: Point)
    requires IsRun(bits, p) && IsRun(bits, q) && Clear(bits, 0, p.start) && Clear(bits, 0, q.start)
    ensures p == q
  {
    assert Bit(bits, p.start) && Bit(bits, q.start);
    assert p.start == q.start;
    assert !Bit(bits, p.End()) && !Bit(bits, q.End());
  }

  lemma LastRunUnique(bits: nat, p: Point, q: Point)
    requires IsRun(bits, p) && IsRun(bits, q)
    requires (forall i :: i >= p.End() ==> !Bit(bits, i)) && forall i :: i >= q.End() ==> !Bit(bits, i)
    ensures p == q
  {
    assert Bit(bits, p.End() - 1) && Bit(bits, q.End() - 1);
    assert p.End() == q.End();
    forall i: nat | p.start < i < p.End() ensures !Begins(bits, i) { assert Bit(bits, i - 1); }
    forall i: nat | q.start < i < q.End() ensures !Begins(bits, i) { assert Bit(bits, i - 1); }
  }

  /** The state of the scan when the bits below i have been seen. */
  ghost predicate Scanned(bits: nat, i: nat, low: Point, high: Point, low0: Point, high0: Point, fingers: nat,
                          prevBit: bool) {
    && (prevBit <==> i > 0 && Bit(bits, i - 1))
    && (fingers == 0 ==> low == low0 && !prevBit && Clear(bits, 0, i))
    && (fingers >= 1 ==> low.num > 0 && Begins(bits, low.start) && Clear(bits, 0, low.start)
                         && Full(bits, low.start, low.End()) && low.End() <= i)
    && (fingers == 1 && prevBit ==> low.End() == i)
    && (fingers <= 1 ==> high == high0)
    && (fingers == 1 && !prevBit ==> low.End() < i && Clear(bits, low.End(), i))
    && (fingers >= 2 ==> !Bit(bits, low.End()) && low.End() < high.start && high.num > 0 && Begins(bits, high.start)
                         && Full(bits, high.start, high.End()) && high.End() <= i)
    && (fingers >= 2 && prevBit ==> high.End() == i)
    && (fingers >= 2 && !prevBit ==> high.End() < i && Clear(bits, high.End(), i))
  }

  // A set bit opens a new run or lengthens the current one; a clear bit closes it.
  lemma OneMore(bits: nat, i: nat, low: Point, high: Point, low0: Point, high0: Point, fingers: nat, prevBit: bool)
    requires Scanned(bits, i, low, high, low0, high0, fingers, prevBit)
    ensures !Bit(bits, i) ==> Scanned(bits, i + 1, low, high, low0, high0, fingers, false)
    ensures Bit(bits, i) && prevBit && fingers == 1 ==>
      Scanned(bits, i + 1, low.(num := low.num + 1), high, low0, high0, fingers, true)
    ensures Bit(bits, i) && prevBit && fingers >= 2 ==>
      Scanned(bits, i + 1, low, high.(num := high.num + 1), low0, high0, fingers, true)
    ensures Bit(bits, i) && !prevBit && fingers == 0 ==>
      Scanned(bits, i + 1, Point(i, 1), high, low0, high0, 1, true)
    ensures Bit(bits, i) && !prevBit && fingers >= 1 ==>
      Scanned(bits, i + 1, low, Point(i, 1), low0, high0, fingers + 1, true)
  {
  }

  lemma AllSeen(bits: nat, i: nat, low: Point, high: Point, low0: Point, high0: Point, fingers: nat, prevBit: bool)
    requires bits < Pow2(WIDTH) && Scanned(bits, i, low, high, low0, high0, fingers, prevBit)
    requires fingers == |Beginnings(bits, i)| && forall j :: j >= i ==> !Bit(bits, j)
    ensures Found(bits, low, high, fingers)
  {
    SameBeginnings(bits, i);
    if bits != 0 {
      var j := SomeBit(bits);
    } else {
      forall j: nat ensures !Bit(bits, j) { NoBits(j); }
    }
  }

  /** One turn of the scan's loop; atHigh says that point has moved on to high. */
  method ScanBit(ghost bits: nat, i: nat, bit: bool, low: Point, high: Point, ghost low0: Point, ghost high0: Point,
                 fingers: nat, prevBit: bool, atHigh: bool)
      returns (low': Point, high': Point, fingers': nat, atHigh': bool)
    requires Scanned(bits, i, low, high, low0, high0, fingers, prevBit) && bit == Bit(bits, i)
    requires atHigh <==> fingers >= 2 || (fingers == 1 && !prevBit)
    ensures Scanned(bits, i + 1, low', high', low0, high0, fingers', bit)
    ensures atHigh' <==> fingers' >= 2 || (fingers' == 1 && !bit)
    ensures fingers' == fingers + if bit && !prevBit then 1 else 0
  {
    low', high', fingers', atHigh' := low, high, fingers, atHigh;
    OneMore(bits, i, low, high, low0, high0, fingers, prevBit);
    if bit {
      if !prevBit {
        if atHigh { high' := Point(i, 0); } else { low' := Point(i, 0); }
        fingers' := fingers + 1;
      }
      if atHigh { high' := high'.(num := high'.num + 1); } else { low' := low'.(num := low'.num + 1); }
    } else if prevBit {
      atHigh' := true;
    }
  }

  /** The map with its i lowest bits shifted out. */
  function Shift(bits: nat, i: nat): nat {
    if i == 0 then bits else Shift(bits, i - 1) / 2
  }

  lemma {:induction false} BitIsShift(bits: nat, i: nat, j: nat)
    ensures Bit(bits, i + j) == Bit(Shift(bits, i), j)
  {
    if i != 0 {
      BitIsShift(bits, i - 1, j + 1);
    }
  }

  lemma NoneLeft(bits: nat, i: nat)
    requires Shift(bits, i) == 0
    ensures forall j :: j >= i ==> !Bit(bits, j)
  {
    forall j: nat | j >= i ensures !Bit(bits, j) {
      BitIsShift(bits, i, j - i);
      NoBits(j - i);
    }
  }

  method GetBitmapPoints(bits: nat, low0: Point, high0: Point) returns (low: Point, high: Point, fingers: nat)
    requires bits < Pow2(WIDTH)
    ensures Found(bits, low, high, fingers)
    ensures fingers == 0 ==> low == low0
    ensures fingers <= 1 ==> high == high0
  {
    low, high, fingers := low0, high0, 0;
    var m, i, prevBit, atHigh := bits, 0, false, false;
    while m != 0
      invariant m == Shift(bits, i)
      invariant fingers == |Beginnings(bits, i)|
      invariant Scanned(bits, i, low, high, low0, high0, fingers, prevBit)
      invariant atHigh <==> fingers >= 2 || (fingers == 1 && !prevBit)
      decreases m
    {
      var bit := m % 2 == 1;
      BitIsShift(bits, i, 0);
      NextBeginnings(bits, i);
      low, high, fingers, atHigh := ScanBit(bits, i, bit, low, high, low0, high0, fingers, prevBit, atHigh);
      prevBit := bit;
      m, i := m / 2, i + 1;
    }
    NoneLeft(bits, i);
    AllSeen(bits, i, low, high, low0, high0, fingers, prevBit);
  }

  lemma {:induction false} NoBits(i: nat)
    ensures !Bit(0, i)
  {
    if i != 0 {
      NoBits(i - 1);
    }
  }

  lemma NextBeginnings(bits: nat, i: nat)
    ensures |Beginnings(bits, i + 1)| == |Beginnings(bits, i)| + if Begins(bits, i) then 1 else 0
  {
    assert Beginnings(bits, i + 1) == Beginnings(bits, i) + if Begins(bits, i) then {i} else {};
  }

  lemma SameBeginnings(bits: nat, n: nat)
    requires bits < Pow2(WIDTH) && forall j :: j >= n ==> !Bit(bits, j)
    ensures Beginnings(bits, n) == Beginnings(bits, WIDTH)
  {
    forall i: nat | Begins(bits, i) ensures i < n && i < WIDTH {
      BitBelow(bits, i, WIDTH);
    }
  }
}
