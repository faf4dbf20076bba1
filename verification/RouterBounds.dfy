/**
 * What rounding a stored cell bound does to the router.
 *
 * Canonicalisation rounds every stored bound to a multiple of 2^-20, up or down, after the table
 * has been built.  This module says exactly when that keeps the certificate.
 */
module RouterBounds {
  import opened Ravel
  import opened Router

  const Q20 := 0x10_0000

  /** The router agrees with the full scan on every query of cell `b`. */
  ghost predicate ExactInCell(cell: Cell, b: nat, keys: seq<Vector>, s: nat, width: nat)
    requires keys != [] && width > 0 && IdsOk(cell, |keys|, width)
  {
    forall x: Vector :: InDomain(x) && CellOf(x) == b ==>
      Routed(x, keys, s, width, cell) == Nearest(x, keys, s)
  }

  /** Whatever the expert table, storing `stored` where the built bound is `built` is harmless. */
  ghost predicate SafeBound(b: nat, s: nat, width: nat, built: int, stored: int)
    requires width > 0
  {
    forall keys: seq<Vector>, cell: Cell ::
      |keys| > width && IsRouteCell(cell, b, keys, s, width) && cell.bound == Finite(built) ==>
        ExactInCell(cell.(bound := Finite(stored)), b, keys, s, width)
  }

  /** A bound that some key can have: the squared offsets of the key from the cell on four axes. */
  function OffsetBound(o: seq<nat>): int
    requires |o| == 4
  {
    Square(o[0]) + Square(o[1]) + Square(o[2]) + Square(o[3])
  }

  lemma SafeBoundSufficient(b: nat, s: nat, width: nat, built: int, stored: int)
    requires width > 0 && stored <= built
    ensures SafeBound(b, s, width, built, stored)
  {
    forall keys: seq<Vector>, cell: Cell |
      |keys| > width && IsRouteCell(cell, b, keys, s, width) && cell.bound == Finite(built)
      ensures ExactInCell(cell.(bound := Finite(stored)), b, keys, s, width)
    {
      BuiltCellSound(cell, b, keys, s, width);
      var rounded := cell.(bound := Finite(stored));
      assert forall j :: Listed(rounded, Take(|keys|, width), j) <==> Listed(cell, Take(|keys|, width), j);
      forall x: Vector | InDomain(x) && CellOf(x) == b
        ensures Routed(x, keys, s, width, rounded) == Nearest(x, keys, s)
      {
        RoutedIsNearest(x, keys, s, width, rounded);
      }
    }
  }

  // ----- the failing family: an excluded expert as close as the listed ones -------------------

  /** A corner of cell `b` on axis `i`, and the direction that leaves the cell there. */
  function Corner(b: nat, i: nat): int
    requires i < 4
  {
    var lo := LO + 32 * CellDigit(b, i);
    if CellDigit(b, i) < 3 then lo + 31 else lo
  }

  function Outward(b: nat, i: nat): int
    requires i < 4
  {
    if CellDigit(b, i) < 3 then 1 else -1
  }

  function CornerQuery(b: nat): Vector {
    [Corner(b, 0), Corner(b, 1), Corner(b, 2), Corner(b, 3), 0, 0, 0, 0]
  }

  /** Leaves the cell by the offsets. */
  function OutsideKey(b: nat, s: nat, o: seq<nat>): Vector
    requires |o| == 4
  {
    [Corner(b, 0) * s + Outward(b, 0) * o[0], Corner(b, 1) * s + Outward(b, 1) * o[1],
     Corner(b, 2) * s + Outward(b, 2) * o[2], Corner(b, 3) * s + Outward(b, 3) * o[3], 0, 0, 0, 0]
  }

  /** Stays inside the cell; the offsets are on the axes the cell bound does not see. */
  function InsideKey(b: nat, s: nat, o: seq<nat>): Vector
    requires |o| == 4
  {
    [Corner(b, 0) * s, Corner(b, 1) * s, Corner(b, 2) * s, Corner(b, 3) * s, o[0], o[1], o[2], o[3]]
  }

  /** Expert 0 is outside the cell, experts 1 to `width` are inside. */
  function TieTable(b: nat, s: nat, width: nat, o: seq<nat>): (keys: seq<Vector>)
    requires |o| == 4
    ensures |keys| == width + 1
  {
    [OutsideKey(b, s, o)] + seq(width, _ => InsideKey(b, s, o))
  }

  function TieCell(width: nat, built: int): Cell {
    Cell(seq(width, i => i + 1), Finite(built))
  }

  lemma CornerInCell(b: nat)
    requires b < CELLS
    ensures InDomain(CornerQuery(b)) && CellOf(CornerQuery(b)) == b
  {
    var x := CornerQuery(b);
    var g0, g1, g2, g3 := CellDigit(b, 0), CellDigit(b, 1), CellDigit(b, 2), CellDigit(b, 3);
    assert AxisDigit(x[0]) == g0 && AxisDigit(x[1]) == g1 && AxisDigit(x[2]) == g2 && AxisDigit(x[3]) == g3;
    assert CellUpTo(x, 1) == g0;
    assert CellUpTo(x, 2) == 4 * g0 + g1;
    assert CellUpTo(x, 3) == 16 * g0 + 4 * g1 + g2;
    assert CellOf(x) == 64 * g0 + 16 * g1 + 4 * g2 + g3;
    CellFromDigits(b);
  }

  lemma CellFromDigits(b: nat)
    requires b < CELLS
    ensures b == 64 * CellDigit(b, 0) + 16 * CellDigit(b, 1) + 4 * CellDigit(b, 2) + CellDigit(b, 3)
  {
    assert b / 64 % 4 == b / 64 && b / 16 / 4 == b / 64 && b / 4 / 4 == b / 16;
  }

  lemma DistUnrolled(x: Vector, key: Vector, s: nat)
    ensures Dist(x, key, s) ==
            Square(x[0] * s - key[0]) + Square(x[1] * s - key[1]) +
            Square(x[2] * s - key[2]) + Square(x[3] * s - key[3]) +
            Square(x[4] * s - key[4]) + Square(x[5] * s - key[5]) +
            Square(x[6] * s - key[6]) + Square(x[7] * s - key[7])
  {
    forall d | 1 <= d <= D
      ensures DistUpTo(x, key, s, d) == DistUpTo(x, key, s, d - 1) + Square(x[d - 1] * s - key[d - 1])
    {
    }
    assert DistUpTo(x, key, s, 1) == Square(x[0] * s - key[0]);
    assert DistUpTo(x, key, s, 4) == DistUpTo(x, key, s, 1) +
      Square(x[1] * s - key[1]) + Square(x[2] * s - key[2]) + Square(x[3] * s - key[3]);
  }

  lemma SquareEven(v: int)
    ensures Square(-v) == Square(v)
  {
  }

  lemma TieDistances(b: nat, s: nat, o: seq<nat>)
    requires |o| == 4
    ensures Dist(CornerQuery(b), OutsideKey(b, s, o), s) == OffsetBound(o)
    ensures Dist(CornerQuery(b), InsideKey(b, s, o), s) == OffsetBound(o)
  {
    DistUnrolled(CornerQuery(b), OutsideKey(b, s, o), s);
    DistUnrolled(CornerQuery(b), InsideKey(b, s, o), s);
    forall i | 0 <= i < 4
      ensures Square(Corner(b, i) * s - (Corner(b, i) * s + Outward(b, i) * o[i])) == Square(o[i])
      ensures Square(0 * s - o[i]) == Square(o[i])
    {
      SquareEven(o[i]);
    }
    assert Square(0 * s - 0) == 0;
  }

  lemma OneAxis(b: nat, s: nat, i: nat, offset: nat)
    requires i < 4
    ensures var lo := (LO + 32 * CellDigit(b, i)) * s;
            AxisLb(Corner(b, i) * s + Outward(b, i) * offset, lo, lo + 31 * s) == Square(offset) &&
            AxisLb(Corner(b, i) * s, lo, lo + 31 * s) == 0
  {
    var g := LO + 32 * CellDigit(b, i);
    assert (g + 31) * s == g * s + 31 * s;
    if offset == 0 { assert Square(offset) == 0; }
  }

  function AxisBound(b: nat, key: Vector, s: nat, i: nat): int
    requires i < 4
  {
    var lo := (LO + 32 * CellDigit(b, i)) * s;
    AxisLb(key[i], lo, lo + 31 * s)
  }

  lemma CellLbUnrolled(b: nat, key: Vector, s: nat)
    ensures CellLb(b, key, s) ==
            AxisBound(b, key, s, 0) + AxisBound(b, key, s, 1) + AxisBound(b, key, s, 2) + AxisBound(b, key, s, 3)
  {
    forall d | 1 <= d <= 4
      ensures CellLbUpTo(b, key, s, d) == CellLbUpTo(b, key, s, d - 1) + AxisBound(b, key, s, d - 1)
    {
    }
    assert CellLbUpTo(b, key, s, 1) == AxisBound(b, key, s, 0);
  }

  /** The cell bound from its four axes. */
  lemma FourAxes(b: nat, key: Vector, s: nat, a: seq<int>)
    requires |a| == 4 && forall i :: 0 <= i < 4 ==> AxisBound(b, key, s, i) == a[i]
    ensures CellLb(b, key, s) == a[0] + a[1] + a[2] + a[3]
  {
    CellLbUnrolled(b, key, s);
  }

  lemma TieAxis(b: nat, s: nat, o: seq<nat>, i: nat)
    requires |o| == 4 && i < 4
    ensures AxisBound(b, OutsideKey(b, s, o), s, i) == Square(o[i])
    ensures AxisBound(b, InsideKey(b, s, o), s, i) == 0
  {
    OneAxis(b, s, i, o[i]);
    assert OutsideKey(b, s, o)[i] == Corner(b, i) * s + Outward(b, i) * o[i];
    assert InsideKey(b, s, o)[i] == Corner(b, i) * s;
  }

  lemma TieCellBounds(b: nat, s: nat, o: seq<nat>)
    requires |o| == 4
    ensures CellLb(b, OutsideKey(b, s, o), s) == OffsetBound(o)
    ensures CellLb(b, InsideKey(b, s, o), s) == 0
  {
    var outside, inside := OutsideKey(b, s, o), InsideKey(b, s, o);
    forall i: nat | i < 4
      ensures AxisBound(b, outside, s, i) == Square(o[i]) && AxisBound(b, inside, s, i) == 0
    {
      TieAxis(b, s, o, i);
    }
    TieSums(b, s, outside, inside, o);
  }

  lemma TieSums(b: nat, s: nat, outside: Vector, inside: Vector, o: seq<nat>)
    requires |o| == 4
    requires forall i: nat :: i < 4 ==> AxisBound(b, outside, s, i) == Square(o[i])
    requires forall i: nat :: i < 4 ==> AxisBound(b, inside, s, i) == 0
    ensures CellLb(b, outside, s) == OffsetBound(o) && CellLb(b, inside, s) == 0
  {
    FourAxes(b, outside, s, [Square(o[0]), Square(o[1]), Square(o[2]), Square(o[3])]);
    FourAxes(b, inside, s, [0, 0, 0, 0]);
  }

  lemma TieCellIsBuilt(b: nat, s: nat, width: nat, o: seq<nat>)
    requires |o| == 4 && OffsetBound(o) > 0 && 0 < width < INVALID
    ensures IsRouteCell(TieCell(width, OffsetBound(o)), b, TieTable(b, s, width, o), s, width)
  {
    var keys, cell := TieTable(b, s, width, o), TieCell(width, OffsetBound(o));
    var n, take := |keys|, width;
    var lb := seq(n, j requires 0 <= j < n => CellLb(b, keys[j], s));
    TieCellBounds(b, s, o);
    assert cell.ids[..take] == cell.ids;
    forall j | 0 <= j < n ensures Listed(cell, take, j) <==> j != 0 {
      if j > 0 { assert cell.ids[j - 1] == j; }
    }
    assert IsFirstExcluded(cell, lb, take, 0);
  }

  /** With a raised bound the router returns a listed expert although expert 0 wins the tie. */
  lemma RaisedBoundFails(b: nat, s: nat, width: nat, o: seq<nat>, stored: int)
    requires b < CELLS && |o| == 4 && 0 < OffsetBound(o) < stored && 0 < width < INVALID
    ensures var keys := TieTable(b, s, width, o);
            var cell := TieCell(width, stored);
            IdsOk(cell, |keys|, width) &&
            Routed(CornerQuery(b), keys, s, width, cell) != Nearest(CornerQuery(b), keys, s)
  {
    var x, keys, cell := CornerQuery(b), TieTable(b, s, width, o), TieCell(width, stored);
    CornerInCell(b);
    TieDistances(b, s, o);
    var best := ScanUpTo(x, keys, s, cell.ids, width);
    assert best in cell.ids[..width];
    assert best >= 1;
    assert Dist(x, keys[best], s) == OffsetBound(o);
    assert forall j :: 0 < j < |keys| ==> Dist(x, keys[j], s) == OffsetBound(o);
    assert IsNearest(x, keys, s, 0);
    NearestCharacterised(x, keys, s, 0);
  }

  // ----- a built bound of zero ---------------------------------------------------------------------

  /** With a bound of one only a distance of zero is certified, and listed experts have the smaller ids. */
  lemma UnitSafe(b: nat, s: nat, width: nat)
    requires width > 0
    ensures SafeBound(b, s, width, 0, 1)
  {
    forall keys: seq<Vector>, cell: Cell |
      |keys| > width && IsRouteCell(cell, b, keys, s, width) && cell.bound == Finite(0)
      ensures ExactInCell(cell.(bound := Finite(1)), b, keys, s, width)
    {
      forall x: Vector | InDomain(x) && CellOf(x) == b
        ensures Routed(x, keys, s, width, cell.(bound := Finite(1))) == Nearest(x, keys, s)
      {
        UnitExact(x, keys, s, width, cell);
      }
    }
  }

  lemma UnitExact(x: Vector, keys: seq<Vector>, s: nat, width: nat, cell: Cell)
    requires width > 0 && |keys| > width && InDomain(x) && IsRouteCell(cell, CellOf(x), keys, s, width)
    ensures Routed(x, keys, s, width, cell.(bound := Finite(1))) == Nearest(x, keys, s)
  {
    var best := ScanUpTo(x, keys, s, cell.ids, width);
    if Dist(x, keys[best], s) < 1 {
      var b := CellOf(x);
      var lb := seq(|keys|, j requires 0 <= j < |keys| => CellLb(b, keys[j], s));
      var i :| 0 <= i < width && cell.ids[i] == best;
      ScanIsBest(x, keys, s, cell.ids, width);
      forall j | 0 <= j < |keys| && j != best
        ensures Better(Dist(x, keys[best], s), best, Dist(x, keys[j], s), j)
      {
        if Listed(cell, width, j) {
          var k :| 0 <= k < width && cell.ids[k] == j;
        } else {
          CellLbBelowDist(x, keys[j], s);
          assert Precedes(lb, best, j);
        }
      }
      NearestCharacterised(x, keys, s, best);
    }
  }

  /** The listed experts are one step away, the one left out is at the corner itself. */
  function NearTable(b: nat, s: nat, width: nat): (keys: seq<Vector>)
    ensures |keys| == width + 1
  {
    seq(width, _ => InsideKey(b, s, [1, 0, 0, 0])) + [InsideKey(b, s, [0, 0, 0, 0])]
  }

  function NearCell(width: nat, bound: int): Cell { Cell(seq(width, i => i), Finite(bound)) }

  lemma NearCellIsBuilt(b: nat, s: nat, width: nat)
    requires 0 < width < INVALID
    ensures IsRouteCell(NearCell(width, 0), b, NearTable(b, s, width), s, width)
  {
    var keys, cell := NearTable(b, s, width), NearCell(width, 0);
    var n := |keys|;
    var lb := seq(n, j requires 0 <= j < n => CellLb(b, keys[j], s));
    TieCellBounds(b, s, [1, 0, 0, 0]);
    TieCellBounds(b, s, [0, 0, 0, 0]);
    assert cell.ids[..width] == cell.ids;
    forall j | 0 <= j < n ensures Listed(cell, width, j) <==> j != width {
      if j < width { assert cell.ids[j] == j; }
    }
    assert IsFirstExcluded(cell, lb, width, width);
  }

  /** A bound of two certifies a listed expert at distance one. */
  lemma NearBoundFails(b: nat, s: nat, width: nat, stored: int)
    requires b < CELLS && stored >= 2 && 0 < width < INVALID
    ensures var keys, cell := NearTable(b, s, width), NearCell(width, stored);
            IdsOk(cell, |keys|, width) &&
            Routed(CornerQuery(b), keys, s, width, cell) != Nearest(CornerQuery(b), keys, s)
  {
    var x, keys, cell := CornerQuery(b), NearTable(b, s, width), NearCell(width, stored);
    CornerInCell(b);
    TieDistances(b, s, [1, 0, 0, 0]);
    TieDistances(b, s, [0, 0, 0, 0]);
    var best := ScanUpTo(x, keys, s, cell.ids, width);
    assert best in cell.ids[..width];
    assert Square(1) == 1 && Square(0) == 0;
    assert best < width && Dist(x, keys[best], s) == 1;
    forall j | 0 <= j < width ensures Dist(x, keys[j], s) == 1 {}
    assert IsNearest(x, keys, s, width);
    NearestCharacterised(x, keys, s, width);
  }

  // ----- the exact condition -----------------------------------------------------------------------

  /**
   * Storing `stored` in place of a built bound keeps the router exact iff it is no larger, but that one
   * is as good as a built bound of zero.
   */
  lemma SafeBoundIff(b: nat, s: nat, width: nat, o: seq<nat>, stored: int)
    requires b < CELLS && |o| == 4 && 0 < width < INVALID
    ensures SafeBound(b, s, width, OffsetBound(o), stored) <==>
            stored <= OffsetBound(o) || (OffsetBound(o) == 0 && stored == 1)
  {
    if stored <= OffsetBound(o) {
      SafeBoundSufficient(b, s, width, OffsetBound(o), stored);
    } else if OffsetBound(o) > 0 {
      TieUnsafe(b, s, width, o, stored);
    } else if stored == 1 {
      UnitSafe(b, s, width);
    } else {
      NearUnsafe(b, s, width, stored);
    }
  }

  lemma TieUnsafe(b: nat, s: nat, width: nat, o: seq<nat>, stored: int)
    requires b < CELLS && |o| == 4 && 0 < OffsetBound(o) < stored && 0 < width < INVALID
    ensures !SafeBound(b, s, width, OffsetBound(o), stored)
  {
    var keys, built := TieTable(b, s, width, o), TieCell(width, OffsetBound(o));
    TieCellIsBuilt(b, s, width, o);
    RaisedBoundFails(b, s, width, o, stored);
    CornerInCell(b);
    assert built.(bound := Finite(stored)) == TieCell(width, stored);
    assert !ExactInCell(TieCell(width, stored), b, keys, s, width);
  }

  lemma NearUnsafe(b: nat, s: nat, width: nat, stored: int)
    requires b < CELLS && stored >= 2 && 0 < width < INVALID
    ensures !SafeBound(b, s, width, 0, stored)
  {
    var keys, built := NearTable(b, s, width), NearCell(width, 0);
    NearCellIsBuilt(b, s, width);
    NearBoundFails(b, s, width, stored);
    CornerInCell(b);
    assert built.(bound := Finite(stored)) == NearCell(width, stored);
    assert !ExactInCell(NearCell(width, stored), b, keys, s, width);
  }

  // ----- canonicalisation ---------------------------------------------------------------------

  /** Rounding to a multiple of 2^-20, half away from zero, in units of 2^-40. */
  function CanonicalBound(built: nat): int { (built + Q20 / 2) / Q20 * Q20 }

  lemma RoundsDownIff(built: nat)
    ensures CanonicalBound(built) <= built <==> built % Q20 < Q20 / 2
  {
    var q, r := built / Q20, built % Q20;
    assert built == q * Q20 + r;
    assert (built + Q20 / 2) / Q20 == if r < Q20 / 2 then q else q + 1;
  }

  /**
   * After canonicalisation (keys are multiples of 2^-20) the certificate of a cell survives
   * exactly when the discarded low bits of its built bound are below one half.
   */
  lemma CanonicalBoundSafeIff(b: nat, width: nat, o: seq<nat>)
    requires b < CELLS && |o| == 4 && 0 < width < INVALID
    ensures SafeBound(b, Q20, width, OffsetBound(o), CanonicalBound(OffsetBound(o))) <==>
            OffsetBound(o) % Q20 < Q20 / 2
  {
    SafeBoundIff(b, Q20, width, o, CanonicalBound(OffsetBound(o)));
    RoundsDownIff(OffsetBound(o));
  }

  /**
   * A concrete failure: one expert 750 * 2^-20 outside cell 0, eight experts in the cell at the
   * same distance from the query.  The built bound is 562500 * 2^-40, the stored one 2^-20.
   */
  lemma CanonicalRoutingFails()
    ensures var keys := TieTable(0, Q20, 8, [750, 0, 0, 0]);
            var cell := TieCell(8, CanonicalBound(562500));
            IsRouteCell(cell.(bound := Finite(562500)), 0, keys, Q20, 8) &&
            Routed(CornerQuery(0), keys, Q20, 8, cell) != Nearest(CornerQuery(0), keys, Q20)
  {
    var o: seq<nat> := [750, 0, 0, 0];
    assert OffsetBound(o) == 562500;
    TieCellIsBuilt(0, Q20, 8, o);
    RaisedBoundFails(0, Q20, 8, o, CanonicalBound(562500));
    assert TieCell(8, CanonicalBound(562500)).(bound := Finite(562500)) == TieCell(8, 562500);
  }
}
