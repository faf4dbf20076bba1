/** What the numbers of the router mean, written out: distances, cells, cell bounds, listed experts, outputs. */
module RouterLaws {
  import opened Ravel
  import opened Router
  import opened RouterBounds
  import Capsule

  function Sq(v: int): int { v * v }

  /** The squared distance over all eight coordinates. */
  function Distance(x: Vector, key: Vector, s: nat): int {
    Sq(x[0] * s - key[0]) + Sq(x[1] * s - key[1]) + Sq(x[2] * s - key[2]) + Sq(x[3] * s - key[3]) +
    Sq(x[4] * s - key[4]) + Sq(x[5] * s - key[5]) + Sq(x[6] * s - key[6]) + Sq(x[7] * s - key[7])
  }

  lemma DistIs(x: Vector, key: Vector, s: nat)
    ensures Dist(x, key, s) == Distance(x, key, s)
  {
    DistUnrolled(x, key, s);
  }

  /** No expert is closer than the answer, and none of smaller id is as close. */
  lemma NearestIs(x: Vector, keys: seq<Vector>, s: nat, best: int)
    requires keys != []
    ensures best == Nearest(x, keys, s) <==>
            0 <= best < |keys| &&
            (forall j :: 0 <= j < |keys| ==> Distance(x, keys[best], s) <= Distance(x, keys[j], s)) &&
            forall j :: 0 <= j < best ==> Distance(x, keys[best], s) < Distance(x, keys[j], s)
  {
    hide Distance, Dist, Nearest;
    NearestCharacterised(x, keys, s, best);
    forall j | 0 <= j < |keys| ensures Dist(x, keys[j], s) == Distance(x, keys[j], s) { DistIs(x, keys[j], s); }
  }

  // ----- cells --------------------------------------------------------------------------------------------------

  /** Quarter of the axis from -64 to 63 that a coordinate lies in; what lies outside goes to the outer quarters. */
  function Quarter(v: int): int { if v < -32 then 0 else if v < 0 then 1 else if v < 32 then 2 else 3 }

  /** The cell number: the quarters of the first four axes as digits to base four. */
  lemma CellIs(x: Vector)
    ensures CellOf(x) == 64 * Quarter(x[0]) + 16 * Quarter(x[1]) + 4 * Quarter(x[2]) + Quarter(x[3])
    ensures InDomain(x) <==> forall i :: 0 <= i < 8 ==> -64 <= x[i] <= 63
  {
    var g0, g1, g2, g3 := AxisDigit(x[0]), AxisDigit(x[1]), AxisDigit(x[2]), AxisDigit(x[3]);
    QuarterIs(x[0]);
    QuarterIs(x[1]);
    QuarterIs(x[2]);
    QuarterIs(x[3]);
    assert CellUpTo(x, 1) == g0;
    assert CellUpTo(x, 2) == 4 * g0 + g1;
    assert CellUpTo(x, 3) == 16 * g0 + 4 * g1 + g2;
  }

  lemma QuarterIs(v: int)
    ensures AxisDigit(v) == Quarter(v)
  {
  }

  /** How far a coordinate of a key lies outside the quarter, in units of 1/s. */
  function Outside(k: int, quarter: int, s: nat): int {
    var lo, hi := (-64 + 32 * quarter) * s, (-33 + 32 * quarter) * s;
    if k < lo then lo - k else if k > hi then k - hi else 0
  }

  /** The cell bound of a key: the squares of what its first four coordinates lie outside. */
  lemma CellLbIs(key: Vector, s: nat, g: seq<int>)
    requires |g| == 4 && forall i :: 0 <= i < 4 ==> 0 <= g[i] <= 3
    ensures CellLb(64 * g[0] + 16 * g[1] + 4 * g[2] + g[3], key, s) ==
            Sq(Outside(key[0], g[0], s)) + Sq(Outside(key[1], g[1], s)) +
            Sq(Outside(key[2], g[2], s)) + Sq(Outside(key[3], g[3], s))
  {
    var b := 64 * g[0] + 16 * g[1] + 4 * g[2] + g[3];
    DigitsOf(g[0], g[1], g[2], g[3]);
    assert (16 * g[0] + 4 * g[1] + g[2]) * 4 + g[3] == b;
    hide CellLb, Outside, CellDigit, AxisLb;
    CellLbUnrolled(b, key, s);
    AxisIs(b, key, s, 0, g[0]);
    AxisIs(b, key, s, 1, g[1]);
    AxisIs(b, key, s, 2, g[2]);
    AxisIs(b, key, s, 3, g[3]);
  }

  lemma AxisIs(b: nat, key: Vector, s: nat, i: nat, g: int)
    requires i < 4 && CellDigit(b, i) == g
    ensures AxisBound(b, key, s, i) == Sq(Outside(key[i], g, s))
  {
    assert (-64 + 32 * g + 31) * s == (-64 + 32 * g) * s + 31 * s;
  }

  /** In whole units the cell bound is attained: some query of the cell is as close on the first four axes. */
  lemma CellLbAttained(key: Vector, g: seq<int>) returns (x: Vector)
    requires |g| == 4 && forall i :: 0 <= i < 4 ==> 0 <= g[i] <= 3
    ensures InDomain(x) && CellOf(x) == 64 * g[0] + 16 * g[1] + 4 * g[2] + g[3]
    ensures Sq(x[0] - key[0]) + Sq(x[1] - key[1]) + Sq(x[2] - key[2]) + Sq(x[3] - key[3]) ==
            CellLb(64 * g[0] + 16 * g[1] + 4 * g[2] + g[3], key, 1)
  {
    x := [Clamp(key[0], g[0]), Clamp(key[1], g[1]), Clamp(key[2], g[2]), Clamp(key[3], g[3]), 0, 0, 0, 0];
    hide CellLb, CellOf;
    CellIs(x);
    CellLbIs(key, 1, g);
    ClampIs(key[0], g[0]);
    ClampIs(key[1], g[1]);
    ClampIs(key[2], g[2]);
    ClampIs(key[3], g[3]);
  }

  function Clamp(k: int, quarter: int): int {
    var lo, hi := -64 + 32 * quarter, -33 + 32 * quarter;
    if k < lo then lo else if k > hi then hi else k
  }

  lemma ClampIs(k: int, quarter: int)
    requires 0 <= quarter <= 3
    ensures -64 <= Clamp(k, quarter) <= 63 && Quarter(Clamp(k, quarter)) == quarter
    ensures Sq(Clamp(k, quarter) - k) == Sq(Outside(k, quarter, 1))
  {
  }

  // ----- the table ----------------------------------------------------------------------------------------------

  predicate Before(b: nat, keys: seq<Vector>, s: nat, i: int, j: int)
    requires 0 <= i < |keys| && 0 <= j < |keys|
  {
    CellLb(b, keys[i], s) < CellLb(b, keys[j], s) || (CellLb(b, keys[i], s) == CellLb(b, keys[j], s) && i < j)
  }

  lemma PrecedesIs(b: nat, keys: seq<Vector>, s: nat, lb: seq<int>)
    requires lb == seq(|keys|, j requires 0 <= j < |keys| => CellLb(b, keys[j], s))
    ensures forall i, j :: 0 <= i < |keys| && 0 <= j < |keys| ==> (Precedes(lb, i, j) <==> Before(b, keys, s, i, j))
  {
  }

  /** A built cell: as many experts as fit, in order, all before those left out. */
  lemma BuiltCellSays(cell: Cell, b: nat, keys: seq<Vector>, s: nat, width: nat)
    requires IsRouteCell(cell, b, keys, s, width)
    ensures |cell.ids| == width
    ensures var take := if |keys| < width then |keys| else width;
            (forall i :: take <= i < width ==> cell.ids[i] == 65535) &&
            (forall i :: 0 <= i < take ==> 0 <= cell.ids[i] < |keys|) &&
            (forall i, k :: 0 <= i < k < take ==> Before(b, keys, s, cell.ids[i], cell.ids[k])) &&
            forall i, j :: 0 <= i < take && 0 <= j < |keys| && j !in cell.ids[..take] ==>
              Before(b, keys, s, cell.ids[i], j)
  {
    hide Before, Precedes;
    var lb := seq(|keys|, j requires 0 <= j < |keys| => CellLb(b, keys[j], s));
    PrecedesIs(b, keys, s, lb);
    var take := if |keys| < width then |keys| else width;
    forall i, j | 0 <= i < take && 0 <= j < |keys| && j !in cell.ids[..take]
      ensures Before(b, keys, s, cell.ids[i], j)
    {
      assert !Listed(cell, take, j) && Precedes(lb, cell.ids[i], j);
    }
    forall i, k | 0 <= i < k < take ensures Before(b, keys, s, cell.ids[i], cell.ids[k]) {
      assert Precedes(lb, cell.ids[i], cell.ids[k]);
    }
  }

  /** Its bound is the least cell bound of those left out. */
  lemma BuiltBoundSays(cell: Cell, b: nat, keys: seq<Vector>, s: nat, width: nat)
    requires IsRouteCell(cell, b, keys, s, width)
    ensures |keys| <= width ==> cell.bound == Unbounded
    ensures |keys| > width ==>
              cell.bound.Finite? &&
              (forall j :: 0 <= j < |keys| && j !in cell.ids ==> cell.bound.value <= CellLb(b, keys[j], s)) &&
              exists j :: 0 <= j < |keys| && j !in cell.ids && cell.bound.value == CellLb(b, keys[j], s)
  {
    hide CellLb;
    var lb := seq(|keys|, j requires 0 <= j < |keys| => CellLb(b, keys[j], s));
    if |keys| > width {
      assert cell.ids[..width] == cell.ids;
      var c :| IsFirstExcluded(cell, lb, width, c);
      forall j | 0 <= j < |keys| && j !in cell.ids ensures cell.bound.value <= CellLb(b, keys[j], s) {
        assert j == c || Precedes(lb, c, j);
      }
      assert c !in cell.ids;
    }
  }

  /** The certificate: every coordinate in the domain, and the best listed expert below the stored bound. */
  lemma CertifiedSays(x: Vector, keys: seq<Vector>, s: nat, width: nat, cell: Cell)
    requires keys != [] && width > 0 && IdsOk(cell, |keys|, width)
    ensures var take := if |keys| < width then |keys| else width;
            Certified(x, keys, s, width, cell) <==>
            (forall i :: 0 <= i < 8 ==> -64 <= x[i] <= 63) &&
            (cell.bound.Finite? ==> exists i :: 0 <= i < take && Distance(x, keys[cell.ids[i]], s) < cell.bound.value)
  {
    hide Distance, Dist;
    var take := Take(|keys|, width);
    var best := ScanUpTo(x, keys, s, cell.ids, take);
    ScanIsBest(x, keys, s, cell.ids, take);
    assert best in cell.ids[..take];
    forall j | 0 <= j < |keys| ensures Dist(x, keys[j], s) == Distance(x, keys[j], s) { DistIs(x, keys[j], s); }
    CellIs(x);
  }

  /** The output of an expert: its offset and the inner product with its weights. */
  lemma OutputIs(q: Vector, w: Vector, z: int)
    ensures Capsule.OutputUpTo(q, w, z, D) ==
            z + q[0] * w[0] + q[1] * w[1] + q[2] * w[2] + q[3] * w[3] + q[4] * w[4] + q[5] * w[5] + q[6] * w[6] +
            q[7] * w[7]
  {
    hide *;
    OutputStep(q, w, z, 0);
    OutputStep(q, w, z, 2);
    OutputStep(q, w, z, 4);
    OutputStep(q, w, z, 6);
    OutputEnds(q, w, z);
  }

  lemma OutputStep(q: Vector, w: Vector, z: int, i: nat)
    requires i < 7
    ensures Capsule.OutputUpTo(q, w, z, i + 2) ==
            Capsule.OutputUpTo(q, w, z, i) + q[i] * w[i] + q[i + 1] * w[i + 1]
  {
  }

  lemma OutputEnds(q: Vector, w: Vector, z: int)
    ensures Capsule.OutputUpTo(q, w, z, 0) == z && Capsule.OutputUpTo(q, w, z, 8) == Capsule.OutputUpTo(q, w, z, D)
  {
  }
}
