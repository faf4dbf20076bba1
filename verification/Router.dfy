/**
 * The certified nearest-expert router of RAVEL.
 *
 * Both versions of the engine share it.  Keys are doubles in version 0.5 and small integers in
 * the 0.1 capsule.  A finite table of doubles has a common power-of-two denominator `s`, so the
 * model holds key coordinates as integers in units of 1/s and squared distances in units of 1/s^2;
 * this loses nothing but the rounding of the floating-point operations.  The capsule has s == 1.
 * `width` is the number of experts a cell lists: 8 in version 0.5, 24 in the capsule.
 */
module Router {
  import opened Prelude
  import opened Ravel

  const CELLS := 256
  const LO := -64
  const HI := 63

  type Vector = v: seq<int> | |v| == D witness [0, 0, 0, 0, 0, 0, 0, 0]

  /** A stored lower bound; `Unbounded` stands for DBL_MAX. */
  datatype Bound = Finite(value: int) | Unbounded

  datatype Cell = Cell(ids: seq<int>, bound: Bound)

  // ----- distances ------------------------------------------------------------------------

  function DistUpTo(x: Vector, key: Vector, s: nat, d: nat): (total: int)
    requires d <= D
    ensures 0 <= total
  {
    if d == 0 then 0
    else
      DistUpTo(x, key, s, d - 1) + Square(x[d - 1] * s - key[d - 1])
  }

  function Dist(x: Vector, key: Vector, s: nat): int { DistUpTo(x, key, s, D) }

  /** Distance first, then the smaller id. */
  predicate Better(d: int, id: int, bestD: int, bestId: int) {
    d < bestD || (d == bestD && id < bestId)
  }

  // ----- cells ----------------------------------------------------------------------------

  predicate InDomain(x: Vector) { forall d :: 0 <= d < D ==> LO <= x[d] <= HI }

  function AxisDigit(v: int): (g: int)
    ensures 0 <= g <= 3
    ensures LO <= v <= HI ==> LO + 32 * g <= v <= LO + 32 * g + 31
  {
    var g := TruncDiv(v - LO, 32);
    if g < 0 then 0 else if g > 3 then 3 else g
  }

  /** The two bits of cell number `b` that belong to axis `i`. */
  function CellDigit(b: nat, i: nat): (g: int)
    requires i < 4
    ensures 0 <= g <= 3
  {
    (if i == 0 then b / 64 else if i == 1 then b / 16 else if i == 2 then b / 4 else b) % 4
  }

  function CellUpTo(x: Vector, d: nat): (cell: nat)
    requires d <= 4
  {
    if d == 0 then 0 else CellUpTo(x, d - 1) * 4 + AxisDigit(x[d - 1])
  }

  function CellOf(x: Vector): nat { CellUpTo(x, 4) }

  lemma CellOfDigits(x: Vector)
    ensures CellOf(x) < CELLS
    ensures forall i :: 0 <= i < 4 ==> CellDigit(CellOf(x), i) == AxisDigit(x[i])
  {
    var g0, g1, g2, g3 := AxisDigit(x[0]), AxisDigit(x[1]), AxisDigit(x[2]), AxisDigit(x[3]);
    assert CellUpTo(x, 1) == g0;
    assert CellUpTo(x, 2) == 4 * g0 + g1;
    assert CellUpTo(x, 3) == 16 * g0 + 4 * g1 + g2;
    DigitsOf(g0, g1, g2, g3);
  }

  lemma DigitsOf(g0: int, g1: int, g2: int, g3: int)
    requires 0 <= g0 < 4 && 0 <= g1 < 4 && 0 <= g2 < 4 && 0 <= g3 < 4
    ensures var b := (16 * g0 + 4 * g1 + g2) * 4 + g3;
            0 <= b < CELLS &&
            CellDigit(b, 0) == g0 && CellDigit(b, 1) == g1 && CellDigit(b, 2) == g2 && CellDigit(b, 3) == g3
  {
    var b := (16 * g0 + 4 * g1 + g2) * 4 + g3;
    assert b == 64 * g0 + (16 * g1 + 4 * g2 + g3);
    assert b / 64 == g0 && b / 16 == 4 * g0 + g1 && b / 4 == 16 * g0 + 4 * g1 + g2;
  }

  method CellId(x: Vector) returns (cell: nat, inDomain: bool)
    ensures cell == CellOf(x) && inDomain == InDomain(x)
  {
    cell, inDomain := 0, true;
    for d := 0 to D
      invariant inDomain == forall k :: 0 <= k < d ==> LO <= x[k] <= HI
    {
      if x[d] < LO || x[d] > HI { inDomain := false; }
    }
    for d := 0 to 4
      invariant cell == CellUpTo(x, d)
    {
      var v := TruncDiv(x[d] - LO, 32);
      if v < 0 { v := 0; }
      if v > 3 { v := 3; }
      cell := cell * 4 + v;
    }
  }

  function Square(v: int): (r: int)
    ensures 0 <= r
  {
    v * v
  }

  lemma SquareMonotone(a: int, z: int)
    requires 0 <= a && (a <= z || z <= -a)
    ensures Square(a) <= Square(z)
  {
    var y := if z < 0 then -z else z;
    assert Square(z) == y * y;
    assert y * y - a * a == (y - a) * (y + a);
  }

  function AxisLb(c: int, lo: int, hi: int): (r: int)
    ensures 0 <= r
  {
    if c < lo then Square(lo - c) else if c > hi then Square(c - hi) else 0
  }

  lemma AxisLbBelow(c: int, lo: int, hi: int, x: int)
    requires lo <= x <= hi
    ensures AxisLb(c, lo, hi) <= Square(x - c)
  {
    if c < lo { SquareMonotone(lo - c, x - c); }
    if c > hi { SquareMonotone(c - hi, x - c); }
  }

  function CellLbUpTo(b: nat, key: Vector, s: nat, d: nat): (lower: int)
    requires d <= 4
    ensures 0 <= lower
  {
    if d == 0 then 0
    else
      var lo := (LO + 32 * CellDigit(b, d - 1)) * s;
      CellLbUpTo(b, key, s, d - 1) + AxisLb(key[d - 1], lo, lo + 31 * s)
  }

  function CellLb(b: nat, key: Vector, s: nat): int { CellLbUpTo(b, key, s, 4) }

  /** The cell bound never exceeds the distance of any query inside the cell. */
  lemma {:induction false} CellLbBelowDist(x: Vector, key: Vector, s: nat)
    requires InDomain(x)
    ensures CellLb(CellOf(x), key, s) <= Dist(x, key, s)
  {
    CellLbPrefix(x, key, s, 4);
    DistGrows(x, key, s, 4, D);
  }

  lemma {:induction false} CellLbPrefix(x: Vector, key: Vector, s: nat, d: nat)
    requires InDomain(x) && d <= 4
    ensures CellLbUpTo(CellOf(x), key, s, d) <= DistUpTo(x, key, s, d)
  {
    if d > 0 {
      CellLbPrefix(x, key, s, d - 1);
      CellOfDigits(x);
      var i := d - 1;
      var g := CellDigit(CellOf(x), i);
      assert g == AxisDigit(x[i]);
      var lo := (LO + 32 * g) * s;
      Scale(LO + 32 * g, x[i], s);
      Scale(x[i], LO + 32 * g + 31, s);
      assert (LO + 32 * g + 31) * s == lo + 31 * s;
      AxisLbBelow(key[i], lo, lo + 31 * s, x[i] * s);
    }
  }

  lemma Scale(a: int, b: int, s: nat)
    requires a <= b
    ensures a * s <= b * s
  {
  }

  lemma {:induction false} DistGrows(x: Vector, key: Vector, s: nat, d: nat, e: nat)
    requires d <= e <= D
    ensures DistUpTo(x, key, s, d) <= DistUpTo(x, key, s, e)
  {
    if d < e {
      DistGrows(x, key, s, d, e - 1);
    }
  }

  // ----- the full scan --------------------------------------------------------------------

  /** Some expert has the least (distance, id) pair. */
  predicate IsNearest(x: Vector, keys: seq<Vector>, s: nat, id: int) {
    0 <= id < |keys| &&
    forall j :: 0 <= j < |keys| && j != id ==>
      Better(Dist(x, keys[id], s), id, Dist(x, keys[j], s), j)
  }

  function NearestUpTo(x: Vector, keys: seq<Vector>, s: nat, n: nat): (best: int)
    requires 0 < n <= |keys|
    ensures 0 <= best < n
  {
    if n == 1 then 0
    else
      var prior := NearestUpTo(x, keys, s, n - 1);
      if Better(Dist(x, keys[n - 1], s), n - 1, Dist(x, keys[prior], s), prior)
      then n - 1 else prior
  }

  function Nearest(x: Vector, keys: seq<Vector>, s: nat): int {
    if keys == [] then INVALID else NearestUpTo(x, keys, s, |keys|)
  }

  lemma {:induction false} NearestUpToIsNearest(x: Vector, keys: seq<Vector>, s: nat, n: nat)
    requires 0 < n <= |keys|
    ensures IsNearest(x, keys[..n], s, NearestUpTo(x, keys, s, n))
  {
    if n > 1 {
      NearestUpToIsNearest(x, keys, s, n - 1);
      forall j | 0 <= j < n - 1 ensures keys[..n - 1][j] == keys[..n][j] {}
    }
  }

  lemma NearestCharacterised(x: Vector, keys: seq<Vector>, s: nat, id: int)
    requires keys != []
    ensures IsNearest(x, keys, s, id) <==> id == Nearest(x, keys, s)
  {
    NearestUpToIsNearest(x, keys, s, |keys|);
    assert keys[..|keys|] == keys;
    var best := Nearest(x, keys, s);
    if IsNearest(x, keys, s, id) && id != best {
      assert false;
    }
  }

  method FullNearest(x: Vector, keys: seq<Vector>, s: nat, evaluations: nat)
    returns (best: int, evaluations': nat)
    ensures best == Nearest(x, keys, s)
    ensures evaluations' == evaluations + |keys|
  {
    evaluations' := evaluations;
    if |keys| == 0 { return INVALID, evaluations'; }
    best := INVALID;
    var bestD := Unbounded;
    for j := 0 to |keys|
      invariant evaluations' == evaluations + j
      invariant j == 0 ==> bestD == Unbounded
      invariant j > 0 ==> best == NearestUpTo(x, keys, s, j) && bestD == Finite(Dist(x, keys[best], s))
    {
      var d := Dist(x, keys[j], s);
      evaluations' := evaluations' + 1;
      if bestD.Unbounded? || Better(d, j, bestD.value, best) {
        bestD, best := Finite(d), j;
      }
    }
  }

  // ----- building the table ---------------------------------------------------------------

  function Take(n: nat, width: nat): nat { if n < width then n else width }

  /** Expert `i` precedes expert `j` in the order of one cell. */
  predicate Precedes(lb: seq<int>, i: int, j: int)
    requires 0 <= i < |lb| && 0 <= j < |lb|
  {
    Better(lb[i], i, lb[j], j)
  }

  /** `ids` is a permutation of the indices of `lb`, with inverse `pos`. */
  predicate IsPermutation(ids: seq<int>, pos: seq<int>, n: nat) {
    |ids| == n && |pos| == n &&
    (forall k :: 0 <= k < n ==> 0 <= ids[k] < n && pos[ids[k]] == k) &&
    (forall j :: 0 <= j < n ==> 0 <= pos[j] < n && ids[pos[j]] == j)
  }

  /** The first `need` entries of `ids` are the smallest ones, in order. */
  predicate PrefixSelected(lb: seq<int>, ids: seq<int>, need: nat)
    requires |ids| == |lb| && forall k :: 0 <= k < |ids| ==> 0 <= ids[k] < |lb|
  {
    forall i, k :: 0 <= i < need && i < k < |ids| ==> Precedes(lb, ids[i], ids[k])
  }

  function Swapped(ids: seq<int>, i: nat, k: nat): seq<int>
    requires i < |ids| && k < |ids|
  {
    ids[i := ids[k]][k := ids[i]]
  }

  lemma SwapStep(lb: seq<int>, ids: seq<int>, pos: seq<int>, i: nat, best: nat) returns (pos': seq<int>)
    requires i <= best < |lb| && IsPermutation(ids, pos, |lb|)
    requires PrefixSelected(lb, ids, i)
    requires forall k :: i <= k < |lb| && k != best ==> Precedes(lb, ids[best], ids[k])
    ensures IsPermutation(Swapped(ids, i, best), pos', |lb|)
    ensures PrefixSelected(lb, Swapped(ids, i, best), i + 1)
  {
    pos' := pos[ids[best] := i][ids[i] := best];
  }

  /** Partial selection sort in place: `need` rounds over (distance, id) pairs. */
  method SelectSmallest(dist: array<int>, ids: array<int>, need: nat) returns (ghost pos: seq<int>)
    requires dist != ids && dist.Length == ids.Length && need <= dist.Length
    requires forall k :: 0 <= k < ids.Length ==> ids[k] == k
    modifies dist, ids
    ensures IsPermutation(ids[..], pos, ids.Length)
    ensures Paired(dist[..], ids[..], old(dist[..])) && PrefixSelected(old(dist[..]), ids[..], need)
  {
    var n := dist.Length;
    ghost var lb := dist[..];
    pos := seq(n, j => j);
    for i := 0 to need
      invariant IsPermutation(ids[..], pos, n)
      invariant Paired(dist[..], ids[..], lb) && PrefixSelected(lb, ids[..], i)
    {
      var best := SmallestFrom(dist, ids, i, lb, pos);
      pos := SwapStep(lb, ids[..], pos, i, best);
      SwapKeepsPairs(dist[..], ids[..], lb, i, best);
      SwapPairs(dist, ids, i, best);
    }
  }

  /** The distances belong to the ids next to them. */
  predicate Paired(dist: seq<int>, ids: seq<int>, lb: seq<int>) {
    |dist| == |ids| == |lb| && forall k :: 0 <= k < |ids| ==> 0 <= ids[k] < |lb| && dist[k] == lb[ids[k]]
  }

  /** Among the pairs from `i` on, up to `n`, `best` comes first. */
  predicate ComesFirst(lb: seq<int>, ids: seq<int>, i: nat, n: nat, best: nat)
    requires n <= |ids| == |lb| && best < |ids| && forall k :: 0 <= k < |ids| ==> 0 <= ids[k] < |lb|
  {
    i <= best && forall k :: i <= k < n && k != best ==> Precedes(lb, ids[best], ids[k])
  }

  /** One more pair to compare with: ids are distinct, so one of two pairs comes first. */
  lemma Compared(lb: seq<int>, ids: seq<int>, pos: seq<int>, i: nat, best: nat, j: nat)
    requires IsPermutation(ids, pos, |lb|) && best < j < |ids| && ComesFirst(lb, ids, i, j, best)
    ensures ComesFirst(lb, ids, i, j + 1, if Precedes(lb, ids[j], ids[best]) then j else best)
  {
    assert ids[best] != ids[j] by { assert pos[ids[best]] == best && pos[ids[j]] == j; }
  }

  /** The position of the pair that comes first among those from `i` on. */
  method SmallestFrom(dist: array<int>, ids: array<int>, i: nat, ghost lb: seq<int>, ghost pos: seq<int>)
    returns (best: nat)
    requires Paired(dist[..], ids[..], lb) && i < ids.Length && IsPermutation(ids[..], pos, |lb|)
    ensures best < ids.Length && ComesFirst(lb, ids[..], i, ids.Length, best)
  {
    best := i;
    for j := i + 1 to ids.Length
      invariant best < j && ComesFirst(lb, ids[..], i, j, best)
    {
      Compared(lb, ids[..], pos, i, best, j);
      assert dist[j] == dist[..][j] && dist[best] == dist[..][best];
      if Better(dist[j], ids[j], dist[best], ids[best]) { best := j; }
    }
  }

  lemma SwapKeepsPairs(dist: seq<int>, ids: seq<int>, lb: seq<int>, i: nat, k: nat)
    requires Paired(dist, ids, lb) && i < |ids| && k < |ids|
    ensures Paired(Swapped(dist, i, k), Swapped(ids, i, k), lb)
  {
  }

  method SwapPairs(dist: array<int>, ids: array<int>, i: nat, best: nat)
    requires dist != ids && dist.Length == ids.Length && i < ids.Length && best < ids.Length
    modifies dist, ids
    ensures ids[..] == Swapped(old(ids[..]), i, best) && dist[..] == Swapped(old(dist[..]), i, best)
  {
    dist[i], dist[best] := dist[best], dist[i];
    ids[i], ids[best] := ids[best], ids[i];
  }

  /** Experts listed by a cell. */
  predicate Listed(cell: Cell, take: nat, j: int)
    requires take <= |cell.ids|
  {
    j in cell.ids[..take]
  }

  /** The ids of a cell are what the readers of a table expect. */
  predicate IdsOk(cell: Cell, n: nat, width: nat) {
    var take := Take(n, width);
    |cell.ids| == width &&
    (forall i :: 0 <= i < take ==> 0 <= cell.ids[i] < n) &&
    (forall i, k :: 0 <= i < k < take ==> cell.ids[i] != cell.ids[k]) &&
    (forall i :: take <= i < width ==> cell.ids[i] == INVALID)
  }

  /**
   * What a built cell holds: the `width` best experts in (cell bound, id) order and, as its stored
   * bound, the cell bound of the best expert left out.
   */
  ghost predicate IsRouteCell(cell: Cell, b: nat, keys: seq<Vector>, s: nat, width: nat) {
    var n := |keys|;
    var take := Take(n, width);
    var lb := seq(n, j requires 0 <= j < n => CellLb(b, keys[j], s));
    IdsOk(cell, n, width) &&
    (forall i, k :: 0 <= i < k < take ==> Precedes(lb, cell.ids[i], cell.ids[k])) &&
    (forall i, j :: 0 <= i < take && 0 <= j < n && !Listed(cell, take, j) ==>
      Precedes(lb, cell.ids[i], j)) &&
    (n <= width ==> cell.bound == Unbounded && forall j :: 0 <= j < n ==> Listed(cell, take, j)) &&
    (n > width ==> exists c :: IsFirstExcluded(cell, lb, take, c))
  }

  ghost predicate IsFirstExcluded(cell: Cell, lb: seq<int>, take: nat, c: int)
    requires take <= |cell.ids|
  {
    0 <= c < |lb| && !Listed(cell, take, c) && cell.bound == Finite(lb[c]) &&
    forall j :: 0 <= j < |lb| && !Listed(cell, take, j) && j != c ==> Precedes(lb, c, j)
  }

  lemma ListedIff(cell: Cell, ids: seq<int>, pos: seq<int>, n: nat, take: nat, j: nat)
    requires IsPermutation(ids, pos, n) && take <= n && take <= |cell.ids| && j < n
    requires forall i :: 0 <= i < take ==> cell.ids[i] == ids[i]
    ensures Listed(cell, take, j) <==> pos[j] < take
  {
    assert cell.ids[..take] == ids[..take];
    if pos[j] < take { assert ids[..take][pos[j]] == j; }
  }

  /** Everything behind the listed experts comes later, and the next one is the best of the rest. */
  lemma LeftOut(cell: Cell, lb: seq<int>, ids: seq<int>, pos: seq<int>, take: nat, need: nat)
    requires IsPermutation(ids, pos, |lb|) && take <= need <= |lb| && take <= |cell.ids|
    requires PrefixSelected(lb, ids, need)
    requires forall i :: 0 <= i < take ==> cell.ids[i] == ids[i]
    ensures forall i, j :: 0 <= i < take && 0 <= j < |lb| && !Listed(cell, take, j) ==> Precedes(lb, cell.ids[i], j)
    ensures take < need && cell.bound == Finite(lb[ids[take]]) ==> IsFirstExcluded(cell, lb, take, ids[take])
  {
    forall j | 0 <= j < |lb| ensures Listed(cell, take, j) <==> pos[j] < take {
      ListedIff(cell, ids, pos, |lb|, take, j);
    }
    forall i, j | 0 <= i < take && 0 <= j < |lb| && !Listed(cell, take, j) ensures Precedes(lb, cell.ids[i], j) {
      assert j == ids[pos[j]];
    }
    if take < need {
      forall j | 0 <= j < |lb| && !Listed(cell, take, j) && j != ids[take] ensures Precedes(lb, ids[take], j) {
        assert j == ids[pos[j]];
      }
    }
  }

  lemma SelectedCell(b: nat, keys: seq<Vector>, s: nat, width: nat,
                     lb: seq<int>, ids: seq<int>, pos: seq<int>, cell: Cell)
    requires |lb| == |keys| && forall j :: 0 <= j < |keys| ==> lb[j] == CellLb(b, keys[j], s)
    requires IsPermutation(ids, pos, |keys|)
    requires PrefixSelected(lb, ids, Take(|keys|, width + 1))
    requires |cell.ids| == width
    requires forall i :: 0 <= i < Take(|keys|, width) ==> cell.ids[i] == ids[i]
    requires forall i :: Take(|keys|, width) <= i < width ==> cell.ids[i] == INVALID
    requires cell.bound == if |keys| > width then Finite(lb[ids[width]]) else Unbounded
    ensures IsRouteCell(cell, b, keys, s, width)
  {
    var n := |keys|;
    var take := Take(n, width);
    assert lb == seq(n, j requires 0 <= j < n => CellLb(b, keys[j], s));
    LeftOut(cell, lb, ids, pos, take, Take(n, width + 1));
    forall j | 0 <= j < n ensures Listed(cell, take, j) <==> pos[j] < take {
      ListedIff(cell, ids, pos, n, take, j);
    }
  }

  method CellBounds(b: nat, keys: seq<Vector>, s: nat) returns (distances: array<int>, ids: array<int>)
    ensures fresh(distances) && fresh(ids) && distances != ids
    ensures distances.Length == |keys| && ids.Length == |keys|
    ensures forall k :: 0 <= k < |keys| ==> distances[k] == CellLb(b, keys[k], s)
    ensures forall k :: 0 <= k < |keys| ==> ids[k] == k
  {
    distances, ids := new int[|keys|], new int[|keys|];
    for j := 0 to |keys|
      invariant forall k :: 0 <= k < j ==> distances[k] == CellLb(b, keys[k], s)
      invariant forall k :: 0 <= k < j ==> ids[k] == k
    {
      var lower := 0;
      for d := 0 to 4
        invariant lower == CellLbUpTo(b, keys[j], s, d)
      {
        var lo := (LO + 32 * CellDigit(b, d)) * s;
        lower := lower + AxisLb(keys[j][d], lo, lo + 31 * s);
      }
      distances[j], ids[j] := lower, j;
    }
  }

  method BuildCell(b: nat, keys: seq<Vector>, s: nat, width: nat) returns (cell: Cell)
    ensures IsRouteCell(cell, b, keys, s, width)
  {
    var n := |keys|;
    var distances, ids := CellBounds(b, keys, s);
    ghost var lb := distances[..];
    var take := Take(n, width);
    var need := Take(n, width + 1);
    ghost var pos := SelectSmallest(distances, ids, need);
    var padding := seq(width - take, _ => INVALID);
    cell := Cell(ids[..take] + padding, if n > width then Finite(distances[width]) else Unbounded);
    SelectedCell(b, keys, s, width, lb, ids[..], pos, cell);
  }

  method BuildLattice(keys: seq<Vector>, s: nat, width: nat) returns (routing: array<Cell>)
    ensures fresh(routing) && routing.Length == CELLS
    ensures forall b :: 0 <= b < CELLS ==> IsRouteCell(routing[b], b, keys, s, width)
  {
    routing := new Cell[CELLS](_ => Cell([], Unbounded));
    for b := 0 to CELLS
      invariant forall c :: 0 <= c < b ==> IsRouteCell(routing[c], c, keys, s, width)
    {
      var cell := BuildCell(b, keys, s, width);
      routing[b] := cell;
    }
  }

  // ----- routing --------------------------------------------------------------------------

  /** Best of the first `i` listed experts. */
  function ScanUpTo(x: Vector, keys: seq<Vector>, s: nat, ids: seq<int>, i: nat): (best: int)
    requires 0 < i <= |ids| && forall k :: 0 <= k < i ==> 0 <= ids[k] < |keys|
    ensures best in ids[..i]
  {
    if i == 1 then ids[0]
    else
      var prior := ScanUpTo(x, keys, s, ids, i - 1);
      assert prior in ids[..i];
      if Better(Dist(x, keys[ids[i - 1]], s), ids[i - 1], Dist(x, keys[prior], s), prior)
      then ids[i - 1] else prior
  }

  lemma {:induction false} ScanIsBest(x: Vector, keys: seq<Vector>, s: nat, ids: seq<int>, i: nat)
    requires 0 < i <= |ids| && forall k :: 0 <= k < i ==> 0 <= ids[k] < |keys|
    ensures var best := ScanUpTo(x, keys, s, ids, i);
            forall k :: 0 <= k < i && ids[k] != best ==>
              Better(Dist(x, keys[best], s), best, Dist(x, keys[ids[k]], s), ids[k])
  {
    if i > 1 { ScanIsBest(x, keys, s, ids, i - 1); }
  }

  /** The early return: the query is in the domain and the best listed expert beats the bound. */
  predicate Certified(x: Vector, keys: seq<Vector>, s: nat, width: nat, cell: Cell)
    requires keys != [] && width > 0 && IdsOk(cell, |keys|, width)
  {
    var best := ScanUpTo(x, keys, s, cell.ids, Take(|keys|, width));
    InDomain(x) && (cell.bound.Unbounded? || Dist(x, keys[best], s) < cell.bound.value)
  }

  /** The answer of the router for any well-formed table, sound or not. */
  function Routed(x: Vector, keys: seq<Vector>, s: nat, width: nat, cell: Cell): int
    requires keys != [] && width > 0 && IdsOk(cell, |keys|, width)
  {
    if Certified(x, keys, s, width, cell)
    then ScanUpTo(x, keys, s, cell.ids, Take(|keys|, width))
    else Nearest(x, keys, s)
  }

  /** The stored bound does not exceed the cell bound of any expert the cell leaves out. */
  ghost predicate SoundBound(cell: Cell, b: nat, keys: seq<Vector>, s: nat, width: nat)
    requires IdsOk(cell, |keys|, width)
  {
    forall j :: 0 <= j < |keys| && !Listed(cell, Take(|keys|, width), j) ==>
      cell.bound.Finite? && cell.bound.value <= CellLb(b, keys[j], s)
  }

  lemma BuiltCellSound(cell: Cell, b: nat, keys: seq<Vector>, s: nat, width: nat)
    requires IsRouteCell(cell, b, keys, s, width)
    ensures SoundBound(cell, b, keys, s, width)
  {
    var lb := seq(|keys|, j requires 0 <= j < |keys| => CellLb(b, keys[j], s));
    if |keys| > width {
      var c :| IsFirstExcluded(cell, lb, Take(|keys|, width), c);
      forall j | 0 <= j < |keys| && !Listed(cell, Take(|keys|, width), j)
        ensures cell.bound.value <= CellLb(b, keys[j], s)
      {
        assert j == c || Precedes(lb, c, j);
      }
    }
  }

  /** Main result: a sound bound makes the certified answer the answer of the full scan. */
  lemma RoutedIsNearest(x: Vector, keys: seq<Vector>, s: nat, width: nat, cell: Cell)
    requires keys != [] && width > 0 && IdsOk(cell, |keys|, width)
    requires SoundBound(cell, CellOf(x), keys, s, width)
    ensures Routed(x, keys, s, width, cell) == Nearest(x, keys, s)
  {
    var take := Take(|keys|, width);
    var best := ScanUpTo(x, keys, s, cell.ids, take);
    if Certified(x, keys, s, width, cell) {
      ScanIsBest(x, keys, s, cell.ids, take);
      forall j | 0 <= j < |keys| && j != best
        ensures Better(Dist(x, keys[best], s), best, Dist(x, keys[j], s), j)
      {
        if Listed(cell, take, j) {
          var k :| 0 <= k < take && cell.ids[k] == j;
        } else {
          CellLbBelowDist(x, keys[j], s);
        }
      }
      NearestCharacterised(x, keys, s, best);
    }
  }

  /**
   * First loop of the router: scan the listed experts.  It stops at an id that names no expert;
   * `bad` tells so.
   */
  method ScanListed(x: Vector, keys: seq<Vector>, s: nat, ids: seq<int>, take: nat)
    returns (best: int, bestD: Bound, seen: array<bool>, bad: bool, evaluated: nat)
    requires 0 < take <= |ids| && forall i :: 0 <= i < take ==> 0 <= ids[i]
    ensures fresh(seen) && seen.Length == |keys|
    ensures bad <==> exists i :: 0 <= i < take && ids[i] >= |keys|
    ensures evaluated <= take
    ensures !bad ==> evaluated == take && best == ScanUpTo(x, keys, s, ids, take) &&
                     0 <= best < |keys| && bestD == Finite(Dist(x, keys[best], s))
    ensures !bad ==> forall j :: 0 <= j < |keys| ==> (seen[j] <==> j in ids[..take])
  {
    var n := |keys|;
    seen := new bool[n](_ => false);
    best, bestD, evaluated := INVALID, Unbounded, 0;
    for i := 0 to take
      invariant forall k :: 0 <= k < i ==> 0 <= ids[k] < n
      invariant evaluated == i
      invariant forall j :: 0 <= j < n ==> (seen[j] <==> j in ids[..i])
      invariant i == 0 ==> bestD == Unbounded
      invariant i > 0 ==> best == ScanUpTo(x, keys, s, ids, i) && 0 <= best < n
      invariant i > 0 ==> bestD == Finite(Dist(x, keys[best], s))
    {
      var j := ids[i];
      if j >= n { return best, bestD, seen, true, evaluated; }
      seen[j] := true;
      assert ids[..i + 1] == ids[..i] + [j];
      var d := Dist(x, keys[j], s);
      evaluated := evaluated + 1;
      if bestD.Unbounded? || Better(d, j, bestD.value, best) { bestD, best := Finite(d), j; }
    }
    bad := false;
  }

  /** Second loop of the router: scan every expert not seen yet. */
  method ScanRest(x: Vector, keys: seq<Vector>, s: nat, seen: array<bool>, best0: int, ghost scanned: set<int>)
    returns (best: int, evaluated: nat)
    requires seen.Length == |keys| && 0 <= best0 < |keys|
    requires forall k :: 0 <= k < |keys| ==> (seen[k] <==> k in scanned)
    requires forall k :: k in scanned ==> 0 <= k < |keys|
    requires forall k :: 0 <= k < |keys| && k != best0 && k in scanned ==>
               Better(Dist(x, keys[best0], s), best0, Dist(x, keys[k], s), k)
    ensures IsNearest(x, keys, s, best)
    ensures evaluated == |keys| - |scanned|
  {
    best, evaluated := best0, 0;
    for j := 0 to |keys|
      invariant 0 <= best < |keys|
      invariant forall k :: 0 <= k < |keys| && k != best && (k in scanned || k < j) ==>
                  Better(Dist(x, keys[best], s), best, Dist(x, keys[k], s), k)
      invariant evaluated == j - |Below(scanned, j)|
    {
      BelowStep(scanned, j);
      if !seen[j] {
        evaluated := evaluated + 1;
        if Better(Dist(x, keys[j], s), j, Dist(x, keys[best], s), best) { best := j; }
      }
    }
    assert Below(scanned, |keys|) == scanned;
  }

  method RoutedNearest(x: Vector, keys: seq<Vector>, s: nat, width: nat, routing: array<Cell>,
                       evaluations: nat, certified: nat)
    returns (best: int, evaluations': nat, certified': nat)
    requires routing.Length == CELLS && width > 0
    requires forall b :: 0 <= b < CELLS ==> |routing[b].ids| == width
    requires forall b, i :: 0 <= b < CELLS && 0 <= i < width ==> 0 <= routing[b].ids[i]
    ensures |keys| == 0 ==> best == INVALID && evaluations' == evaluations && certified' == certified
    ensures CellOf(x) < CELLS
    ensures var cell := routing[CellOf(x)];
            |keys| > 0 && IdsOk(cell, |keys|, width) ==>
              best == Routed(x, keys, s, width, cell) &&
              if Certified(x, keys, s, width, cell)
              then evaluations' == evaluations + Take(|keys|, width) && certified' == certified + 1
              else evaluations' == evaluations + |keys| && certified' == certified
    ensures var cell := routing[CellOf(x)];
            (exists i :: 0 <= i < Take(|keys|, width) && cell.ids[i] >= |keys|) ==>
              best == INVALID && certified' == certified
  {
    CellOfDigits(x);
    evaluations', certified' := evaluations, certified;
    if |keys| == 0 { return INVALID, evaluations', certified'; }
    var c, inDomain := CellId(x);
    var cell := routing[c];
    var take := Take(|keys|, width);
    var bestD, seen, bad, evaluated;
    best, bestD, seen, bad, evaluated := ScanListed(x, keys, s, cell.ids, take);
    evaluations' := evaluations' + evaluated;
    if bad { return INVALID, evaluations', certified'; }
    if inDomain && (cell.bound.Unbounded? || bestD.value < cell.bound.value) {
      certified' := certified' + 1;
      return;
    }
    ghost var scanned := ScannedSet(x, keys, s, cell.ids, take);
    best, evaluated := ScanRest(x, keys, s, seen, best, scanned);
    evaluations' := evaluations' + evaluated;
    NearestCharacterised(x, keys, s, best);
  }

  lemma ScannedSet(x: Vector, keys: seq<Vector>, s: nat, ids: seq<int>, take: nat) returns (scanned: set<int>)
    requires 0 < take <= |ids| && forall k :: 0 <= k < take ==> 0 <= ids[k] < |keys|
    ensures forall k :: k in scanned <==> k in ids[..take]
    ensures (forall i, k :: 0 <= i < k < take ==> ids[i] != ids[k]) ==> |scanned| == take
    ensures var best := ScanUpTo(x, keys, s, ids, take);
            forall k :: k in scanned && k != best ==>
              0 <= k < |keys| && Better(Dist(x, keys[best], s), best, Dist(x, keys[k], s), k)
  {
    scanned := set k | 0 <= k < take :: ids[k];
    ScanIsBest(x, keys, s, ids, take);
    if forall i, k :: 0 <= i < k < take ==> ids[i] != ids[k] { DistinctCount(ids, take); }
  }

  ghost function Below(ids: set<int>, j: int): set<int> { set k | k in ids && k < j }

  lemma BelowStep(ids: set<int>, j: int)
    ensures |Below(ids, j + 1)| == |Below(ids, j)| + if j in ids then 1 else 0
  {
    if j in ids {
      assert Below(ids, j + 1) == Below(ids, j) + {j};
    } else {
      assert Below(ids, j + 1) == Below(ids, j);
    }
  }

  lemma {:induction false} DistinctCount(ids: seq<int>, take: nat)
    requires take <= |ids| && forall i, k :: 0 <= i < k < take ==> ids[i] != ids[k]
    ensures |set k | 0 <= k < take :: ids[k]| == take
  {
    if take > 0 {
      DistinctCount(ids, take - 1);
      assert (set k | 0 <= k < take :: ids[k]) == (set k | 0 <= k < take - 1 :: ids[k]) + {ids[take - 1]};
    }
  }
}
