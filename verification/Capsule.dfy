/**
 * The RAVEL 0.1 capsule: 256 experts with 8-bit keys and weights, 24 of them listed per cell.
 * Its arithmetic is 32-bit; `NoOverflow` shows that unbounded integers say the same.
 */
module Capsule {
  import opened Ravel
  import opened Router

  const EXPERTS := 256
  const WIDTH := 24

  predicate Int8(v: Vector) { forall i :: 0 <= i < D ==> -128 <= v[i] <= 127 }

  datatype Answer = Answer(y: int, d: int, e: int, n: nat, cert: bool)

  function OutputUpTo(q: Vector, weight: Vector, z: int, i: nat): int
    requires i <= D
  {
    if i == 0 then z else OutputUpTo(q, weight, z, i - 1) + q[i - 1] * weight[i - 1]
  }

  lemma SquareBelow(v: int, m: int)
    requires -m <= v <= m
    ensures Square(v) <= Square(m)
  {
    assert Square(m) - Square(v) == (m - v) * (m + v);
  }

  lemma {:induction false} DistRange(q: Vector, key: Vector, d: nat)
    requires Int8(q) && Int8(key) && d <= D
    ensures DistUpTo(q, key, 1, d) <= d * 65025
  {
    if d > 0 {
      DistRange(q, key, d - 1);
      SquareBelow(q[d - 1] * 1 - key[d - 1], 255);
      assert Square(255) == 65025;
    }
  }

  lemma {:induction false} OutputRange(q: Vector, weight: Vector, z: int, i: nat)
    requires Int8(q) && Int8(weight) && -32768 <= z <= 32767 && i <= D
    ensures -32768 - i * 16384 <= OutputUpTo(q, weight, z, i) <= 32767 + i * 16384
  {
    if i > 0 {
      OutputRange(q, weight, z, i - 1);
      ProductRange(q[i - 1], weight[i - 1]);
    }
  }

  lemma ProductRange(a: int, b: int)
    requires -128 <= a <= 127 && -128 <= b <= 127
    ensures -16384 <= a * b <= 16384
  {
    SquareBelow(a + b, 256);
    SquareBelow(a - b, 256);
    assert Square(256) == 65536;
    assert 4 * (a * b) == Square(a + b) - Square(a - b);
  }

  class Experts {
    const keys: seq<Vector>
    const weights: seq<Vector>
    const offsets: seq<int>
    var routing: array<Cell>

    ghost predicate Valid()
      reads this, routing
    {
      |keys| == |weights| == |offsets| == EXPERTS &&
      (forall e :: 0 <= e < EXPERTS ==> Int8(keys[e]) && Int8(weights[e]) && -32768 <= offsets[e] <= 32767) &&
      routing.Length == CELLS &&
      forall b :: 0 <= b < CELLS ==> IsRouteCell(routing[b], b, keys, 1, WIDTH)
    }

    /** Builds the routing table for any expert store. */
    constructor (keys: seq<Vector>, weights: seq<Vector>, offsets: seq<int>)
      requires |keys| == |weights| == |offsets| == EXPERTS
      requires forall e :: 0 <= e < EXPERTS ==> Int8(keys[e]) && Int8(weights[e]) && -32768 <= offsets[e] <= 32767
      ensures Valid() && this.keys == keys && this.weights == weights && this.offsets == offsets
    {
      this.keys, this.weights, this.offsets := keys, weights, offsets;
      var table := BuildLattice(keys, 1, WIDTH);
      routing := table;
    }

    function Output(q: Vector, e: int): int
      requires |weights| == |offsets| == EXPERTS && 0 <= e < EXPERTS
    {
      OutputUpTo(q, weights[e], offsets[e], D)
    }

    /** Every intermediate value of both evaluators fits its 32-bit C type. */
    lemma NoOverflow(q: Vector, e: int, i: nat)
      requires Valid() && Int8(q) && 0 <= e < EXPERTS && i <= D
      ensures 0 <= DistUpTo(q, keys[e], 1, i) < 0xffff_ffff
      ensures -0x8000_0000 <= OutputUpTo(q, weights[e], offsets[e], i) <= 0x7fff_ffff
    {
      DistRange(q, keys[e], i);
      OutputRange(q, weights[e], offsets[e], i);
    }

    method Evaluate(q: Vector, e: int) returns (y: int)
      requires Valid() && 0 <= e < EXPERTS
      ensures y == Output(q, e)
    {
      y := offsets[e];
      for i := 0 to D
        invariant y == OutputUpTo(q, weights[e], offsets[e], i)
      {
        y := y + q[i] * weights[e][i];
      }
    }

    /** The plain scan. */
    method Ref(q: Vector) returns (r: Answer)
      requires Valid()
      ensures IsNearest(q, keys, 1, r.e)
      ensures r.d == Dist(q, keys[r.e], 1) && r.y == Output(q, r.e)
      ensures r.n == EXPERTS && r.cert
    {
      var e, evaluations := FullNearest(q, keys, 1, 0);
      NearestCharacterised(q, keys, 1, e);
      var y := Evaluate(q, e);
      r := Answer(y, Dist(q, keys[e], 1), e, evaluations, true);
    }

    /** The routed evaluation agrees with the plain scan on every query, in or out of domain. */
    method Run(q: Vector) returns (r: Answer)
      requires Valid()
      ensures IsNearest(q, keys, 1, r.e)
      ensures r.d == Dist(q, keys[r.e], 1) && r.y == Output(q, r.e)
      ensures r.n == if r.cert then WIDTH else EXPERTS
      ensures CellOf(q) < CELLS && (r.cert ==> InDomain(q))
      ensures r.cert <==> Certified(q, keys, 1, WIDTH, routing[CellOf(q)])
    {
      CellOfDigits(q);
      var cell := routing[CellOf(q)];
      BuiltCellSound(cell, CellOf(q), keys, 1, WIDTH);
      RoutedIsNearest(q, keys, 1, WIDTH, cell);
      var e, evaluations, certified := RoutedNearest(q, keys, 1, WIDTH, routing, 0, 0);
      NearestCharacterised(q, keys, 1, e);
      var y := Evaluate(q, e);
      r := Answer(y, Dist(q, keys[e], 1), e, evaluations, certified == 1);
    }

    /** What the capsule's own comparison counts as a mismatch never happens. */
    method Compare(q: Vector) returns (bad: int)
      requires Valid()
      ensures bad == 0
    {
      var a := Run(q);
      var b := Ref(q);
      NearestCharacterised(q, keys, 1, a.e);
      NearestCharacterised(q, keys, 1, b.e);
      bad := if a.e != b.e || a.d != b.d || a.y != b.y then 1 else 0;
    }
  }
}
