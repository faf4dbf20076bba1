/**
 * Loading a checkpoint into doubles. A stored number is an integer in units of 2^-20; the double that
 * holds it has 53 bits, so a large number is rounded and prints differently from what was read.
 */
module CheckpointRounding {
  import opened Prelude
  import opened Ravel
  import opened Words
  import opened FieldCodec
  import opened CheckpointFormat
  import opened CheckpointParse
  import opened CheckpointWriter
  import opened Router

  const TWO53 := 0x20_0000_0000_0000

  /** The distance between neighbouring doubles around an integer, at least 1. */
  function Ulp(n: nat): (u: nat)
    ensures u > 0
  {
    if n < TWO53 then 1 else 2 * Ulp(n / 2)
  }

  /** The nearest multiple of `u`, the even one of two. */
  function RoundTo(n: nat, u: nat): nat
    requires u > 0
  {
    var q, r := n / u, n % u;
    if 2 * r < u || (2 * r == u && q % 2 == 0) then q * u else (q + 1) * u
  }

  /** The integer that a double holds in place of `v`. */
  function Round(v: int): int {
    var r: int := RoundTo(Magnitude(v), Ulp(Magnitude(v)));
    if v < 0 then -r else r
  }

  function Magnitude(v: int): (n: nat)
    ensures v == n || v + n == 0
  {
    if v < 0 then -v else v
  }

  predicate Fixed(v: int) { Magnitude(v) % Ulp(Magnitude(v)) == 0 }

  /** The fixed points are the multiples of the spacing around them. */
  lemma FixedIff(v: int)
    ensures Round(v) == v <==> Fixed(v)
  {
    var n := Magnitude(v);
    RoundToIff(n, Ulp(n));
  }

  lemma RoundToIff(n: nat, u: nat)
    requires u > 0
    ensures RoundTo(n, u) == n <==> n % u == 0
  {
    var q, r := n / u, n % u;
    assert n == q * u + r && 0 <= r < u;
    assert (q + 1) * u == q * u + u;
  }

  lemma SmallFixed(v: int)
    requires -TWO53 <= v <= TWO53
    ensures Fixed(v)
  {
    if Magnitude(v) == TWO53 { assert Ulp(TWO53) == 2 * Ulp(TWO53 / 2); }
  }

  // ----- a double is held as it is ------------------------------------------------------------------------------

  /** A number with 53 significant bits down to `u` lies among doubles that are `u` apart. */
  lemma {:induction false} UlpAt(n: nat, m: nat)
    requires n >= TWO53 && TWO53 / 2 * Ulp(n) <= m < TWO53 * Ulp(n)
    ensures Ulp(m) == Ulp(n)
    decreases n
  {
    assert Ulp(n) == 2 * Ulp(n / 2);
    if n / 2 < TWO53 {
      assert Ulp(n / 2) == 1;
    } else {
      HalfRange(m, TWO53, Ulp(n / 2));
      UlpAt(n / 2, m / 2);
    }
  }

  lemma HalfRange(m: nat, t: nat, u: nat)
    requires t % 2 == 0 && t / 2 * (2 * u) <= m < t * (2 * u)
    ensures t / 2 * u <= m / 2 < t * u
  {
    var h := t / 2;
    assert h * (2 * u) == 2 * (h * u) && t * (2 * u) == 2 * (t * u);
  }

  /** The quotient by the spacing has 53 bits. */
  lemma {:induction false} Significand(n: nat)
    requires n >= TWO53
    ensures TWO53 / 2 * Ulp(n) <= n < TWO53 * Ulp(n)
  {
    var u := Ulp(n / 2);
    assert Ulp(n) == 2 * u;
    if n / 2 < TWO53 {
      assert u == 1;
    } else {
      Significand(n / 2);
      Doubled(n, TWO53, u);
    }
  }

  lemma Doubled(n: nat, t: nat, u: nat)
    requires t % 2 == 0 && t / 2 * u <= n / 2 < t * u
    ensures t / 2 * (2 * u) <= n < t * (2 * u)
  {
    var h := t / 2;
    assert h * (2 * u) == 2 * (h * u) && t * (2 * u) == 2 * (t * u);
  }

  /** Rounding gives a number that is rounded already. */
  lemma RoundToFixed(n: nat)
    ensures RoundTo(n, Ulp(n)) % Ulp(RoundTo(n, Ulp(n))) == 0
  {
    var u := Ulp(n);
    if n >= TWO53 {
      Significand(n);
      QuotientRange(n, TWO53, u);
      var p := if RoundTo(n, u) == n / u * u then n / u else n / u + 1;
      assert RoundTo(n, u) == p * u;
      if p < TWO53 {
        Scale(TWO53 / 2, p, u);
        ScaleStrictly(p, TWO53, u);
        UlpAt(n, p * u);
        MultipleOf(p, u);
      } else {
        BinadeEnd(n, u);
      }
    }
  }

  /** The first number behind a range has twice the spacing of the range. */
  lemma BinadeEnd(n: nat, u: nat)
    requires n >= TWO53 && u == Ulp(n)
    ensures Ulp(TWO53 * u) == 2 * u && TWO53 * u % (2 * u) == 0
  {
    var half := TWO53 / 2;
    assert TWO53 * u == 2 * (half * u) && TWO53 * u == half * (2 * u);
    ScaleStrictly(half, TWO53, u);
    UlpAt(n, half * u);
    Scale(TWO53, TWO53, u);
    assert TWO53 * u >= TWO53;
    MultipleOf(half, 2 * u);
  }

  lemma MultipleOf(p: nat, u: nat)
    requires u > 0
    ensures p * u % u == 0
  {
    var q, r := p * u / u, p * u % u;
    assert p * u == q * u + r && 0 <= r < u;
    assert (p - q) * u == p * u - q * u;
    SmallMultiple(p - q, u);
  }

  lemma SmallMultiple(k: int, u: nat)
    requires 0 <= k * u < u
    ensures k == 0
  {
    if k >= 1 { Scale(1, k, u); }
    if k <= -1 { Scale(1, -k, u); }
  }

  lemma Scale(a: nat, b: nat, u: nat)
    requires a <= b
    ensures a * u <= b * u
  {
  }

  lemma ScaleStrictly(a: nat, b: nat, u: nat)
    requires a < b && u > 0
    ensures a * u < b * u
  {
  }

  lemma QuotientRange(n: nat, t: nat, u: nat)
    requires u > 0 && t / 2 * u <= n < t * u
    ensures t / 2 <= n / u < t
  {
    var q, r := n / u, n % u;
    assert n == q * u + r && 0 <= r < u;
    if q >= t { Scale(t, q, u); }
    assert (q + 1) * u == q * u + u;
    if q + 1 <= t / 2 { Scale(q + 1, t / 2, u); }
  }

  /** Whatever a double holds is held exactly. */
  lemma RoundFixed(v: int)
    ensures Fixed(Round(v))
  {
    RoundToFixed(Magnitude(v));
  }

  // ----- loading and printing again -----------------------------------------------------------------------------

  function AllHeld(xs: seq<int>): (r: seq<int>)
    ensures |r| == |xs|
  {
    seq(|xs|, i requires 0 <= i < |xs| => Round(xs[i]))
  }

  /** The expert as the program holds it after loading. */
  function HeldExpert(e: Expert): Expert {
    e.(key := AllHeld(e.key), decode := AllHeld(e.decode), next := AllHeld(e.next),
       reconstructionSse := Round(e.reconstructionSse), predictionSse := Round(e.predictionSse))
  }

  function HeldBound(b: Bound): Bound { if b.Finite? then Finite(Round(b.value)) else b }

  function HeldCell(c: Cell): Cell { c.(bound := HeldBound(c.bound)) }

  function Held(m: Model): Model {
    m.(experts := seq(|m.experts|, j requires 0 <= j < |m.experts| => HeldExpert(m.experts[j])),
       routing := seq(|m.routing|, b requires 0 <= b < |m.routing| => HeldCell(m.routing[b])))
  }

  predicate AllFixed(xs: seq<int>) { forall i :: 0 <= i < |xs| ==> Fixed(xs[i]) }

  predicate ExpertFixed(e: Expert) {
    AllFixed(e.key) && AllFixed(e.decode) && AllFixed(e.next) && Fixed(e.reconstructionSse) && Fixed(e.predictionSse)
  }

  predicate BoundFixed(b: Bound) { b.Finite? ==> Fixed(b.value) }

  /** Every number of the model is one that a double holds. */
  predicate NumbersFixed(m: Model) {
    (forall j :: 0 <= j < |m.experts| ==> ExpertFixed(m.experts[j])) &&
    forall b :: 0 <= b < |m.routing| ==> BoundFixed(m.routing[b].bound)
  }

  lemma AllHeldIff(xs: seq<int>)
    ensures AllHeld(xs) == xs <==> AllFixed(xs)
  {
    forall i | 0 <= i < |xs| ensures AllHeld(xs)[i] == xs[i] <==> Fixed(xs[i]) { FixedIff(xs[i]); }
  }

  lemma HeldExpertIff(e: Expert)
    ensures HeldExpert(e) == e <==> ExpertFixed(e)
  {
    AllHeldIff(e.key);
    AllHeldIff(e.decode);
    AllHeldIff(e.next);
    FixedIff(e.reconstructionSse);
    FixedIff(e.predictionSse);
  }

  lemma HeldCellIff(c: Cell)
    ensures HeldCell(c) == c <==> BoundFixed(c.bound)
  {
    if c.bound.Finite? { FixedIff(c.bound.value); }
  }

  lemma HeldIff(m: Model)
    ensures Held(m) == m <==> NumbersFixed(m)
  {
    var h := Held(m);
    forall j | 0 <= j < |m.experts| ensures h.experts[j] == m.experts[j] <==> ExpertFixed(m.experts[j]) {
      HeldExpertIff(m.experts[j]);
    }
    forall b | 0 <= b < |m.routing| ensures h.routing[b] == m.routing[b] <==> BoundFixed(m.routing[b].bound) {
      HeldCellIff(m.routing[b]);
    }
    if NumbersFixed(m) { assert h.experts == m.experts && h.routing == m.routing; }
  }

  /** What the printer makes of a loaded model. */
  ghost function Reprinted(m: Model): Option<seq<Byte>>
    requires Shaped(m)
  {
    HeldShaped(m);
    if AllStorable(Held(m).experts) then Some(Print(Held(m))) else None
  }

  lemma HeldShaped(m: Model)
    requires Shaped(m)
    ensures Shaped(Held(m))
  {
    forall j | 0 <= j < |m.experts| ensures ExpertShaped(Held(m).experts[j]) { assert ExpertShaped(m.experts[j]); }
    forall b | 0 <= b < CELLS ensures CellShaped(Held(m).routing[b]) { assert CellShaped(m.routing[b]); }
  }

  /** The printed fields determine storable experts, and bounds that are below the mark for an absent one. */
  lemma SameFields(x: Model, y: Model)
    requires Shaped(x) && Shaped(y) && |x.experts| == |y.experts| <= MAXE && Print(x) == Print(y)
    requires AllStorable(x.experts) && AllStorable(y.experts)
    ensures |PayloadValues(x)| == PayloadFields(|x.experts|) && PayloadValues(x) == PayloadValues(y)
  {
    var n := |x.experts|;
    FilePieces(Payload(x));
    FilePieces(Payload(y));
    ValuesFit(x);
    ValuesFit(y);
    DecodeOfEncode(PayloadWidths(n), PayloadValues(x));
    DecodeOfEncode(PayloadWidths(n), PayloadValues(y));
    PartsOfModel(x);
  }

  lemma SameExpert(x: Model, y: Model, j: nat)
    requires Shaped(x) && Shaped(y) && |x.experts| == |y.experts| <= MAXE && j < |x.experts|
    requires AllStorable(x.experts) && AllStorable(y.experts)
    requires |PayloadValues(x)| == PayloadFields(|x.experts|) && PayloadValues(x) == PayloadValues(y)
    ensures x.experts[j] == y.experts[j]
  {
    ExpertOfModel(x, j);
    ExpertOfModel(y, j);
    ExpertBack(x.experts[j], j);
    ExpertBack(y.experts[j], j);
  }

  lemma SameCell(x: Model, y: Model, b: nat)
    requires Shaped(x) && Shaped(y) && |x.experts| == |y.experts| && b < CELLS
    requires |PayloadValues(x)| == PayloadFields(|x.experts|) && PayloadValues(x) == PayloadValues(y)
    requires x.routing[b] == HeldCell(y.routing[b]) && BoundStored(y.routing[b].bound)
    ensures BoundFixed(y.routing[b].bound)
  {
    CellOfModel(x, b);
    CellOfModel(y, b);
    SameStored(x.routing[b], y.routing[b], b);
    StoredAgain(y.routing[b].bound);
  }

  lemma SameStored(c: Cell, d: Cell, b: nat)
    requires CellShaped(c) && CellShaped(d) && CellValues(c, b) == CellValues(d, b)
    ensures StoredBound(c.bound) == StoredBound(d.bound)
  {
    assert CellValues(c, b)[9] == CellValues(d, b)[9];
    SignedAndBack(StoredBound(c.bound));
    SignedAndBack(StoredBound(d.bound));
  }

  lemma StoredAgain(b: Bound)
    requires BoundStored(b) && StoredBound(HeldBound(b)) == StoredBound(b)
    ensures BoundFixed(b)
  {
    if b.Finite? {
      SameNumber(b.value, Round(b.value));
      FixedIff(b.value);
      LeastFixed();
    }
  }

  lemma LeastFixed()
    ensures Fixed(-TWO63)
  {
  }

  lemma SameNumber(v: int, r: int)
    requires Int64(v) && v != INT64_MAX && StoredBound(Finite(r)) == StoredBound(Finite(v))
    ensures r == v || v == -TWO63
  {
  }

  lemma ReprintedFixed(m: Model)
    requires WellFormed(m) && Reprinted(m) == Some(Print(m))
    ensures NumbersFixed(m)
  {
    HeldShaped(m);
    SameFields(Held(m), m);
    forall j | 0 <= j < |m.experts| ensures ExpertFixed(m.experts[j]) { SameHeldExpert(m, j); }
    forall b | 0 <= b < CELLS ensures BoundFixed(m.routing[b].bound) { SameHeldCell(m, b); }
  }

  ghost predicate SameHeldFields(m: Model)
    requires Shaped(m) && Shaped(Held(m))
  {
    AllStorable(m.experts) && AllStorable(Held(m).experts) && |m.experts| <= MAXE &&
    |PayloadValues(m)| == PayloadFields(|m.experts|) && PayloadValues(Held(m)) == PayloadValues(m)
  }

  lemma SameHeldExpert(m: Model, j: nat)
    requires Shaped(m) && Shaped(Held(m)) && SameHeldFields(m) && j < |m.experts|
    ensures ExpertFixed(m.experts[j])
  {
    SameExpert(Held(m), m, j);
    HeldExpertIff(m.experts[j]);
  }

  lemma SameHeldCell(m: Model, b: nat)
    requires Shaped(m) && Shaped(Held(m)) && SameHeldFields(m) && b < CELLS && BoundStored(m.routing[b].bound)
    ensures BoundFixed(m.routing[b].bound)
  {
    SameCell(Held(m), m, b);
  }

  lemma FixedReprints(m: Model)
    requires WellFormed(m) && NumbersFixed(m)
    ensures Reprinted(m) == Some(Print(m))
  {
    HeldIff(m);
  }

  /**
   * Loading a checkpoint and printing it again gives the same bytes exactly when a double holds
   * every number in it.
   */
  lemma ReprintIff(bytes: seq<Byte>)
    requires Parse(bytes).Some?
    ensures var m := Parse(bytes).value.0; WellFormed(m) && (Reprinted(m) == Some(bytes) <==> NumbersFixed(m))
  {
    PrintOfParse(bytes);
    Reprints(Parse(bytes).value.0, bytes);
  }

  lemma Reprints(m: Model, bytes: seq<Byte>)
    requires WellFormed(m) && bytes == Print(m)
    ensures Reprinted(m) == Some(bytes) <==> NumbersFixed(m)
  {
    if NumbersFixed(m) { FixedReprints(m); }
    if Reprinted(m) == Some(bytes) { ReprintedFixed(m); }
  }

  predicate AtMost53(v: int) { -TWO53 <= v <= TWO53 }

  predicate AllAtMost53(xs: seq<int>) { forall i :: 0 <= i < |xs| ==> AtMost53(xs[i]) }

  predicate ExpertModerate(e: Expert) {
    AllAtMost53(e.key) && AllAtMost53(e.decode) && AllAtMost53(e.next) && AtMost53(e.reconstructionSse) &&
    AtMost53(e.predictionSse)
  }

  predicate BoundModerate(b: Bound) { b.Finite? ==> AtMost53(b.value) }

  lemma AllSmallFixed(xs: seq<int>)
    requires AllAtMost53(xs)
    ensures AllFixed(xs)
  {
    forall i | 0 <= i < |xs| ensures Fixed(xs[i]) { SmallFixed(xs[i]); }
  }

  lemma ModerateFixed(e: Expert)
    requires ExpertModerate(e)
    ensures ExpertFixed(e)
  {
    AllSmallFixed(e.key);
    AllSmallFixed(e.decode);
    AllSmallFixed(e.next);
    SmallFixed(e.reconstructionSse);
    SmallFixed(e.predictionSse);
  }

  predicate ModelModerate(m: Model) {
    (forall j :: 0 <= j < |m.experts| ==> ExpertModerate(m.experts[j])) &&
    forall b :: 0 <= b < |m.routing| ==> BoundModerate(m.routing[b].bound)
  }

  /** Numbers of at most 2^53 units always survive. */
  lemma ModerateReprints(m: Model)
    requires WellFormed(m) && ModelModerate(m)
    ensures Reprinted(m) == Some(Print(m))
  {
    forall j | 0 <= j < |m.experts| ensures ExpertFixed(m.experts[j]) { ModerateFixed(m.experts[j]); }
    forall b | 0 <= b < |m.routing| ensures BoundFixed(m.routing[b].bound) {
      if m.routing[b].bound.Finite? { SmallFixed(m.routing[b].bound.value); }
    }
    FixedReprints(m);
  }

  lemma OddNotFixed()
    ensures !Fixed(TWO53 + 1)
  {
    assert Ulp(TWO53 + 1) == 2 * Ulp((TWO53 + 1) / 2);
  }

  lemma OddNumberChanges(m: Model)
    requires WellFormed(m) && m.experts[0].key[0] == TWO53 + 1
    ensures Parse(Print(m)).Some? && Reprinted(m) != Some(Print(m))
  {
    OddNotFixed();
    assert !ExpertFixed(m.experts[0]);
    assert !NumbersFixed(m);
    ParseOfPrint(m);
    Reprints(m, Print(m));
  }

  /** One expert with that number in its key, seen twice in state and action 0 and otherwise blank. */
  function OddModel(): (m: Model)
    ensures Shaped(m)
  {
    var key := seq(8, i => if i == 0 then TWO53 + 1 else 0);
    Model([Expert(1, 0, 1, 0, 0, 1, key, key, seq(32, _ => 0), [2, 0, 0, 0, 0, 0, 0, 0], [2, 0, 0, 0],
                  seq(8, i => if i == 0 then Link(0, 2) else Link(INVALID, 0)), 2, 0, 0, 0)],
          1, [seq(8, i => if i == 0 then Link(0, 2) else Link(INVALID, 0))],
          seq(CELLS, _ => Cell(seq(8, i => if i == 0 then 0 else INVALID), Unbounded)))
  }

  /** A checkpoint with the number 2^53 + 1 as a key is accepted and never printed again as it was. */
  lemma OddModelChanges()
    ensures WellFormed(OddModel()) && OddModel().experts[0].key[0] == TWO53 + 1
    ensures Parse(Print(OddModel())).Some? && Reprinted(OddModel()) != Some(Print(OddModel()))
  {
    OddNumberChanges(OddModel());
  }
}
