/**
 * Which freshly built models the checkpoint parser accepts. An excluded bound goes through a saturating
 * conversion to 64 bits when the model is canonicalised, through a double, and through the conversion
 * again when it is printed. What `llround` makes of exactly 2^63 is left open by C, so it is a parameter
 * here: all models pass, but for those with a bound near 2^63 if the answer is the largest integer.
 */
module CheckpointLimits {
  import opened Prelude
  import opened Ravel
  import opened Words
  import opened Router
  import opened RouterBounds
  import opened CheckpointFormat
  import opened CheckpointParse
  import opened CheckpointWriter
  import opened CheckpointTables
  import opened CheckpointRounding

  // ----- from the built bound to the printed one -------------------------------------------------------------------

  /** A number in units of 2^-40 as a 64-bit integer of units of 2^-20; `edge` is what becomes of 2^63. */
  function Converted(v: nat, edge: int): int {
    if v > TWO63 * Q20 then INT64_MAX
    else if (v + Q20 / 2) / Q20 == TWO63 then edge
    else (v + Q20 / 2) / Q20
  }

  /** What the printer writes for the double that holds the converted bound. */
  function Printed(v: nat, edge: int): int {
    var held := Round(Converted(v, edge));
    if held == TWO63 then edge else held
  }

  /** The bound that the parser reads for it. */
  function PrintedBound(b: Bound, edge: int): Bound
    requires b.Finite? ==> b.value >= 0
  {
    match b
    case Unbounded => Unbounded
    case Finite(v) => LoadedBound(Printed(v, edge))
  }

  /** Around 2^62 doubles are 1024 apart. */
  lemma UlpBelow(n: nat)
    requires TWO63 / 2 <= n < TWO63
    ensures Ulp(n) == 1024
  {
    var top := TWO63 / 2;
    assert Ulp(top / 256) == 4;
    assert Ulp(top / 64) == 16;
    assert Ulp(top / 16) == 64;
    assert Ulp(top / 4) == 256;
    assert Ulp(top) == 1024;
    UlpAt(top, n);
  }

  lemma UlpEdge()
    ensures Ulp(TWO63) == 2048
  {
    UlpBelow(TWO63 / 2);
  }

  /** A 64-bit integer is held as 2^63 exactly from 2^63 - 512 on. */
  lemma HeldAtEdge(c: int)
    requires Int64(c)
    ensures Round(c) == TWO63 <==> c >= TWO63 - 512
    ensures -TWO63 <= Round(c) <= TWO63 && Round(c) != INT64_MAX
  {
    var n := Magnitude(c);
    RoundFixed(c);
    UlpBelow(INT64_MAX);
    if n == TWO63 {
      UlpEdge();
    } else if n >= TWO63 / 2 {
      UlpBelow(n);
    } else {
      HeldSmall(n);
    }
  }

  lemma HeldSmall(n: nat)
    requires n < TWO63 / 2
    ensures RoundTo(n, Ulp(n)) < TWO63 - 1
  {
    var u := Ulp(n);
    RoundToNear(n, u);
    if n >= TWO53 { Significand(n); } else { assert u == 1; }
  }

  lemma RoundToNear(n: nat, u: nat)
    requires u > 0
    ensures RoundTo(n, u) <= n + u
  {
    var q, r := n / u, n % u;
    assert n == q * u + r && (q + 1) * u == q * u + u;
  }

  /** The printed bound is the mark for an absent one exactly if 2^63 is converted to it and the bound is near. */
  lemma BoundRefusedIff(v: nat, edge: int)
    requires Int64(edge)
    ensures Int64(Printed(v, edge))
    ensures Printed(v, edge) == INT64_MAX <==> edge == INT64_MAX && BoundTooLarge(Finite(v))
  {
    var q := (v + Q20 / 2) / Q20;
    assert q * Q20 <= v + Q20 / 2 < (q + 1) * Q20;
    HeldAtEdge(Converted(v, edge));
  }

  // ----- the model a checkpoint shows -----------------------------------------------------------------------------

  /** Graph and lattice are derived from the experts, and bounds are what the parser reads for them. */
  ghost predicate Derived(m: Model, built: seq<Cell>, edge: int)
    requires Shaped(m)
  {
    0 < |m.experts| <= MAXE && |built| == CELLS &&
    (forall j :: 0 <= j < |m.experts| ==> m.graph[j] == Edges(m.experts[j], Keys(m.experts))) &&
    (forall b :: 0 <= b < CELLS ==> IsRouteCell(built[b], b, Keys(m.experts), Q20, ROUTE_K)) &&
    forall b :: 0 <= b < CELLS ==> IsPrinted(m.routing[b], built[b], edge)
  }

  predicate IsPrinted(cell: Cell, built: Cell, edge: int) {
    cell.ids == built.ids && (built.bound.Finite? ==> built.bound.value >= 0) &&
    cell.bound == PrintedBound(built.bound, edge)
  }

  predicate ExpertsChecked(m: Model) {
    forall j :: 0 <= j < |m.experts| ==> Storable(m.experts[j]) && ExpertOk(m.experts[j], |m.experts|)
  }

  /** The checkpoint of a model that is accepted shows its cells as they are. */
  lemma AcceptedCell(m: Model, b: nat)
    requires Shaped(m) && |m.experts| <= MAXE && ExpertsChecked(m) && Parse(Print(m)).Some? && b < CELLS
    requires BoundStored(m.routing[b].bound) && IdsOk(m.routing[b], |m.experts|, ROUTE_K)
    ensures CellOk(m.routing[b], |m.experts|)
  {
    var x := Parse(Print(m)).value.0;
    PrintOfParse(Print(m));
    SameSize(x, m);
    AllChecked(x);
    AllChecked(m);
    SameFields(x, m);
    CellOfModel(x, b);
    CellOfModel(m, b);
    MarkKept(x.routing[b], m.routing[b], b, |m.experts|);
  }

  lemma AllChecked(m: Model)
    requires ExpertsChecked(m)
    ensures AllStorable(m.experts)
  {
  }

  lemma MarkKept(c: Cell, d: Cell, b: nat, n: nat)
    requires CellShaped(c) && CellShaped(d) && CellValues(c, b) == CellValues(d, b) && CellOk(c, n)
    requires BoundStored(c.bound) && BoundStored(d.bound) && IdsOk(d, n, ROUTE_K)
    ensures CellOk(d, n)
  {
    SameStored(c, d, b);
  }

  lemma SameSize(x: Model, m: Model)
    requires Shaped(x) && Shaped(m) && Print(x) == Print(m)
    ensures |x.experts| == |m.experts|
  {
    assert |Print(x)| == |Print(m)|;
  }

  /**
   * The parser accepts the checkpoint of a model with freshly derived tables exactly when 2^63 is not
   * converted to the mark for an absent bound, or no excluded bound is that large.
   */
  lemma DerivedAcceptedIff(m: Model, built: seq<Cell>, edge: int)
    requires Shaped(m) && Derived(m, built, edge) && ExpertsChecked(m) && Int64(edge)
    ensures WellFormed(m) <==> Parse(Print(m)).Some?
    ensures WellFormed(m) <==>
            (edge == INT64_MAX ==> forall b :: 0 <= b < CELLS ==> !BoundTooLarge(built[b].bound))
  {
    hide *;
    CellsPrinted(m, built, edge);
    WellFormedIff(m, built, edge);
    if WellFormed(m) { Accepted(m); }
    if Parse(Print(m)).Some? { AcceptedCells(m, built, edge); }
  }

  lemma Accepted(m: Model)
    requires WellFormed(m)
    ensures Shaped(m) && Parse(Print(m)).Some?
  {
    ParseOfPrint(m);
  }

  lemma AcceptedCells(m: Model, built: seq<Cell>, edge: int)
    requires Shaped(m) && Derived(m, built, edge) && ExpertsChecked(m) && Int64(edge) && Parse(Print(m)).Some?
    ensures CellsOk(m)
  {
    CellsPrinted(m, built, edge);
    forall b | 0 <= b < CELLS ensures CellOk(m.routing[b], |m.experts|) { AcceptedCell(m, b); }
  }

  ghost predicate CellsOk(m: Model)
    requires Shaped(m)
  {
    forall b :: 0 <= b < CELLS ==> CellOk(m.routing[b], |m.experts|)
  }

  lemma CellsPrinted(m: Model, built: seq<Cell>, edge: int)
    requires Shaped(m) && Derived(m, built, edge) && Int64(edge)
    ensures forall b :: 0 <= b < CELLS ==>
              BoundStored(m.routing[b].bound) && IdsOk(m.routing[b], |m.experts|, ROUTE_K)
    ensures CellsOk(m) <==> (edge == INT64_MAX ==> forall b :: 0 <= b < CELLS ==> !BoundTooLarge(built[b].bound))
  {
    forall b | 0 <= b < CELLS
      ensures CellOk(m.routing[b], |m.experts|) <==> (edge == INT64_MAX ==> !BoundTooLarge(built[b].bound))
      ensures BoundStored(m.routing[b].bound) && IdsOk(m.routing[b], |m.experts|, ROUTE_K)
    {
      PrintedCell(m.routing[b], built[b], b, Keys(m.experts), edge);
    }
    if CellsOk(m) && edge == INT64_MAX {
      forall b | 0 <= b < CELLS ensures !BoundTooLarge(built[b].bound) {
        assert CellOk(m.routing[b], |m.experts|);
      }
    }
  }

  lemma WellFormedIff(m: Model, built: seq<Cell>, edge: int)
    requires Shaped(m) && Derived(m, built, edge) && ExpertsChecked(m)
    requires forall b :: 0 <= b < CELLS ==> BoundStored(m.routing[b].bound)
    ensures WellFormed(m) <==> CellsOk(m)
  {
    forall j | 0 <= j < |m.experts| ensures GraphRowOk(m.graph[j], |m.experts|) {
      EdgesPass(m.experts[j], Keys(m.experts));
    }
  }

  lemma PrintedCell(cell: Cell, built: Cell, b: nat, keys: seq<Vector>, edge: int)
    requires IsRouteCell(built, b, keys, Q20, ROUTE_K) && IsPrinted(cell, built, edge) && Int64(edge)
    ensures CellOk(cell, |keys|) <==> (edge == INT64_MAX ==> !BoundTooLarge(built.bound))
    ensures BoundStored(cell.bound) && IdsOk(cell, |keys|, ROUTE_K)
  {
    var n, take := |keys|, Take(|keys|, ROUTE_K);
    var lb := seq(n, j requires 0 <= j < n => CellLb(b, keys[j], Q20));
    if n > ROUTE_K {
      var c :| IsFirstExcluded(built, lb, take, c);
      BoundRefusedIff(built.bound.value, edge);
    }
  }

  /** A model with derived tables, checked experts and keys of ordinary size always passes the parser. */
  lemma DerivedModerateAccepted(m: Model, built: seq<Cell>, edge: int)
    requires Shaped(m) && Derived(m, built, edge) && ExpertsChecked(m) && Int64(edge)
    requires forall j :: 0 <= j < |m.experts| ==> Moderate(m.experts[j].key)
    ensures WellFormed(m) && Parse(Print(m)).Some?
  {
    var keys := Keys(m.experts);
    forall b | 0 <= b < CELLS ensures !BoundTooLarge(built[b].bound) {
      assert forall j :: 0 <= j < |keys| ==> Moderate(keys[j]);
      ModerateBounds(built[b], b, keys);
    }
    DerivedAcceptedIff(m, built, edge);
  }

  // ----- a model that fails -------------------------------------------------------------------------------------

  /** -2^23 in units of 2^-20. */
  const FAR_KEY: Vector := [-0x800_0000_0000, 0, 0, 0, 0, 0, 0, 0]

  const FAR_EXPERTS := 9

  function FarExpert(): (e: Expert)
    ensures ExpertShaped(e) && Storable(e) && ExpertOk(e, FAR_EXPERTS) && KeyOf(e) == FAR_KEY
  {
    Expert(1, 0, 1, 0, 0, 1, FAR_KEY, FAR_KEY, seq(32, _ => 0), seq(8, _ => 0), seq(4, _ => 0),
           seq(8, _ => NO_EDGE), 0, 0, 0, 0)
  }

  function FarKeys(): (keys: seq<Vector>)
    ensures |keys| == FAR_EXPERTS
  {
    seq(FAR_EXPERTS, _ => FAR_KEY)
  }

  /** All experts are equally far from the cell, so the first eight are listed. */
  function FarCell(b: nat): Cell { Cell(seq(ROUTE_K, i => i), Finite(CellLb(b, FAR_KEY, Q20))) }

  function FarBuilt(): (built: seq<Cell>)
    ensures |built| == CELLS
  {
    seq(CELLS, b requires 0 <= b < CELLS => FarCell(b))
  }

  function FarModel(edge: int): (m: Model)
    ensures Shaped(m)
  {
    Model(seq(FAR_EXPERTS, _ => FarExpert()), 0, seq(FAR_EXPERTS, _ => Edges(FarExpert(), FarKeys())),
          seq(CELLS, b requires 0 <= b < CELLS => FarCell(b).(bound := PrintedBound(FarCell(b).bound, edge))))
  }

  lemma FarCellBuilt(b: nat)
    requires b < CELLS
    ensures IsRouteCell(FarCell(b), b, FarKeys(), Q20, ROUTE_K)
  {
    var cell, n := FarCell(b), FAR_EXPERTS;
    var lb := seq(n, j requires 0 <= j < n => CellLb(b, FarKeys()[j], Q20));
    assert cell.ids[..ROUTE_K] == cell.ids;
    forall j | 0 <= j < n ensures Listed(cell, ROUTE_K, j) <==> j < ROUTE_K {
      if j < ROUTE_K { assert cell.ids[j] == j; }
    }
    assert IsFirstExcluded(cell, lb, ROUTE_K, ROUTE_K);
  }

  lemma FarBound(b: nat)
    requires b < CELLS
    ensures BoundTooLarge(FarCell(b).bound)
  {
    var lo := (LO + 32 * CellDigit(b, 0)) * Q20;
    assert CellLbUpTo(b, FAR_KEY, Q20, 1) == AxisLb(FAR_KEY[0], lo, lo + 31 * Q20);
    SquareMonotone(0x7ff_fc00_0000, lo - FAR_KEY[0]);
    assert CellLbUpTo(b, FAR_KEY, Q20, 2) >= CellLbUpTo(b, FAR_KEY, Q20, 1);
    assert CellLbUpTo(b, FAR_KEY, Q20, 3) >= CellLbUpTo(b, FAR_KEY, Q20, 2);
    assert CellLb(b, FAR_KEY, Q20) >= CellLbUpTo(b, FAR_KEY, Q20, 3);
  }

  lemma FarModelDerived(edge: int)
    ensures Derived(FarModel(edge), FarBuilt(), edge)
  {
    var m, built := FarModel(edge), FarBuilt();
    assert Keys(m.experts) == FarKeys();
    forall b | 0 <= b < CELLS ensures IsRouteCell(built[b], b, Keys(m.experts), Q20, ROUTE_K) { FarCellBuilt(b); }
    forall b | 0 <= b < CELLS ensures IsPrinted(m.routing[b], built[b], edge) {}
  }

  /** Built afresh from nine experts that pass every check; refused if 2^63 is converted to the mark. */
  lemma FarModelRefusedIff(edge: int)
    requires Int64(edge)
    ensures var m := FarModel(edge);
            Derived(m, FarBuilt(), edge) && ExpertsChecked(m) && (Parse(Print(m)).None? <==> edge == INT64_MAX)
  {
    var m, built := FarModel(edge), FarBuilt();
    FarModelDerived(edge);
    FarBound(0);
    assert ExpertsChecked(m) by {
      forall j | 0 <= j < |m.experts| ensures Storable(m.experts[j]) && ExpertOk(m.experts[j], |m.experts|) {
        assert m.experts[j] == FarExpert();
      }
    }
    DerivedAcceptedIff(m, built, edge);
    assert BoundTooLarge(built[0].bound);
  }
}
