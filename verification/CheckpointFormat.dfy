/**
 * RAVEL's checkpoint: the model it stores, the fields it is printed as, the checks its parser
 * makes, and the theorem that printing and parsing undo each other. Stored numbers are integers
 * in units of 2^-20.
 */
module CheckpointFormat {
  import opened Ravel
  import opened Words
  import opened FieldCodec
  import opened Router
  import Sha256

  const TOP_K := 2
  const SUPPORT_MIN := 2
  const ROUTE_K := 8
  const SCHEMA := 5
  const HEADER := 64
  const CHECKPOINT_MAX := 65536

  const TWO63 := 0x8000_0000_0000_0000
  const TWO64 := 0x1_0000_0000_0000_0000
  const INT64_MAX := TWO63 - 1

  type U16 = v: nat | v < 0x1_0000
  type U32 = v: nat | v < WORD
  type U64 = v: nat | v < TWO64

  // ----- the model --------------------------------------------------------------------------------------

  /** A transition to an expert and the number of events that support it. */
  datatype Link = Link(target: U16, support: U32)

  /** `next` holds D numbers per action, `transitions` TOP_K links per action. */
  datatype Expert = Expert(
    active: Byte, lifecycle: Byte, anchored: Byte, generation: U16, classLabel: Byte, lineage: U64,
    key: seq<int>, decode: seq<int>, next: seq<int>,
    labels: seq<U32>, actionCount: seq<U32>, transitions: seq<Link>,
    count: U32, errors: U32, reconstructionSse: int, predictionSse: int)

  datatype Model = Model(experts: seq<Expert>, epoch: U64, graph: seq<seq<Link>>, routing: seq<Cell>)

  predicate ExpertShaped(e: Expert) {
    |e.key| == 8 && |e.decode| == 8 && |e.next| == 32 && |e.labels| == 8 && |e.actionCount| == 4 &&
    |e.transitions| == 8
  }

  predicate CellShaped(c: Cell) {
    |c.ids| == 8 && forall i :: 0 <= i < 8 ==> 0 <= c.ids[i] < 0x1_0000
  }

  /** The array sizes of the program. */
  predicate Shaped(m: Model) {
    |m.graph| == |m.experts| && |m.routing| == CELLS &&
    (forall j :: 0 <= j < |m.experts| ==> ExpertShaped(m.experts[j])) &&
    (forall j :: 0 <= j < |m.graph| ==> |m.graph[j]| == 8) &&
    (forall b :: 0 <= b < CELLS ==> CellShaped(m.routing[b]))
  }

  predicate Int64(v: int) { -TWO63 <= v < TWO63 }

  predicate AllInt64(vs: seq<int>) { forall i :: 0 <= i < |vs| ==> Int64(vs[i]) }

  /** Every number of the expert can be stored. */
  predicate Storable(e: Expert) {
    AllInt64(e.key) && AllInt64(e.decode) && AllInt64(e.next) && Int64(e.reconstructionSse) &&
    Int64(e.predictionSse)
  }

  // ----- what the parser accepts --------------------------------------------------------------------------

  predicate TransitionOk(l: Link, n: nat) {
    (l.target == INVALID || l.target < n) && (l.support == 0 ==> l.target == INVALID)
  }

  predicate EdgeOk(l: Link, n: nat) {
    if l.target == INVALID then l.support == 0 else l.target < n && l.support >= SUPPORT_MIN
  }

  predicate FlagsOk(e: Expert) {
    e.active == 1 && e.lifecycle <= 1 && e.anchored == (if e.lifecycle == 0 then 1 else 0) &&
    e.classLabel < CLASSES && e.lineage != 0 && e.errors <= e.count
  }

  predicate ExpertOk(e: Expert, n: nat) {
    FlagsOk(e) && forall i :: 0 <= i < |e.transitions| ==> TransitionOk(e.transitions[i], n)
  }

  predicate GraphRowOk(row: seq<Link>, n: nat) {
    forall i :: 0 <= i < |row| ==> EdgeOk(row[i], n)
  }

  /** A bound is absent exactly when the cell lists every expert. */
  predicate CellOk(c: Cell, n: nat) {
    IdsOk(c, n, ROUTE_K) && (c.bound.Unbounded? <==> n <= ROUTE_K)
  }

  /** The models that a checkpoint can carry. */
  ghost predicate WellFormed(m: Model) {
    var n := |m.experts|;
    Shaped(m) && 1 <= n <= MAXE &&
    (forall j :: 0 <= j < n ==> Storable(m.experts[j]) && ExpertOk(m.experts[j], n)) &&
    (forall j :: 0 <= j < n ==> GraphRowOk(m.graph[j], n)) &&
    (forall b :: 0 <= b < CELLS ==> CellOk(m.routing[b], n) && BoundStored(m.routing[b].bound))
  }

  /** The largest stored number is taken by the absent bound. */
  predicate BoundStored(b: Bound) { b.Finite? ==> Int64(b.value) && b.value != INT64_MAX }

  // ----- the fields of a model ------------------------------------------------------------------------------

  /** A signed number as an unsigned field, and back. */
  function ToU64(v: int): (u: U64) { v % TWO64 }

  function FromU64(u: U64): (v: int)
    ensures Int64(v) && ToU64(v) == u
  {
    if u >= TWO63 then u - TWO64 else u
  }

  lemma SignedAndBack(v: int)
    requires Int64(v)
    ensures FromU64(ToU64(v)) == v
  {
    if v < 0 { assert v + TWO64 == ToU64(v); }
  }

  /** Bounds outside the range saturate. */
  function StoredBound(b: Bound): int {
    if b.Unbounded? || b.value > INT64_MAX then INT64_MAX
    else if b.value < -TWO63 then -TWO63
    else b.value
  }

  function LoadedBound(v: int): Bound { if v == INT64_MAX then Unbounded else Finite(v) }

  function LinkField(ls: seq<Link>, i: nat): nat
    requires i < 2 * |ls|
  {
    if i % 2 == 0 then ls[i / 2].target else ls[i / 2].support
  }

  function LinkWidth(i: nat): nat { if i % 2 == 0 then 2 else 4 }

  /** The fields of the record of expert `j`, in order. */
  const EXPERT_FIELDS := 87

  function ExpertField(e: Expert, j: nat, i: nat): nat
    requires ExpertShaped(e) && i < EXPERT_FIELDS
  {
    if i == 0 then j
    else if i == 1 then e.active
    else if i == 2 then e.lifecycle
    else if i == 3 then e.anchored
    else if i == 4 then e.generation
    else if i == 5 then e.classLabel
    else if i == 6 then e.lineage
    else if i < 15 then ToU64(e.key[i - 7])
    else if i < 23 then ToU64(e.decode[i - 15])
    else if i < 55 then ToU64(e.next[i - 23])
    else if i < 63 then e.labels[i - 55]
    else if i < 67 then e.actionCount[i - 63]
    else if i < 83 then LinkField(e.transitions, i - 67)
    else if i == 83 then e.count
    else if i == 84 then e.errors
    else if i == 85 then ToU64(e.reconstructionSse)
    else ToU64(e.predictionSse)
  }

  function ExpertWidth(i: nat): nat {
    if i == 0 || i == 4 then 2
    else if i < 6 then 1
    else if i < 55 then 8
    else if i < 67 then 4
    else if i < 83 then LinkWidth(i - 67)
    else if i < 85 then 4
    else 8
  }

  function ExpertValues(e: Expert, j: nat): (v: seq<nat>)
    requires ExpertShaped(e)
    ensures |v| == EXPERT_FIELDS
  {
    seq(EXPERT_FIELDS, i requires 0 <= i < EXPERT_FIELDS => ExpertField(e, j, i))
  }

  function ExpertWidths(): (ws: seq<nat>)
    ensures |ws| == EXPERT_FIELDS
  {
    seq(EXPERT_FIELDS, i requires 0 <= i < EXPERT_FIELDS => ExpertWidth(i))
  }

  const EDGE_FIELDS := 17

  function GraphValues(row: seq<Link>, j: nat): (v: seq<nat>)
    requires |row| == 8
    ensures |v| == EDGE_FIELDS
  {
    seq(EDGE_FIELDS, i requires 0 <= i < EDGE_FIELDS => if i == 0 then j else LinkField(row, i - 1))
  }

  function GraphWidths(): (ws: seq<nat>)
    ensures |ws| == EDGE_FIELDS
  {
    seq(EDGE_FIELDS, i requires 0 <= i < EDGE_FIELDS => if i == 0 then 2 else LinkWidth(i - 1))
  }

  const CELL_FIELDS := 10

  function CellField(c: Cell, b: nat, i: nat): nat
    requires CellShaped(c) && i < CELL_FIELDS
  {
    if i == 0 then b else if i < 9 then c.ids[i - 1] else ToU64(StoredBound(c.bound))
  }

  function CellValues(c: Cell, b: nat): (v: seq<nat>)
    requires CellShaped(c)
    ensures |v| == CELL_FIELDS
  {
    seq(CELL_FIELDS, i requires 0 <= i < CELL_FIELDS => CellField(c, b, i))
  }

  function CellWidths(): (ws: seq<nat>)
    ensures |ws| == CELL_FIELDS
  {
    seq(CELL_FIELDS, i requires 0 <= i < CELL_FIELDS => if i < 9 then 2 else 8)
  }

  function ExpertRecords(m: Model): (r: seq<seq<nat>>)
    requires Shaped(m)
    ensures |r| == |m.experts|
  {
    seq(|m.experts|, j requires 0 <= j < |m.experts| => ExpertValues(m.experts[j], j))
  }

  function GraphRecords(m: Model): (r: seq<seq<nat>>)
    requires Shaped(m)
    ensures |r| == |m.graph|
  {
    seq(|m.graph|, j requires 0 <= j < |m.graph| => GraphValues(m.graph[j], j))
  }

  function CellRecords(m: Model): (r: seq<seq<nat>>)
    requires Shaped(m)
    ensures |r| == CELLS
  {
    seq(CELLS, b requires 0 <= b < CELLS => CellValues(m.routing[b], b))
  }

  function PayloadValues(m: Model): seq<nat>
    requires Shaped(m)
  {
    [|m.experts|, m.epoch, TOP_K, SUPPORT_MIN] + Flat(ExpertRecords(m)) + Flat(GraphRecords(m)) +
    Flat(CellRecords(m))
  }

  function Rows(ws: seq<nat>, n: nat): (r: seq<seq<nat>>)
    ensures |r| == n
  {
    seq(n, _ => ws)
  }

  const LEAD: seq<nat> := [2, 8, 2, 2]

  function PayloadWidths(n: nat): seq<nat> {
    LEAD + Flat(Rows(ExpertWidths(), n)) + Flat(Rows(GraphWidths(), n)) + Flat(Rows(CellWidths(), CELLS))
  }

  // ----- reading the fields back ----------------------------------------------------------------------------

  predicate ExpertRanges(v: seq<nat>) {
    |v| == EXPERT_FIELDS && v[0] < 0x1_0000 && v[1] < 256 && v[2] < 256 && v[3] < 256 && v[4] < 0x1_0000 &&
    v[5] < 256 && v[6] < TWO64 &&
    (forall i :: 7 <= i < 55 ==> v[i] < TWO64) &&
    (forall i :: 55 <= i < 67 ==> v[i] < WORD) &&
    LinkRanges(v[67..83]) &&
    v[83] < WORD && v[84] < WORD && v[85] < TWO64 && v[86] < TWO64
  }

  predicate LinkRanges(v: seq<nat>) {
    |v| == 16 && forall i :: 0 <= i < 16 ==> v[i] < if i % 2 == 0 then 0x1_0000 else WORD
  }

  function LinksOf(v: seq<nat>): (ls: seq<Link>)
    requires LinkRanges(v)
    ensures |ls| == 8
  {
    seq(8, i requires 0 <= i < 8 => Link(v[2 * i], v[2 * i + 1]))
  }

  function ExpertOf(v: seq<nat>): Expert
    requires ExpertRanges(v)
  {
    Expert(v[1], v[2], v[3], v[4], v[5], v[6],
           seq(8, i requires 0 <= i < 8 => FromU64(v[7 + i])),
           seq(8, i requires 0 <= i < 8 => FromU64(v[15 + i])),
           seq(32, i requires 0 <= i < 32 => FromU64(v[23 + i])),
           v[55..63], v[63..67], LinksOf(v[67..83]), v[83], v[84], FromU64(v[85]), FromU64(v[86]))
  }

  predicate GraphRanges(v: seq<nat>) {
    |v| == EDGE_FIELDS && v[0] < 0x1_0000 && LinkRanges(v[1..])
  }

  predicate CellRanges(v: seq<nat>) {
    |v| == CELL_FIELDS && (forall i :: 0 <= i < 9 ==> v[i] < 0x1_0000) && v[9] < TWO64
  }

  function CellFrom(v: seq<nat>): Cell
    requires CellRanges(v)
  {
    Cell(v[1..9], LoadedBound(FromU64(v[9])))
  }

  lemma Powers()
    ensures Pow256(1) == 256 && Pow256(2) == 0x1_0000 && Pow256(4) == WORD && Pow256(8) == TWO64
  {
    assert Pow256(2) == 256 * Pow256(1);
    assert Pow256(4) == 256 * (256 * Pow256(2));
    assert Pow256(6) == 256 * (256 * Pow256(4));
    assert Pow256(8) == 256 * (256 * Pow256(6));
  }

  lemma FitsExpert(v: seq<nat>)
    ensures Fits(ExpertWidths(), v) <==> ExpertRanges(v)
  {
    Powers();
    if Fits(ExpertWidths(), v) {
      forall i | 0 <= i < EXPERT_FIELDS ensures v[i] < Pow256(ExpertWidth(i)) {
        assert v[i] < Pow256(ExpertWidths()[i]);
      }
    }
    if ExpertRanges(v) {
      forall i | 0 <= i < EXPERT_FIELDS ensures v[i] < Pow256(ExpertWidths()[i]) {
        if 67 <= i < 83 { assert v[67..83][i - 67] == v[i]; }
      }
    }
  }

  lemma FitsGraph(v: seq<nat>)
    ensures Fits(GraphWidths(), v) <==> GraphRanges(v)
  {
    Powers();
    if Fits(GraphWidths(), v) {
      forall i | 0 <= i < 16 ensures v[1..][i] < Pow256(LinkWidth(i)) {
        assert v[i + 1] < Pow256(GraphWidths()[i + 1]);
      }
      assert v[0] < Pow256(GraphWidths()[0]);
    }
    if GraphRanges(v) {
      forall i | 0 <= i < EDGE_FIELDS ensures v[i] < Pow256(GraphWidths()[i]) {
        if i > 0 { assert v[1..][i - 1] == v[i]; }
      }
    }
  }

  lemma FitsCell(v: seq<nat>)
    ensures Fits(CellWidths(), v) <==> CellRanges(v)
  {
    Powers();
    if Fits(CellWidths(), v) {
      forall i | 0 <= i < CELL_FIELDS ensures v[i] < Pow256(if i < 9 then 2 else 8) {
        assert v[i] < Pow256(CellWidths()[i]);
      }
    }
  }

  // ----- records and back -----------------------------------------------------------------------------------

  lemma LinksBack(ls: seq<Link>, v: seq<nat>)
    requires |ls| == 8 && |v| == 16 && forall i :: 0 <= i < 16 ==> v[i] == LinkField(ls, i)
    ensures LinkRanges(v) && LinksOf(v) == ls
  {
    forall i | 0 <= i < 8 ensures LinksOf(v)[i] == ls[i] {
      assert v[2 * i] == LinkField(ls, 2 * i) && v[2 * i + 1] == LinkField(ls, 2 * i + 1);
    }
  }

  lemma LinksForth(v: seq<nat>, i: nat)
    requires LinkRanges(v) && i < 16
    ensures LinkField(LinksOf(v), i) == v[i]
  {
    assert i == 2 * (i / 2) + i % 2;
  }

  lemma ExpertBack(e: Expert, j: nat)
    requires ExpertShaped(e) && Storable(e) && j < 0x1_0000
    ensures ExpertRanges(ExpertValues(e, j)) && ExpertOf(ExpertValues(e, j)) == e
  {
    var v := ExpertValues(e, j);
    LinksBack(e.transitions, v[67..83]);
    NumbersBack(e.key);
    NumbersBack(e.decode);
    NumbersBack(e.next);
    SignedAndBack(e.reconstructionSse);
    SignedAndBack(e.predictionSse);
    var f := ExpertOf(v);
    assert f.key == e.key && f.decode == e.decode && f.next == e.next;
    assert f.labels == e.labels && f.actionCount == e.actionCount;
  }

  lemma NumbersBack(xs: seq<int>)
    requires AllInt64(xs)
    ensures forall i :: 0 <= i < |xs| ==> FromU64(ToU64(xs[i])) == xs[i]
  {
    forall i | 0 <= i < |xs| ensures FromU64(ToU64(xs[i])) == xs[i] { SignedAndBack(xs[i]); }
  }

  lemma ExpertForth(v: seq<nat>)
    requires ExpertRanges(v)
    ensures ExpertShaped(ExpertOf(v)) && Storable(ExpertOf(v))
    ensures ExpertValues(ExpertOf(v), v[0]) == v
  {
    var e := ExpertOf(v);
    forall i | 0 <= i < EXPERT_FIELDS ensures ExpertField(e, v[0], i) == v[i] {
      if 67 <= i < 83 { LinksForth(v[67..83], i - 67); }
    }
  }

  lemma GraphBack(row: seq<Link>, j: nat)
    requires |row| == 8 && j < 0x1_0000
    ensures GraphRanges(GraphValues(row, j)) && LinksOf(GraphValues(row, j)[1..]) == row
  {
    LinksBack(row, GraphValues(row, j)[1..]);
  }

  lemma GraphForth(v: seq<nat>)
    requires GraphRanges(v)
    ensures GraphValues(LinksOf(v[1..]), v[0]) == v
  {
    forall i | 0 <= i < EDGE_FIELDS ensures GraphValues(LinksOf(v[1..]), v[0])[i] == v[i] {
      if i > 0 { LinksForth(v[1..], i - 1); }
    }
  }

  lemma CellBack(c: Cell, b: nat)
    requires CellShaped(c) && BoundStored(c.bound) && b < 0x1_0000
    ensures CellRanges(CellValues(c, b)) && CellFrom(CellValues(c, b)) == c
  {
    var v := CellValues(c, b);
    SignedAndBack(StoredBound(c.bound));
    assert forall i :: 0 <= i < 9 ==> v[i] == CellField(c, b, i);
    assert CellFrom(v).ids == c.ids;
  }

  lemma CellForth(v: seq<nat>)
    requires CellRanges(v)
    ensures CellShaped(CellFrom(v)) && BoundStored(CellFrom(v).bound)
    ensures CellValues(CellFrom(v), v[0]) == v
  {
    forall i | 0 <= i < CELL_FIELDS ensures CellField(CellFrom(v), v[0], i) == v[i] {}
  }

  // ----- whole payloads ---------------------------------------------------------------------------------------

  const LEAD_BYTES := 14
  const EXPERT_BYTES := 520
  const EDGE_BYTES := 50
  const CELL_BYTES := 26

  function LinkWidths(n: nat): (ws: seq<nat>)
    ensures |ws| == 2 * n
  {
    seq(2 * n, i requires 0 <= i < 2 * n => LinkWidth(i))
  }

  lemma {:induction false} SumLinks(n: nat)
    ensures Sum(LinkWidths(n)) == 6 * n
  {
    if n > 0 {
      var ws := LinkWidths(n);
      assert ws[..2 * n - 1][..2 * n - 2] == LinkWidths(n - 1);
      SumLinks(n - 1);
    }
  }

  lemma SumAnd(ws: seq<nat>, w: nat, n: nat)
    ensures Sum(ws + Same(w, n)) == Sum(ws) + w * n
  {
    SumConcat(ws, Same(w, n));
    SumSame(w, n);
  }

  lemma ExpertSize()
    ensures Sum(ExpertWidths()) == EXPERT_BYTES
  {
    var a := Same(2, 1) + Same(1, 3);
    var b := a + Same(2, 1) + Same(1, 1);
    var c := b + Same(8, 49) + Same(4, 12);
    var d := c + LinkWidths(8);
    assert ExpertWidths() == d + Same(4, 2) + Same(8, 2);
    SumAnd(d + Same(4, 2), 8, 2);
    SumAnd(d, 4, 2);
    SumConcat(c, LinkWidths(8));
    SumLinks(8);
    SumAnd(b + Same(8, 49), 4, 12);
    SumAnd(b, 8, 49);
    SumAnd(a + Same(2, 1), 1, 1);
    SumAnd(a, 2, 1);
    SumAnd(Same(2, 1), 1, 3);
    SumSame(2, 1);
  }

  lemma EdgeSize()
    ensures Sum(GraphWidths()) == EDGE_BYTES
  {
    assert GraphWidths() == Same(2, 1) + LinkWidths(8);
    SumConcat(Same(2, 1), LinkWidths(8));
    SumSame(2, 1);
    SumLinks(8);
  }

  lemma CellSize()
    ensures Sum(CellWidths()) == CELL_BYTES
  {
    assert CellWidths() == Same(2, 9) + Same(8, 1);
    SumAnd(Same(2, 9), 8, 1);
    SumSame(2, 9);
  }

  lemma LeadSize()
    ensures Sum(LEAD) == LEAD_BYTES
  {
    assert LEAD == Same(2, 1) + Same(8, 1) + Same(2, 2);
    SumAnd(Same(2, 1) + Same(8, 1), 2, 2);
    SumAnd(Same(2, 1), 8, 1);
    SumSame(2, 1);
  }

  function PayloadSize(n: nat): nat { LEAD_BYTES + EXPERT_BYTES * n + EDGE_BYTES * n + CELL_BYTES * CELLS }

  function PayloadFields(n: nat): nat { 4 + EXPERT_FIELDS * n + EDGE_FIELDS * n + CELL_FIELDS * CELLS }

  lemma PayloadShape(n: nat)
    ensures Sum(PayloadWidths(n)) == PayloadSize(n) && |PayloadWidths(n)| == PayloadFields(n)
  {
    var e, g, c := Rows(ExpertWidths(), n), Rows(GraphWidths(), n), Rows(CellWidths(), CELLS);
    LeadSize();
    ExpertSize();
    EdgeSize();
    CellSize();
    SumFlat(e, EXPERT_BYTES);
    SumFlat(g, EDGE_BYTES);
    SumFlat(c, CELL_BYTES);
    FlatLength(e, EXPERT_FIELDS);
    FlatLength(g, EDGE_FIELDS);
    FlatLength(c, CELL_FIELDS);
    SumConcat(LEAD + Flat(e) + Flat(g), Flat(c));
    SumConcat(LEAD + Flat(e), Flat(g));
    SumConcat(LEAD, Flat(e));
  }
}
