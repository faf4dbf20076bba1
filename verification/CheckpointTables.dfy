/**
 * The derived tables of a RAVEL model: the transition graph of `compile_graph`, and how large the
 * excluded bounds of the lattice get.
 */
module CheckpointTables {
  import opened Ravel
  import opened Words
  import opened Router
  import opened RouterBounds
  import opened CheckpointFormat

  const NO_EDGE := Link(INVALID, 0)

  function KeyOf(e: Expert): Vector
    requires ExpertShaped(e)
  {
    e.key
  }

  function Keys(es: seq<Expert>): (keys: seq<Vector>)
    requires AllShaped(es)
    ensures |keys| == |es|
  {
    seq(|es|, j requires 0 <= j < |es| => KeyOf(es[j]))
  }

  predicate AllShaped(es: seq<Expert>) { forall j :: 0 <= j < |es| ==> ExpertShaped(es[j]) }

  /** The predicted next observation under an action. */
  function Predicted(e: Expert, a: nat): Vector
    requires ExpertShaped(e) && a < ACTIONS
  {
    e.next[8 * a..8 * a + 8]
  }

  // ----- the graph ------------------------------------------------------------------------------------------

  /** The first edge goes to the expert nearest to the prediction, once the action was seen twice. */
  function FirstEdge(e: Expert, keys: seq<Vector>, a: nat): Link
    requires ExpertShaped(e) && a < ACTIONS && 0 < |keys| <= MAXE
  {
    if e.actionCount[a] < SUPPORT_MIN then NO_EDGE
    else Link(Nearest(Predicted(e, a), keys, 1), e.actionCount[a])
  }

  /** The first observed transition that is not the first edge. */
  function Alternative(e: Expert, a: nat, first: U16): Link
    requires ExpertShaped(e) && a < ACTIONS
  {
    if e.transitions[2 * a].target != first then e.transitions[2 * a]
    else if e.transitions[2 * a + 1].target != first then e.transitions[2 * a + 1]
    else NO_EDGE
  }

  /** Kept when it has half the support of the action; doubling wraps at 32 bits. */
  function SecondEdge(e: Expert, keys: seq<Vector>, a: nat): Link
    requires ExpertShaped(e) && a < ACTIONS && 0 < |keys| <= MAXE
  {
    var link := Alternative(e, a, FirstEdge(e, keys, a).target);
    if e.actionCount[a] < SUPPORT_MIN || link.support < SUPPORT_MIN || link.target >= |keys| then NO_EDGE
    else if link.support * 2 % WORD >= e.actionCount[a] then link
    else NO_EDGE
  }

  function Edges(e: Expert, keys: seq<Vector>): (row: seq<Link>)
    requires ExpertShaped(e) && 0 < |keys| <= MAXE
    ensures |row| == ACTIONS * TOP_K
  {
    seq(8, i requires 0 <= i < 8 => if i % 2 == 0 then FirstEdge(e, keys, i / 2) else SecondEdge(e, keys, i / 2))
  }

  /** A first edge exists exactly for an action seen often enough, and leads to the nearest expert. */
  lemma FirstEdgeSound(e: Expert, keys: seq<Vector>, a: nat)
    requires ExpertShaped(e) && a < ACTIONS && 0 < |keys| <= MAXE
    ensures var first := FirstEdge(e, keys, a);
            EdgeOk(first, |keys|) && (first.target < |keys| <==> e.actionCount[a] >= SUPPORT_MIN) &&
            (first.target < |keys| ==> IsNearest(Predicted(e, a), keys, 1, first.target))
  {
    NearestCharacterised(Predicted(e, a), keys, 1, Nearest(Predicted(e, a), keys, 1));
  }

  /** A second edge needs a first one and never repeats it. */
  lemma SecondEdgeSound(e: Expert, keys: seq<Vector>, a: nat)
    requires ExpertShaped(e) && a < ACTIONS && 0 < |keys| <= MAXE
    ensures var first, second := FirstEdge(e, keys, a), SecondEdge(e, keys, a);
            EdgeOk(second, |keys|) &&
            (second.target < |keys| ==> first.target < |keys| && second.target != first.target)
  {
    FirstEdgeSound(e, keys, a);
  }

  lemma EdgesPass(e: Expert, keys: seq<Vector>)
    requires ExpertShaped(e) && 0 < |keys| <= MAXE
    ensures GraphRowOk(Edges(e, keys), |keys|)
  {
    forall i | 0 <= i < 8 ensures EdgeOk(Edges(e, keys)[i], |keys|) {
      FirstEdgeSound(e, keys, i / 2);
      SecondEdgeSound(e, keys, i / 2);
    }
  }

  method NearestVector(vector: Vector, keys: seq<Vector>) returns (best: int)
    requires keys != []
    ensures best == Nearest(vector, keys, 1)
  {
    best := INVALID;
    var bestD := Unbounded;
    for expert := 0 to |keys|
      invariant expert == 0 ==> bestD == Unbounded
      invariant expert > 0 ==>
                  best == NearestUpTo(vector, keys, 1, expert) && bestD == Finite(Dist(vector, keys[best], 1))
    {
      var distance := 0;
      for d := 0 to D
        invariant distance == DistUpTo(vector, keys[expert], 1, d)
      {
        distance := distance + Square(vector[d] - keys[expert][d]);
      }
      if bestD.Unbounded? || Better(distance, expert, bestD.value, best) {
        bestD, best := Finite(distance), expert;
      }
    }
  }

  method CompileEdge(e: Expert, keys: seq<Vector>, a: nat, k: nat, first: U16) returns (edge: Link)
    requires ExpertShaped(e) && a < ACTIONS && k < TOP_K && 0 < |keys| <= MAXE
    requires k == 1 ==> first == FirstEdge(e, keys, a).target
    ensures edge == if k == 0 then FirstEdge(e, keys, a) else SecondEdge(e, keys, a)
  {
    var link := NO_EDGE;
    if k == 0 {
      var target := NearestVector(Predicted(e, a), keys);
      link := Link(target, e.actionCount[a]);
    } else {
      for observed := 0 to TOP_K
        invariant link == NO_EDGE
        invariant observed >= 1 ==> e.transitions[2 * a].target == first
        invariant observed >= 2 ==> e.transitions[2 * a + 1].target == first
      {
        var candidate := e.transitions[2 * a + observed];
        if candidate.target != first {
          link := candidate;
          break;
        }
      }
      assert link == Alternative(e, a, first);
    }
    var primary := e.actionCount[a];
    if primary < SUPPORT_MIN || link.support < SUPPORT_MIN || link.target >= |keys| {
      edge := NO_EDGE;
    } else if k == 0 || link.support * 2 % WORD >= primary {
      edge := link;
    } else {
      edge := NO_EDGE;
    }
  }

  function NoEdges(): (row: seq<Link>)
    ensures |row| == ACTIONS * TOP_K
  {
    seq(ACTIONS * TOP_K, _ => NO_EDGE)
  }

  /** One row for every expert there can be; rows behind the last expert are cleared. */
  ghost predicate Compiled(graph: seq<seq<Link>>, es: seq<Expert>)
    requires AllShaped(es)
  {
    |es| <= MAXE && |graph| == MAXE &&
    (forall j :: 0 <= j < |es| ==> graph[j] == Edges(es[j], Keys(es))) &&
    forall j :: |es| <= j < MAXE ==> graph[j] == NoEdges()
  }

  method CompileRow(e: Expert, keys: seq<Vector>) returns (row: seq<Link>)
    requires ExpertShaped(e) && 0 < |keys| <= MAXE
    ensures row == Edges(e, keys)
  {
    row := [];
    for action := 0 to ACTIONS
      invariant |row| == 2 * action && row == Edges(e, keys)[..2 * action]
    {
      var first := CompileEdge(e, keys, action, 0, INVALID);
      var second := CompileEdge(e, keys, action, 1, first.target);
      row := row + [first, second];
    }
  }

  method CompileGraph(es: seq<Expert>) returns (graph: seq<seq<Link>>)
    requires AllShaped(es) && |es| <= MAXE
    ensures Compiled(graph, es)
  {
    graph := [];
    var keys := Keys(es);
    for j := 0 to |es|
      invariant |graph| == j && forall i :: 0 <= i < j ==> graph[i] == Edges(es[i], keys)
    {
      var row := CompileRow(es[j], keys);
      graph := graph + [row];
    }
    for j := |es| to MAXE
      invariant |graph| == j && forall i :: 0 <= i < |es| ==> graph[i] == Edges(es[i], keys)
      invariant forall i :: |es| <= i < j ==> graph[i] == NoEdges()
    {
      graph := graph + [NoEdges()];
    }
  }

  // ----- the lattice ------------------------------------------------------------------------------------------

  /** A bound in units of 2^-40 that is within half a unit of 2^63 - 512 units of 2^-20, or larger. */
  predicate BoundTooLarge(b: Bound) { b.Finite? && b.value >= (TWO63 - 512) * Q20 - Q20 / 2 }

  /** Coordinates below 2^20 in magnitude, in units of 2^-20. */
  predicate Moderate(key: Vector) { forall d :: 0 <= d < 4 ==> -0x100_0000_0000 <= key[d] <= 0x100_0000_0000 }

  const FAR := 0x100_0000_0000 + 64 * Q20

  lemma {:induction false} BoundGrows(b: nat, key: Vector, d: nat)
    requires Moderate(key) && d <= 4
    ensures CellLbUpTo(b, key, Q20, d) <= d * (FAR * FAR)
  {
    if d > 0 {
      BoundGrows(b, key, d - 1);
      var lo := (LO + 32 * CellDigit(b, d - 1)) * Q20;
      var c := key[d - 1];
      if c < lo { SquareMonotone(lo - c, FAR); }
      if c > lo + 31 * Q20 { SquareMonotone(c - (lo + 31 * Q20), FAR); }
    }
  }

  /** With keys of ordinary size the bounds can always be stored. */
  lemma ModerateBounds(cell: Cell, b: nat, keys: seq<Vector>)
    requires IsRouteCell(cell, b, keys, Q20, ROUTE_K)
    requires forall j :: 0 <= j < |keys| ==> Moderate(keys[j])
    ensures !BoundTooLarge(cell.bound)
  {
    var n, take := |keys|, Take(|keys|, ROUTE_K);
    var lb := seq(n, j requires 0 <= j < n => CellLb(b, keys[j], Q20));
    if n > ROUTE_K {
      var c :| IsFirstExcluded(cell, lb, take, c);
      BoundGrows(b, keys[c], 4);
    }
  }
}
