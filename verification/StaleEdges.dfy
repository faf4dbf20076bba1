/**
 * What happens to a graph that was compiled over experts that may retire: a concrete run in which a
 * supported edge is cut. The program compiles only over an anchored base before it adapts, so its own
 * runs never get there.
 */
module StaleEdges {
  import opened Ravel
  import opened CheckpointFormat
  import opened Router
  import opened RouterBounds
  import opened Retirement
  import opened RetirementEdges
  import opened Refinement
  import opened Adaptation
  import T = CheckpointTables

  const NO_LINK := Link(INVALID, 0)
  const NO_LINKS: seq<Link> := seq(8, _ => Link(INVALID, 0))

  function Spot(at: nat): Vector { seq(8, _ => at * Q20) }

  /** An expert at one spot whose events all had outcome 0, action 0 and expert `next` at the end. */
  function At(at: nat, lineage: U64, base: bool, count: U32, next: U16): (e: Expert)
    requires lineage != 0
    ensures ExpertShaped(e) && FlagsOk(e)
  {
    Expert(1, if base then 0 else 1, if base then 1 else 0, 0, 0, lineage, Spot(at), Spot(at),
           seq(32, _ => next * Q20), [count, 0, 0, 0, 0, 0, 0, 0], [count, 0, 0, 0],
           NO_LINKS[0 := if count == 0 then NO_LINK else Link(next, count)], count, 0, 0, 0)
  }

  const BASE := At(0, 4, true, 8, 0)
  const FIRST := At(1, 3, false, 0, 0)
  const SECOND := At(2, 2, false, 0, 0)
  /** The last expert before it lost its events, and after. */
  const THIRD := At(3, 1, false, 2, 2)
  const LATER := At(3, 1, false, 0, 2)

  const EARLIER := [BASE, FIRST, SECOND, THIRD]
  const START := [BASE, FIRST, SECOND, LATER]

  /** What the pass in between makes of the experts that are not anchored, when the base takes all events. */
  lemma LastPass(events: seq<Event>, nearest: seq<int> -> nat, mean: Mean, j: nat)
    requires (forall i :: 0 <= i < |events| ==> nearest(events[i].x) == 0) && 1 <= j < 4
    ensures Refined(EARLIER[j], START[j], j, 4, events, nearest, mean)
  {
    NoneCounted(events, All(j), nearest);
    NoneCounted(events, Missed(j, 0), nearest);
    forall y: nat ensures Tally(events, WithOutcome(j, y), nearest) == 0 {
      NoneCounted(events, WithOutcome(j, y), nearest);
    }
    forall a: nat ensures Tally(events, WithAction(j, a), nearest) == 0 {
      NoneCounted(events, WithAction(j, a), nearest);
    }
    forall a: nat ensures TopTwo(SuccessorRow(events, j, a, 4, nearest), NO_LINK, NO_LINK) {
      forall t: nat ensures Tally(events, WithTarget(j, a, t), nearest) == 0 {
        NoneCounted(events, WithTarget(j, a, t), nearest);
      }
    }
    assert START[j].transitions == NO_LINKS;
  }

  predicate Elsewhere(q: Query) { !q.Anyone? && q.j != 0 }

  lemma {:induction false} NoneCounted(events: seq<Event>, q: Query, nearest: seq<int> -> nat)
    requires (forall i :: 0 <= i < |events| ==> nearest(events[i].x) == 0) && Elsewhere(q)
    ensures Tally(events, q, nearest) == 0
  {
    if events != [] { NoneCounted(events[..|events| - 1], q, nearest); }
  }

  // ----- the graph ------------------------------------------------------------------------------------------------

  lemma {:induction false} DistZero(x: Vector, d: nat)
    requires d <= D
    ensures DistUpTo(x, x, 1, d) == 0
  {
    if d > 0 { DistZero(x, d - 1); }
  }

  lemma {:induction false} DistPositive(x: Vector, key: Vector, d: nat)
    requires 0 < d <= D && x[0] != key[0]
    ensures DistUpTo(x, key, 1, d) > 0
  {
    if d > 1 { DistPositive(x, key, d - 1); }
    else { SquarePositive(x[0] - key[0]); }
  }

  lemma SquarePositive(v: int)
    requires v != 0
    ensures Square(v) > 0
  {
    if v > 0 { SquareMonotone(1, v); } else { SquareMonotone(1, v); }
  }

  /** A key is nearest to itself if no other begins like it. */
  lemma NearestToItself(keys: seq<Vector>, k: nat)
    requires k < |keys| && forall j :: 0 <= j < |keys| && j != k ==> keys[j][0] != keys[k][0]
    ensures Nearest(keys[k], keys, 1) == k
  {
    DistZero(keys[k], D);
    forall j | 0 <= j < |keys| && j != k ensures Better(Dist(keys[k], keys[k], 1), k, Dist(keys[k], keys[j], 1), j) {
      DistPositive(keys[k], keys[j], D);
    }
    NearestCharacterised(keys[k], keys, 1, k);
  }

  /** The one edge of a row: where the expert's events ended. */
  lemma RowOf(at: nat, lineage: U64, base: bool, count: U32, next: U16, keys: seq<Vector>)
    requires lineage != 0 && next < |keys| <= MAXE && keys[next] == Spot(next)
    requires forall j :: 0 <= j < |keys| && j != next ==> keys[j][0] != keys[next][0]
    ensures var row := T.Edges(At(at, lineage, base, count, next), keys);
            row == NO_LINKS[0 := if count < SUPPORT_MIN then NO_LINK else Link(next, count)]
  {
    var e := At(at, lineage, base, count, next);
    var row := T.Edges(e, keys);
    assert T.Predicted(e, 0) == keys[next];
    NearestToItself(keys, next);
    forall i | 0 <= i < 8
      ensures row[i] == if i == 0 && count >= SUPPORT_MIN then Link(next, count) else NO_LINK
    {
      assert i % 2 == 0 || row[i] == T.SecondEdge(e, keys, i / 2);
    }
  }

  /** The last expert's edge leads to the second, and no edge leads to the first. */
  lemma EarlierGraph(graph: seq<seq<Link>>)
    requires T.Compiled(graph, EARLIER)
    ensures graph[0] == NO_LINKS[0 := Link(0, 8)] && graph[1] == graph[2] == NO_LINKS
    ensures graph[3] == NO_LINKS[0 := Link(2, 2)]
  {
    var keys := T.Keys(EARLIER);
    assert keys == [Spot(0), Spot(1), Spot(2), Spot(3)];
    RowOf(0, 4, true, 8, 0, keys);
    RowOf(1, 3, false, 0, 0, keys);
    RowOf(2, 2, false, 0, 0, keys);
    RowOf(3, 1, false, 2, 2, keys);
    assert NO_LINKS[0 := NO_LINK] == NO_LINKS;
  }

  // ----- the run --------------------------------------------------------------------------------------------------

  const MIDDLE := [BASE, LATER, SECOND]

  lemma FirstSafe(graph: seq<seq<Link>>)
    requires T.Compiled(graph, EARLIER)
    ensures Weakest(START, 4, 1) && Safe(START, graph, 1)
  {
    EarlierGraph(graph);
  }

  /** The row of the expert that has moved is not among the first three. */
  lemma SecondSafe(graph: seq<seq<Link>>)
    requires T.Compiled(graph, EARLIER)
    ensures Weakest(MIDDLE, 3, 2) && Safe(MIDDLE, graph, 2)
  {
    EarlierGraph(graph);
  }

  lemma FirstLeaves(graph: seq<seq<Link>>, objective: seq<Expert> -> nat)
    requires T.Compiled(graph, EARLIER) && objective(MIDDLE) + OBJECTIVE_MIN_Q20 >= objective(START)
    ensures MayRetire(START, graph, 1, objective) && Removed(START, 1) == MIDDLE
  {
    FirstSafe(graph);
    RelinkedAlike(BASE, 1, 3);
    RelinkedAlike(LATER, 1, 3);
    RelinkedAlike(SECOND, 1, 3);
    assert Removed(START, 1) == MIDDLE;
  }

  lemma RelinkedAlike(e: Expert, victim: U16, last: U16)
    requires ExpertShaped(e) && (forall i :: 0 <= i < 8 ==> e.transitions[i].target !in {victim, last})
    ensures Relinked(e, victim, last) == e
  {
    assert Relinked(e, victim, last).transitions == e.transitions;
  }

  lemma SecondLeaves(graph: seq<seq<Link>>, objective: seq<Expert> -> nat)
    requires T.Compiled(graph, EARLIER) && objective([BASE, LATER]) + OBJECTIVE_MIN_Q20 >= objective(MIDDLE)
    ensures MayRetire(MIDDLE, graph, 2, objective) && Removed(MIDDLE, 2) == [BASE, LATER]
  {
    SecondSafe(graph);
    RelinkedAlike(BASE, 2, 2);
    RelinkedAlike(LATER, 2, 2);
    assert Removed(MIDDLE, 2) == [BASE, LATER];
  }

  lemma BothLeave(graph: seq<seq<Link>>, objective: seq<Expert> -> nat)
    requires T.Compiled(graph, EARLIER) && objective(MIDDLE) + OBJECTIVE_MIN_Q20 >= objective(START)
    requires objective([BASE, LATER]) + OBJECTIVE_MIN_Q20 >= objective(MIDDLE)
    ensures Retiring(START, graph, [1, 2], objective) && After(START, [1, 2]) == [BASE, LATER]
  {
    FirstLeaves(graph, objective);
    SecondLeaves(graph, objective);
    assert Retiring(START, graph, [], objective);
    RetireMore(START, graph, [], 1, objective);
    assert [] + [1] == [1];
    RetireMore(START, graph, [1], 2, objective);
    assert [1] + [2] == [1, 2];
  }

  lemma ThirdMoves()
    ensures InReach(4, [1, 2]) && Places(4, [1, 2]) == [0, 3] && Retiree(4, [1, 2], 1) == 2
  {
    assert [1, 2][..1] == [1] && [1][..0] == [];
    assert InReach(4, [1]) && InReach(4, []);
    assert Places(4, []) == [0, 1, 2, 3];
    assert Moved([0, 1, 2, 3], 1) == [0, 3, 2];
    assert Places(4, [1]) == [0, 3, 2];
    assert Moved([0, 3, 2], 2) == [0, 3];
  }

  lemma SameExperts()
    ensures Identities(EARLIER, START) && |EARLIER| == |START| == 4
  {
    forall j | 0 <= j < 4 ensures SameIdentity(EARLIER[j], START[j]) {}
  }

  lemma EdgeStands(graph: seq<seq<Link>>)
    requires T.Compiled(graph, EARLIER)
    ensures |graph| == MAXE && LeadsTo(graph[3], 2) && !EndsNoEdge(graph, 4, 2) && !NoEdgeToRetirable(graph, START)
  {
    EarlierGraph(graph);
    assert graph[3][0] == Link(2, 2);
    assert Retirable(START[2]);
  }

  /**
   * The graph was compiled when the third expert behind the base still had its events, all of which
   * ended with the second. The first leaves and the third takes its place; now nobody reads its row, and
   * the second leaves although the third is still there.
   */
  lemma StaleEdgeCut(graph: seq<seq<Link>>, objective: seq<Expert> -> nat)
    requires T.Compiled(graph, EARLIER) && objective(MIDDLE) + OBJECTIVE_MIN_Q20 >= objective(START)
    requires objective([BASE, LATER]) + OBJECTIVE_MIN_Q20 >= objective(MIDDLE)
    ensures Identities(EARLIER, START) && Retiring(START, graph, [1, 2], objective) && Retiree(4, [1, 2], 1) == 2
    ensures LeadsTo(graph[3], 2) && !EndsNoEdge(graph, 4, 2) && Places(4, [1, 2]) == [0, 3]
    ensures !NoEdgeToRetirable(graph, START)
  {
    hide *;
    SameExperts();
    EdgeStands(graph);
    BothLeave(graph, objective);
    ThirdMoves();
  }
}
