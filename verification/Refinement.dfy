/**
 * One refinement pass of RAVEL: events are handed to their nearest expert by the certified router, and
 * every expert is re-estimated from those it got. Counts and sums are exact here; `mean` is what
 * floating-point division makes of a sum and a count, and squared errors may come out as anything.
 * Keys are in units of 1/s.
 */
module Refinement {
  import opened Ravel
  import opened Words
  import opened CheckpointFormat
  import opened Router
  import opened Retirement
  import T = CheckpointTables

  datatype Event = Event(x: seq<int>, nx: seq<int>, action: nat, outcome: nat, state: nat, nextState: nat, domain: nat)

  predicate InBox(v: seq<int>) { |v| == D && forall d :: 0 <= d < D ==> LO <= v[d] <= HI }

  predicate Valid(e: Event) {
    e.action < ACTIONS && e.outcome < CLASSES && e.domain <= 1 && e.state < STATES && e.nextState < STATES &&
    InBox(e.x) && InBox(e.nx)
  }

  /** The ranges of an event, in numbers; the coordinates are those of the router's domain. */
  lemma EventChecks(e: Event)
    ensures Valid(e) <==>
            e.action <= 3 && e.outcome <= 7 && (e.domain == 0 || e.domain == 1) && e.state <= 63 &&
            e.nextState <= 63 && |e.x| == |e.nx| == 8 &&
            forall d :: 0 <= d < 8 ==> -64 <= e.x[d] <= 63 && -64 <= e.nx[d] <= 63
  {
  }

  /** The nearest expert of an observation; never one that does not exist. */
  ghost predicate Nearby(nearest: seq<int> -> nat, n: nat) { forall x: seq<int> :: nearest(x) < n }

  // ----- tallies --------------------------------------------------------------------------------------------

  /** Which events are counted: all valid ones, or those of an expert by outcome, action, successor. */
  datatype Query =
    | Anyone | All(j: nat) | WithOutcome(j: nat, y: nat) | WithAction(j: nat, a: nat)
    | WithTarget(j: nat, a: nat, t: nat) | Missed(j: nat, expected: nat)

  predicate Matches(q: Query, e: Event, nearest: seq<int> -> nat) {
    Valid(e) &&
    match q
    case Anyone => true
    case All(j) => nearest(e.x) == j
    case WithOutcome(j, y) => nearest(e.x) == j && e.outcome == y
    case WithAction(j, a) => nearest(e.x) == j && e.action == a
    case WithTarget(j, a, t) => nearest(e.x) == j && e.action == a && nearest(e.nx) == t
    case Missed(j, expected) => nearest(e.x) == j && e.outcome != expected
  }

  function Tally(events: seq<Event>, q: Query, nearest: seq<int> -> nat): (k: nat)
    ensures k <= |events|
  {
    if events == [] then 0
    else
      var last := |events| - 1;
      Tally(events[..last], q, nearest) + if Matches(q, events[last], nearest) then 1 else 0
  }

  lemma TallySnoc(events: seq<Event>, i: nat, q: Query, nearest: seq<int> -> nat)
    requires i < |events|
    ensures Tally(events[..i + 1], q, nearest) ==
            Tally(events[..i], q, nearest) + if Matches(q, events[i], nearest) then 1 else 0
  {
    assert events[..i + 1][..i] == events[..i];
  }

  /** A stronger condition is met less often. */
  lemma {:induction false} TallyBelow(events: seq<Event>, q: Query, r: Query, nearest: seq<int> -> nat)
    requires forall e: Event :: Matches(q, e, nearest) ==> Matches(r, e, nearest)
    ensures Tally(events, q, nearest) <= Tally(events, r, nearest)
  {
    if events != [] { TallyBelow(events[..|events| - 1], q, r, nearest); }
  }

  /** A way to divide the events of a query up. */
  datatype Family = Outcomes(j: nat) | Actions(j: nat) | Targets(j: nat, a: nat) | Experts

  function Whole(f: Family): Query {
    match f
    case Outcomes(j) => All(j)
    case Actions(j) => All(j)
    case Targets(j, a) => WithAction(j, a)
    case Experts => Anyone
  }

  function Member(f: Family, k: nat): Query {
    match f
    case Outcomes(j) => WithOutcome(j, k)
    case Actions(j) => WithAction(j, k)
    case Targets(j, a) => WithTarget(j, a, k)
    case Experts => All(k)
  }

  function Key(f: Family, e: Event, nearest: seq<int> -> nat): nat {
    match f
    case Outcomes(_) => e.outcome
    case Actions(_) => e.action
    case Targets(_, _) => nearest(e.nx)
    case Experts => nearest(e.x)
  }

  function FamilySum(events: seq<Event>, f: Family, n: nat, nearest: seq<int> -> nat): nat {
    if n == 0 then 0 else FamilySum(events, f, n - 1, nearest) + Tally(events, Member(f, n - 1), nearest)
  }

  lemma {:induction false} FamilySnoc(events: seq<Event>, f: Family, n: nat, nearest: seq<int> -> nat)
    requires events != []
    ensures var last := |events| - 1;
            FamilySum(events, f, n, nearest) ==
            FamilySum(events[..last], f, n, nearest) +
            if Matches(Whole(f), events[last], nearest) && Key(f, events[last], nearest) < n then 1 else 0
  {
    if n > 0 {
      FamilySnoc(events, f, n - 1, nearest);
      assert Matches(Member(f, n - 1), events[|events| - 1], nearest) <==>
             Matches(Whole(f), events[|events| - 1], nearest) && Key(f, events[|events| - 1], nearest) == n - 1;
    }
  }

  lemma {:induction false} NothingToSum(f: Family, n: nat, nearest: seq<int> -> nat)
    ensures FamilySum([], f, n, nearest) == 0
  {
    if n > 0 { NothingToSum(f, n - 1, nearest); }
  }

  /** Nothing is counted twice and nothing is missed. */
  lemma {:induction false} FamilyAddsUp(events: seq<Event>, f: Family, n: nat, nearest: seq<int> -> nat)
    requires forall e: Event :: Valid(e) ==> Key(f, e, nearest) < n
    ensures FamilySum(events, f, n, nearest) == Tally(events, Whole(f), nearest)
  {
    if events == [] {
      NothingToSum(f, n, nearest);
    } else {
      FamilySnoc(events, f, n, nearest);
      FamilyAddsUp(events[..|events| - 1], f, n, nearest);
    }
  }

  /** One coordinate of the observation before or after the action. */
  function Coordinate(e: Event, after: bool, d: nat): int
    requires Valid(e) && d < D
  {
    if after then e.nx[d] else e.x[d]
  }

  /** The sum of one coordinate over the events of a query. */
  function Total(events: seq<Event>, q: Query, after: bool, d: nat, nearest: seq<int> -> nat): int
    requires d < D
  {
    if events == [] then 0
    else
      var last := |events| - 1;
      Total(events[..last], q, after, d, nearest) +
      if Matches(q, events[last], nearest) then Coordinate(events[last], after, d) else 0
  }

  lemma TotalSnoc(events: seq<Event>, i: nat, q: Query, after: bool, d: nat, nearest: seq<int> -> nat)
    requires i < |events| && d < D
    ensures Total(events[..i + 1], q, after, d, nearest) ==
            Total(events[..i], q, after, d, nearest) +
            if Matches(q, events[i], nearest) then Coordinate(events[i], after, d) else 0
  {
    assert events[..i + 1][..i] == events[..i];
  }

  /** The exact mean lies in the domain. */
  lemma {:induction false} TotalInBox(events: seq<Event>, q: Query, after: bool, d: nat, nearest: seq<int> -> nat)
    requires d < D
    ensures LO * Tally(events, q, nearest) <= Total(events, q, after, d, nearest) <= HI * Tally(events, q, nearest)
  {
    if events != [] {
      var last := |events| - 1;
      TotalInBox(events[..last], q, after, d, nearest);
      if Matches(q, events[last], nearest) { assert LO <= Coordinate(events[last], after, d) <= HI; }
    }
  }

  // ----- counting in one pass ----------------------------------------------------------------------------------

  /** The nearest expert to an observation. */
  function Closest(x: seq<int>, keys: seq<Vector>, s: nat): nat {
    if keys == [] || |x| != D then 0 else Nearest(x, keys, s)
  }

  function NearestOf(keys: seq<Vector>, s: nat): seq<int> -> nat { x => Closest(x, keys, s) }

  ghost predicate Built(routing: array<Cell>, keys: seq<Vector>, s: nat)
    reads routing
  {
    routing.Length == CELLS && forall b :: 0 <= b < CELLS ==> IsRouteCell(routing[b], b, keys, s, ROUTE_K)
  }

  /** The expert of an observation, by the router or by the full scan. */
  method Assign(x: seq<int>, keys: seq<Vector>, s: nat, routing: array<Cell>, routed: bool) returns (j: nat)
    requires keys != [] && |x| == D && Built(routing, keys, s)
    ensures j == Closest(x, keys, s) < |keys|
  {
    var evaluations, certified;
    if routed {
      forall b | 0 <= b < CELLS
        ensures |routing[b].ids| == ROUTE_K && forall i :: 0 <= i < ROUTE_K ==> 0 <= routing[b].ids[i]
      {
        assert IsRouteCell(routing[b], b, keys, s, ROUTE_K);
      }
      j, evaluations, certified := RoutedNearest(x, keys, s, ROUTE_K, routing, 0, 0);
      BuiltCellSound(routing[CellOf(x)], CellOf(x), keys, s, ROUTE_K);
      RoutedIsNearest(x, keys, s, ROUTE_K, routing[CellOf(x)]);
    } else {
      j, evaluations := FullNearest(x, keys, s, 0);
    }
  }

  /** The counters of one pass, indexed by expert. */
  class Counters {
    const n: nat
    const counts: array<nat>
    const errors: array<nat>
    const outcomes: array2<nat>
    const actions: array2<nat>
    const targets: array3<nat>
    const keySums: array2<int>
    const decodeSums: array2<int>
    const nextSums: array3<int>

    constructor (n: nat)
      ensures this.n == n && Sized() && fresh(counts) && fresh(errors) && fresh(outcomes) && fresh(actions) &&
              fresh(targets) && fresh(keySums) && fresh(decodeSums) && fresh(nextSums)
      ensures forall j: nat :: j < n ==> counts[j] == 0 && errors[j] == 0
      ensures forall j: nat, y: nat :: j < n && y < CLASSES ==> outcomes[j, y] == 0
      ensures forall j: nat, a: nat :: j < n && a < ACTIONS ==> actions[j, a] == 0
      ensures forall j: nat, a: nat, t: nat :: j < n && a < ACTIONS && t < n ==> targets[j, a, t] == 0
      ensures forall j: nat, d: nat :: j < n && d < D ==> keySums[j, d] == 0 && decodeSums[j, d] == 0
      ensures forall j: nat, a: nat, d: nat :: j < n && a < ACTIONS && d < D ==> nextSums[j, a, d] == 0
    {
      this.n := n;
      counts, errors := new nat[n](_ => 0), new nat[n](_ => 0);
      outcomes, actions := new nat[n, CLASSES]((_, _) => 0), new nat[n, ACTIONS]((_, _) => 0);
      targets := new nat[n, ACTIONS, n]((_, _, _) => 0);
      keySums, decodeSums := new int[n, D]((_, _) => 0), new int[n, D]((_, _) => 0);
      nextSums := new int[n, ACTIONS, D]((_, _, _) => 0);
    }

    ghost predicate Sized() {
      counts.Length == n && errors.Length == n && counts != errors &&
      outcomes.Length0 == n && outcomes.Length1 == CLASSES && actions.Length0 == n && actions.Length1 == ACTIONS &&
      outcomes != actions && targets.Length0 == n && targets.Length1 == ACTIONS && targets.Length2 == n &&
      keySums.Length0 == decodeSums.Length0 == n && keySums.Length1 == decodeSums.Length1 == D &&
      keySums != decodeSums && nextSums.Length0 == n && nextSums.Length1 == ACTIONS && nextSums.Length2 == D
    }

    ghost predicate CountsHold(events: seq<Event>, es: seq<Expert>, nearest: seq<int> -> nat)
      reads counts, errors
      requires Sized() && |es| == n
    {
      (forall j: nat :: j < n ==> counts[j] == Tally(events, All(j), nearest)) &&
      (forall j: nat :: j < n ==> errors[j] == Tally(events, Missed(j, es[j].classLabel), nearest))
    }

    ghost predicate RowsHold(events: seq<Event>, nearest: seq<int> -> nat)
      reads outcomes, actions
      requires Sized()
    {
      (forall j: nat, y: nat :: j < n && y < CLASSES ==>
        outcomes[j, y] == Tally(events, WithOutcome(j, y), nearest)) &&
      (forall j: nat, a: nat :: j < n && a < ACTIONS ==>
        actions[j, a] == Tally(events, WithAction(j, a), nearest))
    }

    ghost predicate TargetsHold(events: seq<Event>, nearest: seq<int> -> nat)
      reads targets
      requires Sized()
    {
      forall j: nat, a: nat, t: nat :: j < n && a < ACTIONS && t < n ==>
        targets[j, a, t] == Tally(events, WithTarget(j, a, t), nearest)
    }

    ghost predicate KeySumsHold(events: seq<Event>, nearest: seq<int> -> nat)
      reads keySums, decodeSums
      requires Sized()
    {
      forall j: nat, d: nat :: j < n && d < D ==>
        keySums[j, d] == decodeSums[j, d] == Total(events, All(j), false, d, nearest)
    }

    ghost predicate NextSumsHold(events: seq<Event>, nearest: seq<int> -> nat)
      reads nextSums
      requires Sized()
    {
      forall j: nat, a: nat, d: nat :: j < n && a < ACTIONS && d < D ==>
        nextSums[j, a, d] == Total(events, WithAction(j, a), true, d, nearest)
    }

    /** The counters hold the tallies and sums of the events. */
    ghost predicate Hold(events: seq<Event>, es: seq<Expert>, nearest: seq<int> -> nat)
      reads counts, errors, outcomes, actions, targets, keySums, decodeSums, nextSums
      requires Sized() && |es| == n
    {
      CountsHold(events, es, nearest) && RowsHold(events, nearest) && TargetsHold(events, nearest) &&
      KeySumsHold(events, nearest) && NextSumsHold(events, nearest)
    }

    method Count(events: seq<Event>, i: nat, es: seq<Expert>, j: nat, ghost nearest: seq<int> -> nat)
      requires Sized() && |es| == n && i < |events| && Valid(events[i]) && j == nearest(events[i].x) < n
      requires CountsHold(events[..i], es, nearest)
      modifies counts, errors
      ensures CountsHold(events[..i + 1], es, nearest)
    {
      TallyGrows(events, i, nearest);
      counts[j] := counts[j] + 1;
      if es[j].classLabel != events[i].outcome { errors[j] := errors[j] + 1; }
    }

    method CountRows(events: seq<Event>, i: nat, j: nat, ghost nearest: seq<int> -> nat)
      requires Sized() && i < |events| && Valid(events[i]) && j == nearest(events[i].x) < n
      requires RowsHold(events[..i], nearest)
      modifies outcomes, actions
      ensures RowsHold(events[..i + 1], nearest)
    {
      TallyGrows(events, i, nearest);
      var e := events[i];
      outcomes[j, e.outcome] := outcomes[j, e.outcome] + 1;
      actions[j, e.action] := actions[j, e.action] + 1;
    }

    method CountTargets(events: seq<Event>, i: nat, j: nat, t: nat, ghost nearest: seq<int> -> nat)
      requires Sized() && i < |events| && Valid(events[i])
      requires j == nearest(events[i].x) < n && t == nearest(events[i].nx) < n
      requires TargetsHold(events[..i], nearest)
      modifies targets
      ensures TargetsHold(events[..i + 1], nearest)
    {
      TallyGrows(events, i, nearest);
      var e := events[i];
      targets[j, e.action, t] := targets[j, e.action, t] + 1;
    }

    method AddKeys(events: seq<Event>, i: nat, j: nat, ghost nearest: seq<int> -> nat)
      requires Sized() && i < |events| && Valid(events[i]) && j == nearest(events[i].x) < n
      requires KeySumsHold(events[..i], nearest)
      modifies keySums, decodeSums
      ensures KeySumsHold(events[..i + 1], nearest)
    {
      var e := events[i];
      for d := 0 to D
        invariant forall k: nat, c: nat :: k < n && c < D && (k != j || c >= d) ==>
                    keySums[k, c] == decodeSums[k, c] == Total(events[..i], All(k), false, c, nearest)
        invariant forall c: nat :: c < d ==>
                    keySums[j, c] == decodeSums[j, c] == Total(events[..i], All(j), false, c, nearest) + e.x[c]
      {
        keySums[j, d] := keySums[j, d] + e.x[d];
        decodeSums[j, d] := decodeSums[j, d] + e.x[d];
      }
      forall k: nat, c: nat | k < n && c < D
        ensures keySums[k, c] == decodeSums[k, c] == Total(events[..i + 1], All(k), false, c, nearest)
      {
        TotalSnoc(events, i, All(k), false, c, nearest);
      }
    }

    method AddNext(events: seq<Event>, i: nat, j: nat, ghost nearest: seq<int> -> nat)
      requires Sized() && i < |events| && Valid(events[i]) && j == nearest(events[i].x) < n
      requires NextSumsHold(events[..i], nearest)
      modifies nextSums
      ensures NextSumsHold(events[..i + 1], nearest)
    {
      var e := events[i];
      for d := 0 to D
        invariant forall k: nat, a: nat, c: nat ::
                    k < n && a < ACTIONS && c < D && (k != j || a != e.action || c >= d) ==>
                    nextSums[k, a, c] == Total(events[..i], WithAction(k, a), true, c, nearest)
        invariant forall c: nat :: c < d ==>
                    nextSums[j, e.action, c] == Total(events[..i], WithAction(j, e.action), true, c, nearest) + e.nx[c]
      {
        nextSums[j, e.action, d] := nextSums[j, e.action, d] + e.nx[d];
      }
      forall k: nat, a: nat, c: nat | k < n && a < ACTIONS && c < D
        ensures nextSums[k, a, c] == Total(events[..i + 1], WithAction(k, a), true, c, nearest)
      {
        TotalSnoc(events, i, WithAction(k, a), true, c, nearest);
      }
    }

    /** An event that is not valid changes nothing. */
    lemma Skip(events: seq<Event>, i: nat, es: seq<Expert>, nearest: seq<int> -> nat)
      requires Sized() && |es| == n && i < |events| && !Valid(events[i]) && Hold(events[..i], es, nearest)
      ensures Hold(events[..i + 1], es, nearest)
    {
      TallyGrows(events, i, nearest);
      forall q: Query, after: bool, d: nat | d < D
        ensures Total(events[..i + 1], q, after, d, nearest) == Total(events[..i], q, after, d, nearest)
      {
        TotalSnoc(events, i, q, after, d, nearest);
      }
    }

    method CountOne(events: seq<Event>, i: nat, es: seq<Expert>, j: nat, t: nat, ghost nearest: seq<int> -> nat)
      requires Sized() && |es| == n && i < |events| && Valid(events[i])
      requires j == nearest(events[i].x) < n && t == nearest(events[i].nx) < n
      requires Hold(events[..i], es, nearest)
      modifies counts, errors, outcomes, actions, targets, keySums, decodeSums, nextSums
      ensures Hold(events[..i + 1], es, nearest)
    {
      Count(events, i, es, j, nearest);
      CountRows(events, i, j, nearest);
      CountTargets(events, i, j, t, nearest);
      AddKeys(events, i, j, nearest);
      AddNext(events, i, j, nearest);
    }

    /** One pass over the events, each counted with the expert it goes to. */
    method CountAll(events: seq<Event>, es: seq<Expert>, keys: seq<Vector>, s: nat, routing: array<Cell>,
                    routed: bool)
      requires Sized() && |es| == n == |keys| && n > 0 && Built(routing, keys, s)
      requires Hold([], es, NearestOf(keys, s))
      modifies counts, errors, outcomes, actions, targets, keySums, decodeSums, nextSums
      ensures Hold(events, es, NearestOf(keys, s))
    {
      ghost var nearest := NearestOf(keys, s);
      for i := 0 to |events|
        invariant Hold(events[..i], es, nearest)
      {
        var e := events[i];
        if Valid(e) {
          var j := Assign(e.x, keys, s, routing, routed);
          var t := Assign(e.nx, keys, s, routing, false);
          CountOne(events, i, es, j, t, nearest);
        } else {
          Skip(events, i, es, nearest);
        }
      }
      assert events[..|events|] == events;
    }
  }

  lemma TallyGrows(events: seq<Event>, i: nat, nearest: seq<int> -> nat)
    requires i < |events|
    ensures forall q: Query :: Tally(events[..i + 1], q, nearest) ==
                               Tally(events[..i], q, nearest) + if Matches(q, events[i], nearest) then 1 else 0
  {
    forall q: Query ensures Tally(events[..i + 1], q, nearest) ==
                            Tally(events[..i], q, nearest) + if Matches(q, events[i], nearest) then 1 else 0
    {
      TallySnoc(events, i, q, nearest);
    }
  }

  // ----- the most frequent successors -----------------------------------------------------------------------------

  /** The most frequent successor other than `excluded`, the first of equals; none if nothing was seen. */
  predicate IsTop(row: seq<nat>, excluded: nat, best: nat, support: nat) {
    if best == INVALID then support == 0 && forall t :: 0 <= t < |row| && t != excluded ==> row[t] == 0
    else
      best < |row| && best != excluded && support == row[best] > 0 &&
      forall t :: 0 <= t < |row| && t != excluded ==> row[t] < row[best] || (row[t] == row[best] && best <= t)
  }

  method TopTarget(row: seq<nat>, excluded: nat) returns (best: nat, support: nat)
    requires |row| <= MAXE
    ensures IsTop(row, excluded, best, support)
  {
    best, support := INVALID, 0;
    for target := 0 to |row|
      invariant IsTop(row[..target], excluded, best, support)
    {
      assert row[..target + 1] == row[..target] + [row[target]];
      if target != excluded && (row[target] > support ||
         (row[target] == support && row[target] != 0 && (best == INVALID || target < best))) {
        best, support := target, row[target];
      }
    }
    assert row[..|row|] == row;
  }

  /** The links of one action: the two most frequent successors. */
  predicate TopTwo(row: seq<nat>, first: Link, second: Link) {
    IsTop(row, INVALID, first.target, first.support) && IsTop(row, first.target, second.target, second.support)
  }

  lemma TopTwoOrdered(row: seq<nat>, first: Link, second: Link)
    requires |row| <= MAXE && TopTwo(row, first, second)
    ensures first.support >= second.support
    ensures second.target != INVALID ==> first.target != INVALID && first.target != second.target
    ensures TransitionOk(first, |row|) && TransitionOk(second, |row|)
  {
  }

  // ----- one pass -----------------------------------------------------------------------------------------------

  /** What floating point makes of the squared errors of an expert. */
  datatype Errors = Errors(reconstructionSse: int, predictionSse: int)

  /** What division makes of a sum and a count, in units of 1/s. */
  type Mean = (int, nat) -> int

  /** The first outcome of highest count. */
  predicate IsMajority(counts: seq<nat>, y: nat) {
    y < |counts| && forall k :: 0 <= k < |counts| ==> counts[k] < counts[y] || (counts[k] == counts[y] && y <= k)
  }

  method Majority(counts: seq<nat>) returns (best: nat)
    requires |counts| == CLASSES
    ensures IsMajority(counts, best)
  {
    best := 0;
    for y := 1 to CLASSES
      invariant best < y
      invariant forall k :: 0 <= k < y ==> counts[k] < counts[best] || (counts[k] == counts[best] && best <= k)
    {
      if counts[y] > counts[best] { best := y; }
    }
  }

  function SuccessorRow(events: seq<Event>, j: nat, a: nat, n: nat, nearest: seq<int> -> nat): (row: seq<nat>)
    ensures |row| == n
  {
    seq(n, t requires 0 <= t < n => Tally(events, WithTarget(j, a, t), nearest))
  }

  /** What one pass makes of expert `j` out of `n`. */
  ghost predicate Refined(e: Expert, r: Expert, j: nat, n: nat, events: seq<Event>, nearest: seq<int> -> nat,
                          mean: Mean)
    requires ExpertShaped(e)
  {
    ExpertShaped(r) && SameIdentity(e, r) &&
    r.count == Tally(events, All(j), nearest) && r.errors == Tally(events, Missed(j, e.classLabel), nearest) &&
    (forall y: nat :: y < CLASSES ==> r.labels[y] == Tally(events, WithOutcome(j, y), nearest)) &&
    (forall a: nat :: a < ACTIONS ==> r.actionCount[a] == Tally(events, WithAction(j, a), nearest)) &&
    (forall a: nat :: a < ACTIONS ==>
      TopTwo(SuccessorRow(events, j, a, n, nearest), r.transitions[2 * a], r.transitions[2 * a + 1])) &&
    (if r.count == 0 then r.key == e.key && r.decode == e.decode && r.next == e.next && r.classLabel == e.classLabel
     else IsMajority(r.labels, r.classLabel) && KeysMean(r, j, events, nearest, mean) &&
          NextMean(e, r, j, events, nearest, mean))
  }

  /** Key and decoder are the mean observation of the expert's events. */
  ghost predicate KeysMean(r: Expert, j: nat, events: seq<Event>, nearest: seq<int> -> nat, mean: Mean)
    requires ExpertShaped(r)
  {
    forall d: nat :: d < D ==> r.key[d] == r.decode[d] == mean(Total(events, All(j), false, d, nearest), r.count)
  }

  /** A prediction is the mean next observation of the events with that action; without any it stays. */
  ghost predicate NextMean(e: Expert, r: Expert, j: nat, events: seq<Event>, nearest: seq<int> -> nat, mean: Mean)
    requires ExpertShaped(e) && ExpertShaped(r)
  {
    forall a: nat, d: nat :: a < ACTIONS && d < D ==>
      r.next[8 * a + d] == NextOf(e, j, a, d, r.actionCount[a], events, nearest, mean)
  }

  function NextOf(e: Expert, j: nat, a: nat, d: nat, count: nat, events: seq<Event>, nearest: seq<int> -> nat,
                  mean: Mean): int
    requires ExpertShaped(e) && a < ACTIONS && d < D
  {
    if count == 0 then e.next[8 * a + d] else mean(Total(events, WithAction(j, a), true, d, nearest), count)
  }

  /** The fields that refinement never touches. */
  predicate SameIdentity(e: Expert, r: Expert) {
    r.active == e.active && r.lifecycle == e.lifecycle && r.anchored == e.anchored &&
    r.generation == e.generation && r.lineage == e.lineage
  }

  /** A refined expert passes the checks of the checkpoint parser if its flags did. */
  lemma RefinedPasses(e: Expert, r: Expert, j: nat, n: nat, events: seq<Event>, nearest: seq<int> -> nat,
                     mean: Mean)
    requires ExpertShaped(e) && Refined(e, r, j, n, events, nearest, mean) && FlagsOk(e) && n <= MAXE
    ensures ExpertOk(r, n)
  {
    TallyBelow(events, Missed(j, e.classLabel), All(j), nearest);
    forall i | 0 <= i < 8 ensures TransitionOk(r.transitions[i], n) {
      var a := i / 2;
      TopTwoOrdered(SuccessorRow(events, j, a, n, nearest), r.transitions[2 * a], r.transitions[2 * a + 1]);
      assert i == 2 * a || i == 2 * a + 1;
    }
  }

  function SumOf(vs: seq<nat>): nat { if vs == [] then 0 else SumOf(vs[..|vs| - 1]) + vs[|vs| - 1] }

  lemma {:induction false} SumIsFamily(vs: seq<nat>, events: seq<Event>, f: Family, nearest: seq<int> -> nat)
    requires forall k :: 0 <= k < |vs| ==> vs[k] == Tally(events, Member(f, k), nearest)
    ensures SumOf(vs) == FamilySum(events, f, |vs|, nearest)
  {
    if vs != [] { SumIsFamily(vs[..|vs| - 1], events, f, nearest); }
  }

  /** Every event of an expert has one outcome and one action. */
  lemma RefinedAddsUp(e: Expert, r: Expert, j: nat, n: nat, events: seq<Event>, nearest: seq<int> -> nat,
                     mean: Mean)
    requires ExpertShaped(e) && Refined(e, r, j, n, events, nearest, mean)
    ensures SumOf(r.labels) == r.count && SumOf(r.actionCount) == r.count
  {
    SumIsFamily(r.labels, events, Outcomes(j), nearest);
    FamilyAddsUp(events, Outcomes(j), CLASSES, nearest);
    SumIsFamily(r.actionCount, events, Actions(j), nearest);
    FamilyAddsUp(events, Actions(j), ACTIONS, nearest);
  }

  function Counts(es: seq<Expert>): (r: seq<nat>)
    ensures |r| == |es|
  {
    seq(|es|, j requires 0 <= j < |es| => es[j].count)
  }

  ghost predicate RefinedAll(es: seq<Expert>, r: seq<Expert>, events: seq<Event>, nearest: seq<int> -> nat,
                             mean: Mean)
    requires AllShaped(es)
  {
    |r| == |es| && forall j :: 0 <= j < |es| ==> Refined(es[j], r[j], j, |es|, events, nearest, mean)
  }

  /** Every valid event goes to exactly one expert. */
  lemma AllEventsAssigned(es: seq<Expert>, r: seq<Expert>, events: seq<Event>, nearest: seq<int> -> nat, mean: Mean)
    requires AllShaped(es) && RefinedAll(es, r, events, nearest, mean) && Nearby(nearest, |es|)
    ensures SumOf(Counts(r)) == Tally(events, Anyone, nearest)
  {
    forall j | 0 <= j < |r| ensures Counts(r)[j] == Tally(events, Member(Experts, j), nearest) {
      assert Refined(es[j], r[j], j, |es|, events, nearest, mean);
    }
    SumIsFamily(Counts(r), events, Experts, nearest);
    FamilyAddsUp(events, Experts, |es|, nearest);
  }

  method Successors(c: Counters, j: nat, a: nat, ghost events: seq<Event>, ghost nearest: seq<int> -> nat)
    returns (first: Link, second: Link)
    requires c.Sized() && j < c.n <= MAXE && a < ACTIONS && c.TargetsHold(events, nearest) && |events| < WORD
    ensures TopTwo(SuccessorRow(events, j, a, c.n, nearest), first, second)
  {
    var row: seq<nat> := [];
    for t := 0 to c.n
      invariant row == SuccessorRow(events, j, a, c.n, nearest)[..t]
    {
      row := row + [c.targets[j, a, t]];
    }
    assert row == SuccessorRow(events, j, a, c.n, nearest);
    var best, support := TopTarget(row, INVALID);
    first := Link(best, support);
    best, support := TopTarget(row, first.target);
    second := Link(best, support);
  }

  method RefineExpert(c: Counters, e: Expert, j: nat, mean: Mean, errors: Errors, ghost es: seq<Expert>,
                      ghost events: seq<Event>, ghost nearest: seq<int> -> nat)
    returns (r: Expert)
    requires c.Sized() && |es| == c.n <= MAXE && j < c.n && e == es[j] && ExpertShaped(e)
    requires c.Hold(events, es, nearest) && |events| < WORD
    ensures Refined(e, r, j, c.n, events, nearest, mean)
  {
    var labels: seq<U32>, actionCount: seq<U32>, links: seq<Link> := [], [], [];
    for y := 0 to CLASSES
      invariant |labels| == y && forall k: nat :: k < y ==> labels[k] == Tally(events, WithOutcome(j, k), nearest)
    {
      labels := labels + [c.outcomes[j, y]];
    }
    for a := 0 to ACTIONS
      invariant |actionCount| == a && |links| == 2 * a
      invariant forall k: nat :: k < a ==> actionCount[k] == Tally(events, WithAction(j, k), nearest)
      invariant forall k: nat :: k < a ==>
                  TopTwo(SuccessorRow(events, j, k, c.n, nearest), links[2 * k], links[2 * k + 1])
    {
      var first, second := Successors(c, j, a, events, nearest);
      actionCount, links := actionCount + [c.actions[j, a]], links + [first, second];
    }
    r := e.(count := c.counts[j], errors := c.errors[j], labels := labels, actionCount := actionCount,
            transitions := links, reconstructionSse := errors.reconstructionSse,
            predictionSse := errors.predictionSse);
    if c.counts[j] == 0 { return; }
    var best := Majority(labels);
    var key, decode := KeyMeans(c, j, mean, events, nearest);
    var next := NextMeans(c, e, j, actionCount, mean, events, nearest);
    r := r.(key := key, decode := decode, classLabel := best, next := next);
  }

  method KeyMeans(c: Counters, j: nat, mean: Mean, ghost events: seq<Event>, ghost nearest: seq<int> -> nat)
    returns (key: seq<int>, decode: seq<int>)
    requires c.Sized() && j < c.n && c.KeySumsHold(events, nearest)
    ensures |key| == |decode| == D
    ensures forall d: nat :: d < D ==>
              key[d] == decode[d] == mean(Total(events, All(j), false, d, nearest), c.counts[j])
  {
    key, decode := [], [];
    for d := 0 to D
      invariant |key| == |decode| == d
      invariant forall k: nat :: k < d ==>
                  key[k] == decode[k] == mean(Total(events, All(j), false, k, nearest), c.counts[j])
    {
      key := key + [mean(c.keySums[j, d], c.counts[j])];
      decode := decode + [mean(c.decodeSums[j, d], c.counts[j])];
    }
  }

  method NextMeans(c: Counters, e: Expert, j: nat, actionCount: seq<U32>, mean: Mean, ghost events: seq<Event>,
                   ghost nearest: seq<int> -> nat)
    returns (next: seq<int>)
    requires c.Sized() && j < c.n && c.NextSumsHold(events, nearest) && ExpertShaped(e) && |actionCount| == ACTIONS
    ensures |next| == 32
    ensures forall a: nat, d: nat :: a < ACTIONS && d < D ==>
              next[8 * a + d] == NextOf(e, j, a, d, actionCount[a], events, nearest, mean)
  {
    next := e.next;
    for a := 0 to ACTIONS
      invariant |next| == 32
      invariant forall i: nat :: 8 * a <= i < 32 ==> next[i] == e.next[i]
      invariant forall b: nat, d: nat :: b < a && d < D ==>
                  next[8 * b + d] == NextOf(e, j, b, d, actionCount[b], events, nearest, mean)
    {
      if actionCount[a] != 0 {
        var row: seq<int> := [];
        for d := 0 to D
          invariant |row| == d
          invariant forall k: nat :: k < d ==>
                      row[k] == mean(Total(events, WithAction(j, a), true, k, nearest), actionCount[a])
        {
          row := row + [mean(c.nextSums[j, a, d], actionCount[a])];
        }
        next := next[..8 * a] + row + next[8 * a + 8..];
      }
    }
  }

  method RefineEach(c: Counters, es: seq<Expert>, mean: Mean, errors: seq<Errors>, ghost events: seq<Event>,
                    ghost nearest: seq<int> -> nat)
    returns (r: seq<Expert>)
    requires AllShaped(es) && |errors| == |es| == c.n && |events| < WORD
    requires c.Sized() && c.Hold(events, es, nearest)
    ensures RefinedAll(es, r, events, nearest, mean)
  {
    r := [];
    for j := 0 to |es|
      invariant |r| == j && forall k :: 0 <= k < j ==> Refined(es[k], r[k], k, |es|, events, nearest, mean)
    {
      var e := RefineExpert(c, es[j], j, mean, errors[j], es, events, nearest);
      r := r + [e];
    }
  }

  lemma NearestOfNearby(keys: seq<Vector>, s: nat)
    requires keys != []
    ensures Nearby(NearestOf(keys, s), |keys|)
  {
  }

  /** One pass over the events; `errors` is what floating point yields for each expert. */
  method RefineOnce(es: seq<Expert>, events: seq<Event>, s: nat, routed: bool, mean: Mean, errors: seq<Errors>)
    returns (r: seq<Expert>)
    requires AllShaped(es) && es != [] && |events| < WORD && |errors| == |es|
    ensures RefinedAll(es, r, events, NearestOf(T.Keys(es), s), mean)
    ensures SumOf(Counts(r)) == Tally(events, Anyone, NearestOf(T.Keys(es), s))
  {
    var keys := T.Keys(es);
    var routing := BuildLattice(keys, s, ROUTE_K);
    var c := new Counters(|es|);
    c.CountAll(events, es, keys, s, routing, routed);
    r := RefineEach(c, es, mean, errors, events, NearestOf(keys, s));
    NearestOfNearby(keys, s);
    AllEventsAssigned(es, r, events, NearestOf(keys, s), mean);
  }

  // ----- keys stay in the domain ----------------------------------------------------------------------------------

  /** A quotient that lies in the domain is not rounded out of it. */
  ghost predicate MeanOk(mean: Mean, s: nat) {
    forall sum: int, n: nat :: n > 0 && LO * n <= sum <= HI * n ==> LO * s <= mean(sum, n) <= HI * s
  }

  predicate KeyIn(e: Expert, s: nat) { forall d :: 0 <= d < |e.key| ==> LO * s <= e.key[d] <= HI * s }

  predicate KeysIn(es: seq<Expert>, s: nat) { forall j :: 0 <= j < |es| ==> KeyIn(es[j], s) }

  /** However many passes there are, keys that started in the domain of the events stay there. */
  lemma KeysStay(es: seq<Expert>, r: seq<Expert>, events: seq<Event>, nearest: seq<int> -> nat, mean: Mean, s: nat)
    requires AllShaped(es) && RefinedAll(es, r, events, nearest, mean) && MeanOk(mean, s) && KeysIn(es, s)
    ensures KeysIn(r, s)
  {
    forall j | 0 <= j < |es| ensures KeyIn(r[j], s) {
      assert Refined(es[j], r[j], j, |es|, events, nearest, mean) && KeyIn(es[j], s);
      if r[j].count > 0 { MeanIn(r[j], j, events, nearest, mean, s); }
    }
  }

  lemma MeanIn(r: Expert, j: nat, events: seq<Event>, nearest: seq<int> -> nat, mean: Mean, s: nat)
    requires ExpertShaped(r) && r.count == Tally(events, All(j), nearest) > 0
    requires KeysMean(r, j, events, nearest, mean) && MeanOk(mean, s)
    ensures KeyIn(r, s)
  {
    forall d | 0 <= d < 8 ensures LO * s <= r.key[d] <= HI * s {
      TotalInBox(events, All(j), false, d, nearest);
    }
  }
}
