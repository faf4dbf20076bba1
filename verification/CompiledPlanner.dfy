/**
 * Planning over the graph a RAVEL model compiles: its primary edges are the predictions of the
 * experts, so a plan is a shortest way through predictions that rest on enough events.
 */
module CompiledPlanner {
  import opened Ravel
  import opened CheckpointFormat
  import opened CheckpointTables
  import opened Router
  import opened Shortlex
  import P = Planner

  predicate RowsWhole(graph: seq<seq<Link>>) { forall j :: 0 <= j < |graph| ==> |graph[j]| == ACTIONS * TOP_K }

  /** The first link of every action, as the planner reads them. */
  function PrimaryEdges(graph: seq<seq<Link>>, n: nat): (g: P.Graph)
    requires RowsWhole(graph) && n <= |graph|
    ensures |g| == n
  {
    seq(n, j requires 0 <= j < n => seq(ACTIONS, a requires 0 <= a < ACTIONS => graph[j][TOP_K * a].target))
  }

  /** Where the experts predict that an action leads, if they have seen it often enough. */
  function Predict(es: seq<Expert>, u: int, a: int): (v: int)
    requires AllShaped(es) && |es| <= MAXE
    ensures -1 <= v < |es|
  {
    if 0 <= u < |es| && 0 <= a < ACTIONS && es[u].actionCount[a] >= SUPPORT_MIN
    then Nearest(Predicted(es[u], a), Keys(es), 1)
    else -1
  }

  function PredictAll(es: seq<Expert>, u: int, actions: seq<int>): (v: int)
    requires AllShaped(es) && |es| <= MAXE
    ensures -1 <= v < |es| || v == u
  {
    if actions == [] then u
    else Predict(es, PredictAll(es, u, actions[..|actions| - 1]), actions[|actions| - 1])
  }

  lemma CompiledWhole(graph: seq<seq<Link>>, es: seq<Expert>)
    requires AllShaped(es) && Compiled(graph, es)
    ensures RowsWhole(graph)
  {
  }

  /** A step over a compiled graph is a prediction. */
  lemma StepPredicts(graph: seq<seq<Link>>, es: seq<Expert>, u: int, a: int)
    requires AllShaped(es) && Compiled(graph, es) && RowsWhole(graph)
    ensures P.Step(PrimaryEdges(graph, |es|), u, a) == Predict(es, u, a)
  {
    if 0 <= u < |es| && 0 <= a < ACTIONS {
      assert Edges(es[u], Keys(es))[TOP_K * a] == FirstEdge(es[u], Keys(es), a);
      FirstEdgeSound(es[u], Keys(es), a);
    }
  }

  /** And so is a whole walk. */
  lemma {:induction false} WalkPredicts(graph: seq<seq<Link>>, es: seq<Expert>, u: int, actions: seq<int>)
    requires AllShaped(es) && Compiled(graph, es) && RowsWhole(graph)
    ensures P.Walk(PrimaryEdges(graph, |es|), u, actions) == PredictAll(es, u, actions)
  {
    if actions != [] {
      var k := |actions| - 1;
      WalkPredicts(graph, es, u, actions[..k]);
      StepPredicts(graph, es, PredictAll(es, u, actions[..k]), actions[k]);
    }
  }

  /** The first of all action sequences that are predicted to lead from `start` to `goal`. */
  ghost predicate FirstPrediction(es: seq<Expert>, start: int, goal: int, actions: seq<int>)
    requires AllShaped(es) && |es| <= MAXE
  {
    PredictAll(es, start, actions) == goal &&
    forall other :: PredictAll(es, start, other) == goal ==> other == actions || Sooner(actions, other)
  }

  ghost predicate Predictable(es: seq<Expert>, start: int, goal: int, limit: nat)
    requires AllShaped(es) && |es| <= MAXE
  {
    exists actions :: |actions| <= limit && PredictAll(es, start, actions) == goal
  }

  /** Compiles the model and plans over it: found exactly when predicted within the limit, and the first. */
  method PlanModel(es: seq<Expert>, start: int, goal: int) returns (ok: bool, actions: seq<int>)
    requires AllShaped(es) && |es| <= MAXE && 0 <= start && 0 <= goal
    ensures ok <==> start < |es| && goal < |es| && Predictable(es, start, goal, 32)
    ensures ok ==> |actions| <= 32 && FirstPrediction(es, start, goal, actions)
  {
    var graph := CompileGraph(es);
    CompiledWhole(graph, es);
    var g := PrimaryEdges(graph, |es|);
    var used, expansions, unknown;
    ok, actions, used, expansions, unknown := P.PlanActions(g, start, goal, 0, 0);
    forall other: seq<int> ensures P.Walk(g, start, other) == PredictAll(es, start, other) {
      WalkPredicts(graph, es, start, other);
    }
  }
}
