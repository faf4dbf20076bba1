/**
 * Breadth-first planning in RAVEL 0.5: the planner over the primary edges of the compiled graph,
 * and the oracle that measures the world's own shortest paths.
 */
module Planner {
  import opened Prelude
  import opened Ravel
  import opened Shortlex

  const PLAN_LIMIT := 32
  const UNREACHABLE := 0xffff_ffff

  /** Row u, column a: the node action a leads to from node u; an index out of range is no edge. */
  type Graph = g: seq<seq<int>> | forall u :: 0 <= u < |g| ==> |g[u]| == ACTIONS witness []

  // ----- walks ------------------------------------------------------------------------------

  /** Node reached by one action, or -1. */
  function Step(g: Graph, u: int, a: int): (v: int)
    ensures -1 <= v < |g|
  {
    if 0 <= u < |g| && 0 <= a < ACTIONS && 0 <= g[u][a] < |g| then g[u][a] else -1
  }

  /** Node reached by replaying `actions` from `u`, or -1 if some action is unsupported. */
  function Walk(g: Graph, u: int, actions: seq<int>): (v: int)
    ensures -1 <= v < |g| || v == u
  {
    if actions == [] then u
    else Step(g, Walk(g, u, actions[..|actions| - 1]), actions[|actions| - 1])
  }

  ghost predicate Reachable(g: Graph, u: int, v: int) {
    exists actions :: Walk(g, u, actions) == v
  }

  ghost predicate ReachableWithin(g: Graph, u: int, v: int, limit: nat) {
    exists actions :: |actions| <= limit && Walk(g, u, actions) == v
  }

  ghost predicate Shortest(g: Graph, u: int, v: int, actions: seq<int>) {
    Walk(g, u, actions) == v && forall other :: Walk(g, u, other) == v ==> |actions| <= |other|
  }

  // ----- the state of a search ----------------------------------------------------------------

  /**
   * `queue` holds the discovered nodes in order, `level` their depths (-1 if undiscovered).  The
   * first `h` nodes are expanded, and so are the first `done` actions of node `queue[h]`.
   */
  ghost predicate Searching(g: Graph, start: int, queue: seq<int>, level: seq<int>, h: nat, done: nat) {
    h <= |queue| && done <= ACTIONS && (h < |queue| || done == 0) &&
    |level| == |g| && 0 < |queue| && queue[0] == start &&
    (forall i :: 0 <= i < |queue| ==> 0 <= queue[i] < |g| && 0 <= level[queue[i]]) &&
    (forall i, j :: 0 <= i < j < |queue| ==> InOrder(queue, level, i, j)) &&
    (forall v :: 0 <= v < |g| && 0 <= level[v] ==> v in queue) &&
    level[start] == 0 &&
    (h < |queue| ==> forall j :: 0 <= j < |queue| ==> level[queue[j]] <= level[queue[h]] + 1) &&
    (forall i, a :: 0 <= i < |queue| && 0 <= a < ACTIONS && (i < h || (i == h && a < done)) ==>
      Covered(g, level, queue[i], a))
  }

  /** Nodes are discovered once, and shallower nodes first. */
  predicate InOrder(queue: seq<int>, level: seq<int>, i: int, j: int)
    requires 0 <= i < |queue| && 0 <= j < |queue|
    requires 0 <= queue[i] < |level| && 0 <= queue[j] < |level|
  {
    queue[i] != queue[j] && level[queue[i]] <= level[queue[j]]
  }

  /** The edge leads nowhere, or to a node discovered at most one level deeper. */
  predicate Covered(g: Graph, level: seq<int>, u: int, a: int)
    requires |level| == |g| && 0 <= u < |g|
  {
    Step(g, u, a) < 0 || 0 <= level[Step(g, u, a)] <= level[u] + 1
  }

  lemma Discover(g: Graph, start: int, queue: seq<int>, level: seq<int>, h: nat, done: nat)
    requires Searching(g, start, queue, level, h, done) && h < |queue| && done < ACTIONS
    requires var v := Step(g, queue[h], done); v >= 0 && level[v] < 0
    ensures var v := Step(g, queue[h], done);
            Searching(g, start, queue + [v], level[v := level[queue[h]] + 1], h, done + 1)
  {
    var v := Step(g, queue[h], done);
    var queue', level' := queue + [v], level[v := level[queue[h]] + 1];
    forall w | 0 <= w < |g| && 0 <= level'[w] ensures w in queue' {
      assert w == v || w in queue;
    }
    forall i, j | 0 <= i < j < |queue'| ensures InOrder(queue', level', i, j) {
      if j < |queue| { assert InOrder(queue, level, i, j); }
    }
    forall i, a | 0 <= i < |queue'| && 0 <= a < ACTIONS && (i < h || (i == h && a < done + 1))
      ensures Covered(g, level', queue'[i], a)
    {
      if i < h || a < done { assert Covered(g, level, queue[i], a); }
    }
  }

  lemma Skip(g: Graph, start: int, queue: seq<int>, level: seq<int>, h: nat, done: nat)
    requires Searching(g, start, queue, level, h, done) && h < |queue| && done < ACTIONS
    requires var v := Step(g, queue[h], done); v < 0 || 0 <= level[v]
    ensures Searching(g, start, queue, level, h, done + 1)
  {
    var v := Step(g, queue[h], done);
    if v >= 0 { assert v in queue; }
  }

  lemma NextNode(g: Graph, start: int, queue: seq<int>, level: seq<int>, h: nat)
    requires Searching(g, start, queue, level, h, ACTIONS) && h < |queue|
    ensures Searching(g, start, queue, level, h + 1, 0)
  {
    if h + 1 < |queue| { assert InOrder(queue, level, h, h + 1); }
  }

  /** The queue never outgrows the number of nodes. */
  lemma QueueFits(g: Graph, start: int, queue: seq<int>, level: seq<int>, h: nat)
    requires Searching(g, start, queue, level, h, 0)
    ensures |queue| <= |g|
  {
    forall i, j | 0 <= i < j < |queue| ensures queue[i] != queue[j] {
      assert InOrder(queue, level, i, j);
    }
    DistinctFit(queue, |g|);
  }

  /** Every walk ends in a node discovered in time, or passes through an unexpanded node. */
  lemma {:induction false} WalkCovered(g: Graph, start: int, queue: seq<int>, level: seq<int>, h: nat,
                                       actions: seq<int>)
    requires Searching(g, start, queue, level, h, 0)
    requires Walk(g, start, actions) >= 0
    ensures 0 <= level[Walk(g, start, actions)] <= |actions| ||
            (h < |queue| && level[queue[h]] <= |actions|)
  {
    if actions != [] {
      var prefix, a := actions[..|actions| - 1], actions[|actions| - 1];
      var w := Walk(g, start, prefix);
      WalkCovered(g, start, queue, level, h, prefix);
      if 0 <= level[w] <= |prefix| {
        var i :| 0 <= i < |queue| && queue[i] == w;
        if i < h { assert Covered(g, level, queue[i], a); }
        if h < i { assert InOrder(queue, level, h, i); }
      }
    }
  }

  // ----- parent pointers ------------------------------------------------------------------------

  ghost predicate ParentsOk(g: Graph, start: int, level: seq<int>, parent: seq<int>, action: seq<int>) {
    |level| == |g| && |parent| >= |g| && |action| >= |g| && 0 <= start < |g| && level[start] == 0 &&
    forall v :: 0 <= v < |g| && v != start ==> HasParent(g, level, parent, action, v)
  }

  ghost predicate HasParent(g: Graph, level: seq<int>, parent: seq<int>, action: seq<int>, v: int)
    requires |level| == |g| && |parent| >= |g| && |action| >= |g| && 0 <= v < |g|
  {
    0 <= level[v] ==>
      0 <= parent[v] < |g| && level[parent[v]] == level[v] - 1 && 0 <= level[parent[v]] &&
      0 <= action[v] < ACTIONS && Step(g, parent[v], action[v]) == v
  }

  ghost function PathTo(g: Graph, start: int, level: seq<int>, parent: seq<int>, action: seq<int>, v: int)
    : (path: seq<int>)
    requires ParentsOk(g, start, level, parent, action) && 0 <= v < |g| && 0 <= level[v]
    decreases level[v]
    ensures |path| == level[v] && Walk(g, start, path) == v
    ensures forall i :: 0 <= i < |path| ==> 0 <= path[i] < ACTIONS
  {
    if v == start then []
    else
      assert HasParent(g, level, parent, action, v);
      var prefix := PathTo(g, start, level, parent, action, parent[v]);
      assert (prefix + [action[v]])[..|prefix|] == prefix;
      prefix + [action[v]]
  }

  /** Levels climb one at a time along the queue, so they never pass the queue index. */
  lemma {:induction false} LevelBelowIndex(g: Graph, start: int, queue: seq<int>, level: seq<int>, h: nat,
                                           parent: seq<int>, action: seq<int>, i: nat)
    requires Searching(g, start, queue, level, h, 0) && ParentsOk(g, start, level, parent, action)
    requires i < |queue|
    decreases i
    ensures level[queue[i]] <= i
  {
    var v := queue[i];
    if v != start {
      assert HasParent(g, level, parent, action, v);
      var j :| 0 <= j < |queue| && queue[j] == parent[v];
      assert j <= i || InOrder(queue, level, i, j);
      LevelBelowIndex(g, start, queue, level, h, parent, action, j);
    }
  }

  // ----- the planner --------------------------------------------------------------------------

  ghost predicate State(g: Graph, start: int, queue: seq<int>, seen: seq<bool>, parent: seq<int>,
                        action: seq<int>, level: seq<int>, h: nat, done: nat)
  {
    |seen| >= |g| && Searching(g, start, queue, level, h, done) &&
    ParentsOk(g, start, level, parent, action) &&
    forall v :: 0 <= v < |g| ==> (seen[v] <==> 0 <= level[v])
  }

  lemma DiscoverState(g: Graph, start: int, queue: seq<int>, seen: seq<bool>, parent: seq<int>,
                      action: seq<int>, level: seq<int>, h: nat, a: nat, v: int)
    requires State(g, start, queue, seen, parent, action, level, h, a) && h < |queue| && a < ACTIONS
    requires v == Step(g, queue[h], a) && v >= 0 && !seen[v]
    ensures State(g, start, queue + [v], seen[v := true], parent[v := queue[h]], action[v := a],
                  level[v := level[queue[h]] + 1], h, a + 1)
  {
    Discover(g, start, queue, level, h, a);
    var u, level' := queue[h], level[v := level[queue[h]] + 1];
    assert u != v;
    var parent', action' := parent[v := u], action[v := a];
    forall w | 0 <= w < |g| && w != start
      ensures HasParent(g, level', parent', action', w)
    {
      if w != v { assert HasParent(g, level, parent, action, w); }
    }
  }

  // ----- the order of the search ----------------------------------------------------------------------------

  /** The node was discovered from an earlier one, by its recorded parent and action. */
  ghost predicate Grown(queue: seq<int>, paths: seq<seq<int>>, parent: seq<int>, action: seq<int>, h: nat, done: nat,
                        j: nat)
    requires |paths| == |queue| && j < |queue| && 0 <= queue[j] < |parent| && queue[j] < |action|
  {
    var b := action[queue[j]];
    exists i :: 0 <= i < j && parent[queue[j]] == queue[i] && paths[j] == paths[i] + [b] &&
                (i < h || (i == h && b < done))
  }

  /** The edge leads nowhere, or to a node whose path is no later than the one over this edge. */
  ghost predicate Met(g: Graph, queue: seq<int>, paths: seq<seq<int>>, i: nat, a: int)
    requires |paths| == |queue| && i < |queue|
  {
    Step(g, queue[i], a) < 0 ||
    exists j :: 0 <= j < |queue| && queue[j] == Step(g, queue[i], a) &&
                (paths[j] == paths[i] + [a] || Sooner(paths[j], paths[i] + [a]))
  }

  /** `paths` lead to the nodes of the queue, in the order of the action sequences. */
  ghost predicate Planned(g: Graph, start: int, queue: seq<int>, paths: seq<seq<int>>, parent: seq<int>,
                          action: seq<int>, h: nat, done: nat)
  {
    |paths| == |queue| && h <= |queue| && |parent| >= |g| && |action| >= |g| &&
    0 < |queue| && queue[0] == start && paths[0] == [] &&
    (forall i :: 0 <= i < |queue| ==> 0 <= queue[i] < |g| && Walk(g, start, paths[i]) == queue[i]) &&
    (forall i, j :: 0 <= i < j < |queue| ==> Sooner(paths[i], paths[j])) &&
    (forall j :: 0 < j < |queue| ==> Grown(queue, paths, parent, action, h, done, j)) &&
    forall i, a :: 0 <= i < |queue| && 0 <= a < ACTIONS && (i < h || (i == h && a < done)) ==>
      Met(g, queue, paths, i, a)
  }

  /** Every path so far is no later than the one over the next edge. */
  lemma NoLater(g: Graph, start: int, queue: seq<int>, paths: seq<seq<int>>, parent: seq<int>, action: seq<int>,
                h: nat, a: nat, j: nat)
    requires Planned(g, start, queue, paths, parent, action, h, a) && h < |queue| && j < |queue|
    ensures Sooner(paths[j], paths[h] + [a])
  {
    if j > 0 {
      assert Grown(queue, paths, parent, action, h, a, j);
      var b := action[queue[j]];
      var i :| 0 <= i < j && parent[queue[j]] == queue[i] && paths[j] == paths[i] + [b] &&
               (i < h || (i == h && b < a));
      Extended(paths[i], paths[h], b, a);
    }
  }

  lemma DiscoverPlanned(g: Graph, start: int, queue: seq<int>, paths: seq<seq<int>>, parent: seq<int>,
                        action: seq<int>, h: nat, a: nat, v: int)
    requires Planned(g, start, queue, paths, parent, action, h, a) && h < |queue| && a < ACTIONS
    requires v == Step(g, queue[h], a) && v >= 0 && v !in queue
    ensures Planned(g, start, queue + [v], paths + [paths[h] + [a]], parent[v := queue[h]], action[v := a], h, a + 1)
  {
    hide Sooner, Grown, Met;
    var queue', paths' := queue + [v], paths + [paths[h] + [a]];
    assert (paths[h] + [a])[..|paths[h]|] == paths[h];
    forall i, j | 0 <= i < j < |queue'| ensures Sooner(paths'[i], paths'[j]) {
      if j == |queue| { NoLater(g, start, queue, paths, parent, action, h, a, i); }
    }
    DiscoverGrown(g, start, queue, paths, parent, action, h, a, v);
    forall i, b | 0 <= i < |queue'| && 0 <= b < ACTIONS && (i < h || (i == h && b < a + 1))
      ensures Met(g, queue', paths', i, b)
    {
      if i == h && b == a {
        NewMet(g, queue, paths, h, a, v);
      } else {
        assert Met(g, queue, paths, i, b);
        MetStays(g, queue, paths, i, b, v, paths[h] + [a]);
      }
    }
  }

  lemma NewMet(g: Graph, queue: seq<int>, paths: seq<seq<int>>, h: nat, a: nat, v: int)
    requires |paths| == |queue| && h < |queue| && v == Step(g, queue[h], a)
    ensures Met(g, queue + [v], paths + [paths[h] + [a]], h, a)
  {
    var queue', paths' := queue + [v], paths + [paths[h] + [a]];
    assert queue'[|queue|] == v && paths'[|queue|] == paths'[h] + [a];
  }

  lemma DiscoverGrown(g: Graph, start: int, queue: seq<int>, paths: seq<seq<int>>, parent: seq<int>,
                      action: seq<int>, h: nat, a: nat, v: int)
    requires Planned(g, start, queue, paths, parent, action, h, a) && h < |queue| && 0 <= v < |g| && v !in queue
    ensures var queue', paths', next := queue + [v], paths + [paths[h] + [a]], a + 1;
            var parent', action' := parent[v := queue[h]], action[v := a];
            forall j :: 0 < j < |queue'| ==> Grown(queue', paths', parent', action', h, next, j)
  {
    hide Sooner, Met;
    var queue', paths', parent', action' :=
      queue + [v], paths + [paths[h] + [a]], parent[v := queue[h]], action[v := a];
    var n, next := |queue|, a + 1;
    forall j | 0 < j < |queue'| ensures Grown(queue', paths', parent', action', h, next, j) {
      if j < n {
        assert Grown(queue, paths, parent, action, h, a, j);
        var i :| 0 <= i < j && parent[queue[j]] == queue[i] && paths[j] == paths[i] + [action[queue[j]]] &&
                 (i < h || (i == h && action[queue[j]] < a));
        assert queue'[i] == queue[i] && paths'[i] == paths[i];
      } else {
        assert queue'[h] == queue[h] && paths'[h] == paths[h];
      }
    }
  }

  lemma MetStays(g: Graph, queue: seq<int>, paths: seq<seq<int>>, i: nat, b: int, v: int, path: seq<int>)
    requires |paths| == |queue| && i < |queue| && Met(g, queue, paths, i, b)
    ensures Met(g, queue + [v], paths + [path], i, b)
  {
    var queue', paths' := queue + [v], paths + [path];
    if Step(g, queue[i], b) >= 0 {
      var j :| 0 <= j < |queue| && queue[j] == Step(g, queue[i], b) &&
               (paths[j] == paths[i] + [b] || Sooner(paths[j], paths[i] + [b]));
      assert queue'[j] == queue[j] && paths'[j] == paths[j];
    }
  }

  lemma SkipPlanned(g: Graph, start: int, queue: seq<int>, paths: seq<seq<int>>, parent: seq<int>,
                    action: seq<int>, h: nat, a: nat)
    requires Planned(g, start, queue, paths, parent, action, h, a) && h < |queue| && a < ACTIONS
    requires Step(g, queue[h], a) >= 0 ==> Step(g, queue[h], a) in queue
    ensures Planned(g, start, queue, paths, parent, action, h, a + 1)
  {
    var next := a + 1;
    forall j | 0 < j < |queue| ensures Grown(queue, paths, parent, action, h, next, j) {
      assert Grown(queue, paths, parent, action, h, a, j);
    }
    if Step(g, queue[h], a) >= 0 {
      var j :| 0 <= j < |queue| && queue[j] == Step(g, queue[h], a);
      NoLater(g, start, queue, paths, parent, action, h, a, j);
    }
    forall i, b | 0 <= i < |queue| && 0 <= b < ACTIONS && (i < h || (i == h && b < a + 1))
      ensures Met(g, queue, paths, i, b)
    {
    }
  }

  lemma NextPlanned(g: Graph, start: int, queue: seq<int>, paths: seq<seq<int>>, parent: seq<int>,
                    action: seq<int>, h: nat)
    requires Planned(g, start, queue, paths, parent, action, h, ACTIONS) && h < |queue|
    ensures Planned(g, start, queue, paths, parent, action, h + 1, 0)
  {
    var next, none := h + 1, 0;
    forall j | 0 < j < |queue| ensures Grown(queue, paths, parent, action, next, none, j) {
      assert Grown(queue, paths, parent, action, h, ACTIONS, j);
    }
    forall i, b | 0 <= i < |queue| && 0 <= b < ACTIONS && (i < h + 1 || (i == h + 1 && b < 0))
      ensures Met(g, queue, paths, i, b)
    {
    }
  }

  lemma PathEach(g: Graph, start: int, queue: seq<int>, paths: seq<seq<int>>, parent: seq<int>, action: seq<int>,
                 h: nat, done: nat)
    requires Planned(g, start, queue, paths, parent, action, h, done)
    ensures |paths| == |queue|
  {
  }

  lemma StartParents(g: Graph, start: int)
    requires 0 <= start < |g| <= MAXE
    ensures var none := seq(MAXE, _ => INVALID);
            ParentsOk(g, start, seq(|g|, v => if v == start then 0 else -1), none, none)
  {
  }

  lemma StartPlanned(g: Graph, start: int, parent: seq<int>, action: seq<int>)
    requires 0 <= start < |g| && |parent| >= |g| && |action| >= |g|
    ensures Planned(g, start, [start], [[]], parent, action, 0, 0)
  {
  }

  /** The recorded parents trace these paths. */
  lemma {:induction false} PathIs(g: Graph, start: int, queue: seq<int>, paths: seq<seq<int>>, parent: seq<int>,
                                  action: seq<int>, level: seq<int>, h: nat, done: nat, j: nat)
    requires Searching(g, start, queue, level, h, done) && ParentsOk(g, start, level, parent, action)
    requires Planned(g, start, queue, paths, parent, action, h, done) && j < |queue|
    ensures PathTo(g, start, level, parent, action, queue[j]) == paths[j]
    decreases j
  {
    if j > 0 {
      assert InOrder(queue, level, 0, j);
      assert Grown(queue, paths, parent, action, h, done, j);
      var b := action[queue[j]];
      var i :| 0 <= i < j && parent[queue[j]] == queue[i] && paths[j] == paths[i] + [b] &&
               (i < h || (i == h && b < done));
      PathIs(g, start, queue, paths, parent, action, level, h, done, i);
    }
  }

  /** A walk is no earlier than the path to its end, or than the path to the next node to expand. */
  lemma {:induction false} WalkMet(g: Graph, start: int, queue: seq<int>, paths: seq<seq<int>>, parent: seq<int>,
                                   action: seq<int>, h: nat, actions: seq<int>)
    requires Planned(g, start, queue, paths, parent, action, h, 0) && Walk(g, start, actions) >= 0
    ensures (exists j :: 0 <= j < |queue| && queue[j] == Walk(g, start, actions) && !Sooner(actions, paths[j])) ||
            (h < |queue| && !Sooner(actions, paths[h]))
  {
    if actions == [] {
      assert queue[0] == start && !Sooner(actions, paths[0]);
    } else {
      var prefix, a := actions[..|actions| - 1], actions[|actions| - 1];
      assert actions == prefix + [a];
      WalkMet(g, start, queue, paths, parent, action, h, prefix);
      if h < |queue| && !Sooner(prefix, paths[h]) {
        NotSooner(prefix, a, paths[h]);
      } else {
        var i :| 0 <= i < |queue| && queue[i] == Walk(g, start, prefix) && !Sooner(prefix, paths[i]);
        if i < h {
          assert Met(g, queue, paths, i, a);
          var j :| 0 <= j < |queue| && queue[j] == Step(g, queue[i], a) &&
                   (paths[j] == paths[i] + [a] || Sooner(paths[j], paths[i] + [a]));
          OverEdge(prefix, a, paths[i], paths[j]);
        } else {
          AfterNext(prefix, a, paths[i], paths[h], i == h);
        }
      }
    }
  }

  lemma NotSooner(prefix: seq<int>, a: int, path: seq<int>)
    requires !Sooner(prefix, path)
    ensures !Sooner(prefix + [a], path)
  {
    Total(prefix, path);
    Longer(prefix, a);
    Transitive(path, prefix, prefix + [a]);
    Total(path, prefix + [a]);
  }

  lemma OverEdge(prefix: seq<int>, a: int, before: seq<int>, path: seq<int>)
    requires !Sooner(prefix, before) && (path == before + [a] || Sooner(path, before + [a]))
    ensures !Sooner(prefix + [a], path)
  {
    Total(prefix, before);
    if prefix != before { Extended(before, prefix, a, a); }
    Transitive(path, before + [a], prefix + [a]);
    Total(path, prefix + [a]);
  }

  lemma AfterNext(prefix: seq<int>, a: int, path: seq<int>, next: seq<int>, same: bool)
    requires !Sooner(prefix, path) && if same then path == next else Sooner(next, path)
    ensures !Sooner(prefix + [a], next)
  {
    Total(prefix, path);
    Transitive(next, path, prefix);
    Total(next, prefix);
    NotSooner(prefix, a, next);
  }

  /** One action of node `queue[h]`: a supported one discovers its target. */
  method ExpandAction(g: Graph, start: int, queue: seq<int>, seen: seq<bool>, parent: seq<int>,
                      parentAction: seq<int>, ghost level: seq<int>, ghost paths: seq<seq<int>>, h: nat, action: nat)
    returns (queue': seq<int>, seen': seq<bool>, parent': seq<int>, parentAction': seq<int>,
             ghost level': seq<int>, ghost paths': seq<seq<int>>, supported: bool)
    requires State(g, start, queue, seen, parent, parentAction, level, h, action) && h < |queue| && action < ACTIONS
    requires Planned(g, start, queue, paths, parent, parentAction, h, action)
    ensures State(g, start, queue', seen', parent', parentAction', level', h, action + 1)
    ensures Planned(g, start, queue', paths', parent', parentAction', h, action + 1)
    ensures queue <= queue' && (supported <==> Step(g, queue[h], action) >= 0)
  {
    hide Planned;
    PathEach(g, start, queue, paths, parent, parentAction, h, action);
    queue', seen', parent', parentAction', level', paths' := queue, seen, parent, parentAction, level, paths;
    var current := queue[h];
    var next := g[current][action];
    supported := 0 <= next < |g|;
    if supported && !seen[next] {
      DiscoverState(g, start, queue, seen, parent, parentAction, level, h, action, next);
      DiscoverPlanned(g, start, queue, paths, parent, parentAction, h, action, next);
      seen', parent', parentAction' := seen[next := true], parent[next := current], parentAction[next := action];
      queue', level', paths' := queue + [next], level[next := level[current] + 1], paths + [paths[h] + [action]];
    } else {
      Skip(g, start, queue, level, h, action);
      SkipPlanned(g, start, queue, paths, parent, parentAction, h, action);
    }
  }

  lemma NextState(g: Graph, start: int, queue: seq<int>, seen: seq<bool>, parent: seq<int>, action: seq<int>,
                  level: seq<int>, h: nat)
    requires State(g, start, queue, seen, parent, action, level, h, ACTIONS) && h < |queue|
    ensures State(g, start, queue, seen, parent, action, level, h + 1, 0)
  {
    NextNode(g, start, queue, level, h);
  }

  /** Expands node `queue[h]`: every supported action discovers its target. */
  method Expand(g: Graph, start: int, queue: seq<int>, seen: seq<bool>, parent: seq<int>, parentAction: seq<int>,
                ghost level: seq<int>, ghost paths: seq<seq<int>>, h: nat)
    returns (queue': seq<int>, seen': seq<bool>, parent': seq<int>, parentAction': seq<int>,
             ghost level': seq<int>, ghost paths': seq<seq<int>>, unknown: nat)
    requires State(g, start, queue, seen, parent, parentAction, level, h, 0) && h < |queue|
    requires Planned(g, start, queue, paths, parent, parentAction, h, 0)
    ensures State(g, start, queue', seen', parent', parentAction', level', h + 1, 0)
    ensures Planned(g, start, queue', paths', parent', parentAction', h + 1, 0)
    ensures queue <= queue'
    ensures unknown == Unsupported(g, queue[h], ACTIONS)
  {
    hide Planned, State;
    queue', seen', parent', parentAction', level', paths' := queue, seen, parent, parentAction, level, paths;
    unknown := 0;
    for action := 0 to ACTIONS
      invariant State(g, start, queue', seen', parent', parentAction', level', h, action)
      invariant Planned(g, start, queue', paths', parent', parentAction', h, action)
      invariant queue <= queue' && unknown == Unsupported(g, queue[h], action)
    {
      var supported;
      queue', seen', parent', parentAction', level', paths', supported :=
        ExpandAction(g, start, queue', seen', parent', parentAction', level', paths', h, action);
      if !supported { unknown := unknown + 1; }
    }
    NextState(g, start, queue', seen', parent', parentAction', level', h);
    NextPlanned(g, start, queue', paths', parent', parentAction', h);
  }

  /** Follows the parents from the goal, at most PLAN_LIMIT of them. */
  method Backtrace(g: Graph, start: int, goal: int, parent: seq<int>, parentAction: seq<int>,
                   ghost level: seq<int>)
    returns (ok: bool, actions: seq<int>, used: nat)
    requires ParentsOk(g, start, level, parent, parentAction)
    requires 0 <= goal < |g| && 0 <= level[goal]
    ensures ok <==> level[goal] <= PLAN_LIMIT
    ensures ok ==> actions == PathTo(g, start, level, parent, parentAction, goal) && used == |actions|
  {
    ok, actions, used := false, [], 0;
    ghost var path := PathTo(g, start, level, parent, parentAction, goal);
    var reverse: seq<int> := [];
    var current := goal;
    while current != start && |reverse| < PLAN_LIMIT
      invariant |reverse| <= PLAN_LIMIT && Reverses(reverse, path)
      invariant TracedTo(g, start, level, parent, parentAction, current, |reverse|, path)
      decreases PLAN_LIMIT - |reverse|
    {
      TraceStep(g, start, level, parent, parentAction, current, reverse, path);
      reverse := reverse + [parentAction[current]];
      current := parent[current];
    }
    if current != start { return; }
    used := |reverse|;
    actions := Reversed(reverse);
    ok := true;
    ReversedBack(reverse, path);
  }

  /** `back` parents from the end of `path` lead to `current`, and the rest of `path` leads there too. */
  ghost predicate TracedTo(g: Graph, start: int, level: seq<int>, parent: seq<int>, action: seq<int>, current: int,
                           back: nat, path: seq<int>)
    requires ParentsOk(g, start, level, parent, action)
  {
    0 <= current < |g| && 0 <= level[current] && level[current] + back == |path| &&
    PathTo(g, start, level, parent, action, current) == path[..level[current]]
  }

  lemma TraceStep(g: Graph, start: int, level: seq<int>, parent: seq<int>, action: seq<int>, current: int,
                  reverse: seq<int>, path: seq<int>)
    requires ParentsOk(g, start, level, parent, action) && current != start && Reverses(reverse, path)
    requires TracedTo(g, start, level, parent, action, current, |reverse|, path)
    ensures Reverses(reverse + [action[current]], path)
    ensures TracedTo(g, start, level, parent, action, parent[current], |reverse| + 1, path)
  {
    PathStep(g, start, level, parent, action, current);
    var l := level[current];
    assert path[..l][..l - 1] == path[..l - 1] && path[..l][l - 1] == path[l - 1];
  }

  function Reversed(s: seq<int>): seq<int> {
    seq(|s|, i requires 0 <= i < |s| => s[|s| - i - 1])
  }

  /** `reverse` is the end of `path`, backwards. */
  predicate Reverses(reverse: seq<int>, path: seq<int>) {
    |reverse| <= |path| && forall i :: 0 <= i < |reverse| ==> reverse[i] == path[|path| - 1 - i]
  }

  lemma ReversedBack(reverse: seq<int>, path: seq<int>)
    requires Reverses(reverse, path) && |reverse| == |path|
    ensures Reversed(reverse) == path
  {
    forall i | 0 <= i < |path| ensures Reversed(reverse)[i] == path[i] {
      assert reverse[|path| - 1 - i] == path[i];
    }
  }

  lemma PathStep(g: Graph, start: int, level: seq<int>, parent: seq<int>, action: seq<int>, v: int)
    requires ParentsOk(g, start, level, parent, action) && 0 <= v < |g| && 0 <= level[v] && v != start
    ensures 0 <= parent[v] < |g| && 0 <= level[parent[v]] == level[v] - 1
    ensures var path := PathTo(g, start, level, parent, action, v);
            PathTo(g, start, level, parent, action, parent[v]) == path[..level[v] - 1] &&
            path[level[v] - 1] == action[v]
  {
    assert HasParent(g, level, parent, action, v);
  }

  /** Expands nodes in order until the goal comes up or the queue is empty. */
  method Search(g: Graph, start: int, goal: int)
    returns (seen: seq<bool>, parent: seq<int>, parentAction: seq<int>, ghost queue: seq<int>,
             ghost level: seq<int>, ghost paths: seq<seq<int>>, head: nat, popped: nat, unknown: nat)
    requires |g| <= MAXE && 0 <= start < |g| && 0 <= goal < |g|
    ensures State(g, start, queue, seen, parent, parentAction, level, head, 0)
    ensures Planned(g, start, queue, paths, parent, parentAction, head, 0)
    ensures head <= |queue| <= |g| && goal !in queue[..head] && (head == |queue| || queue[head] == goal)
    ensures popped == if head == |queue| then head else head + 1
    ensures unknown == UnsupportedIn(g, queue[..head])
  {
    hide Planned, ParentsOk;
    StartPlanned(g, start, seq(MAXE, _ => INVALID), seq(MAXE, _ => INVALID));
    StartParents(g, start);
    var nodes := [start];
    seen, parent, parentAction := seq(MAXE, v => v == start), seq(MAXE, _ => INVALID), seq(MAXE, _ => INVALID);
    level, paths := seq(|g|, v => if v == start then 0 else -1), [[]];
    head, popped, unknown := 0, 0, 0;
    while head < |nodes|
      invariant 0 <= head <= |nodes| <= |g|
      invariant State(g, start, nodes, seen, parent, parentAction, level, head, 0)
      invariant Planned(g, start, nodes, paths, parent, parentAction, head, 0)
      invariant goal !in nodes[..head]
      invariant popped == head && unknown == UnsupportedIn(g, nodes[..head])
      decreases |g| - head
    {
      var current := nodes[head];
      popped := popped + 1;
      if current == goal { queue := nodes; return; }
      var before, missing := nodes, 0;
      nodes, seen, parent, parentAction, level, paths, missing :=
        Expand(g, start, nodes, seen, parent, parentAction, level, paths, head);
      unknown := unknown + missing;
      QueueFits(g, start, nodes, level, head + 1);
      ExpandedGrows(before, nodes, head);
      head := head + 1;
    }
    queue := nodes;
  }

  /** No action sequence to the goal comes before the path. */
  ghost predicate NoneSooner(g: Graph, start: int, goal: int, path: seq<int>) {
    forall other :: Walk(g, start, other) == goal ==> !Sooner(other, path)
  }

  /** The first of all action sequences to the goal. */
  ghost predicate IsPlan(g: Graph, start: int, goal: int, actions: seq<int>) {
    Walk(g, start, actions) == goal &&
    forall other :: Walk(g, start, other) == goal ==> other == actions || Sooner(actions, other)
  }

  /** The nodes that some action sequence reaches no later than any reaches the goal. */
  ghost function Visited(g: Graph, start: int, goal: int): set<int> {
    set v | 0 <= v < |g| && Early(g, start, goal, v)
  }

  ghost predicate Early(g: Graph, start: int, goal: int, v: int) {
    exists path :: Walk(g, start, path) == v && NoneSooner(g, start, goal, path)
  }

  /** The actions that lead nowhere from these nodes. */
  ghost function DeadActions(g: Graph, nodes: set<int>): set<(int, int)> {
    set v, a | v in nodes && 0 <= a < 4 && Step(g, v, a) < 0 :: (v, a)
  }

  /**
   * Plans over the primary edges `g`; `start` and `goal` may be INVALID. `used` is the length of the plan, which is
   * the first of all action sequences to the goal: the shortest, and of those the one with the smaller action at
   * the first difference. The search expands the goal and what comes before it.
   */
  method PlanActions(g: Graph, start: int, goal: int, expansions: nat, unknownActions: nat)
    returns (ok: bool, actions: seq<int>, used: nat, expansions': nat, unknownActions': nat)
    requires |g| <= MAXE && 0 <= start && 0 <= goal
    ensures ok <==> start < |g| && goal < |g| && ReachableWithin(g, start, goal, 32)
    ensures ok ==> used == |actions| <= 32 && Shortest(g, start, goal, actions)
    ensures ok ==> forall i :: 0 <= i < |actions| ==> 0 <= actions[i] < 4
    ensures ok ==> IsPlan(g, start, goal, actions)
    ensures if start < |g| && goal < |g| then
              expansions' == expansions + |Visited(g, start, goal)| &&
              unknownActions' == unknownActions + |DeadActions(g, Visited(g, start, goal) - {goal})|
            else expansions' == expansions && unknownActions' == unknownActions
    ensures start < |g| && goal < |g| && !Reachable(g, start, goal) ==>
              (unknownActions' == unknownActions <==> NoDeadEnds(g, start))
  {
    ok, actions, used, expansions', unknownActions' := false, [], 0, expansions, unknownActions;
    if start >= |g| || goal >= |g| { return; }
    ghost var queue, level, paths;
    var seen, parent, parentAction, head, popped, unknown;
    seen, parent, parentAction, queue, level, paths, head, popped, unknown := Search(g, start, goal);
    expansions', unknownActions' := expansions + popped, unknownActions + unknown;
    assert head == |queue| ==> queue[..head] == queue;
    SearchOutcome(g, start, goal, queue, seen, parent, parentAction, level, head);
    VisitedCount(g, start, goal, queue, paths, parent, parentAction, level, head, popped);
    if seen[goal] {
      FirstPlan(g, start, goal, queue, paths, parent, parentAction, level, head);
      ok, actions, used := Backtrace(g, start, goal, parent, parentAction, level);
    }
  }

  /** The path of the goal comes before every other action sequence to it. */
  lemma FirstPlan(g: Graph, start: int, goal: int, queue: seq<int>, paths: seq<seq<int>>, parent: seq<int>,
                  action: seq<int>, level: seq<int>, h: nat)
    requires Searching(g, start, queue, level, h, 0) && ParentsOk(g, start, level, parent, action)
    requires Planned(g, start, queue, paths, parent, action, h, 0) && h < |queue| && queue[h] == goal
    requires 0 <= goal < |g| && 0 <= level[goal]
    ensures var path := PathTo(g, start, level, parent, action, goal);
            forall other :: Walk(g, start, other) == goal ==> other == path || Sooner(path, other)
  {
    PathIs(g, start, queue, paths, parent, action, level, h, 0, h);
    forall other | Walk(g, start, other) == goal ensures other == paths[h] || Sooner(paths[h], other) {
      GoalFirst(g, start, goal, queue, paths, parent, action, level, h, other);
      Total(other, paths[h]);
    }
  }

  lemma GoalFirst(g: Graph, start: int, goal: int, queue: seq<int>, paths: seq<seq<int>>, parent: seq<int>,
                  action: seq<int>, level: seq<int>, h: nat, other: seq<int>)
    requires Searching(g, start, queue, level, h, 0) && Planned(g, start, queue, paths, parent, action, h, 0)
    requires h < |queue| && queue[h] == goal && 0 <= goal && Walk(g, start, other) == goal
    ensures !Sooner(other, paths[h])
  {
    WalkMet(g, start, queue, paths, parent, action, h, other);
    forall i, j | 0 <= i < j < |queue| ensures queue[i] != queue[j] { assert InOrder(queue, level, i, j); }
  }

  lemma GoalUnmet(g: Graph, start: int, goal: int, queue: seq<int>, paths: seq<seq<int>>, parent: seq<int>,
                  action: seq<int>, h: nat, other: seq<int>)
    requires Planned(g, start, queue, paths, parent, action, h, 0) && h == |queue|
    requires 0 <= goal && goal !in queue[..h]
    ensures Walk(g, start, other) != goal
  {
    assert queue[..h] == queue;
    if Walk(g, start, other) == goal { WalkMet(g, start, queue, paths, parent, action, h, other); }
  }

  /** What the search expanded are the nodes visited, and what it found missing are their dead actions. */
  lemma VisitedCount(g: Graph, start: int, goal: int, queue: seq<int>, paths: seq<seq<int>>, parent: seq<int>,
                     action: seq<int>, level: seq<int>, h: nat, popped: nat)
    requires Searching(g, start, queue, level, h, 0) && Planned(g, start, queue, paths, parent, action, h, 0)
    requires 0 <= goal < |g| && goal !in queue[..h] && (h == |queue| || queue[h] == goal)
    requires popped == if h == |queue| then h else h + 1
    ensures popped == |Visited(g, start, goal)|
    ensures UnsupportedIn(g, queue[..h]) == |DeadActions(g, Visited(g, start, goal) - {goal})|
  {
    hide Planned, Visited, UnsupportedIn, DeadActions, Searching;
    Distinct(g, start, queue, level, h);
    forall v ensures v in Visited(g, start, goal) <==> v in queue[..popped] {
      VisitedIff(g, start, goal, queue, paths, parent, action, level, h, popped, v);
    }
    SetOf(queue[..popped], Visited(g, start, goal));
    var before := Visited(g, start, goal) - {goal};
    forall v ensures v in before <==> v in queue[..h] {
      if h < |queue| { assert queue[..popped] == queue[..h] + [goal]; }
    }
    DeadCount(g, queue[..h], before);
  }

  lemma Distinct(g: Graph, start: int, queue: seq<int>, level: seq<int>, h: nat)
    requires Searching(g, start, queue, level, h, 0)
    ensures h <= |queue| && forall i, j :: 0 <= i < j < |queue| ==> queue[i] != queue[j]
  {
    forall i, j | 0 <= i < j < |queue| ensures queue[i] != queue[j] { assert InOrder(queue, level, i, j); }
  }

  lemma VisitedIff(g: Graph, start: int, goal: int, queue: seq<int>, paths: seq<seq<int>>, parent: seq<int>,
                   action: seq<int>, level: seq<int>, h: nat, popped: nat, v: int)
    requires Searching(g, start, queue, level, h, 0) && Planned(g, start, queue, paths, parent, action, h, 0)
    requires 0 <= goal < |g| && goal !in queue[..h] && (h == |queue| || queue[h] == goal)
    requires popped == if h == |queue| then h else h + 1
    ensures v in Visited(g, start, goal) <==> v in queue[..popped]
  {
    if v in queue[..popped] {
      var j :| 0 <= j < popped && queue[j] == v;
      EarlyEnough(g, start, goal, queue, paths, parent, action, level, h, j);
      assert Walk(g, start, paths[j]) == v;
    }
    if v in Visited(g, start, goal) {
      var path :| Walk(g, start, path) == v && NoneSooner(g, start, goal, path);
      VisitedFound(g, start, goal, queue, paths, parent, action, h, popped, path);
    }
  }

  lemma VisitedFound(g: Graph, start: int, goal: int, queue: seq<int>, paths: seq<seq<int>>, parent: seq<int>,
                     action: seq<int>, h: nat, popped: nat, path: seq<int>)
    requires Planned(g, start, queue, paths, parent, action, h, 0)
    requires 0 <= goal < |g| && (h == |queue| || queue[h] == goal) && popped == if h == |queue| then h else h + 1
    requires Walk(g, start, path) >= 0 && NoneSooner(g, start, goal, path)
    ensures Walk(g, start, path) in queue[..popped]
  {
    WalkMet(g, start, queue, paths, parent, action, h, path);
    if h < |queue| {
      assert Walk(g, start, paths[h]) == goal;
      Total(path, paths[h]);
      assert queue[..popped][h] == queue[h];
    }
    if j :| 0 <= j < |queue| && queue[j] == Walk(g, start, path) && !Sooner(path, paths[j]) {
      if h < j { Between(paths[h], paths[j], path); }
      assert queue[..popped][j] == queue[j];
    }
  }

  lemma Between(a: seq<int>, b: seq<int>, c: seq<int>)
    requires Sooner(a, b) && !Sooner(c, b)
    ensures Sooner(a, c)
  {
    Total(b, c);
    Transitive(a, b, c);
  }

  /** No sequence to the goal comes before the path of an expanded node. */
  lemma EarlyEnough(g: Graph, start: int, goal: int, queue: seq<int>, paths: seq<seq<int>>, parent: seq<int>,
                    action: seq<int>, level: seq<int>, h: nat, j: nat)
    requires Searching(g, start, queue, level, h, 0) && Planned(g, start, queue, paths, parent, action, h, 0)
    requires 0 <= goal < |g| && goal !in queue[..h] && (h == |queue| || queue[h] == goal)
    requires j < |queue| && j <= h
    ensures NoneSooner(g, start, goal, paths[j])
  {
    forall other | Walk(g, start, other) == goal ensures !Sooner(other, paths[j]) {
      if h < |queue| {
        GoalFirst(g, start, goal, queue, paths, parent, action, level, h, other);
        Total(other, paths[h]);
        Transitive(paths[j], paths[h], other);
        Total(other, paths[j]);
      } else {
        GoalUnmet(g, start, goal, queue, paths, parent, action, h, other);
      }
    }
  }

  lemma {:induction false} SetOf(s: seq<int>, nodes: set<int>)
    requires (forall i, j :: 0 <= i < j < |s| ==> s[i] != s[j]) && forall v :: v in nodes <==> v in s
    ensures |nodes| == |s|
  {
    if s == [] {
      assert forall v :: v !in nodes;
      assert nodes == {};
    } else {
      var n := |s| - 1;
      assert s == s[..n] + [s[n]];
      SetOf(s[..n], nodes - {s[n]});
    }
  }

  lemma {:induction false} DeadCount(g: Graph, s: seq<int>, nodes: set<int>)
    requires (forall i, j :: 0 <= i < j < |s| ==> s[i] != s[j]) && forall v :: v in nodes <==> v in s
    ensures UnsupportedIn(g, s) == |DeadActions(g, nodes)|
  {
    if s == [] {
      assert DeadActions(g, nodes) == {};
    } else {
      var n, u := |s| - 1, s[|s| - 1];
      assert s == s[..n] + [u];
      DeadCount(g, s[..n], nodes - {u});
      DeadHere(g, u, 4);
      var here := set a | 0 <= a < 4 && Step(g, u, a) < 0 :: (u, a);
      assert DeadActions(g, nodes) == DeadActions(g, nodes - {u}) + here;
    }
  }

  lemma {:induction false} DeadHere(g: Graph, u: int, k: nat)
    requires k <= 4
    ensures Unsupported(g, u, k) == |set a | 0 <= a < k && Step(g, u, a) < 0 :: (u, a)|
  {
    var dead := set a | 0 <= a < k && Step(g, u, a) < 0 :: (u, a);
    if k == 0 {
      assert dead == {};
    } else {
      DeadHere(g, u, k - 1);
      var before := set a | 0 <= a < k - 1 && Step(g, u, a) < 0 :: (u, a);
      assert dead == before + if Step(g, u, k - 1) < 0 then {(u, k - 1)} else {};
    }
  }

  predicate Leads(g: Graph, u: int, a: int, v: int) { 0 <= u < |g| && 0 <= a <= 3 && 0 <= v < |g| && g[u][a] == v }

  /** The nodes that the actions lead through. */
  predicate Through(g: Graph, u: int, v: int, actions: seq<int>, nodes: seq<int>) {
    |nodes| == |actions| + 1 && nodes[0] == u && nodes[|actions|] == v &&
    forall i :: 0 <= i < |actions| ==> Leads(g, nodes[i], actions[i], nodes[i + 1])
  }

  /** A walk is a path through the graph whose actions are 0 to 3 and whose nodes exist. */
  lemma {:induction false} WalkIsPath(g: Graph, u: int, v: int, actions: seq<int>)
    requires 0 <= v
    ensures Walk(g, u, actions) == v <==> exists nodes :: Through(g, u, v, actions, nodes)
    decreases |actions|
  {
    if actions == [] {
      if u == v { assert Through(g, u, v, actions, [u]); }
    } else {
      var k := |actions| - 1;
      var w := Walk(g, u, actions[..k]);
      if Walk(g, u, actions) == v {
        WalkIsPath(g, u, w, actions[..k]);
        var nodes :| Through(g, u, w, actions[..k], nodes);
        LongerPath(g, u, v, actions, nodes);
      }
      if nodes :| Through(g, u, v, actions, nodes) {
        ShorterPath(g, u, v, actions, nodes);
        WalkIsPath(g, u, nodes[k], actions[..k]);
      }
    }
  }

  lemma LongerPath(g: Graph, u: int, v: int, actions: seq<int>, nodes: seq<int>)
    requires actions != [] && |nodes| == |actions| && nodes[|nodes| - 1] == Walk(g, u, actions[..|actions| - 1])
    requires Through(g, u, nodes[|nodes| - 1], actions[..|actions| - 1], nodes) && Walk(g, u, actions) == v >= 0
    ensures Through(g, u, v, actions, nodes + [v])
  {
    var more, k := nodes + [v], |actions| - 1;
    forall i | 0 <= i < |actions| ensures Leads(g, more[i], actions[i], more[i + 1]) {
      if i < k { assert Leads(g, nodes[i], actions[..k][i], nodes[i + 1]); }
    }
  }

  lemma ShorterPath(g: Graph, u: int, v: int, actions: seq<int>, nodes: seq<int>)
    requires actions != [] && Through(g, u, v, actions, nodes)
    ensures var k := |actions| - 1;
            Through(g, u, nodes[k], actions[..k], nodes[..k + 1]) && Leads(g, nodes[k], actions[k], v)
  {
    var k := |actions| - 1;
    assert Leads(g, nodes[k], actions[k], nodes[k + 1]);
    forall i | 0 <= i < k ensures Leads(g, nodes[..k + 1][i], actions[..k][i], nodes[..k + 1][i + 1]) {
      assert Leads(g, nodes[i], actions[i], nodes[i + 1]);
    }
  }

  lemma ExpandedGrows(before: seq<int>, after: seq<int>, h: nat)
    requires before <= after && h < |before|
    ensures after[..h + 1] == before[..h] + [before[h]]
  {
  }

  /** What the search knows when it stops: at the goal, or with nothing left to expand. */
  lemma SearchOutcome(g: Graph, start: int, goal: int, queue: seq<int>, seen: seq<bool>, parent: seq<int>,
                      action: seq<int>, level: seq<int>, h: nat)
    requires State(g, start, queue, seen, parent, action, level, h, 0)
    requires 0 <= goal < |g| && goal !in queue[..h]
    requires h == |queue| || queue[h] == goal
    ensures 0 <= level[goal] <==> h < |queue|
    ensures 0 <= level[goal] ==> Shortest(g, start, goal, PathTo(g, start, level, parent, action, goal))
    ensures Reachable(g, start, goal) <==> 0 <= level[goal]
    ensures ReachableWithin(g, start, goal, PLAN_LIMIT) <==> 0 <= level[goal] <= PLAN_LIMIT
    ensures h == |queue| ==> (NoDeadEnds(g, start) <==> UnsupportedIn(g, queue) == 0)
  {
    if 0 <= level[goal] {
      var i :| 0 <= i < |queue| && queue[i] == goal;
      assert forall k :: 0 <= k < h ==> queue[k] in queue[..h];
    }
    forall actions | Walk(g, start, actions) == goal ensures 0 <= level[goal] <= |actions| {
      WalkCovered(g, start, queue, level, h, actions);
    }
    if h == |queue| { SearchExhausted(g, start, queue, seen, parent, action, level, h); }
  }

  lemma SearchExhausted(g: Graph, start: int, queue: seq<int>, seen: seq<bool>, parent: seq<int>,
                        action: seq<int>, level: seq<int>, h: nat)
    requires State(g, start, queue, seen, parent, action, level, h, 0) && h == |queue|
    ensures forall v :: 0 <= v < |g| ==> (Reachable(g, start, v) <==> v in queue)
    ensures NoDeadEnds(g, start) <==> UnsupportedIn(g, queue) == 0
  {
    forall v | 0 <= v < |g| ensures Reachable(g, start, v) <==> v in queue {
      if Reachable(g, start, v) {
        var actions :| Walk(g, start, actions) == v;
        WalkCovered(g, start, queue, level, h, actions);
      }
      if v in queue {
        assert Walk(g, start, PathTo(g, start, level, parent, action, v)) == v;
      }
    }
    NoneUnsupported(g, queue);
    if NoDeadEnds(g, start) {
      forall u | u in queue ensures AllSupported(g, u) {}
    }
  }

  lemma {:induction false} NoneUnsupported(g: Graph, nodes: seq<int>)
    ensures UnsupportedIn(g, nodes) == 0 <==> forall u :: u in nodes ==> AllSupported(g, u)
  {
    if nodes != [] {
      var rest, u := nodes[..|nodes| - 1], nodes[|nodes| - 1];
      NoneUnsupported(g, rest);
      UnsupportedCount(g, u, ACTIONS);
      assert AllSupported(g, u) <==> Unsupported(g, u, ACTIONS) == 0;
      assert nodes == rest + [u] && u in nodes;
      forall x | x in rest ensures x in nodes {}
      forall x | x in nodes ensures x in rest || x == u {}
    }
  }

  lemma {:induction false} UnsupportedCount(g: Graph, u: int, a: nat)
    requires a <= ACTIONS
    ensures Unsupported(g, u, a) == 0 <==> forall b :: 0 <= b < a ==> Step(g, u, b) >= 0
  {
    if a > 0 { UnsupportedCount(g, u, a - 1); }
  }

  /** How many of the first `a` actions have no edge at `u`. */
  function Unsupported(g: Graph, u: int, a: nat): nat
    requires a <= ACTIONS
  {
    if a == 0 then 0 else Unsupported(g, u, a - 1) + if Step(g, u, a - 1) < 0 then 1 else 0
  }

  function UnsupportedIn(g: Graph, nodes: seq<int>): nat {
    if nodes == [] then 0
    else UnsupportedIn(g, nodes[..|nodes| - 1]) + Unsupported(g, nodes[|nodes| - 1], ACTIONS)
  }

  predicate AllSupported(g: Graph, u: int) { forall a :: 0 <= a < ACTIONS ==> Step(g, u, a) >= 0 }

  /** Every node reachable from `start` supports every action. */
  ghost predicate NoDeadEnds(g: Graph, start: int) {
    forall v :: 0 <= v < |g| && Reachable(g, start, v) ==> AllSupported(g, v)
  }
}
