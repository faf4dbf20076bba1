/** The world's own shortest paths, and what the planning evaluation may conclude from them. */
module PlannerOracle {
  import opened Ravel
  import opened Planner
  import opened Words

  /** The world's transition table: every action of every state leads to a state. */
  ghost predicate IsWorld(g: Graph) {
    |g| == STATES && forall u, a :: 0 <= u < STATES && 0 <= a < ACTIONS ==> 0 <= g[u][a] < STATES
  }

  ghost predicate Distances(distance: seq<int>, level: seq<int>) {
    |distance| == |level| && forall v :: 0 <= v < |level| && 0 <= level[v] ==> distance[v] == level[v]
  }

  lemma DistancesGrow(distance: seq<int>, level: seq<int>, u: int, v: int)
    requires Distances(distance, level) && 0 <= u < |level| && 0 <= v < |level| && 0 <= level[u]
    ensures Distances(distance[v := distance[u] + 1], level[v := level[u] + 1])
    ensures distance[u] == level[u]
  {
  }

  /** One action of a state: an unseen successor is one step further than the state. */
  method VisitSuccessor(g: Graph, start: int, queue: seq<int>, seen: seq<bool>, distance: seq<int>,
                        ghost parent: seq<int>, ghost action: seq<int>, ghost level: seq<int>, h: nat, a: nat)
    returns (queue': seq<int>, seen': seq<bool>, distance': seq<int>,
             ghost parent': seq<int>, ghost action': seq<int>, ghost level': seq<int>)
    requires IsWorld(g) && State(g, start, queue, seen, parent, action, level, h, a) && h < |queue| && a < ACTIONS
    requires Distances(distance, level)
    ensures State(g, start, queue', seen', parent', action', level', h, a + 1)
    ensures Distances(distance', level') && queue <= queue'
  {
    queue', seen', distance', parent', action', level' := queue, seen, distance, parent, action, level;
    var current := queue[h];
    var next := g[current][a];
    if !seen[next] {
      DiscoverState(g, start, queue, seen, parent, action, level, h, a, next);
      DistancesGrow(distance, level, current, next);
      distance', level' := distance[next := distance[current] + 1], level[next := level[current] + 1];
      parent', action' := parent[next := current], action[next := a];
      queue', seen' := queue + [next], seen[next := true];
    } else {
      Skip(g, start, queue, level, h, a);
    }
  }

  method VisitSuccessors(g: Graph, start: int, queue: seq<int>, seen: seq<bool>, distance: seq<int>,
                         ghost parent: seq<int>, ghost action: seq<int>, ghost level: seq<int>, h: nat)
    returns (queue': seq<int>, seen': seq<bool>, distance': seq<int>,
             ghost parent': seq<int>, ghost action': seq<int>, ghost level': seq<int>)
    requires IsWorld(g) && State(g, start, queue, seen, parent, action, level, h, 0) && h < |queue|
    requires Distances(distance, level)
    ensures State(g, start, queue', seen', parent', action', level', h + 1, 0)
    ensures Distances(distance', level') && queue <= queue'
  {
    queue', seen', distance', parent', action', level' := queue, seen, distance, parent, action, level;
    for a := 0 to ACTIONS
      invariant State(g, start, queue', seen', parent', action', level', h, a) && Distances(distance', level')
      invariant queue <= queue'
    {
      queue', seen', distance', parent', action', level' :=
        VisitSuccessor(g, start, queue', seen', distance', parent', action', level', h, a);
    }
    NextNode(g, start, queue', level', h);
  }

  /** The length of a shortest path, or UNREACHABLE. */
  ghost predicate IsDistance(g: Graph, start: int, goal: int, optimal: int) {
    (optimal == UNREACHABLE <==> !Reachable(g, start, goal)) &&
    (optimal != UNREACHABLE ==>
      0 <= optimal < STATES && exists actions :: Shortest(g, start, goal, actions) && |actions| == optimal)
  }

  /** The exact distance, or UNREACHABLE. */
  method OptimalWorldPath(g: Graph, start: int, goal: int) returns (optimal: int)
    requires IsWorld(g) && 0 <= start < STATES && 0 <= goal < STATES
    ensures IsDistance(g, start, goal, optimal)
  {
    var queue, distance, seen := [start], seq(STATES, _ => 0), seq(STATES, v => v == start);
    ghost var level := seq(STATES, v => if v == start then 0 else -1);
    ghost var parent, action := level, level;
    var head := 0;
    while head < |queue|
      invariant 0 <= head <= |queue| <= STATES
      invariant State(g, start, queue, seen, parent, action, level, head, 0) && Distances(distance, level)
      invariant goal !in queue[..head]
      decreases STATES - head
    {
      var current := queue[head];
      if current == goal {
        SearchOutcome(g, start, goal, queue, seen, parent, action, level, head);
        LevelBelowIndex(g, start, queue, level, head, parent, action, head);
        return distance[current];
      }
      ghost var before := queue;
      queue, seen, distance, parent, action, level :=
        VisitSuccessors(g, start, queue, seen, distance, parent, action, level, head);
      QueueFits(g, start, queue, level, head + 1);
      ExpandedGrows(before, queue, head);
      head := head + 1;
    }
    SearchOutcome(g, start, goal, queue, seen, parent, action, level, head);
    return UNREACHABLE;
  }

  // ----- evaluation -------------------------------------------------------------------------------------------

  /** A start and a goal in the world, and the experts their observations are routed to. */
  datatype Case = Case(startState: int, goalState: int, startExpert: int, goalExpert: int)

  /** How a case went; `landed` is where the plan ends in the world, `same` whether it looks like the goal. */
  datatype CaseResult = CaseResult(found: bool, used: nat, expansions: nat, unknown: nat, optimal: int, landed: int,
                                   exact: bool, expertGoal: bool, same: bool)

  predicate CaseValid(c: Case) {
    0 <= c.startState < STATES && 0 <= c.goalState < STATES && 0 <= c.startExpert && 0 <= c.goalExpert
  }

  /** What a successful case is mixed into the checksum with: each field is shifted to its own bits. */
  function CaseMark(c: Case, r: CaseResult, i: nat): nat
    requires CaseValid(c) && 0 <= r.landed
  {
    var states := Xor(Xor(c.startState * 0x100_0000_0000_0000, c.goalState * 0x1_0000_0000_0000),
                      r.landed * 0x100_0000_0000);
    Xor(Xor(Xor(Xor(states, c.startExpert * 0x100_0000), c.goalExpert * 0x100), r.used), i)
  }

  /** A number above the low `k` bits and a number within them do not meet. */
  lemma Apart(h: nat, k: nat, low: nat)
    requires low < Pow2(k)
    ensures Xor(h * Pow2(k), low) == h * Pow2(k) + low
  {
    ShlTimes(h, k);
    XorHigh(h, 0, low, k);
    assert Xor(0, low) == low;
  }

  lemma {:induction false} ShlTimes(h: nat, k: nat)
    ensures Shl(h, k) == h * Pow2(k)
  {
    if k > 0 { ShlTimes(h, k - 1); }
  }

  lemma Powers()
    ensures Pow2(8) == 0x100 && Pow2(24) == 0x100_0000 && Pow2(40) == 0x100_0000_0000
    ensures Pow2(48) == 0x1_0000_0000_0000 && Pow2(56) == 0x100_0000_0000_0000
  {
    EightBits(0);
    PowSum(8, 8);
    PowSum(8, 16);
    PowSum(16, 24);
    PowSum(24, 24);
    PowSum(8, 48);
  }

  /** The fields of the mark lie in bytes of their own; the last holds the plan's length and the case's number. */
  lemma MarkIsSum(c: Case, r: CaseResult, i: nat)
    requires CaseValid(c) && 0 <= r.landed < 256 && c.startExpert < 65536 && c.goalExpert < 65536
    requires r.used < 256 && i < 256
    ensures CaseMark(c, r, i) ==
            c.startState * 72057594037927936 + c.goalState * 281474976710656 + r.landed * 1099511627776 +
            c.startExpert * 16777216 + c.goalExpert * 256 + Xor(r.used, i)
  {
    hide Xor, Pow2;
    Powers();
    Apart(c.startState, 56, c.goalState * 0x1_0000_0000_0000);
    var states := c.startState * 256 + c.goalState;
    Apart(states, 48, r.landed * 0x100_0000_0000);
    var landed := states * 256 + r.landed;
    Apart(landed, 40, c.startExpert * 0x100_0000);
    var from := landed * 65536 + c.startExpert;
    Apart(from, 24, c.goalExpert * 0x100);
    var to := from * 65536 + c.goalExpert;
    Apart(to, 8, r.used);
    LowByteOnly(to, r.used, i);
  }

  lemma LowByteOnly(h: nat, low: nat, b: nat)
    requires low < 256 && b < 256
    ensures Xor(h * 256 + low, b) == h * 256 + Xor(low, b)
  {
    EightBits(h);
    XorHigh(h, low, b, 8);
  }

  /** The checksum over the first cases. */
  function Checksum(cases: seq<Case>, rs: seq<CaseResult>, mix: nat -> nat): nat
    requires |rs| <= |cases| && forall i :: 0 <= i < |rs| ==> CaseValid(cases[i]) && 0 <= rs[i].landed
  {
    if rs == [] then 0
    else
      var i := |rs| - 1;
      var sum := Checksum(cases, rs[..i], mix);
      if rs[i].found then Xor(sum, mix(CaseMark(cases[i], rs[i], i))) else sum
  }

  /** What a result says about plans and paths. */
  ghost predicate CaseOk(experts: Graph, world: Graph, c: Case, r: CaseResult) {
    (r.found <==> Known(experts, c) && ReachableWithin(experts, c.startExpert, c.goalExpert, 32)) &&
    (r.found ==> exists actions :: Executes(experts, world, c, r, actions)) &&
    IsDistance(world, c.startState, c.goalState, r.optimal) && 0 <= r.landed &&
    (r.exact <==> r.found && r.landed == c.goalState) &&
    (if Known(experts, c) then
       var visited := Visited(experts, c.startExpert, c.goalExpert);
       r.expansions == |visited| && r.unknown == |DeadActions(experts, visited - {c.goalExpert})|
     else r.expansions == 0 && r.unknown == 0) &&
    (Known(experts, c) && !Reachable(experts, c.startExpert, c.goalExpert) ==>
      (r.unknown == 0 <==> NoDeadEnds(experts, c.startExpert)))
  }

  predicate Known(experts: Graph, c: Case) { c.startExpert < |experts| && c.goalExpert < |experts| }

  /** The plan is the first action sequence to the goal expert, and this is where it leads in the world. */
  ghost predicate Executes(experts: Graph, world: Graph, c: Case, r: CaseResult, actions: seq<int>) {
    IsPlan(experts, c.startExpert, c.goalExpert, actions) && |actions| == r.used <= 32 &&
    r.landed == Walk(world, c.startState, actions)
  }

  predicate NeverShorter(r: CaseResult) {
    r.exact ==> r.found && r.optimal != UNREACHABLE && r.used >= r.optimal >= 0
  }

  /**
   * A plan that lands on the goal state is never shorter than the oracle's answer, so the guard on
   * the regret (`optimal` known and `used >= optimal`) never drops such a case.
   */
  lemma ExactNeverShorter(experts: Graph, world: Graph, c: Case, r: CaseResult)
    requires CaseOk(experts, world, c, r) && r.exact
    ensures NeverShorter(r)
  {
    var actions :| Executes(experts, world, c, r, actions);
    assert Reachable(world, c.startState, c.goalState);
    var best :| Shortest(world, c.startState, c.goalState, best) && |best| == r.optimal;
  }

  /** Replays a plan in the world. */
  method Replay(world: Graph, start: int, actions: seq<int>) returns (current: int)
    requires IsWorld(world) && 0 <= start < STATES && forall i :: 0 <= i < |actions| ==> 0 <= actions[i] < ACTIONS
    ensures 0 <= current < STATES && current == Walk(world, start, actions)
  {
    current := start;
    for step := 0 to |actions|
      invariant 0 <= current < STATES && current == Walk(world, start, actions[..step])
    {
      assert actions[..step + 1][..step] == actions[..step];
      current := world[current][actions[step]];
    }
    assert actions[..|actions|] == actions;
  }

  /** Plans on the expert graph and replays the plan in the world. */
  method PlanCase(experts: Graph, world: Graph, c: Case, expertAt: int -> int, alike: (int, int) -> bool)
    returns (r: CaseResult)
    requires IsWorld(world) && |experts| <= MAXE && CaseValid(c)
    ensures CaseOk(experts, world, c, r) && NeverShorter(r)
    ensures r.found ==> (r.expertGoal <==> expertAt(r.landed) == c.goalExpert) &&
                        (r.same <==> alike(r.landed, c.goalState))
  {
    var optimal := OptimalWorldPath(world, c.startState, c.goalState);
    var ok, actions, used, expansions, unknown := PlanActions(experts, c.startExpert, c.goalExpert, 0, 0);
    if !ok { return CaseResult(false, 0, expansions, unknown, optimal, c.startState, false, false, false); }
    var current := Replay(world, c.startState, actions);
    r := CaseResult(true, used, expansions, unknown, optimal, current, current == c.goalState,
                    expertAt(current) == c.goalExpert, alike(current, c.goalState));
    assert Executes(experts, world, c, r, actions);
    assert CaseOk(experts, world, c, r);
    if r.exact { ExactNeverShorter(experts, world, c, r); }
  }

  /** The counters of an evaluation. */
  datatype PlanMetric = PlanMetric(cases: nat, optimalLength: int, pathFound: nat, executedLength: nat, exact: nat,
                                   regret: nat, expertTargets: nat, beliefTargets: nat, aliasing: nat,
                                   modelFailures: nat, noSupported: nat, disconnected: nat, expansions: nat,
                                   checksum: nat)

  datatype Kind = Found | Exact | ExpertGoal | Belief | Aliased | ModelFailure | NoSupport | Disconnected

  predicate Is(r: CaseResult, kind: Kind) {
    match kind
    case Found => r.found
    case Exact => r.found && r.exact
    case ExpertGoal => r.found && r.expertGoal
    case Belief => r.found && (r.exact || r.same || r.expertGoal)
    case Aliased => r.found && !r.exact && r.expertGoal
    case ModelFailure => r.found && !r.exact && !r.expertGoal
    case NoSupport => !r.found && r.unknown != 0
    case Disconnected => !r.found && r.unknown == 0
  }

  function Number(rs: seq<CaseResult>, kind: Kind): nat {
    if rs == [] then 0 else Number(rs[..|rs| - 1], kind) + if Is(rs[|rs| - 1], kind) then 1 else 0
  }

  function Executed(rs: seq<CaseResult>): nat {
    if rs == [] then 0 else Executed(rs[..|rs| - 1]) + if rs[|rs| - 1].found then rs[|rs| - 1].used else 0
  }

  function Expanded(rs: seq<CaseResult>): nat {
    if rs == [] then 0 else Expanded(rs[..|rs| - 1]) + rs[|rs| - 1].expansions
  }

  function Optima(rs: seq<CaseResult>): int {
    if rs == [] then 0
    else
      var r := rs[|rs| - 1];
      Optima(rs[..|rs| - 1]) + if r.optimal != UNREACHABLE then r.optimal else 0
  }

  /** How much longer the exact plans are than shortest paths. */
  function Detours(rs: seq<CaseResult>): int {
    if rs == [] then 0
    else
      var r := rs[|rs| - 1];
      Detours(rs[..|rs| - 1]) + if Is(r, Exact) then r.used - r.optimal else 0
  }

  ghost predicate Counted(m: PlanMetric, rs: seq<CaseResult>) {
    m.cases == |rs| && m.optimalLength == Optima(rs) &&
    m.pathFound == Number(rs, Found) && m.executedLength == Executed(rs) &&
    m.exact == Number(rs, Exact) && m.regret == Detours(rs) && m.expertTargets == Number(rs, ExpertGoal) &&
    m.beliefTargets == Number(rs, Belief) && m.aliasing == Number(rs, Aliased) &&
    m.modelFailures == Number(rs, ModelFailure) && m.noSupported == Number(rs, NoSupport) &&
    m.disconnected == Number(rs, Disconnected) && m.expansions == Expanded(rs)
  }

  /** Charges one case to the counters, as the program does. */
  method Charge(m: PlanMetric, r: CaseResult, ghost rs: seq<CaseResult>) returns (m': PlanMetric)
    requires Counted(m, rs) && NeverShorter(r)
    ensures Counted(m', rs + [r]) && m'.checksum == m.checksum
  {
    assert (rs + [r])[..|rs|] == rs;
    m' := m.(cases := m.cases + 1, expansions := m.expansions + r.expansions);
    if r.optimal != UNREACHABLE { m' := m'.(optimalLength := m.optimalLength + r.optimal); }
    if !r.found {
      m' := if r.unknown != 0 then m'.(noSupported := m.noSupported + 1) else m'.(disconnected := m.disconnected + 1);
      return;
    }
    m' := m'.(pathFound := m.pathFound + 1, executedLength := m.executedLength + r.used);
    if r.exact {
      m' := m'.(exact := m.exact + 1);
      if r.optimal != UNREACHABLE && r.used >= r.optimal { m' := m'.(regret := m.regret + (r.used - r.optimal)); }
    }
    if r.expertGoal { m' := m'.(expertTargets := m.expertTargets + 1); }
    if r.exact || r.same || r.expertGoal { m' := m'.(beliefTargets := m.beliefTargets + 1); }
    if !r.exact && r.expertGoal { m' := m'.(aliasing := m.aliasing + 1); }
    if !r.exact && !r.expertGoal { m' := m'.(modelFailures := m.modelFailures + 1); }
  }

  ghost predicate Summed(m: PlanMetric, cases: seq<Case>, rs: seq<CaseResult>, mix: nat -> nat) {
    |rs| <= |cases| && (forall i :: 0 <= i < |rs| ==> CaseValid(cases[i]) && 0 <= rs[i].landed) &&
    m.checksum == Checksum(cases, rs, mix)
  }

  /** Mixes one case into the checksum. */
  method Mix(m: PlanMetric, c: Case, r: CaseResult, i: nat, mix: nat -> nat, ghost cases: seq<Case>,
             ghost rs: seq<CaseResult>)
    returns (m': PlanMetric)
    requires i == |rs| < |cases| && c == cases[i] && CaseValid(c) && 0 <= r.landed && Summed(m, cases, rs, mix)
    ensures Summed(m', cases, rs + [r], mix) && m' == m.(checksum := m'.checksum)
  {
    assert (rs + [r])[..i] == rs;
    m' := m;
    if r.found { m' := m.(checksum := Xor(m.checksum, mix(CaseMark(c, r, i)))); }
  }

  ghost predicate CasesOk(experts: Graph, world: Graph, cases: seq<Case>, rs: seq<CaseResult>)
    requires |rs| <= |cases|
  {
    forall i :: 0 <= i < |rs| ==> CaseOk(experts, world, cases[i], rs[i])
  }

  lemma OneMoreCase(experts: Graph, world: Graph, cases: seq<Case>, rs: seq<CaseResult>, r: CaseResult)
    requires |rs| < |cases| && CasesOk(experts, world, cases, rs) && CaseOk(experts, world, cases[|rs|], r)
    ensures CasesOk(experts, world, cases, rs + [r])
  {
  }

  /** The whole evaluation; `expertAt` routes the noisy observation of a state in a case. */
  method EvaluatePlanning(experts: Graph, world: Graph, cases: seq<Case>, expertAt: (nat, int) -> int,
                          alike: (int, int) -> bool, mix: nat -> nat)
    returns (m: PlanMetric, rs: seq<CaseResult>)
    requires IsWorld(world) && |experts| <= MAXE && forall i :: 0 <= i < |cases| ==> CaseValid(cases[i])
    ensures |rs| == |cases| && CasesOk(experts, world, cases, rs) && Counted(m, rs) && Summed(m, cases, rs, mix)
  {
    m, rs := PlanMetric(0, 0, 0, 0, 0, 0, 0, 0, 0, 0, 0, 0, 0, 0), [];
    for i := 0 to |cases|
      invariant |rs| == i && CasesOk(experts, world, cases, rs) && Counted(m, rs)
      invariant Summed(m, cases, rs, mix)
    {
      var r := PlanCase(experts, world, cases[i], state => expertAt(i, state), alike);
      m := Mix(m, cases[i], r, i, mix, cases, rs);
      m := Charge(m, r, rs);
      OneMoreCase(experts, world, cases, rs, r);
      rs := rs + [r];
    }
  }

  /** Every case is counted in exactly one way, and so is every plan that was found. */
  lemma {:induction false} CountsAddUp(rs: seq<CaseResult>)
    ensures |rs| == Number(rs, Found) + Number(rs, NoSupport) + Number(rs, Disconnected)
    ensures Number(rs, Found) == Number(rs, Exact) + Number(rs, Aliased) + Number(rs, ModelFailure)
    ensures Number(rs, Exact) <= Number(rs, Belief) <= Number(rs, Found)
    ensures Number(rs, Exact) + Number(rs, Aliased) <= Number(rs, Belief)
  {
    if rs != [] { CountsAddUp(rs[..|rs| - 1]); }
  }
}
