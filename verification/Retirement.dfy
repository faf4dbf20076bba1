/**
 * Retirement of adaptation experts in RAVEL: deleting a node of the transition tables, when that is
 * allowed, and the loop that retires the weakest ones while the objective holds up.
 */
module Retirement {
  import opened Ravel
  import opened Words
  import opened CheckpointFormat
  import opened Router

  const MAX_ADAPT_RETIREMENTS := 4
  const OBJECTIVE_MIN_Q20 := 105

  predicate AllShaped(es: seq<Expert>) { |es| <= MAXE && forall j :: 0 <= j < |es| ==> ExpertShaped(es[j]) }

  // ----- deleting an expert ---------------------------------------------------------------------------------

  function Renamed(l: Link, victim: U16, last: U16): Link {
    if l.target == victim then Link(INVALID, 0)
    else if victim != last && l.target == last then l.(target := victim)
    else l
  }

  function Relinked(e: Expert, victim: U16, last: U16): (r: Expert)
    ensures |r.transitions| == |e.transitions|
  {
    e.(transitions := seq(|e.transitions|, i requires 0 <= i < |e.transitions| =>
                            Renamed(e.transitions[i], victim, last)))
  }

  /** The expert that ends up at index `j`. */
  function Origin(j: nat, victim: U16, last: U16): nat { if j == victim then last else j }

  /** The last expert takes the place of the victim, and the transitions are renamed. */
  function Removed(es: seq<Expert>, victim: U16): (r: seq<Expert>)
    requires victim < |es| <= MAXE
    ensures |r| == |es| - 1
  {
    var last: U16 := |es| - 1;
    seq(last, j requires 0 <= j < last => Relinked(es[Origin(j, victim, last)], victim, last))
  }

  /**
   * A faithful deletion: every remaining transition still names the same expert with the same
   * support, or is cleared if it named the victim.
   */
  lemma RemovalFaithful(es: seq<Expert>, victim: U16, j: nat, i: nat)
    requires AllShaped(es) && victim < |es| && j < |es| - 1 && i < 8
    ensures var last := |es| - 1;
            var before, after := es[Origin(j, victim, last)].transitions[i], Removed(es, victim)[j].transitions[i];
            (before.target == victim ==> after == Link(INVALID, 0)) &&
            (before.target != victim && before.target < |es| ==>
              after.target < last && Origin(after.target, victim, last) == before.target &&
              after.support == before.support) &&
            (before.target >= |es| ==> after == before)
  {
  }

  lemma RemovalKeepsShape(es: seq<Expert>, victim: U16)
    requires AllShaped(es) && victim < |es|
    ensures AllShaped(Removed(es, victim))
  {
  }

  predicate LinksInRange(es: seq<Expert>) {
    forall j :: 0 <= j < |es| ==> RowInRange(es[j], |es|)
  }

  predicate RowInRange(e: Expert, n: nat) {
    forall i :: 0 <= i < |e.transitions| ==> TransitionOk(e.transitions[i], n)
  }

  lemma RemovalKeepsLinks(es: seq<Expert>, victim: U16)
    requires AllShaped(es) && victim < |es| && LinksInRange(es)
    ensures LinksInRange(Removed(es, victim))
  {
    var last: U16 := |es| - 1;
    var r := Removed(es, victim);
    forall j | 0 <= j < last ensures RowInRange(r[j], last) {
      var e := es[Origin(j, victim, last)];
      assert RowInRange(e, |es|);
      forall i | 0 <= i < 8 ensures TransitionOk(r[j].transitions[i], last) {
        assert TransitionOk(e.transitions[i], |es|);
        assert r[j].transitions[i] == Renamed(e.transitions[i], victim, last);
      }
    }
  }

  /** An expert apart from its transitions. */
  function Ident(e: Expert): Expert { e.(transitions := []) }

  function Idents(es: seq<Expert>): (r: seq<Expert>)
    ensures |r| == |es|
  {
    seq(|es|, j requires 0 <= j < |es| => Ident(es[j]))
  }

  /** Nothing but the victim is lost, and nothing else than transitions changes. */
  lemma RemovalConserves(es: seq<Expert>, victim: U16)
    requires victim < |es| <= MAXE
    ensures multiset(Idents(Removed(es, victim))) + multiset{Ident(es[victim])} == multiset(Idents(es))
  {
    var last: U16 := |es| - 1;
    var ids, r := Idents(es), Idents(Removed(es, victim));
    forall j | 0 <= j < last ensures r[j] == ids[Origin(j, victim, last)] {}
    MovedLast(ids, victim, r);
  }

  lemma MovedLast<T>(s: seq<T>, v: nat, r: seq<T>)
    requires v < |s| && |r| == |s| - 1
    requires forall j :: 0 <= j < |r| ==> r[j] == s[if j == v then |s| - 1 else j]
    ensures multiset(r) + multiset{s[v]} == multiset(s)
  {
    var k := |s| - 1;
    assert s == s[..k] + [s[k]];
    if v < k {
      assert r == s[..k][v := s[k]];
      Replaced(s[..k], v, s[k]);
      forall x: T ensures (multiset(r) + multiset{s[v]})[x] == multiset(s)[x] {
        assert (multiset(r) + multiset{s[v]})[x] == (multiset(s[..k]) + multiset{s[k]})[x];
      }
    } else {
      assert r == s[..k];
    }
  }

  lemma Replaced<T>(s: seq<T>, v: nat, x: T)
    requires v < |s|
    ensures multiset(s[v := x]) + multiset{s[v]} == multiset(s) + multiset{x}
  {
    var a, b := s[..v], s[v + 1..];
    assert s == a + [s[v]] + b && s[v := x] == a + [x] + b;
  }

  // ----- when it is allowed -----------------------------------------------------------------------------------

  predicate ProvidesLabel(e: Expert, y: nat)
    requires ExpertShaped(e) && y < CLASSES
  {
    e.labels[y] != 0
  }

  predicate ProvidesAction(e: Expert, a: nat)
    requires ExpertShaped(e) && a < ACTIONS
  {
    e.actionCount[a] >= 2
  }

  predicate LabelElsewhere(es: seq<Expert>, victim: nat, y: nat)
    requires AllShaped(es) && y < CLASSES
  {
    exists j :: 0 <= j < |es| && j != victim && ProvidesLabel(es[j], y)
  }

  predicate ActionElsewhere(es: seq<Expert>, victim: nat, a: nat)
    requires AllShaped(es) && a < ACTIONS
  {
    exists j :: 0 <= j < |es| && j != victim && ProvidesAction(es[j], a)
  }

  predicate LeadsTo(row: seq<Link>, victim: nat) {
    exists i :: 0 <= i < |row| && row[i].target == victim && row[i].support >= 2
  }

  /** An adaptation expert that is the only provider of nothing and the end of no supported edge. */
  predicate Safe(es: seq<Expert>, graph: seq<seq<Link>>, victim: nat)
    requires AllShaped(es) && |graph| == MAXE
  {
    victim < |es| && es[victim].lifecycle == 1 && es[victim].anchored == 0 &&
    (forall y :: 0 <= y < CLASSES && es[victim].labels[y] != 0 ==> LabelElsewhere(es, victim, y)) &&
    (forall a :: 0 <= a < ACTIONS && es[victim].actionCount[a] != 0 ==> ActionElsewhere(es, victim, a)) &&
    (forall j :: 0 <= j < |es| ==> !LeadsTo(graph[j], victim))
  }

  method LabelsSafe(es: seq<Expert>, victim: nat) returns (safe: bool)
    requires AllShaped(es) && victim < |es|
    ensures safe <==>
            forall y :: 0 <= y < CLASSES && es[victim].labels[y] != 0 ==> LabelElsewhere(es, victim, y)
  {
    for y := 0 to CLASSES
      invariant forall x :: 0 <= x < y && es[victim].labels[x] != 0 ==> LabelElsewhere(es, victim, x)
    {
      if es[victim].labels[y] != 0 {
        var providers := 0;
        for j := 0 to |es|
          invariant providers > 0 ==> LabelElsewhere(es, victim, y)
          invariant providers == 0 ==> forall i :: 0 <= i < j && i != victim ==> !ProvidesLabel(es[i], y)
        {
          if j != victim && es[j].labels[y] != 0 {
            assert ProvidesLabel(es[j], y);
            providers := providers + 1;
          }
        }
        if providers == 0 { return false; }
      }
    }
    safe := true;
  }

  method ActionsSafe(es: seq<Expert>, victim: nat) returns (safe: bool)
    requires AllShaped(es) && victim < |es|
    ensures safe <==>
            forall a :: 0 <= a < ACTIONS && es[victim].actionCount[a] != 0 ==> ActionElsewhere(es, victim, a)
  {
    for action := 0 to ACTIONS
      invariant forall a :: 0 <= a < action && es[victim].actionCount[a] != 0 ==> ActionElsewhere(es, victim, a)
    {
      if es[victim].actionCount[action] != 0 {
        var providers := 0;
        for j := 0 to |es|
          invariant providers > 0 ==> ActionElsewhere(es, victim, action)
          invariant providers == 0 ==> forall i :: 0 <= i < j && i != victim ==> !ProvidesAction(es[i], action)
        {
          if j != victim && es[j].actionCount[action] >= SUPPORT_MIN {
            assert ProvidesAction(es[j], action);
            providers := providers + 1;
          }
        }
        if providers == 0 { return false; }
      }
    }
    safe := true;
  }

  method RetirementSafe(es: seq<Expert>, graph: seq<seq<Link>>, victim: nat) returns (safe: bool)
    requires AllShaped(es) && |graph| == MAXE
    ensures safe <==> Safe(es, graph, victim)
  {
    if victim >= |es| || es[victim].lifecycle != 1 || es[victim].anchored != 0 { return false; }
    var labels := LabelsSafe(es, victim);
    if !labels { return false; }
    var actions := ActionsSafe(es, victim);
    if !actions { return false; }
    for j := 0 to |es|
      invariant forall i :: 0 <= i < j ==> !LeadsTo(graph[i], victim)
    {
      for k := 0 to |graph[j]|
        invariant forall i :: 0 <= i < k ==>
                    !(graph[j][i].target == victim && graph[j][i].support >= 2)
      {
        if graph[j][k].target == victim && graph[j][k].support >= SUPPORT_MIN {
          assert LeadsTo(graph[j], victim);
          return false;
        }
      }
    }
    safe := true;
  }

  // ----- coverage -----------------------------------------------------------------------------------------------

  predicate LabelCovered(es: seq<Expert>, y: nat)
    requires AllShaped(es) && y < CLASSES
  {
    exists j :: 0 <= j < |es| && ProvidesLabel(es[j], y)
  }

  predicate ActionCovered(es: seq<Expert>, a: nat)
    requires AllShaped(es) && a < ACTIONS
  {
    exists j :: 0 <= j < |es| && ProvidesAction(es[j], a)
  }

  /** No label and no action loses its last provider. */
  ghost predicate KeepsCoverage(es: seq<Expert>, out: seq<Expert>)
    requires AllShaped(es) && AllShaped(out)
  {
    (forall y :: 0 <= y < CLASSES && LabelCovered(es, y) ==> LabelCovered(out, y)) &&
    (forall a :: 0 <= a < ACTIONS && ActionCovered(es, a) ==> ActionCovered(out, a))
  }

  lemma SafeKeepsCoverage(es: seq<Expert>, graph: seq<seq<Link>>, victim: U16)
    requires AllShaped(es) && |graph| == MAXE && Safe(es, graph, victim)
    ensures AllShaped(Removed(es, victim)) && KeepsCoverage(es, Removed(es, victim))
  {
    RemovalKeepsShape(es, victim);
    forall y | 0 <= y < CLASSES && LabelCovered(es, y) ensures LabelCovered(Removed(es, victim), y) {
      LabelStays(es, victim, y);
    }
    forall a | 0 <= a < ACTIONS && ActionCovered(es, a) ensures ActionCovered(Removed(es, victim), a) {
      ActionStays(es, victim, a);
    }
  }

  lemma LabelStays(es: seq<Expert>, victim: U16, y: nat)
    requires AllShaped(es) && victim < |es| && y < CLASSES && AllShaped(Removed(es, victim))
    requires LabelCovered(es, y) && (es[victim].labels[y] != 0 ==> LabelElsewhere(es, victim, y))
    ensures LabelCovered(Removed(es, victim), y)
  {
    var last: U16 := |es| - 1;
    var j :| 0 <= j < |es| && j != victim && ProvidesLabel(es[j], y);
    var k := if j == last then victim else j;
    assert Removed(es, victim)[k] == Relinked(es[j], victim, last);
    assert ProvidesLabel(Removed(es, victim)[k], y);
  }

  lemma ActionStays(es: seq<Expert>, victim: U16, a: nat)
    requires AllShaped(es) && victim < |es| && a < ACTIONS && AllShaped(Removed(es, victim))
    requires ActionCovered(es, a) && (es[victim].actionCount[a] != 0 ==> ActionElsewhere(es, victim, a))
    ensures ActionCovered(Removed(es, victim), a)
  {
    var last: U16 := |es| - 1;
    var j :| 0 <= j < |es| && j != victim && ProvidesAction(es[j], a);
    var k := if j == last then victim else j;
    assert Removed(es, victim)[k] == Relinked(es[j], victim, last);
    assert ProvidesAction(Removed(es, victim)[k], a);
  }

  lemma CoverageChains(a: seq<Expert>, b: seq<Expert>, c: seq<Expert>)
    requires AllShaped(a) && AllShaped(b) && AllShaped(c) && KeepsCoverage(a, b) && KeepsCoverage(b, c)
    ensures KeepsCoverage(a, c)
  {
  }

  // ----- base experts ---------------------------------------------------------------------------------------------

  /** The first `n0` experts are anchored and their transitions stay among themselves. */
  predicate BaseClosed(es: seq<Expert>, n0: nat) {
    n0 <= |es| && forall j :: 0 <= j < n0 ==> Closed(es[j], n0)
  }

  predicate Closed(e: Expert, n0: nat) {
    e.anchored != 0 && forall i :: 0 <= i < |e.transitions| ==>
      e.transitions[i].target == INVALID || e.transitions[i].target < n0
  }

  ghost predicate BaseKept(es: seq<Expert>, out: seq<Expert>) {
    forall n0: nat :: BaseClosed(es, n0) ==> n0 <= |out| && out[..n0] == es[..n0]
  }

  lemma BaseChains(a: seq<Expert>, b: seq<Expert>, c: seq<Expert>)
    requires BaseKept(a, b) && BaseKept(b, c)
    ensures BaseKept(a, c)
  {
    forall n0: nat | BaseClosed(a, n0) ensures n0 <= |c| && c[..n0] == a[..n0] {
      forall j | 0 <= j < n0 ensures b[j] == a[j] { assert b[..n0][j] == a[..n0][j]; }
      assert BaseClosed(b, n0);
    }
  }

  lemma OutsideBase(es: seq<Expert>, n0: nat, victim: nat)
    requires BaseClosed(es, n0) && victim < |es| && es[victim].anchored == 0
    ensures n0 <= victim
  {
  }

  lemma RemovalKeepsBase(es: seq<Expert>, victim: U16)
    requires AllShaped(es) && victim < |es| && es[victim].anchored == 0
    ensures BaseKept(es, Removed(es, victim))
  {
    var last: U16 := |es| - 1;
    var r := Removed(es, victim);
    forall n0: nat | BaseClosed(es, n0) ensures n0 <= |r| && r[..n0] == es[..n0] {
      OutsideBase(es, n0, victim);
      forall j | 0 <= j < n0 ensures r[j] == es[j] {
        assert Closed(es[j], n0);
        assert r[j].transitions == es[j].transitions;
      }
    }
  }

  // ----- the loop --------------------------------------------------------------------------------------------------

  predicate Retirable(e: Expert) { e.lifecycle == 1 && e.anchored == 0 }

  /** The smaller support goes first, then the larger lineage. */
  predicate Weaker(a: Expert, b: Expert) { a.count < b.count || (a.count == b.count && a.lineage > b.lineage) }

  /** The weakest of the first `n` experts that may retire, the first of equals. */
  predicate Weakest(es: seq<Expert>, n: nat, victim: nat)
    requires n <= |es|
  {
    victim < n && Retirable(es[victim]) &&
    forall j :: 0 <= j < n && j != victim && Retirable(es[j]) ==>
      if j < victim then Weaker(es[victim], es[j]) else !Weaker(es[j], es[victim])
  }

  predicate NoneRetirable(es: seq<Expert>) { forall j :: 0 <= j < |es| ==> !Retirable(es[j]) }

  method ChooseVictim(es: seq<Expert>) returns (victim: nat)
    requires |es| <= MAXE
    ensures victim == INVALID <==> NoneRetirable(es)
    ensures victim != INVALID ==> Weakest(es, |es|, victim)
  {
    victim := INVALID;
    var lowest := WORD - 1;
    for j := 0 to |es|
      invariant victim == INVALID ==> forall i :: 0 <= i < j ==> !Retirable(es[i])
      invariant victim != INVALID ==> Weakest(es, j, victim) && lowest == es[victim].count
    {
      if Retirable(es[j]) {
        var support := es[j].count;
        if victim == INVALID || support < lowest || (support == lowest && es[j].lineage > es[victim].lineage) {
          victim, lowest := j, support;
        }
      }
    }
  }

  method Relink(e: Expert, victim: U16, last: U16) returns (r: Expert)
    requires ExpertShaped(e)
    ensures r == Relinked(e, victim, last)
  {
    var links := e.transitions;
    for i := 0 to ACTIONS * TOP_K
      invariant |links| == 8
      invariant forall k :: 0 <= k < i ==> links[k] == Renamed(e.transitions[k], victim, last)
      invariant forall k :: i <= k < 8 ==> links[k] == e.transitions[k]
    {
      if links[i].target == victim {
        links := links[i := Link(INVALID, 0)];
      } else if victim != last && links[i].target == last {
        links := links[i := Link(victim, links[i].support)];
      }
    }
    r := e.(transitions := links);
    assert r.transitions == Relinked(e, victim, last).transitions;
  }

  datatype Outcome = Nobody | Refused | Left(victim: nat, lineage: U64)

  datatype Trace = Trace(retired: seq<U64>, rejected: nat)

  /** The experts and the transition graph of a model, as adaptation updates them. */
  class Topology {
    var experts: seq<Expert>
    /** Compiled before adaptation; one row for every expert there can be. */
    var graph: seq<seq<Link>>
    var epoch: U64

    ghost predicate Valid()
      reads this
    {
      AllShaped(experts) && |graph| == MAXE
    }

    constructor Copy(m: Topology)
      ensures experts == m.experts && graph == m.graph && epoch == m.epoch
    {
      experts, graph, epoch := m.experts, m.graph, m.epoch;
    }

    method RemoveExpert(victim: nat, adaptationOnly: bool) returns (ok: bool)
      requires Valid()
      modifies this`experts
      ensures ok <==> victim < |old(experts)| && (adaptationOnly ==> old(experts)[victim].lifecycle == 1)
      ensures experts == if ok then Removed(old(experts), victim) else old(experts)
    {
      if victim >= |experts| { return false; }
      if adaptationOnly && experts[victim].lifecycle != 1 { return false; }
      ghost var before := experts;
      var last: U16 := |experts| - 1;
      if victim != last { experts := experts[victim := experts[last]]; }
      experts := experts[..last];
      for expert := 0 to |experts|
        invariant |experts| == last
        invariant forall j :: 0 <= j < expert ==> experts[j] == Removed(before, victim)[j]
        invariant forall j :: expert <= j < last ==> experts[j] == before[Origin(j, victim, last)]
      {
        var e := Relink(experts[expert], victim, last);
        experts := experts[expert := e];
      }
      assert experts == Removed(before, victim);
      ok := true;
    }

    /** Tries one victim on a copy of the model; a loss of more than 105 turns it down. */
    method TryRemoval(victim: nat, objective: seq<Expert> -> nat) returns (removed: bool, after: seq<Expert>)
      requires Valid() && victim < |experts| && experts[victim].lifecycle == 1
      ensures after == Removed(experts, victim)
      ensures removed <==> objective(after) + 105 >= objective(experts)
    {
      var candidate := new Topology.Copy(this);
      var done := candidate.RemoveExpert(victim, true);
      after := candidate.experts;
      removed := objective(after) + OBJECTIVE_MIN_Q20 >= objective(experts);
    }

    /** One attempt: the weakest expert leaves if it may. */
    method RetireWeakest(objective: seq<Expert> -> nat) returns (outcome: Outcome)
      requires Valid()
      modifies this`experts
      ensures Valid()
      ensures outcome.Left? ==>
                MayRetire(old(experts), graph, outcome.victim, objective) &&
                experts == Removed(old(experts), outcome.victim) &&
                outcome.lineage == old(experts)[outcome.victim].lineage
      ensures !outcome.Left? ==> experts == old(experts) && (outcome.Nobody? <==> NoneRetirable(experts))
      ensures outcome.Refused? ==> exists v :: TurnedDown(experts, graph, v, objective)
    {
      var victim := ChooseVictim(experts);
      if victim == INVALID { return Nobody; }
      var safe := RetirementSafe(experts, graph, victim);
      if !safe {
        assert TurnedDown(experts, graph, victim, objective);
        return Refused;
      }
      var removed, after := TryRemoval(victim, objective);
      if !removed {
        assert TurnedDown(experts, graph, victim, objective);
        return Refused;
      }
      RemovalKeepsShape(experts, victim);
      outcome := Left(victim, experts[victim].lineage);
      experts := after;
    }

    /**
     * At most four experts leave, one after the other. `victims` are the indices they had when they
     * left; the loop ends early when nobody may leave or the weakest expert is turned down.
     */
    method ConsiderRetirements(objective: seq<Expert> -> nat) returns (trace: Trace, ghost victims: seq<nat>)
      requires Valid() && forall es: seq<Expert> :: objective(es) <= 1_048_576
      modifies this`experts
      ensures Valid() && |victims| <= 4
      ensures Retiring(old(experts), graph, victims, objective) && experts == After(old(experts), victims)
      ensures trace.retired == Lineages(Gone(old(experts), victims))
      ensures trace.rejected == if |victims| == 4 || NoneRetirable(experts) then 0 else 1
      ensures trace.rejected == 1 ==> exists v :: TurnedDown(experts, graph, v, objective)
    {
      trace, victims := Trace([], 0), [];
      ghost var start := experts;
      for attempt := 0 to MAX_ADAPT_RETIREMENTS
        invariant Valid() && |victims| == attempt && trace.rejected == 0
        invariant Retiring(start, graph, victims, objective) && experts == After(start, victims)
        invariant trace.retired == Lineages(Gone(start, victims))
      {
        var outcome := RetireWeakest(objective);
        if outcome.Nobody? { return; }
        if outcome.Refused? {
          trace := trace.(rejected := trace.rejected + 1);
          return;
        }
        RetireMore(start, graph, victims, outcome.victim, objective);
        trace := trace.(retired := trace.retired + [outcome.lineage]);
        victims := victims + [outcome.victim];
      }
    }
  }

  // ----- runs of the loop -----------------------------------------------------------------------------------------

  /** An expert may leave when it is the weakest, safe to lose, and costs at most 105 of the objective. */
  ghost predicate MayRetire(es: seq<Expert>, graph: seq<seq<Link>>, v: nat, objective: seq<Expert> -> nat)
    requires AllShaped(es) && |graph| == MAXE
  {
    Weakest(es, |es|, v) && Safe(es, graph, v) &&
    objective(Removed(es, v)) + 105 >= objective(es)
  }

  ghost predicate TurnedDown(es: seq<Expert>, graph: seq<seq<Link>>, v: nat, objective: seq<Expert> -> nat)
    requires AllShaped(es) && |graph| == MAXE
  {
    Weakest(es, |es|, v) &&
    (Safe(es, graph, v) ==> objective(Removed(es, v)) + 105 < objective(es))
  }

  /** The victims can be removed one after the other. */
  predicate InReach(n: nat, victims: seq<nat>) {
    n <= MAXE && forall i :: 0 <= i < |victims| ==> victims[i] + i < n
  }

  /** The experts after the victims have left. */
  function After(start: seq<Expert>, victims: seq<nat>): (es: seq<Expert>)
    requires InReach(|start|, victims)
    ensures |es| == |start| - |victims|
  {
    if victims == [] then start
    else
      var k := |victims| - 1;
      assert victims[k] + k < |start|;
      assert InReach(|start|, victims[..k]);
      Removed(After(start, victims[..k]), victims[k])
  }

  /** The victims themselves, each apart from its transitions, as it was when it left. */
  function Gone(start: seq<Expert>, victims: seq<nat>): (gone: seq<Expert>)
    requires InReach(|start|, victims)
    ensures |gone| == |victims|
  {
    if victims == [] then []
    else
      var k := |victims| - 1;
      assert victims[k] + k < |start|;
      assert InReach(|start|, victims[..k]);
      Gone(start, victims[..k]) + [Ident(After(start, victims[..k])[victims[k]])]
  }

  function Lineages(gone: seq<Expert>): (r: seq<U64>)
    ensures |r| == |gone|
  {
    seq(|gone|, i requires 0 <= i < |gone| => gone[i].lineage)
  }

  /** Every victim might leave at its time. */
  ghost predicate Retiring(start: seq<Expert>, graph: seq<seq<Link>>, victims: seq<nat>, objective: seq<Expert> -> nat)
    requires |graph| == MAXE
  {
    AllShaped(start) && InReach(|start|, victims) &&
    forall i :: 0 <= i < |victims| ==> StepAllowed(start, graph, victims, i, objective)
  }

  ghost predicate StepAllowed(start: seq<Expert>, graph: seq<seq<Link>>, victims: seq<nat>, i: nat,
                              objective: seq<Expert> -> nat)
    requires |graph| == MAXE && InReach(|start|, victims) && i < |victims|
  {
    assert InReach(|start|, victims[..i]);
    var es := After(start, victims[..i]);
    AllShaped(es) && MayRetire(es, graph, victims[i], objective)
  }

  lemma RetireMore(start: seq<Expert>, graph: seq<seq<Link>>, victims: seq<nat>, victim: nat,
                   objective: seq<Expert> -> nat)
    requires |graph| == MAXE && Retiring(start, graph, victims, objective)
    requires AllShaped(After(start, victims)) && MayRetire(After(start, victims), graph, victim, objective)
    ensures var more := victims + [victim]; var es := After(start, victims);
            Retiring(start, graph, more, objective) && After(start, more) == Removed(es, victim) &&
            AllShaped(Removed(es, victim)) && Gone(start, more) == Gone(start, victims) + [Ident(es[victim])] &&
            Lineages(Gone(start, more)) == Lineages(Gone(start, victims)) + [es[victim].lineage]
  {
    var more := victims + [victim];
    assert more[..|victims|] == victims;
    forall i | 0 <= i < |more| ensures StepAllowed(start, graph, more, i, objective) {
      assert more[..i] == victims[..i];
      if i < |victims| { assert StepAllowed(start, graph, victims, i, objective); }
    }
    RemovalKeepsShape(After(start, victims), victim);
    LineagesMore(Gone(start, victims), Ident(After(start, victims)[victim]));
  }

  lemma LineagesMore(gone: seq<Expert>, e: Expert)
    ensures Lineages(gone + [e]) == Lineages(gone) + [e.lineage]
  {
  }

  lemma RetireLess(start: seq<Expert>, graph: seq<seq<Link>>, victims: seq<nat>, objective: seq<Expert> -> nat)
    requires |graph| == MAXE && Retiring(start, graph, victims, objective) && victims != []
    ensures var k := |victims| - 1;
            Retiring(start, graph, victims[..k], objective) && AllShaped(After(start, victims[..k])) &&
            MayRetire(After(start, victims[..k]), graph, victims[k], objective)
  {
    var k := |victims| - 1;
    forall i | 0 <= i < k ensures StepAllowed(start, graph, victims[..k], i, objective) {
      assert victims[..k][..i] == victims[..i];
      assert StepAllowed(start, graph, victims, i, objective);
    }
    assert StepAllowed(start, graph, victims, k, objective);
  }

  /**
   * Over a whole run nothing but the victims is lost, no label or action loses its last provider,
   * the base stays as it is, transitions stay in range, and the losses add up to at most 105 each.
   */
  lemma {:induction false} RetirementsKeep(start: seq<Expert>, graph: seq<seq<Link>>, victims: seq<nat>,
                                           objective: seq<Expert> -> nat)
    requires |graph| == MAXE && Retiring(start, graph, victims, objective)
    ensures var es, gone := After(start, victims), Gone(start, victims);
            AllShaped(es) && multiset(Idents(es)) + multiset(gone) == multiset(Idents(start)) &&
            KeepsCoverage(start, es) && BaseKept(start, es) &&
            objective(es) + 105 * |gone| >= objective(start) &&
            (LinksInRange(start) ==> LinksInRange(es)) && forall i :: 0 <= i < |gone| ==> Retirable(gone[i])
  {
    if victims != [] {
      var k := |victims| - 1;
      var es, victim := After(start, victims[..k]), victims[k];
      RetireLess(start, graph, victims, objective);
      RetirementsKeep(start, graph, victims[..k], objective);
      SafeKeepsCoverage(es, graph, victim);
      CoverageChains(start, es, Removed(es, victim));
      RemovalKeepsBase(es, victim);
      BaseChains(start, es, Removed(es, victim));
      RemovalConserves(es, victim);
      if LinksInRange(es) { RemovalKeepsLinks(es, victim); }
      GoneMore(Idents(start), Idents(es), Idents(Removed(es, victim)), Gone(start, victims[..k]), Ident(es[victim]));
      assert Gone(start, victims) == Gone(start, victims[..k]) + [Ident(es[victim])] && Retirable(Ident(es[victim]));
    }
  }

  lemma GoneMore<T>(start: seq<T>, es: seq<T>, next: seq<T>, gone: seq<T>, x: T)
    requires multiset(es) + multiset(gone) == multiset(start) && multiset(next) + multiset{x} == multiset(es)
    ensures multiset(next) + multiset(gone + [x]) == multiset(start)
  {
  }
}
