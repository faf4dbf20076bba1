/**
 * RAVEL's adaptation: experts are born for the events of highest residual as long as the objective
 * gains enough, refined with the base protected, and retired. Everything that rests on floating
 * point, the residual, the objective, one refinement pass, is an arbitrary function here.
 */
module Adaptation {
  import opened Ravel
  import opened Words
  import opened CheckpointFormat
  import opened Router
  import opened Retirement
  import opened Refinement
  import T = CheckpointTables

  const MAX_ADAPT_BIRTHS := 16
  const BIRTH_RESIDUAL_MIN_Q20 := 188744

  datatype Residual = Residual(total: real, dominant: nat)

  /** The numeric parts, for fixed training data; keys are in units of 1/s. */
  datatype Env = Env(
    objective: seq<Expert> -> nat, residual: (seq<Expert>, Event) -> Residual,
    refine: seq<Expert> -> seq<Expert>, mix: nat -> U64, s: nat)

  /** What every refinement pass keeps. */
  ghost predicate Refines(es: seq<Expert>, r: seq<Expert>) {
    AllShaped(r) && |r| == |es| && LinksInRange(r) &&
    (forall j :: 0 <= j < |es| ==> SameIdentity(es[j], r[j]))
  }

  ghost predicate EnvOk(env: Env) {
    (forall es: seq<Expert> :: env.objective(es) <= 1_048_576) &&
    (forall es: seq<Expert>, e: Event :: 0.0 <= env.residual(es, e).total <= 1.0) &&
    (forall es: seq<Expert> :: AllShaped(es) && es != [] ==> Refines(es, env.refine(es)))
  }

  /** The pass that counts exactly, whatever its floating-point results, is such a pass. */
  lemma RefinementRefines(es: seq<Expert>, r: seq<Expert>, events: seq<Event>, nearest: seq<int> -> nat, mean: Mean)
    requires AllShaped(es) && RefinedAll(es, r, events, nearest, mean)
    ensures Refines(es, r)
  {
    forall j | 0 <= j < |es| ensures ExpertShaped(r[j]) && SameIdentity(es[j], r[j]) && RowInRange(r[j], |r|) {
      assert Refined(es[j], r[j], j, |es|, events, nearest, mean);
      forall i | 0 <= i < 8 ensures TransitionOk(r[j].transitions[i], |r|) {
        var a := i / 2;
        TopTwoOrdered(SuccessorRow(events, j, a, |es|, nearest), r[j].transitions[2 * a], r[j].transitions[2 * a + 1]);
        assert i == 2 * a || i == 2 * a + 1;
      }
    }
  }

  // ----- protected refinement -----------------------------------------------------------------------------------

  /** Experts keep their identity, anchored ones keep everything. */
  ghost predicate Kept(es: seq<Expert>, r: seq<Expert>) {
    |es| <= |r| && forall j :: 0 <= j < |es| ==> KeptOne(es[j], r[j])
  }

  predicate KeptOne(e: Expert, r: Expert) { SameIdentity(e, r) && (e.anchored != 0 ==> r == e) }

  lemma KeptChains(a: seq<Expert>, b: seq<Expert>, c: seq<Expert>)
    requires Kept(a, b) && Kept(b, c)
    ensures Kept(a, c)
  {
    forall j | 0 <= j < |a| ensures KeptOne(a[j], c[j]) { assert KeptOne(a[j], b[j]) && KeptOne(b[j], c[j]); }
  }

  lemma KeptKeepsBase(es: seq<Expert>, r: seq<Expert>)
    requires Kept(es, r)
    ensures BaseKept(es, r)
  {
    forall n0: nat | BaseClosed(es, n0) ensures n0 <= |r| && r[..n0] == es[..n0] {
      forall j | 0 <= j < n0 ensures r[j] == es[j] { assert Closed(es[j], n0) && KeptOne(es[j], r[j]); }
    }
  }

  /** Puts the anchored experts back after a pass. */
  method Restore(es: seq<Expert>, refined: seq<Expert>) returns (r: seq<Expert>)
    requires AllShaped(es) && Refines(es, refined)
    ensures AllShaped(r) && |r| == |es| && Kept(es, r)
    ensures forall j :: 0 <= j < |es| ==> r[j] == if es[j].anchored != 0 then es[j] else refined[j]
    ensures LinksInRange(es) ==> LinksInRange(r)
  {
    r := refined;
    for j := 0 to |es|
      invariant |r| == |es| && AllShaped(r)
      invariant forall k :: 0 <= k < j ==> r[k] == if es[k].anchored != 0 then es[k] else refined[k]
      invariant forall k :: j <= k < |es| ==> r[k] == refined[k]
    {
      if es[j].anchored != 0 { r := r[j := es[j]]; }
    }
    if LinksInRange(es) {
      forall j | 0 <= j < |es| ensures RowInRange(r[j], |r|) {
        assert RowInRange(es[j], |es|) && RowInRange(refined[j], |refined|);
      }
    }
  }

  /** One pass; with the base protected, anchored experts are as they were before it. */
  ghost function Pass(es: seq<Expert>, env: Env, protect: bool): (r: seq<Expert>)
    requires AllShaped(es) && es != [] && EnvOk(env)
    ensures AllShaped(r) && |r| == |es|
  {
    var refined := env.refine(es);
    assert Refines(es, refined);
    seq(|es|, j requires 0 <= j < |es| => if protect && es[j].anchored != 0 then es[j] else refined[j])
  }

  /** Several passes, one on the result of the other. */
  ghost function Passes(es: seq<Expert>, env: Env, protect: bool, n: nat): (r: seq<Expert>)
    requires AllShaped(es) && es != [] && EnvOk(env)
    ensures AllShaped(r) && |r| == |es|
  {
    if n == 0 then es else Pass(Passes(es, env, protect, n - 1), env, protect)
  }

  lemma PassIs(es: seq<Expert>, env: Env, protect: bool, r: seq<Expert>)
    requires AllShaped(es) && es != [] && EnvOk(env) && |r| == |es| == |env.refine(es)|
    requires forall j :: 0 <= j < |es| ==> r[j] == if protect && es[j].anchored != 0 then es[j] else env.refine(es)[j]
    ensures r == Pass(es, env, protect)
  {
  }

  lemma OneMorePass(es: seq<Expert>, env: Env, protect: bool, n: nat, r: seq<Expert>)
    requires AllShaped(es) && es != [] && EnvOk(env)
    requires r == Pass(Passes(es, env, protect, n), env, protect)
    ensures r == Passes(es, env, protect, n + 1)
  {
  }

  lemma NoPass(es: seq<Expert>, env: Env, protect: bool)
    requires AllShaped(es) && es != [] && EnvOk(env)
    ensures Passes(es, env, protect, 0) == es
  {
  }

  lemma RefineKeeps(es: seq<Expert>, env: Env)
    requires AllShaped(es) && es != [] && EnvOk(env)
    ensures Refines(es, env.refine(es)) && AllShaped(env.refine(es)) && Identities(es, env.refine(es))
  {
  }

  method RefineProtected(es: seq<Expert>, env: Env, iterations: nat) returns (r: seq<Expert>)
    requires AllShaped(es) && es != [] && EnvOk(env)
    ensures AllShaped(r) && |r| == |es| && Kept(es, r) && r == Passes(es, env, true, iterations)
    ensures LinksInRange(es) ==> LinksInRange(r)
  {
    r := es;
    NoPass(es, env, true);
    assert Kept(es, es);
    hide *;
    for iteration := 0 to iterations
      invariant AllShaped(r) && |r| == |es| && Kept(es, r) && r == Passes(es, env, true, iteration)
      invariant LinksInRange(es) ==> LinksInRange(r)
    {
      var refined := env.refine(r);
      RefineKeeps(r, env);
      var next := Restore(r, refined);
      KeptChains(es, r, next);
      PassIs(r, env, true, next);
      OneMorePass(es, env, true, iteration, next);
      r := next;
    }
  }

  // ----- births -----------------------------------------------------------------------------------------------

  const SEED_MARK: nat := 0x4144_4150_5442_4952

  function ScaledRow(v: seq<int>, s: nat): (r: seq<int>)
    ensures |r| == |v|
  {
    seq(|v|, d requires 0 <= d < |v| => v[d] * s)
  }

  const ZERO_EXPERT := Expert(0, 0, 0, 0, 0, 0, seq(8, _ => 0), seq(8, _ => 0), seq(32, _ => 0),
                              seq(8, _ => 0), seq(4, _ => 0), seq(8, _ => Link(0, 0)), 0, 0, 0, 0)

  /** Counts, errors, transitions and the predictions of the other actions come from the parent. */
  predicate Inherits(parent: Expert, seeded: Expert, action: nat)
    requires ExpertShaped(parent) && ExpertShaped(seeded)
  {
    seeded.transitions == parent.transitions && seeded.actionCount == parent.actionCount &&
    seeded.count == parent.count && seeded.errors == parent.errors &&
    seeded.reconstructionSse == parent.reconstructionSse && seeded.predictionSse == parent.predictionSse &&
    forall a :: 0 <= a < ACTIONS && a != action ==> NextRow(seeded.next, a) == NextRow(parent.next, a)
  }

  /** The predicted observation after one action. */
  function NextRow(next: seq<int>, a: nat): seq<int>
    requires |next| == 32 && a < ACTIONS
  {
    next[8 * a..8 * a + 8]
  }

  function WithRow(next: seq<int>, row: seq<int>, action: nat): (r: seq<int>)
    requires |next| == 32 && |row| == 8 && action < ACTIONS
    ensures |r| == 32 && NextRow(r, action) == row
    ensures forall a :: 0 <= a < ACTIONS && a != action ==> NextRow(r, a) == NextRow(next, a)
  {
    next[..8 * action] + row + next[8 * action + 8..]
  }

  /** Generations are 16 bits wide. */
  function NextGeneration(n: nat): U16 { (n + 1) % 0x1_0000 }

  /** What the lineage of a new expert is mixed from. */
  function Mark(epoch: U64, id: nat, index: nat, parent: U64): nat {
    Xor(Xor(Xor(Xor(SEED_MARK, epoch), id), index), parent)
  }

  /** The nearest expert to an observation. */
  function Parent(es: seq<Expert>, x: seq<int>, s: nat): (e: Expert)
    requires AllShaped(es) && es != [] && |x| == D
    ensures ExpertShaped(e) && e in es
  {
    es[Closest(x, T.Keys(es), s)]
  }

  /** The new expert field by field. */
  function SeedOf(es: seq<Expert>, e: Event, index: nat, epoch: U64, env: Env): (seeded: Expert)
    requires AllShaped(es) && InBox(e.x) && InBox(e.nx) && e.action < ACTIONS && e.outcome < CLASSES
    ensures ExpertShaped(seeded)
  {
    var parent := if es == [] then ZERO_EXPERT else Parent(es, e.x, env.s);
    parent.(key := ScaledRow(e.x, env.s), decode := ScaledRow(e.x, env.s),
            next := WithRow(parent.next, ScaledRow(e.nx, env.s), e.action),
            labels := seq(CLASSES, y => if y == e.outcome then 1 else 0), classLabel := e.outcome,
            active := 1, lifecycle := 1, anchored := 0,
            generation := NextGeneration(if es == [] then epoch else parent.generation),
            lineage := env.mix(Mark(epoch, |es|, index, if es == [] then 0 else parent.lineage)))
  }

  /** The new expert copies its nearest one and then takes the event for itself. */
  method Seed(es: seq<Expert>, e: Event, index: nat, epoch: U64, env: Env) returns (seeded: Expert)
    requires AllShaped(es) && EnvOk(env) && InBox(e.x) && InBox(e.nx) && e.action < ACTIONS && e.outcome < CLASSES
    ensures ExpertShaped(seeded) && Retirable(seeded) && seeded.active == 1 && seeded.classLabel == e.outcome
    ensures seeded.key == seeded.decode == ScaledRow(e.x, env.s)
    ensures NextRow(seeded.next, e.action) == ScaledRow(e.nx, env.s)
    ensures seeded.labels == seq(CLASSES, y => if y == e.outcome then 1 else 0)
    ensures es != [] ==> Inherits(Parent(es, e.x, env.s), seeded, e.action)
    ensures seeded.lineage ==
            env.mix(Mark(epoch, |es|, index, if es == [] then 0 else Parent(es, e.x, env.s).lineage))
    ensures seeded.generation == NextGeneration(if es == [] then epoch else Parent(es, e.x, env.s).generation)
    ensures seeded == SeedOf(es, e, index, epoch, env)
  {
    var at, evaluations := FullNearest(e.x, T.Keys(es), env.s, 0);
    var parent := if at == INVALID then ZERO_EXPERT else es[at];
    var next := WithRow(parent.next, ScaledRow(e.nx, env.s), e.action);
    var generation := NextGeneration(if es == [] then epoch else parent.generation);
    var lineage := env.mix(Mark(epoch, |es|, index, if es == [] then 0 else parent.lineage));
    seeded := parent.(key := ScaledRow(e.x, env.s), decode := ScaledRow(e.x, env.s), next := next,
                      labels := seq(CLASSES, y => if y == e.outcome then 1 else 0), classLabel := e.outcome,
                      active := 1, lifecycle := 1, anchored := 0, generation := generation, lineage := lineage);
    assert Inherits(parent, seeded, e.action);
  }

  lemma SeedInRange(es: seq<Expert>, seeded: Expert, parent: nat)
    requires AllShaped(es) && LinksInRange(es) && parent < |es| && |es| < MAXE
    requires seeded.transitions == es[parent].transitions
    ensures LinksInRange(es + [seeded])
  {
    var r := es + [seeded];
    forall j | 0 <= j < |r| ensures RowInRange(r[j], |r|) {
      var e := es[if j < |es| then j else parent];
      assert RowInRange(e, |es|);
      forall i | 0 <= i < |e.transitions| ensures TransitionOk(r[j].transitions[i], |r|) {
        assert TransitionOk(e.transitions[i], |es|);
      }
    }
  }

  /** Rounding to 2^-20. */
  function ScoreQ20(total: real): int { (total * 1048576.0 + 0.5).Floor }

  /** Among the first `count` events, `best` is the first unused one of highest residual. */
  ghost predicate Worst(es: seq<Expert>, events: seq<Event>, selected: seq<bool>, env: Env, best: nat, count: nat)
    requires |selected| == |events| && best < |events| && count <= |events|
  {
    !selected[best] && Valid(events[best]) &&
    forall i :: 0 <= i < count && i != best && !selected[i] && Valid(events[i]) ==>
      if i < best then env.residual(es, events[i]).total < env.residual(es, events[best]).total
      else env.residual(es, events[i]).total <= env.residual(es, events[best]).total
  }

  /** The first unused event of highest residual, or the number of events. */
  method WorstEvent(es: seq<Expert>, events: seq<Event>, selected: seq<bool>, env: Env) returns (best: nat)
    requires |selected| == |events|
    ensures best <= |events|
    ensures best < |events| ==> Worst(es, events, selected, env, best, |events|)
    ensures best == |events| ==> forall i :: 0 <= i < |events| ==> selected[i] || !Valid(events[i])
  {
    best := |events|;
    for i := 0 to |events|
      invariant best < i || best == |events|
      invariant best < |events| ==> Worst(es, events, selected, env, best, i)
      invariant best == |events| ==> forall k :: 0 <= k < i ==> selected[k] || !Valid(events[k])
    {
      if !selected[i] && Valid(events[i]) {
        if best == |events| || env.residual(es, events[i]).total > env.residual(es, events[best]).total { best := i; }
      }
    }
  }

  /** The `k`-th of `n` positions, going round from a hashed one. */
  function Around(hash: nat, k: nat, n: nat): (i: nat)
    requires n > 0
    ensures i < n
  {
    (hash % n + k) % n
  }

  lemma Remainder(x: nat, n: nat)
    requires 0 < n && x < n + n
    ensures x % n == if x < n then x else x - n
  {
    var q := x / n;
    assert x == n * q + x % n;
    assert n * q < n * 2;
    assert q == 0 || q == 1;
  }

  lemma AroundAll(hash: nat, n: nat, i: nat)
    requires i < n
    ensures exists k: nat :: k < n && Around(hash, k, n) == i
  {
    var start := hash % n;
    var k: nat := if i >= start then i - start else i + n - start;
    Remainder(start + k, n);
    assert Around(hash, k, n) == i;
  }

  /** The first unused position at or after the hashed one, going round. */
  ghost predicate Hashed(selected: seq<bool>, hash: nat, best: nat)
    requires best < |selected|
  {
    !selected[best] &&
    exists offset: nat :: offset < |selected| && best == Around(hash, offset, |selected|) &&
                          forall k: nat :: k < offset ==> selected[Around(hash, k, |selected|)]
  }

  /** Random births start at a hashed position and take the first unused event. */
  method HashedEvent(events: seq<Event>, selected: seq<bool>, epoch: U64, attempt: nat, env: Env)
    returns (best: nat)
    requires |selected| == |events| > 0
    ensures best <= |events|
    ensures best < |events| ==> Hashed(selected, env.mix(Xor(epoch, attempt)), best)
    ensures best == |events| ==> forall i :: 0 <= i < |events| ==> selected[i]
  {
    var hash := env.mix(Xor(epoch, attempt));
    for offset := 0 to |events|
      invariant forall k: nat :: k < offset ==> selected[Around(hash, k, |events|)]
    {
      var index := Around(hash, offset, |events|);
      if !selected[index] { return index; }
    }
    best := |events|;
    forall i | 0 <= i < |events| ensures selected[i] { AroundAll(hash, |events|, i); }
  }

  datatype Births = Births(chosen: seq<nat>, rejected: nat, before: nat, after: nat)

  /** What holds after the births so far. */
  ghost predicate Born(start: seq<Expert>, es: seq<Expert>, births: seq<nat>, objective: seq<Expert> -> nat) {
    AllShaped(es) && |es| == |start| + |births| && Kept(start, es) &&
    (forall j :: |start| <= j < |es| ==> Retirable(es[j])) &&
    objective(es) >= objective(start) + (105 + 1) * |births| &&
    (LinksInRange(start) && start != [] ==> LinksInRange(es))
  }

  /** The experts with a seeded one, or those after two protected passes if they are at least as good. */
  ghost function CandidateOf(es: seq<Expert>, e: Event, index: nat, epoch: U64, env: Env): (r: seq<Expert>)
    requires AllShaped(es) && |es| < MAXE && EnvOk(env) && Valid(e)
    ensures AllShaped(r) && |r| == |es| + 1
  {
    var raw := es + [SeedOf(es, e, index, epoch, env)];
    var refined := Passes(raw, env, true, 2);
    if env.objective(raw) > env.objective(refined) then raw else refined
  }

  /** A candidate with one more expert, raw or refined, whichever has the better objective. */
  method Candidate(es: seq<Expert>, e: Event, index: nat, epoch: U64, env: Env)
    returns (candidate: seq<Expert>, objective: nat, ghost seeded: seq<Expert>)
    requires AllShaped(es) && |es| < MAXE && EnvOk(env) && Valid(e)
    ensures AllShaped(candidate) && |candidate| == |es| + 1 && Kept(es, candidate) && Retirable(candidate[|es|])
    ensures candidate == CandidateOf(es, e, index, epoch, env)
    ensures objective == env.objective(candidate) >= env.objective(seeded)
    ensures |seeded| == |es| + 1 && seeded[..|es|] == es && seeded[|es|].key == ScaledRow(e.x, env.s)
    ensures es != [] && LinksInRange(es) ==> LinksInRange(candidate)
  {
    var seed := Seed(es, e, index, epoch, env);
    var raw := es + [seed];
    seeded := raw;
    if es != [] && LinksInRange(es) { SeedInRange(es, seed, Closest(e.x, T.Keys(es), env.s)); }
    Seeded(es, seed);
    var refined := RefineProtected(raw, env, 2);
    CandidateIs(es, e, index, epoch, env, raw, refined);
    LastKept(raw, refined, |es|);
    hide *;
    KeptChains(es, seeded, refined);
    candidate, objective := refined, env.objective(refined);
    if env.objective(raw) > objective { candidate, objective := raw, env.objective(raw); }
  }

  lemma Seeded(es: seq<Expert>, seed: Expert)
    requires AllShaped(es) && |es| < MAXE && ExpertShaped(seed) && Retirable(seed)
    ensures AllShaped(es + [seed]) && Kept(es, es + [seed]) && Retirable((es + [seed])[|es|])
  {
  }

  lemma LastKept(raw: seq<Expert>, refined: seq<Expert>, k: nat)
    requires Kept(raw, refined) && k < |raw| && Retirable(raw[k])
    ensures k < |refined| && Retirable(refined[k])
  {
    assert KeptOne(raw[k], refined[k]);
  }

  lemma CandidateIs(es: seq<Expert>, e: Event, index: nat, epoch: U64, env: Env, raw: seq<Expert>,
                    refined: seq<Expert>)
    requires AllShaped(es) && |es| < MAXE && EnvOk(env) && Valid(e)
    requires raw == es + [SeedOf(es, e, index, epoch, env)] && refined == Passes(raw, env, true, 2)
    ensures CandidateOf(es, e, index, epoch, env) ==
            if env.objective(raw) > env.objective(refined) then raw else refined
  {
  }

  lemma BornMore(start: seq<Expert>, es: seq<Expert>, births: seq<nat>, objective: seq<Expert> -> nat,
                 next: seq<Expert>, event: nat)
    requires Born(start, es, births, objective)
    requires AllShaped(next) && |next| == |es| + 1 && Kept(es, next) && Retirable(next[|es|])
    requires es != [] && LinksInRange(es) ==> LinksInRange(next)
    requires objective(next) > objective(es) + OBJECTIVE_MIN_Q20
    ensures Born(start, next, births + [event], objective)
  {
    KeptChains(start, es, next);
    forall j | |start| <= j < |next| ensures Retirable(next[j]) {
      if j < |es| { assert KeptOne(es[j], next[j]); }
    }
  }

  predicate BadEnough(es: seq<Expert>, e: Event, env: Env) {
    ScoreQ20(env.residual(es, e).total) >= 188744
  }

  /** The event at hand: by hash or the worst one. */
  ghost predicate AtHand(es: seq<Expert>, events: seq<Event>, selected: seq<bool>, epoch: U64, attempt: nat,
                         random: bool, env: Env, best: nat)
    requires |selected| == |events| && best < |events|
  {
    if random then Hashed(selected, env.mix(Xor(epoch, attempt)), best)
    else Worst(es, events, selected, env, best, |events|)
  }

  /** There is no event to try: none is left, or the one at hand is not bad enough. */
  ghost predicate NothingToTry(es: seq<Expert>, events: seq<Event>, selected: seq<bool>, epoch: U64, attempt: nat,
                               random: bool, env: Env)
    requires |selected| == |events|
  {
    (forall i :: 0 <= i < |events| ==> selected[i] || (!random && !Valid(events[i]))) ||
    exists i :: 0 <= i < |events| && AtHand(es, events, selected, epoch, attempt, random, env, i) &&
                !BadEnough(es, events[i], env)
  }

  /** The event to try next, if it is bad enough. */
  method NextEvent(es: seq<Expert>, events: seq<Event>, selected: seq<bool>, epoch: U64, attempt: nat, random: bool,
                   env: Env)
    returns (best: nat)
    requires |selected| == |events| > 0 && (random ==> forall i :: 0 <= i < |events| ==> Valid(events[i]))
    ensures best <= |events|
    ensures best < |events| ==> !selected[best] && Valid(events[best]) &&
                                ScoreQ20(env.residual(es, events[best]).total) >= 188744
    ensures best < |events| && random ==> Hashed(selected, env.mix(Xor(epoch, attempt)), best)
    ensures best < |events| && !random ==> Worst(es, events, selected, env, best, |events|)
    ensures best == |events| && !random ==>
              forall i :: 0 <= i < |events| && !selected[i] && Valid(events[i]) ==>
                ScoreQ20(env.residual(es, events[i]).total) < 188744
    ensures best < |events| ==> AtHand(es, events, selected, epoch, attempt, random, env, best)
    ensures best == |events| ==> NothingToTry(es, events, selected, epoch, attempt, random, env)
  {
    if random {
      best := HashedEvent(events, selected, epoch, attempt, env);
    } else {
      best := WorstEvent(es, events, selected, env);
    }
    if best < |events| && ScoreQ20(env.residual(es, events[best]).total) < BIRTH_RESIDUAL_MIN_Q20 {
      assert AtHand(es, events, selected, epoch, attempt, random, env, best);
      best := |events|;
    }
  }

  /** One attempt: the candidate replaces the experts if the objective gains more than 105. */
  method Attempt(es: seq<Expert>, objective: nat, chosen: seq<nat>, e: Event, index: nat, epoch: U64, env: Env,
                 ghost start: seq<Expert>)
    returns (accepted: bool, r: seq<Expert>, value: nat, ghost candidate: seq<Expert>)
    requires EnvOk(env) && Valid(e) && |es| < MAXE
    requires Born(start, es, chosen, env.objective) && objective == env.objective(es)
    ensures accepted ==> Born(start, r, chosen + [index], env.objective) && |r| == |es| + 1
    ensures |candidate| == |es| + 1 && Kept(es, candidate)
    ensures AllShaped(es) && candidate == CandidateOf(es, e, index, epoch, env)
    ensures accepted <==> env.objective(candidate) > objective + 105
    ensures r == if accepted then candidate else es
    ensures value == env.objective(r)
  {
    var tried, gained, seeded := Candidate(es, e, index, epoch, env);
    candidate := tried;
    accepted := gained > objective + OBJECTIVE_MIN_Q20;
    if accepted {
      BornMore(start, es, chosen, env.objective, tried, index);
      r, value := tried, gained;
    } else {
      r, value := es, objective;
    }
  }

  /** Distinct events, all marked as used. */
  predicate Used(chosen: seq<nat>, selected: seq<bool>) {
    (forall i :: 0 <= i < |chosen| ==> chosen[i] < |selected| && selected[chosen[i]]) &&
    forall i, k :: 0 <= i < k < |chosen| ==> chosen[i] != chosen[k]
  }

  // ----- what the births amount to ------------------------------------------------------------------------------

  /** One attempt: the event that was tried and what it would make of the experts. */
  datatype Step = Step(event: nat, candidate: seq<Expert>)

  /** The experts after some attempts: a candidate is taken when it gains more than 105. */
  function ListAfter(es: seq<Expert>, steps: seq<Step>, objective: seq<Expert> -> nat): seq<Expert> {
    if steps == [] then es
    else
      var last := |steps| - 1;
      var prior := ListAfter(es, steps[..last], objective);
      if objective(steps[last].candidate) > objective(prior) + 105 then steps[last].candidate else prior
  }

  /** Which events were taken for good. */
  function TakenEvents(es: seq<Expert>, steps: seq<Step>, objective: seq<Expert> -> nat): seq<nat> {
    if steps == [] then []
    else
      var last := |steps| - 1;
      var prior := ListAfter(es, steps[..last], objective);
      TakenEvents(es, steps[..last], objective) +
      if objective(steps[last].candidate) > objective(prior) + 105 then [steps[last].event] else []
  }

  predicate WasTried(steps: seq<Step>, i: nat) { exists k :: 0 <= k < |steps| && steps[k].event == i }

  /** Which of the `n` events have been tried. */
  ghost function TriedEvents(n: nat, steps: seq<Step>): (marks: seq<bool>)
    ensures |marks| == n
  {
    seq(n, i requires 0 <= i < n => WasTried(steps, i))
  }

  /** What the attempts have to do with the data. */
  datatype Task = Task(es: seq<Expert>, events: seq<Event>, epoch: U64, random: bool, env: Env)

  /** Attempt `k` tries the event at hand, which is bad enough, with the candidate for it. */
  ghost predicate StepFits(task: Task, steps: seq<Step>, k: nat)
    requires EnvOk(task.env) && k < |steps|
  {
    var prior := ListAfter(task.es, steps[..k], task.env.objective);
    var step, marks := steps[k], TriedEvents(|task.events|, steps[..k]);
    AllShaped(prior) && |prior| < 80 && step.event < |task.events| && Valid(task.events[step.event]) &&
    AtHand(prior, task.events, marks, task.epoch, k, task.random, task.env, step.event) &&
    BadEnough(prior, task.events[step.event], task.env) &&
    step.candidate == CandidateOf(prior, task.events[step.event], step.event, task.epoch, task.env)
  }

  ghost predicate Attempts(task: Task, steps: seq<Step>)
    requires EnvOk(task.env)
  {
    |steps| <= 16 && forall k :: 0 <= k < |steps| ==> StepFits(task, steps, k)
  }

  /** Births end after 16 attempts, at 80 experts, or when there is nothing to try. */
  ghost predicate AttemptsOver(task: Task, steps: seq<Step>)
    requires EnvOk(task.env)
  {
    var es := ListAfter(task.es, steps, task.env.objective);
    |steps| == 16 || |es| >= 80 ||
    NothingToTry(es, task.events, TriedEvents(|task.events|, steps), task.epoch, |steps|, task.random, task.env)
  }

  lemma ListSnoc(es: seq<Expert>, steps: seq<Step>, step: Step, objective: seq<Expert> -> nat)
    ensures var prior := ListAfter(es, steps, objective);
            var taken := objective(step.candidate) > objective(prior) + 105;
            ListAfter(es, steps + [step], objective) == (if taken then step.candidate else prior) &&
            TakenEvents(es, steps + [step], objective) ==
              TakenEvents(es, steps, objective) + if taken then [step.event] else []
  {
    assert (steps + [step])[..|steps|] == steps;
  }

  lemma TriedSnoc(n: nat, steps: seq<Step>, step: Step)
    requires step.event < n
    ensures TriedEvents(n, steps + [step]) == TriedEvents(n, steps)[step.event := true]
  {
    var more := steps + [step];
    forall i | 0 <= i < n ensures WasTried(more, i) <==> WasTried(steps, i) || i == step.event {
      if k :| 0 <= k < |steps| && steps[k].event == i { assert more[k].event == i; }
      if i == step.event { assert more[|steps|].event == i; }
    }
  }

  lemma AttemptSnoc(task: Task, steps: seq<Step>, step: Step)
    requires EnvOk(task.env) && Attempts(task, steps) && |steps| < 16
    requires var prior := ListAfter(task.es, steps, task.env.objective);
             AllShaped(prior) && |prior| < 80 && step.event < |task.events| && Valid(task.events[step.event]) &&
             AtHand(prior, task.events, TriedEvents(|task.events|, steps), task.epoch, |steps|, task.random, task.env,
                    step.event) &&
             BadEnough(prior, task.events[step.event], task.env) &&
             step.candidate == CandidateOf(prior, task.events[step.event], step.event, task.epoch, task.env)
    ensures Attempts(task, steps + [step])
  {
    var more := steps + [step];
    forall k | 0 <= k < |more| ensures StepFits(task, more, k) {
      if k < |steps| {
        assert more[..k] == steps[..k] && StepFits(task, steps, k);
      } else {
        assert more[..k] == steps;
      }
    }
  }

  /**
   * Each accepted birth raises the objective by more than 105, takes another event, and leaves the
   * anchored experts as they are; there are never more than 80 experts. `steps` are all the attempts.
   */
  method AddExperts(es: seq<Expert>, events: seq<Event>, epoch: U64, random: bool, env: Env)
    returns (ok: bool, r: seq<Expert>, births: Births, ghost selected: seq<bool>, ghost steps: seq<Step>)
    requires AllShaped(es) && EnvOk(env) && (random ==> forall i :: 0 <= i < |events| ==> Valid(events[i]))
    ensures ok <==> |es| < MAXE && events != []
    ensures !ok ==> r == es
    ensures ok ==> Born(es, r, births.chosen, env.objective)
    ensures ok ==> |births.chosen| + births.rejected <= 16
    ensures ok ==> births.before == env.objective(es) && births.after == env.objective(r)
    ensures ok ==> |selected| == |events| && Used(births.chosen, selected)
    ensures var task := Task(es, events, epoch, random, env);
            ok ==> Attempts(task, steps) && AttemptsOver(task, steps)
    ensures ok ==> r == ListAfter(es, steps, env.objective) && births.chosen == TakenEvents(es, steps, env.objective)
    ensures ok ==> births.rejected + |births.chosen| == |steps|
  {
    r, births, selected, steps := es, Births([], 0, 0, 0), [], [];
    if |es| >= MAXE || |events| == 0 { return false, r, births, selected, steps; }
    ghost var task := Task(es, events, epoch, random, env);
    var marks := seq(|events|, _ => false);
    var chosen: seq<nat> := [];
    var before := env.objective(es);
    var objective, rejected: nat := before, 0;
    var attempt := 0;
    while attempt < MAX_ADAPT_BIRTHS && |r| < MAXE
      invariant |chosen| + rejected == attempt <= MAX_ADAPT_BIRTHS
      invariant |marks| == |events| && Used(chosen, marks)
      invariant Born(es, r, chosen, env.objective) && objective == env.objective(r)
      invariant |steps| == attempt && Attempts(task, steps) && marks == TriedEvents(|events|, steps)
      invariant r == ListAfter(es, steps, env.objective) && chosen == TakenEvents(es, steps, env.objective)
    {
      var best := NextEvent(r, events, marks, epoch, attempt, random, env);
      if best == |events| {
        ok, births, selected := true, Births(chosen, rejected, before, objective), marks;
        return;
      }
      UseMore(chosen, marks, best);
      marks := marks[best := true];
      var accepted;
      ghost var candidate, prior := [], r;
      accepted, r, objective, candidate := Attempt(r, objective, chosen, events[best], best, epoch, env, es);
      if accepted {
        chosen := chosen + [best];
      } else {
        rejected := rejected + 1;
      }
      ghost var step := Step(best, candidate);
      ListSnoc(es, steps, step, env.objective);
      TriedSnoc(|events|, steps, step);
      AttemptSnoc(task, steps, step);
      steps := steps + [step];
      attempt := attempt + 1;
    }
    ok, births, selected := true, Births(chosen, rejected, before, objective), marks;
  }

  lemma UseMore(chosen: seq<nat>, selected: seq<bool>, best: nat)
    requires Used(chosen, selected) && best < |selected| && !selected[best]
    ensures Used(chosen, selected[best := true]) && Used(chosen + [best], selected[best := true])
  {
  }

  // ----- the whole adaptation ---------------------------------------------------------------------------------

  datatype Config = Config(births: bool, random: bool, protectBase: bool, retire: bool, matchedWork: bool)

  lemma SameLength(es: seq<Expert>, r: seq<Expert>)
    requires Refines(es, r)
    ensures |r| == |es|
  {
  }

  method RefinePlain(es: seq<Expert>, env: Env, iterations: nat) returns (r: seq<Expert>)
    requires AllShaped(es) && es != [] && EnvOk(env)
    ensures AllShaped(r) && |r| == |es| && Identities(es, r) && r == Passes(es, env, false, iterations)
  {
    r := es;
    NoPass(es, env, false);
    assert Identities(es, es);
    hide *;
    for iteration := 0 to iterations
      invariant AllShaped(r) && |r| == |es| && Identities(es, r) && r == Passes(es, env, false, iteration)
    {
      var refined := env.refine(r);
      RefineKeeps(r, env);
      SameLength(r, refined);
      IdentitiesChain(es, r, refined);
      PassIs(r, env, false, refined);
      OneMorePass(es, env, false, iteration, refined);
      r := refined;
    }
  }

  /** The experts are still there with the fields that refinement never touches, whoever came behind them. */
  ghost predicate Identities(es: seq<Expert>, r: seq<Expert>) {
    |es| <= |r| && forall j :: 0 <= j < |es| ==> SameIdentity(es[j], r[j])
  }

  lemma IdentitiesChain(a: seq<Expert>, b: seq<Expert>, c: seq<Expert>)
    requires Identities(a, b) && Identities(b, c)
    ensures Identities(a, c)
  {
    forall j | 0 <= j < |a| ensures SameIdentity(a[j], c[j]) { assert SameIdentity(a[j], b[j]); }
  }

  lemma KeptIdentities(es: seq<Expert>, r: seq<Expert>)
    requires Kept(es, r)
    ensures Identities(es, r)
  {
    forall j | 0 <= j < |es| ensures SameIdentity(es[j], r[j]) { assert KeptOne(es[j], r[j]); }
  }

  /** The epoch counter wraps at 64 bits. */
  function NextEpoch(epoch: U64): U64 { if epoch + 1 == TWO64 then 0 else epoch + 1 }

  /** The passes of one adaptation after its births. */
  method RefineAll(es: seq<Expert>, config: Config, env: Env, ghost start: seq<Expert>) returns (r: seq<Expert>)
    requires AllShaped(es) && es != [] && EnvOk(env) && Kept(start, es)
    ensures AllShaped(r) && |r| == |es| && Identities(start, r)
    ensures r == Passes(es, env, config.protectBase, if config.matchedWork then 4 else 2)
    ensures config.protectBase ==> Kept(es, r) && BaseKept(start, r) && (LinksInRange(es) ==> LinksInRange(r))
  {
    var iterations := if config.matchedWork then 4 else 2;
    if config.protectBase {
      r := RefineProtected(es, env, iterations);
      KeptChains(start, es, r);
      KeptKeepsBase(start, r);
      KeptIdentities(start, r);
    } else {
      r := RefinePlain(es, env, iterations);
      KeptIdentities(start, es);
      IdentitiesChain(start, es, r);
    }
  }

  /** Attempts at births, the experts after them, those after the passes, and the retirements from there. */
  datatype Run = Run(steps: seq<Step>, born: seq<Expert>, before: seq<Expert>, victims: seq<nat>)

  /** What the births of a run are. */
  ghost predicate RanBirths(start: seq<Expert>, epoch: U64, events: seq<Event>, config: Config, env: Env, run: Run)
    requires EnvOk(env)
  {
    AllShaped(run.born) && run.born != [] &&
    if config.births then
      var task := Task(start, events, epoch, config.random, env);
      Attempts(task, run.steps) && AttemptsOver(task, run.steps) &&
      run.born == ListAfter(start, run.steps, env.objective)
    else
      run.steps == [] && run.born == start
  }

  /** What its retirements are: it ends after four, when nobody may retire, or when the weakest is turned down. */
  ghost predicate RanRetirements(graph: seq<seq<Link>>, config: Config, env: Env, run: Run, final: seq<Expert>)
    requires |graph| == MAXE
  {
    Retiring(run.before, graph, run.victims, env.objective) && final == After(run.before, run.victims) &&
    AllShaped(final) &&
    if config.retire then
      |run.victims| == 4 || NoneRetirable(final) || exists v :: TurnedDown(final, graph, v, env.objective)
    else
      run.victims == []
  }

  /** A whole adaptation: births, two or four passes, retirements. */
  ghost predicate Ran(start: seq<Expert>, graph: seq<seq<Link>>, epoch: U64, events: seq<Event>, config: Config,
                      env: Env, run: Run, final: seq<Expert>)
    requires EnvOk(env) && |graph| == MAXE
  {
    RanBirths(start, epoch, events, config, env, run) &&
    run.before == Passes(run.born, env, config.protectBase, if config.matchedWork then 4 else 2) &&
    RanRetirements(graph, config, env, run, final)
  }

  /** The births of an adaptation, if it has any. */
  method AddBirths(m: Topology, events: seq<Event>, config: Config, env: Env)
    returns (ok: bool, ghost run: Run)
    requires m.Valid() && m.experts != [] && EnvOk(env)
    requires config.random ==> forall i :: 0 <= i < |events| ==> Valid(events[i])
    modifies m
    ensures m.Valid() && m.graph == old(m.graph) && m.epoch == old(m.epoch) && m.experts != []
    ensures ok <==> config.births ==> |old(m.experts)| < MAXE && events != []
    ensures !ok ==> m.experts == old(m.experts)
    ensures Kept(old(m.experts), m.experts) && (LinksInRange(old(m.experts)) ==> LinksInRange(m.experts))
    ensures ok ==> RanBirths(old(m.experts), m.epoch, events, config, env, run) && m.experts == run.born
  {
    ghost var start := m.experts;
    run := Run([], start, start, []);
    if config.births {
      var done, born, births;
      ghost var used, steps;
      done, born, births, used, steps := AddExperts(m.experts, events, m.epoch, config.random, env);
      if !done { return false, run; }
      m.experts := born;
      run := Run(steps, born, born, []);
    }
    ok := true;
  }

  /** The retirements of an adaptation, if it has any. */
  method Retire(m: Topology, config: Config, env: Env, ghost run: Run) returns (ghost more: Run)
    requires m.Valid() && EnvOk(env) && m.experts == run.before && run.victims == []
    modifies m`experts
    ensures m.Valid() && more == run.(victims := more.victims) && RanRetirements(m.graph, config, env, more, m.experts)
    ensures BaseKept(old(m.experts), m.experts) && (LinksInRange(old(m.experts)) ==> LinksInRange(m.experts))
  {
    more := run;
    if config.retire {
      var trace;
      ghost var victims;
      trace, victims := m.ConsiderRetirements(env.objective);
      RetirementsKeep(run.before, m.graph, victims, env.objective);
      more := run.(victims := victims);
    }
  }

  /**
   * With the base protected, the first experts that are anchored and closed under their transitions
   * come through births, refinement and retirement field for field, at the same indices. `run` tells
   * every attempt, pass and retirement of the adaptation.
   */
  method AdaptModel(m: Topology, events: seq<Event>, config: Config, env: Env) returns (ok: bool, ghost run: Run)
    requires m.Valid() && m.experts != [] && EnvOk(env)
    requires config.random ==> forall i :: 0 <= i < |events| ==> Valid(events[i])
    modifies m
    ensures m.Valid() && (ok <==> config.births ==> |old(m.experts)| < MAXE && events != [])
    ensures ok ==> m.epoch == NextEpoch(old(m.epoch))
    ensures !ok ==> m.experts == old(m.experts) && m.epoch == old(m.epoch)
    ensures ok ==> Ran(old(m.experts), m.graph, old(m.epoch), events, config, env, run, m.experts)
    ensures config.protectBase ==> BaseKept(old(m.experts), m.experts)
    ensures config.protectBase && LinksInRange(old(m.experts)) ==> LinksInRange(m.experts)
    ensures m.graph == old(m.graph) && Identities(old(m.experts), run.before) && (!config.retire ==> run.victims == [])
    ensures Retiring(run.before, m.graph, run.victims, env.objective) && m.experts == After(run.before, run.victims)
  {
    ghost var start := m.experts;
    ok, run := AddBirths(m, events, config, env);
    if !ok {
      run := Run([], start, start, []);
      return;
    }
    var refined := RefineAll(m.experts, config, env, start);
    m.experts := refined;
    run := run.(before := refined, victims := []);
    ghost var births := run;
    run := Retire(m, config, env, run);
    if config.protectBase { BaseChains(start, run.before, m.experts); }
    m.epoch := NextEpoch(m.epoch);
  }
}
