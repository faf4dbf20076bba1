/**
 * One adaptation of RAVEL from its data: replay is selected from the base training events, mixed
 * with the new events, and the model is adapted on the mixture.
 */
module AdaptationRun {
  import opened Ravel
  import opened Words
  import opened CheckpointFormat
  import opened Router
  import opened Retirement
  import opened Refinement
  import opened Adaptation
  import R = Replay
  import T = CheckpointTables

  datatype Policy = NoReplay | Balanced | Strided

  /** What selection needs of a model: its residual of an event, and the unit of its keys, 1/s. */
  datatype Judge = Judge(residual: (seq<Expert>, Event) -> real, s: nat)

  ghost predicate JudgeOk(judge: Judge) {
    forall es: seq<Expert>, e: Event :: 0.0 <= judge.residual(es, e) <= 1.0
  }

  function Score(es: seq<Expert>, e: Event, judge: Judge): nat
    requires 0.0 <= judge.residual(es, e)
  {
    ScoreQ20(judge.residual(es, e))
  }

  /** The score in the upper half, the position counted from the end in the lower. */
  function LossKey(score: nat, i: nat): nat
    requires i < WORD
  {
    score * WORD + (WORD - 1 - i)
  }

  /** How selection sees an event: its nearest expert and its loss key. */
  function ViewOf(es: seq<Expert>, e: Event, i: nat, judge: Judge): R.Event
    requires AllShaped(es) && Valid(e) && i < WORD && 0.0 <= judge.residual(es, e)
  {
    R.Event(e.state, e.action, Nearest(e.x, T.Keys(es), judge.s), LossKey(Score(es, e, judge), i))
  }

  method Views(es: seq<Expert>, base: seq<Event>, judge: Judge) returns (views: seq<R.Event>)
    requires AllShaped(es) && JudgeOk(judge) && |base| <= R.BASE_TRAIN_N
    requires forall i :: 0 <= i < |base| ==> Valid(base[i])
    ensures |views| == |base| && forall i :: 0 <= i < |base| ==> views[i] == ViewOf(es, base[i], i, judge)
  {
    views := [];
    for i := 0 to |base|
      invariant |views| == i && forall k :: 0 <= k < i ==> views[k] == ViewOf(es, base[k], k, judge)
    {
      var expert, evaluations := FullNearest(base[i].x, T.Keys(es), judge.s, 0);
      var score := ScoreQ20(judge.residual(es, base[i]));
      views := views + [R.Event(base[i].state, base[i].action, expert, LossKey(score, i))];
    }
  }

  /** Keys are ordered by score, and the earlier event goes first among equals. */
  lemma KeysOrder(x: nat, i: nat, y: nat, j: nat)
    requires i < WORD && j < WORD
    ensures LossKey(x, i) < LossKey(y, j) <==> x < y || (x == y && j < i)
  {
  }

  function Chosen(base: seq<Event>, picks: seq<nat>): (r: seq<Event>)
    requires forall k :: 0 <= k < |picks| ==> picks[k] < |base|
    ensures |r| == |picks|
  {
    seq(|picks|, k requires 0 <= k < |picks| => base[picks[k]])
  }

  /** An event of the same state and action that scores at least as high is among the replayed ones. */
  ghost predicate PairReplayed(es: seq<Expert>, replay: seq<Event>, e: Event, judge: Judge)
    requires JudgeOk(judge)
  {
    exists k :: 0 <= k < |replay| && replay[k].state == e.state && replay[k].action == e.action &&
                Score(es, replay[k], judge) >= Score(es, e, judge)
  }

  /** And one with the same nearest expert. */
  ghost predicate ExpertReplayed(es: seq<Expert>, replay: seq<Event>, e: Event, judge: Judge)
    requires AllShaped(es) && JudgeOk(judge)
  {
    exists k :: 0 <= k < |replay| &&
                Closest(replay[k].x, T.Keys(es), judge.s) == Closest(e.x, T.Keys(es), judge.s) &&
                Score(es, replay[k], judge) >= Score(es, e, judge)
  }

  /** Which training events balanced replay takes, as a selection among the views of all of them. */
  ghost predicate BalancedChoice(es: seq<Expert>, base: seq<Event>, judge: Judge, replay: seq<Event>,
                                 views: seq<R.Event>, picks: seq<nat>, classes: seq<R.Class>)
    requires AllShaped(es) && JudgeOk(judge) && |base| < WORD && forall i :: 0 <= i < |base| ==> Valid(base[i])
  {
    |views| == |base| && (forall i :: 0 <= i < |base| ==> views[i] == ViewOf(es, base[i], i, judge)) &&
    R.Distinct(picks, |base|) && replay == Chosen(base, picks) && R.Selected(views, picks, classes, |es|) &&
    |replay| == if |base| < 256 then |base| else 256
  }

  /** What a balanced choice covers: every pair in the data, and every expert unless the budget ran out. */
  ghost predicate BalancedCover(es: seq<Expert>, base: seq<Event>, judge: Judge, replay: seq<Event>, filled: bool)
    requires AllShaped(es) && JudgeOk(judge) && forall i :: 0 <= i < |base| ==> Valid(base[i])
  {
    (forall i :: 0 <= i < |base| ==> PairReplayed(es, replay, base[i], judge)) &&
    (filled && es != [] ==> forall i :: 0 <= i < |base| ==> ExpertReplayed(es, replay, base[i], judge))
  }

  lemma Covers(es: seq<Expert>, base: seq<Event>, judge: Judge, views: seq<R.Event>, picks: seq<nat>, i: nat, k: nat)
    requires AllShaped(es) && JudgeOk(judge) && |base| < WORD && forall i :: 0 <= i < |base| ==> Valid(base[i])
    requires |views| == |base| && forall i :: 0 <= i < |base| ==> views[i] == ViewOf(es, base[i], i, judge)
    requires R.Distinct(picks, |base|) && i < |base| && k < |picks| && views[picks[k]].loss >= views[i].loss
    ensures var replay := Chosen(base, picks);
            replay[k] == base[picks[k]] && Score(es, replay[k], judge) >= Score(es, base[i], judge)
  {
    KeysOrder(Score(es, base[picks[k]], judge), picks[k], Score(es, base[i], judge), i);
  }

  lemma PairCovered(es: seq<Expert>, base: seq<Event>, judge: Judge, views: seq<R.Event>, picks: seq<nat>, i: nat)
    requires AllShaped(es) && JudgeOk(judge) && |base| < WORD && forall i :: 0 <= i < |base| ==> Valid(base[i])
    requires |views| == |base| && forall i :: 0 <= i < |base| ==> views[i] == ViewOf(es, base[i], i, judge)
    requires R.Distinct(picks, |base|) && i < |base| && R.Covered(views, R.At(views, picks), i)
    ensures PairReplayed(es, Chosen(base, picks), base[i], judge)
  {
    var seen := R.At(views, picks);
    var k :| 0 <= k < |seen| && R.InStratum(seen[k], views[i].state, views[i].action) && seen[k].loss >= views[i].loss;
    Covers(es, base, judge, views, picks, i, k);
  }

  lemma NearestCovered(es: seq<Expert>, base: seq<Event>, judge: Judge, views: seq<R.Event>, picks: seq<nat>, i: nat)
    requires AllShaped(es) && JudgeOk(judge) && |base| < WORD && forall i :: 0 <= i < |base| ==> Valid(base[i])
    requires |views| == |base| && forall i :: 0 <= i < |base| ==> views[i] == ViewOf(es, base[i], i, judge)
    requires R.Distinct(picks, |base|) && i < |base| && es != [] && R.ExpertCovered(views, R.At(views, picks), i)
    ensures ExpertReplayed(es, Chosen(base, picks), base[i], judge)
  {
    var seen := R.At(views, picks);
    var k :| 0 <= k < |seen| && seen[k].expert == views[i].expert && seen[k].loss >= views[i].loss;
    Covers(es, base, judge, views, picks, i, k);
  }

  lemma BalancedCovers(es: seq<Expert>, base: seq<Event>, judge: Judge, views: seq<R.Event>, picks: seq<nat>,
                       filled: bool)
    requires AllShaped(es) && JudgeOk(judge) && |base| < WORD && forall i :: 0 <= i < |base| ==> Valid(base[i])
    requires |views| == |base| && forall i :: 0 <= i < |base| ==> views[i] == ViewOf(es, base[i], i, judge)
    requires R.Distinct(picks, |base|) && forall i :: 0 <= i < |views| ==> R.Covered(views, R.At(views, picks), i)
    requires filled ==> forall i :: 0 <= i < |views| && views[i].expert < |es| ==>
                                    R.ExpertCovered(views, R.At(views, picks), i)
    ensures BalancedCover(es, base, judge, Chosen(base, picks), filled)
  {
    forall i | 0 <= i < |base| ensures PairReplayed(es, Chosen(base, picks), base[i], judge) {
      PairCovered(es, base, judge, views, picks, i);
    }
    if filled && es != [] {
      forall i | 0 <= i < |base| ensures ExpertReplayed(es, Chosen(base, picks), base[i], judge) {
        assert views[i].expert < |es|;
        NearestCovered(es, base, judge, views, picks, i);
      }
    }
  }

  method SelectReplay(es: seq<Expert>, base: seq<Event>, policy: Policy, judge: Judge)
    returns (replay: seq<Event>, ghost views: seq<R.Event>, ghost picks: seq<nat>, ghost classes: seq<R.Class>)
    requires AllShaped(es) && JudgeOk(judge) && |base| <= R.BASE_TRAIN_N
    requires forall i :: 0 <= i < |base| ==> Valid(base[i])
    ensures forall k :: 0 <= k < |replay| ==> replay[k] in base
    ensures |replay| <= 256 && (policy.NoReplay? ==> replay == [])
    ensures policy.Strided? && |base| == 1024 ==>
              |replay| == 256 && forall k :: 0 <= k < 256 ==> replay[k] == base[4 * k]
    ensures policy.Balanced? ==> BalancedChoice(es, base, judge, replay, views, picks, classes)
    ensures policy.Balanced? ==> BalancedCover(es, base, judge, replay, R.FilledIn(classes))
  {
    var seenAs := Views(es, base, judge);
    views, picks, classes := seenAs, [], [];
    match policy {
      case NoReplay => replay := [];
      case Strided =>
        var seen, chosen := R.SelectStrided(seenAs);
        replay, picks := Chosen(base, chosen), chosen;
      case Balanced =>
        var seen, chosen;
        seen, chosen, classes := R.SelectBalanced(seenAs, |es|);
        replay, picks := Chosen(base, chosen), chosen;
        BalancedCovers(es, base, judge, views, picks, R.FilledIn(classes));
    }
  }

  /**
   * Everything in one call. The numeric parts depend on the mixture and the replayed events; the
   * guarantees of the adaptation do not, and the reported objective is that of the final model.
   */
  method Adapt(m: Topology, base: seq<Event>, events: seq<Event>, config: Config, policy: Policy, judge: Judge,
               envOf: (seq<Event>, seq<Event>) -> Env)
    returns (ok: bool, objectiveAfter: nat, ghost replay: seq<Event>, ghost views: seq<R.Event>,
             ghost picks: seq<nat>, ghost classes: seq<R.Class>, ghost run: Run)
    requires m.Valid() && m.experts != [] && |base| <= R.BASE_TRAIN_N && JudgeOk(judge)
    requires forall i :: 0 <= i < |base| ==> Valid(base[i])
    requires forall mix, replay :: EnvOk(envOf(mix, replay))
    requires config.random ==> forall i :: 0 <= i < |events| ==> Valid(events[i])
    modifies m
    ensures m.Valid() && (ok <==> config.births ==> |old(m.experts)| < MAXE && events != [])
    ensures ok ==> m.epoch == NextEpoch(old(m.epoch))
    ensures ok ==> objectiveAfter == envOf(events + replay, replay).objective(m.experts)
    ensures !ok ==> m.experts == old(m.experts) && m.epoch == old(m.epoch)
    ensures m.graph == old(m.graph)
    ensures ok ==> Ran(old(m.experts), m.graph, old(m.epoch), events, config, envOf(events + replay, replay), run,
                       m.experts)
    ensures |replay| <= 256 && (policy.NoReplay? ==> replay == [])
    ensures policy.Strided? && |base| == 1024 ==>
              |replay| == 256 && forall k :: 0 <= k < 256 ==> replay[k] == base[4 * k]
    ensures policy.Balanced? ==> BalancedChoice(old(m.experts), base, judge, replay, views, picks, classes)
    ensures policy.Balanced? ==> BalancedCover(old(m.experts), base, judge, replay, R.FilledIn(classes))
    ensures config.protectBase ==> BaseKept(old(m.experts), m.experts)
    ensures config.protectBase && LinksInRange(old(m.experts)) ==> LinksInRange(m.experts)
  {
    var selected;
    selected, views, picks, classes := SelectReplay(m.experts, base, policy, judge);
    replay := selected;
    var env := envOf(events + selected, selected);
    objectiveAfter := 0;
    ok, run := AdaptModel(m, events, config, env);
    if ok { objectiveAfter := env.objective(m.experts); }
  }
}
