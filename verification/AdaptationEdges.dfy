/**
 * The program compiles the graph of a model whose experts are all anchored and adapts it afterwards,
 * in one variant several times. In such a run no supported edge ever leads to an expert that retires,
 * although the graph is never renumbered.
 */
module AdaptationEdges {
  import opened Ravel
  import opened CheckpointFormat
  import opened Retirement
  import opened RetirementEdges
  import opened Refinement
  import opened Adaptation
  import T = CheckpointTables

  predicate AllAnchored(es: seq<Expert>) { forall j :: 0 <= j < |es| ==> es[j].anchored != 0 }

  /** The first `n0` experts are anchored, and every supported edge leads to one of them. */
  predicate EdgesToBase(es: seq<Expert>, graph: seq<seq<Link>>, n0: nat)
    requires |graph| == MAXE
  {
    n0 <= |es| && (forall j :: 0 <= j < n0 ==> es[j].anchored != 0) &&
    forall j, x :: 0 <= j < MAXE && n0 <= x < MAXE ==> !LeadsTo(graph[j], x)
  }

  lemma CompiledEdges(graph: seq<seq<Link>>, base: seq<Expert>)
    requires T.AllShaped(base) && T.Compiled(graph, base) && AllAnchored(base)
    ensures EdgesToBase(base, graph, |base|)
  {
    forall j, x | 0 <= j < MAXE && |base| <= x < MAXE ensures !LeadsTo(graph[j], x) {
      if j < |base| { T.EdgesPass(base[j], T.Keys(base)); }
    }
  }

  /** Births come behind the base, and no pass touches the flag. */
  lemma IdentitiesKeepEdges(es: seq<Expert>, r: seq<Expert>, graph: seq<seq<Link>>, n0: nat)
    requires |graph| == MAXE && EdgesToBase(es, graph, n0) && Identities(es, r)
    ensures EdgesToBase(r, graph, n0)
  {
    forall j | 0 <= j < n0 ensures r[j].anchored != 0 {
      assert SameIdentity(es[j], r[j]);
    }
  }

  /** What a deletion moves lands behind the base. */
  lemma {:induction false} RetirementsKeepEdges(start: seq<Expert>, graph: seq<seq<Link>>, victims: seq<nat>,
                                                objective: seq<Expert> -> nat, n0: nat)
    requires |graph| == MAXE && Retiring(start, graph, victims, objective) && EdgesToBase(start, graph, n0)
    ensures EdgesToBase(After(start, victims), graph, n0)
  {
    if victims != [] {
      var k := |victims| - 1;
      var es, victim := After(start, victims[..k]), victims[k];
      RetireLess(start, graph, victims, objective);
      RetirementsKeepEdges(start, graph, victims[..k], objective, n0);
      assert victim >= n0;
      forall j | 0 <= j < n0 ensures Removed(es, victim)[j].anchored != 0 {
        assert Origin(j, victim, |es| - 1) == j;
      }
    }
  }

  lemma EdgesToBaseMeets(es: seq<Expert>, graph: seq<seq<Link>>, n0: nat)
    requires |graph| == MAXE && EdgesToBase(es, graph, n0) && |es| <= MAXE
    ensures NoEdgeToRetirable(graph, es)
  {
    forall x, j | 0 <= x < |es| && Retirable(es[x]) && 0 <= j < |es| ensures !LeadsTo(graph[j], x) {
      assert n0 <= x;
    }
  }

  /**
   * One adaptation of a model whose edges lead to its base: nobody who retires ends a supported edge, and
   * the edges still lead to the base, so the same holds for the next adaptation.
   */
  method AdaptMore(m: Topology, events: seq<Event>, config: Config, env: Env, ghost n0: nat)
    returns (ok: bool, ghost run: Run)
    requires m.Valid() && m.experts != [] && EnvOk(env) && EdgesToBase(m.experts, m.graph, n0)
    requires config.random ==> forall i :: 0 <= i < |events| ==> Valid(events[i])
    modifies m
    ensures m.Valid() && m.graph == old(m.graph)
    ensures ok ==> Ran(old(m.experts), m.graph, old(m.epoch), events, config, env, run, m.experts)
    ensures Retiring(run.before, m.graph, run.victims, env.objective) && m.experts == After(run.before, run.victims)
    ensures forall i :: 0 <= i < |run.victims| ==>
              EndsNoEdge(m.graph, |run.before|, Retiree(|run.before|, run.victims, i))
    ensures EdgesToBase(m.experts, m.graph, n0)
  {
    ghost var es := m.experts;
    ok, run := AdaptModel(m, events, config, env);
    ghost var before, victims := run.before, run.victims;
    IdentitiesKeepEdges(es, before, m.graph, n0);
    EdgesToBaseMeets(before, m.graph, n0);
    RetirementsKeepEdges(before, m.graph, victims, env.objective, n0);
    forall i | 0 <= i < |victims| ensures EndsNoEdge(m.graph, |before|, Retiree(|before|, victims, i)) {
      RetireesEndNoEdge(before, m.graph, victims, env.objective, i);
    }
  }

  /** Compiles the graph of an anchored base and adapts the model any number of times. */
  method AdaptBase(m: Topology, rounds: seq<(seq<Event>, Config, Env)>)
    requires m.Valid() && m.experts != [] && AllAnchored(m.experts)
    requires forall k :: 0 <= k < |rounds| ==> RoundOk(rounds[k])
    modifies m
    ensures m.Valid() && T.AllShaped(old(m.experts)) && T.Compiled(m.graph, old(m.experts))
    ensures EdgesToBase(m.experts, m.graph, |old(m.experts)|)
  {
    ghost var base := m.experts;
    m.graph := T.CompileGraph(m.experts);
    CompiledEdges(m.graph, base);
    for k := 0 to |rounds|
      invariant m.Valid() && m.experts != [] && T.Compiled(m.graph, base)
      invariant EdgesToBase(m.experts, m.graph, |base|)
    {
      var (events, config, env) := rounds[k];
      assert RoundOk(rounds[k]);
      ghost var run;
      var ok;
      ok, run := AdaptMore(m, events, config, env, |base|);
    }
  }

  ghost predicate RoundOk(round: (seq<Event>, Config, Env)) {
    EnvOk(round.2) && (round.1.random ==> forall i :: 0 <= i < |round.0| ==> Valid(round.0[i]))
  }
}
