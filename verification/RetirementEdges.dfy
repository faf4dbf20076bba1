/**
 * Which edges the retirement check sees. The compiled graph is not renumbered when an expert leaves,
 * so from the second retirement on the check reads rows and targets of the starting numbering by
 * the current one.
 */
module RetirementEdges {
  import opened Ravel
  import opened CheckpointFormat
  import opened Router
  import opened Retirement

  /** The index each of the remaining experts had at the start. */
  function Places(n: nat, victims: seq<nat>): (p: seq<nat>)
    requires InReach(n, victims)
    ensures |p| == n - |victims|
  {
    if victims == [] then seq(n, j => j)
    else
      var k := |victims| - 1;
      assert victims[k] + k < n && InReach(n, victims[..k]);
      Moved(Places(n, victims[..k]), victims[k])
  }

  /** The last entry takes the place of the victim's. */
  function Moved(p: seq<nat>, victim: U16): (r: seq<nat>)
    requires victim < |p| <= MAXE
    ensures |r| == |p| - 1
  {
    seq(|p| - 1, j requires 0 <= j < |p| - 1 => p[Origin(j, victim, |p| - 1)])
  }

  lemma BothMove(es: seq<Expert>, p: seq<nat>, victim: U16, j: nat)
    requires victim < |es| == |p| <= MAXE && j < |es| - 1
    ensures var origin := Origin(j, victim, |es| - 1);
            Ident(Removed(es, victim)[j]) == Ident(es[origin]) && Moved(p, victim)[j] == p[origin]
  {
  }

  lemma Shorter(n: nat, victims: seq<nat>)
    requires InReach(n, victims) && victims != []
    ensures InReach(n, victims[..|victims| - 1]) && victims[|victims| - 1] < n - |victims| + 1 <= MAXE
  {
    var k := |victims| - 1;
    assert victims[k] + k < n;
  }

  lemma {:induction false} PlacesNameExperts(start: seq<Expert>, victims: seq<nat>, j: nat)
    requires InReach(|start|, victims) && j < |start| - |victims|
    ensures Places(|start|, victims)[j] < |start|
    ensures Ident(After(start, victims)[j]) == Ident(start[Places(|start|, victims)[j]])
  {
    if victims != [] {
      var k := |victims| - 1;
      Shorter(|start|, victims);
      BothMove(After(start, victims[..k]), Places(|start|, victims[..k]), victims[k], j);
      PlacesNameExperts(start, victims[..k], Origin(j, victims[k], |start| - k - 1));
    }
  }

  /** An expert keeps its index until it is moved to the place of a victim. */
  lemma {:induction false} Unmoved(n: nat, victims: seq<nat>, j: nat)
    requires InReach(n, victims) && j < n - |victims| && j !in victims
    ensures Places(n, victims)[j] == j
  {
    if victims != [] {
      var k := |victims| - 1;
      Shorter(n, victims);
      assert victims[k] in victims;
      Unmoved(n, victims[..k], j);
    }
  }

  /** The index at the start of the expert that left in step `i`. */
  function Retiree(n: nat, victims: seq<nat>, i: nat): nat
    requires InReach(n, victims) && i < |victims|
  {
    assert victims[i] + i < n && InReach(n, victims[..i]);
    Places(n, victims[..i])[victims[i]]
  }

  lemma {:induction false} GoneAt(start: seq<Expert>, victims: seq<nat>, i: nat)
    requires InReach(|start|, victims) && i < |victims|
    ensures InReach(|start|, victims[..i]) && victims[i] < |start| - i
    ensures Gone(start, victims)[i] == Ident(After(start, victims[..i])[victims[i]])
  {
    var k := |victims| - 1;
    assert victims[i] + i < |start|;
    assert victims[k] + k < |start|;
    if i < k {
      assert victims[..k][..i] == victims[..i];
      GoneAt(start, victims[..k], i);
      assert Gone(start, victims)[i] == Gone(start, victims[..k])[i];
    }
  }

  /** No supported edge of the starting graph leads to the expert. */
  predicate EndsNoEdge(graph: seq<seq<Link>>, n: nat, x: nat)
    requires n <= |graph|
  {
    forall j :: 0 <= j < n ==> !LeadsTo(graph[j], x)
  }

  /** The rows of the starting graph whose edges to the retiree the check did not look for. */
  predicate Unread(n: nat, victims: seq<nat>, i: nat, j: nat)
    requires InReach(n, victims) && i < |victims|
  {
    j < n && (Retiree(n, victims, i) != victims[i] || n - i <= j)
  }

  /**
   * What the check leaves open: the expert that left in step `i` ended no supported edge of the
   * starting graph exactly when the rows that were not read have none to it.
   */
  lemma RetireeEndsNoEdgeIff(start: seq<Expert>, graph: seq<seq<Link>>, victims: seq<nat>,
                             objective: seq<Expert> -> nat, i: nat)
    requires |graph| == MAXE && Retiring(start, graph, victims, objective) && i < |victims|
    ensures var n, x := |start|, Retiree(|start|, victims, i);
            x < n && Gone(start, victims)[i] == Ident(start[x]) &&
            (EndsNoEdge(graph, n, x) <==>
             forall j: nat :: Unread(n, victims, i, j) ==> !LeadsTo(graph[j], x))
  {
    GoneAt(start, victims, i);
    PlacesNameExperts(start, victims[..i], victims[i]);
    assert StepAllowed(start, graph, victims, i, objective);
    var n, x := |start|, Retiree(|start|, victims, i);
    if forall j: nat :: Unread(n, victims, i, j) ==> !LeadsTo(graph[j], x) {
      forall j | 0 <= j < n ensures !LeadsTo(graph[j], x) {
        assert Unread(n, victims, i, j) || (x == victims[i] && j < n - i);
      }
    }
  }

  /** The first retirement is checked against the graph as it is. */
  lemma FirstRetireeEndsNoEdge(start: seq<Expert>, graph: seq<seq<Link>>, victims: seq<nat>,
                               objective: seq<Expert> -> nat)
    requires |graph| == MAXE && Retiring(start, graph, victims, objective) && victims != []
    ensures Retiree(|start|, victims, 0) == victims[0] && EndsNoEdge(graph, |start|, victims[0])
  {
    RetireeEndsNoEdgeIff(start, graph, victims, objective, 0);
    assert victims[..0] == [];
  }

  // ----- a condition that can be checked beforehand ----------------------------------------------------------------

  /** No supported edge leads to an expert that may retire. */
  predicate NoEdgeToRetirable(graph: seq<seq<Link>>, start: seq<Expert>)
    requires |start| <= |graph|
  {
    forall x :: 0 <= x < |start| && Retirable(start[x]) ==> EndsNoEdge(graph, |start|, x)
  }

  /**
   * If no supported edge of the graph leads to an expert that may retire, then none leads to any that
   * does, however many leave and however they are moved.
   */
  lemma RetireesEndNoEdge(start: seq<Expert>, graph: seq<seq<Link>>, victims: seq<nat>,
                          objective: seq<Expert> -> nat, i: nat)
    requires |graph| == MAXE && Retiring(start, graph, victims, objective) && i < |victims|
    requires NoEdgeToRetirable(graph, start)
    ensures Retiree(|start|, victims, i) < |start| && EndsNoEdge(graph, |start|, Retiree(|start|, victims, i))
  {
    GoneAt(start, victims, i);
    PlacesNameExperts(start, victims[..i], victims[i]);
    assert StepAllowed(start, graph, victims, i, objective);
    assert Retirable(Ident(After(start, victims[..i])[victims[i]]));
    assert Retirable(start[Retiree(|start|, victims, i)]);
  }
}
