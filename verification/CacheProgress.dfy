/** A capacity that is large enough for one request at a time rules out getting stuck. */
module CacheProgress {
  import opened CacheModel
  import opened CacheSafety
  import opened CacheRequests

  predicate DistinctNames(groups: seq<Group>) {
    forall i, j :: 0 <= i < j < |groups| ==> groups[i].name != groups[j].name
  }

  /** Blocks one request may hold at once: everything in a full group, the window of a sliding one. */
  function Budget(groups: seq<Group>, blocks: nat): nat {
    if groups == [] then 0
    else
      Budget(groups[..|groups| - 1], blocks) +
      match groups[|groups| - 1].mode { case Full => blocks case Sliding(window) => window }
  }

  function FullGroups(groups: seq<Group>): nat {
    if groups == [] then 0
    else FullGroups(groups[..|groups| - 1]) + if groups[|groups| - 1].mode.Full? then 1 else 0
  }

  lemma {:induction false} BudgetFormula(groups: seq<Group>, blocks: nat)
    ensures Budget(groups, blocks) == FullGroups(groups) * blocks + Budget(groups, 0)
  {
    if groups != [] {
      var rest := groups[..|groups| - 1];
      BudgetFormula(rest, blocks);
      assert (FullGroups(rest) + 1) * blocks == FullGroups(rest) * blocks + blocks;
    }
  }

  // ----- accesses per group ----------------------------------------------------------------------

  function Count(touches: seq<Touch>, name: string): nat {
    if touches == [] then 0
    else Count(touches[..|touches| - 1], name) + if touches[|touches| - 1].group.name == name then 1 else 0
  }

  lemma {:induction false} CountConcat(a: seq<Touch>, b: seq<Touch>, name: string)
    ensures Count(a + b, name) == Count(a, name) + Count(b, name)
  {
    if b == [] {
      assert a + b == a;
    } else {
      CountConcat(a, b[..|b| - 1], name);
      assert (a + b)[..|a + b| - 1] == a + b[..|b| - 1];
    }
  }

  lemma {:induction false} CountAcross(groups: seq<Group>, t: seq<Touch>, name: string)
    requires DistinctNames(groups) && |t| == |groups| && forall i :: 0 <= i < |t| ==> t[i].group == groups[i]
    ensures Count(t, name) <= 1
    ensures (forall i :: 0 <= i < |groups| ==> groups[i].name != name) ==> Count(t, name) == 0
  {
    if t != [] {
      var n := |t| - 1;
      CountAcross(groups[..n], t[..n], name);
    }
  }

  lemma {:induction false} CountPrompts(groups: seq<Group>, prompts: seq<string>, name: string)
    requires DistinctNames(groups)
    ensures Count(PromptTouches(groups, prompts), name) <= |prompts|
  {
    if prompts != [] {
      var n := |prompts| - 1;
      var key := prompts[n];
      CountPrompts(groups, prompts[..n], name);
      CountConcat(PromptTouches(groups, prompts[..n]), Across(groups, key, "prompt", "sys:" <= key), name);
      CountAcross(groups, Across(groups, key, "prompt", "sys:" <= key), name);
    }
  }

  lemma {:induction false} CountGenerated(groups: seq<Group>, id: string, count: nat, name: string)
    requires DistinctNames(groups)
    ensures Count(GeneratedTouches(groups, id, count), name) <= count
  {
    if count > 0 {
      CountGenerated(groups, id, count - 1, name);
      var last := Across(groups, GeneratedKey(id, count - 1), "generated", false);
      CountConcat(GeneratedTouches(groups, id, count - 1), last, name);
      CountAcross(groups, last, name);
    }
  }

  // ----- what a request owns ---------------------------------------------------------------------

  ghost predicate GroupBound(f: Frame, group: Group, touches: seq<Touch>) {
    match group.mode
    case Full => |OwnedIn(f.state, group.name)| <= Count(touches, group.name)
    case Sliding(window) => InWindow(f, group.name) && |f.windows[group.name]| <= window
  }

  /** Owned blocks of a sliding group lie in its window; a full group owns what it has accessed. */
  ghost predicate Bounded(f: Frame, groups: seq<Group>, touches: seq<Touch>) {
    (forall name :: (forall i :: 0 <= i < |groups| ==> groups[i].name != name) ==> OwnedIn(f.state, name) == {}) &&
    forall i :: 0 <= i < |groups| ==> GroupBound(f, groups[i], touches)
  }

  ghost function OwnedUpTo(s: State, groups: seq<Group>): set<int> {
    set id, i | id in s.blocks && s.blocks[id].owners != {} && 0 <= i < |groups| &&
                s.blocks[id].group == groups[i].name :: id
  }

  lemma OwnedInLimit(f: Frame, group: Group, touches: seq<Touch>, blocks: nat)
    requires GroupBound(f, group, touches) && Count(touches, group.name) <= blocks
    ensures |OwnedIn(f.state, group.name)| <= Budget([group], blocks)
  {
    assert [group][..0] == [];
    if group.mode.Sliding? {
      var window := f.windows[group.name];
      SetOfSeq(window);
      forall id | id in OwnedIn(f.state, group.name) ensures id in window {}
      SubsetSize(OwnedIn(f.state, group.name), set id | id in window);
    }
  }

  lemma OwnedSplit(s: State, groups: seq<Group>)
    requires groups != []
    ensures var n := |groups| - 1;
            OwnedUpTo(s, groups) <= OwnedUpTo(s, groups[..n]) + OwnedIn(s, groups[n].name)
  {
    var n := |groups| - 1;
    forall id | id in OwnedUpTo(s, groups) ensures id in OwnedUpTo(s, groups[..n]) + OwnedIn(s, groups[n].name) {
      var i :| 0 <= i < |groups| && s.blocks[id].group == groups[i].name;
      if i < n { assert groups[..n][i] == groups[i]; }
    }
  }

  lemma {:induction false} OwnedFitsBudget(f: Frame, groups: seq<Group>, touches: seq<Touch>, blocks: nat)
    requires forall i :: 0 <= i < |groups| ==> GroupBound(f, groups[i], touches)
    requires forall i :: 0 <= i < |groups| ==> Count(touches, groups[i].name) <= blocks
    ensures |OwnedUpTo(f.state, groups)| <= Budget(groups, blocks)
  {
    if groups == [] {
      assert OwnedUpTo(f.state, groups) == {};
    } else {
      var n := |groups| - 1;
      OwnedFitsBudget(f, groups[..n], touches, blocks);
      OwnedInLimit(f, groups[n], touches, blocks);
      assert [groups[n]][..0] == [];
      var a, b := OwnedUpTo(f.state, groups[..n]), OwnedIn(f.state, groups[n].name);
      OwnedSplit(f.state, groups);
      SubsetSize(OwnedUpTo(f.state, groups), a + b);
    }
  }

  /** While a request stays within its budget some block is unowned whenever the cache is full. */
  lemma SomeUnowned(f: Frame, groups: seq<Group>, touches: seq<Touch>, blocks: nat, owner: string)
    requires FrameInv(f, owner) && Bounded(f, groups, touches)
    requires CountsWithin(touches, groups, blocks)
    requires Budget(groups, blocks) < f.state.capacity <= |f.state.blocks|
    ensures |Unowned(f.state)| > 0
  {
    var s := f.state;
    OwnedFitsBudget(f, groups, touches, blocks);
    if |Unowned(s)| == 0 {
      forall id | id in s.blocks.Keys ensures id in OwnedUpTo(s, groups) {
        assert id in s.order && id !in Unowned(s);
        assert id in OwnedIn(s, s.blocks[id].group);
      }
      SubsetSize(s.blocks.Keys, OwnedUpTo(s, groups));
    }
  }

  lemma BoundedStep(f: Frame, g: Frame, t: Touch, groups: seq<Group>, touches: seq<Touch>)
    requires DistinctNames(groups) && t.group in groups && Bounded(f, groups, touches) && OwnershipStep(f, g, t)
    ensures Bounded(g, groups, touches + [t])
  {
    forall name | forall i :: 0 <= i < |groups| ==> groups[i].name != name ensures OwnedIn(g.state, name) == {} {
      var k :| 0 <= k < |groups| && groups[k] == t.group;
      assert OwnedIn(f.state, name) == {} && name != groups[k].name;
    }
    forall i | 0 <= i < |groups| ensures GroupBound(g, groups[i], touches + [t]) {
      var name := groups[i].name;
      assert GroupBound(f, groups[i], touches);
      assert (touches + [t])[..|touches|] == touches;
      if name != t.group.name {
        assert OwnedIn(g.state, name) <= OwnedIn(f.state, name);
        SubsetSize(OwnedIn(g.state, name), OwnedIn(f.state, name));
      } else {
        var k :| 0 <= k < |groups| && groups[k] == t.group;
        assert k == i;
      }
    }
  }

  lemma {:induction false} ServeProgress(f: Frame, policy: Policy, touches: seq<Touch>, owner: string,
                                         groups: seq<Group>, blocks: nat)
    requires FrameInv(f, owner) && WindowsReady(f, groups) && TouchesOf(touches, groups)
    requires DistinctNames(groups) && Bounded(f, groups, []) && Budget(groups, blocks) < f.state.capacity
    requires CountsWithin(touches, groups, blocks)
    ensures Serve(f, policy, touches, owner).Ok?
    ensures var g := Serve(f, policy, touches, owner).value.0;
            FrameInv(g, owner) && Bounded(g, groups, touches) && WindowsReady(g, groups) &&
            g.state.capacity == f.state.capacity
  {
    if touches != [] {
      var before, t := touches[..|touches| - 1], touches[|touches| - 1];
      assert touches == before + [t];
      CountsBefore(before, t, groups, blocks);
      ServeProgress(f, policy, before, owner, groups, blocks);
      ServeSnoc(f, policy, before, t, owner);
      ServeOneProgress(Serve(f, policy, before, owner).value.0, policy, before, t, owner, groups, blocks);
    }
  }

  predicate CountsWithin(touches: seq<Touch>, groups: seq<Group>, blocks: nat) {
    forall i :: 0 <= i < |groups| ==> Count(touches, groups[i].name) <= blocks
  }

  lemma CountsBefore(before: seq<Touch>, t: Touch, groups: seq<Group>, blocks: nat)
    requires CountsWithin(before + [t], groups, blocks) && TouchesOf(before + [t], groups)
    ensures CountsWithin(before, groups, blocks) && TouchesOf(before, groups) && TouchOf(t, groups)
  {
    forall i | 0 <= i < |groups| ensures Count(before, groups[i].name) <= blocks {
      CountConcat(before, [t], groups[i].name);
    }
    forall i | 0 <= i < |before| ensures TouchOf(before[i], groups) { assert before[i] == (before + [t])[i]; }
    assert (before + [t])[|before|] == t;
  }

  lemma ServeOneProgress(f: Frame, policy: Policy, before: seq<Touch>, t: Touch, owner: string,
                         groups: seq<Group>, blocks: nat)
    requires FrameInv(f, owner) && WindowsReady(f, groups) && TouchOf(t, groups)
    requires DistinctNames(groups) && Bounded(f, groups, before) && Budget(groups, blocks) < f.state.capacity
    requires CountsWithin(before, groups, blocks)
    ensures ServeOne(f, policy, t, owner).Ok?
    ensures var g := ServeOne(f, policy, t, owner).value.0;
            FrameInv(g, owner) && Bounded(g, groups, before + [t]) && WindowsReady(g, groups) &&
            g.state.capacity == f.state.capacity
  {
    ServeOneKeeps(f, policy, t, owner);
    assert Access(f.state, policy, t, owner).Ok? by {
      AccessKeeps(f.state, policy, t, owner);
      if |f.state.blocks| >= f.state.capacity { SomeUnowned(f, groups, before, blocks, owner); }
    }
    var (g, events) := ServeOne(f, policy, t, owner).value;
    BoundedStep(f, g, t, groups, before);
  }

  ghost predicate FitsBudget(s: State, groups: seq<Group>, r: Request) {
    Budget(groups, |r.prompts| + r.generated) < s.capacity
  }

  lemma StartBounded(s: State, groups: seq<Group>)
    requires NoOwners(s)
    ensures Bounded(Frame(s, {}, WindowsOf(groups)), groups, [])
  {
    var f := Frame(s, {}, WindowsOf(groups));
    forall name ensures OwnedIn(s, name) == {} {
      assert forall id :: id !in OwnedIn(s, name);
    }
    forall i | 0 <= i < |groups| ensures GroupBound(f, groups[i], []) {
      StartGroup(f, groups[i]);
    }
  }

  lemma StartGroup(f: Frame, group: Group)
    requires OwnedIn(f.state, group.name) == {}
    requires group.mode.Sliding? ==> group.name in f.windows && f.windows[group.name] == []
    ensures GroupBound(f, group, [])
  {
  }

  lemma CountRequest(groups: seq<Group>, r: Request, name: string)
    requires DistinctNames(groups)
    ensures Count(Touches(groups, r), name) <= |r.prompts| + r.generated
  {
    CountPrompts(groups, r.prompts, name);
    CountGenerated(groups, r.id, GeneratedCount(r), name);
    CountConcat(PromptTouches(groups, r.prompts), GeneratedTouches(groups, r.id, GeneratedCount(r)), name);
  }

  /** A request within budget never raises, whatever the policy proposes. */
  lemma ProcessProgress(s: State, groups: seq<Group>, policy: Policy, r: Request)
    requires Inv(s) && NoOwners(s) && DistinctNames(groups) && FitsBudget(s, groups, r)
    ensures Process(s, groups, policy, r).Ok?
  {
    RequestServed(s, groups, policy, r);
    ProcessKeeps(s, groups, policy, r);
  }

  lemma RequestServed(s: State, groups: seq<Group>, policy: Policy, r: Request)
    requires Inv(s) && NoOwners(s) && DistinctNames(groups) && FitsBudget(s, groups, r)
    ensures Serve(Frame(s, {}, WindowsOf(groups)), policy, Touches(groups, r), r.id).Ok?
  {
    RequestCounts(groups, r);
    TouchesServed(s, groups, policy, Touches(groups, r), r.id, |r.prompts| + r.generated);
  }

  lemma TouchesServed(s: State, groups: seq<Group>, policy: Policy, touches: seq<Touch>, owner: string, blocks: nat)
    requires Inv(s) && NoOwners(s) && DistinctNames(groups) && Budget(groups, blocks) < s.capacity
    requires TouchesOf(touches, groups) && CountsWithin(touches, groups, blocks)
    ensures Serve(Frame(s, {}, WindowsOf(groups)), policy, touches, owner).Ok?
  {
    StartFrame(s, groups, owner);
    StartBounded(s, groups);
    ServeProgress(Frame(s, {}, WindowsOf(groups)), policy, touches, owner, groups, blocks);
  }

  lemma RequestCounts(groups: seq<Group>, r: Request)
    requires DistinctNames(groups)
    ensures CountsWithin(Touches(groups, r), groups, |r.prompts| + r.generated)
    ensures TouchesOf(Touches(groups, r), groups)
  {
    PromptTouchesOf(groups, r.prompts);
    GeneratedTouchesOf(groups, r.id, GeneratedCount(r));
    forall i | 0 <= i < |groups| ensures Count(Touches(groups, r), groups[i].name) <= |r.prompts| + r.generated {
      CountRequest(groups, r, groups[i].name);
    }
  }

  /** Progress over whole runs. */
  lemma {:induction false} RunNeverRaises(s: State, groups: seq<Group>, policy: Policy, requests: seq<Request>)
    requires Inv(s) && NoOwners(s) && DistinctNames(groups)
    requires forall i :: 0 <= i < |requests| ==> FitsBudget(s, groups, requests[i])
    ensures Run(s, groups, policy, requests).Ok?
  {
    if requests != [] {
      var n := |requests| - 1;
      RunNeverRaises(s, groups, policy, requests[..n]);
      RunSafe(s, groups, policy, requests[..n]);
      assert FitsBudget(s, groups, requests[n]);
      ProcessProgress(Run(s, groups, policy, requests[..n]).value.0, groups, policy, requests[n]);
    }
  }
}
