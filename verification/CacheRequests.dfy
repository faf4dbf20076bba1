/** Ownership during a request, and the capacity that rules out getting stuck. */
module CacheRequests {
  import opened CacheModel
  import opened CacheSafety

  // ----- ownership -----------------------------------------------------------------------------

  ghost predicate NoOwners(s: State) { forall id :: id in s.blocks ==> s.blocks[id].owners == {} }

  predicate OwnedOnlyBy(s: State, id: int, owner: string)
    requires id in s.blocks
  {
    s.blocks[id].owners <= {owner}
  }

  /** While a request runs, the blocks it owns are exactly the ids it has recorded. */
  ghost predicate FrameInv(f: Frame, owner: string) {
    Inv(f.state) &&
    (forall id :: id in f.state.blocks ==> OwnedOnlyBy(f.state, id, owner)) &&
    forall id :: id in f.owned <==> id in f.state.blocks && owner in f.state.blocks[id].owners
  }

  predicate SameShape(s: State, s1: State) {
    s1.capacity == s.capacity && s1.clock == s.clock && s1.nextId == s.nextId && s1.blocks.Keys == s.blocks.Keys &&
    s1.order == s.order && s1.index == s.index
  }

  predicate SameButOwners(s: State, s1: State, id: int)
    requires id in s.blocks && id in s1.blocks
  {
    s1.blocks[id] == s.blocks[id].(owners := s1.blocks[id].owners)
  }

  /** Changing owners alone keeps the state invariant. */
  lemma OwnersDoNotMatter(s: State, s1: State)
    requires Inv(s) && SameShape(s, s1)
    requires forall id :: id in s1.blocks ==> SameButOwners(s, s1, id)
    ensures Inv(s1) && |s1.blocks| == |s.blocks|
  {
    assert |s1.blocks.Keys| == |s.blocks.Keys|;
    assert EntriesOk(s1) by {
      forall id | id in s1.blocks ensures BlockOk(s1, id) { assert BlockOk(s, id) && SameButOwners(s, s1, id); }
      forall k | k in s1.index ensures EntryOk(s1, k) { assert EntryOk(s, k) && SameButOwners(s, s1, s.index[k]); }
    }
    forall i, j | i in s1.blocks && j in s1.blocks && i != j ensures UsedApart(s1, i, j) {
      assert UsedApart(s, i, j) && SameButOwners(s, s1, i) && SameButOwners(s, s1, j);
    }
  }

  /** Owned blocks of one group. */
  ghost function OwnedIn(s: State, name: string): set<int> {
    set id | id in s.blocks && s.blocks[id].owners != {} && s.blocks[id].group == name
  }

  ghost predicate InWindow(f: Frame, name: string) {
    name in f.windows && forall id :: id in OwnedIn(f.state, name) ==> id in f.windows[name]
  }

  lemma DisownKeeps(f: Frame, id: int, owner: string)
    requires FrameInv(f, owner)
    ensures FrameInv(Frame(Disown(f.state, id, owner), f.owned - {id}, f.windows), owner)
    ensures SameShape(f.state, Disown(f.state, id, owner))
    ensures forall name :: OwnedIn(Disown(f.state, id, owner), name) == OwnedIn(f.state, name) - {id}
  {
    var s1 := Disown(f.state, id, owner);
    OwnersDoNotMatter(f.state, s1);
    forall i | i in s1.blocks ensures OwnedOnlyBy(s1, i, owner) { assert OwnedOnlyBy(f.state, i, owner); }
    assert id in f.state.blocks ==> OwnedOnlyBy(f.state, id, owner);
    forall name ensures OwnedIn(s1, name) == OwnedIn(f.state, name) - {id} {}
  }

  lemma {:induction false} TrimKeeps(f: Frame, name: string, size: nat, owner: string)
    requires FrameInv(f, owner) && name in f.windows
    decreases |f.windows[name]|
    ensures var g := Trim(f, name, size, owner);
            FrameInv(g, owner) && SameShape(f.state, g.state) && (InWindow(f, name) ==> InWindow(g, name)) &&
            name in g.windows && |g.windows[name]| <= size && g.windows == f.windows[name := g.windows[name]] &&
            forall other :: OwnedIn(g.state, other) <= OwnedIn(f.state, other)
  {
    var window := f.windows[name];
    if |window| > size {
      var f1 := Frame(Disown(f.state, window[0], owner), f.owned - {window[0]}, f.windows[name := window[1..]]);
      DropOldest(f, name, owner);
      TrimKeeps(f1, name, size, owner);
      UpdateTwice(f.windows, name, window[1..], Trim(f1, name, size, owner).windows[name]);
    } else {
      assert f.windows == f.windows[name := window];
    }
  }

  lemma UpdateTwice<K, V>(m: map<K, V>, k: K, v: V, w: V)
    ensures m[k := v][k := w] == m[k := w]
  {
  }

  /** Dropping the oldest entry of a window and the claim on it. */
  lemma DropOldest(f: Frame, name: string, owner: string)
    requires FrameInv(f, owner) && name in f.windows && f.windows[name] != []
    ensures var window := f.windows[name];
            var f1 := Frame(Disown(f.state, window[0], owner), f.owned - {window[0]}, f.windows[name := window[1..]]);
            FrameInv(f1, owner) && SameShape(f.state, f1.state) && (InWindow(f, name) ==> InWindow(f1, name)) &&
            forall other :: OwnedIn(f1.state, other) <= OwnedIn(f.state, other)
  {
    var window := f.windows[name];
    DisownKeeps(f, window[0], owner);
    assert window == [window[0]] + window[1..];
  }

  /** The frame right after an access, before the window moves. */
  lemma AccessFrame(f: Frame, a: Accessed, t: Touch, owner: string)
    requires FrameInv(f, owner) && Inv(a.state) && Holds(f.state, a, t, owner)
    ensures FrameInv(Frame(a.state, f.owned + {a.id}, f.windows), owner)
    ensures forall name ::
              OwnedIn(a.state, name) <= OwnedIn(f.state, name) + if name == t.group.name then {a.id} else {}
  {
    forall id | id in a.state.blocks ensures OwnedOnlyBy(a.state, id, owner) {
      if id in f.state.blocks { assert OwnedOnlyBy(f.state, id, owner); }
    }
    forall name, id | id in OwnedIn(a.state, name)
      ensures id in OwnedIn(f.state, name) || (name == t.group.name && id == a.id)
    {
    }
  }

  // ----- one request ---------------------------------------------------------------------------

  /** Every group that slides has its window. */
  predicate WindowsReady(f: Frame, groups: seq<Group>) {
    forall i :: 0 <= i < |groups| && groups[i].mode.Sliding? ==> groups[i].name in f.windows
  }

  predicate TouchOf(t: Touch, groups: seq<Group>) { KindOk(t) && t.group in groups }

  /** How one served access may change what each group owns. */
  ghost predicate OwnershipStep(f: Frame, g: Frame, t: Touch) {
    (forall name :: name != t.group.name ==>
      OwnedIn(g.state, name) <= OwnedIn(f.state, name) && 
      (name in f.windows ==> name in g.windows && g.windows[name] == f.windows[name])) &&
    (t.group.mode.Full? ==> |OwnedIn(g.state, t.group.name)| <= |OwnedIn(f.state, t.group.name)| + 1) &&
    (t.group.mode.Sliding? && InWindow(f, t.group.name) ==>
      InWindow(g, t.group.name) && |g.windows[t.group.name]| <= t.group.mode.window)
  }

  lemma AdvanceKeeps(f: Frame, a: Accessed, t: Touch, owner: string)
    requires FrameInv(f, owner) && Inv(a.state) && Holds(f.state, a, t, owner)
    requires t.group.mode.Sliding? ==> t.group.name in f.windows
    ensures var f1 := Frame(a.state, f.owned + {a.id}, f.windows);
            AdvanceSliding(f1, t.group, a.id, owner).Ok? &&
            var g := AdvanceSliding(f1, t.group, a.id, owner).value;
            FrameInv(g, owner) && SameShape(a.state, g.state) && g.windows.Keys == f.windows.Keys &&
            OwnershipStep(f, g, t)
  {
    var f1 := Frame(a.state, f.owned + {a.id}, f.windows);
    AccessFrame(f, a, t, owner);
    var name := t.group.name;
    match t.group.mode
    case Full =>
      GrowByOne(OwnedIn(a.state, name), OwnedIn(f.state, name), a.id);
    case Sliding(size) =>
      var f2 := f1.(windows := f.windows[name := f.windows[name] + [a.id]]);
      assert InWindow(f, name) ==> InWindow(f2, name);
      TrimKeeps(f2, name, size, owner);
  }

  lemma GrowByOne(a: set<int>, b: set<int>, id: int)
    requires a <= b + {id}
    ensures |a| <= |b| + 1
  {
    SubsetSize(a, b + {id});
  }

  /** A request fails to be served only when the authority finds no unowned block. */
  lemma ServeOneKeeps(f: Frame, policy: Policy, t: Touch, owner: string)
    requires FrameInv(f, owner) && KindOk(t)
    requires t.group.mode.Sliding? ==> t.group.name in f.windows
    ensures ServeOne(f, policy, t, owner).Raised? <==> Access(f.state, policy, t, owner).Raised?
    ensures ServeOne(f, policy, t, owner).Raised? ==>
              ServeOne(f, policy, t, owner).reason == "no valid eviction plan is available"
    ensures ServeOne(f, policy, t, owner).Ok? ==>
              var (g, events) := ServeOne(f, policy, t, owner).value;
              FrameInv(g, owner) && g.state.capacity == f.state.capacity && g.windows.Keys == f.windows.Keys &&
              OwnershipStep(f, g, t) &&
              forall m :: Accounts(f.state, m) ==> Accounts(g.state, Tally(m, events))
  {
    AccessKeeps(f.state, policy, t, owner);
    if Access(f.state, policy, t, owner).Ok? {
      var a := Access(f.state, policy, t, owner).value;
      AdvanceKeeps(f, a, t, owner);
      var g := AdvanceSliding(Frame(a.state, f.owned + {a.id}, f.windows), t.group, a.id, owner).value;
      assert ServeOne(f, policy, t, owner) == Ok((g, a.events));
      assert |g.state.blocks.Keys| == |a.state.blocks.Keys|;
    }
  }

  predicate TouchesOf(touches: seq<Touch>, groups: seq<Group>) {
    forall i :: 0 <= i < |touches| ==> TouchOf(touches[i], groups)
  }

  lemma ServeSnoc(f: Frame, policy: Policy, touches: seq<Touch>, t: Touch, owner: string)
    ensures Serve(f, policy, touches + [t], owner) ==
            match Serve(f, policy, touches, owner)
            case Raised(reason) => Raised(reason)
            case Ok((f1, events)) =>
              (match ServeOne(f1, policy, t, owner)
               case Raised(reason) => Raised(reason)
               case Ok((f2, more)) => Ok((f2, events + more)))
  {
    assert (touches + [t])[..|touches|] == touches;
  }

  lemma {:induction false} ServeKeeps(f: Frame, policy: Policy, touches: seq<Touch>, owner: string, groups: seq<Group>)
    requires FrameInv(f, owner) && WindowsReady(f, groups) && TouchesOf(touches, groups)
    ensures Serve(f, policy, touches, owner).Raised? ==>
              Serve(f, policy, touches, owner).reason == "no valid eviction plan is available"
    ensures Serve(f, policy, touches, owner).Ok? ==>
              var (g, events) := Serve(f, policy, touches, owner).value;
              FrameInv(g, owner) && g.state.capacity == f.state.capacity && g.windows.Keys == f.windows.Keys &&
              forall m :: Accounts(f.state, m) ==> Accounts(g.state, Tally(m, events))
  {
    if touches != [] {
      var n := |touches| - 1;
      ServeKeeps(f, policy, touches[..n], owner, groups);
      if Serve(f, policy, touches[..n], owner).Ok? {
        var (f1, events) := Serve(f, policy, touches[..n], owner).value;
        assert TouchOf(touches[n], groups);
        ServeOneKeeps(f1, policy, touches[n], owner);
        if ServeOne(f1, policy, touches[n], owner).Ok? {
          var (g, more) := ServeOne(f1, policy, touches[n], owner).value;
          forall m | Accounts(f.state, m) ensures Accounts(g.state, Tally(m, events + more)) {
            TallyConcat(m, events, more);
          }
        }
      }
    }
  }

  lemma {:induction false} PromptTouchesOf(groups: seq<Group>, prompts: seq<string>)
    ensures TouchesOf(PromptTouches(groups, prompts), groups)
  {
    if prompts != [] { PromptTouchesOf(groups, prompts[..|prompts| - 1]); }
  }

  lemma {:induction false} GeneratedTouchesOf(groups: seq<Group>, id: string, count: nat)
    ensures TouchesOf(GeneratedTouches(groups, id, count), groups)
  {
    if count > 0 { GeneratedTouchesOf(groups, id, count - 1); }
  }

  lemma ReleaseKeeps(f: Frame, owner: string)
    requires FrameInv(f, owner)
    ensures var s1 := Release(f.state, f.owned, owner);
            Inv(s1) && NoOwners(s1) && SameShape(f.state, s1)
  {
    var s1 := Release(f.state, f.owned, owner);
    assert s1.blocks.Keys == f.state.blocks.Keys;
    forall id | id in s1.blocks ensures SameButOwners(f.state, s1, id) && s1.blocks[id].owners == {} {
      assert OwnedOnlyBy(f.state, id, owner);
    }
    OwnersDoNotMatter(f.state, s1);
  }

  lemma StartFrame(s: State, groups: seq<Group>, owner: string)
    requires Inv(s) && NoOwners(s)
    ensures FrameInv(Frame(s, {}, WindowsOf(groups)), owner)
    ensures WindowsReady(Frame(s, {}, WindowsOf(groups)), groups)
  {
    forall id | id in s.blocks ensures OwnedOnlyBy(s, id, owner) {}
  }

  /** A served request leaves a valid cache without owners and balanced counters. */
  lemma ProcessKeeps(s: State, groups: seq<Group>, policy: Policy, r: Request)
    requires Inv(s) && NoOwners(s)
    ensures Process(s, groups, policy, r).Raised? ==>
              Process(s, groups, policy, r).reason == "no valid eviction plan is available"
    ensures Process(s, groups, policy, r).Raised? <==>
              Serve(Frame(s, {}, WindowsOf(groups)), policy, Touches(groups, r), r.id).Raised?
    ensures Process(s, groups, policy, r).Ok? ==>
              var (s1, events) := Process(s, groups, policy, r).value;
              Inv(s1) && NoOwners(s1) && s1.capacity == s.capacity &&
              forall m :: Accounts(s, m) ==> Accounts(s1, Tally(m, events))
  {
    var f := Frame(s, {}, WindowsOf(groups));
    StartFrame(s, groups, r.id);
    PromptTouchesOf(groups, r.prompts);
    GeneratedTouchesOf(groups, r.id, GeneratedCount(r));
    ServeKeeps(f, policy, Touches(groups, r), r.id, groups);
    if Serve(f, policy, Touches(groups, r), r.id).Ok? {
      var (g, events) := Serve(f, policy, Touches(groups, r), r.id).value;
      ReleaseKeeps(g, r.id);
      var s1 := Release(g.state, g.owned, r.id);
      InvValidates(s1);
      var last := if CountsAsCancelled(r) then [Cancelled] else [];
      assert |s1.blocks.Keys| == |g.state.blocks.Keys|;
      forall m | Accounts(s, m) ensures Accounts(s1, Tally(m, [Started] + events + last)) {
        RequestTally(s, g.state, m, events, last);
      }
    }
  }

  lemma RequestTally(s: State, s1: State, m: Metrics, events: seq<Event>, last: seq<Event>)
    requires Accounts(s, m) && (last == [] || last == [Cancelled])
    requires forall m' :: Accounts(s, m') ==> Accounts(s1, Tally(m', events))
    ensures Accounts(s1, Tally(m, [Started] + events + last))
  {
    TallyOne(m, Started);
    TallyConcat(m, [Started], events);
    TallyConcat(m, [Started] + events, last);
    if last != [] { TallyOne(Tally(m, [Started] + events), Cancelled); }
    assert Accounts(s, Count(m, Started));
  }

  /** Safety over whole runs: the only exception is the authority's, and every run that ends well
      leaves a valid, ownerless cache whose counters add up. */
  lemma {:induction false} RunSafe(s: State, groups: seq<Group>, policy: Policy, requests: seq<Request>)
    requires Inv(s) && NoOwners(s)
    ensures Run(s, groups, policy, requests).Raised? ==>
              Run(s, groups, policy, requests).reason == "no valid eviction plan is available"
    ensures Run(s, groups, policy, requests).Ok? ==>
              var (s1, events) := Run(s, groups, policy, requests).value;
              Inv(s1) && NoOwners(s1) && s1.capacity == s.capacity &&
              forall m :: Accounts(s, m) ==> Accounts(s1, Tally(m, events))
  {
    if requests != [] {
      var n := |requests| - 1;
      RunSafe(s, groups, policy, requests[..n]);
      if Run(s, groups, policy, requests[..n]).Ok? {
        var (s1, events) := Run(s, groups, policy, requests[..n]).value;
        ProcessKeeps(s1, groups, policy, requests[n]);
        if Process(s1, groups, policy, requests[n]).Ok? {
          var (s2, more) := Process(s1, groups, policy, requests[n]).value;
          forall m | Accounts(s, m) ensures Accounts(s2, Tally(m, events + more)) {
            TallyConcat(m, events, more);
          }
        }
      }
    }
  }

  /** From an empty cache: misses are ids handed out, ids handed out are evictions plus residents. */
  lemma RunFromEmpty(capacity: int, groups: seq<Group>, policy: Policy, requests: seq<Request>)
    requires 1 <= capacity && Run(Empty(capacity), groups, policy, requests).Ok?
    ensures var (s, events) := Run(Empty(capacity), groups, policy, requests).value;
            var m := Tally(NO_METRICS, events);
            Validates(s) && |s.blocks| <= capacity && m.peak <= capacity &&
            m.misses == s.nextId == m.evictions + |s.blocks| && s.clock == m.hits + m.misses &&
            m.rejected == m.fallbacks && m.plannerCalls == m.evictions
  {
    EmptyInv(capacity);
    RunSafe(Empty(capacity), groups, policy, requests);
    assert Accounts(Empty(capacity), NO_METRICS);
    InvValidates(Run(Empty(capacity), groups, policy, requests).value.0);
  }
}
