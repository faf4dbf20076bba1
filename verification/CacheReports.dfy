/** What the study counts: every access, and every run, in terms of the cache alone. */
module CacheReports {
  import opened CacheModel
  import opened CacheSafety
  import opened CacheRequests
  import opened CacheRecency
  import opened CacheWindows

  function Larger(a: nat, b: nat): nat { if a < b then b else a }

  /** A proposal of one victim is refused if it repeats an id or does not start with an unowned block. */
  predicate Refused(s: State, ids: seq<int>) {
    |ids| == 0 || (exists i, j :: 0 <= i < j < |ids| && ids[i] == ids[j]) || ids[0] !in s.blocks ||
    s.blocks[ids[0]].owners != {}
  }

  lemma RefusedIff(s: State, ids: seq<int>)
    ensures ValidProposal(s, ids, 1) <==> !Refused(s, ids)
  {
  }

  /**
   * The counters after one access. A refused plan is one more rejection and fallback, and the candidates looked
   * at are those of the policy and, after a refusal, every unowned block.
   */
  lemma AccessCounts(s: State, policy: Policy, t: Touch, owner: string, m: Metrics)
    requires Inv(s) && KindOk(t) && Access(s, policy, t, owner).Ok?
    ensures var a := Access(s, policy, t, owner).value;
            var (ids, looked) := policy(s.(clock := s.clock + 1), 1);
            var refused := Refused(s, ids);
            Tally(m, a.events) ==
            if (t.group.name, t.key) in s.index then m.(hits := m.hits + 1)
            else if |s.blocks| < s.capacity then
              m.(misses := m.misses + 1, recomputed := m.recomputed + 1, peak := Larger(m.peak, |a.state.blocks|))
            else
              m.(misses := m.misses + 1, recomputed := m.recomputed + 1, peak := Larger(m.peak, |a.state.blocks|),
                 plannerCalls := m.plannerCalls + 1, evictions := m.evictions + 1,
                 inspected := m.inspected + looked + (if refused then |Unowned(s)| else 0),
                 rejected := m.rejected + (if refused then 1 else 0),
                 fallbacks := m.fallbacks + if refused then 1 else 0)
  {
    hide Tally, Count, Access, Refused;
    var a := Access(s, policy, t, owner).value;
    AccessEvents(s, policy, t, owner);
    if (t.group.name, t.key) in s.index {
      TallyHit(m);
    } else if |s.blocks| < s.capacity {
      TallyFree(m, |a.state.blocks|);
    } else {
      var (ids, looked) := policy(s.(clock := s.clock + 1), 1);
      var refused := Refused(s, ids);
      TallyMiss(m, looked + (if refused then |Unowned(s)| else 0), refused, |a.state.blocks|);
    }
  }

  lemma AccessEvents(s: State, policy: Policy, t: Touch, owner: string)
    requires Inv(s) && KindOk(t) && Access(s, policy, t, owner).Ok?
    ensures var a := Access(s, policy, t, owner).value;
            var (ids, looked) := policy(s.(clock := s.clock + 1), 1);
            var refused := Refused(s, ids);
            a.events ==
            if (t.group.name, t.key) in s.index then [Hit]
            else if |s.blocks| < s.capacity then [Miss, Resident(|a.state.blocks|)]
            else [Miss, Planned(looked + (if refused then |Unowned(s)| else 0), refused), Evicted,
                  Resident(|a.state.blocks|)]
  {
    hide Access, MakeRoom, Inv, Unowned;
    if (t.group.name, t.key) in s.index {
      Indexed(s, (t.group.name, t.key));
      HitAccess(s, policy, t, owner);
    } else {
      MissOutcome(s, policy, t, owner);
      MissAccess(s, policy, t, owner);
      TickInv(s);
      RoomEvents(s.(clock := s.clock + 1), policy);
    }
  }

  lemma Indexed(s: State, identity: (string, string))
    requires Inv(s) && identity in s.index
    ensures s.index[identity] in s.blocks
  {
    assert EntryOk(s, identity);
  }

  lemma RoomEvents(s: State, policy: Policy)
    requires Inv(s) && MakeRoom(s, policy).Ok?
    ensures var (ids, looked) := policy(s, 1);
            var refused := Refused(s, ids);
            MakeRoom(s, policy).value.1 ==
            if |s.blocks| < s.capacity then []
            else [Planned(looked + (if refused then |Unowned(s)| else 0), refused), Evicted]
  {
    hide MakeRoom, Inv, RankedProposal, Evict, EvictAll, ValidProposal, Refused, Unowned;
    MakeRoomKeeps(s, policy);
    if |s.blocks| >= s.capacity {
      var (ids, looked) := policy(s, 1);
      RefusedIff(s, ids);
      RankedProposalLeast(LruRank, s, 1);
      AuthorizeIff(s, policy, 1);
      MakeRoomFull(s, policy);
      var victims := Authorize(s, policy, 1).value.0;
      assert victims == [victims[0]];
      EvictOne(s, victims[0]);
    }
  }

  lemma TallyHit(m: Metrics)
    ensures Tally(m, [Hit]) == m.(hits := m.hits + 1)
  {
    TallyOne(m, Hit);
  }

  lemma TallyFree(m: Metrics, resident: nat)
    ensures Tally(m, [Miss, Resident(resident)]) ==
            m.(misses := m.misses + 1, recomputed := m.recomputed + 1, peak := Larger(m.peak, resident))
  {
    TallyPair(m, Miss, Resident(resident));
  }

  lemma TallyPair(m: Metrics, x: Event, y: Event)
    ensures Tally(m, [x, y]) == Count(Count(m, x), y)
  {
    assert [x, y] == [x] + [y];
    TallyConcat(m, [x], [y]);
    TallyOne(m, x);
    TallyOne(Count(m, x), y);
  }

  lemma TallyMiss(m: Metrics, looked: nat, refused: bool, resident: nat)
    ensures Tally(m, [Miss, Planned(looked, refused), Evicted, Resident(resident)]) ==
            m.(misses := m.misses + 1, recomputed := m.recomputed + 1, peak := Larger(m.peak, resident),
               plannerCalls := m.plannerCalls + 1, evictions := m.evictions + 1, inspected := m.inspected + looked,
               rejected := m.rejected + (if refused then 1 else 0), fallbacks := m.fallbacks + if refused then 1 else 0)
  {
    TallyPair(m, Miss, Planned(looked, refused));
    var m1 := Count(Count(m, Miss), Planned(looked, refused));
    TallyPair(m1, Evicted, Resident(resident));
    TallyConcat(m, [Miss, Planned(looked, refused)], [Evicted, Resident(resident)]);
    assert [Miss, Planned(looked, refused)] + [Evicted, Resident(resident)] ==
           [Miss, Planned(looked, refused), Evicted, Resident(resident)];
  }

  // ----- over a run ---------------------------------------------------------------------------------------------

  function CancelledOf(requests: seq<Request>): nat {
    if requests == [] then 0
    else
      var r := requests[|requests| - 1];
      CancelledOf(requests[..|requests| - 1]) +
      if r.cancelAfter.Some? && r.cancelAfter.value <= r.generated then 1 else 0
  }

  /** One access a block and group: all prompts, and generated blocks up to the cancellation. */
  function AccessesOf(groups: seq<Group>, requests: seq<Request>): nat {
    if requests == [] then 0
    else
      var r := requests[|requests| - 1];
      var made := if r.cancelAfter.Some? && r.cancelAfter.value < r.generated then r.cancelAfter.value else r.generated;
      AccessesOf(groups, requests[..|requests| - 1]) + (|r.prompts| * |groups| + made * |groups|)
  }

  /** The counters that do not depend on the policy. */
  predicate Moved(m: Metrics, m1: Metrics, accesses: nat, resident: nat) {
    m1.requests == m.requests && m1.cancelled == m.cancelled && m1.peak == resident &&
    m1.hits + m1.misses == m.hits + m.misses + accesses
  }

  /** The cache never shrinks, so that its peak is its present size. */
  lemma AccessMoves(s: State, policy: Policy, t: Touch, owner: string, m: Metrics)
    requires Inv(s) && KindOk(t) && Access(s, policy, t, owner).Ok? && m.peak == |s.blocks|
    ensures var a := Access(s, policy, t, owner).value; Moved(m, Tally(m, a.events), 1, |a.state.blocks|)
  {
    hide Inv, Access, Refused, Unowned;
    AccessCounts(s, policy, t, owner, m);
    NeverShrinks(s, policy, t, owner);
  }

  lemma NeverShrinks(s: State, policy: Policy, t: Touch, owner: string)
    requires Inv(s) && KindOk(t) && Access(s, policy, t, owner).Ok?
    ensures var n, n1 := |s.blocks|, |Access(s, policy, t, owner).value.state.blocks|;
            n1 == if (t.group.name, t.key) in s.index || n >= s.capacity then n else n + 1
  {
    hide Access, MakeRoom;
    if (t.group.name, t.key) in s.index {
      HitTouches(s, policy, t, owner);
      var s1 := Access(s, policy, t, owner).value.state;
      assert |s.blocks.Keys| == |s.blocks| && |s1.blocks.Keys| == |s1.blocks|;
    } else {
      MissOutcome(s, policy, t, owner);
      MissAccess(s, policy, t, owner);
      TickInv(s);
      var s1 := s.(clock := s.clock + 1);
      MakeRoomKeeps(s1, policy);
      var s2 := MakeRoom(s1, policy).value.0;
      forall id | id in s2.blocks ensures id < s2.nextId { assert BlockOk(s2, id); }
    }
  }

  lemma AdvanceSize(f: Frame, group: Group, id: int, owner: string)
    requires AdvanceSliding(f, group, id, owner).Ok?
    ensures |AdvanceSliding(f, group, id, owner).value.state.blocks| == |f.state.blocks|
  {
    if group.mode.Sliding? {
      var f1 := f.(windows := f.windows[group.name := f.windows[group.name] + [id]]);
      TrimOwners(f1, group.name, group.mode.window, owner);
      var g := Trim(f1, group.name, group.mode.window, owner);
      assert |g.state.blocks.Keys| == |g.state.blocks| && |f.state.blocks.Keys| == |f.state.blocks|;
    }
  }

  lemma {:induction false} ServeMoves(f: Frame, policy: Policy, touches: seq<Touch>, owner: string,
                                      groups: seq<Group>, m: Metrics)
    requires FrameInv(f, owner) && WindowsReady(f, groups) && TouchesOf(touches, groups) && m.peak == |f.state.blocks|
    requires Serve(f, policy, touches, owner).Ok?
    ensures var (g, events) := Serve(f, policy, touches, owner).value;
            Moved(m, Tally(m, events), |touches|, |g.state.blocks|)
  {
    hide FrameInv, WindowsReady, Access, AdvanceSliding, Count;
    if touches != [] {
      var n := |touches| - 1;
      var before, t := touches[..n], touches[n];
      assert TouchOf(t, groups);
      ServeKeeps(f, policy, before, owner, groups);
      ServeMoves(f, policy, before, owner, groups, m);
      var (f1, events) := Serve(f, policy, before, owner).value;
      FrameState(f1, owner);
      var a := Access(f1.state, policy, t, owner).value;
      AccessMoves(f1.state, policy, t, owner, Tally(m, events));
      AdvanceSize(Frame(a.state, f1.owned + {a.id}, f1.windows), t.group, a.id, owner);
      TallyConcat(m, events, a.events);
    }
  }

  lemma FrameState(f: Frame, owner: string)
    requires FrameInv(f, owner)
    ensures Inv(f.state)
  {
  }

  lemma ProcessMoves(s: State, groups: seq<Group>, policy: Policy, r: Request, m: Metrics)
    requires Inv(s) && NoOwners(s) && Process(s, groups, policy, r).Ok? && m.peak == |s.blocks|
    ensures var (s1, events) := Process(s, groups, policy, r).value;
            var m1 := Tally(m, events);
            m1.requests == m.requests + 1 && m1.cancelled == m.cancelled + CancelledOf([r]) &&
            m1.peak == |s1.blocks| && m1.hits + m1.misses == m.hits + m.misses + AccessesOf(groups, [r])
  {
    hide Inv, NoOwners, Serve, Touches, Validates, FrameInv, WindowsReady, TouchesOf;
    var f := Frame(s, {}, WindowsOf(groups));
    var touches := Touches(groups, r);
    StartFrame(s, groups, r.id);
    TouchesKnown(groups, r);
    var (g, events) := Serve(f, policy, touches, r.id).value;
    var last := if CountsAsCancelled(r) then [Cancelled] else [];
    TallyOne(m, Started);
    var m0 := Count(m, Started);
    ServeMoves(f, policy, touches, r.id, groups, m0);
    TallyConcat(m, [Started], events);
    TallyConcat(m, [Started] + events, last);
    var m1 := Tally(m0, events);
    if last != [] { TallyOne(m1, Cancelled); }
    RequestAccesses(groups, r);
    ReleaseSize(g.state, g.owned, r.id);
  }

  lemma ReleaseSize(s: State, owned: set<int>, owner: string)
    ensures |Release(s, owned, owner).blocks| == |s.blocks|
  {
    assert Release(s, owned, owner).blocks.Keys == s.blocks.Keys;
    assert |Release(s, owned, owner).blocks.Keys| == |s.blocks.Keys|;
  }

  lemma RequestAccesses(groups: seq<Group>, r: Request)
    ensures |Touches(groups, r)| == AccessesOf(groups, [r])
    ensures CancelledOf([r]) == if CountsAsCancelled(r) then 1 else 0
  {
    PromptLength(groups, r.prompts);
    GeneratedLength(groups, r.id, GeneratedCount(r));
    assert [r][..0] == [];
  }

  /** Over any run from an empty cache. */
  lemma {:induction false} RunCounts(capacity: int, groups: seq<Group>, policy: Policy, requests: seq<Request>)
    requires 1 <= capacity && Run(Empty(capacity), groups, policy, requests).Ok?
    ensures var (s, events) := Run(Empty(capacity), groups, policy, requests).value;
            var m := Tally(NO_METRICS, events);
            m.requests == |requests| && m.cancelled == CancelledOf(requests) && m.peak == |s.blocks| &&
            m.hits + m.misses == AccessesOf(groups, requests)
  {
    hide Process, Inv, NoOwners, Count;
    if requests != [] {
      var n := |requests| - 1;
      var r := requests[n];
      RunCounts(capacity, groups, policy, requests[..n]);
      EmptyInv(capacity);
      EmptyOwners(capacity);
      RunSafe(Empty(capacity), groups, policy, requests[..n]);
      var (s, events) := Run(Empty(capacity), groups, policy, requests[..n]).value;
      var m := Tally(NO_METRICS, events);
      ProcessMoves(s, groups, policy, r, m);
      var (s1, more) := Process(s, groups, policy, r).value;
      TallyConcat(NO_METRICS, events, more);
      assert [r][..0] == [];
    }
  }

  lemma EmptyOwners(capacity: int)
    ensures NoOwners(Empty(capacity))
  {
  }
}
