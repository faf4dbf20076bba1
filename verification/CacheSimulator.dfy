/** The simulator itself: the same service carried out in place, one field update at a time. */
module CacheSimulator {
  import opened Prelude
  import opened CacheModel
  import opened CacheSafety
  import opened CacheRequests
  import opened CacheCheckpoint

  /** What a checkpoint holds of interest to a restore. */
  datatype Saved = Saved(policyId: string, state: Option<Payload>)

  class Simulator {
    const policyId: string
    const groups: seq<Group>
    const policy: Policy
    var state: State
    var metrics: Metrics

    constructor (groups: seq<Group>, capacity: int, policy: Policy, policyId: string)
      requires groups != [] && 1 <= capacity
      ensures this.groups == groups && this.policy == policy && this.policyId == policyId
      ensures state == Empty(capacity) && metrics == NO_METRICS
      ensures Inv(state) && NoOwners(state) && Accounts(state, metrics)
    {
      this.groups, this.policy, this.policyId := groups, policy, policyId;
      state, metrics := Empty(capacity), NO_METRICS;
      new;
      EmptyInv(capacity);
    }

    method Count(e: Event)
      modifies this`metrics
      ensures metrics == CacheModel.Count(old(metrics), e)
    {
      metrics := CacheModel.Count(metrics, e);
    }

    method AuthorizeEviction(required: nat) returns (r: Outcome<seq<int>>)
      modifies this`metrics
      ensures match Authorize(state, policy, required)
              case Ok((victims, events)) => r == Ok(victims) && metrics == Tally(old(metrics), events)
              case Raised(reason) =>
                r == Raised(reason) && metrics == CacheModel.Count(old(metrics), FailedPlan(state, policy, required))
    {
      if required < 1 { return Ok([]); }
      var (proposal, inspected) := policy(state, required);
      var valid := CheckProposal(proposal, required);
      if valid {
        TallyOne(metrics, Planned(inspected, false));
        Count(Planned(inspected, false));
        return Ok(proposal[..required]);
      }
      var (fallback, more) := Ranked(LruRank)(state, required);
      valid := CheckProposal(fallback, required);
      TallyOne(metrics, Planned(inspected + more, true));
      Count(Planned(inspected + more, true));
      if !valid { return Raised("no valid eviction plan is available"); }
      return Ok(fallback[..required]);
    }

    /** Scans the selected victims one by one. */
    method CheckProposal(proposal: seq<int>, required: nat) returns (valid: bool)
      ensures valid == ValidProposal(state, proposal, required)
    {
      if |proposal| < required { return false; }
      SetOfSeqDistinct(proposal);
      if |set id | id in proposal| != |proposal| { return false; }
      for i := 0 to required
        invariant forall k :: 0 <= k < i ==> IsUnowned(state, proposal[k])
      {
        if proposal[i] !in state.blocks || state.blocks[proposal[i]].owners != {} { return false; }
      }
      return true;
    }

    method EvictBlock(id: int) returns (r: Outcome<()>)
      modifies this
      ensures match Evict(old(state), id)
              case Ok(s) => r == Ok(()) && state == s && metrics == CacheModel.Count(old(metrics), Evicted)
              case Raised(reason) => r == Raised(reason)
    {
      if id !in state.blocks { return Raised("KeyError"); }
      var b := state.blocks[id];
      if b.owners != {} { return Raised("authority attempted to evict a live block"); }
      state := state.(order := Without(state.order, id), blocks := state.blocks - {id});
      if (b.group, b.key) !in state.index { return Raised("KeyError"); }
      state := state.(index := state.index - {(b.group, b.key)});
      Count(Evicted);
      return Ok(());
    }

    method EvictBlocks(victims: seq<int>) returns (r: Outcome<()>)
      modifies this
      ensures match EvictAll(old(state), victims)
              case Ok((s, events)) => r == Ok(()) && state == s && metrics == Tally(old(metrics), events)
              case Raised(reason) => r == Raised(reason)
    {
      ghost var s0, m0 := state, metrics;
      ghost var events: seq<Event> := [];
      for i := 0 to |victims|
        invariant EvictAll(s0, victims[..i]) == Ok((state, events)) && metrics == Tally(m0, events)
      {
        assert victims[..i + 1][..i] == victims[..i];
        r := EvictBlock(victims[i]);
        if r.Raised? {
          EvictAllStops(s0, victims, i + 1);
          return;
        }
        TallyConcat(m0, events, [Evicted]);
        TallyOne(Tally(m0, events), Evicted);
        events := events + [Evicted];
      }
      assert victims[..|victims|] == victims;
      return Ok(());
    }

    method Access(t: Touch, owner: string) returns (r: Outcome<int>)
      modifies this
      ensures match CacheModel.Access(old(state), policy, t, owner)
              case Ok(a) => r == Ok(a.id) && state == a.state && metrics == Tally(old(metrics), a.events)
              case Raised(reason) => r == Raised(reason)
    {
      ghost var m0 := metrics;
      state := state.(clock := state.clock + 1);
      var identity := (t.group.name, t.key);
      if identity in state.index {
        var id := state.index[identity];
        if id !in state.blocks { return Raised("KeyError"); }
        state := Reuse(state, id, owner);
        TallyOne(metrics, Hit);
        Count(Hit);
        return Ok(id);
      }
      Count(Miss);
      TallyOne(m0, Miss);
      ghost var s1, events := state, [];
      if |state.blocks| >= state.capacity {
        var victims := AuthorizeEviction(1);
        if victims.Raised? { return Raised(victims.reason); }
        ghost var planned := Authorize(s1, policy, 1).value.1;
        var done := EvictBlocks(victims.value);
        if done.Raised? { return Raised(done.reason); }
        ghost var evicted := EvictAll(s1, victims.value).value.1;
        events := planned + evicted;
        TallyConcat(Tally(m0, [Miss]), planned, evicted);
      }
      assert MakeRoom(s1, policy) == Ok((state, events));
      assert metrics == Tally(Tally(m0, [Miss]), events);
      var id := state.nextId;
      state := Admit(state, t, owner);
      TallyConcat(m0, [Miss], events);
      TallyConcat(m0, [Miss] + events, [Resident(|state.blocks|)]);
      TallyOne(metrics, Resident(|state.blocks|));
      Count(Resident(|state.blocks|));
      return Ok(id);
    }

    /** Drops the oldest entries of a sliding window and the request's claim on them. */
    method AdvanceSliding(group: Group, id: int, owner: string, windows: map<string, seq<int>>, owned: set<int>)
      returns (r: Outcome<(map<string, seq<int>>, set<int>)>)
      modifies this`state
      ensures match CacheModel.AdvanceSliding(Frame(old(state), owned, windows), group, id, owner)
              case Ok(f) => r == Ok((f.windows, f.owned)) && state == f.state
              case Raised(reason) => r == Raised(reason)
    {
      if group.mode.Full? { return Ok((windows, owned)); }
      if group.name !in windows { return Raised("KeyError"); }
      var window, owned' := windows[group.name] + [id], owned;
      ghost var start := Frame(state, owned, windows[group.name := window]);
      while |window| > group.mode.window
        invariant Trim(start, group.name, group.mode.window, owner) ==
                  Trim(Frame(state, owned', windows[group.name := window]), group.name, group.mode.window, owner)
        decreases |window|
      {
        var expired := window[0];
        assert windows[group.name := window][group.name := window[1..]] == windows[group.name := window[1..]];
        window := window[1..];
        if expired in state.blocks {
          var b := state.blocks[expired];
          state := state.(blocks := state.blocks[expired := b.(owners := b.owners - {owner})]);
        }
        owned' := owned' - {expired};
      }
      return Ok((windows[group.name := window], owned'));
    }

    /** The two steps both loops of a request repeat for every group. */
    method ServeTouch(t: Touch, owner: string, windows: map<string, seq<int>>, owned: set<int>)
      returns (r: Outcome<(map<string, seq<int>>, set<int>)>)
      modifies this
      ensures match ServeOne(Frame(old(state), owned, windows), policy, t, owner)
              case Ok((f, events)) =>
                r == Ok((f.windows, f.owned)) && state == f.state && metrics == Tally(old(metrics), events)
              case Raised(reason) => r == Raised(reason)
    {
      var id := Access(t, owner);
      if id.Raised? { return Raised(id.reason); }
      r := AdvanceSliding(t.group, id.value, owner, windows, owned + {id.value});
    }

    /** One more access of a request that has been served so far. */
    method ServeAnother(r: Request, t: Touch, windows: map<string, seq<int>>, owned: set<int>, ghost f0: Frame,
                        ghost m0: Metrics, ghost done: seq<Touch>)
      returns (result: Outcome<(map<string, seq<int>>, set<int>)>)
      requires Served(f0, policy, m0, done, r.id, Frame(state, owned, windows), metrics)
      modifies this
      ensures result.Ok? ==> Served(f0, policy, m0, done + [t], r.id,
                                    Frame(state, result.value.1, result.value.0), metrics)
      ensures result.Raised? ==> Serve(f0, policy, done + [t], r.id) == Raised(result.reason)
    {
      ServedStep(f0, policy, m0, done, t, r.id, Frame(state, owned, windows), metrics);
      result := ServeTouch(t, r.id, windows, owned);
    }

    /** Serves one key in every group. */
    method ServeKey(r: Request, key: string, kind: string, shared: bool, windows: map<string, seq<int>>,
                    owned: set<int>, ghost f0: Frame, ghost m0: Metrics, ghost done: seq<Touch>)
      returns (result: Outcome<(map<string, seq<int>>, set<int>)>)
      requires Served(f0, policy, m0, done, r.id, Frame(state, owned, windows), metrics)
      modifies this
      ensures result.Ok? ==> Served(f0, policy, m0, done + Across(groups, key, kind, shared), r.id,
                                    Frame(state, result.value.1, result.value.0), metrics)
      ensures result.Raised? ==>
                Serve(f0, policy, done + Across(groups, key, kind, shared), r.id) == Raised(result.reason)
    {
      var windows', owned' := windows, owned;
      ghost var touches := Across(groups, key, kind, shared);
      assert done + touches[..0] == done;
      for i := 0 to |groups|
        invariant Served(f0, policy, m0, done + touches[..i], r.id, Frame(state, owned', windows'), metrics)
      {
        var t := Touch(groups[i], key, kind, shared);
        AcrossStep(done, groups, key, kind, shared, i);
        result := ServeAnother(r, t, windows', owned', f0, m0, done + touches[..i]);
        if result.Raised? {
          ServeStopsAt(f0, policy, done + touches[..i + 1], done + touches, r.id);
          return;
        }
        windows', owned' := result.value.0, result.value.1;
      }
      assert touches[..|groups|] == touches;
      result := Ok((windows', owned'));
    }

    /** One key of the first loop. */
    method ServePrompt(r: Request, p: nat, windows: map<string, seq<int>>, owned: set<int>, ghost f0: Frame,
                       ghost m0: Metrics)
      returns (result: Outcome<(map<string, seq<int>>, set<int>)>)
      requires p < |r.prompts|
      requires Served(f0, policy, m0, PromptTouches(groups, r.prompts[..p]), r.id, Frame(state, owned, windows),
                      metrics)
      modifies this
      ensures result.Ok? ==> Served(f0, policy, m0, PromptTouches(groups, r.prompts[..p + 1]), r.id,
                                    Frame(state, result.value.1, result.value.0), metrics)
      ensures result.Raised? ==> Serve(f0, policy, Touches(groups, r), r.id) == Raised(result.reason)
    {
      var key := r.prompts[p];
      ghost var done := PromptTouches(groups, r.prompts[..p]);
      PromptStep(groups, r.prompts, p);
      result := ServeKey(r, key, "prompt", "sys:" <= key, windows, owned, f0, m0, done);
      if result.Raised? { PromptStops(f0, policy, groups, r, p + 1, result.reason); }
    }

    /** First loop of a request. */
    method ServePrompts(r: Request, windows: map<string, seq<int>>, owned: set<int>, ghost f0: Frame, ghost m0: Metrics)
      returns (result: Outcome<(map<string, seq<int>>, set<int>)>)
      requires Served(f0, policy, m0, [], r.id, Frame(state, owned, windows), metrics)
      modifies this
      ensures result.Ok? ==> Served(f0, policy, m0, PromptTouches(groups, r.prompts), r.id,
                                    Frame(state, result.value.1, result.value.0), metrics)
      ensures result.Raised? ==> Serve(f0, policy, Touches(groups, r), r.id) == Raised(result.reason)
    {
      result := Ok((windows, owned));
      for p := 0 to |r.prompts|
        invariant result.Ok?
        invariant Served(f0, policy, m0, PromptTouches(groups, r.prompts[..p]), r.id,
                         Frame(state, result.value.1, result.value.0), metrics)
      {
        result := ServePrompt(r, p, result.value.0, result.value.1, f0, m0);
        if result.Raised? { return; }
      }
      assert r.prompts[..|r.prompts|] == r.prompts;
    }

    /** One block of the second loop. */
    method ServeBlock(r: Request, n: nat, windows: map<string, seq<int>>, owned: set<int>, ghost f0: Frame,
                      ghost m0: Metrics)
      returns (result: Outcome<(map<string, seq<int>>, set<int>)>)
      requires n < GeneratedCount(r)
      requires Served(f0, policy, m0, PromptTouches(groups, r.prompts) + GeneratedTouches(groups, r.id, n), r.id,
                      Frame(state, owned, windows), metrics)
      modifies this
      ensures result.Ok? ==>
                Served(f0, policy, m0, PromptTouches(groups, r.prompts) + GeneratedTouches(groups, r.id, n + 1), r.id,
                       Frame(state, result.value.1, result.value.0), metrics)
      ensures result.Raised? ==> Serve(f0, policy, Touches(groups, r), r.id) == Raised(result.reason)
    {
      var key := GeneratedKey(r.id, n);
      ghost var prompts := PromptTouches(groups, r.prompts);
      GeneratedStep(groups, r, prompts, n);
      result := ServeKey(r, key, "generated", false, windows, owned, f0, m0,
                         prompts + GeneratedTouches(groups, r.id, n));
      if result.Raised? { GeneratedStops(f0, policy, groups, r, n + 1, result.reason); }
    }

    /** Second loop of a request, up to a cancellation. */
    method ServeGenerated(r: Request, windows: map<string, seq<int>>, owned: set<int>, ghost f0: Frame,
                          ghost m0: Metrics)
      returns (result: Outcome<(map<string, seq<int>>, set<int>)>, cancelled: bool)
      requires Served(f0, policy, m0, PromptTouches(groups, r.prompts), r.id, Frame(state, owned, windows), metrics)
      modifies this
      ensures result.Ok? ==> Served(f0, policy, m0, Touches(groups, r), r.id,
                                    Frame(state, result.value.1, result.value.0), metrics) &&
                             cancelled == CountsAsCancelled(r)
      ensures result.Raised? ==> Serve(f0, policy, Touches(groups, r), r.id) == Raised(result.reason)
    {
      ghost var prompts := PromptTouches(groups, r.prompts);
      assert prompts + GeneratedTouches(groups, r.id, 0) == prompts;
      result, cancelled := Ok((windows, owned)), false;
      var n := 0;
      while n < r.generated
        invariant 0 <= n <= GeneratedCount(r) && !cancelled && result.Ok?
        invariant Served(f0, policy, m0, prompts + GeneratedTouches(groups, r.id, n), r.id,
                         Frame(state, result.value.1, result.value.0), metrics)
        decreases r.generated - n
      {
        if r.cancelAfter == Some(n) { return result, true; }
        result := ServeBlock(r, n, result.value.0, result.value.1, f0, m0);
        if result.Raised? { return; }
        n := n + 1;
      }
      cancelled := r.cancelAfter == Some(r.generated);
    }

    /** One request: prompt blocks, then generated blocks up to a cancellation, then release. */
    method Process(r: Request) returns (result: Outcome<()>)
      modifies this
      ensures match CacheModel.Process(old(state), groups, policy, r)
              case Ok((s, events)) => result == Ok(()) && state == s && metrics == Tally(old(metrics), events)
              case Raised(reason) => result == Raised(reason)
    {
      ghost var s0, m0 := state, metrics;
      ghost var f0 := Frame(s0, {}, WindowsOf(groups));
      TallyOne(m0, Started);
      Count(Started);
      assert [Started] + [] == [Started];
      var served := ServePrompts(r, WindowsOf(groups), {}, f0, m0);
      if served.Raised? { return Raised(served.reason); }
      var cancelled;
      served, cancelled := ServeGenerated(r, served.value.0, served.value.1, f0, m0);
      if served.Raised? { return Raised(served.reason); }
      ghost var events := Serve(f0, policy, Touches(groups, r), r.id).value.1;
      if cancelled {
        TallyConcat(m0, [Started] + events, [Cancelled]);
        TallyOne(metrics, Cancelled);
        Count(Cancelled);
      } else {
        assert [Started] + events + [] == [Started] + events;
      }
      ReleaseBlocks(served.value.1, r.id);
      var valid := Validate(state);
      if !valid { return Raised("invalid state"); }
      return Ok(());
    }

    /** Discards the request from the owners of every block it recorded, in any order. */
    method ReleaseBlocks(owned: set<int>, owner: string)
      modifies this`state
      ensures state == Release(old(state), owned, owner)
    {
      ghost var s0 := state;
      var todo := owned;
      while todo != {}
        invariant todo <= owned
        invariant state == Release(s0, owned - todo, owner)
        decreases todo
      {
        ghost var some := Member(todo);
        var id :| id in todo;
        todo := todo - {id};
        ReleaseOne(s0, owned - todo - {id}, id, owner);
        assert owned - todo - {id} == owned - (todo + {id}) && owned - todo == (owned - todo - {id}) + {id};
        if id in state.blocks {
          var b := state.blocks[id];
          state := state.(blocks := state.blocks[id := b.(owners := b.owners - {owner})]);
        }
      }
      assert owned - todo == owned;
    }

    method Checkpoint() returns (c: Saved)
      requires OrderOk(state)
      ensures c == Saved(policyId, Some(Snapshot(state)))
    {
      c := Saved(policyId, Some(Snapshot(state)));
    }

    /** Replaces the state by a checkpoint of the same policy; the metrics are kept. */
    method RestoreState(c: Saved) returns (r: Outcome<()>)
      modifies this`state
      ensures r.Ok? <==> c.policyId == policyId && c.state.Some? && Restore(c.state.value).Ok?
      ensures state == if r.Ok? then Restore(c.state.value).value else old(state)
    {
      if c.policyId != policyId { return Raised("checkpoint policy identity mismatch"); }
      if c.state.None? { return Raised("checkpoint state is missing"); }
      var p := c.state.value;
      if p.capacity < 1 { return Raised("capacity_blocks must be positive"); }
      var s := State(p.capacity, p.clock, p.nextId, [], map[], map[]);
      ghost var blank := s;
      for i := 0 to |p.blocks|
        invariant s == Load(blank, p.blocks[..i]) && state == old(state)
      {
        var b := p.blocks[i];
        assert p.blocks[..i + 1] == p.blocks[..i] + [b];
        LoadSnoc(blank, p.blocks[..i], b);
        s := s.(order := if b.id in s.blocks then s.order else s.order + [b.id], blocks := s.blocks[b.id := b]);
        s := s.(index := s.index[(b.group, b.key) := b.id]);
      }
      assert p.blocks[..|p.blocks|] == p.blocks;
      var valid := Validate(s);
      if !valid { return Raised("invalid state"); }
      state := s;
      return Ok(());
    }

    method Run(requests: seq<Request>) returns (result: Outcome<()>)
      requires Inv(state) && NoOwners(state)
      modifies this
      ensures match CacheModel.Run(old(state), groups, policy, requests)
              case Ok((s, events)) => result == Ok(()) && state == s && metrics == Tally(old(metrics), events) &&
                                      Inv(state) && NoOwners(state)
              case Raised(reason) => result == Raised(reason)
    {
      ghost var s0, m0 := state, metrics;
      for i := 0 to |requests|
        invariant Inv(state) && NoOwners(state)
        invariant RanSoFar(s0, m0, groups, policy, requests[..i], state, metrics)
      {
        ProcessKeeps(state, groups, policy, requests[i]);
        RunStep(s0, m0, groups, policy, requests, i, state, metrics);
        result := Process(requests[i]);
        if result.Raised? {
          RunStops(s0, groups, policy, requests, i + 1);
          return;
        }
      }
      assert requests[..|requests|] == requests;
      InvValidates(state);
      var valid := Validate(state);
      return if valid then Ok(()) else Raised("invalid state");
    }
  }

  /** The requests so far led from one state and its metrics to these. */
  ghost predicate RanSoFar(s0: State, m0: Metrics, groups: seq<Group>, policy: Policy, done: seq<Request>, s: State,
                           m: Metrics)
  {
    var r := CacheModel.Run(s0, groups, policy, done);
    r.Ok? && r.value.0 == s && m == Tally(m0, r.value.1)
  }

  lemma RunStep(s0: State, m0: Metrics, groups: seq<Group>, policy: Policy, requests: seq<Request>, i: nat, s: State,
                m: Metrics)
    requires i < |requests| && RanSoFar(s0, m0, groups, policy, requests[..i], s, m)
    ensures match CacheModel.Process(s, groups, policy, requests[i])
            case Ok((s1, more)) => RanSoFar(s0, m0, groups, policy, requests[..i + 1], s1, Tally(m, more))
            case Raised(reason) => CacheModel.Run(s0, groups, policy, requests[..i + 1]) == Raised(reason)
  {
    assert requests[..i + 1][..i] == requests[..i];
    var next := CacheModel.Process(s, groups, policy, requests[i]);
    if next.Ok? { TallyConcat(m0, CacheModel.Run(s0, groups, policy, requests[..i]).value.1, next.value.1); }
  }

  /** The touches in `done` have been served, and counted after the start of the request. */
  ghost predicate Served(f0: Frame, policy: Policy, m0: Metrics, done: seq<Touch>, owner: string, f: Frame,
                         m: Metrics)
  {
    var r := Serve(f0, policy, done, owner);
    r.Ok? && r.value.0 == f && m == Tally(m0, [Started] + r.value.1)
  }

  lemma ServedStep(f0: Frame, policy: Policy, m0: Metrics, done: seq<Touch>, t: Touch, owner: string, f: Frame,
                   m: Metrics)
    requires Served(f0, policy, m0, done, owner, f, m)
    ensures var r := ServeOne(f, policy, t, owner);
            if r.Ok? then Served(f0, policy, m0, done + [t], owner, r.value.0, Tally(m, r.value.1))
            else Serve(f0, policy, done + [t], owner) == Raised(r.reason)
  {
    ServeSnoc(f0, policy, done, t, owner);
    var r := ServeOne(f, policy, t, owner);
    if r.Ok? { StartedTally(m0, Serve(f0, policy, done, owner).value.1, r.value.1); }
  }

  lemma StartedTally(m0: Metrics, events: seq<Event>, more: seq<Event>)
    ensures Tally(m0, [Started] + (events + more)) == Tally(Tally(m0, [Started] + events), more)
  {
    TallyConcat(m0, [Started] + events, more);
    assert [Started] + events + more == [Started] + (events + more);
  }

  /** The validation loop: one pass over the blocks with the identities seen so far. */
  method Validate(s: State) returns (valid: bool)
    ensures valid == Validates(s)
  {
    if |s.blocks| > s.capacity || |s.index| != |s.blocks| { return false; }
    var todo, seen := s.blocks.Keys, {};
    while todo != {}
      invariant todo <= s.blocks.Keys
      invariant forall id :: id in s.blocks && id !in todo ==> BlockSound(s, id)
      invariant forall k :: k in seen ==> k in s.index && s.index[k] !in todo
      decreases todo
    {
      ghost var some := Member(todo);
      var id :| id in todo;
      var b := s.blocks[id];
      var identity := (b.group, b.key);
      if id != b.id || identity in seen || identity !in s.index || s.index[identity] != id {
        assert !BlockSound(s, id);
        return false;
      }
      if (b.kind != "prompt" && b.kind != "generated") || b.createdAt > b.lastUsed || b.lastUsed > s.clock ||
         b.reuse < 0 {
        assert !BlockSound(s, id);
        return false;
      }
      todo, seen := todo - {id}, seen + {identity};
    }
    forall i, j | i in s.blocks && j in s.blocks && i != j
      ensures (s.blocks[i].group, s.blocks[i].key) != (s.blocks[j].group, s.blocks[j].key)
    {
      assert BlockSound(s, i) && BlockSound(s, j);
    }
    return 0 <= s.nextId;
  }

  lemma Member<T>(s: set<T>) returns (x: T)
    requires s != {}
    ensures x in s
  {
    x :| x in s;
  }

  lemma SetOfSeqDistinct(ids: seq<int>)
    ensures |set id | id in ids| == |ids| <==> Distinct(ids)
  {
    SetOfSeq(ids);
    if !Distinct(ids) {
      var i, j :| 0 <= i < j < |ids| && ids[i] == ids[j];
      var rest := ids[..j] + ids[j + 1..];
      SetOfSeq(rest);
      assert (set id | id in ids) == set id | id in rest by {
        forall id | id in ids ensures id in rest {
          var k :| 0 <= k < |ids| && ids[k] == id;
          if k < j { assert rest[k] == id; } else if k > j { assert rest[k - 1] == id; } else { assert rest[i] == id; }
        }
      }
    }
  }

  lemma {:induction false} EvictAllStops(s: State, ids: seq<int>, n: nat)
    requires n <= |ids| && EvictAll(s, ids[..n]).Raised?
    ensures EvictAll(s, ids) == EvictAll(s, ids[..n])
    decreases |ids|
  {
    if n == |ids| {
      assert ids[..n] == ids;
    } else {
      assert ids[..|ids| - 1][..n] == ids[..n];
      EvictAllStops(s, ids[..|ids| - 1], n);
    }
  }

  lemma {:induction false} ServeStops(f: Frame, policy: Policy, touches: seq<Touch>, n: nat, owner: string)
    requires n <= |touches| && Serve(f, policy, touches[..n], owner).Raised?
    ensures Serve(f, policy, touches, owner) == Serve(f, policy, touches[..n], owner)
    decreases |touches|
  {
    if n == |touches| {
      assert touches[..n] == touches;
    } else {
      var prefix := touches[..|touches| - 1];
      assert prefix[..n] == touches[..n];
      ServeStops(f, policy, prefix, n, owner);
    }
  }

  lemma ServeStopsAt(f: Frame, policy: Policy, part: seq<Touch>, all: seq<Touch>, owner: string)
    requires part <= all && Serve(f, policy, part, owner).Raised?
    ensures Serve(f, policy, all, owner) == Serve(f, policy, part, owner)
  {
    assert all[..|part|] == part;
    ServeStops(f, policy, all, |part|, owner);
  }

  lemma {:induction false} PromptTouchesGrow(groups: seq<Group>, r: Request, n: nat)
    requires n <= |r.prompts|
    decreases |r.prompts| - n
    ensures PromptTouches(groups, r.prompts[..n]) <= Touches(groups, r)
  {
    if n == |r.prompts| {
      assert r.prompts[..n] == r.prompts;
    } else {
      PromptTouchesGrow(groups, r, n + 1);
      assert r.prompts[..n + 1][..n] == r.prompts[..n];
    }
  }

  lemma PromptStops(f: Frame, policy: Policy, groups: seq<Group>, r: Request, n: nat, reason: string)
    requires n <= |r.prompts| && Serve(f, policy, PromptTouches(groups, r.prompts[..n]), r.id) == Raised(reason)
    ensures Serve(f, policy, Touches(groups, r), r.id) == Raised(reason)
  {
    PromptTouchesGrow(groups, r, n);
    ServeStopsAt(f, policy, PromptTouches(groups, r.prompts[..n]), Touches(groups, r), r.id);
  }

  lemma GeneratedStops(f: Frame, policy: Policy, groups: seq<Group>, r: Request, n: nat, reason: string)
    requires n <= GeneratedCount(r)
    requires Serve(f, policy, PromptTouches(groups, r.prompts) + GeneratedTouches(groups, r.id, n), r.id) ==
             Raised(reason)
    ensures Serve(f, policy, Touches(groups, r), r.id) == Raised(reason)
  {
    GeneratedTouchesGrow(groups, r.id, n, GeneratedCount(r));
    var part := PromptTouches(groups, r.prompts) + GeneratedTouches(groups, r.id, n);
    ServeStopsAt(f, policy, part, Touches(groups, r), r.id);
  }

  lemma PromptStep(groups: seq<Group>, prompts: seq<string>, p: nat)
    requires p < |prompts|
    ensures PromptTouches(groups, prompts[..p + 1]) ==
            PromptTouches(groups, prompts[..p]) + Across(groups, prompts[p], "prompt", "sys:" <= prompts[p])
  {
    assert prompts[..p + 1][..p] == prompts[..p];
  }

  lemma AcrossStep(done: seq<Touch>, groups: seq<Group>, key: string, kind: string, shared: bool, i: nat)
    requires i < |groups|
    ensures var touches := Across(groups, key, kind, shared);
            done + touches[..i + 1] == done + touches[..i] + [Touch(groups[i], key, kind, shared)] &&
            done + touches[..i + 1] <= done + touches
  {
  }

  lemma GeneratedStep(groups: seq<Group>, r: Request, prompts: seq<Touch>, n: nat)
    ensures prompts + GeneratedTouches(groups, r.id, n) + Across(groups, GeneratedKey(r.id, n), "generated", false) ==
            prompts + GeneratedTouches(groups, r.id, n + 1)
  {
  }

  lemma {:induction false} GeneratedTouchesGrow(groups: seq<Group>, id: string, n: nat, count: nat)
    requires n <= count
    ensures GeneratedTouches(groups, id, n) <= GeneratedTouches(groups, id, count)
  {
    if n < count { GeneratedTouchesGrow(groups, id, n, count - 1); }
  }

  lemma ReleaseOne(s: State, ids: set<int>, id: int, owner: string)
    ensures Release(s, ids + {id}, owner) == Disown(Release(s, ids, owner), id, owner)
  {
    var a, b := Release(s, ids + {id}, owner), Disown(Release(s, ids, owner), id, owner);
    forall i | i in a.blocks.Keys ensures i in b.blocks.Keys {}
    forall i | i in b.blocks.Keys ensures i in a.blocks.Keys {}
    assert a.blocks.Keys == b.blocks.Keys;
    forall i | i in a.blocks.Keys ensures a.blocks[i] == b.blocks[i] {}
    assert a.blocks == b.blocks;
  }

  lemma {:induction false} RunStops(s: State, groups: seq<Group>, policy: Policy, requests: seq<Request>, n: nat)
    requires n <= |requests| && CacheModel.Run(s, groups, policy, requests[..n]).Raised?
    ensures CacheModel.Run(s, groups, policy, requests) == CacheModel.Run(s, groups, policy, requests[..n])
    decreases |requests|
  {
    if n == |requests| {
      assert requests[..n] == requests;
    } else {
      assert requests[..|requests| - 1][..n] == requests[..n];
      RunStops(s, groups, policy, requests[..|requests| - 1], n);
    }
  }
}
