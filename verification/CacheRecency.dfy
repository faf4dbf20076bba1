/**
 * What the clocks in a CacheForge cache mean: when each block was touched, first and last, in the list of
 * all accesses served so far; and so what the ranked policies evict.
 */
module CacheRecency {
  import opened CacheModel
  import opened CacheSafety
  import opened CacheRequests

  // ----- the history of a cache ---------------------------------------------------------------------------------

  /** One more than the position of the last access to the block, 0 if there was none. */
  function LastTouch(h: seq<int>, id: int): nat {
    if h == [] then 0 else if h[|h| - 1] == id then |h| else LastTouch(h[..|h| - 1], id)
  }

  function FirstTouch(h: seq<int>, id: int): nat {
    if h == [] then 0
    else if FirstTouch(h[..|h| - 1], id) != 0 then FirstTouch(h[..|h| - 1], id)
    else if h[|h| - 1] == id then |h| else 0
  }

  function TouchCount(h: seq<int>, id: int): nat {
    if h == [] then 0 else TouchCount(h[..|h| - 1], id) + if h[|h| - 1] == id then 1 else 0
  }

  predicate BlockDated(s: State, h: seq<int>, id: int)
    requires id in s.blocks
  {
    var b := s.blocks[id];
    1 <= FirstTouch(h, id) == b.createdAt && LastTouch(h, id) == b.lastUsed && TouchCount(h, id) == b.reuse + 1
  }

  /** `h` are the blocks that all accesses so far went to, one a tick. */
  ghost predicate History(s: State, h: seq<int>) {
    s.clock == |h| && (forall id :: id in s.blocks ==> BlockDated(s, h, id)) && forall id :: id in h ==> id < s.nextId
  }

  lemma EmptyHistory(capacity: int)
    ensures History(Empty(capacity), [])
  {
  }

  lemma TouchSnoc(h: seq<int>, x: int, id: int)
    ensures LastTouch(h + [x], id) == if x == id then |h| + 1 else LastTouch(h, id)
    ensures FirstTouch(h + [x], id) ==
            if FirstTouch(h, id) != 0 then FirstTouch(h, id) else if x == id then |h| + 1 else 0
    ensures TouchCount(h + [x], id) == TouchCount(h, id) + if x == id then 1 else 0
  {
    assert (h + [x])[..|h|] == h;
  }

  lemma {:induction false} Untouched(h: seq<int>, id: int)
    requires id !in h
    ensures LastTouch(h, id) == FirstTouch(h, id) == TouchCount(h, id) == 0
  {
    if h != [] { Untouched(h[..|h| - 1], id); }
  }

  /** The last access is where LastTouch says, and there is none behind it. */
  lemma {:induction false} LastTouchIs(h: seq<int>, id: int)
    ensures LastTouch(h, id) <= |h|
    ensures LastTouch(h, id) > 0 ==> h[LastTouch(h, id) - 1] == id
    ensures forall k :: LastTouch(h, id) <= k < |h| ==> h[k] != id
  {
    if h != [] { LastTouchIs(h[..|h| - 1], id); }
  }

  lemma {:induction false} FirstTouchIs(h: seq<int>, id: int)
    ensures FirstTouch(h, id) <= |h|
    ensures FirstTouch(h, id) > 0 ==> h[FirstTouch(h, id) - 1] == id
    ensures forall k :: 0 <= k < FirstTouch(h, id) - 1 ==> h[k] != id
    ensures FirstTouch(h, id) == 0 ==> id !in h
  {
    if h != [] { FirstTouchIs(h[..|h| - 1], id); }
  }

  /** Every access extends the history by the block it went to. */
  lemma AccessHistory(s: State, h: seq<int>, policy: Policy, t: Touch, owner: string)
    requires Inv(s) && KindOk(t) && History(s, h) && Access(s, policy, t, owner).Ok?
    ensures var a := Access(s, policy, t, owner).value; History(a.state, h + [a.id])
  {
    AccessKeeps(s, policy, t, owner);
    var a := Access(s, policy, t, owner).value;
    HistoryGrows(s, h, a, t, owner);
  }

  lemma HistoryGrows(s: State, h: seq<int>, a: Accessed, t: Touch, owner: string)
    requires Inv(s) && History(s, h) && Holds(s, a, t, owner) && Touched(s, a, t, owner)
    ensures History(a.state, h + [a.id])
  {
    forall id | id in a.state.blocks ensures BlockDated(a.state, h + [a.id], id) {
      TouchSnoc(h, a.id, id);
      if id in s.blocks { assert BlockDated(s, h, id) && BlockOk(s, id); } else { Untouched(h, id); }
    }
  }

  lemma SameBlocksHistory(s: State, s1: State, h: seq<int>)
    requires History(s, h) && SameShape(s, s1) && forall id :: id in s1.blocks ==> SameButOwners(s, s1, id)
    ensures History(s1, h)
  {
    forall id | id in s1.blocks ensures BlockDated(s1, h, id) {
      assert BlockDated(s, h, id) && SameButOwners(s, s1, id);
    }
  }

  lemma {:induction false} TrimOwners(f: Frame, name: string, size: nat, owner: string)
    requires name in f.windows
    ensures SameShape(f.state, Trim(f, name, size, owner).state)
    ensures forall id :: id in f.state.blocks ==> SameButOwners(f.state, Trim(f, name, size, owner).state, id)
    decreases |f.windows[name]|
  {
    var window := f.windows[name];
    if |window| > size {
      var s1 := Disown(f.state, window[0], owner);
      assert s1.blocks.Keys == f.state.blocks.Keys;
      TrimOwners(Frame(s1, f.owned - {window[0]}, f.windows[name := window[1..]]), name, size, owner);
    }
  }

  lemma AdvanceHistory(f: Frame, h: seq<int>, group: Group, id: int, owner: string)
    requires History(f.state, h) && AdvanceSliding(f, group, id, owner).Ok?
    ensures History(AdvanceSliding(f, group, id, owner).value.state, h)
  {
    if group.mode.Sliding? {
      var f1 := f.(windows := f.windows[group.name := f.windows[group.name] + [id]]);
      TrimOwners(f1, group.name, group.mode.window, owner);
      SameBlocksHistory(f.state, Trim(f1, group.name, group.mode.window, owner).state, h);
    }
  }

  // ----- the accesses of a run ----------------------------------------------------------------------------------

  /** The blocks that the served touches went to. */
  function ServedIds(f: Frame, policy: Policy, touches: seq<Touch>, owner: string): seq<int> {
    if touches == [] then []
    else
      var n := |touches| - 1;
      ServedIds(f, policy, touches[..n], owner) +
      match Serve(f, policy, touches[..n], owner)
      case Raised(_) => []
      case Ok((f1, _)) => (match Access(f1.state, policy, touches[n], owner)
                           case Raised(_) => []
                           case Ok(a) => [a.id])
  }

  function ProcessedIds(s: State, groups: seq<Group>, policy: Policy, r: Request): seq<int> {
    ServedIds(Frame(s, {}, WindowsOf(groups)), policy, CacheModel.Touches(groups, r), r.id)
  }

  /** The blocks that all accesses of a run went to, in order. */
  function RunIds(s: State, groups: seq<Group>, policy: Policy, requests: seq<Request>): seq<int> {
    if requests == [] then []
    else
      var n := |requests| - 1;
      RunIds(s, groups, policy, requests[..n]) +
      match Run(s, groups, policy, requests[..n])
      case Raised(_) => []
      case Ok((s1, _)) => ProcessedIds(s1, groups, policy, requests[n])
  }

  lemma ServeOneHistory(f: Frame, h: seq<int>, policy: Policy, t: Touch, owner: string)
    requires FrameInv(f, owner) && KindOk(t) && History(f.state, h) && ServeOne(f, policy, t, owner).Ok?
    ensures Access(f.state, policy, t, owner).Ok?
    ensures History(ServeOne(f, policy, t, owner).value.0.state, h + [Access(f.state, policy, t, owner).value.id])
  {
    AccessHistory(f.state, h, policy, t, owner);
    var a := Access(f.state, policy, t, owner).value;
    AdvanceHistory(Frame(a.state, f.owned + {a.id}, f.windows), h + [a.id], t.group, a.id, owner);
  }

  lemma {:induction false} ServeHistory(f: Frame, h: seq<int>, policy: Policy, touches: seq<Touch>, owner: string,
                                        groups: seq<Group>)
    requires FrameInv(f, owner) && WindowsReady(f, groups) && TouchesOf(touches, groups) && History(f.state, h)
    requires Serve(f, policy, touches, owner).Ok?
    ensures History(Serve(f, policy, touches, owner).value.0.state, h + ServedIds(f, policy, touches, owner))
  {
    hide History, Access, FrameInv, ServeOne, WindowsReady;
    if touches == [] {
      assert h + [] == h;
    } else {
      var n := |touches| - 1;
      ServeKeeps(f, policy, touches[..n], owner, groups);
      ServeHistory(f, h, policy, touches[..n], owner, groups);
      var f1 := Serve(f, policy, touches[..n], owner).value.0;
      var before := ServedIds(f, policy, touches[..n], owner);
      assert TouchOf(touches[n], groups);
      ServeOneHistory(f1, h + before, policy, touches[n], owner);
      var a := Access(f1.state, policy, touches[n], owner).value;
      assert h + before + [a.id] == h + (before + [a.id]);
    }
  }

  lemma ReleaseHistory(s: State, h: seq<int>, owned: set<int>, owner: string)
    requires History(s, h)
    ensures History(Release(s, owned, owner), h)
  {
    var s1 := Release(s, owned, owner);
    assert s1.blocks.Keys == s.blocks.Keys;
    SameBlocksHistory(s, s1, h);
  }

  lemma ProcessHistory(s: State, h: seq<int>, groups: seq<Group>, policy: Policy, r: Request)
    requires Inv(s) && NoOwners(s) && History(s, h) && Process(s, groups, policy, r).Ok?
    ensures History(Process(s, groups, policy, r).value.0, h + ProcessedIds(s, groups, policy, r))
  {
    var f := Frame(s, {}, WindowsOf(groups));
    StartFrame(s, groups, r.id);
    TouchesKnown(groups, r);
    ServeHistory(f, h, policy, CacheModel.Touches(groups, r), r.id, groups);
    var g := Serve(f, policy, CacheModel.Touches(groups, r), r.id).value.0;
    ReleaseHistory(g.state, h + ProcessedIds(s, groups, policy, r), g.owned, r.id);
  }

  lemma TouchesKnown(groups: seq<Group>, r: Request)
    ensures TouchesOf(CacheModel.Touches(groups, r), groups)
  {
    PromptTouchesOf(groups, r.prompts);
    GeneratedTouchesOf(groups, r.id, GeneratedCount(r));
  }

  /** After any run the clocks of every block tell when it was touched. */
  lemma {:induction false} RunHistory(capacity: int, groups: seq<Group>, policy: Policy, requests: seq<Request>)
    requires 1 <= capacity && Run(Empty(capacity), groups, policy, requests).Ok?
    ensures History(Run(Empty(capacity), groups, policy, requests).value.0,
                    RunIds(Empty(capacity), groups, policy, requests))
  {
    var s := Empty(capacity);
    EmptyInv(capacity);
    if requests == [] {
      EmptyHistory(capacity);
    } else {
      var n := |requests| - 1;
      RunHistory(capacity, groups, policy, requests[..n]);
      RunSafe(s, groups, policy, requests[..n]);
      var s1 := Run(s, groups, policy, requests[..n]).value.0;
      ProcessHistory(s1, RunIds(s, groups, policy, requests[..n]), groups, policy, requests[n]);
    }
  }

  // ----- what is evicted ----------------------------------------------------------------------------------------

  /** The victim of a ranked policy comes before every other unowned block. */
  lemma RankedVictim(rank: (State, Block) -> Rank, s: State, v: int)
    requires Inv(s) && RanksById(rank) && |s.blocks| >= s.capacity && MakeRoom(s, Ranked(rank)).Ok?
    requires v in s.blocks && v !in MakeRoom(s, Ranked(rank)).value.0.blocks
    ensures IsUnowned(s, v)
    ensures forall id :: IsUnowned(s, id) && id != v ==> Before(rank(s, s.blocks[v]), rank(s, s.blocks[id]))
  {
    hide RankedProposal, EvictAll, Evict;
    var ids := RankedProposal(rank, s, 1).0;
    RankedProposalLeast(rank, s, 1);
    MakeRoomKeeps(s, Ranked(rank));
    RankedAccepted(rank, s, 1);
    assert ids[..1] == ids == [ids[0]];
    EvictedIs(s, ids[0]);
    assert v == ids[0];
  }

  lemma EvictedIs(s: State, id: int)
    requires Inv(s) && IsUnowned(s, id)
    ensures EvictAll(s, [id]).Ok? && EvictAll(s, [id]).value.0.blocks == s.blocks - {id}
  {
    assert [id][..0] == [] && EvictAll(s, []) == Ok((s, []));
    EvictInv(s, id);
  }

  /** An access in a full cache, before which a block was there and after which it is not. */
  ghost predicate Evicts(s: State, policy: Policy, t: Touch, owner: string, v: int) {
    Access(s, policy, t, owner).Ok? && v in s.blocks && v !in Access(s, policy, t, owner).value.state.blocks
  }

  lemma AccessVictim(s: State, policy: Policy, t: Touch, owner: string, v: int)
    requires Inv(s) && KindOk(t) && Evicts(s, policy, t, owner, v)
    ensures var s1 := s.(clock := s.clock + 1);
            Inv(s1) && |s1.blocks| >= s1.capacity && MakeRoom(s1, policy).Ok? &&
            v !in MakeRoom(s1, policy).value.0.blocks
  {
    var s1 := s.(clock := s.clock + 1);
    TickInv(s);
    if (t.group.name, t.key) in s.index {
      HitTouches(s, policy, t, owner);
    } else {
      MissOutcome(s, policy, t, owner);
      MissAccess(s, policy, t, owner);
      MakeRoomKeeps(s1, policy);
    }
  }

  /** What is known of the victim of a ranked policy and any other unowned block, in terms of the history. */
  ghost predicate Chosen(rank: (State, Block) -> Rank, s: State, h: seq<int>, v: int, id: int)
    requires v in s.blocks && id in s.blocks
  {
    var s1 := s.(clock := s.clock + 1);
    Before(rank(s1, s.blocks[v]), rank(s1, s.blocks[id])) &&
    BlockDated(s, h, v) && BlockDated(s, h, id) && BlockOk(s, v) && BlockOk(s, id) && s.clock == |h| &&
    LastTouch(h, v) != LastTouch(h, id) && FirstTouch(h, v) != FirstTouch(h, id)
  }

  lemma VictimChosen(rank: (State, Block) -> Rank, s: State, h: seq<int>, t: Touch, owner: string, v: int)
    requires Inv(s) && KindOk(t) && RanksById(rank) && History(s, h) && Evicts(s, Ranked(rank), t, owner, v)
    ensures IsUnowned(s, v)
    ensures forall id :: IsUnowned(s, id) && id != v ==> Chosen(rank, s, h, v, id)
  {
    hide Access, Ranked;
    var s1 := s.(clock := s.clock + 1);
    AccessVictim(s, Ranked(rank), t, owner, v);
    RankedVictim(rank, s1, v);
    assert IsUnowned(s1, v);
    forall id | IsUnowned(s, id) && id != v ensures Chosen(rank, s, h, v, id) {
      assert IsUnowned(s1, id) && UsedApart(s, v, id);
      TouchedApart(s, h, v, id);
    }
  }

  lemma TouchedApart(s: State, h: seq<int>, v: int, id: int)
    requires Inv(s) && History(s, h) && v in s.blocks && id in s.blocks && v != id
    ensures BlockDated(s, h, v) && BlockDated(s, h, id) && BlockOk(s, v) && BlockOk(s, id)
    ensures LastTouch(h, v) != LastTouch(h, id) && FirstTouch(h, v) != FirstTouch(h, id)
  {
    assert UsedApart(s, v, id) && BlockDated(s, h, v) && BlockDated(s, h, id);
    FirstTouchIs(h, v);
    FirstTouchIs(h, id);
  }

  /** Least recently used: the victim is the unowned block whose last access is longest ago. */
  lemma LruEvictsOldest(s: State, h: seq<int>, t: Touch, owner: string, v: int)
    requires Inv(s) && KindOk(t) && History(s, h) && Evicts(s, Ranked(LruRank), t, owner, v)
    ensures IsUnowned(s, v)
    ensures forall id :: IsUnowned(s, id) && id != v ==> LastTouch(h, v) < LastTouch(h, id)
  {
    hide Evicts, History, Inv;
    VictimChosen(LruRank, s, h, t, owner, v);
  }

  /** First in, first out: the victim is the unowned block whose first access is longest ago. */
  lemma FifoEvictsFirst(s: State, h: seq<int>, t: Touch, owner: string, v: int)
    requires Inv(s) && KindOk(t) && History(s, h) && Evicts(s, Ranked(FifoRank), t, owner, v)
    ensures IsUnowned(s, v)
    ensures forall id :: IsUnowned(s, id) && id != v ==> FirstTouch(h, v) < FirstTouch(h, id)
  {
    hide Evicts, History, Inv;
    VictimChosen(FifoRank, s, h, t, owner, v);
  }

  /** Segmented: generated blocks leave before prompt blocks, and within a segment the least recently used one. */
  lemma SegmentedEvicts(s: State, h: seq<int>, t: Touch, owner: string, v: int)
    requires Inv(s) && KindOk(t) && History(s, h) && Evicts(s, Ranked(SegmentedRank), t, owner, v)
    ensures IsUnowned(s, v)
    ensures forall id :: IsUnowned(s, id) && id != v ==>
              if s.blocks[v].kind == "generated"
              then s.blocks[id].kind == "prompt" || LastTouch(h, v) < LastTouch(h, id)
              else s.blocks[id].kind == "prompt" && LastTouch(h, v) < LastTouch(h, id)
  {
    hide Evicts, History, Inv;
    VictimChosen(SegmentedRank, s, h, t, owner, v);
  }

  /** The generator's weights: what makes a block worth evicting. */
  function Weight(b: Block, age: int): int {
    100 + (if b.kind == "prompt" then -30 else 0) + (if b.shared then -90 else 0) + (if b.reuse >= 2 then -50 else 0) +
    (if b.group == "sliding" then 20 else 0) + (if age <= 3 then -10 else 0) +
    (if b.kind == "generated" then 70 else 0)
  }

  /** The same, of the six features. */
  function WeightOf(prompt: bool, shared: bool, reused: bool, sliding: bool, recent: bool, generated: bool): int {
    100 + (if prompt then -30 else 0) + (if shared then -90 else 0) + (if reused then -50 else 0) +
    (if sliding then 20 else 0) + (if recent then -10 else 0) + (if generated then 70 else 0)
  }

  /** The rows of the table, by the first four features. */
  lemma RankRow(row: seq<int>, recent: bool, generated: bool)
    requires row == if generated then if recent then RANKS_3 else RANKS_2 else if recent then RANKS_1 else RANKS_0
    ensures |row| == 16
    ensures forall a, b, c, d ::
              row[Low(a, b, c, d)] == WeightOf(a, b, c, d, recent, generated)
  {
  }

  /** The first four features as a number. */
  function Low(prompt: bool, shared: bool, reused: bool, sliding: bool): (low: nat)
    ensures low < 16
  {
    (if prompt then 1 else 0) + (if shared then 2 else 0) + (if reused then 4 else 0) + if sliding then 8 else 0
  }

  /** The table lookup of the generated policy is the weighted sum of the features. */
  lemma GeneratedWeight(s: State, b: Block)
    ensures GeneratedRank(s, b) == Rank(-Weight(b, s.clock - b.lastUsed), b.lastUsed, b.id)
  {
    hide WeightOf, RANKS_0, RANKS_1, RANKS_2, RANKS_3;
    var recent, generated := s.clock - b.lastUsed <= 3, b.kind == "generated";
    var row := if generated then if recent then RANKS_3 else RANKS_2 else if recent then RANKS_1 else RANKS_0;
    RankRow(RANKS_0, false, false);
    RankRow(RANKS_1, true, false);
    RankRow(RANKS_2, false, true);
    RankRow(RANKS_3, true, true);
    var low := Low(b.kind == "prompt", b.shared, b.reuse >= 2, b.group == "sliding");
    assert EVICTION_RANK[FeatureMask(b, s.clock)] == row[low];
    SameWeight(b, s.clock - b.lastUsed);
  }

  lemma SameWeight(b: Block, age: int)
    ensures Weight(b, age) ==
            WeightOf(b.kind == "prompt", b.shared, b.reuse >= 2, b.group == "sliding", age <= 3, b.kind == "generated")
  {
  }

  /** The generated policy evicts the unowned block of greatest weight, the least recently used of equals. */
  lemma GeneratedEvicts(s: State, h: seq<int>, t: Touch, owner: string, v: int)
    requires Inv(s) && KindOk(t) && History(s, h) && Evicts(s, Ranked(GeneratedRank), t, owner, v)
    ensures IsUnowned(s, v)
    ensures var now := |h| + 1;
            forall id :: IsUnowned(s, id) && id != v ==>
              var x, y := Weight(s.blocks[v], now - LastTouch(h, v)), Weight(s.blocks[id], now - LastTouch(h, id));
              x > y || (x == y && LastTouch(h, v) < LastTouch(h, id))
  {
    hide Evicts, History, Inv, Weight, GeneratedRank, LastTouch, FirstTouch;
    RepositoryPoliciesRankById();
    VictimChosen(GeneratedRank, s, h, t, owner, v);
    forall id | IsUnowned(s, id) && id != v
      ensures var now := |h| + 1;
              var x, y := Weight(s.blocks[v], now - LastTouch(h, v)), Weight(s.blocks[id], now - LastTouch(h, id));
              x > y || (x == y && LastTouch(h, v) < LastTouch(h, id))
    {
      assert Chosen(GeneratedRank, s, h, v, id);
      GeneratedWeight(s.(clock := s.clock + 1), s.blocks[v]);
      GeneratedWeight(s.(clock := s.clock + 1), s.blocks[id]);
    }
  }

  /** A policy whose proposals are all refused evicts as the least recently used one does. */
  lemma RefusedEvictsOldest(s: State, h: seq<int>, policy: Policy, t: Touch, owner: string, v: int)
    requires Inv(s) && KindOk(t) && History(s, h) && Evicts(s, policy, t, owner, v)
    requires var s1 := s.(clock := s.clock + 1); !ValidProposal(s1, policy(s1, 1).0, 1)
    ensures IsUnowned(s, v)
    ensures forall id :: IsUnowned(s, id) && id != v ==> LastTouch(h, v) < LastTouch(h, id)
  {
    hide Access;
    var s1 := s.(clock := s.clock + 1);
    AccessVictim(s, policy, t, owner, v);
    SameVictims(s1, policy);
    RankedVictim(LruRank, s1, v);
    assert IsUnowned(s1, v);
    forall id | IsUnowned(s, id) && id != v ensures LastTouch(h, v) < LastTouch(h, id) {
      assert IsUnowned(s1, id);
      TouchedApart(s, h, v, id);
    }
  }

  lemma SameVictims(s: State, policy: Policy)
    requires Inv(s) && |s.blocks| >= s.capacity && !ValidProposal(s, policy(s, 1).0, 1) && MakeRoom(s, policy).Ok?
    ensures MakeRoom(s, Ranked(LruRank)).Ok?
    ensures MakeRoom(s, Ranked(LruRank)).value.0 == MakeRoom(s, policy).value.0
  {
    MakeRoomKeeps(s, policy);
    MakeRoomKeeps(s, Ranked(LruRank));
    RankedAccepted(LruRank, s, 1);
    MakeRoomFull(s, policy);
    MakeRoomFull(s, Ranked(LruRank));
  }

  /**
   * Over a whole run under the least recently used policy: when serving the next touch of a request evicts a
   * block, no unowned block was last touched earlier, in the list of all touches served before.
   */
  lemma RunEvictsOldest(capacity: int, groups: seq<Group>, requests: seq<Request>, r: Request, k: nat, v: int)
    requires 1 <= capacity && k < |CacheModel.Touches(groups, r)|
    requires Run(Empty(capacity), groups, Ranked(LruRank), requests).Ok?
    requires var s := Run(Empty(capacity), groups, Ranked(LruRank), requests).value.0;
             var f, touches := Frame(s, {}, WindowsOf(groups)), CacheModel.Touches(groups, r);
             Serve(f, Ranked(LruRank), touches[..k], r.id).Ok? &&
             Evicts(Serve(f, Ranked(LruRank), touches[..k], r.id).value.0.state, Ranked(LruRank), touches[k], r.id, v)
    ensures var s := Run(Empty(capacity), groups, Ranked(LruRank), requests).value.0;
            var f, touches := Frame(s, {}, WindowsOf(groups)), CacheModel.Touches(groups, r);
            var h := RunIds(Empty(capacity), groups, Ranked(LruRank), requests) +
                     ServedIds(f, Ranked(LruRank), touches[..k], r.id);
            var now := Serve(f, Ranked(LruRank), touches[..k], r.id).value.0.state;
            IsUnowned(now, v) && forall id :: IsUnowned(now, id) && id != v ==> LastTouch(h, v) < LastTouch(h, id)
  {
    var policy := Ranked(LruRank);
    EmptyInv(capacity);
    RunSafe(Empty(capacity), groups, policy, requests);
    RunHistory(capacity, groups, policy, requests);
    var s := Run(Empty(capacity), groups, policy, requests).value.0;
    var f, touches := Frame(s, {}, WindowsOf(groups)), CacheModel.Touches(groups, r);
    var h := RunIds(Empty(capacity), groups, policy, requests);
    StartFrame(s, groups, r.id);
    TouchesKnown(groups, r);
    ServeKeeps(f, policy, touches[..k], r.id, groups);
    ServeHistory(f, h, policy, touches[..k], r.id, groups);
    assert TouchOf(touches[k], groups);
    var g := Serve(f, policy, touches[..k], r.id).value.0;
    LruEvictsOldest(g.state, h + ServedIds(f, policy, touches[..k], r.id), touches[k], r.id, v);
  }
}
