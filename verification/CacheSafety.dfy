/** What every request keeps, whatever the eviction policy proposes. */
module CacheSafety {
  import opened CacheModel

  // ----- the state invariant -------------------------------------------------------------------

  predicate Increasing(ids: seq<int>) { forall i, j :: 0 <= i < j < |ids| ==> ids[i] < ids[j] }

  predicate BlockOk(s: State, id: int)
    requires id in s.blocks
  {
    var b := s.blocks[id];
    0 <= id < s.nextId && b.id == id &&
    (b.group, b.key) in s.index && s.index[(b.group, b.key)] == id &&
    (b.kind == "prompt" || b.kind == "generated") && 0 <= b.createdAt <= b.lastUsed <= s.clock && 0 <= b.reuse
  }

  predicate EntryOk(s: State, identity: (string, string))
    requires identity in s.index
  {
    s.index[identity] in s.blocks &&
    (s.blocks[s.index[identity]].group, s.blocks[s.index[identity]].key) == identity
  }

  ghost predicate SizesOk(s: State) {
    1 <= s.capacity && 0 <= s.clock && 0 <= s.nextId && |s.blocks| <= s.capacity && |s.index| == |s.blocks|
  }

  ghost predicate OrderOk(s: State) {
    Increasing(s.order) && forall id :: id in s.order <==> id in s.blocks
  }

  ghost predicate EntriesOk(s: State) {
    (forall id :: id in s.blocks ==> BlockOk(s, id)) &&
    forall identity :: identity in s.index ==> EntryOk(s, identity)
  }

  ghost predicate AllApart(s: State) {
    forall i, j :: i in s.blocks && j in s.blocks && i != j ==> UsedApart(s, i, j)
  }

  /**
   * The cache never holds more than its capacity, the key index is the exact inverse of the
   * blocks, no id is reused, the dictionary iterates in id order and no two blocks were last used
   * at the same tick.
   */
  ghost predicate Inv(s: State) { SizesOk(s) && OrderOk(s) && EntriesOk(s) && AllApart(s) }

  predicate UsedApart(s: State, i: int, j: int)
    requires i in s.blocks && j in s.blocks
  {
    s.blocks[i].lastUsed != s.blocks[j].lastUsed
  }

  lemma EmptyInv(capacity: int)
    requires 1 <= capacity
    ensures Inv(Empty(capacity))
  {
  }

  lemma InvValidates(s: State)
    requires Inv(s)
    ensures Validates(s)
  {
    forall id | id in s.blocks ensures BlockSound(s, id) { assert BlockOk(s, id); }
    forall i, j | i in s.blocks && j in s.blocks && i != j
      ensures (s.blocks[i].group, s.blocks[i].key) != (s.blocks[j].group, s.blocks[j].key)
    {
      assert BlockOk(s, i) && BlockOk(s, j);
    }
  }

  // ----- sorting -------------------------------------------------------------------------------

  lemma {:induction false} InsertKeeps(x: Rank, sorted: seq<Rank>)
    ensures multiset(Insert(x, sorted)) == multiset(sorted) + multiset{x}
  {
    if sorted != [] && !Before(x, sorted[0]) {
      InsertKeeps(x, sorted[1..]);
      assert sorted == [sorted[0]] + sorted[1..];
    }
  }

  lemma {:induction false} SortKeeps(ranks: seq<Rank>)
    ensures multiset(Sort(ranks)) == multiset(ranks)
  {
    if ranks != [] {
      var n := |ranks| - 1;
      SortKeeps(ranks[..n]);
      InsertKeeps(ranks[n], Sort(ranks[..n]));
      assert ranks == ranks[..n] + [ranks[n]];
    }
  }

  predicate InRankOrder(ranks: seq<Rank>) { forall i, j :: 0 <= i < j < |ranks| ==> !Before(ranks[j], ranks[i]) }

  lemma {:induction false} InsertSorted(x: Rank, sorted: seq<Rank>)
    requires InRankOrder(sorted)
    ensures InRankOrder(Insert(x, sorted))
  {
    if sorted != [] && !Before(x, sorted[0]) {
      InsertSorted(x, sorted[1..]);
      InsertKeeps(x, sorted[1..]);
      var rest := Insert(x, sorted[1..]);
      forall j | 0 <= j < |rest| ensures !Before(rest[j], sorted[0]) {
        assert rest[j] in multiset(rest);
        assert rest[j] == x || rest[j] in sorted[1..];
      }
    }
  }

  lemma {:induction false} SortSorts(ranks: seq<Rank>)
    ensures InRankOrder(Sort(ranks))
  {
    if ranks != [] {
      SortSorts(ranks[..|ranks| - 1]);
      InsertSorted(ranks[|ranks| - 1], Sort(ranks[..|ranks| - 1]));
    }
  }

  predicate DistinctIds(ranks: seq<Rank>) { forall i, j :: 0 <= i < j < |ranks| ==> ranks[i].id != ranks[j].id }

  lemma {:induction false} InsertDistinct(x: Rank, sorted: seq<Rank>)
    requires DistinctIds(sorted) && forall i :: 0 <= i < |sorted| ==> sorted[i].id != x.id
    ensures DistinctIds(Insert(x, sorted))
  {
    if sorted != [] && !Before(x, sorted[0]) {
      InsertDistinct(x, sorted[1..]);
      InsertKeeps(x, sorted[1..]);
      var rest := Insert(x, sorted[1..]);
      forall j | 0 <= j < |rest| ensures rest[j].id != sorted[0].id {
        assert rest[j] in multiset(rest);
        assert rest[j] == x || rest[j] in sorted[1..];
      }
    }
  }

  lemma {:induction false} SortDistinct(ranks: seq<Rank>)
    requires DistinctIds(ranks)
    ensures DistinctIds(Sort(ranks))
  {
    if ranks != [] {
      var n := |ranks| - 1;
      SortDistinct(ranks[..n]);
      SortKeeps(ranks[..n]);
      var sorted := Sort(ranks[..n]);
      forall i | 0 <= i < |sorted| ensures sorted[i].id != ranks[n].id {
        assert sorted[i] in multiset(sorted);
        assert sorted[i] in ranks[..n];
      }
      InsertDistinct(ranks[n], sorted);
    }
  }

  // ----- the authority -------------------------------------------------------------------------

  lemma {:induction false} UnownedIncreasing(s: State, ids: seq<int>)
    requires Increasing(ids)
    ensures Increasing(UnownedIn(s, ids))
  {
    if ids != [] {
      var n := |ids| - 1;
      UnownedIncreasing(s, ids[..n]);
      var rest := UnownedIn(s, ids[..n]);
      forall i | 0 <= i < |rest| ensures rest[i] < ids[n] {
        assert rest[i] in rest;
      }
    }
  }

  /** Ranks the policies use: the key of a block ends in its id. */
  ghost predicate RanksById(rank: (State, Block) -> Rank) { forall s, b :: rank(s, b).id == b.id }

  function RanksOf(rank: (State, Block) -> Rank, s: State): (r: seq<Rank>)
    ensures |r| == |Unowned(s)|
    ensures forall i :: 0 <= i < |r| ==> Unowned(s)[i] in s.blocks && r[i] == rank(s, s.blocks[Unowned(s)[i]])
  {
    var unowned := Unowned(s);
    seq(|unowned|, i requires 0 <= i < |unowned| => assert IsUnowned(s, unowned[i]); rank(s, s.blocks[unowned[i]]))
  }

  /** A ranked policy proposes the unowned blocks of smallest rank; nothing else beats them. */
  lemma RankedProposalLeast(rank: (State, Block) -> Rank, s: State, required: nat)
    requires Inv(s) && RanksById(rank)
    ensures var (ids, inspected) := RankedProposal(rank, s, required);
            |ids| == (if required < |Unowned(s)| then required else |Unowned(s)|) &&
            inspected == |Unowned(s)| && Distinct(ids) &&
            (forall i :: 0 <= i < |ids| ==> IsUnowned(s, ids[i])) &&
            forall i, id :: 0 <= i < |ids| && IsUnowned(s, id) && id !in ids ==>
              Before(rank(s, s.blocks[ids[i]]), rank(s, s.blocks[id]))
  {
    var sorted := SortedUnowned(rank, s);
    var (ids, inspected) := RankedProposal(rank, s, required);
    assert ids == Ids(sorted[..|ids|]);
    forall i | 0 <= i < |ids| ensures IsUnowned(s, ids[i]) {
      assert FromBlock(rank, s, sorted[i]);
    }
    forall i, id | 0 <= i < |ids| && IsUnowned(s, id) && id !in ids
      ensures Before(rank(s, s.blocks[ids[i]]), rank(s, s.blocks[id]))
    {
      LeftOutLater(rank, s, sorted, ids, i, id);
    }
  }

  lemma LeftOutLater(rank: (State, Block) -> Rank, s: State, sorted: seq<Rank>, ids: seq<int>, i: nat, id: int)
    requires RanksById(rank) && InRankOrder(sorted) && |ids| <= |sorted| && ids == Ids(sorted[..|ids|])
    requires EntriesOk(s) && i < |ids| && FromBlock(rank, s, sorted[i]) && IsUnowned(s, id) && id !in ids
    requires exists m :: 0 <= m < |sorted| && sorted[m] == rank(s, s.blocks[id])
    ensures IsUnowned(s, ids[i]) && Before(rank(s, s.blocks[ids[i]]), rank(s, s.blocks[id]))
  {
    var m :| 0 <= m < |sorted| && sorted[m] == rank(s, s.blocks[id]);
    assert BlockOk(s, id);
    Taken(sorted, ids, m);
    assert !Before(sorted[m], sorted[i]);
  }

  lemma Taken(sorted: seq<Rank>, ids: seq<int>, m: nat)
    requires |ids| <= |sorted| && ids == Ids(sorted[..|ids|]) && m < |sorted|
    ensures m < |ids| ==> sorted[m].id in ids
  {
    if m < |ids| { assert ids[m] == sorted[m].id; }
  }

  /** The sorted candidate list: distinct ids, every unowned block, nothing else. */
  lemma SortedUnowned(rank: (State, Block) -> Rank, s: State) returns (sorted: seq<Rank>)
    requires Inv(s) && RanksById(rank)
    ensures sorted == Sort(RanksOf(rank, s)) && |sorted| == |Unowned(s)|
    ensures InRankOrder(sorted) && DistinctIds(sorted)
    ensures forall i :: 0 <= i < |sorted| ==> FromBlock(rank, s, sorted[i])
    ensures forall id :: IsUnowned(s, id) ==> exists m :: 0 <= m < |sorted| && sorted[m] == rank(s, s.blocks[id])
  {
    var unowned, ranks := Unowned(s), RanksOf(rank, s);
    sorted := Sort(ranks);
    SortKeeps(ranks);
    SortSorts(ranks);
    UnownedIncreasing(s, s.order);
    assert |sorted| == |multiset(sorted)| == |multiset(ranks)| == |ranks|;
    forall i | 0 <= i < |ranks| ensures ranks[i].id == unowned[i] && FromBlock(rank, s, ranks[i]) {
      assert IsUnowned(s, unowned[i]) && BlockOk(s, unowned[i]);
    }
    forall i | 0 <= i < |sorted| ensures FromBlock(rank, s, sorted[i]) {
      assert sorted[i] in multiset(sorted);
      assert sorted[i] in ranks;
    }
    SortDistinct(ranks);
    forall id | IsUnowned(s, id) ensures exists m :: 0 <= m < |sorted| && sorted[m] == rank(s, s.blocks[id]) {
      assert id in s.order && id in unowned;
      var k :| 0 <= k < |unowned| && unowned[k] == id;
      assert ranks[k] in multiset(ranks);
      assert ranks[k] in sorted;
    }
  }

  predicate FromBlock(rank: (State, Block) -> Rank, s: State, r: Rank) {
    IsUnowned(s, r.id) && r == rank(s, s.blocks[r.id])
  }

  lemma {:induction false} SetOfSeq(ids: seq<int>)
    ensures |set id | id in ids| <= |ids|
    ensures Distinct(ids) ==> |set id | id in ids| == |ids|
  {
    if ids != [] {
      var n := |ids| - 1;
      SetOfSeq(ids[..n]);
      var prefix := set id | id in ids[..n];
      assert (set id | id in ids) == prefix + {ids[n]};
    }
  }

  lemma EnoughUnowned(s: State, ids: seq<int>)
    requires Inv(s) && Distinct(ids) && forall i :: 0 <= i < |ids| ==> IsUnowned(s, ids[i])
    ensures |ids| <= |Unowned(s)|
  {
    var some, all := set id | id in ids, set id | id in Unowned(s);
    SetOfSeq(ids);
    SetOfSeq(Unowned(s));
    forall id | id in some ensures id in all { assert id in s.order; }
    SubsetSize(some, all);
  }

  lemma SubsetSize<T>(a: set<T>, b: set<T>)
    requires a <= b
    ensures |a| <= |b|
  {
    assert b == a + (b - a);
  }

  /** The authority finds a victim exactly when there are enough unowned blocks. */
  lemma AuthorizeIff(s: State, policy: Policy, required: nat)
    requires Inv(s) && required >= 1
    ensures Authorize(s, policy, required).Ok? <==> required <= |Unowned(s)|
    ensures Authorize(s, policy, required).Ok? ==>
              var victims := Authorize(s, policy, required).value.0;
              |victims| == required && Distinct(victims) &&
              forall i :: 0 <= i < required ==> IsUnowned(s, victims[i])
  {
    RankedProposalLeast(LruRank, s, required);
    var proposal := policy(s, required).0;
    if ValidProposal(s, proposal, required) {
      EnoughUnowned(s, proposal[..required]);
    }
  }

  /** A policy that ranks the unowned blocks never needs the fallback. */
  lemma RankedAccepted(rank: (State, Block) -> Rank, s: State, required: nat)
    requires Inv(s) && RanksById(rank) && 1 <= required
    ensures ValidProposal(s, Ranked(rank)(s, required).0, required) <==> required <= |Unowned(s)|
  {
    RankedProposalLeast(rank, s, required);
  }

  lemma RepositoryPoliciesRankById()
    ensures RanksById(LruRank) && RanksById(FifoRank) && RanksById(SegmentedRank) && RanksById(GeneratedRank)
  {
  }

  /** The two adversaries are always caught: a repeated victim, and ids that were never handed out. */
  lemma AdversariesRejected(s: State, required: nat)
    requires Inv(s) && 1 <= required
    ensures !ValidProposal(s, DuplicatePolicy(s, required).0, required)
    ensures !ValidProposal(s, UnknownPolicy(s, required).0, required)
  {
    var repeated, unknown := DuplicatePolicy(s, required).0, UnknownPolicy(s, required).0;
    if |repeated| >= 2 { assert repeated[0] == repeated[1]; }
    assert unknown[0] in s.blocks ==> BlockOk(s, unknown[0]);
  }

  // ----- one access ----------------------------------------------------------------------------

  lemma {:induction false} WithoutIncreasing(ids: seq<int>, id: int)
    requires Increasing(ids)
    ensures Increasing(Without(ids, id))
  {
    if ids != [] {
      var n := |ids| - 1;
      WithoutIncreasing(ids[..n], id);
      var rest := Without(ids[..n], id);
      forall i | 0 <= i < |rest| ensures rest[i] < ids[n] {
        assert rest[i] in rest;
        assert rest[i] in ids[..n];
      }
    }
  }

  lemma EvictInv(s: State, id: int)
    requires Inv(s) && IsUnowned(s, id)
    ensures Evict(s, id).Ok? && Inv(Evict(s, id).value)
    ensures var s1 := Evict(s, id).value;
            s1.blocks == s.blocks - {id} && |s1.blocks| == |s.blocks| - 1 &&
            s1.nextId == s.nextId && s1.clock == s.clock && s1.capacity == s.capacity
  {
    assert BlockOk(s, id);
    var s1 := Evict(s, id).value;
    WithoutIncreasing(s.order, id);
    assert s1.blocks.Keys == s.blocks.Keys - {id};
    assert s1.index.Keys == s.index.Keys - {(s.blocks[id].group, s.blocks[id].key)};
    forall i | i in s1.blocks ensures BlockOk(s1, i) { assert BlockOk(s, i); }
    forall identity | identity in s1.index ensures EntryOk(s1, identity) { assert EntryOk(s, identity); }
    forall i, j | i in s1.blocks && j in s1.blocks && i != j ensures UsedApart(s1, i, j) { assert UsedApart(s, i, j); }
  }

  /** What a freed slot leaves alone. */
  ghost predicate OnlyUnownedLeft(s: State, s1: State) {
    s1.nextId == s.nextId && s1.clock == s.clock && s1.capacity == s.capacity &&
    s1.blocks.Keys <= s.blocks.Keys &&
    (forall id :: id in s1.blocks ==> s1.blocks[id] == s.blocks[id]) &&
    forall id :: id in s.blocks && s.blocks[id].owners != {} ==> id in s1.blocks
  }

  lemma EvictOne(s: State, id: int)
    requires Inv(s) && IsUnowned(s, id)
    ensures EvictAll(s, [id]).Ok?
    ensures var (s1, events) := EvictAll(s, [id]).value;
            Inv(s1) && OnlyUnownedLeft(s, s1) && |s1.blocks| == |s.blocks| - 1 && events == [Evicted]
  {
    EvictInv(s, id);
    assert [id][..0] == [] && EvictAll(s, []) == Ok((s, []));
    assert [] + [Evicted] == [Evicted];
  }

  /** Eviction needs a full cache and an unowned block; it then removes exactly one unowned block. */
  lemma MakeRoomKeeps(s: State, policy: Policy)
    requires Inv(s)
    ensures MakeRoom(s, policy).Raised? <==> |s.blocks| >= s.capacity && |Unowned(s)| == 0
    ensures MakeRoom(s, policy).Raised? ==> MakeRoom(s, policy).reason == "no valid eviction plan is available"
    ensures MakeRoom(s, policy).Ok? ==>
              var (s1, events) := MakeRoom(s, policy).value;
              Inv(s1) && OnlyUnownedLeft(s, s1) && |s1.blocks| < s.capacity &&
              if |s.blocks| < s.capacity then s1 == s && events == []
              else |s1.blocks| == |s.blocks| - 1 &&
                   exists inspected, rejected :: events == [Planned(inspected, rejected), Evicted]
  {
    if |s.blocks| >= s.capacity {
      AuthorizeIff(s, policy, 1);
      MakeRoomFull(s, policy);
      if |Unowned(s)| > 0 { MakeRoomEvicts(s, policy); }
    }
  }

  lemma MakeRoomEvicts(s: State, policy: Policy)
    requires Inv(s) && |s.blocks| >= s.capacity && |Unowned(s)| > 0
    ensures MakeRoom(s, policy).Ok?
    ensures var (s1, events) := MakeRoom(s, policy).value;
            Inv(s1) && OnlyUnownedLeft(s, s1) && |s1.blocks| == |s.blocks| - 1 &&
            exists inspected, rejected :: events == [Planned(inspected, rejected), Evicted]
  {
    var id, inspected, rejected := OneVictim(s, policy);
    MakeRoomFull(s, policy);
    EvictOne(s, id);
    assert [Planned(inspected, rejected)] + [Evicted] == [Planned(inspected, rejected), Evicted];
  }

  lemma OneVictim(s: State, policy: Policy) returns (id: int, inspected: nat, rejected: bool)
    requires Inv(s) && |Unowned(s)| > 0
    ensures IsUnowned(s, id) && Authorize(s, policy, 1) == Ok(([id], [Planned(inspected, rejected)]))
  {
    AuthorizeIff(s, policy, 1);
    var (victims, planned) := Authorize(s, policy, 1).value;
    id, inspected, rejected := victims[0], planned[0].inspected, planned[0].rejected;
    assert victims == [id];
  }

  /** Room in a full cache is what the authority's victims leave. */
  lemma MakeRoomFull(s: State, policy: Policy)
    requires |s.blocks| >= s.capacity
    ensures var plan := Authorize(s, policy, 1);
            if plan.Raised? then
              plan.reason == "no valid eviction plan is available" && MakeRoom(s, policy) == Raised(plan.reason)
            else
              |plan.value.1| == 1 && plan.value.1[0].Planned? &&
              match EvictAll(s, plan.value.0)
              case Raised(reason) => MakeRoom(s, policy) == Raised(reason)
              case Ok((s1, evicted)) => MakeRoom(s, policy) == Ok((s1, plan.value.1 + evicted))
  {
  }

  lemma ReuseInv(s: State, id: int, owner: string)
    requires Inv(s) && id in s.blocks && forall i :: i in s.blocks ==> s.blocks[i].lastUsed < s.clock
    ensures Inv(Reuse(s, id, owner)) && Reuse(s, id, owner).blocks.Keys == s.blocks.Keys
  {
    var s1 := Reuse(s, id, owner);
    assert s1.blocks.Keys == s.blocks.Keys;
    assert EntriesOk(s1) by {
      forall i | i in s1.blocks ensures BlockOk(s1, i) { assert BlockOk(s, i); }
      forall k | k in s1.index ensures EntryOk(s1, k) { assert EntryOk(s, k); }
    }
    forall i, j | i in s1.blocks && j in s1.blocks && i != j ensures UsedApart(s1, i, j) { assert UsedApart(s, i, j); }
  }

  predicate KindOk(t: Touch) { t.kind == "prompt" || t.kind == "generated" }

  lemma AdmitEntries(s: State, t: Touch, owner: string)
    requires EntriesOk(s) && KindOk(t) && (t.group.name, t.key) !in s.index && 0 <= s.clock && 0 <= s.nextId
    ensures EntriesOk(Admit(s, t, owner))
  {
    var s1, id := Admit(s, t, owner), s.nextId;
    forall i | i in s1.blocks ensures BlockOk(s1, i) { if i != id { assert BlockOk(s, i); } }
    forall k | k in s1.index ensures EntryOk(s1, k) {
      if k in s.index {
        assert EntryOk(s, k);
        assert BlockOk(s, s.index[k]);
      }
    }
  }

  lemma AdmitOrder(s: State, t: Touch, owner: string)
    requires OrderOk(s) && EntriesOk(s)
    ensures OrderOk(Admit(s, t, owner))
  {
    var s1, id := Admit(s, t, owner), s.nextId;
    forall i | 0 <= i < |s.order| ensures s.order[i] < id {
      assert s.order[i] in s.order;
      assert BlockOk(s, s.order[i]);
    }
  }

  lemma AdmitInv(s: State, t: Touch, owner: string)
    requires Inv(s) && KindOk(t) && (t.group.name, t.key) !in s.index && |s.blocks| < s.capacity
    requires forall i :: i in s.blocks ==> s.blocks[i].lastUsed < s.clock
    ensures Inv(Admit(s, t, owner)) && |Admit(s, t, owner).blocks| == |s.blocks| + 1
  {
    var s1, id := Admit(s, t, owner), s.nextId;
    AdmitEntries(s, t, owner);
    AdmitOrder(s, t, owner);
    assert id in s.blocks ==> BlockOk(s, id);
    assert s1.blocks.Keys == s.blocks.Keys + {id};
    assert s1.index.Keys == s.index.Keys + {(t.group.name, t.key)};
    AdmitApart(s, t, owner);
  }

  lemma AdmitApart(s: State, t: Touch, owner: string)
    requires AllApart(s) && s.nextId !in s.blocks && forall i :: i in s.blocks ==> s.blocks[i].lastUsed < s.clock
    ensures AllApart(Admit(s, t, owner))
  {
    var s1, id := Admit(s, t, owner), s.nextId;
    forall i, j | i in s1.blocks && j in s1.blocks && i != j ensures UsedApart(s1, i, j) {
      if i != id && j != id { assert UsedApart(s, i, j); }
    }
  }

  /** The totals that tie the counters to the state, starting from an empty cache. */
  predicate Accounts(s: State, m: Metrics) {
    m.misses == s.nextId && m.recomputed == m.misses && m.misses == m.evictions + |s.blocks| &&
    s.clock == m.hits + m.misses && m.rejected == m.fallbacks && m.peak <= s.capacity &&
    m.plannerCalls == m.evictions
  }

  lemma TickInv(s: State)
    requires Inv(s)
    ensures var s1 := s.(clock := s.clock + 1);
            Inv(s1) && Unowned(s1) == Unowned(s) &&
            forall i :: i in s1.blocks ==> s1.blocks[i].lastUsed < s1.clock
  {
    var s1 := s.(clock := s.clock + 1);
    forall i | i in s1.blocks ensures BlockOk(s1, i) && s1.blocks[i].lastUsed < s1.clock { assert BlockOk(s, i); }
    forall k | k in s1.index ensures EntryOk(s1, k) { assert EntryOk(s, k); }
    forall i, j | i in s1.blocks && j in s1.blocks && i != j ensures UsedApart(s1, i, j) { assert UsedApart(s, i, j); }
    UnownedSame(s, s1, s.order);
  }

  lemma HitKeeps(s: State, policy: Policy, t: Touch, owner: string)
    requires Inv(s) && (t.group.name, t.key) in s.index
    ensures Access(s, policy, t, owner).Ok?
    ensures var a := Access(s, policy, t, owner).value;
            Inv(a.state) && a.state.capacity == s.capacity && Holds(s, a, t, owner) && a.events == [Hit] &&
            a.state.clock == s.clock + 1 && a.state.nextId == s.nextId && |a.state.blocks| == |s.blocks|
  {
    var s1, id := s.(clock := s.clock + 1), s.index[(t.group.name, t.key)];
    TickInv(s);
    assert EntryOk(s, (t.group.name, t.key));
    ReuseInv(s1, id, owner);
    HitAccess(s, policy, t, owner);
    ReuseHolds(s, t, owner);
    assert |Reuse(s1, id, owner).blocks.Keys| == |s.blocks.Keys|;
  }

  lemma HitAccess(s: State, policy: Policy, t: Touch, owner: string)
    requires (t.group.name, t.key) in s.index && s.index[(t.group.name, t.key)] in s.blocks
    ensures var id := s.index[(t.group.name, t.key)];
            Access(s, policy, t, owner) == Ok(Accessed(Reuse(s.(clock := s.clock + 1), id, owner), id, [Hit]))
  {
  }

  lemma ReuseHolds(s: State, t: Touch, owner: string)
    requires (t.group.name, t.key) in s.index && EntryOk(s, (t.group.name, t.key))
    ensures var id := s.index[(t.group.name, t.key)];
            Holds(s, Accessed(Reuse(s.(clock := s.clock + 1), id, owner), id, [Hit]), t, owner)
  {
  }

  lemma StillAbsent(s: State, s1: State, identity: (string, string))
    requires EntriesOk(s) && EntriesOk(s1) && OnlyUnownedLeft(s, s1) && identity !in s.index
    ensures identity !in s1.index
  {
    assert identity in s1.index ==> EntryOk(s1, identity) && BlockOk(s, s1.index[identity]);
  }

  /** Admission after room has been made. */
  lemma AdmittedKeeps(s: State, s2: State, events: seq<Event>, t: Touch, owner: string)
    requires Inv(s) && KindOk(t) && (t.group.name, t.key) !in s.index
    requires Inv(s2) && OnlyUnownedLeft(s.(clock := s.clock + 1), s2) && |s2.blocks| < s.capacity
    ensures var a := Accessed(Admit(s2, t, owner), s2.nextId, events);
            Inv(a.state) && a.state.capacity == s.capacity && |a.state.blocks| == |s2.blocks| + 1 &&
            Holds(s, a, t, owner)
  {
    var s1 := s.(clock := s.clock + 1);
    TickInv(s);
    StillAbsent(s1, s2, (t.group.name, t.key));
    StillOlder(s1, s2);
    AdmitInv(s2, t, owner);
    AdmitHolds(s, s2, events, t, owner);
  }

  lemma AdmitHolds(s: State, s2: State, events: seq<Event>, t: Touch, owner: string)
    requires EntriesOk(s) && OnlyUnownedLeft(s.(clock := s.clock + 1), s2)
    ensures Holds(s, Accessed(Admit(s2, t, owner), s2.nextId, events), t, owner)
  {
    assert s.nextId in s.blocks ==> BlockOk(s, s.nextId);
  }

  lemma MissKeeps(s: State, policy: Policy, t: Touch, owner: string)
    requires Inv(s) && KindOk(t) && (t.group.name, t.key) !in s.index
    requires MakeRoom(s.(clock := s.clock + 1), policy).Ok?
    ensures Access(s, policy, t, owner).Ok?
    ensures var a := Access(s, policy, t, owner).value;
            Inv(a.state) && a.state.capacity == s.capacity && Holds(s, a, t, owner) &&
            forall m :: Accounts(s, m) ==> Accounts(a.state, Tally(m, a.events))
  {
    var s1 := s.(clock := s.clock + 1);
    var (s2, events) := MakeRoom(s1, policy).value;
    var s3 := Admit(s2, t, owner);
    var a := Accessed(s3, s2.nextId, [Miss] + events + [Resident(|s3.blocks|)]);
    MissAccess(s, policy, t, owner);
    TickInv(s);
    MakeRoomKeeps(s1, policy);
    AdmittedKeeps(s, s2, a.events, t, owner);
    forall m | Accounts(s, m) ensures Accounts(a.state, Tally(m, a.events)) {
      MissTally(s, s1, s2, events, s3, m);
    }
  }

  lemma MissAccess(s: State, policy: Policy, t: Touch, owner: string)
    requires (t.group.name, t.key) !in s.index && MakeRoom(s.(clock := s.clock + 1), policy).Ok?
    ensures var (s2, events) := MakeRoom(s.(clock := s.clock + 1), policy).value;
            var s3 := Admit(s2, t, owner);
            Access(s, policy, t, owner) ==
            Ok(Accessed(s3, s2.nextId, [Miss] + events + [Resident(|s3.blocks|)]))
  {
    MissIsAfterRoom(s, policy, t, owner);
  }

  lemma StillOlder(s: State, s1: State)
    requires OnlyUnownedLeft(s, s1) && forall i :: i in s.blocks ==> s.blocks[i].lastUsed < s.clock
    ensures forall i :: i in s1.blocks ==> s1.blocks[i].lastUsed < s1.clock
  {
    forall i | i in s1.blocks ensures s1.blocks[i].lastUsed < s1.clock { assert s1.blocks[i] == s.blocks[i]; }
  }

  lemma HitOk(s: State, policy: Policy, t: Touch, owner: string)
    requires Inv(s) && (t.group.name, t.key) in s.index
    ensures Access(s, policy, t, owner).Ok?
  {
    assert EntryOk(s, (t.group.name, t.key));
  }

  lemma MissIsAfterRoom(s: State, policy: Policy, t: Touch, owner: string)
    requires (t.group.name, t.key) !in s.index
    ensures Access(s, policy, t, owner) == AfterRoom(MakeRoom(s.(clock := s.clock + 1), policy), t, owner)
  {
  }

  lemma MissOutcome(s: State, policy: Policy, t: Touch, owner: string)
    requires (t.group.name, t.key) !in s.index
    ensures var room, access := MakeRoom(s.(clock := s.clock + 1), policy), Access(s, policy, t, owner);
            if room.Ok? then access.Ok? else access.Raised? && access.reason == room.reason
  {
    MissIsAfterRoom(s, policy, t, owner);
    AfterRoomOutcome(MakeRoom(s.(clock := s.clock + 1), policy), t, owner);
  }

  lemma AfterRoomOutcome(room: Outcome<(State, seq<Event>)>, t: Touch, owner: string)
    ensures var access := AfterRoom(room, t, owner);
            if room.Ok? then access.Ok? else access.Raised? && access.reason == room.reason
  {
  }

  lemma AccessRaisedIff(s: State, policy: Policy, t: Touch, owner: string)
    requires Inv(s) && KindOk(t)
    ensures var full := (t.group.name, t.key) !in s.index && |s.blocks| >= s.capacity;
            Access(s, policy, t, owner).Raised? <==> full && |Unowned(s)| == 0
    ensures Access(s, policy, t, owner).Raised? ==>
              Access(s, policy, t, owner).reason == "no valid eviction plan is available"
  {
    if (t.group.name, t.key) in s.index {
      HitOk(s, policy, t, owner);
    } else {
      MissOutcome(s, policy, t, owner);
      TickInv(s);
      MakeRoomKeeps(s.(clock := s.clock + 1), policy);
    }
  }

  /**
   * One access, whatever the policy: it fails exactly when it misses in a full cache whose blocks
   * are all owned; otherwise every invariant and every running total survives.
   */
  lemma AccessKeeps(s: State, policy: Policy, t: Touch, owner: string)
    requires Inv(s) && KindOk(t)
    ensures var full := (t.group.name, t.key) !in s.index && |s.blocks| >= s.capacity;
            Access(s, policy, t, owner).Raised? <==> full && |Unowned(s)| == 0
    ensures Access(s, policy, t, owner).Raised? ==>
              Access(s, policy, t, owner).reason == "no valid eviction plan is available"
    ensures Access(s, policy, t, owner).Ok? ==>
              var a := Access(s, policy, t, owner).value;
              Inv(a.state) && a.state.capacity == s.capacity && Holds(s, a, t, owner) && Touched(s, a, t, owner) &&
              forall m :: Accounts(s, m) ==> Accounts(a.state, Tally(m, a.events))
  {
    AccessRaisedIff(s, policy, t, owner);
    if Access(s, policy, t, owner).Ok? { AccessTouches(s, policy, t, owner); }
    if (t.group.name, t.key) in s.index {
      HitTotals(s, policy, t, owner);
    } else if Access(s, policy, t, owner).Ok? {
      MissOutcome(s, policy, t, owner);
      MissKeeps(s, policy, t, owner);
    }
  }

  lemma HitTotals(s: State, policy: Policy, t: Touch, owner: string)
    requires Inv(s) && (t.group.name, t.key) in s.index
    ensures Access(s, policy, t, owner).Ok?
    ensures var a := Access(s, policy, t, owner).value;
            Inv(a.state) && a.state.capacity == s.capacity && Holds(s, a, t, owner) &&
            forall m :: Accounts(s, m) ==> Accounts(a.state, Tally(m, a.events))
  {
    HitKeeps(s, policy, t, owner);
    forall m ensures Tally(m, [Hit]) == Count(m, Hit) { TallyOne(m, Hit); }
  }

  /** The block that served the access, and what else may have changed. */
  ghost predicate Holds(s: State, a: Accessed, t: Touch, owner: string) {
    var s1 := a.state;
    a.id in s1.blocks && s1.blocks[a.id].group == t.group.name && s1.blocks[a.id].key == t.key &&
    (a.id in s.blocks || a.id == s.nextId) &&
    s1.blocks[a.id].owners == (if a.id in s.blocks then s.blocks[a.id].owners + {owner} else {owner}) &&
    (forall id :: id in s1.blocks && id != a.id ==> id in s.blocks && s1.blocks[id] == s.blocks[id]) &&
    forall id :: id in s.blocks && s.blocks[id].owners != {} ==> id in s1.blocks
  }

  /**
   * An access takes one tick. A hit marks the block of the key as used at this tick, once more, by the
   * owner, and changes nothing else of it; a miss admits a new block under the next id.
   */
  ghost predicate Touched(s: State, a: Accessed, t: Touch, owner: string) {
    var s1, now := a.state, s.clock + 1;
    s1.clock == now && a.id in s1.blocks &&
    if (t.group.name, t.key) in s.index then
      s.index[(t.group.name, t.key)] == a.id && a.id in s.blocks && s1.nextId == s.nextId && s1.index == s.index &&
      s1.blocks.Keys == s.blocks.Keys &&
      var b, b1 := s.blocks[a.id], s1.blocks[a.id];
      b1.lastUsed == now && b1.reuse == b.reuse + 1 && b1.owners == b.owners + {owner} &&
      b1.createdAt == b.createdAt && b1.kind == b.kind && b1.shared == b.shared &&
      b1.id == b.id && b1.group == b.group && b1.key == b.key
    else
      a.id == s.nextId && s1.nextId == s.nextId + 1 &&
      var b1 := s1.blocks[a.id];
      b1.lastUsed == now && b1.createdAt == now && b1.reuse == 0 && b1.owners == {owner} && b1.id == a.id &&
      b1.group == t.group.name && b1.key == t.key && b1.kind == t.kind && b1.shared == t.shared
  }

  lemma HitTouches(s: State, policy: Policy, t: Touch, owner: string)
    requires Inv(s) && (t.group.name, t.key) in s.index
    ensures Access(s, policy, t, owner).Ok? && Touched(s, Access(s, policy, t, owner).value, t, owner)
  {
    assert EntryOk(s, (t.group.name, t.key));
    HitAccess(s, policy, t, owner);
    var s1, id := s.(clock := s.clock + 1), s.index[(t.group.name, t.key)];
    assert Reuse(s1, id, owner).blocks.Keys == s.blocks.Keys;
  }

  lemma MissTouches(s: State, policy: Policy, t: Touch, owner: string)
    requires Inv(s) && (t.group.name, t.key) !in s.index && MakeRoom(s.(clock := s.clock + 1), policy).Ok?
    ensures Access(s, policy, t, owner).Ok? && Touched(s, Access(s, policy, t, owner).value, t, owner)
  {
    MissAccess(s, policy, t, owner);
    TickInv(s);
    MakeRoomKeeps(s.(clock := s.clock + 1), policy);
  }

  lemma AccessTouches(s: State, policy: Policy, t: Touch, owner: string)
    requires Inv(s) && KindOk(t) && Access(s, policy, t, owner).Ok?
    ensures Touched(s, Access(s, policy, t, owner).value, t, owner)
  {
    if (t.group.name, t.key) in s.index {
      HitTouches(s, policy, t, owner);
    } else {
      MissOutcome(s, policy, t, owner);
      MissTouches(s, policy, t, owner);
    }
  }

  lemma {:induction false} UnownedSame(s: State, s1: State, ids: seq<int>)
    requires s1.blocks == s.blocks
    ensures UnownedIn(s1, ids) == UnownedIn(s, ids)
  {
    if ids != [] { UnownedSame(s, s1, ids[..|ids| - 1]); }
  }

  lemma MissTally(s: State, s1: State, s2: State, events: seq<Event>, s3: State, m: Metrics)
    requires s1 == s.(clock := s.clock + 1) && s2.nextId == s1.nextId && s2.clock == s1.clock
    requires s3.nextId == s2.nextId + 1 && s3.clock == s2.clock && |s3.blocks| == |s2.blocks| + 1
    requires |s2.blocks| < s.capacity && s3.capacity == s.capacity && Accounts(s, m)
    requires if events == [] then |s2.blocks| == |s1.blocks|
             else |s2.blocks| == |s1.blocks| - 1 &&
                  exists inspected, rejected :: events == [Planned(inspected, rejected), Evicted]
    ensures Accounts(s3, Tally(m, [Miss] + events + [Resident(|s3.blocks|)]))
  {
    var m1 := Count(m, Miss);
    TallyOne(m, Miss);
    TallyConcat(m, [Miss], events);
    TallyConcat(m, [Miss] + events, [Resident(|s3.blocks|)]);
    TallyOne(Tally(m1, events), Resident(|s3.blocks|));
    if events != [] {
      var inspected, rejected :| events == [Planned(inspected, rejected), Evicted];
      TallyConcat(m1, [Planned(inspected, rejected)], [Evicted]);
      assert [Planned(inspected, rejected)] + [Evicted] == events;
      TallyOne(m1, Planned(inspected, rejected));
      TallyOne(Count(m1, Planned(inspected, rejected)), Evicted);
    }
  }

  lemma TallyOne(m: Metrics, e: Event)
    ensures Tally(m, [e]) == Count(m, e)
  {
    assert [e][..0] == [];
  }
}
