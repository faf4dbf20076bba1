/** Snapshots taken between requests, and why resuming from one changes nothing. */
module CacheCheckpoint {
  import opened CacheModel
  import opened CacheSafety
  import opened CacheRequests

  /** The serialised state: blocks in id order; the key index is not stored. */
  datatype Payload = Payload(capacity: int, clock: int, nextId: int, blocks: seq<Block>)

  function IdRanks(ids: seq<int>): seq<Rank> { seq(|ids|, i requires 0 <= i < |ids| => Rank(0, 0, ids[i])) }

  function SortedIds(ids: seq<int>): seq<int> { Ids(Sort(IdRanks(ids))) }

  function BlocksOf(s: State, ids: seq<int>): seq<Block>
    requires forall id :: id in ids ==> id in s.blocks
  {
    if ids == [] then []
    else
      var last := ids[|ids| - 1];
      assert last in ids;
      BlocksOf(s, ids[..|ids| - 1]) + [s.blocks[last]]
  }

  lemma SortedIdsMembers(ids: seq<int>)
    ensures forall id :: id in SortedIds(ids) ==> id in ids
  {
    SortKeeps(IdRanks(ids));
    forall i | 0 <= i < |SortedIds(ids)| ensures SortedIds(ids)[i] in ids {
      assert Sort(IdRanks(ids))[i] in multiset(Sort(IdRanks(ids)));
      assert Sort(IdRanks(ids))[i] in IdRanks(ids);
    }
  }

  function Snapshot(s: State): Payload
    requires OrderOk(s)
  {
    SortedIdsMembers(s.order);
    Payload(s.capacity, s.clock, s.nextId, BlocksOf(s, SortedIds(s.order)))
  }

  /** Dictionary assignments: a repeated id keeps its place and takes the later block. */
  function Load(s: State, blocks: seq<Block>): State {
    if blocks == [] then s
    else
      var s1, b := Load(s, blocks[..|blocks| - 1]), blocks[|blocks| - 1];
      s1.(order := if b.id in s1.blocks then s1.order else s1.order + [b.id],
          blocks := s1.blocks[b.id := b], index := s1.index[(b.group, b.key) := b.id])
  }

  function Restore(p: Payload): Outcome<State> {
    if p.capacity < 1 then Raised("capacity_blocks must be positive")
    else
      var s := Load(State(p.capacity, p.clock, p.nextId, [], map[], map[]), p.blocks);
      if Validates(s) then Ok(s) else Raised("invalid state")
  }

  lemma {:induction false} InsertLast(x: Rank, sorted: seq<Rank>)
    requires forall i :: 0 <= i < |sorted| ==> !Before(x, sorted[i])
    ensures Insert(x, sorted) == sorted + [x]
  {
    if sorted != [] {
      InsertLast(x, sorted[1..]);
      assert sorted == [sorted[0]] + sorted[1..];
    }
  }

  lemma {:induction false} SortIncreasing(ids: seq<int>)
    requires Increasing(ids)
    ensures Sort(IdRanks(ids)) == IdRanks(ids)
  {
    if ids != [] {
      var n := |ids| - 1;
      assert IdRanks(ids)[..n] == IdRanks(ids[..n]);
      SortIncreasing(ids[..n]);
      InsertLast(Rank(0, 0, ids[n]), IdRanks(ids[..n]));
      assert IdRanks(ids) == IdRanks(ids[..n]) + [Rank(0, 0, ids[n])];
    }
  }

  /** What loading the first blocks gives. */
  ghost predicate LoadedPart(s: State, ids: seq<int>, loaded: State) {
    loaded.capacity == s.capacity && loaded.clock == s.clock && loaded.nextId == s.nextId && loaded.order == ids &&
    (forall id :: id in loaded.blocks <==> id in ids) &&
    (forall id :: id in loaded.blocks ==> id in s.blocks && loaded.blocks[id] == s.blocks[id]) &&
    (forall k :: k in loaded.index ==> k in s.index && loaded.index[k] == s.index[k]) &&
    forall k :: k in s.index && s.index[k] in ids ==> k in loaded.index
  }

  function Blank(s: State): State { State(s.capacity, s.clock, s.nextId, [], map[], map[]) }

  lemma {:induction false} LoadPrefix(s: State, ids: seq<int>)
    requires Inv(s) && ids <= s.order && forall id :: id in ids ==> id in s.blocks
    ensures LoadedPart(s, ids, Load(Blank(s), BlocksOf(s, ids)))
  {
    if ids != [] {
      var prefix, id := ids[..|ids| - 1], ids[|ids| - 1];
      LoadPrefix(s, prefix);
      var blocks := BlocksOf(s, prefix);
      assert ids == prefix + [id];
      LoadOne(s, prefix, id, Load(Blank(s), blocks));
      LoadSnoc(Blank(s), blocks, s.blocks[id]);
      BlocksSnoc(s, prefix, id);
    }
  }

  lemma BlocksSnoc(s: State, ids: seq<int>, id: int)
    requires (forall i :: i in ids ==> i in s.blocks) && id in s.blocks
    ensures BlocksOf(s, ids + [id]) == BlocksOf(s, ids) + [s.blocks[id]]
  {
  }

  lemma LoadSnoc(s: State, blocks: seq<Block>, b: Block)
    ensures var s1 := Load(s, blocks);
            Load(s, blocks + [b]) ==
              s1.(order := if b.id in s1.blocks then s1.order else s1.order + [b.id],
                  blocks := s1.blocks[b.id := b], index := s1.index[(b.group, b.key) := b.id])
  {
    assert (blocks + [b])[..|blocks|] == blocks;
  }

  lemma LoadOne(s: State, ids: seq<int>, id: int, loaded: State)
    requires Inv(s) && ids + [id] <= s.order && id in s.blocks && LoadedPart(s, ids, loaded)
    ensures id !in loaded.blocks
    ensures var b := s.blocks[id];
            b.id == id &&
            LoadedPart(s, ids + [id], loaded.(order := ids + [id], blocks := loaded.blocks[id := b],
                                              index := loaded.index[(b.group, b.key) := id]))
  {
    assert BlockOk(s, id) && s.order[|ids|] == id;
    assert forall i :: 0 <= i < |ids| ==> ids[i] == s.order[i] < id;
    forall k | k in s.index && s.index[k] == id ensures k == (s.blocks[id].group, s.blocks[id].key) {
      assert EntryOk(s, k);
    }
  }

  lemma LoadAll(s: State)
    requires Inv(s)
    ensures Load(Blank(s), BlocksOf(s, s.order)) == s
  {
    LoadPrefix(s, s.order);
    PartIsAll(s, Load(Blank(s), BlocksOf(s, s.order)));
  }

  lemma PartIsAll(s: State, loaded: State)
    requires Inv(s) && LoadedPart(s, s.order, loaded)
    ensures loaded == s
  {
    forall id | id in s.blocks ensures id in loaded.blocks { assert id in s.order; }
    forall k | k in s.index ensures k in loaded.index {
      var id := s.index[k];
      assert EntryOk(s, k) && id in s.blocks;
      assert id in s.order;
    }
    SameBlocks(loaded.blocks, s.blocks);
    assert loaded.index == s.index;
  }

  lemma SameBlocks(a: map<int, Block>, b: map<int, Block>)
    requires forall id :: id in a ==> id in b && a[id] == b[id]
    requires forall id :: id in b ==> id in a
    ensures a == b
  {
    forall id | id in a.Keys ensures id in b.Keys {}
    forall id | id in b.Keys ensures id in a.Keys {}
    assert a.Keys == b.Keys;
    forall id | id in a.Keys ensures a[id] == b[id] {}
  }

  /** Restoring a snapshot rebuilds the very same state, key index and iteration order included. */
  lemma RestoreSnapshot(s: State)
    requires Inv(s)
    ensures Restore(Snapshot(s)) == Ok(s)
  {
    SortIncreasing(s.order);
    assert SortedIds(s.order) == s.order;
    LoadAll(s);
    InvValidates(s);
  }

  lemma RunSnoc(s: State, groups: seq<Group>, policy: Policy, requests: seq<Request>, r: Request)
    ensures Run(s, groups, policy, requests + [r]) ==
            match Run(s, groups, policy, requests)
            case Raised(reason) => Raised(reason)
            case Ok((s1, events)) =>
              (match Process(s1, groups, policy, r)
               case Raised(reason) => Raised(reason)
               case Ok((s2, more)) => Ok((s2, events + more)))
  {
    assert (requests + [r])[..|requests|] == requests;
  }

  lemma LastApart<T>(a: seq<T>, b: seq<T>)
    requires b != []
    ensures var prefix, x := b[..|b| - 1], b[|b| - 1];
            b == prefix + [x] && a + b == (a + prefix) + [x]
  {
  }

  lemma {:induction false} RunConcat(s: State, groups: seq<Group>, policy: Policy, a: seq<Request>, b: seq<Request>)
    requires Run(s, groups, policy, a).Ok?
    ensures var (s1, events) := Run(s, groups, policy, a).value;
            match Run(s1, groups, policy, b)
            case Ok((s2, more)) => Run(s, groups, policy, a + b) == Ok((s2, events + more))
            case Raised(reason) => Run(s, groups, policy, a + b) == Raised(reason)
  {
    var (s1, events) := Run(s, groups, policy, a).value;
    if b == [] {
      assert a + b == a && events + [] == events;
    } else {
      hide *;
      var prefix, r := b[..|b| - 1], b[|b| - 1];
      RunConcat(s, groups, policy, a, prefix);
      LastApart(a, b);
      RunSnoc(s, groups, policy, a + prefix, r);
      RunSnoc(s1, groups, policy, prefix, r);
      ConcatMore(events, Run(s1, groups, policy, prefix), groups, policy, r);
    }
  }

  lemma ConcatMore(events: seq<Event>, mid: Outcome<(State, seq<Event>)>, groups: seq<Group>, policy: Policy,
                   r: Request)
    ensures mid.Ok? && Process(mid.value.0, groups, policy, r).Ok? ==>
              var last := Process(mid.value.0, groups, policy, r).value.1;
              events + (mid.value.1 + last) == (events + mid.value.1) + last
  {
  }

  /**
   * Stopping after `first`, restoring the snapshot and serving `rest` ends exactly where the
   * uninterrupted run ends, for every policy: same final state, same metrics from there on.
   */
  lemma ResumeTransparent(s: State, groups: seq<Group>, policy: Policy, first: seq<Request>, rest: seq<Request>)
    requires Inv(s) && NoOwners(s) && Run(s, groups, policy, first).Ok?
    ensures var (stopped, events) := Run(s, groups, policy, first).value;
            OrderOk(stopped) && Restore(Snapshot(stopped)).Ok? &&
            match Run(Restore(Snapshot(stopped)).value, groups, policy, rest)
            case Ok((last, more)) =>
              Run(s, groups, policy, first + rest) == Ok((last, events + more)) &&
              forall m :: Tally(m, events + more) == Tally(Tally(m, events), more)
            case Raised(reason) => Run(s, groups, policy, first + rest) == Raised(reason)
  {
    RunSafe(s, groups, policy, first);
    var (stopped, events) := Run(s, groups, policy, first).value;
    RestoreSnapshot(stopped);
    RunConcat(s, groups, policy, first, rest);
    if Run(stopped, groups, policy, rest).Ok? {
      var more := Run(stopped, groups, policy, rest).value.1;
      forall m ensures Tally(m, events + more) == Tally(Tally(m, events), more) { TallyConcat(m, events, more); }
    }
  }
}
