/**
 * CacheForge: the bounded key-value cache, its eviction authority and the service of one request,
 * as pure functions of the state.  `CacheSimulator` carries out the same steps in place.
 */
module CacheModel {
  import opened Prelude

  datatype Outcome<+T> = Ok(value: T) | Raised(reason: string) {
    predicate IsFailure() { Raised? }

    function PropagateFailure<U>(): Outcome<U>
      requires Raised?
    {
      Raised(reason)
    }

    function Extract(): T
      requires Ok?
    {
      value
    }
  }

  datatype Mode = Full | Sliding(window: nat)

  datatype Group = Group(name: string, mode: Mode)

  datatype Request = Request(id: string, prompts: seq<string>, generated: nat, cancelAfter: Option<nat>)

  datatype Block = Block(id: int, group: string, key: string, kind: string, shared: bool,
                         createdAt: int, lastUsed: int, reuse: int, owners: set<string>)

  /** `order` is the iteration order of the dictionary of blocks. */
  datatype State = State(capacity: int, clock: int, nextId: int, order: seq<int>,
                         blocks: map<int, Block>, index: map<(string, string), int>)

  /** Proposes victims and says how many candidates it inspected. */
  type Policy = (State, nat) -> (seq<int>, nat)

  /** What the metrics count. */
  datatype Event =
    | Started | Cancelled | Hit | Miss | Planned(inspected: nat, rejected: bool) | Evicted | Resident(count: nat)

  function Empty(capacity: int): State { State(capacity, 0, 0, [], map[], map[]) }

  // ----- eviction ------------------------------------------------------------------------------

  /** Sort key of a ranked policy; every key of the repository's policies ends in the block id. */
  datatype Rank = Rank(major: int, minor: int, id: int)

  predicate Before(a: Rank, b: Rank) {
    a.major < b.major || (a.major == b.major && (a.minor < b.minor || (a.minor == b.minor && a.id < b.id)))
  }

  function Insert(x: Rank, sorted: seq<Rank>): seq<Rank> {
    if sorted == [] || Before(x, sorted[0]) then [x] + sorted else [sorted[0]] + Insert(x, sorted[1..])
  }

  function Sort(ranks: seq<Rank>): seq<Rank> {
    if ranks == [] then [] else Insert(ranks[|ranks| - 1], Sort(ranks[..|ranks| - 1]))
  }

  predicate IsUnowned(s: State, id: int) { id in s.blocks && s.blocks[id].owners == {} }

  function UnownedIn(s: State, ids: seq<int>): (r: seq<int>)
    ensures forall id :: id in r <==> id in ids && IsUnowned(s, id)
    ensures forall i :: 0 <= i < |r| ==> IsUnowned(s, r[i])
  {
    if ids == [] then []
    else
      var rest := UnownedIn(s, ids[..|ids| - 1]);
      if IsUnowned(s, ids[|ids| - 1]) then rest + [ids[|ids| - 1]] else rest
  }

  function Unowned(s: State): seq<int> { UnownedIn(s, s.order) }

  function Ids(ranks: seq<Rank>): seq<int> { seq(|ranks|, i requires 0 <= i < |ranks| => ranks[i].id) }

  /** A policy that takes the unowned blocks with the smallest ranks. */
  function Ranked(rank: (State, Block) -> Rank): Policy {
    (s: State, required: nat) => RankedProposal(rank, s, required)
  }

  function RankedProposal(rank: (State, Block) -> Rank, s: State, required: nat): (seq<int>, nat) {
    var unowned := Unowned(s);
    var ranks := seq(|unowned|, i requires 0 <= i < |unowned| =>
      assert IsUnowned(s, unowned[i]); rank(s, s.blocks[unowned[i]]));
    var sorted := Sort(ranks);
    var count := if required < |sorted| then required else |sorted|;
    (Ids(sorted[..count]), |unowned|)
  }

  function LruRank(s: State, b: Block): Rank { Rank(0, b.lastUsed, b.id) }

  function FifoRank(s: State, b: Block): Rank { Rank(0, b.createdAt, b.id) }

  function SegmentedRank(s: State, b: Block): Rank {
    Rank(if b.kind == "generated" then 0 else 1, b.lastUsed, b.id)
  }

  const RECENT_AGE := 3

  const RANKS_0: seq<int> := [100, 70, 10, -20, 50, 20, -40, -70, 120, 90, 30, 0, 70, 40, -20, -50]
  const RANKS_1: seq<int> := [90, 60, 0, -30, 40, 10, -50, -80, 110, 80, 20, -10, 60, 30, -30, -60]
  const RANKS_2: seq<int> := [170, 140, 80, 50, 120, 90, 30, 0, 190, 160, 100, 70, 140, 110, 50, 20]
  const RANKS_3: seq<int> := [160, 130, 70, 40, 110, 80, 20, -10, 180, 150, 90, 60, 130, 100, 40, 10]
  const EVICTION_RANK: seq<int> := RANKS_0 + RANKS_1 + RANKS_2 + RANKS_3

  function FeatureMask(b: Block, clock: int): (mask: int)
    ensures 0 <= mask < |EVICTION_RANK|
  {
    (if b.kind == "prompt" then 1 else 0) + (if b.shared then 2 else 0) + (if b.reuse >= 2 then 4 else 0) +
    (if b.group == "sliding" then 8 else 0) + (if clock - b.lastUsed <= RECENT_AGE then 16 else 0) +
    (if b.kind == "generated" then 32 else 0)
  }

  function GeneratedRank(s: State, b: Block): Rank {
    Rank(-EVICTION_RANK[FeatureMask(b, s.clock)], b.lastUsed, b.id)
  }

  function DuplicatePolicy(s: State, required: nat): (seq<int>, nat) {
    var unowned := Unowned(s);
    if unowned == [] then ([], 0)
    else (seq(if required < 2 then 2 else required, _ => unowned[0]), |unowned|)
  }

  function UnknownPolicy(s: State, required: nat): (seq<int>, nat) {
    (seq(required, i => s.nextId + 1000 + i), |s.blocks|)
  }

  predicate Distinct(ids: seq<int>) { forall i, j :: 0 <= i < j < |ids| ==> ids[i] != ids[j] }

  predicate ValidProposal(s: State, proposal: seq<int>, required: nat) {
    required <= |proposal| && Distinct(proposal) &&
    forall i :: 0 <= i < required ==> IsUnowned(s, proposal[i])
  }

  /** The policy only proposes; an invalid proposal is replaced by the least recently used blocks. */
  function Authorize(s: State, policy: Policy, required: nat): Outcome<(seq<int>, seq<Event>)> {
    if required < 1 then Ok(([], []))
    else
      var (proposal, inspected) := policy(s, required);
      if ValidProposal(s, proposal, required) then
        Ok((proposal[..required], [Planned(inspected, false)]))
      else
        var (fallback, more) := Ranked(LruRank)(s, required);
        if ValidProposal(s, fallback, required)
        then Ok((fallback[..required], [Planned(inspected + more, true)]))
        else Raised("no valid eviction plan is available")
  }

  /** What the metrics record of a plan that failed: both candidates were inspected and rejected. */
  function FailedPlan(s: State, policy: Policy, required: nat): Event {
    Planned(policy(s, required).1 + Ranked(LruRank)(s, required).1, true)
  }

  function Without(ids: seq<int>, id: int): (r: seq<int>)
    ensures forall x :: x in r <==> x in ids && x != id
  {
    if ids == [] then []
    else if ids[|ids| - 1] == id then Without(ids[..|ids| - 1], id)
    else Without(ids[..|ids| - 1], id) + [ids[|ids| - 1]]
  }

  function Evict(s: State, id: int): Outcome<State> {
    if id !in s.blocks then Raised("KeyError")
    else
      var b := s.blocks[id];
      if b.owners != {} then Raised("authority attempted to evict a live block")
      else if (b.group, b.key) !in s.index then Raised("KeyError")
      else Ok(s.(order := Without(s.order, id), blocks := s.blocks - {id}, index := s.index - {(b.group, b.key)}))
  }

  function EvictAll(s: State, ids: seq<int>): Outcome<(State, seq<Event>)> {
    if ids == [] then Ok((s, []))
    else
      var (s1, events) :- EvictAll(s, ids[..|ids| - 1]);
      var s2 :- Evict(s1, ids[|ids| - 1]);
      Ok((s2, events + [Evicted]))
  }

  // ----- one access ----------------------------------------------------------------------------

  /** One lookup of a request: which group, which key, and what to record on a miss. */
  datatype Touch = Touch(group: Group, key: string, kind: string, shared: bool)

  datatype Accessed = Accessed(state: State, id: int, events: seq<Event>)

  function Reuse(s: State, id: int, owner: string): State
    requires id in s.blocks
  {
    var b := s.blocks[id];
    s.(blocks := s.blocks[id := b.(lastUsed := s.clock, reuse := b.reuse + 1, owners := b.owners + {owner})])
  }

  function Admit(s: State, t: Touch, owner: string): State {
    var id := s.nextId;
    var b := Block(id, t.group.name, t.key, t.kind, t.shared, s.clock, s.clock, 0, {owner});
    s.(nextId := id + 1, order := s.order + [id], blocks := s.blocks[id := b],
       index := s.index[(t.group.name, t.key) := id])
  }

  /** Frees one block when the cache is full. */
  function MakeRoom(s: State, policy: Policy): Outcome<(State, seq<Event>)> {
    if |s.blocks| < s.capacity then Ok((s, []))
    else
      var (victims, planned) :- Authorize(s, policy, 1);
      var (s1, evicted) :- EvictAll(s, victims);
      Ok((s1, planned + evicted))
  }

  function AfterRoom(room: Outcome<(State, seq<Event>)>, t: Touch, owner: string): Outcome<Accessed> {
    var (s2, events) :- room;
    var s3 := Admit(s2, t, owner);
    Ok(Accessed(s3, s2.nextId, [Miss] + events + [Resident(|s3.blocks|)]))
  }

  function Access(s: State, policy: Policy, t: Touch, owner: string): Outcome<Accessed> {
    var s1 := s.(clock := s.clock + 1);
    var identity := (t.group.name, t.key);
    if identity in s1.index then
      var id := s1.index[identity];
      if id !in s1.blocks then Raised("KeyError") else Ok(Accessed(Reuse(s1, id, owner), id, [Hit]))
    else
      AfterRoom(MakeRoom(s1, policy), t, owner)
  }

  // ----- one request ---------------------------------------------------------------------------

  /** What the service of one request carries along. */
  datatype Frame = Frame(state: State, owned: set<int>, windows: map<string, seq<int>>)

  function Disown(s: State, id: int, owner: string): State {
    if id in s.blocks then
      var b := s.blocks[id];
      s.(blocks := s.blocks[id := b.(owners := b.owners - {owner})])
    else s
  }

  /** Drops the oldest entries of one window until it fits. */
  function Trim(f: Frame, name: string, size: nat, owner: string): Frame
    requires name in f.windows
    decreases |f.windows[name]|
  {
    var window := f.windows[name];
    if |window| <= size then f
    else Trim(Frame(Disown(f.state, window[0], owner), f.owned - {window[0]}, f.windows[name := window[1..]]),
              name, size, owner)
  }

  function AdvanceSliding(f: Frame, group: Group, id: int, owner: string): Outcome<Frame> {
    match group.mode
    case Full => Ok(f)
    case Sliding(size) =>
      if group.name !in f.windows then Raised("KeyError")
      else Ok(Trim(f.(windows := f.windows[group.name := f.windows[group.name] + [id]]), group.name, size, owner))
  }

  function ServeOne(f: Frame, policy: Policy, t: Touch, owner: string): Outcome<(Frame, seq<Event>)> {
    var a :- Access(f.state, policy, t, owner);
    var f1 :- AdvanceSliding(Frame(a.state, f.owned + {a.id}, f.windows), t.group, a.id, owner);
    Ok((f1, a.events))
  }

  function Serve(f: Frame, policy: Policy, touches: seq<Touch>, owner: string): Outcome<(Frame, seq<Event>)> {
    if touches == [] then Ok((f, []))
    else
      var (f1, events) :- Serve(f, policy, touches[..|touches| - 1], owner);
      var (f2, more) :- ServeOne(f1, policy, touches[|touches| - 1], owner);
      Ok((f2, events + more))
  }

  function Across(groups: seq<Group>, key: string, kind: string, shared: bool): seq<Touch> {
    seq(|groups|, i requires 0 <= i < |groups| => Touch(groups[i], key, kind, shared))
  }

  function PromptTouches(groups: seq<Group>, prompts: seq<string>): seq<Touch> {
    if prompts == [] then []
    else
      var key := prompts[|prompts| - 1];
      PromptTouches(groups, prompts[..|prompts| - 1]) + Across(groups, key, "prompt", "sys:" <= key)
  }

  function Decimal(n: nat): string {
    if n < 10 then [('0' as int + n) as char] else Decimal(n / 10) + [('0' as int + n % 10) as char]
  }

  function GeneratedKey(id: string, n: nat): string { "gen:" + id + ":" + Decimal(n) }

  function GeneratedTouches(groups: seq<Group>, id: string, count: nat): seq<Touch> {
    if count == 0 then []
    else GeneratedTouches(groups, id, count - 1) + Across(groups, GeneratedKey(id, count - 1), "generated", false)
  }

  /** Generated blocks served before a cancellation. */
  function GeneratedCount(r: Request): nat {
    if r.cancelAfter.Some? && r.cancelAfter.value < r.generated then r.cancelAfter.value else r.generated
  }

  predicate CountsAsCancelled(r: Request) { r.cancelAfter.Some? && r.cancelAfter.value <= r.generated }

  function Touches(groups: seq<Group>, r: Request): seq<Touch> {
    PromptTouches(groups, r.prompts) + GeneratedTouches(groups, r.id, GeneratedCount(r))
  }

  function WindowsOf(groups: seq<Group>): (windows: map<string, seq<int>>)
    ensures forall i :: 0 <= i < |groups| && groups[i].mode.Sliding? ==>
              groups[i].name in windows && windows[groups[i].name] == []
  {
    map i | 0 <= i < |groups| && groups[i].mode.Sliding? :: groups[i].name := []
  }

  /** Drops the request from the owners of every block it still holds. */
  function Release(s: State, owned: set<int>, owner: string): State {
    s.(blocks := map id | id in s.blocks ::
                   if id in owned then s.blocks[id].(owners := s.blocks[id].owners - {owner}) else s.blocks[id])
  }

  predicate BlockSound(s: State, id: int)
    requires id in s.blocks
  {
    var b := s.blocks[id];
    id == b.id && (b.group, b.key) in s.index && s.index[(b.group, b.key)] == id &&
    (b.kind == "prompt" || b.kind == "generated") && b.createdAt <= b.lastUsed <= s.clock && 0 <= b.reuse
  }

  /** The checks that guard the state after every request and on restore. */
  predicate Validates(s: State) {
    |s.blocks| <= s.capacity && |s.index| == |s.blocks| &&
    (forall id :: id in s.blocks ==> BlockSound(s, id)) &&
    (forall i, j :: i in s.blocks && j in s.blocks && i != j ==>
      (s.blocks[i].group, s.blocks[i].key) != (s.blocks[j].group, s.blocks[j].key)) &&
    0 <= s.nextId
  }

  function Process(s: State, groups: seq<Group>, policy: Policy, r: Request): Outcome<(State, seq<Event>)> {
    var (f, events) :- Serve(Frame(s, {}, WindowsOf(groups)), policy, Touches(groups, r), r.id);
    var s1 := Release(f.state, f.owned, r.id);
    if !Validates(s1) then Raised("invalid state")
    else Ok((s1, [Started] + events + if CountsAsCancelled(r) then [Cancelled] else []))
  }

  function Run(s: State, groups: seq<Group>, policy: Policy, requests: seq<Request>): Outcome<(State, seq<Event>)> {
    if requests == [] then Ok((s, []))
    else
      var (s1, events) :- Run(s, groups, policy, requests[..|requests| - 1]);
      var (s2, more) :- Process(s1, groups, policy, requests[|requests| - 1]);
      Ok((s2, events + more))
  }

  // ----- metrics -------------------------------------------------------------------------------

  datatype Metrics = Metrics(requests: nat, cancelled: nat, hits: nat, misses: nat, evictions: nat,
                             recomputed: nat, plannerCalls: nat, inspected: nat, rejected: nat,
                             fallbacks: nat, peak: nat)

  const NO_METRICS := Metrics(0, 0, 0, 0, 0, 0, 0, 0, 0, 0, 0)

  function Count(m: Metrics, e: Event): Metrics {
    match e
    case Started => m.(requests := m.requests + 1)
    case Cancelled => m.(cancelled := m.cancelled + 1)
    case Hit => m.(hits := m.hits + 1)
    case Miss => m.(misses := m.misses + 1, recomputed := m.recomputed + 1)
    case Planned(inspected, rejected) =>
      var m1 := m.(plannerCalls := m.plannerCalls + 1, inspected := m.inspected + inspected);
      if rejected then m1.(rejected := m1.rejected + 1, fallbacks := m1.fallbacks + 1) else m1
    case Evicted => m.(evictions := m.evictions + 1)
    case Resident(count) => m.(peak := if m.peak < count then count else m.peak)
  }

  function Tally(m: Metrics, events: seq<Event>): Metrics {
    if events == [] then m else Count(Tally(m, events[..|events| - 1]), events[|events| - 1])
  }

  lemma {:induction false} TallyConcat(m: Metrics, a: seq<Event>, b: seq<Event>)
    ensures Tally(m, a + b) == Tally(Tally(m, a), b)
  {
    if b == [] {
      assert a + b == a;
    } else {
      TallyConcat(m, a, b[..|b| - 1]);
      assert (a + b)[..|a + b| - 1] == a + b[..|b| - 1];
    }
  }
}
