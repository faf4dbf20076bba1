/**
 * What a request touches, and which blocks it holds after any number of its touches: everything in a full
 * group, and in a sliding group what its window has not given up since the last access.
 */
module CacheWindows {
  import opened CacheModel
  import opened CacheSafety
  import opened CacheRequests
  import CacheProgress
  import CacheRecency

  // ----- the touches of a request -------------------------------------------------------------------------------

  /** Prompts in order and then generated blocks in order, each in every group in order. */
  lemma TouchAt(groups: seq<Group>, r: Request, i: nat, j: nat)
    requires j < |groups|
    ensures |Touches(groups, r)| == |r.prompts| * |groups| + GeneratedCount(r) * |groups|
    ensures i < |r.prompts| ==>
              var at := i * |groups| + j;
              at < |Touches(groups, r)| && Touches(groups, r)[at] ==
                Touch(groups[j], r.prompts[i], "prompt", |r.prompts[i]| >= 4 && r.prompts[i][..4] == "sys:")
    ensures i < GeneratedCount(r) ==>
              var at := |r.prompts| * |groups| + (i * |groups| + j);
              at < |Touches(groups, r)| && Touches(groups, r)[at] ==
                Touch(groups[j], "gen:" + r.id + ":" + Decimal(i), "generated", false)
  {
    hide PromptTouches, GeneratedTouches, GeneratedCount, Decimal;
    PromptLength(groups, r.prompts);
    GeneratedLength(groups, r.id, GeneratedCount(r));
    if i < |r.prompts| { PromptAt(groups, r.prompts, i, j); }
    if i < GeneratedCount(r) { GeneratedAt(groups, r.id, GeneratedCount(r), i, j); }
  }

  lemma OneRow(m: nat, n: nat)
    ensures (m + 1) * n == m * n + n
  {
  }

  lemma {:induction false} PromptLength(groups: seq<Group>, prompts: seq<string>)
    ensures |PromptTouches(groups, prompts)| == |prompts| * |groups|
  {
    if prompts != [] {
      var m := |prompts| - 1;
      PromptLength(groups, prompts[..m]);
      OneRow(m, |groups|);
      assert |prompts| == m + 1;
    }
  }

  lemma {:induction false} GeneratedLength(groups: seq<Group>, id: string, count: nat)
    ensures |GeneratedTouches(groups, id, count)| == count * |groups|
  {
    if count > 0 {
      var m := count - 1;
      GeneratedLength(groups, id, m);
      OneRow(m, |groups|);
    }
  }

  lemma {:induction false} PromptPrefix(groups: seq<Group>, prompts: seq<string>, i: nat)
    requires i <= |prompts|
    ensures PromptTouches(groups, prompts[..i]) <= PromptTouches(groups, prompts)
  {
    if i == |prompts| {
      assert prompts[..i] == prompts;
    } else {
      var m := |prompts| - 1;
      PromptPrefix(groups, prompts[..m], i);
      assert prompts[..m][..i] == prompts[..i];
    }
  }

  lemma PromptAt(groups: seq<Group>, prompts: seq<string>, i: nat, j: nat)
    requires i < |prompts| && j < |groups|
    ensures i * |groups| + j < |PromptTouches(groups, prompts)|
    ensures PromptTouches(groups, prompts)[i * |groups| + j] ==
            Touch(groups[j], prompts[i], "prompt", "sys:" <= prompts[i])
  {
    hide PromptTouches;
    PromptLength(groups, prompts[..i]);
    PromptRow(groups, prompts, i, j);
  }

  lemma PromptRow(groups: seq<Group>, prompts: seq<string>, i: nat, j: nat)
    requires i < |prompts| && j < |groups|
    ensures var at := |PromptTouches(groups, prompts[..i])| + j;
            at < |PromptTouches(groups, prompts)| &&
            PromptTouches(groups, prompts)[at] == Touch(groups[j], prompts[i], "prompt", "sys:" <= prompts[i])
  {
    PromptPrefix(groups, prompts, i + 1);
    var upTo := prompts[..i + 1];
    assert upTo[..i] == prompts[..i];
    assert PromptTouches(groups, upTo)[|PromptTouches(groups, prompts[..i])| + j] ==
           Touch(groups[j], prompts[i], "prompt", "sys:" <= prompts[i]);
  }

  lemma {:induction false} GeneratedPrefix(groups: seq<Group>, id: string, count: nat, i: nat)
    requires i <= count
    ensures GeneratedTouches(groups, id, i) <= GeneratedTouches(groups, id, count)
  {
    if i < count { GeneratedPrefix(groups, id, count - 1, i); }
  }

  lemma GeneratedAt(groups: seq<Group>, id: string, count: nat, i: nat, j: nat)
    requires i < count && j < |groups|
    ensures i * |groups| + j < |GeneratedTouches(groups, id, count)|
    ensures GeneratedTouches(groups, id, count)[i * |groups| + j] ==
            Touch(groups[j], "gen:" + id + ":" + Decimal(i), "generated", false)
  {
    GeneratedPrefix(groups, id, count, i + 1);
    GeneratedLength(groups, id, i);
    assert GeneratedTouches(groups, id, i + 1)[|GeneratedTouches(groups, id, i)| + j] ==
           Touch(groups[j], GeneratedKey(id, i), "generated", false);
  }

  /** A request is cut short exactly when its cancellation comes before its last generated block. */
  lemma CutShort(r: Request)
    ensures r.cancelAfter.None? ==> GeneratedCount(r) == r.generated && !CountsAsCancelled(r)
    ensures r.cancelAfter.Some? && r.cancelAfter.value > r.generated ==>
              GeneratedCount(r) == r.generated && !CountsAsCancelled(r)
    ensures r.cancelAfter.Some? && r.cancelAfter.value <= r.generated ==>
              GeneratedCount(r) == r.cancelAfter.value && CountsAsCancelled(r)
  {
  }

  function DigitsValue(s: string): int {
    if s == "" then 0 else 10 * DigitsValue(s[..|s| - 1]) + (s[|s| - 1] as int - '0' as int)
  }

  /** The decimal form of a number: digits only, no leading zero, of that value. */
  lemma {:induction false} DecimalIs(n: nat)
    ensures DigitsValue(Decimal(n)) == n && Decimal(n) != ""
    ensures forall i :: 0 <= i < |Decimal(n)| ==> '0' <= Decimal(n)[i] <= '9'
    ensures n > 0 ==> Decimal(n)[0] != '0'
  {
    if n < 10 {
      assert [('0' as int + n) as char][..0] == "";
    } else {
      DecimalIs(n / 10);
      var s := Decimal(n / 10);
      assert (s + [('0' as int + n % 10) as char])[..|s|] == s;
    }
  }

  /** The generated blocks of a request have different keys. */
  lemma GeneratedKeysDiffer(id: string, m: nat, n: nat)
    ensures GeneratedKey(id, m) == GeneratedKey(id, n) <==> m == n
  {
    DecimalIs(m);
    DecimalIs(n);
    if GeneratedKey(id, m) == GeneratedKey(id, n) {
      var head := "gen:" + id + ":";
      assert (head + Decimal(m))[|head|..] == Decimal(m);
      assert (head + Decimal(n))[|head|..] == Decimal(n);
    }
  }

  // ----- what a request holds -----------------------------------------------------------------------------------

  /** The blocks that the touches of one group went to. */
  function GroupIds(ids: seq<int>, touches: seq<Touch>, name: string): seq<int>
    requires |ids| == |touches|
  {
    if ids == [] then []
    else
      var n := |ids| - 1;
      GroupIds(ids[..n], touches[..n], name) + if touches[n].group.name == name then [ids[n]] else []
  }

  function Last(ids: seq<int>, size: nat): seq<int> { if |ids| <= size then ids else ids[|ids| - size..] }

  /**
   * Held in a sliding group: some access to the block was not followed by giving up the block. Position `p` is
   * given up at access `p + size`.
   */
  ghost predicate Held(ids: seq<int>, size: nat, id: int) {
    exists q :: 0 <= q < |ids| && ids[q] == id && NotGivenUp(ids, size, q)
  }

  ghost predicate NotGivenUp(ids: seq<int>, size: nat, q: nat)
    requires q < |ids|
  {
    forall p :: 0 <= p < |ids| && ids[p] == ids[q] ==> p + size < q || |ids| <= p + size
  }

  lemma HeldRoom(ids: seq<int>, size: nat, x: int, id: int)
    requires |ids| < size
    ensures Held(ids + [x], size, id) <==> Held(ids, size, id) || id == x
  {
    var more := ids + [x];
    if id == x { assert more[|ids|] == id && NotGivenUp(more, size, |ids|); }
    if Held(ids, size, id) {
      var q :| 0 <= q < |ids| && ids[q] == id && NotGivenUp(ids, size, q);
      assert more[q] == id && NotGivenUp(more, size, q);
    }
    if Held(more, size, id) && id != x {
      var q :| 0 <= q < |more| && more[q] == id && NotGivenUp(more, size, q);
      assert ids[q] == id && NotGivenUp(ids, size, q);
    }
  }

  lemma HeldFull(ids: seq<int>, size: nat, x: int, id: int)
    requires size <= |ids|
    ensures Held(ids + [x], size, id) <==> (Held(ids, size, id) || id == x) && id != (ids + [x])[|ids| - size]
  {
    hide Held;
    if Held(ids + [x], size, id) { HeldBefore(ids, size, x, id); }
    if (Held(ids, size, id) || id == x) && id != (ids + [x])[|ids| - size] { HeldAfter(ids, size, x, id); }
  }

  lemma HeldBefore(ids: seq<int>, size: nat, x: int, id: int)
    requires size <= |ids| && Held(ids + [x], size, id)
    ensures (Held(ids, size, id) || id == x) && id != (ids + [x])[|ids| - size]
  {
    var more, n := ids + [x], |ids|;
    var q :| 0 <= q < |more| && more[q] == id && NotGivenUp(more, size, q);
    if q < n {
      forall p | 0 <= p < n && ids[p] == ids[q] ensures p + size < q || n <= p + size { assert more[p] == more[q]; }
      assert ids[q] == id && NotGivenUp(ids, size, q);
    }
  }

  lemma HeldAfter(ids: seq<int>, size: nat, x: int, id: int)
    requires size <= |ids| && (Held(ids, size, id) || id == x) && id != (ids + [x])[|ids| - size]
    ensures Held(ids + [x], size, id)
  {
    var more, n := ids + [x], |ids|;
    if id == x {
      assert more[n] == id && NotGivenUp(more, size, n);
    } else {
      var q :| 0 <= q < |ids| && ids[q] == id && NotGivenUp(ids, size, q);
      forall p | 0 <= p < |more| && more[p] == more[q] ensures p + size < q || |more| <= p + size {
        assert p < n && ids[p] == ids[q];
      }
      assert more[q] == id && NotGivenUp(more, size, q);
    }
  }

  /** The blocks of a list belong to the group, as far as they are still there. */
  ghost predicate Known(s: State, ids: seq<int>, name: string) {
    forall id :: id in ids ==> id < s.nextId && (id in s.blocks ==> s.blocks[id].group == name)
  }

  /** What a request holds in a group, whose touches so far went to `ids`. */
  ghost predicate Holding(f: Frame, group: Group, ids: seq<int>) {
    Known(f.state, ids, group.name) &&
    match group.mode
    case Full => forall id :: id in OwnedIn(f.state, group.name) <==> id in ids
    case Sliding(size) =>
      group.name in f.windows && f.windows[group.name] == Last(ids, size) &&
      forall id :: id in OwnedIn(f.state, group.name) <==> Held(ids, size, id)
  }

  lemma HitGroup(f: Frame, a: Accessed, t: Touch, owner: string)
    requires Inv(f.state) && Touched(f.state, a, t, owner)
    ensures a.id in f.state.blocks ==> a.id < f.state.nextId && f.state.blocks[a.id].group == t.group.name
    ensures a.id < f.state.nextId ==> a.id in f.state.blocks
    ensures a.id < a.state.nextId && f.state.nextId <= a.state.nextId
    ensures a.id in a.state.blocks && a.state.blocks[a.id].group == t.group.name
  {
    if a.id in f.state.blocks { assert BlockOk(f.state, a.id); }
    if (t.group.name, t.key) in f.state.index { assert EntryOk(f.state, (t.group.name, t.key)); }
  }

  /** An access claims its block and leaves every other claim alone. */
  lemma AccessClaims(f: Frame, a: Accessed, t: Touch, owner: string)
    requires Inv(f.state) && Holds(f.state, a, t, owner) && Touched(f.state, a, t, owner)
    ensures forall name :: OwnedIn(a.state, name) ==
                           OwnedIn(f.state, name) + if name == t.group.name then {a.id} else {}
  {
    hide Inv, Touched;
    HitGroup(f, a, t, owner);
    forall name ensures OwnedIn(a.state, name) == OwnedIn(f.state, name) + if name == t.group.name then {a.id} else {} {
      forall id ensures id in OwnedIn(a.state, name) <==>
                        id in OwnedIn(f.state, name) + if name == t.group.name then {a.id} else {}
      {
      }
    }
  }

  lemma KnownKept(f: Frame, a: Accessed, t: Touch, owner: string, ids: seq<int>, name: string)
    requires Inv(f.state) && Holds(f.state, a, t, owner) && Touched(f.state, a, t, owner) && Known(f.state, ids, name)
    ensures Known(a.state, ids, name)
    ensures name == t.group.name ==> Known(a.state, ids + [a.id], name)
    ensures Known(a.state, [a.id], t.group.name)
  {
    hide Inv, Touched;
    HitGroup(f, a, t, owner);
  }

  /** A window that was within its size gives up at most its oldest entry. */
  lemma TrimOnce(f: Frame, name: string, size: nat, owner: string)
    requires name in f.windows && |f.windows[name]| <= size + 1
    ensures var window := f.windows[name];
            Trim(f, name, size, owner) ==
            if |window| <= size then f
            else Frame(Disown(f.state, window[0], owner), f.owned - {window[0]}, f.windows[name := window[1..]])
  {
  }

  lemma FrameOfInv(f: Frame, owner: string)
    requires FrameInv(f, owner)
    ensures Inv(f.state)
  {
  }

  lemma KnownWithout(s: State, x: int, owner: string, ids: seq<int>, name: string)
    requires Known(s, ids, name)
    ensures Known(Disown(s, x, owner), ids, name)
  {
  }

  lemma OldestKnown(s: State, ids: seq<int>, size: nat, id: int, name: string)
    requires Known(s, ids, name) && Known(s, [id], name)
    ensures |Last(ids, size)| <= size
    ensures var oldest := (Last(ids, size) + [id])[0]; oldest in s.blocks ==> s.blocks[oldest].group == name
  {
    var window := Last(ids, size) + [id];
    assert window[0] in ids || window[0] in [id];
  }

  lemma LastSnoc(ids: seq<int>, size: nat, id: int)
    ensures var window, more := Last(ids, size) + [id], ids + [id];
            if |ids| < size then window == Last(more, size) && |window| <= size
            else |window| == size + 1 && window[0] == more[|ids| - size] && window[1..] == Last(more, size)
  {
  }

  /** The step of the group that is touched. */
  lemma OwnGroupStep(f: Frame, a: Accessed, t: Touch, owner: string, ids: seq<int>)
    requires FrameInv(f, owner) && Inv(a.state) && Holds(f.state, a, t, owner) && Touched(f.state, a, t, owner)
    requires Holding(f, t.group, ids)
    ensures var r := AdvanceSliding(Frame(a.state, f.owned + {a.id}, f.windows), t.group, a.id, owner);
            r.Ok? && Holding(r.value, t.group, ids + [a.id])
  {
    hide Inv, Holds, Touched, FrameInv, Trim, Last, Known;
    FrameOfInv(f, owner);
    AccessClaims(f, a, t, owner);
    AccessFrame(f, a, t, owner);
    var name, more := t.group.name, ids + [a.id];
    KnownKept(f, a, t, owner, ids, name);
    match t.group.mode
    case Full =>
    case Sliding(size) =>
      var window := Last(ids, size) + [a.id];
      var f1 := Frame(a.state, f.owned + {a.id}, f.windows[name := window]);
      LastSnoc(ids, size, a.id);
      TrimOnce(f1, name, size, owner);
      if |ids| < size {
        forall id ensures id in OwnedIn(a.state, name) <==> Held(more, size, id) { HeldRoom(ids, size, a.id, id); }
      } else {
        DisownKeeps(f1, window[0], owner);
        KnownWithout(a.state, window[0], owner, more, name);
        forall id ensures id in OwnedIn(Disown(a.state, window[0], owner), name) <==> Held(more, size, id) {
          HeldFull(ids, size, a.id, id);
        }
      }
  }

  /** The step of any other group. */
  lemma OtherGroupStep(f: Frame, a: Accessed, t: Touch, owner: string, ids: seq<int>, group: Group, others: seq<int>)
    requires FrameInv(f, owner) && Inv(a.state) && Holds(f.state, a, t, owner) && Touched(f.state, a, t, owner)
    requires Holding(f, t.group, ids) && Holding(f, group, others) && group.name != t.group.name
    ensures var r := AdvanceSliding(Frame(a.state, f.owned + {a.id}, f.windows), t.group, a.id, owner);
            r.Ok? && Holding(r.value, group, others)
  {
    hide Inv, Holds, Touched, FrameInv, Trim, Last, Known;
    FrameOfInv(f, owner);
    AccessClaims(f, a, t, owner);
    AccessFrame(f, a, t, owner);
    var name := t.group.name;
    KnownKept(f, a, t, owner, ids, name);
    KnownKept(f, a, t, owner, others, group.name);
    match t.group.mode
    case Full =>
    case Sliding(size) =>
      var window := Last(ids, size) + [a.id];
      var f1 := Frame(a.state, f.owned + {a.id}, f.windows[name := window]);
      LastSnoc(ids, size, a.id);
      TrimOnce(f1, name, size, owner);
      OldestKnown(a.state, ids, size, a.id, name);
      DisownKeeps(f1, window[0], owner);
      KnownWithout(a.state, window[0], owner, others, group.name);
  }

  /**
   * After serving any touches: a full group has kept every block touched, a sliding group has the last ones in
   * its window and holds exactly the blocks whose last access no given-up entry followed.
   */
  lemma {:induction false} ServedHolding(f: Frame, policy: Policy, touches: seq<Touch>, owner: string,
                                         groups: seq<Group>, group: Group)
    requires FrameInv(f, owner) && WindowsReady(f, groups) && TouchesOf(touches, groups) && group in groups
    requires CacheProgress.DistinctNames(groups) && forall other :: other in groups ==> Holding(f, other, [])
    requires Serve(f, policy, touches, owner).Ok?
    ensures var ids := CacheRecency.ServedIds(f, policy, touches, owner);
            |ids| == |touches| && Holding(Serve(f, policy, touches, owner).value.0, group,
                                          GroupIds(ids, touches, group.name))
    decreases |touches|
  {
    hide *;
    if touches == [] {
      NothingServed(f, policy, owner, group);
    } else {
      var n := |touches| - 1;
      var before, t := touches[..n], touches[n];
      LastTouchKnown(touches, groups);
      ServeKeeps(f, policy, before, owner, groups);
      Unrolled(f, policy, touches, owner);
      ServedHolding(f, policy, before, owner, groups, group);
      ServedHolding(f, policy, before, owner, groups, t.group);
      var f1 := Serve(f, policy, before, owner).value.0;
      var ids := CacheRecency.ServedIds(f, policy, before, owner);
      var a := Access(f1.state, policy, t, owner).value;
      OneMore(f1, policy, t, owner);
      GroupIdsSnoc(ids, touches, a.id, group.name);
      if group.name == t.group.name {
        SameGroup(groups, group, t.group);
        OwnGroupStep(f1, a, t, owner, GroupIds(ids, before, group.name));
      } else {
        var others := GroupIds(ids, before, group.name);
        OtherGroupStep(f1, a, t, owner, GroupIds(ids, before, t.group.name), group, others);
      }
    }
  }

  lemma NothingServed(f: Frame, policy: Policy, owner: string, group: Group)
    ensures Serve(f, policy, [], owner).Ok? && Serve(f, policy, [], owner).value.0 == f
    ensures CacheRecency.ServedIds(f, policy, [], owner) == [] && GroupIds([], [], group.name) == []
  {
  }

  lemma LastTouchKnown(touches: seq<Touch>, groups: seq<Group>)
    requires TouchesOf(touches, groups) && touches != []
    ensures var t := touches[|touches| - 1]; KindOk(t) && t.group in groups
    ensures TouchesOf(touches[..|touches| - 1], groups)
  {
    assert TouchOf(touches[|touches| - 1], groups);
  }

  /** Serving up to the last touch, the access, and the move of its window. */
  lemma Unrolled(f: Frame, policy: Policy, touches: seq<Touch>, owner: string)
    requires touches != [] && Serve(f, policy, touches, owner).Ok?
    ensures var n := |touches| - 1;
            var before, t := touches[..n], touches[n];
            Serve(f, policy, before, owner).Ok? &&
            var f1 := Serve(f, policy, before, owner).value.0;
            ServeOne(f1, policy, t, owner).Ok? && Access(f1.state, policy, t, owner).Ok? &&
            var a := Access(f1.state, policy, t, owner).value;
            var moved := AdvanceSliding(Frame(a.state, f1.owned + {a.id}, f1.windows), t.group, a.id, owner);
            moved.Ok? && Serve(f, policy, touches, owner).value.0 == moved.value &&
            CacheRecency.ServedIds(f, policy, touches, owner) ==
            CacheRecency.ServedIds(f, policy, before, owner) + [a.id]
  {
    hide Access, AdvanceSliding;
  }

  lemma GroupIdsSnoc(ids: seq<int>, touches: seq<Touch>, id: int, name: string)
    requires |touches| == |ids| + 1
    ensures GroupIds(ids + [id], touches, name) ==
            var before := GroupIds(ids, touches[..|ids|], name);
            if touches[|ids|].group.name == name then before + [id] else before
  {
    assert (ids + [id])[..|ids|] == ids;
  }

  lemma SameGroup(groups: seq<Group>, a: Group, b: Group)
    requires CacheProgress.DistinctNames(groups) && a in groups && b in groups && a.name == b.name
    ensures a == b
  {
  }

  lemma OneMore(f: Frame, policy: Policy, t: Touch, owner: string)
    requires FrameInv(f, owner) && KindOk(t) && ServeOne(f, policy, t, owner).Ok?
    ensures Access(f.state, policy, t, owner).Ok?
    ensures var a := Access(f.state, policy, t, owner).value;
            Inv(a.state) && Holds(f.state, a, t, owner) && Touched(f.state, a, t, owner)
  {
    AccessKeeps(f.state, policy, t, owner);
  }

  /** What any request holds after its first `k` touches, from any state between requests. */
  lemma RequestHolds(s: State, groups: seq<Group>, policy: Policy, r: Request, k: nat, group: Group)
    requires Inv(s) && NoOwners(s) && CacheProgress.DistinctNames(groups) && group in groups
    requires k <= |Touches(groups, r)|
    requires Serve(Frame(s, {}, WindowsOf(groups)), policy, Touches(groups, r)[..k], r.id).Ok?
    ensures var f, touches := Frame(s, {}, WindowsOf(groups)), Touches(groups, r)[..k];
            var ids := CacheRecency.ServedIds(f, policy, touches, r.id);
            |ids| == k && Holding(Serve(f, policy, touches, r.id).value.0, group, GroupIds(ids, touches, group.name))
  {
    hide Holding, Serve, Touches;
    var f := Frame(s, {}, WindowsOf(groups));
    StartFrame(s, groups, r.id);
    CacheRecency.TouchesKnown(groups, r);
    forall other | other in groups ensures Holding(f, other, []) { NothingHeld(s, groups, other); }
    ServedHolding(f, policy, Touches(groups, r)[..k], r.id, groups, group);
  }

  lemma NothingHeld(s: State, groups: seq<Group>, group: Group)
    requires NoOwners(s) && group in groups
    ensures Holding(Frame(s, {}, WindowsOf(groups)), group, [])
  {
    assert forall id :: id !in OwnedIn(s, group.name);
  }
}
