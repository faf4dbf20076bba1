/**
 * The two ordering policies of the Go gateway. The generated one sorts by delay in place; it is
 * specified as the stable sort: delays ascend, and requests of equal delay keep their order.
 */
module GatewayPolicy {
  import opened Gateway

  predicate Sorted(s: seq<Request>) { forall i, k :: 0 <= i < k < |s| ==> s[i].delay <= s[k].delay }

  /** The requests of one delay, in order. */
  function OfDelay(s: seq<Request>, d: nat): seq<Request> {
    if s == [] then []
    else OfDelay(s[..|s| - 1], d) + if s[|s| - 1].delay == d then [s[|s| - 1]] else []
  }

  ghost predicate SameGroups(a: seq<Request>, b: seq<Request>) {
    forall d: nat :: OfDelay(a, d) == OfDelay(b, d)
  }

  ghost predicate StableSortOf(out: seq<Request>, input: seq<Request>) {
    Sorted(out) && SameGroups(out, input)
  }

  lemma {:induction false} OfDelayConcat(a: seq<Request>, b: seq<Request>, d: nat)
    ensures OfDelay(a + b, d) == OfDelay(a, d) + OfDelay(b, d)
  {
    if b == [] {
      assert a + b == a;
    } else {
      var k := |b| - 1;
      assert (a + b)[..|a + b| - 1] == a + b[..k];
      OfDelayConcat(a, b[..k], d);
    }
  }

  /** Exchanging two neighbours of different delay keeps every group. */
  lemma SwapKeepsGroups(s: seq<Request>, j: nat)
    requires 0 < j < |s| && s[j].delay != s[j - 1].delay
    ensures SameGroups(s[j := s[j - 1]][j - 1 := s[j]], s)
  {
    var x, y, front, back := s[j - 1], s[j], s[..j - 1], s[j + 1..];
    var t := s[j := x][j - 1 := y];
    assert s == front + [x, y] + back && t == front + [y, x] + back;
    forall d: nat ensures OfDelay(t, d) == OfDelay(s, d) {
      OfDelayConcat(front + [x, y], back, d);
      OfDelayConcat(front + [y, x], back, d);
      OfDelayConcat(front, [x, y], d);
      OfDelayConcat(front, [y, x], d);
      PairGroups(x, y, d);
    }
  }

  lemma PairGroups(x: Request, y: Request, d: nat)
    requires x.delay != y.delay
    ensures OfDelay([x, y], d) == OfDelay([y, x], d)
  {
    OfDelayConcat([x], [y], d);
    OfDelayConcat([y], [x], d);
    assert [x] + [y] == [x, y] && [y] + [x] == [y, x];
    assert [x][..0] == [] && [y][..0] == [];
  }

  /** The order of the sources is kept, so a stable sort is a permutation. */
  lemma SameGroupsPermute(a: seq<Request>, b: seq<Request>)
    requires SameGroups(a, b)
    ensures multiset(a) == multiset(b) && |a| == |b|
  {
    forall r: Request ensures multiset(a)[r] == multiset(b)[r] {
      GroupCounts(a, r);
      GroupCounts(b, r);
      assert OfDelay(a, r.delay) == OfDelay(b, r.delay);
    }
    SameSize(a, b);
  }

  lemma {:induction false} GroupCounts(s: seq<Request>, r: Request)
    ensures multiset(s)[r] == multiset(OfDelay(s, r.delay))[r]
  {
    if s != [] {
      var k := |s| - 1;
      GroupCounts(s[..k], r);
      assert s == s[..k] + [s[k]];
    }
  }

  /** There is only one stable sort. */
  lemma {:induction false} StableSortUnique(a: seq<Request>, b: seq<Request>, input: seq<Request>)
    requires StableSortOf(a, input) && StableSortOf(b, input)
    ensures a == b
  {
    forall d: nat ensures OfDelay(a, d) == OfDelay(b, d) {
      assert OfDelay(a, d) == OfDelay(input, d) && OfDelay(b, d) == OfDelay(input, d);
    }
    SortedGroupsUnique(a, b);
  }

  lemma SameLast<T>(s: seq<T>, t: seq<T>, x: T, y: T, both: bool, u: seq<T>, v: seq<T>)
    requires u == s + (if both then [x] else []) && v == t + (if both then [y] else []) && u == v
    ensures s == t && (both ==> x == y)
  {
    if both {
      assert s == u[..|u| - 1] && t == v[..|v| - 1] && x == u[|u| - 1] && y == v[|v| - 1];
    } else {
      assert u == s && v == t;
    }
  }

  lemma GroupsBeforeLast(a: seq<Request>, b: seq<Request>, d: nat)
    requires |a| == |b| > 0 && a[|a| - 1].delay == b[|b| - 1].delay && OfDelay(a, d) == OfDelay(b, d)
    ensures var k := |a| - 1;
            OfDelay(a[..k], d) == OfDelay(b[..k], d) && (d == a[k].delay ==> a[k] == b[k])
  {
    var k := |a| - 1;
    SameLast(OfDelay(a[..k], d), OfDelay(b[..k], d), a[k], b[k], d == a[k].delay, OfDelay(a, d), OfDelay(b, d));
  }

  lemma {:induction false} SortedGroupsUnique(a: seq<Request>, b: seq<Request>)
    requires Sorted(a) && Sorted(b) && SameGroups(a, b)
    ensures a == b
  {
    SameGroupsPermute(a, b);
    if a != [] {
      var k := |a| - 1;
      var x, y := a[k], b[k];
      assert x in multiset(b) && y in multiset(a);
      var i :| 0 <= i < |b| && b[i] == x;
      var h :| 0 <= h < |a| && a[h] == y;
      assert x.delay == y.delay;
      forall d: nat ensures OfDelay(a[..k], d) == OfDelay(b[..k], d) && (d == x.delay ==> x == y) {
        GroupsBeforeLast(a, b, d);
      }
      assert OfDelay(a[..k], x.delay) == OfDelay(b[..k], x.delay);
      SortedGroupsUnique(a[..k], b[..k]);
    }
  }

  /** A copy: sorting or changing the result leaves the input alone. */
  method BaselineOrder(input: array<Request>) returns (out: array<Request>)
    ensures fresh(out) && out[..] == input[..]
  {
    out := new Request[input.Length];
    for i := 0 to input.Length
      invariant out[..i] == input[..i]
    {
      out[i] := input[i];
    }
  }

  /** The prefix up to `i` is sorted except that the element at `j` may be too small. */
  predicate Sinking(s: seq<Request>, j: int, i: int)
    requires 0 <= j <= i < |s|
  {
    (forall a, b :: 0 <= a < b <= i && b != j ==> s[a].delay <= s[b].delay)
  }

  lemma SwapSinks(s: seq<Request>, j: int, i: int)
    requires 0 < j <= i < |s| && Sinking(s, j, i) && s[j].delay < s[j - 1].delay
    ensures Sinking(s[j := s[j - 1]][j - 1 := s[j]], j - 1, i)
  {
    var t := s[j := s[j - 1]][j - 1 := s[j]];
    forall a, b | 0 <= a < b <= i && b != j - 1 ensures t[a].delay <= t[b].delay {
      if b == j { if a < j - 1 { assert s[a].delay <= s[j - 1].delay; } }
    }
  }

  method GeneratedOrder(requests: array<Request>) returns (out: array<Request>)
    ensures fresh(out) && StableSortOf(out[..], requests[..])
  {
    out := BaselineOrder(requests);
    ghost var input := requests[..];
    var i := 1;
    while i < out.Length
      invariant 1 <= i
      invariant SameGroups(out[..], input)
      invariant forall a, b :: 0 <= a < b < i && b < out.Length ==> out[a].delay <= out[b].delay
    {
      var j := i;
      while j > 0 && out[j].delay < out[j - 1].delay
        invariant 0 <= j <= i < out.Length
        invariant SameGroups(out[..], input) && Sinking(out[..], j, i)
      {
        ghost var before := out[..];
        SwapKeepsGroups(before, j);
        SwapSinks(before, j, i);
        out[j], out[j - 1] := out[j - 1], out[j];
        assert out[..] == before[j := before[j - 1]][j - 1 := before[j]];
        j := j - 1;
      }
      i := i + 1;
    }
  }

  /** Neither policy adds or loses a request, so the gateway never reports `Incomplete`. */
  lemma PoliciesComplete(c: Config, run: seq<Action>)
    requires Admitted(c) && Legal(c, Start(c), run)
    requires c.ordered == c.input || StableSortOf(c.ordered, c.input)
    ensures var s := After(c, Start(c), run);
            !s.outcome.Incomplete? &&
            (s.outcome.Answer? ==> exists order: seq<Request> ::
              multiset(order) == multiset(c.input) && s.outcome.results == Squares(order))
  {
    if c.ordered != c.input { SameGroupsPermute(c.ordered, c.input); }
    Outcomes(c, run);
  }
}
