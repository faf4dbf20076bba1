/**
 * Balanced replay of RAVEL: which training events are replayed during adaptation. One event per
 * (state, action) stratum comes first, then one per expert, then the events of highest loss, up to
 * a fixed budget.
 */
module Replay {
  import opened Prelude
  import opened Ravel

  const REPLAY_N := 256
  const BASE_TRAIN_N := 1024

  /** An event as replay sees it: its stratum, its nearest expert and the key of its loss. */
  datatype Event = Event(state: nat, action: nat, expert: nat, loss: nat)

  predicate Valid(e: Event) { e.state < STATES && e.action < ACTIONS }

  predicate InStratum(e: Event, state: nat, action: nat) { e.state == state && e.action == action }

  // ----- picking events ---------------------------------------------------------------------------------

  ghost predicate Distinct(picks: seq<nat>, count: nat) {
    (forall k :: 0 <= k < |picks| ==> picks[k] < count) &&
    forall k, l :: 0 <= k < l < |picks| ==> picks[k] != picks[l]
  }

  /** `marks` are the marks of the picked events. */
  ghost predicate Marked(marks: seq<bool>, picks: seq<nat>) {
    Distinct(picks, |marks|) && forall i :: 0 <= i < |marks| ==> (marks[i] <==> i in picks)
  }

  function Without(picks: seq<nat>, k: nat): (rest: seq<nat>)
    requires k < |picks|
    ensures |rest| == |picks| - 1
  {
    picks[..k] + picks[k + 1..]
  }

  lemma WithoutDistinct(picks: seq<nat>, k: nat, count: nat)
    requires Distinct(picks, count + 1) && k < |picks| && picks[k] == count
    ensures Distinct(Without(picks, k), count)
    ensures forall i: nat :: i < count && i in picks ==> i in Without(picks, k)
  {
    var rest := Without(picks, k);
    forall l | 0 <= l < |rest| ensures rest[l] < count {
      assert rest[l] == picks[if l < k then l else l + 1];
    }
    forall i: nat | i < count && i in picks ensures i in rest {
      var l :| 0 <= l < |picks| && picks[l] == i;
      assert rest[if l < k then l else l - 1] == i;
    }
  }

  /** A list of distinct events that misses none holds all of them. */
  lemma {:induction false} AllPicked(picks: seq<nat>, count: nat)
    requires Distinct(picks, count) && forall i: nat :: i < count ==> i in picks
    ensures |picks| == count
    decreases count
  {
    DistinctFit(picks, count);
    if count > 0 {
      var last: nat := count - 1;
      assert last in picks;
      var k: nat :| k < |picks| && picks[k] == last;
      WithoutDistinct(picks, k, last);
      AllPicked(Without(picks, k), last);
    }
  }

  // ----- the three rounds ----------------------------------------------------------------------------------

  datatype Class = Stratum(state: nat, action: nat) | OfExpert(expert: nat) | Any

  predicate Of(c: Class, e: Event) {
    match c
    case Stratum(s, a) => InStratum(e, s, a)
    case OfExpert(x) => e.expert == x
    case Any => true
  }

  /** The first unmarked event of highest loss in a class; the number of events if there is none. */
  method Best(events: seq<Event>, marks: array<bool>, c: Class) returns (best: nat)
    requires marks.Length == |events|
    ensures best < |events| ==> !marks[best] && Of(c, events[best])
    ensures best < |events| ==> forall i :: 0 <= i < |events| && !marks[i] && Of(c, events[i]) ==>
              events[i].loss < events[best].loss || (events[i].loss == events[best].loss && best <= i)
    ensures best >= |events| ==> forall i :: 0 <= i < |events| && Of(c, events[i]) ==> marks[i]
  {
    best := |events|;
    for i := 0 to |events|
      invariant best < i || best == |events|
      invariant best < |events| ==> !marks[best] && Of(c, events[best])
      invariant best < |events| ==> forall k :: 0 <= k < i && !marks[k] && Of(c, events[k]) ==>
                  events[k].loss < events[best].loss || (events[k].loss == events[best].loss && best <= k)
      invariant best == |events| ==> forall k :: 0 <= k < i && Of(c, events[k]) ==> marks[k]
    {
      if !marks[i] && Of(c, events[i]) && (best == |events| || events[i].loss > events[best].loss) { best := i; }
    }
  }

  /** Every event of the class is picked. */
  ghost predicate Exhausted(events: seq<Event>, picks: seq<nat>, c: Class) {
    forall i: nat :: i < |events| && Of(c, events[i]) ==> i in picks
  }

  /** Event `i` has the highest loss of its class. */
  ghost predicate Top(events: seq<Event>, c: Class, i: nat) {
    i < |events| && Of(c, events[i]) &&
    forall k :: 0 <= k < |events| && Of(c, events[k]) ==> events[k].loss <= events[i].loss
  }

  /** An event of highest loss of the class is picked, or the class is empty. */
  ghost predicate Represented(events: seq<Event>, picks: seq<nat>, c: Class) {
    (exists k :: 0 <= k < |picks| && Top(events, c, picks[k])) ||
    forall i :: 0 <= i < |events| ==> !Of(c, events[i])
  }

  lemma {:induction false} TopExists(events: seq<Event>, c: Class, n: nat) returns (top: nat)
    requires n <= |events| && exists i :: 0 <= i < n && Of(c, events[i])
    ensures top < n && Of(c, events[top])
    ensures forall k :: 0 <= k < n && Of(c, events[k]) ==> events[k].loss <= events[top].loss
  {
    if exists i :: 0 <= i < n - 1 && Of(c, events[i]) {
      top := TopExists(events, c, n - 1);
      if Of(c, events[n - 1]) && events[n - 1].loss > events[top].loss { top := n - 1; }
    } else {
      top := n - 1;
    }
  }

  lemma MarkedMore(marks: seq<bool>, picks: seq<nat>, best: nat)
    requires Marked(marks, picks) && best < |marks| && !marks[best]
    ensures Marked(marks[best := true], picks + [best])
  {
    var more := picks + [best];
    forall i | 0 <= i < |marks| ensures marks[best := true][i] <==> i in more {
      if i in picks { var k :| 0 <= k < |picks| && picks[k] == i; assert more[k] == i; }
      if i == best { assert more[|picks|] == i; }
    }
  }

  /** Among the events of a class that are not picked yet, the first of highest loss. */
  ghost predicate BestLeft(events: seq<Event>, picks: seq<nat>, c: Class, best: nat) {
    best < |events| && best !in picks && Of(c, events[best]) &&
    forall i: nat :: i < |events| && i !in picks && Of(c, events[i]) ==>
      events[i].loss < events[best].loss || (events[i].loss == events[best].loss && best <= i)
  }

  /** One more event of a class, the best one left, if any is left. */
  method PickOne(events: seq<Event>, marks: array<bool>, picks: seq<nat>, c: Class) returns (more: seq<nat>)
    requires marks.Length == |events| && Marked(marks[..], picks)
    modifies marks
    ensures Marked(marks[..], more)
    ensures more == picks ||
            (|more| == |picks| + 1 && more[..|picks|] == picks && BestLeft(events, picks, c, more[|picks|]))
    ensures more == picks ==> Exhausted(events, picks, c)
    ensures Represented(events, more, c)
  {
    var best := Best(events, marks, c);
    if best >= |events| {
      forall i: nat | i < |events| && Of(c, events[i]) ensures i in picks { assert marks[..][i]; }
      NoneOrPicked(events, picks, c);
      return picks;
    }
    more := picks + [best];
    assert !marks[..][best];
    forall i: nat | i < |events| && Of(c, events[i]) && i !in picks
      ensures events[i].loss < events[best].loss || (events[i].loss == events[best].loss && best <= i)
    {
      assert !marks[..][i];
    }
    BestOrPicked(events, picks, c, best);
    MarkedMore(marks[..], picks, best);
    marks[best] := true;
    assert more[|picks|] == best;
  }

  /** The order of the rounds: strata, experts, and then anything any number of times. */
  predicate Before(c: Class, d: Class) {
    match d
    case Stratum(s, a) => c.Stratum? && (c.state < s || (c.state == s && c.action < a))
    case OfExpert(x) => c.Stratum? || (c.OfExpert? && c.expert < x)
    case Any => true
  }

  predicate AllBefore(classes: seq<Class>, c: Class) { forall k :: 0 <= k < |classes| ==> Before(classes[k], c) }

  /** Each pick was the best one left of its class at its time, and the classes come in order. */
  ghost predicate Picked(events: seq<Event>, picks: seq<nat>, classes: seq<Class>) {
    |classes| == |picks| && InOrder(classes) &&
    forall k :: 0 <= k < |picks| ==> BestLeft(events, picks[..k], classes[k], picks[k])
  }

  predicate InOrder(classes: seq<Class>) {
    forall k :: 0 <= k < |classes| ==> AllBefore(classes[..k], classes[k])
  }

  lemma InOrderMore(classes: seq<Class>, c: Class)
    requires InOrder(classes) && AllBefore(classes, c)
    ensures InOrder(classes + [c])
  {
    var more := classes + [c];
    forall k | 0 <= k < |more| ensures AllBefore(more[..k], more[k]) {
      assert more[..k] == if k < |classes| then classes[..k] else classes;
    }
  }

  /** The classes with that of a new pick, if there is one. */
  function Noted(classes: seq<Class>, grown: bool, c: Class): (more: seq<Class>)
    ensures classes <= more && forall d: Class :: AllBefore(classes, d) && Before(c, d) ==> AllBefore(more, d)
  {
    if grown then classes + [c] else classes
  }

  lemma PickedMore(events: seq<Event>, picks: seq<nat>, more: seq<nat>, classes: seq<Class>, c: Class)
    requires Picked(events, picks, classes) && AllBefore(classes, c)
    requires more == picks ||
             (|more| == |picks| + 1 && more[..|picks|] == picks && BestLeft(events, picks, c, more[|picks|]))
    ensures Picked(events, more, Noted(classes, more != picks, c))
  {
    if more != picks {
      var noted := Noted(classes, true, c);
      InOrderMore(classes, c);
      forall k | 0 <= k < |more| ensures BestLeft(events, more[..k], noted[k], more[k]) {
        if k < |picks| { SameBest(events, picks, more, classes, noted, k); }
      }
    }
  }

  lemma SameBest(events: seq<Event>, picks: seq<nat>, more: seq<nat>, classes: seq<Class>, noted: seq<Class>, k: nat)
    requires picks <= more && classes <= noted && k < |picks| == |classes|
    requires BestLeft(events, picks[..k], classes[k], picks[k])
    ensures BestLeft(events, more[..k], noted[k], more[k])
  {
    assert more[..k] == picks[..k];
  }

  /** The class had its turn: it got a pick, or nothing of it was left when the classes before it were done. */
  ghost predicate Tried(events: seq<Event>, picks: seq<nat>, classes: seq<Class>, c: Class)
    requires |picks| == |classes|
  {
    c in classes || exists n :: 0 <= n <= |classes| && AllBefore(classes[..n], c) && Exhausted(events, picks[..n], c)
  }

  lemma TriedNow(events: seq<Event>, picks: seq<nat>, more: seq<nat>, classes: seq<Class>, c: Class)
    requires |picks| == |classes| && AllBefore(classes, c)
    requires |more| == |Noted(classes, more != picks, c)| && (more == picks ==> Exhausted(events, picks, c))
    ensures Tried(events, more, Noted(classes, more != picks, c), c)
  {
    var noted := Noted(classes, more != picks, c);
    if more == picks {
      assert classes[..|classes|] == classes && picks[..|picks|] == picks;
    } else {
      assert noted[|classes|] == c;
    }
  }

  lemma TriedStill(events: seq<Event>, picks: seq<nat>, more: seq<nat>, classes: seq<Class>, noted: seq<Class>,
                   c: Class)
    requires |picks| == |classes| && |more| == |noted| && picks <= more && classes <= noted
    requires Tried(events, picks, classes, c)
    ensures Tried(events, more, noted, c)
  {
    if c in classes {
      var k :| 0 <= k < |classes| && classes[k] == c;
      assert noted[k] == c;
    } else {
      var n :| 0 <= n <= |classes| && AllBefore(classes[..n], c) && Exhausted(events, picks[..n], c);
      assert classes[..n] == noted[..n] && picks[..n] == more[..n];
    }
  }

  /** All strata before `upTo` had their turn. */
  ghost predicate StrataTried(events: seq<Event>, picks: seq<nat>, classes: seq<Class>, upTo: nat)
    requires |picks| == |classes|
  {
    forall s: nat, a: nat :: a < ACTIONS && ACTIONS * s + a < upTo ==> Tried(events, picks, classes, Stratum(s, a))
  }

  lemma StrataTriedStill(events: seq<Event>, picks: seq<nat>, more: seq<nat>, classes: seq<Class>, noted: seq<Class>,
                         upTo: nat)
    requires |picks| == |classes| && |more| == |noted| && picks <= more && classes <= noted
    requires StrataTried(events, picks, classes, upTo)
    ensures StrataTried(events, more, noted, upTo)
  {
    forall s: nat, a: nat | a < ACTIONS && ACTIONS * s + a < upTo ensures Tried(events, more, noted, Stratum(s, a)) {
      TriedStill(events, picks, more, classes, noted, Stratum(s, a));
    }
  }

  lemma StratumTried(events: seq<Event>, picks: seq<nat>, classes: seq<Class>, state: nat, action: nat)
    requires |picks| == |classes| && action < ACTIONS
    requires StrataTried(events, picks, classes, ACTIONS * state + action)
    requires Tried(events, picks, classes, Stratum(state, action))
    ensures StrataTried(events, picks, classes, ACTIONS * state + action + 1)
  {
    forall s: nat, a: nat | a < ACTIONS && ACTIONS * s + a < ACTIONS * state + action + 1
      ensures Tried(events, picks, classes, Stratum(s, a))
    {
      if ACTIONS * s + a == ACTIONS * state + action { assert s == state && a == action; }
    }
  }

  /** The first experts had their turn, as far as the budget went. */
  ghost predicate ExpertsTried(events: seq<Event>, picks: seq<nat>, classes: seq<Class>, experts: nat)
    requires |picks| == |classes|
  {
    forall x: nat :: x < experts ==> Tried(events, picks, classes, OfExpert(x))
  }

  lemma ExpertTried(events: seq<Event>, picks: seq<nat>, more: seq<nat>, classes: seq<Class>, noted: seq<Class>,
                    expert: nat)
    requires |picks| == |classes| && |more| == |noted| && picks <= more && classes <= noted
    requires ExpertsTried(events, picks, classes, expert) && Tried(events, more, noted, OfExpert(expert))
    ensures ExpertsTried(events, more, noted, expert + 1)
  {
    forall x: nat | x < expert ensures Tried(events, more, noted, OfExpert(x)) {
      TriedStill(events, picks, more, classes, noted, OfExpert(x));
    }
  }

  /** Every expert had its turn, or the budget was used up by the classes before it. */
  ghost predicate ExpertsServed(events: seq<Event>, picks: seq<nat>, classes: seq<Class>, experts: nat)
    requires |picks| == |classes|
  {
    forall x: nat :: x < experts ==>
      Tried(events, picks, classes, OfExpert(x)) || (|picks| == 256 && AllBefore(classes, OfExpert(x)))
  }

  lemma Earlier(classes: seq<Class>, expert: nat, experts: nat)
    requires AllBefore(classes, OfExpert(expert)) && expert <= experts
    ensures AllBefore(classes, OfExpert(experts))
  {
    forall k | 0 <= k < |classes| ensures Before(classes[k], OfExpert(experts)) {
      assert Before(classes[k], OfExpert(expert));
    }
  }

  lemma ExpertsAre(events: seq<Event>, picks: seq<nat>, classes: seq<Class>, expert: nat, experts: nat)
    requires |picks| == |classes| && ExpertsTried(events, picks, classes, expert) && expert <= experts
    requires expert == experts || (|picks| == REPLAY_N && AllBefore(classes, OfExpert(expert)))
    ensures ExpertsServed(events, picks, classes, experts)
  {
    forall x: nat | expert <= x < experts ensures AllBefore(classes, OfExpert(x)) {
      forall k | 0 <= k < |classes| ensures Before(classes[k], OfExpert(x)) {
        assert Before(classes[k], OfExpert(expert));
      }
    }
  }

  lemma ServedStill(events: seq<Event>, picks: seq<nat>, more: seq<nat>, classes: seq<Class>, noted: seq<Class>,
                    experts: nat)
    requires |picks| == |classes| && |more| == |noted| <= REPLAY_N && picks <= more && classes <= noted
    requires ExpertsServed(events, picks, classes, experts)
    ensures ExpertsServed(events, more, noted, experts)
  {
    forall x: nat | x < experts && Tried(events, picks, classes, OfExpert(x))
      ensures Tried(events, more, noted, OfExpert(x))
    {
      TriedStill(events, picks, more, classes, noted, OfExpert(x));
    }
    if |picks| == REPLAY_N { assert noted == classes; }
  }

  /** No event that is left out has a higher loss than one of the picks that filled the selection up. */
  lemma FilledHighest(events: seq<Event>, picks: seq<nat>, classes: seq<Class>, k: nat, i: nat)
    requires Picked(events, picks, classes) && k < |picks| && classes[k].Any? && i < |events| && i !in picks
    ensures picks[k] < |events| && events[i].loss <= events[picks[k]].loss
  {
    assert BestLeft(events, picks[..k], Any, picks[k]);
    assert i !in picks[..k];
  }

  lemma BestOrPicked(events: seq<Event>, picks: seq<nat>, c: Class, best: nat)
    requires best < |events| && Of(c, events[best])
    requires forall i :: 0 <= i < |events| && Of(c, events[i]) && i !in picks ==> events[i].loss <= events[best].loss
    ensures Represented(events, picks + [best], c)
  {
    var top := TopExists(events, c, |events|);
    var more := picks + [best];
    if top in picks {
      var k :| 0 <= k < |picks| && picks[k] == top;
      assert Top(events, c, more[k]);
    } else {
      assert Top(events, c, more[|picks|]);
    }
  }

  lemma NoneOrPicked(events: seq<Event>, picks: seq<nat>, c: Class)
    requires Exhausted(events, picks, c)
    ensures Represented(events, picks, c)
  {
    if exists i :: 0 <= i < |events| && Of(c, events[i]) {
      var top := TopExists(events, c, |events|);
      var k :| 0 <= k < |picks| && picks[k] == top;
      assert Top(events, c, picks[k]);
    }
  }

  lemma StillRepresented(events: seq<Event>, picks: seq<nat>, more: seq<nat>, c: Class)
    requires Represented(events, picks, c) && picks <= more
    ensures Represented(events, more, c)
  {
    if k :| 0 <= k < |picks| && Top(events, c, picks[k]) {
      assert Top(events, c, more[k]);
    }
  }

  /** All strata before (state, action) are represented. */
  ghost predicate StrataDone(events: seq<Event>, picks: seq<nat>, upTo: nat) {
    forall s: nat, a: nat :: a < ACTIONS && ACTIONS * s + a < upTo ==> Represented(events, picks, Stratum(s, a))
  }

  lemma StrataKept(events: seq<Event>, picks: seq<nat>, more: seq<nat>, upTo: nat)
    requires StrataDone(events, picks, upTo) && picks <= more
    ensures StrataDone(events, more, upTo)
  {
    forall s: nat, a: nat | a < ACTIONS && ACTIONS * s + a < upTo ensures Represented(events, more, Stratum(s, a)) {
      StillRepresented(events, picks, more, Stratum(s, a));
    }
  }

  lemma StrataNext(events: seq<Event>, picks: seq<nat>, state: nat, action: nat)
    requires StrataDone(events, picks, ACTIONS * state + action) && action < ACTIONS
    requires Represented(events, picks, Stratum(state, action))
    ensures StrataDone(events, picks, ACTIONS * state + action + 1)
  {
    forall s: nat, a: nat | a < ACTIONS && ACTIONS * s + a < ACTIONS * state + action + 1
      ensures Represented(events, picks, Stratum(s, a))
    {
      if ACTIONS * s + a == ACTIONS * state + action { assert s == state && a == action; }
    }
  }

  /** One round over the strata; it cannot use up the budget early. */
  method PickStrata(events: seq<Event>, marks: array<bool>) returns (picks: seq<nat>, ghost classes: seq<Class>)
    requires marks.Length == |events| && Marked(marks[..], [])
    modifies marks
    ensures Marked(marks[..], picks) && |picks| <= 256
    ensures StrataDone(events, picks, STATES * ACTIONS)
    ensures Picked(events, picks, classes) && AllBefore(classes, OfExpert(0))
    ensures StrataTried(events, picks, classes, STATES * ACTIONS)
  {
    picks, classes := [], [];
    var state := 0;
    while state < STATES && |picks| < REPLAY_N
      invariant state <= STATES && |picks| <= ACTIONS * state && Marked(marks[..], picks)
      invariant StrataDone(events, picks, ACTIONS * state)
      invariant Picked(events, picks, classes) && AllBefore(classes, Stratum(state, 0))
      invariant StrataTried(events, picks, classes, ACTIONS * state)
    {
      var action := 0;
      while action < ACTIONS && |picks| < REPLAY_N
        invariant action <= ACTIONS && |picks| <= ACTIONS * state + action && Marked(marks[..], picks)
        invariant StrataDone(events, picks, ACTIONS * state + action)
        invariant Picked(events, picks, classes) && AllBefore(classes, Stratum(state, action))
        invariant StrataTried(events, picks, classes, ACTIONS * state + action)
      {
        var more := PickOne(events, marks, picks, Stratum(state, action));
        StrataKept(events, picks, more, ACTIONS * state + action);
        StrataNext(events, more, state, action);
        PickedMore(events, picks, more, classes, Stratum(state, action));
        ghost var noted := Noted(classes, more != picks, Stratum(state, action));
        StrataTriedStill(events, picks, more, classes, noted, ACTIONS * state + action);
        TriedNow(events, picks, more, classes, Stratum(state, action));
        StratumTried(events, more, noted, state, action);
        classes := noted;
        picks, action := more, action + 1;
      }
      state := state + 1;
    }
  }

  /** The first experts are represented. */
  ghost predicate ExpertsDone(events: seq<Event>, picks: seq<nat>, experts: nat) {
    forall x: nat :: x < experts ==> Represented(events, picks, OfExpert(x))
  }

  lemma ExpertsNext(events: seq<Event>, picks: seq<nat>, more: seq<nat>, expert: nat)
    requires ExpertsDone(events, picks, expert) && picks <= more && Represented(events, more, OfExpert(expert))
    ensures ExpertsDone(events, more, expert + 1)
  {
    forall x: nat | x < expert ensures Represented(events, more, OfExpert(x)) {
      StillRepresented(events, picks, more, OfExpert(x));
    }
  }

  method PickExperts(events: seq<Event>, marks: array<bool>, picks: seq<nat>, experts: nat,
                     ghost classes: seq<Class>)
    returns (more: seq<nat>, ghost noted: seq<Class>)
    requires marks.Length == |events| && Marked(marks[..], picks) && |picks| <= REPLAY_N
    requires Picked(events, picks, classes) && AllBefore(classes, OfExpert(0))
    modifies marks
    ensures Marked(marks[..], more) && |more| <= 256 && picks <= more
    ensures |more| == 256 || ExpertsDone(events, more, experts)
    ensures Picked(events, more, noted) && classes <= noted && AllBefore(noted, OfExpert(experts))
    ensures ExpertsServed(events, more, noted, experts)
  {
    more, noted := picks, classes;
    var expert := 0;
    while expert < experts && |more| < REPLAY_N
      invariant expert <= experts && Marked(marks[..], more) && |more| <= REPLAY_N && picks <= more
      invariant ExpertsDone(events, more, expert)
      invariant Picked(events, more, noted) && AllBefore(noted, OfExpert(expert)) && classes <= noted
      invariant ExpertsTried(events, more, noted, expert)
    {
      var next := PickOne(events, marks, more, OfExpert(expert));
      ExpertsNext(events, more, next, expert);
      PickedMore(events, more, next, noted, OfExpert(expert));
      ghost var grown := Noted(noted, next != more, OfExpert(expert));
      TriedNow(events, more, next, noted, OfExpert(expert));
      ExpertTried(events, more, next, noted, grown, expert);
      noted, more, expert := grown, next, expert + 1;
    }
    ExpertsAre(events, more, noted, expert, experts);
    Earlier(noted, expert, experts);
  }

  predicate FilledUp(classes: seq<Class>, noted: seq<Class>) {
    classes <= noted && forall k :: |classes| <= k < |noted| ==> noted[k].Any?
  }

  lemma FillMore(events: seq<Event>, picks: seq<nat>, more: seq<nat>, classes: seq<Class>, noted: seq<Class>)
    requires Picked(events, picks, noted) && FilledUp(classes, noted)
    requires |more| == |picks| + 1 && more[..|picks|] == picks && BestLeft(events, picks, Any, more[|picks|])
    ensures Picked(events, more, noted + [Any]) && FilledUp(classes, noted + [Any])
  {
    PickedMore(events, picks, more, noted, Any);
  }

  method PickRest(events: seq<Event>, marks: array<bool>, picks: seq<nat>, ghost classes: seq<Class>)
    returns (more: seq<nat>, ghost noted: seq<Class>)
    requires marks.Length == |events| && Marked(marks[..], picks) && |picks| <= REPLAY_N
    requires Picked(events, picks, classes)
    modifies marks
    ensures Marked(marks[..], more) && picks <= more
    ensures |more| == if |events| < 256 then |events| else 256
    ensures Picked(events, more, noted) && FilledUp(classes, noted)
  {
    more, noted := picks, classes;
    DistinctFit(more, |events|);
    while |more| < REPLAY_N && |more| < |events|
      invariant Marked(marks[..], more) && picks <= more && |more| <= REPLAY_N && |more| <= |events|
      invariant Picked(events, more, noted) && FilledUp(classes, noted)
      decreases REPLAY_N - |more|
    {
      var next := PickOne(events, marks, more, Any);
      if |next| == |more| {
        AllPicked(more, |events|);
        break;
      }
      FillMore(events, more, next, classes, noted);
      noted := noted + [Any];
      more := next;
    }
  }

  function At(events: seq<Event>, picks: seq<nat>): (chosen: seq<Event>)
    requires forall k :: 0 <= k < |picks| ==> picks[k] < |events|
    ensures |chosen| == |picks|
  {
    seq(|picks|, k requires 0 <= k < |picks| => events[picks[k]])
  }

  /** An event of the stratum of event `i` with at least its loss is among the chosen. */
  ghost predicate Covered(events: seq<Event>, replay: seq<Event>, i: nat)
    requires i < |events|
  {
    exists k :: 0 <= k < |replay| && InStratum(replay[k], events[i].state, events[i].action) &&
                replay[k].loss >= events[i].loss
  }

  /** The whole selection: what each pick was, and that no pair and no expert was passed over. */
  ghost predicate Selected(events: seq<Event>, picks: seq<nat>, classes: seq<Class>, experts: nat) {
    Picked(events, picks, classes) && StrataTried(events, picks, classes, STATES * ACTIONS) &&
    ExpertsServed(events, picks, classes, experts) &&
    forall k :: 0 <= k < |classes| ==> classes[k].Any? || Before(classes[k], OfExpert(experts))
  }

  /** Some picks were made after the rounds over pairs and experts. */
  predicate FilledIn(classes: seq<Class>) { exists k :: 0 <= k < |classes| && classes[k].Any? }

  /**
   * Policy 1: exactly as many distinct events as the budget and the data allow, among them the
   * worst event of every (state, action) pair that the data has. Each pick is the worst event left of a
   * class, at most one for every pair, then at most one for every expert, then any number for no class; a
   * pair or expert is passed over only when nothing of it is left. If anything is filled up, every expert
   * that has an event has a worst one of its own among the picks.
   */
  method SelectBalanced(events: seq<Event>, experts: nat)
    returns (replay: seq<Event>, picks: seq<nat>, ghost classes: seq<Class>)
    requires |events| <= BASE_TRAIN_N && forall i :: 0 <= i < |events| ==> Valid(events[i])
    ensures Distinct(picks, |events|) && replay == At(events, picks)
    ensures |replay| == if |events| < 256 then |events| else 256
    ensures forall i :: 0 <= i < |events| ==> Covered(events, replay, i)
    ensures Selected(events, picks, classes, experts)
    ensures FilledIn(classes) ==>
              forall i :: 0 <= i < |events| && events[i].expert < experts ==> ExpertCovered(events, replay, i)
  {
    var marks := new bool[|events|](_ => false);
    var chosen;
    chosen, classes := PickStrata(events, marks);
    ghost var strata, ofStrata := chosen, classes;
    chosen, classes := PickExperts(events, marks, chosen, experts, classes);
    StrataKept(events, strata, chosen, STATES * ACTIONS);
    ghost var before, ofExperts := chosen, classes;
    chosen, classes := PickRest(events, marks, chosen, classes);
    StrataKept(events, before, chosen, STATES * ACTIONS);
    StrataTriedStill(events, strata, chosen, ofStrata, classes, STATES * ACTIONS);
    ServedStill(events, before, chosen, ofExperts, classes, experts);
    replay, picks := At(events, chosen), chosen;
    forall i | 0 <= i < |events| ensures Covered(events, replay, i) { StratumChosen(events, chosen, i); }
    if FilledIn(classes) {
      assert ExpertsDone(events, before, experts);
      ExpertsCovered(events, before, chosen, experts);
    }
  }

  /** An event of the expert of event `i` with at least its loss is among the chosen. */
  ghost predicate ExpertCovered(events: seq<Event>, replay: seq<Event>, i: nat)
    requires i < |events|
  {
    exists k :: 0 <= k < |replay| && replay[k].expert == events[i].expert && replay[k].loss >= events[i].loss
  }

  lemma ExpertsCovered(events: seq<Event>, picks: seq<nat>, more: seq<nat>, experts: nat)
    requires ExpertsDone(events, picks, experts) && picks <= more && Distinct(more, |events|)
    ensures forall i :: 0 <= i < |events| && events[i].expert < experts ==> ExpertCovered(events, At(events, more), i)
  {
    forall i | 0 <= i < |events| && events[i].expert < experts ensures ExpertCovered(events, At(events, more), i) {
      var c := OfExpert(events[i].expert);
      assert Represented(events, picks, c) && Of(c, events[i]);
      var k :| 0 <= k < |picks| && Top(events, c, picks[k]);
      assert At(events, more)[k] == events[picks[k]];
    }
  }

  lemma StratumChosen(events: seq<Event>, picks: seq<nat>, i: nat)
    requires StrataDone(events, picks, STATES * ACTIONS) && Distinct(picks, |events|)
    requires i < |events| && Valid(events[i])
    ensures Covered(events, At(events, picks), i)
  {
    var c := Stratum(events[i].state, events[i].action);
    assert Represented(events, picks, c);
    assert Of(c, events[i]);
    var k :| 0 <= k < |picks| && Top(events, c, picks[k]);
    assert At(events, picks)[k] == events[picks[k]];
  }

  lemma StrideMore(i: nat)
    requires i < REPLAY_N
    ensures i * 4 % BASE_TRAIN_N == 4 * i && seq(i + 1, k => 4 * k) == seq(i, k => 4 * k) + [4 * i]
  {
  }

  /** Policy 2: every fourth event, skipping those already taken when the data is short. */
  method SelectStrided(events: seq<Event>) returns (replay: seq<Event>, picks: seq<nat>)
    requires |events| <= BASE_TRAIN_N
    ensures Distinct(picks, |events|) && replay == At(events, picks) && |replay| <= 256
    ensures |events| == 1024 ==> picks == seq(256, k => 4 * k)
  {
    var marks := new bool[|events|](_ => false);
    var chosen: seq<nat> := [];
    var i := 0;
    while i < REPLAY_N && i < |events|
      invariant i <= REPLAY_N && i <= |events| && Marked(marks[..], chosen) && |chosen| <= i
      invariant |events| == BASE_TRAIN_N ==> chosen == seq(i, k => 4 * k)
    {
      var index := i * 4 % |events|;
      StrideMore(i);
      if !marks[index] {
        MarkedMore(marks[..], chosen, index);
        marks[index] := true;
        chosen := chosen + [index];
      }
      i := i + 1;
    }
    replay, picks := At(events, chosen), chosen;
  }
}
