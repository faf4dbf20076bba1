/**
 * Which answers the gateway can give: the results of the requests in exactly those orders that `w` workers can
 * bring about, where the k-th result comes from the first k - 1 + w requests handed out.
 */
module GatewayOrders {
  import opened Gateway
  import opened GatewayPolicy

  function Min(a: nat, b: nat): nat { if a < b then a else b }

  /** The first k results of the order come from the requests handed out by then. */
  ghost predicate Timely(order: seq<Request>, ordered: seq<Request>, w: nat) {
    forall k :: 1 <= k <= |order| ==> InTime(order, ordered, w, k)
  }

  ghost predicate InTime(order: seq<Request>, ordered: seq<Request>, w: nat, k: nat)
    requires 1 <= k <= |order|
  {
    multiset(order[..k]) <= multiset(ordered[..Min(|ordered|, k - 1 + w)])
  }

  // ----- every answer is timely ---------------------------------------------------------------------------------

  /** Until a cancellation the requests are handed out in order; until then, and in an answer, sent in time. */
  ghost predicate Prompt(c: Config, s: State) {
    (!s.cancelled ==> |s.unsent| <= |c.ordered| && s.unsent == c.ordered[|c.ordered| - |s.unsent|..]) &&
    (!s.cancelled || s.outcome.Answer? ==> Timely(s.sent, c.ordered, c.workers))
  }

  lemma {:induction false} FlightSize(ws: seq<Worker>)
    ensures |InFlight(ws)| <= |ws|
  {
    if ws != [] { FlightSize(ws[..|ws| - 1]); }
  }

  /** When a result is sent, at most as many requests are out as there are workers. */
  lemma SentInTime(c: Config, s: State, w: nat)
    requires Inv(c, s) && Prompt(c, s) && !s.cancelled && Enabled(c, s, Send(w))
    ensures Timely(Apply(c, s, Send(w)).sent, c.ordered, c.workers)
  {
    hide *;
    SendFacts(c, s, w);
    var r, g := s.workers[w].request, |c.ordered| - |s.unsent|;
    OneMoreSent(s.sent, r, InFlight(s.workers), c.ordered[..g]);
    TimelySnoc(c, s, s.sent + [r], g);
  }

  lemma SendFacts(c: Config, s: State, w: nat)
    requires Inv(c, s) && Prompt(c, s) && !s.cancelled && Enabled(c, s, Send(w))
    ensures w < |s.workers| && s.workers[w].Ready? && |s.unsent| <= |c.ordered|
    ensures Apply(c, s, Send(w)).sent == s.sent + [s.workers[w].request]
    ensures Timely(s.sent, c.ordered, c.workers)
    ensures multiset{s.workers[w].request} <= InFlight(s.workers) && |InFlight(s.workers)| <= c.workers
    ensures multiset(c.ordered[..|c.ordered| - |s.unsent|]) == InFlight(s.workers) + multiset(s.sent)
  {
    hide Timely, InFlight;
    GivenOut(c, s);
    FlightSize(s.workers);
    HeldInFlight(s.workers, w);
  }

  lemma OneMoreSent(sent: seq<Request>, r: Request, flight: multiset<Request>, given: seq<Request>)
    requires multiset(given) == flight + multiset(sent) && multiset{r} <= flight
    ensures multiset(sent + [r]) <= multiset(given) && |given| == |flight| + |sent|
  {
    assert multiset(sent + [r]) == multiset(sent) + multiset{r};
    assert |multiset(given)| == |given| && |multiset(sent)| == |sent|;
    assert |flight + multiset(sent)| == |flight| + |multiset(sent)|;
  }

  lemma TimelySnoc(c: Config, s: State, sent: seq<Request>, g: nat)
    requires Timely(s.sent, c.ordered, c.workers) && |sent| == |s.sent| + 1 && sent[..|s.sent|] == s.sent
    requires g <= |c.ordered| && multiset(sent) <= multiset(c.ordered[..g]) && g <= |s.sent| + c.workers
    ensures Timely(sent, c.ordered, c.workers)
  {
    var k := |sent|;
    forall j | 1 <= j <= k ensures InTime(sent, c.ordered, c.workers, j) {
      if j < k {
        assert InTime(s.sent, c.ordered, c.workers, j) && sent[..j] == s.sent[..j];
      } else {
        assert sent[..k] == sent;
        MoreGiven(c.ordered, g, Min(|c.ordered|, k - 1 + c.workers));
      }
    }
  }

  lemma MoreGiven(ordered: seq<Request>, g: nat, m: nat)
    requires g <= m <= |ordered|
    ensures multiset(ordered[..g]) <= multiset(ordered[..m])
  {
    assert ordered[..m] == ordered[..g] + ordered[g..m];
  }

  /** What was handed out is in flight or sent. */
  lemma GivenOut(c: Config, s: State)
    requires Inv(c, s) && Prompt(c, s) && !s.cancelled
    ensures multiset(c.ordered[..|c.ordered| - |s.unsent|]) == InFlight(s.workers) + multiset(s.sent)
  {
    var given := c.ordered[..|c.ordered| - |s.unsent|];
    assert s.dropped == multiset{};
    assert c.ordered == given + s.unsent;
    assert multiset(c.ordered) == multiset(given) + multiset(s.unsent);
    Cancels(multiset(given), InFlight(s.workers) + multiset(s.sent), multiset(s.unsent));
  }

  lemma StepPrompt(c: Config, s: State, a: Action)
    requires Inv(c, s) && Prompt(c, s) && Enabled(c, s, a)
    ensures Prompt(c, Apply(c, s, a))
  {
    hide Inv, Timely;
    if a.Send? {
      AnsweredDone(c, s, a.w);
      if !s.cancelled { SentInTime(c, s, a.w); }
    }
  }

  /** Nothing is sent any more when the answer is given. */
  lemma AnsweredDone(c: Config, s: State, w: nat)
    requires Inv(c, s) && w < |s.workers| && s.workers[w].Ready?
    ensures !s.outcome.Answer?
  {
  }

  lemma {:induction false} RunPrompt(c: Config, s: State, run: seq<Action>)
    requires Admitted(c) && Inv(c, s) && Prompt(c, s) && Legal(c, s, run)
    ensures Prompt(c, After(c, s, run)) && Inv(c, After(c, s, run))
    decreases |run|
  {
    hide Inv, Prompt, Enabled, Apply;
    if run != [] {
      StepKeeps(c, s, run[0]);
      StepPrompt(c, s, run[0]);
      RunPrompt(c, Apply(c, s, run[0]), run[1..]);
    }
  }

  /** The results of a list of requests. */
  predicate ResultsOf(results: seq<Result>, order: seq<Request>) {
    |results| == |order| &&
    forall i :: 0 <= i < |order| ==> results[i].id == order[i].id && results[i].value == order[i].value * order[i].value
  }

  lemma SquaresAre(results: seq<Result>, order: seq<Request>)
    ensures results == Squares(order) <==> ResultsOf(results, order)
  {
    if ResultsOf(results, order) {
      forall i | 0 <= i < |order| ensures results[i] == Squares(order)[i] {}
    }
  }

  /** An answer holds the results of all requests, in an order that is timely for the workers. */
  lemma AnswersTimely(c: Config, run: seq<Action>)
    requires Admitted(c) && Legal(c, Start(c), run) && After(c, Start(c), run).outcome.Answer?
    ensures exists order :: multiset(order) == multiset(c.ordered) && Timely(order, c.ordered, c.workers) &&
                            ResultsOf(After(c, Start(c), run).outcome.results, order)
  {
    var s := After(c, Start(c), run);
    StartInv(c);
    StartPrompt(c);
    RunPrompt(c, Start(c), run);
    assert s.out + s.buffer == s.out;
    SquaresAre(s.outcome.results, s.sent);
  }

  lemma StartPrompt(c: Config)
    ensures Prompt(c, Start(c))
  {
  }

  // ----- every timely order is an answer ------------------------------------------------------------------------

  lemma {:induction false} LegalConcat(c: Config, s: State, a: seq<Action>, b: seq<Action>)
    requires Legal(c, s, a) && Legal(c, After(c, s, a), b)
    ensures Legal(c, s, a + b) && After(c, s, a + b) == After(c, After(c, s, a), b)
    decreases |a|
  {
    if a == [] {
      assert a + b == b;
    } else {
      assert (a + b)[0] == a[0] && (a + b)[1..] == a[1..] + b;
      LegalConcat(c, Apply(c, s, a[0]), a[1..], b);
    }
  }

  lemma OneAction(c: Config, s: State, a: Action)
    requires Enabled(c, s, a)
    ensures Legal(c, s, [a]) && After(c, s, [a]) == Apply(c, s, a)
  {
    assert [a][1..] == [];
  }

  /** The first `k` results are sent, the first `g` requests handed out, and the delays of the rest have passed. */
  ghost predicate Ahead(c: Config, s: State, order: seq<Request>, k: nat, g: nat) {
    k <= g <= |c.ordered| && k <= |order| && s.unsent == c.ordered[g..] && s.producing && |s.workers| == c.workers &&
    (forall w :: 0 <= w < |s.workers| ==> s.workers[w].Idle? || s.workers[w].Ready?) &&
    multiset(order[..k]) + InFlight(s.workers) == multiset(c.ordered[..g]) &&
    s.sent == order[..k] && s.buffer == Squares(order[..k]) && s.out == [] && !s.closed && !s.cancelled &&
    s.outcome.Running?
  }

  lemma StartAhead(c: Config, order: seq<Request>)
    ensures Ahead(c, Start(c), order, 0, 0)
  {
    NothingInFlight(Start(c).workers);
  }

  lemma {:induction false} SomeIdle(ws: seq<Worker>)
    requires |InFlight(ws)| < |ws|
    ensures exists w :: 0 <= w < |ws| && !ws[w].Holding? && !ws[w].Ready?
  {
    var n := |ws| - 1;
    if ws[n].Holding? || ws[n].Ready? {
      SomeIdle(ws[..n]);
      var w :| 0 <= w < n && !ws[..n][w].Holding? && !ws[..n][w].Ready?;
      assert !ws[w].Holding? && !ws[w].Ready?;
    }
  }

  lemma {:induction false} SomeHolds(ws: seq<Worker>, r: Request)
    requires r in InFlight(ws)
    ensures exists w :: 0 <= w < |ws| && (ws[w].Holding? || ws[w].Ready?) && ws[w].request == r
  {
    if ws != [] {
      var n := |ws| - 1;
      if r in InFlight(ws[..n]) {
        SomeHolds(ws[..n], r);
        var w :| 0 <= w < n && (ws[..n][w].Holding? || ws[..n][w].Ready?) && ws[..n][w].request == r;
        assert (ws[w].Holding? || ws[w].Ready?) && ws[w].request == r;
      }
    }
  }

  lemma FlightOf(c: Config, s: State, order: seq<Request>, k: nat, g: nat)
    requires Ahead(c, s, order, k, g)
    ensures |InFlight(s.workers)| == g - k
  {
    assert |multiset(order[..k])| == k && |multiset(c.ordered[..g])| == g;
    assert |multiset(order[..k]) + InFlight(s.workers)| == |multiset(order[..k])| + |InFlight(s.workers)|;
  }

  /** One more request goes to an idle worker, and its delay passes. */
  lemma GiveOne(c: Config, s: State, order: seq<Request>, k: nat, g: nat) returns (run: seq<Action>)
    requires Ahead(c, s, order, k, g) && g < Min(|c.ordered|, k + c.workers)
    ensures Legal(c, s, run) && Ahead(c, After(c, s, run), order, k, g + 1)
  {
    FlightOf(c, s, order, k, g);
    SomeIdle(s.workers);
    var w: nat :| w < |s.workers| && !s.workers[w].Holding? && !s.workers[w].Ready?;
    var s1 := Apply(c, s, Give(w));
    OneAction(c, s, Give(w));
    OneAction(c, s1, Elapse(w));
    LegalConcat(c, s, [Give(w)], [Elapse(w)]);
    run := [Give(w)] + [Elapse(w)];
    GivenAhead(c, s, Apply(c, s1, Elapse(w)), order, k, g, w);
  }

  lemma GivenAhead(c: Config, s: State, t: State, order: seq<Request>, k: nat, g: nat, w: nat)
    requires Ahead(c, s, order, k, g) && g < |c.ordered| && w < |s.workers| && s.workers[w].Idle?
    requires t == s.(unsent := s.unsent[1..], workers := s.workers[w := Ready(c.ordered[g])])
    ensures Ahead(c, t, order, k, g + 1)
  {
    var x := c.ordered[g];
    hide InFlight, Squares;
    FlightAfterGive(s.workers, w, x);
    OrderSnoc(c.ordered, g);
    assert c.ordered[g..][1..] == c.ordered[g + 1..];
    Joined(multiset(order[..k]), InFlight(s.workers), multiset(c.ordered[..g]), multiset{x});
  }

  lemma Joined<T>(a: multiset<T>, f: multiset<T>, m: multiset<T>, x: multiset<T>)
    requires a + f == m
    ensures a + (f + x) == m + x
  {
  }

  lemma Shifted<T>(a: multiset<T>, f: multiset<T>, m: multiset<T>, x: multiset<T>, f1: multiset<T>)
    requires a + f == m && f1 + x == f
    ensures a + x + f1 == m
  {
  }

  /** As many requests as there are workers are handed out. */
  lemma {:induction false} GiveAll(c: Config, s: State, order: seq<Request>, k: nat, g: nat) returns (run: seq<Action>)
    requires Ahead(c, s, order, k, g) && g <= Min(|c.ordered|, k + c.workers)
    ensures Legal(c, s, run) && Ahead(c, After(c, s, run), order, k, Min(|c.ordered|, k + c.workers))
    decreases |c.ordered| - g
  {
    hide Ahead;
    if g == Min(|c.ordered|, k + c.workers) {
      run := [];
    } else {
      var first := GiveOne(c, s, order, k, g);
      var rest := GiveAll(c, After(c, s, first), order, k, g + 1);
      LegalConcat(c, s, first, rest);
      run := first + rest;
    }
  }

  /** The next result of the order is sent. */
  lemma SendOne(c: Config, s: State, order: seq<Request>, k: nat, g: nat) returns (run: seq<Action>)
    requires Ahead(c, s, order, k, g) && k < |order| && |order| <= |c.input|
    requires multiset(order[..k + 1]) <= multiset(c.ordered[..g])
    ensures Legal(c, s, run) && Ahead(c, After(c, s, run), order, k + 1, g)
  {
    var r := order[k];
    NextFlies(order, k, multiset(c.ordered[..g]), InFlight(s.workers));
    SomeHolds(s.workers, r);
    var w: nat :| w < |s.workers| && (s.workers[w].Holding? || s.workers[w].Ready?) && s.workers[w].request == r;
    FlightOf(c, s, order, k, g);
    OneAction(c, s, Send(w));
    run := [Send(w)];
    SentAhead(c, s, After(c, s, run), order, k, g, w);
  }

  lemma NextFlies(order: seq<Request>, k: nat, given: multiset<Request>, flight: multiset<Request>)
    requires k < |order| && multiset(order[..k]) + flight == given && multiset(order[..k + 1]) <= given
    ensures order[k] in flight
  {
    assert order[..k + 1] == order[..k] + [order[k]];
    assert multiset(order[..k + 1])[order[k]] == multiset(order[..k])[order[k]] + 1;
    assert given[order[k]] == multiset(order[..k])[order[k]] + flight[order[k]];
  }

  lemma SentAhead(c: Config, s: State, t: State, order: seq<Request>, k: nat, g: nat, w: nat)
    requires Ahead(c, s, order, k, g) && k < |order| && k < g && w < |s.workers| && s.workers[w] == Ready(order[k])
    requires t == s.(workers := s.workers[w := Idle], sent := s.sent + [order[k]],
                     buffer := s.buffer + [Square(order[k])])
    ensures Ahead(c, t, order, k + 1, g)
  {
    hide InFlight, Squares, Square;
    OrderSnoc(order, k);
    FlightAfterSend(s.workers, w);
    Shifted(multiset(order[..k]), InFlight(s.workers), multiset(c.ordered[..g]), multiset{order[k]},
            InFlight(t.workers));
  }

  lemma OrderSnoc(order: seq<Request>, k: nat)
    requires k < |order|
    ensures order[..k + 1] == order[..k] + [order[k]]
    ensures multiset(order[..k + 1]) == multiset(order[..k]) + multiset{order[k]}
    ensures Squares(order[..k + 1]) == Squares(order[..k]) + [Square(order[k])]
  {
    assert order[..k + 1] == order[..k] + [order[k]];
    assert Squares(order[..k + 1]) == Squares(order[..k]) + [Square(order[k])];
  }

  lemma FlightAfterSend(ws: seq<Worker>, w: nat)
    requires w < |ws| && ws[w].Ready?
    ensures InFlight(ws[w := Idle]) + multiset{ws[w].request} == InFlight(ws)
  {
    SwapHeld(ws, w, Idle);
  }

  lemma FlightAfterGive(ws: seq<Worker>, w: nat, r: Request)
    requires w < |ws| && ws[w].Idle?
    ensures InFlight(ws[w := Ready(r)]) == InFlight(ws) + multiset{r}
  {
    SwapHeld(ws, w, Ready(r));
  }

  lemma {:induction false} SendAll(c: Config, s: State, order: seq<Request>, k: nat, g: nat) returns (run: seq<Action>)
    requires Ahead(c, s, order, k, g) && g <= Min(|c.ordered|, k + c.workers) && |order| == |c.ordered| <= |c.input|
    requires Timely(order, c.ordered, c.workers)
    ensures Legal(c, s, run) && Ahead(c, After(c, s, run), order, |order|, |order|)
    decreases |order| - k
  {
    hide Ahead;
    var m := Min(|c.ordered|, k + c.workers);
    var first := GiveAll(c, s, order, k, g);
    var s1 := After(c, s, first);
    if k == |order| {
      run := first;
    } else if k < |order| {
      assert InTime(order, c.ordered, c.workers, k + 1);
      var next := SendOne(c, s1, order, k, m);
      var rest := SendAll(c, After(c, s1, next), order, k + 1, m);
      LegalConcat(c, s1, next, rest);
      LegalConcat(c, s, first, next + rest);
      run := first + (next + rest);
    } else {
      AheadWithin(c, s, order, k, g);
    }
  }

  lemma AheadWithin(c: Config, s: State, order: seq<Request>, k: nat, g: nat)
    requires Ahead(c, s, order, k, g)
    ensures k <= |order|
  {
  }

  // ----- closing down -------------------------------------------------------------------------------------------

  /** All results are in the channel; the first `d` workers have returned. */
  ghost predicate Leaving(c: Config, s: State, results: seq<Result>, d: nat) {
    !s.producing && s.unsent == [] && d <= |s.workers| == c.workers && s.buffer == results && s.out == [] &&
    !s.closed && !s.cancelled && s.outcome.Running? && |results| == |c.input| &&
    (forall w :: 0 <= w < d ==> s.workers[w].Done?) && forall w :: d <= w < |s.workers| ==> s.workers[w].Idle?
  }

  ghost predicate Collecting(c: Config, s: State, results: seq<Result>, i: nat) {
    i <= |results| == |c.input| && s.closed && !s.cancelled && s.outcome.Running? && s.out == results[..i] &&
    s.buffer == results[i..]
  }

  lemma ProducerEnds(c: Config, s: State, order: seq<Request>) returns (run: seq<Action>)
    requires Ahead(c, s, order, |order|, |order|) && |order| == |c.ordered| == |c.input|
    ensures Legal(c, s, run) && Leaving(c, After(c, s, run), Squares(order), 0)
  {
    FlightOf(c, s, order, |order|, |order|);
    forall w | 0 <= w < |s.workers| ensures s.workers[w].Idle? {
      HeldInFlight(s.workers, w);
      if s.workers[w].Ready? { assert s.workers[w].request in InFlight(s.workers); }
    }
    assert order[..|order|] == order;
    OneAction(c, s, EndProducing);
    run := [EndProducing];
  }

  lemma {:induction false} LeaveAll(c: Config, s: State, results: seq<Result>, d: nat) returns (run: seq<Action>)
    requires Leaving(c, s, results, d)
    ensures Legal(c, s, run) && Leaving(c, After(c, s, run), results, c.workers)
    decreases c.workers - d
  {
    if d == c.workers {
      run := [];
    } else {
      OneAction(c, s, Leave(d));
      var rest := LeaveAll(c, Apply(c, s, Leave(d)), results, d + 1);
      LegalConcat(c, s, [Leave(d)], rest);
      run := [Leave(d)] + rest;
    }
  }

  lemma CloseChannel(c: Config, s: State, results: seq<Result>) returns (run: seq<Action>)
    requires Leaving(c, s, results, c.workers)
    ensures Legal(c, s, run) && Collecting(c, After(c, s, run), results, 0)
  {
    OneAction(c, s, Close);
    run := [Close];
  }

  lemma {:induction false} CollectAll(c: Config, s: State, results: seq<Result>, i: nat) returns (run: seq<Action>)
    requires Collecting(c, s, results, i)
    ensures Legal(c, s, run) && After(c, s, run).outcome == Answer(results)
    decreases |results| - i
  {
    if i == |results| {
      assert results[..i] == results && results[i..] == [];
      OneAction(c, s, Return);
      run := [Return];
    } else {
      var s1 := Apply(c, s, Collect);
      assert results[..i + 1] == results[..i] + [results[i]] && results[i..][1..] == results[i + 1..];
      OneAction(c, s, Collect);
      var rest := CollectAll(c, s1, results, i + 1);
      LegalConcat(c, s, [Collect], rest);
      run := [Collect] + rest;
    }
  }

  /** A run that answers in a given timely order. */
  lemma RunFor(c: Config, order: seq<Request>) returns (run: seq<Action>)
    requires Admitted(c) && |c.ordered| == |c.input| && multiset(order) == multiset(c.ordered)
    requires Timely(order, c.ordered, c.workers)
    ensures Legal(c, Start(c), run) && After(c, Start(c), run).outcome == Answer(Squares(order))
  {
    hide Ahead, Leaving, Collecting, Timely, Enabled, Apply;
    SameSize(order, c.ordered);
    StartAhead(c, order);
    var sends := SendAll(c, Start(c), order, 0, 0);
    var s1 := After(c, Start(c), sends);
    var ends := ProducerEnds(c, s1, order);
    var s2 := After(c, s1, ends);
    var leaves := LeaveAll(c, s2, Squares(order), 0);
    var s3 := After(c, s2, leaves);
    var closes := CloseChannel(c, s3, Squares(order));
    var s4 := After(c, s3, closes);
    var collects := CollectAll(c, s4, Squares(order), 0);
    LegalConcat(c, s3, closes, collects);
    LegalConcat(c, s2, leaves, closes + collects);
    LegalConcat(c, s1, ends, leaves + (closes + collects));
    LegalConcat(c, Start(c), sends, ends + (leaves + (closes + collects)));
    run := sends + (ends + (leaves + (closes + collects)));
  }

  /** The results can be given as an answer. */
  ghost predicate Answerable(c: Config, results: seq<Result>) {
    exists run :: Legal(c, Start(c), run) && After(c, Start(c), run).outcome == Answer(results)
  }

  /** The results of all requests, in an order in which the workers can bring them about. */
  ghost predicate TimelyResults(c: Config, results: seq<Result>) {
    exists order :: multiset(order) == multiset(c.ordered) && Timely(order, c.ordered, c.workers) &&
                    ResultsOf(results, order)
  }

  /** Exactly these answers can be given. */
  lemma AnswersIff(c: Config, results: seq<Result>)
    requires 1 <= c.workers <= 8 && |c.ordered| == |c.input| <= 32
    ensures Answerable(c, results) <==> TimelyResults(c, results)
  {
    hide Legal, After, Timely;
    if Answerable(c, results) {
      var run :| Legal(c, Start(c), run) && After(c, Start(c), run).outcome == Answer(results);
      AnswersTimely(c, run);
    }
    if TimelyResults(c, results) {
      var order :| multiset(order) == multiset(c.ordered) && Timely(order, c.ordered, c.workers) &&
                   ResultsOf(results, order);
      var run := RunFor(c, order);
      SquaresAre(results, order);
    }
  }

  // ----- one worker, and enough workers -------------------------------------------------------------------------

  /** One worker keeps the order. */
  lemma OneWorker(c: Config, results: seq<Result>)
    requires c.workers == 1 && |c.ordered| == |c.input| <= 32
    ensures Answerable(c, results) <==> ResultsOf(results, c.ordered)
  {
    AnswersIff(c, results);
    if TimelyResults(c, results) {
      var order :| multiset(order) == multiset(c.ordered) && Timely(order, c.ordered, c.workers) &&
                   ResultsOf(results, order);
      SameSize(order, c.ordered);
      SameOrder(order, c.ordered, |order|);
      assert order[..|order|] == order && c.ordered[..|order|] == c.ordered;
    }
    if ResultsOf(results, c.ordered) { assert Timely(c.ordered, c.ordered, 1); }
  }

  lemma {:induction false} SameOrder(order: seq<Request>, ordered: seq<Request>, k: nat)
    requires k <= |order| == |ordered| && Timely(order, ordered, 1)
    ensures order[..k] == ordered[..k]
  {
    if k > 0 {
      var m := k - 1;
      SameOrder(order, ordered, m);
      assert InTime(order, ordered, 1, k);
      assert order[..k] == order[..m] + [order[m]] && ordered[..k] == ordered[..m] + [ordered[m]];
      assert multiset(order[..k]) <= multiset(ordered[..k]);
      LastSame(multiset(order[..m]), order[m], ordered[m], multiset(order[..k]), multiset(ordered[..k]));
    }
  }

  lemma LastSame<T>(m: multiset<T>, x: T, y: T, a: multiset<T>, b: multiset<T>)
    requires a == m + multiset{x} && b == m + multiset{y} && a <= b
    ensures x == y
  {
    assert a[x] == m[x] + 1;
  }

  /** With a worker for every request any order of the results can come out. */
  lemma EnoughWorkers(c: Config, order: seq<Request>)
    requires |c.ordered| == |c.input| <= c.workers <= 8 && 1 <= c.workers && multiset(order) == multiset(c.ordered)
    ensures Answerable(c, Squares(order))
  {
    SameSize(order, c.ordered);
    forall k | 1 <= k <= |order| ensures InTime(order, c.ordered, c.workers, k) {
      assert order == order[..k] + order[k..] && c.ordered[..|c.ordered|] == c.ordered;
      assert multiset(order) == multiset(order[..k]) + multiset(order[k..]);
    }
    SquaresAre(Squares(order), order);
    AnswersIff(c, Squares(order));
  }

  // ----- cancellation -------------------------------------------------------------------------------------------

  /** The step of the run at which the gateway returns. */
  ghost predicate ReturnsAt(c: Config, s: State, run: seq<Action>, k: nat)
    requires Legal(c, s, run)
  {
    k < |run| && run[k] == Return && Legal(c, s, run[..k]) && After(c, s, run[..k]).outcome.Running?
  }

  /** A run that has returned did so at one step, with the cancellation error exactly if it was cancelled before. */
  lemma {:induction false} CancelledIff(c: Config, s: State, run: seq<Action>) returns (k: nat)
    requires Legal(c, s, run) && s.outcome.Running? && !After(c, s, run).outcome.Running?
    ensures ReturnsAt(c, s, run, k)
    ensures After(c, s, run).outcome == Cancelled <==> After(c, s, run[..k]).cancelled
    decreases |run|
  {
    hide Enabled, Apply;
    var s1 := Apply(c, s, run[0]);
    if run[0] == Return {
      k := 0;
      assert run[..0] == [];
      ReturnSays(c, s);
      OutcomeStays(c, s1, run[1..]);
    } else {
      NotYet(c, s, run[0]);
      var j := CancelledIff(c, s1, run[1..]);
      k := j + 1;
      assert run[..k][0] == run[0] && run[..k][1..] == run[1..][..j];
    }
  }

  lemma ReturnSays(c: Config, s: State)
    requires Enabled(c, s, Return)
    ensures var t := Apply(c, s, Return);
            !t.outcome.Running? && (t.outcome == Cancelled <==> s.cancelled)
  {
  }

  lemma NotYet(c: Config, s: State, a: Action)
    requires Enabled(c, s, a) && a != Return && s.outcome.Running?
    ensures Apply(c, s, a).outcome.Running?
  {
  }

  lemma {:induction false} OutcomeStays(c: Config, s: State, run: seq<Action>)
    requires Legal(c, s, run) && !s.outcome.Running?
    ensures After(c, s, run).outcome == s.outcome
    decreases |run|
  {
    if run != [] { OutcomeStays(c, Apply(c, s, run[0]), run[1..]); }
  }
}
