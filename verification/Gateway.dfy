/**
 * The worker pool of the Go gateway as a state machine over its atomic steps: one producer, the
 * workers, the goroutine that closes the result channel, the collector, and cancellation by the
 * caller at any moment. Every select statement may take any of its ready cases.
 */
module Gateway {

  datatype Request = Request(id: string, value: int, delay: nat)

  datatype Result = Result(id: string, value: int)

  /** What is being run: the input, the order chosen by the policy, the number of workers. */
  datatype Config = Config(input: seq<Request>, ordered: seq<Request>, workers: nat)

  const MAX_QUEUE := 32

  predicate Admitted(c: Config) { 1 <= c.workers <= 8 && |c.input| <= MAX_QUEUE }

  /** A worker waits for a job, lets its delay pass, offers the result, or has returned. */
  datatype Worker = Idle | Holding(request: Request) | Ready(request: Request) | Done

  datatype Outcome = Running | Answer(results: seq<Result>) | Cancelled | Incomplete

  /**
   * `unsent` is what the producer has left, `sent` the requests whose results were put on the result
   * channel, `buffer` the results waiting there, `out` those collected, `dropped` the requests given
   * up because of cancellation.
   */
  datatype State = State(
    unsent: seq<Request>, producing: bool, workers: seq<Worker>, buffer: seq<Result>, closed: bool,
    out: seq<Result>, cancelled: bool, outcome: Outcome, sent: seq<Request>, dropped: multiset<Request>)

  datatype Action =
    | Cancel | Give(w: nat) | EndProducing | AbandonProducing | Elapse(w: nat) | Send(w: nat)
    | Leave(w: nat) | GiveUp(w: nat) | Close | Collect | Return

  function Square(r: Request): Result { Result(r.id, r.value * r.value) }

  function Squares(rs: seq<Request>): (out: seq<Result>)
    ensures |out| == |rs|
  {
    seq(|rs|, i requires 0 <= i < |rs| => Square(rs[i]))
  }

  function Start(c: Config): State {
    State(c.ordered, true, seq(c.workers, _ => Idle), [], false, [], false, Running, [], multiset{})
  }

  /** The result channel holds one slot per input; without slots a send meets the collector. */
  predicate CanSend(c: Config, s: State) { |c.input| == 0 || |s.buffer| < |c.input| }

  predicate Enabled(c: Config, s: State, a: Action) {
    match a
    case Cancel => !s.cancelled
    case Give(w) => s.producing && s.unsent != [] && w < |s.workers| && s.workers[w].Idle?
    case EndProducing => s.producing && s.unsent == []
    case AbandonProducing => s.producing && s.unsent != [] && s.cancelled
    case Elapse(w) => w < |s.workers| && s.workers[w].Holding?
    case Send(w) => w < |s.workers| && s.workers[w].Ready? && CanSend(c, s)
    case Leave(w) => w < |s.workers| && s.workers[w].Idle? && !s.producing
    case GiveUp(w) => w < |s.workers| && !s.workers[w].Done? && s.cancelled
    case Close => !s.closed && forall w :: 0 <= w < |s.workers| ==> s.workers[w].Done?
    case Collect => s.buffer != []
    case Return => s.closed && s.buffer == [] && s.outcome.Running?
  }

  function Apply(c: Config, s: State, a: Action): State
    requires Enabled(c, s, a)
  {
    match a
    case Cancel => s.(cancelled := true)
    case Give(w) => s.(unsent := s.unsent[1..], workers := s.workers[w := Holding(s.unsent[0])])
    case EndProducing => s.(producing := false)
    case AbandonProducing => s.(producing := false, unsent := [], dropped := s.dropped + multiset(s.unsent))
    case Elapse(w) => s.(workers := s.workers[w := Ready(s.workers[w].request)])
    case Send(w) =>
      var r := s.workers[w].request;
      var t := s.(workers := s.workers[w := Idle], sent := s.sent + [r]);
      if |c.input| == 0 then t.(out := s.out + [Square(r)]) else t.(buffer := s.buffer + [Square(r)])
    case Leave(w) => s.(workers := s.workers[w := Done])
    case GiveUp(w) => s.(workers := s.workers[w := Done], dropped := s.dropped + Held(s.workers[w]))
    case Close => s.(closed := true)
    case Collect => s.(out := s.out + [s.buffer[0]], buffer := s.buffer[1..])
    case Return =>
      s.(outcome := if s.cancelled then Cancelled
                    else if |s.out| != |c.input| then Incomplete
                    else Answer(s.out))
  }

  function Held(w: Worker): multiset<Request> {
    if w.Holding? || w.Ready? then multiset{w.request} else multiset{}
  }

  function InFlight(ws: seq<Worker>): multiset<Request> {
    if ws == [] then multiset{} else InFlight(ws[..|ws| - 1]) + Held(ws[|ws| - 1])
  }

  /** A run is a list of actions each enabled where it is taken. */
  predicate Legal(c: Config, s: State, run: seq<Action>)
    decreases |run|
  {
    run == [] || (Enabled(c, s, run[0]) && Legal(c, Apply(c, s, run[0]), run[1..]))
  }

  function After(c: Config, s: State, run: seq<Action>): State
    requires Legal(c, s, run)
    decreases |run|
  {
    if run == [] then s else After(c, Apply(c, s, run[0]), run[1..])
  }

  // ----- the invariant ---------------------------------------------------------------------------------------

  ghost predicate Inv(c: Config, s: State) { Accounted(c, s) && Channelled(c, s) && Controlled(c, s) && Reported(c, s) }

  /** Every request is unsent, in flight, sent or dropped. */
  ghost predicate Accounted(c: Config, s: State) {
    multiset(c.ordered) == multiset(s.unsent) + InFlight(s.workers) + multiset(s.sent) + s.dropped
  }

  /** Results are the squares of what was sent, and the channel is within its capacity. */
  ghost predicate Channelled(c: Config, s: State) {
    s.out + s.buffer == Squares(s.sent) && |s.buffer| <= |c.input|
  }

  ghost predicate Controlled(c: Config, s: State) {
    |s.workers| == c.workers &&
    (s.dropped != multiset{} ==> s.cancelled) &&
    (!s.producing ==> s.unsent == []) &&
    (s.producing ==> s.cancelled || NoneDone(s.workers)) &&
    (s.closed ==> AllDone(s.workers)) &&
    (!s.outcome.Running? ==> s.closed && s.buffer == [])
  }

  ghost predicate Reported(c: Config, s: State) {
    (s.outcome.Cancelled? ==> s.cancelled) &&
    (s.outcome.Answer? ==> s.outcome.results == s.out && multiset(s.sent) == multiset(c.ordered) &&
                           |c.ordered| == |c.input|) &&
    (s.outcome.Incomplete? ==> |c.ordered| != |c.input|)
  }

  ghost predicate NoneDone(ws: seq<Worker>) { forall w :: 0 <= w < |ws| ==> !ws[w].Done? }

  ghost predicate AllDone(ws: seq<Worker>) { forall w :: 0 <= w < |ws| ==> ws[w].Done? }

  lemma Alongside<T>(a: multiset<T>, x: multiset<T>, b: multiset<T>, y: multiset<T>, more: multiset<T>)
    requires a + x == b + y
    ensures a + more + x == b + more + y
  {
    forall e: T ensures (a + more + x)[e] == (b + more + y)[e] {
      assert (a + x)[e] == (b + y)[e];
    }
  }

  lemma {:induction false} InFlightUpdate(ws: seq<Worker>, w: nat, next: Worker)
    requires w < |ws|
    ensures InFlight(ws[w := next]) + Held(ws[w]) == InFlight(ws) + Held(next)
  {
    var k := |ws| - 1;
    if w < k {
      assert ws[w := next][..k] == ws[..k][w := next] && ws[w := next][k] == ws[k];
      InFlightUpdate(ws[..k], w, next);
      Alongside(InFlight(ws[..k][w := next]), Held(ws[w]), InFlight(ws[..k]), Held(next), Held(ws[k]));
    } else {
      assert ws[w := next][..k] == ws[..k] && ws[w := next][k] == next;
    }
  }

  lemma {:induction false} NothingInFlight(ws: seq<Worker>)
    requires forall w :: 0 <= w < |ws| ==> Held(ws[w]) == multiset{}
    ensures InFlight(ws) == multiset{}
  {
    if ws != [] { NothingInFlight(ws[..|ws| - 1]); }
  }

  lemma StartInv(c: Config)
    ensures Inv(c, Start(c))
  {
    NothingInFlight(Start(c).workers);
  }

  lemma MoveOut<T>(total: multiset<T>, a: multiset<T>, i: multiset<T>, b: multiset<T>, d: multiset<T>,
                   moved: multiset<T>, rest: multiset<T>)
    requires total == a + i + b + d && rest + moved == i
    ensures total == a + rest + (b + moved) + d && total == a + rest + b + (d + moved)
  {
  }

  lemma SwapHeld(ws: seq<Worker>, w: nat, next: Worker)
    requires w < |ws|
    ensures Held(ws[w]) == multiset{} ==> InFlight(ws[w := next]) == InFlight(ws) + Held(next)
    ensures Held(next) == multiset{} ==> InFlight(ws[w := next]) + Held(ws[w]) == InFlight(ws)
    ensures Held(ws[w]) == Held(next) ==> InFlight(ws[w := next]) == InFlight(ws)
  {
    InFlightUpdate(ws, w, next);
    if Held(ws[w]) == Held(next) { Cancels(InFlight(ws[w := next]), InFlight(ws), Held(next)); }
  }

  lemma Cancels<T>(a: multiset<T>, b: multiset<T>, c: multiset<T>)
    requires a + c == b + c
    ensures a == b
  {
    assert a + c - c == a && b + c - c == b;
  }

  lemma GiveAccounts(c: Config, s: State, w: nat)
    requires Accounted(c, s) && Enabled(c, s, Give(w))
    ensures Accounted(c, Apply(c, s, Give(w)))
  {
    hide InFlight;
    var next := Holding(s.unsent[0]);
    SwapHeld(s.workers, w, next);
    FirstMoves(multiset(c.ordered), s.unsent, InFlight(s.workers), InFlight(s.workers[w := next]),
               multiset(s.sent) + s.dropped);
    Regroup(multiset(c.ordered), multiset(s.unsent), InFlight(s.workers), multiset(s.sent), s.dropped);
    Regroup(multiset(c.ordered), multiset(s.unsent[1..]), InFlight(s.workers[w := next]), multiset(s.sent), s.dropped);
  }

  lemma Regroup<T>(total: multiset<T>, a: multiset<T>, b: multiset<T>, c: multiset<T>, d: multiset<T>)
    ensures total == a + b + c + d <==> total == a + b + (c + d)
  {
  }

  lemma FirstMoves<T>(total: multiset<T>, unsent: seq<T>, held: multiset<T>, more: multiset<T>, rest: multiset<T>)
    requires unsent != [] && total == multiset(unsent) + held + rest && more == held + multiset{unsent[0]}
    ensures total == multiset(unsent[1..]) + more + rest
  {
    assert unsent == [unsent[0]] + unsent[1..];
    assert multiset(unsent) == multiset{unsent[0]} + multiset(unsent[1..]);
  }

  lemma SendAccounts(c: Config, s: State, w: nat)
    requires Accounted(c, s) && Enabled(c, s, Send(w))
    ensures Accounted(c, Apply(c, s, Send(w)))
  {
    var r, t := s.workers[w].request, Apply(c, s, Send(w));
    assert t.sent == s.sent + [r] && t.workers == s.workers[w := Idle];
    SentAccounts(c, s, t, w);
  }

  lemma SentAccounts(c: Config, s: State, t: State, w: nat)
    requires Accounted(c, s) && w < |s.workers| && s.workers[w].Ready?
    requires t.unsent == s.unsent && t.workers == s.workers[w := Idle] && t.dropped == s.dropped
    requires t.sent == s.sent + [s.workers[w].request]
    ensures Accounted(c, t)
  {
    SwapHeld(s.workers, w, Idle);
    MoveOut(multiset(c.ordered), multiset(s.unsent), InFlight(s.workers), multiset(s.sent), s.dropped,
            Held(s.workers[w]), InFlight(t.workers));
    assert multiset(t.sent) == multiset(s.sent) + Held(s.workers[w]);
  }

  lemma AbandonAccounts(c: Config, s: State)
    requires Accounted(c, s) && Enabled(c, s, AbandonProducing)
    ensures Accounted(c, Apply(c, s, AbandonProducing))
  {
    var m := multiset(s.unsent);
    MoveOut(multiset(c.ordered), InFlight(s.workers), m, multiset(s.sent), s.dropped, m, multiset{});
  }

  lemma GiveUpAccounts(c: Config, s: State, w: nat)
    requires Accounted(c, s) && Enabled(c, s, GiveUp(w))
    ensures Accounted(c, Apply(c, s, GiveUp(w)))
  {
    SwapHeld(s.workers, w, Done);
    MoveOut(multiset(c.ordered), multiset(s.unsent), InFlight(s.workers), multiset(s.sent), s.dropped,
            Held(s.workers[w]), InFlight(s.workers[w := Done]));
  }

  /** A worker that keeps what it holds. */
  lemma QuietAccounts(c: Config, s: State, w: nat, next: Worker, t: State)
    requires Accounted(c, s) && w < |s.workers| && Held(s.workers[w]) == Held(next)
    requires t.unsent == s.unsent && t.workers == s.workers[w := next] && t.sent == s.sent && t.dropped == s.dropped
    ensures Accounted(c, t)
  {
    SwapHeld(s.workers, w, next);
  }

  /** No step loses or duplicates a request. */
  lemma StepAccounts(c: Config, s: State, a: Action)
    requires Accounted(c, s) && Enabled(c, s, a)
    ensures Accounted(c, Apply(c, s, a))
  {
    hide InFlight;
    match a
    case Give(w) => GiveAccounts(c, s, w);
    case Elapse(w) => QuietAccounts(c, s, w, Ready(s.workers[w].request), Apply(c, s, a));
    case Send(w) => SendAccounts(c, s, w);
    case Leave(w) => QuietAccounts(c, s, w, Done, Apply(c, s, a));
    case GiveUp(w) => GiveUpAccounts(c, s, w);
    case AbandonProducing => AbandonAccounts(c, s);
    case Collect =>
    case Return =>
    case Cancel =>
    case EndProducing =>
    case Close =>
  }

  lemma StepChannels(c: Config, s: State, a: Action)
    requires Channelled(c, s) && Enabled(c, s, a)
    ensures Channelled(c, Apply(c, s, a))
  {
    if a.Send? {
      SendChannels(s.out, s.buffer, s.sent, s.workers[a.w].request);
    } else if a.Collect? {
      CollectChannels(s.out, s.buffer);
    }
  }

  /** A result sent goes behind the buffered ones, or straight to the output when nothing is buffered. */
  lemma SendChannels(out: seq<Result>, buffer: seq<Result>, sent: seq<Request>, r: Request)
    requires out + buffer == Squares(sent)
    ensures out + (buffer + [Square(r)]) == Squares(sent + [r])
    ensures buffer == [] ==> out + [Square(r)] + buffer == Squares(sent + [r])
  {
    assert Squares(sent + [r]) == Squares(sent) + [Square(r)];
    assert out + (buffer + [Square(r)]) == (out + buffer) + [Square(r)];
  }

  lemma CollectChannels(out: seq<Result>, buffer: seq<Result>)
    requires buffer != []
    ensures out + [buffer[0]] + buffer[1..] == out + buffer
  {
  }

  lemma StepControls(c: Config, s: State, a: Action)
    requires Admitted(c) && Controlled(c, s) && Enabled(c, s, a)
    ensures Controlled(c, Apply(c, s, a))
  {
    if a.GiveUp? && s.dropped == multiset{} {
      assert s.cancelled;
    }
  }

  /** Every step keeps the invariant. */
  lemma StepKeeps(c: Config, s: State, a: Action)
    requires Admitted(c) && Inv(c, s) && Enabled(c, s, a)
    ensures Inv(c, Apply(c, s, a))
  {
    StepAccounts(c, s, a);
    StepChannels(c, s, a);
    StepControls(c, s, a);
    StepReports(c, s, a);
  }

  lemma StepReports(c: Config, s: State, a: Action)
    requires Admitted(c) && Inv(c, s) && Enabled(c, s, a)
    ensures Reported(c, Apply(c, s, a))
  {
    if a.Return? { ReturnKeeps(c, s); }
  }

  /** When all workers have returned and nothing was cancelled, every request was sent. */
  lemma ReturnKeeps(c: Config, s: State)
    requires Admitted(c) && Inv(c, s) && Enabled(c, s, Return)
    ensures Reported(c, Apply(c, s, Return))
  {
    if !s.cancelled {
      assert s.workers[0].Done?;
      NothingInFlight(s.workers);
      assert multiset(c.ordered) == multiset(s.sent);
      SameSize(c.ordered, s.sent);
      assert |s.out| == |s.sent|;
    }
  }

  lemma SameSize<T>(a: seq<T>, b: seq<T>)
    requires multiset(a) == multiset(b)
    ensures |a| == |b|
  {
    assert |multiset(a)| == |a| && |multiset(b)| == |b|;
  }

  lemma {:induction false} RunKeeps(c: Config, s: State, run: seq<Action>)
    requires Admitted(c) && Inv(c, s) && Legal(c, s, run)
    ensures Inv(c, After(c, s, run))
    decreases |run|
  {
    if run != [] {
      StepKeeps(c, s, run[0]);
      RunKeeps(c, Apply(c, s, run[0]), run[1..]);
    }
  }

  // ----- main results -----------------------------------------------------------------------------------------

  /**
   * However the goroutines interleave: an answer holds the squares of exactly the requests, the
   * incomplete error appears exactly when the policy changed the number of requests, and the
   * cancellation error only after a cancellation.
   */
  lemma Outcomes(c: Config, run: seq<Action>)
    requires Admitted(c) && Legal(c, Start(c), run)
    ensures var s := After(c, Start(c), run);
            (s.outcome.Answer? ==> exists order: seq<Request> ::
              multiset(order) == multiset(c.ordered) && s.outcome.results == Squares(order)) &&
            (s.outcome.Answer? ==> |s.outcome.results| == |c.input|) &&
            (s.outcome.Incomplete? ==> |c.ordered| != |c.input|) &&
            (s.outcome.Answer? ==> |c.ordered| == |c.input|) &&
            (s.outcome.Cancelled? ==> s.cancelled)
  {
    StartInv(c);
    RunKeeps(c, Start(c), run);
    var s := After(c, Start(c), run);
    if s.outcome.Answer? {
      assert s.out + s.buffer == s.out;
      SameSize(s.sent, c.ordered);
      assert multiset(s.sent) == multiset(c.ordered) && s.outcome.results == Squares(s.sent);
    }
  }

  /** With a policy that only reorders, a worker that has a result can always send it. */
  lemma SendsNeverBlock(c: Config, run: seq<Action>, w: nat)
    requires Admitted(c) && Legal(c, Start(c), run) && |c.ordered| <= |c.input|
    ensures var s := After(c, Start(c), run);
            w < |s.workers| && s.workers[w].Ready? ==> Enabled(c, s, Send(w))
  {
    StartInv(c);
    RunKeeps(c, Start(c), run);
    var s := After(c, Start(c), run);
    if w < |s.workers| && s.workers[w].Ready? {
      HeldInFlight(s.workers, w);
      var r := s.workers[w].request;
      assert r in InFlight(s.workers);
      assert |multiset(c.ordered)| == |c.ordered| && |multiset(s.sent)| == |s.sent|;
      assert |multiset(c.ordered)| == |multiset(s.unsent)| + |InFlight(s.workers)| + |multiset(s.sent)| + |s.dropped|;
      assert |InFlight(s.workers)| > 0;
      assert |s.out + s.buffer| == |s.sent|;
    }
  }

  lemma {:induction false} HeldInFlight(ws: seq<Worker>, w: nat)
    requires w < |ws|
    ensures Held(ws[w]) <= InFlight(ws)
  {
    if w < |ws| - 1 { HeldInFlight(ws[..|ws| - 1], w); }
  }

  /** Something other than cancellation can happen until the gateway has returned. */
  lemma NoDeadlock(c: Config, s: State)
    requires Admitted(c) && Inv(c, s) && s.outcome.Running?
    ensures exists a :: a != Cancel && Enabled(c, s, a)
  {
    if w :| 0 <= w < |s.workers| && s.workers[w].Holding? {
      assert Enabled(c, s, Elapse(w));
    } else if w :| 0 <= w < |s.workers| && s.workers[w].Ready? {
      if CanSend(c, s) {
        assert Enabled(c, s, Send(w));
      } else {
        assert Enabled(c, s, Collect);
      }
    } else if s.producing {
      ProducerMoves(c, s);
    } else if w :| 0 <= w < |s.workers| && s.workers[w].Idle? {
      assert Enabled(c, s, Leave(w));
    } else if !s.closed {
      assert Enabled(c, s, Close);
    } else if s.buffer != [] {
      assert Enabled(c, s, Collect);
    } else {
      assert Enabled(c, s, Return);
    }
  }

  lemma ProducerMoves(c: Config, s: State)
    requires Admitted(c) && Inv(c, s) && s.producing
    requires forall w :: 0 <= w < |s.workers| ==> !s.workers[w].Holding? && !s.workers[w].Ready?
    ensures exists a :: a != Cancel && Enabled(c, s, a)
  {
    if s.unsent == [] {
      assert Enabled(c, s, EndProducing);
    } else if s.workers[0].Idle? {
      assert Enabled(c, s, Give(0));
    } else {
      assert s.workers[0].Done?;
      assert Enabled(c, s, AbandonProducing);
    }
  }

  function Weight(w: Worker): nat {
    match w case Idle => 1 case Holding(_) => 4 case Ready(_) => 3 case Done => 0
  }

  function Weights(ws: seq<Worker>): nat {
    if ws == [] then 0 else Weights(ws[..|ws| - 1]) + Weight(ws[|ws| - 1])
  }

  lemma {:induction false} WeightsUpdate(ws: seq<Worker>, w: nat, next: Worker)
    requires w < |ws|
    ensures Weights(ws[w := next]) + Weight(ws[w]) == Weights(ws) + Weight(next)
  {
    var k := |ws| - 1;
    if w < k {
      assert ws[w := next][..k] == ws[..k][w := next];
      WeightsUpdate(ws[..k], w, next);
    } else {
      assert ws[w := next][..k] == ws[..k];
    }
  }

  /** What can still happen. */
  function Measure(s: State): nat {
    4 * |s.unsent| + Weights(s.workers) + |s.buffer| + (if s.producing then 1 else 0) +
    (if s.closed then 0 else 1) + (if s.outcome.Running? then 1 else 0) + (if s.cancelled then 0 else 1)
  }

  lemma StepDecreases(c: Config, s: State, a: Action)
    requires Enabled(c, s, a)
    ensures Measure(Apply(c, s, a)) < Measure(s)
  {
    match a
    case Give(w) => WeightsUpdate(s.workers, w, Holding(s.unsent[0]));
    case Elapse(w) => WeightsUpdate(s.workers, w, Ready(s.workers[w].request));
    case Send(w) => WeightsUpdate(s.workers, w, Idle);
    case Leave(w) => WeightsUpdate(s.workers, w, Done);
    case GiveUp(w) => WeightsUpdate(s.workers, w, Done);
    case Collect =>
    case Return =>
    case Cancel =>
    case EndProducing =>
    case AbandonProducing =>
    case Close =>
  }

  lemma {:induction false} RunBounded(c: Config, s: State, run: seq<Action>)
    requires Legal(c, s, run)
    ensures |run| + Measure(After(c, s, run)) <= Measure(s)
    decreases |run|
  {
    if run != [] {
      StepDecreases(c, s, run[0]);
      RunBounded(c, Apply(c, s, run[0]), run[1..]);
    }
  }

  lemma {:induction false} StartWeights(n: nat)
    ensures Weights(seq(n, _ => Idle)) == n
  {
    if n > 0 {
      assert seq(n, _ => Idle)[..n - 1] == seq(n - 1, _ => Idle);
      StartWeights(n - 1);
    }
  }

  /**
   * Every run is finite, and a run that cannot be continued has returned: the uncancelled ones with
   * the complete answer when the policy keeps the number of requests.
   */
  lemma RunsReturn(c: Config, run: seq<Action>)
    requires Admitted(c) && Legal(c, Start(c), run)
    ensures |run| <= 4 * |c.ordered| + c.workers + 4
    ensures (forall a :: Enabled(c, After(c, Start(c), run), a) ==> a == Cancel) ==>
              var s := After(c, Start(c), run);
              !s.outcome.Running? && (!s.cancelled && |c.ordered| == |c.input| ==> s.outcome.Answer?)
  {
    StartInv(c);
    RunKeeps(c, Start(c), run);
    RunBounded(c, Start(c), run);
    StartWeights(c.workers);
    var s := After(c, Start(c), run);
    if s.outcome.Running? { NoDeadlock(c, s); }
  }
}
