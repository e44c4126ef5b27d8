/** The outbox worker: how long a failed event waits, what one pass counts, and how passes, callers
    and Stop share one worker. */
module Outbox {
  import opened Decimals

  // ----- Retry delay -----

  /** Machine integers of 64 bits; leaving their range is an error the verifier would report. */
  newtype int64 = x: int | -0x8000_0000_0000_0000 <= x < 0x8000_0000_0000_0000

  function Pow2(n: nat): (r: int)
    ensures r >= 1
  {
    if n == 0 then 1 else 2 * Pow2(n - 1)
  }

  function Min(a: int, b: int): int {
    if a <= b then a else b
  }

  /** The base delay doubled once per earlier attempt, and no more than the maximum. */
  function Delay(base: int, maximum: int, attempt: int): int {
    Min(maximum, base * Pow2(if attempt <= 1 then 0 else attempt - 1))
  }

  lemma {:induction false} Pow2Monotone(a: nat, b: nat)
    requires a <= b
    ensures Pow2(a) <= Pow2(b)
  {
    if a < b { Pow2Monotone(a, b - 1); }
  }

  lemma Scaled(base: int, p: int, q: int)
    requires base >= 0 && p <= q
    ensures base * p <= base * q
  {
  }

  /** Computes the delay without any intermediate value above the maximum, so without overflow. */
  method BoundedRetryDelay(base: int64, maximum: int64, attempt: int64) returns (delay: int64)
    requires 1 <= base && 1 <= maximum
    ensures delay as int == Delay(base as int, maximum as int, attempt as int)
  {
    hide Pow2;
    delay := base;
    assert Pow2(0) == 1 by { Pow2Zero(); }
    var step: int64 := 1;
    var last: int64 := if attempt > 1 then attempt else 1;
    while step < last && delay < maximum
      invariant 1 <= step <= last && 1 <= delay
      invariant delay as int == base as int * Pow2(step as int - 1)
      invariant base <= maximum ==> delay <= maximum
      decreases last - step
    {
      Doubled(base as int, step as int - 1);
      assert delay as int * 2 == base as int * Pow2(step as int);
      Pow2Monotone(step as int, last as int - 1);
      Scaled(base as int, Pow2(step as int), Pow2(last as int - 1));
      if delay > maximum / 2 { return maximum; }
      delay := delay * 2;
      step := step + 1;
    }
    Pow2Monotone(step as int - 1, last as int - 1);
    Scaled(base as int, Pow2(step as int - 1), Pow2(last as int - 1));
    delay := if delay <= maximum then delay else maximum;
  }

  lemma Pow2Zero()
    ensures Pow2(0) == 1
  {
  }

  lemma Doubled(base: int, n: nat)
    ensures base * Pow2(n + 1) == 2 * (base * Pow2(n))
  {
  }

  /** Waiting never gets shorter, and lies between the base and the maximum. */
  lemma DelayGrows(base: int, maximum: int, attempt: int, later: int)
    requires 1 <= base <= maximum && attempt <= later
    ensures base <= Delay(base, maximum, attempt) <= Delay(base, maximum, later) <= maximum
  {
    var a: nat := if attempt <= 1 then 0 else attempt - 1;
    var b: nat := if later <= 1 then 0 else later - 1;
    Pow2Monotone(0, a);
    Pow2Monotone(a, b);
    Scaled(base, Pow2(a), Pow2(b));
    Scaled(base, 1, Pow2(a));
  }

  /** The first delay is the base and each next one twice the one before, all within the maximum. */
  lemma DelayDoubles(base: int, maximum: int, attempt: int)
    requires 1 <= base <= maximum
    ensures attempt <= 1 ==> Delay(base, maximum, attempt) == base
    ensures attempt >= 1 ==> Delay(base, maximum, attempt + 1) == Min(maximum, 2 * Delay(base, maximum, attempt))
  {
    Pow2Zero();
    if attempt >= 1 { Doubled(base, attempt - 1); }
  }

  // ----- One event -----

  datatype Status = Delivered | DeliveryFailed | ClaimLost

  /** What happens while one event is handled: whether each handler of its topic succeeds (in the
      order they finish), whether
      the claim's heartbeat is lost, and whether the closing call is confirmed. */
  datatype EventScript = EventScript(handlers: seq<bool>, heartbeatLost: bool, confirmed: bool, attempt: int64)

  datatype ClosingCall = CompleteCall | FailCall(delay: int64)

  datatype Options = Options(batchSize: int, concurrency: int, retryDelay: int64, maxRetryDelay: int64)

  /** What normalising options guarantees. */
  predicate Normalized(o: Options) {
    1 <= o.batchSize <= 1000 && 1 <= o.concurrency <= 100 && 1 <= o.retryDelay <= o.maxRetryDelay <= 86400
  }

  /** An event is delivered exactly when it has a handler, all succeed, the heartbeat holds and the
      completion is confirmed. One closing call is made unless the heartbeat was lost: completion
      after success, failure with the bounded delay otherwise. */
  method DispatchEvent(o: Options, e: EventScript) returns (status: Status, calls: seq<ClosingCall>)
    requires Normalized(o)
    ensures status == StatusOf(e)
    ensures status.Delivered? ==> calls == [CompleteCall]
    ensures e.heartbeatLost <==> calls == []
    ensures |calls| <= 1
    ensures forall delay :: FailCall(delay) in calls ==>
              (e.handlers == [] || false in e.handlers)
              && delay as int == Delay(o.retryDelay as int, o.maxRetryDelay as int, e.attempt as int)
    ensures CompleteCall in calls ==> e.handlers != [] && false !in e.handlers
  {
    hide Delay;
    var failed := |e.handlers| == 0;
    if !failed {
      for i := 0 to |e.handlers|
        invariant failed <==> false in e.handlers[..i]
      {
        if !e.handlers[i] && !failed { failed := true; }
      }
      assert e.handlers[..|e.handlers|] == e.handlers;
    }
    if e.heartbeatLost { return ClaimLost, []; }
    if failed {
      var delay := BoundedRetryDelay(o.retryDelay, o.maxRetryDelay, e.attempt);
      return if e.confirmed then DeliveryFailed else ClaimLost, [FailCall(delay)];
    }
    return if e.confirmed then Delivered else ClaimLost, [CompleteCall];
  }

  function StatusOf(e: EventScript): (status: Status)
    ensures status.Delivered? <==> !e.heartbeatLost && e.handlers != [] && false !in e.handlers && e.confirmed
  {
    if e.heartbeatLost || !e.confirmed then ClaimLost
    else if e.handlers == [] || false in e.handlers then DeliveryFailed
    else Delivered
  }

  // ----- One pass -----

  datatype RunResult = RunResult(claimed: int, delivered: int, failed: int, claimLost: int)

  /** What the store answers a claim: an error, or events, listed as their outcomes come in. */
  datatype ClaimReply = ClaimError | Events(events: seq<EventScript>)

  datatype PassError = StoreError | TooMany

  /** How a pass went: its counts, its error if any, and how many events each claim asked for. */
  datatype Pass = Pass(result: RunResult, error: Option<PassError>, asked: seq<int>)

  function CountOne(r: RunResult, status: Status): RunResult {
    match status
    case Delivered => r.(delivered := r.delivered + 1)
    case DeliveryFailed => r.(failed := r.failed + 1)
    case ClaimLost => r.(failed := r.failed + 1, claimLost := r.claimLost + 1)
  }

  function Counted(r: RunResult, events: seq<EventScript>): RunResult
    decreases |events|
  {
    if events == [] then r else Counted(CountOne(r, StatusOf(events[0])), events[1..])
  }

  /** A pass from its n-th claim on. */
  function PassFrom(o: Options, replies: nat -> ClaimReply, n: nat, remaining: int, so: RunResult): Pass
    decreases remaining
  {
    if remaining <= 0 || o.concurrency <= 0 then Pass(so, None, [])
    else
      var available := Min(o.concurrency, remaining);
      match replies(n)
      case ClaimError => Pass(so, Some(StoreError), [available])
      case Events(events) =>
        if events == [] then Pass(so, None, [available])
        else if |events| > available then Pass(so, Some(TooMany), [available])
        else
          var counted := Counted(so.(claimed := so.claimed + |events|), events);
          if |events| < available then Pass(counted, None, [available])
          else
            Onto([available], PassFrom(o, replies, n + 1, remaining - |events|, counted))
  }

  function Onto(asked: seq<int>, pass: Pass): Pass {
    pass.(asked := asked + pass.asked)
  }

  lemma OntoMoves(asked: seq<int>, available: int, pass: Pass)
    ensures Onto(asked, Onto([available], pass)) == Onto(asked + [available], pass)
  {
    assert asked + ([available] + pass.asked) == asked + [available] + pass.asked;
  }

  lemma OntoNothing(asked: seq<int>, pass: Pass)
    ensures Onto([], pass) == pass
    ensures pass.asked == [] ==> Onto(asked, pass) == pass.(asked := asked)
  {
    assert [] + pass.asked == pass.asked && (pass.asked == [] ==> asked + pass.asked == asked);
  }

  method DispatchOnce(o: Options, replies: nat -> ClaimReply) returns (result: RunResult, error: Option<PassError>, ghost asked: seq<int>)
    requires Normalized(o)
    ensures var pass := PassFrom(o, replies, 0, o.batchSize, RunResult(0, 0, 0, 0));
            result == pass.result && error == pass.error
    ensures asked == PassFrom(o, replies, 0, o.batchSize, RunResult(0, 0, 0, 0)).asked
  {
    hide Counted, Min;
    result, error, asked := RunResult(0, 0, 0, 0), None, [];
    var remaining, n := o.batchSize, 0;
    ghost var whole := PassFrom(o, replies, 0, o.batchSize, result);
    OntoNothing([], whole);
    while remaining > 0
      invariant error == None && n >= 0
      invariant whole == Onto(asked, PassFrom(o, replies, n, remaining, result))
      decreases remaining
    {
      ghost var before := asked;
      var available := Min(o.concurrency, remaining);
      var reply := replies(n);
      asked, n := asked + [available], n + 1;
      if reply.ClaimError? { return result, Some(StoreError), asked; }
      var events := reply.events;
      if |events| == 0 { break; }
      if |events| > available { return result, Some(TooMany), asked; }
      result := result.(claimed := result.claimed + |events|);
      remaining := remaining - |events|;
      result := CountOutcomes(o, events, result);
      if |events| < available { break; }
      OntoMoves(before, available, PassFrom(o, replies, n, remaining, result));
    }
    OntoNothing(asked, Pass(result, None, []));
  }

  /** Dispatches the claimed events and counts their outcomes as they come in. */
  method CountOutcomes(o: Options, events: seq<EventScript>, so: RunResult) returns (result: RunResult)
    requires Normalized(o)
    ensures result == Counted(so, events)
  {
    hide StatusOf, Normalized;
    result := so;
    for i := 0 to |events|
      invariant Counted(so, events) == Counted(result, events[i..])
    {
      var outcome, calls := DispatchEvent(o, events[i]);
      assert events[i..][1..] == events[i + 1..];
      if outcome == Delivered {
        result := result.(delivered := result.delivered + 1);
      } else {
        result := result.(failed := result.failed + 1);
        if outcome == ClaimLost { result := result.(claimLost := result.claimLost + 1); }
      }
    }
  }

  /** Every event is counted once, and every lost claim among the failures. */
  lemma {:induction false} CountedSums(r: RunResult, events: seq<EventScript>)
    ensures var c := Counted(r, events);
            && c.claimed == r.claimed
            && c.delivered + c.failed == r.delivered + r.failed + |events|
            && c.delivered >= r.delivered
            && 0 <= c.claimLost - r.claimLost <= c.failed - r.failed
    decreases |events|
  {
    hide StatusOf;
    if events != [] { CountedSums(CountOne(r, StatusOf(events[0])), events[1..]); }
  }

  /** How many of the events end this way. */
  function Ending(events: seq<EventScript>, status: Status): nat
    decreases |events|
  {
    if events == [] then 0 else (if StatusOf(events[0]) == status then 1 else 0) + Ending(events[1..], status)
  }

  /** Each count is the number of events that end so; a lost claim also counts as a failure. */
  lemma {:induction false} CountsAre(r: RunResult, events: seq<EventScript>)
    ensures var c := Counted(r, events);
            && c.claimed == r.claimed
            && c.delivered == r.delivered + Ending(events, Delivered)
            && c.claimLost == r.claimLost + Ending(events, ClaimLost)
            && c.failed == r.failed + Ending(events, DeliveryFailed) + Ending(events, ClaimLost)
    decreases |events|
  {
    hide StatusOf;
    if events != [] { CountsAre(CountOne(r, StatusOf(events[0])), events[1..]); }
  }

  /** How one event ends: lost if its heartbeat is lost or its closing call is not confirmed; otherwise
      failed if it has no handler or one fails, and else delivered. */
  lemma StatusIs(e: EventScript)
    ensures StatusOf(e) == ClaimLost <==> e.heartbeatLost || !e.confirmed
    ensures StatusOf(e) == DeliveryFailed <==>
              !e.heartbeatLost && e.confirmed && (e.handlers == [] || exists i :: 0 <= i < |e.handlers| && !e.handlers[i])
  {
  }

  lemma {:induction false} PassSums(o: Options, replies: nat -> ClaimReply, n: nat, remaining: int, so: RunResult)
    requires Normalized(o) && 0 <= remaining && so.claimed == so.delivered + so.failed
    requires 0 <= so.delivered && 0 <= so.claimLost <= so.failed
    ensures var r := PassFrom(o, replies, n, remaining, so).result;
            && r.claimed == r.delivered + r.failed
            && so.claimed <= r.claimed <= so.claimed + remaining
            && so.delivered <= r.delivered && 0 <= r.claimLost <= r.failed
    decreases remaining
  {
    if remaining > 0 {
      var available := Min(o.concurrency, remaining);
      var reply := replies(n);
      if reply.Events? && 0 < |reply.events| <= available {
        hide Counted;
        var claimed := so.(claimed := so.claimed + |reply.events|);
        CountedSums(claimed, reply.events);
        if |reply.events| == available {
          PassSums(o, replies, n + 1, remaining - |reply.events|, Counted(claimed, reply.events));
        }
      }
    }
  }

  predicate AsksFit(o: Options, asked: seq<int>, remaining: int) {
    forall k | 0 <= k < |asked| :: 1 <= asked[k] <= o.concurrency && asked[k] <= remaining
  }

  /** The last claim of a pass, its n-th and on, came back with fewer events than it asked for. */
  predicate LastIsShort(replies: nat -> ClaimReply, n: nat, asked: seq<int>) {
    && asked != [] && replies(n + |asked| - 1).Events?
    && |replies(n + |asked| - 1).events| < asked[|asked| - 1]
  }

  /** The claims of a pass from its n-th on fit, and it ends short only with a short claim. */
  predicate PassFits(o: Options, replies: nat -> ClaimReply, n: nat, remaining: int, so: RunResult, pass: Pass) {
    && AsksFit(o, pass.asked, remaining)
    && (pass.error.None? && pass.result.claimed < so.claimed + remaining ==> LastIsShort(replies, n, pass.asked))
  }

  predicate FullClaim(o: Options, reply: ClaimReply, remaining: int) {
    remaining > 0 && reply.Events? && |reply.events| == Min(o.concurrency, remaining)
  }

  /** A pass whose next claim does not come back full ends there. */
  lemma PassEnds(o: Options, replies: nat -> ClaimReply, n: nat, remaining: int, so: RunResult)
    requires Normalized(o) && 0 <= remaining && !FullClaim(o, replies(n), remaining)
    ensures PassFits(o, replies, n, remaining, so, PassFrom(o, replies, n, remaining, so))
  {
    hide Counted;
    var reply := replies(n);
    if remaining > 0 && reply.Events? && reply.events != [] {
      CountedSums(so.(claimed := so.claimed + |reply.events|), reply.events);
    }
  }

  lemma FullPassGoesOn(o: Options, replies: nat -> ClaimReply, n: nat, remaining: int, so: RunResult) returns (counted: RunResult)
    requires Normalized(o) && FullClaim(o, replies(n), remaining)
    ensures var available := Min(o.concurrency, remaining);
            && counted.claimed == so.claimed + available
            && PassFrom(o, replies, n, remaining, so) == Onto([available], PassFrom(o, replies, n + 1, remaining - available, counted))
  {
    hide Counted;
    var reply := replies(n);
    var claimed := so.(claimed := so.claimed + |reply.events|);
    CountedSums(claimed, reply.events);
    counted := Counted(claimed, reply.events);
  }

  lemma FitsOnto(o: Options, replies: nat -> ClaimReply, n: nat, remaining: int, available: int, so: RunResult, counted: RunResult, rest: Pass)
    requires 1 <= available <= o.concurrency && available <= remaining && counted.claimed == so.claimed + available
    requires PassFits(o, replies, n + 1, remaining - available, counted, rest)
    ensures PassFits(o, replies, n, remaining, so, Onto([available], rest))
  {
    var asked := [available] + rest.asked;
    if rest.asked != [] { assert n + |asked| - 1 == n + 1 + |rest.asked| - 1 && asked[|asked| - 1] == rest.asked[|rest.asked| - 1]; }
  }

  lemma {:induction false} PassAsks(o: Options, replies: nat -> ClaimReply, n: nat, remaining: int, so: RunResult)
    requires Normalized(o) && 0 <= remaining
    ensures PassFits(o, replies, n, remaining, so, PassFrom(o, replies, n, remaining, so))
    decreases remaining
  {
    hide PassFrom, PassFits, Onto;
    if FullClaim(o, replies(n), remaining) {
      var available := Min(o.concurrency, remaining);
      var counted := FullPassGoesOn(o, replies, n, remaining, so);
      PassAsks(o, replies, n + 1, remaining - available, counted);
      FitsOnto(o, replies, n, remaining, available, so, counted, PassFrom(o, replies, n + 1, remaining - available, counted));
    } else {
      PassEnds(o, replies, n, remaining, so);
    }
  }

  /** On every exit of a pass, error or not: what was claimed is what was delivered and what failed,
      it fits the batch, and lost claims are among the failures. No claim asks for more than the
      concurrency or than the batch has left, and a pass that ends well either filled its batch or
      saw its last claim come back short. */
  lemma PassCounts(o: Options, replies: nat -> ClaimReply)
    requires Normalized(o)
    ensures var pass := PassFrom(o, replies, 0, o.batchSize, RunResult(0, 0, 0, 0));
            var r := pass.result;
            && r.claimed == r.delivered + r.failed
            && 0 <= r.claimed <= o.batchSize && 0 <= r.delivered && 0 <= r.claimLost <= r.failed
            && AsksFit(o, pass.asked, o.batchSize)
            && (pass.error.None? && r.claimed < o.batchSize ==> LastIsShort(replies, 0, pass.asked))
  {
    PassSums(o, replies, 0, o.batchSize, RunResult(0, 0, 0, 0));
    PassAsks(o, replies, 0, o.batchSize, RunResult(0, 0, 0, 0));
    hide PassFrom, AsksFit, LastIsShort;
  }

  // ----- Passes, callers and Stop -----

  datatype PassResult = PassResult(result: RunResult, failed: bool)

  /** The worker's lifecycle fields. A pass is known by its place in `runs`; its result is set when
      it is published. */
  datatype Worker = Worker(started: bool, stopped: bool, active: Option<nat>, runs: seq<Option<PassResult>>)

  datatype Entered = Refused | Join(run: nat) | Own(run: nat)

  function Enter(w: Worker): (Worker, Entered) {
    if w.stopped then (w, Refused)
    else if w.active.Some? then (w, Join(w.active.value))
    else (w.(active := Some(|w.runs|), runs := w.runs + [None]), Own(|w.runs|))
  }

  function Publish(w: Worker, run: nat, result: PassResult): Worker
    requires run < |w.runs|
  {
    w.(runs := w.runs[run := Some(result)], active := if w.active == Some(run) then None else w.active)
  }

  class OutboxWorker {
    var started: bool
    var stopped: bool
    var active: Option<nat>
    var runs: seq<Option<PassResult>>

    constructor ()
      ensures Model() == Worker(false, false, None, [])
    {
      started, stopped, active, runs := false, false, None, [];
    }

    ghost function Model(): Worker
      reads this
    {
      Worker(started, stopped, active, runs)
    }

    method Start() returns (ok: bool)
      modifies `started
      ensures ok <==> !stopped
      ensures started == (old(started) || !stopped)
    {
      if stopped { return false; }
      started := true;
      return true;
    }

    method EnterRun() returns (entered: Entered)
      modifies `active, `runs
      ensures (Model(), entered) == Enter(old(Model()))
    {
      if stopped { return Refused; }
      if active.Some? { return Join(active.value); }
      var run := |runs|;
      runs := runs + [None];
      active := Some(run);
      return Own(run);
    }

    method EndRun(run: nat, result: PassResult)
      requires run < |runs|
      modifies `active, `runs
      ensures Model() == Publish(old(Model()), run, result)
      ensures runs == old(runs)[run := Some(result)] && active == if old(active) == Some(run) then None else old(active)
    {
      runs := runs[run := Some(result)];
      if active == Some(run) { active := None; }
    }

    /** Records the stop and says which pass, if any, to wait for. */
    method BeginStop() returns (waitFor: Option<nat>)
      modifies `stopped
      ensures Model() == old(Model()).(stopped := true) && waitFor == old(active)
    {
      stopped := true;
      waitFor := active;
    }
  }

  /** Where a caller of RunOnce or Stop stands. A pass is abandoned when the store's claim call
      panics under a caller that recovers: its result is never published. */
  datatype Caller =
    | Running(run: nat) | Abandoned(run: nat) | Joining(run: nat) | Got(run: nat, result: PassResult) | RunRefused | RunCancelled
    | StopWaiting(waitFor: Option<nat>) | StopDone | StopCancelled

  /** All callers, and how many passes had begun when Stop was first recorded. */
  datatype World = World(worker: Worker, callers: seq<Caller>, begunAtStop: Option<nat>)

  datatype Action =
    | CallRun | Finish(caller: nat, result: PassResult) | Abandon(caller: nat) | Receive(caller: nat) | CancelRun(caller: nat)
    | CallStop | StopReturns(caller: nat) | CancelStop(caller: nat)

  const START := World(Worker(false, false, None, []), [], None)

  function Step(w: World, a: Action): World {
    match a
    case CallRun =>
      var (worker, entered) := Enter(w.worker);
      var caller := match entered case Refused => RunRefused case Join(run) => Joining(run) case Own(run) => Running(run);
      World(worker, w.callers + [caller], w.begunAtStop)
    case Finish(i, result) =>
      if i < |w.callers| && w.callers[i].Running? && w.callers[i].run < |w.worker.runs| then
        World(Publish(w.worker, w.callers[i].run, result), w.callers[i := Got(w.callers[i].run, result)], w.begunAtStop)
      else w
    case Abandon(i) =>
      if i < |w.callers| && w.callers[i].Running? then w.(callers := w.callers[i := Abandoned(w.callers[i].run)]) else w
    case Receive(i) =>
      if i < |w.callers| && w.callers[i].Joining? && w.callers[i].run < |w.worker.runs| && w.worker.runs[w.callers[i].run].Some?
      then w.(callers := w.callers[i := Got(w.callers[i].run, w.worker.runs[w.callers[i].run].value)])
      else w
    case CancelRun(i) =>
      if i < |w.callers| && w.callers[i].Joining? then w.(callers := w.callers[i := RunCancelled]) else w
    case CallStop =>
      World(w.worker.(stopped := true), w.callers + [StopWaiting(w.worker.active)],
            if w.begunAtStop.Some? then w.begunAtStop else Some(|w.worker.runs|))
    case StopReturns(i) =>
      if i < |w.callers| && w.callers[i].StopWaiting? && RunOver(w.worker, w.callers[i].waitFor)
      then w.(callers := w.callers[i := StopDone])
      else w
    case CancelStop(i) =>
      if i < |w.callers| && w.callers[i].StopWaiting? then w.(callers := w.callers[i := StopCancelled]) else w
  }

  predicate RunOver(w: Worker, run: Option<nat>) {
    run.Some? ==> run.value < |w.runs| && w.runs[run.value].Some?
  }

  function Run(actions: seq<Action>): World {
    if actions == [] then START else Step(Run(actions[..|actions| - 1]), actions[|actions| - 1])
  }

  /** The active pass is the one unpublished pass. */
  ghost predicate ActiveFits(w: Worker) {
    && (w.active.Some? ==> w.active.value < |w.runs| && w.runs[w.active.value].None?)
    && forall i | 0 <= i < |w.runs| && w.runs[i].None? :: w.active == Some(i)
  }

  ghost predicate CallerFits(w: Worker, c: Caller) {
    match c
    case Running(run) => run < |w.runs| && w.runs[run].None?
    case Abandoned(run) => run < |w.runs| && w.runs[run].None?
    case Joining(run) => run < |w.runs|
    case Got(run, result) => run < |w.runs| && w.runs[run] == Some(result)
    case StopWaiting(run) => w.stopped && (w.active.Some? ==> w.active == run)
    case StopDone => w.stopped && w.active.None?
    case _ => true
  }

  ghost predicate HasRunner(callers: seq<Caller>, run: nat) {
    exists i :: 0 <= i < |callers| && callers[i] == Running(run)
  }

  ghost predicate WasAbandoned(callers: seq<Caller>, run: nat) {
    exists i :: 0 <= i < |callers| && callers[i] == Abandoned(run)
  }

  /** A caller a pass belongs to. */
  predicate Owns(c: Caller) {
    c.Running? || c.Abandoned?
  }

  ghost predicate HasOwner(callers: seq<Caller>, run: nat) {
    exists i :: 0 <= i < |callers| && Owns(callers[i]) && callers[i].run == run
  }

  ghost predicate Orderly(w: World) {
    && ActiveFits(w.worker)
    && (forall i | 0 <= i < |w.callers| :: CallerFits(w.worker, w.callers[i]))
    && (forall i, j | 0 <= i < j < |w.callers| :: !(Owns(w.callers[i]) && Owns(w.callers[j])))
    && (w.worker.active.Some? ==> HasOwner(w.callers, w.worker.active.value))
    && (w.worker.stopped <==> w.begunAtStop.Some?)
    && (w.begunAtStop.Some? ==> w.begunAtStop.value == |w.worker.runs|)
  }

  lemma CallRunOrderly(w: World)
    requires Orderly(w)
    ensures Orderly(Step(w, CallRun))
  {
    var next := Step(w, CallRun);
    var n := |w.callers|;
    forall i | 0 <= i < |next.callers| ensures CallerFits(next.worker, next.callers[i]) {
      if i < n { assert CallerFits(w.worker, w.callers[i]); }
    }
    forall i, j | 0 <= i < j < |next.callers| ensures !(Owns(next.callers[i]) && Owns(next.callers[j])) {
      assert CallerFits(w.worker, w.callers[i]);
    }
    if next.worker.active.Some? {
      if w.worker.active.Some? {
        var i :| 0 <= i < n && Owns(w.callers[i]) && w.callers[i].run == w.worker.active.value;
        assert next.callers[i] == w.callers[i];
      } else {
        assert next.callers[n] == Running(next.worker.active.value);
      }
    }
  }

  lemma FinishOrderly(w: World, i: nat, result: PassResult)
    requires Orderly(w) && i < |w.callers| && w.callers[i].Running? && w.callers[i].run < |w.worker.runs|
    ensures Orderly(Step(w, Finish(i, result)))
  {
    var next := Step(w, Finish(i, result));
    assert CallerFits(w.worker, w.callers[i]);
    forall j | 0 <= j < |next.callers| ensures CallerFits(next.worker, next.callers[j]) {
      if j != i {
        assert CallerFits(w.worker, w.callers[j]);
        assert !Owns(w.callers[j]);
      }
    }
  }

  /** A caller that is not running a pass leaves, with whatever it is entitled to. */
  lemma LeaveOrderly(w: World, i: nat, left: Caller)
    requires Orderly(w) && i < |w.callers| && !Owns(w.callers[i]) && !Owns(left) && CallerFits(w.worker, left)
    ensures Orderly(w.(callers := w.callers[i := left]))
  {
    var next := w.(callers := w.callers[i := left]);
    if w.worker.active.Some? {
      var j :| 0 <= j < |w.callers| && Owns(w.callers[j]) && w.callers[j].run == w.worker.active.value;
      assert next.callers[j] == w.callers[j];
    }
  }

  lemma AbandonOrderly(w: World, i: nat)
    requires Orderly(w) && i < |w.callers| && w.callers[i].Running?
    ensures Orderly(Step(w, Abandon(i)))
  {
    var next := Step(w, Abandon(i));
    assert CallerFits(w.worker, w.callers[i]);
    assert w.worker.active == Some(w.callers[i].run);
    assert Owns(next.callers[i]) && next.callers[i].run == w.callers[i].run;
    forall j | 0 <= j < |next.callers| ensures CallerFits(next.worker, next.callers[j]) {
      if j != i { assert CallerFits(w.worker, w.callers[j]); }
    }
  }

  lemma CallStopOrderly(w: World)
    requires Orderly(w)
    ensures Orderly(Step(w, CallStop))
  {
    var next := Step(w, CallStop);
    forall i | 0 <= i < |next.callers| ensures CallerFits(next.worker, next.callers[i]) {
      if i < |w.callers| { assert CallerFits(w.worker, w.callers[i]); }
    }
    if w.worker.active.Some? {
      var j :| 0 <= j < |w.callers| && Owns(w.callers[j]) && w.callers[j].run == w.worker.active.value;
      assert next.callers[j] == w.callers[j];
    }
  }

  /** Every step keeps the worker orderly. */
  lemma StepOrderly(w: World, a: Action)
    requires Orderly(w)
    ensures Orderly(Step(w, a))
  {
    match a {
      case CallRun => CallRunOrderly(w);
      case CallStop => CallStopOrderly(w);
      case Finish(i, result) =>
        if i < |w.callers| && w.callers[i].Running? && w.callers[i].run < |w.worker.runs| { FinishOrderly(w, i, result); }
      case Abandon(i) => if i < |w.callers| && w.callers[i].Running? { AbandonOrderly(w, i); }
      case Receive(i) =>
        if i < |w.callers| && w.callers[i].Joining? && w.callers[i].run < |w.worker.runs| && w.worker.runs[w.callers[i].run].Some? {
          LeaveOrderly(w, i, Got(w.callers[i].run, w.worker.runs[w.callers[i].run].value));
        }
      case CancelRun(i) => if i < |w.callers| && w.callers[i].Joining? { LeaveOrderly(w, i, RunCancelled); }
      case StopReturns(i) =>
        if i < |w.callers| && w.callers[i].StopWaiting? && RunOver(w.worker, w.callers[i].waitFor) {
          assert CallerFits(w.worker, w.callers[i]);
          LeaveOrderly(w, i, StopDone);
        }
      case CancelStop(i) => if i < |w.callers| && w.callers[i].StopWaiting? { LeaveOrderly(w, i, StopCancelled); }
    }
  }

  lemma {:induction false} RunOrderly(actions: seq<Action>)
    ensures Orderly(Run(actions))
  {
    if actions != [] {
      RunOrderly(actions[..|actions| - 1]);
      StepOrderly(Run(actions[..|actions| - 1]), actions[|actions| - 1]);
    }
  }

  /** In every interleaving at most one pass is unpublished and at most one caller is running one, and
      an unpublished pass has somebody running it exactly if nobody abandoned it. */
  lemma OnePassAtATime(actions: seq<Action>, a: nat, b: nat, i: nat, j: nat)
    ensures var w := Run(actions);
            && (a < |w.worker.runs| && b < |w.worker.runs| && w.worker.runs[a].None? && w.worker.runs[b].None? ==> a == b)
            && (i < |w.callers| && j < |w.callers| && w.callers[i].Running? && w.callers[j].Running? ==> i == j)
            && (a < |w.worker.runs| && w.worker.runs[a].None? ==> (HasRunner(w.callers, a) <==> !WasAbandoned(w.callers, a)))
            && (a < |w.worker.runs| && WasAbandoned(w.callers, a) ==> w.worker.runs[a].None?)
  {
    RunOrderly(actions);
    var w := Run(actions);
    hide Run;
    if a < |w.worker.runs| && w.worker.runs[a].None? {
      assert w.worker.active == Some(a);
      var o :| 0 <= o < |w.callers| && Owns(w.callers[o]) && w.callers[o].run == a;
      assert w.callers[o] == Running(a) || w.callers[o] == Abandoned(a);
    }
    if a < |w.worker.runs| && WasAbandoned(w.callers, a) {
      var o :| 0 <= o < |w.callers| && w.callers[o] == Abandoned(a);
      assert CallerFits(w.worker, w.callers[o]);
    }
  }

  /** What an abandoned pass leaves behind: it stays the worker's active pass, so nobody gets past it. */
  ghost predicate Blocked(w: World, i: nat, run: nat) {
    && i < |w.callers| && w.callers[i] == Abandoned(run)
    && w.worker.active == Some(run) && |w.worker.runs| == run + 1
  }

  lemma BlockedStep(w: World, a: Action, i: nat, run: nat)
    requires Orderly(w) && Blocked(w, i, run)
    ensures Blocked(Step(w, a), i, run)
  {
    forall j | 0 <= j < |w.callers| ensures !w.callers[j].Running? {
      assert Owns(w.callers[i]);
      if j < i { assert !Owns(w.callers[j]); } else if i < j { assert !Owns(w.callers[j]); }
    }
  }

  /** What a blocked worker has to offer. */
  ghost predicate Stuck(w: World, run: nat) {
    && run < |w.worker.runs| && w.worker.runs[run].None?
    && Enter(w.worker).1 == (if w.worker.stopped then Refused else Join(run))
    && forall j | 0 <= j < |w.callers| :: !w.callers[j].StopDone?
  }

  lemma BlockedIsStuck(w: World, i: nat, run: nat)
    requires Orderly(w) && Blocked(w, i, run)
    ensures Stuck(w, run)
  {
    assert CallerFits(w.worker, w.callers[i]);
    forall j | 0 <= j < |w.callers| ensures !w.callers[j].StopDone? {
      assert CallerFits(w.worker, w.callers[j]);
    }
  }

  lemma AbandonedIsBlocked(actions: seq<Action>, i: nat)
    requires i < |Run(actions).callers| && Run(actions).callers[i].Abandoned?
    ensures Blocked(Run(actions), i, Run(actions).callers[i].run)
  {
    RunOrderly(actions);
    ActiveIsLatest(actions);
    var w := Run(actions);
    hide Run;
    assert CallerFits(w.worker, w.callers[i]);
  }

  /** The active pass is the latest one. */
  lemma {:induction false} ActiveIsLatest(actions: seq<Action>)
    ensures var w := Run(actions).worker; w.active.Some? ==> |w.runs| == w.active.value + 1
  {
    if actions != [] {
      ActiveIsLatest(actions[..|actions| - 1]);
    }
  }

  lemma {:induction false} StaysBlocked(actions: seq<Action>, more: seq<Action>, i: nat, run: nat)
    requires Blocked(Run(actions), i, run)
    ensures Blocked(Run(actions + more), i, run)
    decreases |more|
  {
    hide Step, Blocked, Orderly;
    if more == [] {
      assert actions + more == actions;
    } else {
      var all := actions + more;
      assert all[..|all| - 1] == actions + more[..|more| - 1];
      StaysBlocked(actions, more[..|more| - 1], i, run);
      RunOrderly(all[..|all| - 1]);
      BlockedStep(Run(all[..|all| - 1]), all[|all| - 1], i, run);
    }
  }

  /** After a pass is abandoned, through any further run: no pass begins, its result is never published,
      whoever asks for a pass joins it or is refused, and no Stop returns in order. */
  lemma AbandonedBlocksForGood(actions: seq<Action>, more: seq<Action>, i: nat)
    requires i < |Run(actions).callers| && Run(actions).callers[i].Abandoned?
    ensures Stuck(Run(actions + more), Run(actions).callers[i].run)
    ensures |Run(actions + more).worker.runs| == |Run(actions).worker.runs|
  {
    hide Run, Orderly, Stuck;
    AbandonedIsBlocked(actions, i);
    StaysBlocked(actions, more, i, Run(actions).callers[i].run);
    RunOrderly(actions + more);
    BlockedIsStuck(Run(actions + more), i, Run(actions).callers[i].run);
  }

  /** Everybody who ran or joined a pass got that pass's published result. */
  lemma JoinersGetThePass(actions: seq<Action>, i: nat)
    ensures var w := Run(actions);
            i < |w.callers| && w.callers[i].Got? ==>
              w.callers[i].run < |w.worker.runs| && w.worker.runs[w.callers[i].run] == Some(w.callers[i].result)
  {
    RunOrderly(actions);
    hide Run;
    if i < |Run(actions).callers| { assert CallerFits(Run(actions).worker, Run(actions).callers[i]); }
  }

  /** No pass begins once Stop is recorded, and once a Stop has returned in order none is under way. */
  lemma NothingAfterStop(actions: seq<Action>, i: nat)
    ensures var w := Run(actions);
            && (w.begunAtStop.Some? ==> |w.worker.runs| == w.begunAtStop.value)
            && (i < |w.callers| && w.callers[i].StopDone? ==>
                  w.worker.stopped && forall run | 0 <= run < |w.worker.runs| :: w.worker.runs[run].Some?)
  {
    RunOrderly(actions);
    hide Run;
    if i < |Run(actions).callers| { assert CallerFits(Run(actions).worker, Run(actions).callers[i]); }
  }
}
