/** The usage write batcher: concurrent submissions gathered for a short window into one write. */
module UsageBatcher {
  import opened Decimals

  // ----- The batcher itself -----

  class UsageWriteBatcher {
    var pending: seq<nat>
    var timer: bool

    constructor ()
      ensures pending == [] && !timer
    {
      pending, timer := [], false;
    }

    /** Queues a request and arms the flush if none is armed; says whether it did. */
    method Enqueue(request: nat) returns (armed: bool)
      modifies this
      ensures pending == old(pending) + [request] && timer && armed == !old(timer)
    {
      pending := pending + [request];
      armed := !timer;
      timer := true;
    }

    /** Takes everything queued and disarms. */
    method TakePending() returns (taken: seq<nat>)
      modifies this
      ensures taken == old(pending) && pending == [] && !timer
    {
      taken := pending;
      pending := [];
      timer := false;
    }

    /** One flush: the entries go to the sink in queue order, in one write, and every request of
        the batch is sent what the write came to; with nothing queued there is no write. */
    method Flush<E>(entryOf: nat -> E, write: seq<E> -> int) returns (written: Option<seq<E>>, sent: seq<(nat, int)>)
      modifies this
      ensures pending == [] && !timer
      ensures written == if old(pending) == [] then None else Some(Entries(entryOf, old(pending)))
      ensures |sent| == |old(pending)|
      ensures forall i | 0 <= i < |sent| :: sent[i] == (old(pending)[i], write(Entries(entryOf, old(pending))))
    {
      var taken := TakePending();
      sent := [];
      if |taken| == 0 { return None, []; }
      var entries := [];
      for i := 0 to |taken|
        invariant entries == Entries(entryOf, taken[..i]) && pending == [] && !timer
      {
        assert taken[..i + 1] == taken[..i] + [taken[i]];
        EntriesAppend(entryOf, taken[..i], taken[i]);
        entries := entries + [entryOf(taken[i])];
      }
      assert taken[..|taken|] == taken;
      var result := write(entries);
      for i := 0 to |taken|
        invariant |sent| == i && forall k | 0 <= k < i :: sent[k] == (taken[k], result)
      {
        sent := sent + [(taken[i], result)];
      }
      written := Some(entries);
    }
  }

  function Entries<E>(entryOf: nat -> E, requests: seq<nat>): (r: seq<E>)
    ensures |r| == |requests| && forall i | 0 <= i < |r| :: r[i] == entryOf(requests[i])
  {
    if requests == [] then [] else [entryOf(requests[0])] + Entries(entryOf, requests[1..])
  }

  lemma EntriesAppend<E>(entryOf: nat -> E, requests: seq<nat>, last: nat)
    ensures Entries(entryOf, requests + [last]) == Entries(entryOf, requests) + [entryOf(last)]
  {
  }

  // ----- Every interleaving -----

  /** How a submission ended: with what the write came to, or with its own cancellation. */
  datatype Ending = Wrote(result: int) | GaveUp

  /** A submission: whether its caller is cancelled, what has been sent to it, how it ended. */
  datatype Request = Request(cancelled: bool, results: seq<int>, ending: Option<Ending>)

  /** Where the write of a batch stands: under way, or over with its result sent to so many. */
  datatype Writing = UnderWay | Sending(result: int, sent: nat)

  /** The write of one batch; its watcher has seen the first `watched` requests cancelled, and
      `cancelled` says the write's own context is. */
  datatype Flight = Flight(writing: Writing, watched: nat, cancelled: bool)

  /** `scheduled` counts flushes the timer has promised and that have not begun. */
  datatype World = World(
    pending: seq<nat>,
    timer: bool,
    scheduled: nat,
    requests: seq<Request>,
    batches: seq<seq<nat>>,
    flights: seq<Flight>)

  const START := World([], false, 0, [], [], [])

  datatype Action =
    | Submit | Fire | CancelCaller(request: nat)
    | Watch(batch: nat) | Write(batch: nat, result: int) | Send(batch: nat)
    | Receive(request: nat) | GiveUp(request: nat)

  function Sent(f: Flight): nat {
    if f.writing.Sending? then f.writing.sent else 0
  }

  /** One step; an action that is not enabled changes nothing. */
  function Step(w: World, a: Action): World {
    match a
    case Submit =>
      w.(pending := w.pending + [|w.requests|], timer := true,
         scheduled := if w.timer then w.scheduled else w.scheduled + 1,
         requests := w.requests + [Request(false, [], None)])
    case Fire =>
      if w.scheduled == 0 then w
      else
        var idle := w.(pending := [], timer := false, scheduled := w.scheduled - 1);
        if w.pending == [] then idle
        else idle.(batches := w.batches + [w.pending], flights := w.flights + [Flight(UnderWay, 0, false)])
    case CancelCaller(r) =>
      if r < |w.requests| then w.(requests := w.requests[r := w.requests[r].(cancelled := true)]) else w
    case Watch(b) =>
      if b < |w.batches| && b < |w.flights| && w.flights[b].writing.UnderWay? then
        var f := w.flights[b];
        if f.watched >= |w.batches[b]| then w.(flights := w.flights[b := f.(cancelled := true)])
        else
          var r := w.batches[b][f.watched];
          if r < |w.requests| && w.requests[r].cancelled then w.(flights := w.flights[b := f.(watched := f.watched + 1)])
          else w
      else w
    case Write(b, result) =>
      if b < |w.flights| && w.flights[b].writing.UnderWay? then
        w.(flights := w.flights[b := w.flights[b].(writing := Sending(result, 0), cancelled := true)])
      else w
    case Send(b) =>
      if b < |w.batches| && b < |w.flights| && w.flights[b].writing.Sending? && w.flights[b].writing.sent < |w.batches[b]|
         && w.batches[b][w.flights[b].writing.sent] < |w.requests|
      then
        var f := w.flights[b];
        var r := w.batches[b][f.writing.sent];
        w.(flights := w.flights[b := f.(writing := Sending(f.writing.result, f.writing.sent + 1))],
           requests := w.requests[r := w.requests[r].(results := w.requests[r].results + [f.writing.result])])
      else w
    case Receive(r) =>
      if r < |w.requests| && w.requests[r].ending.None? && w.requests[r].results != [] then
        w.(requests := w.requests[r := w.requests[r].(ending := Some(Wrote(w.requests[r].results[0])))])
      else w
    case GiveUp(r) =>
      if r < |w.requests| && w.requests[r].ending.None? && w.requests[r].cancelled then
        w.(requests := w.requests[r := w.requests[r].(ending := Some(GaveUp))])
      else w
  }

  function Run(actions: seq<Action>): World {
    if actions == [] then START else Step(Run(actions[..|actions| - 1]), actions[|actions| - 1])
  }

  // ----- Invariants -----

  /** How many requests the first n batches hold. */
  function Offset(batches: seq<seq<nat>>, n: nat): nat
    requires n <= |batches|
  {
    if n == 0 then 0 else Offset(batches, n - 1) + |batches[n - 1]|
  }

  /** The numbers from `first` on, in order. */
  ghost predicate Consecutive(s: seq<nat>, first: nat) {
    forall i | 0 <= i < |s| :: s[i] == first + i
  }

  /** A batch holds the next requests after the batches before it, and at least one. */
  ghost predicate BatchFits(batches: seq<seq<nat>>, b: nat)
    requires b < |batches|
  {
    batches[b] != [] && Consecutive(batches[b], Offset(batches, b))
  }

  /** Requests are numbered by arrival; the batches and then the queue hold them in that order. */
  ghost predicate InOrder(w: World) {
    && (forall b | 0 <= b < |w.batches| :: BatchFits(w.batches, b))
    && Consecutive(w.pending, Offset(w.batches, |w.batches|))
    && Offset(w.batches, |w.batches|) + |w.pending| == |w.requests|
    && |w.flights| == |w.batches|
  }

  ghost predicate Armed(w: World) {
    && (w.timer <==> w.pending != [])
    && w.scheduled == if w.timer then 1 else 0
  }

  /** A request of a batch has been sent the batch's result once its turn has come, and only then. */
  ghost predicate SentFits(w: World, b: nat, i: nat)
    requires InOrder(w) && b < |w.batches| && i < |w.batches[b]|
  {
    var r := w.batches[b][i];
    && r < |w.requests|
    && w.requests[r].results == if i < Sent(w.flights[b]) then [w.flights[b].writing.result] else []
  }

  ghost predicate ResultsFit(w: World)
    requires InOrder(w)
  {
    && (forall b, i | 0 <= b < |w.batches| && 0 <= i < |w.batches[b]| :: SentFits(w, b, i))
    && (forall i | 0 <= i < |w.pending| :: w.pending[i] < |w.requests| && w.requests[w.pending[i]].results == [])
    && (forall b | 0 <= b < |w.flights| :: Sent(w.flights[b]) <= |w.batches[b]|)
  }

  /** What the watcher has passed is cancelled; a write cancelled while under way has been passed
      by the watcher entirely. */
  ghost predicate WatchFits(w: World, b: nat)
    requires b < |w.batches| && b < |w.flights|
  {
    var f := w.flights[b];
    && f.watched <= |w.batches[b]|
    && (forall i | 0 <= i < f.watched :: w.batches[b][i] < |w.requests| && w.requests[w.batches[b][i]].cancelled)
    && (f.cancelled && f.writing.UnderWay? ==> f.watched == |w.batches[b]|)
  }

  ghost predicate EndingFits(r: Request) {
    match r.ending
    case None => true
    case Some(Wrote(result)) => r.results == [result]
    case Some(GaveUp) => r.cancelled
  }

  ghost predicate Sound(w: World) {
    && Armed(w) && InOrder(w) && ResultsFit(w)
    && (forall b | 0 <= b < |w.batches| :: WatchFits(w, b))
    && forall r | 0 <= r < |w.requests| :: EndingFits(w.requests[r])
  }

  lemma {:induction false} OffsetPrefix(batches: seq<seq<nat>>, more: seq<nat>, n: nat)
    requires n <= |batches|
    ensures Offset(batches + [more], n) == Offset(batches, n)
  {
    if n > 0 {
      OffsetPrefix(batches, more, n - 1);
      assert (batches + [more])[n - 1] == batches[n - 1];
    }
  }

  lemma {:induction false} OffsetMonotone(batches: seq<seq<nat>>, m: nat, n: nat)
    requires m <= n <= |batches|
    ensures Offset(batches, m) <= Offset(batches, n)
  {
    if m < n { OffsetMonotone(batches, m, n - 1); }
  }

  lemma PlaceIs(w: World, b: nat, i: nat)
    requires InOrder(w) && b < |w.batches| && i < |w.batches[b]|
    ensures w.batches[b][i] == Offset(w.batches, b) + i
    ensures w.batches[b][i] < Offset(w.batches, b + 1) <= Offset(w.batches, |w.batches|) <= |w.requests|
  {
    assert BatchFits(w.batches, b);
    OffsetMonotone(w.batches, b + 1, |w.batches|);
    assert Offset(w.batches, b + 1) == Offset(w.batches, b) + |w.batches[b]|;
  }

  /** Places in different batches, or at different positions, hold different requests. */
  lemma PlacesDiffer(w: World, b: nat, i: nat, c: nat, j: nat)
    requires InOrder(w) && b < |w.batches| && c < |w.batches| && i < |w.batches[b]| && j < |w.batches[c]|
    requires b != c || i != j
    ensures w.batches[b][i] != w.batches[c][j]
  {
    PlaceIs(w, b, i);
    PlaceIs(w, c, j);
    if b < c { OffsetMonotone(w.batches, b + 1, c); }
    if c < b { OffsetMonotone(w.batches, c + 1, b); }
    hide Offset, InOrder;
  }

  lemma SubmitSound(w: World)
    requires Sound(w)
    ensures Sound(Step(w, Submit))
  {
    var next := Step(w, Submit);
    hide Offset;
    assert InOrder(next);
    forall b, i | 0 <= b < |next.batches| && 0 <= i < |next.batches[b]| ensures SentFits(next, b, i) {
      assert SentFits(w, b, i);
    }
    forall b | 0 <= b < |next.batches| ensures WatchFits(next, b) { assert WatchFits(w, b); }
  }

  lemma FireOrder(w: World)
    requires InOrder(w) && w.pending != []
    ensures var batches := w.batches + [w.pending];
            && Offset(batches, |w.batches|) == Offset(w.batches, |w.batches|)
            && Offset(batches, |batches|) == |w.requests|
            && forall b | 0 <= b < |batches| :: BatchFits(batches, b)
  {
    var batches := w.batches + [w.pending];
    OffsetPrefix(w.batches, w.pending, |w.batches|);
    assert Offset(batches, |batches|) == Offset(batches, |w.batches|) + |batches[|w.batches|]|;
    hide Offset;
    forall b | 0 <= b < |batches| ensures BatchFits(batches, b) {
      OffsetPrefix(w.batches, w.pending, b);
      if b < |w.batches| { assert BatchFits(w.batches, b); }
    }
  }

  lemma FireSound(w: World)
    requires Sound(w) && w.scheduled > 0
    ensures Sound(Step(w, Fire))
  {
    assert w.pending != [];
    var next := Step(w, Fire);
    FireOrder(w);
    hide Offset, BatchFits;
    assert InOrder(next);
    forall b, i | 0 <= b < |next.batches| && 0 <= i < |next.batches[b]| ensures SentFits(next, b, i) {
      if b < |w.batches| { assert SentFits(w, b, i); }
    }
    forall b | 0 <= b < |next.batches| ensures WatchFits(next, b) {
      if b < |w.batches| { assert WatchFits(w, b); }
    }
    forall b | 0 <= b < |next.flights| ensures Sent(next.flights[b]) <= |next.batches[b]| {
      if b < |w.flights| { assert next.flights[b] == w.flights[b]; }
    }
  }

  /** Changing how one request ended, or that it is cancelled, leaves the rest alone. */
  lemma RequestSound(w: World, r: nat, changed: Request)
    requires Sound(w) && r < |w.requests|
    requires changed.results == w.requests[r].results && (w.requests[r].cancelled ==> changed.cancelled) && EndingFits(changed)
    ensures Sound(w.(requests := w.requests[r := changed]))
  {
    hide Offset, BatchFits;
    var next := w.(requests := w.requests[r := changed]);
    forall b, i | 0 <= b < |next.batches| && 0 <= i < |next.batches[b]| ensures SentFits(next, b, i) {
      assert SentFits(w, b, i);
    }
    forall b | 0 <= b < |next.batches| ensures WatchFits(next, b) { assert WatchFits(w, b); }
  }

  /** Changing one flight without sending anything. */
  lemma FlightSound(w: World, b: nat, f: Flight)
    requires Sound(w) && b < |w.flights| && Sent(f) == 0 && Sent(w.flights[b]) == 0
    requires WatchFits(w.(flights := w.flights[b := f]), b)
    ensures Sound(w.(flights := w.flights[b := f]))
  {
    hide Offset, BatchFits;
    var next := w.(flights := w.flights[b := f]);
    assert InOrder(next);
    forall c, i | 0 <= c < |next.batches| && 0 <= i < |next.batches[c]| ensures SentFits(next, c, i) {
      assert SentFits(w, c, i);
    }
    forall c | 0 <= c < |next.batches| ensures WatchFits(next, c) {
      if c != b { assert WatchFits(w, c); }
    }
  }

  lemma SendResults(w: World, next: World, b: nat)
    requires InOrder(w) && ResultsFit(w) && InOrder(next)
    requires b < |w.batches| && w.flights[b].writing.Sending? && w.flights[b].writing.sent < |w.batches[b]|
    requires next == Step(w, Send(b))
    ensures ResultsFit(next)
  {
    var k := w.flights[b].writing.sent;
    var r := w.batches[b][k];
    PlaceIs(w, b, k);
    assert SentFits(w, b, k);
    hide InOrder, Offset, BatchFits;
    forall c, i | 0 <= c < |next.batches| && 0 <= i < |next.batches[c]| ensures SentFits(next, c, i) {
      assert SentFits(w, c, i);
      if c != b || i != k { PlacesDiffer(w, b, k, c, i); }
    }
    forall i | 0 <= i < |next.pending| ensures next.requests[next.pending[i]].results == [] {
      assert next.pending[i] == Offset(w.batches, |w.batches|) + i by { QueuePlace(w, i); }
    }
  }

  lemma QueuePlace(w: World, i: nat)
    requires InOrder(w) && i < |w.pending|
    ensures w.pending[i] == Offset(w.batches, |w.batches|) + i
  {
    hide Offset, BatchFits;
  }

  lemma SendSound(w: World, b: nat)
    requires Sound(w) && b < |w.batches| && w.flights[b].writing.Sending? && w.flights[b].writing.sent < |w.batches[b]|
    ensures Sound(Step(w, Send(b)))
  {
    var k := w.flights[b].writing.sent;
    var r := w.batches[b][k];
    assert SentFits(w, b, k);
    var next := Step(w, Send(b));
    hide Offset, BatchFits;
    assert InOrder(next);
    SendResults(w, next, b);
    hide InOrder, ResultsFit, SentFits;
    forall c | 0 <= c < |next.batches| ensures WatchFits(next, c) { assert WatchFits(w, c); }
    assert EndingFits(w.requests[r]);
  }

  /** Every step keeps every invariant. */
  lemma StepSound(w: World, a: Action)
    requires Sound(w)
    ensures Sound(Step(w, a))
  {
    hide Offset, BatchFits, SentFits, Consecutive;
    match a {
      case Submit => SubmitSound(w);
      case Fire => if w.scheduled > 0 { FireSound(w); }
      case CancelCaller(r) =>
        if r < |w.requests| {
          assert EndingFits(w.requests[r]);
          RequestSound(w, r, w.requests[r].(cancelled := true));
        }
      case Watch(b) =>
        if b < |w.batches| && w.flights[b].writing.UnderWay? {
          var f := w.flights[b];
          assert WatchFits(w, b);
          if f.watched >= |w.batches[b]| { FlightSound(w, b, f.(cancelled := true)); }
          else if w.batches[b][f.watched] < |w.requests| && w.requests[w.batches[b][f.watched]].cancelled {
            WatchedOneMore(w, b);
            FlightSound(w, b, f.(watched := f.watched + 1));
          }
        }
      case Write(b, result) =>
        if b < |w.flights| && w.flights[b].writing.UnderWay? {
          assert WatchFits(w, b);
          FlightSound(w, b, w.flights[b].(writing := Sending(result, 0), cancelled := true));
        }
      case Send(b) =>
        if b < |w.batches| && w.flights[b].writing.Sending? && w.flights[b].writing.sent < |w.batches[b]| { SendSound(w, b); }
      case Receive(r) =>
        if r < |w.requests| && w.requests[r].ending.None? && w.requests[r].results != [] {
          OneResult(w, r);
          RequestSound(w, r, w.requests[r].(ending := Some(Wrote(w.requests[r].results[0]))));
        }
      case GiveUp(r) =>
        if r < |w.requests| && w.requests[r].ending.None? && w.requests[r].cancelled {
          RequestSound(w, r, w.requests[r].(ending := Some(GaveUp)));
        }
    }
  }

  lemma WatchedOneMore(w: World, b: nat)
    requires Sound(w) && b < |w.batches| && w.flights[b].watched < |w.batches[b]|
    requires w.batches[b][w.flights[b].watched] < |w.requests| && w.requests[w.batches[b][w.flights[b].watched]].cancelled
    ensures WatchFits(w.(flights := w.flights[b := w.flights[b].(watched := w.flights[b].watched + 1)]), b)
  {
    hide Offset, BatchFits, SentFits, Armed, ResultsFit;
    assert WatchFits(w, b);
  }

  /** Every request is queued or in one batch. */
  lemma {:induction false} PlaceOf(w: World, r: nat, n: nat) returns (b: nat, i: nat)
    requires InOrder(w) && n <= |w.batches| && r < Offset(w.batches, n)
    ensures b < n && i < |w.batches[b]| && w.batches[b][i] == r
    decreases n
  {
    assert Offset(w.batches, n) == Offset(w.batches, n - 1) + |w.batches[n - 1]|;
    assert BatchFits(w.batches, n - 1);
    hide Offset, InOrder;
    if r < Offset(w.batches, n - 1) {
      b, i := PlaceOf(w, r, n - 1);
    } else {
      b, i := n - 1, r - Offset(w.batches, n - 1);
    }
  }

  lemma OneResult(w: World, r: nat)
    requires Sound(w) && r < |w.requests|
    ensures |w.requests[r].results| <= 1
  {
    hide Offset, BatchFits;
    if r < Offset(w.batches, |w.batches|) {
      var b, i := PlaceOf(w, r, |w.batches|);
      assert SentFits(w, b, i);
    } else {
      var i := r - Offset(w.batches, |w.batches|);
      assert w.pending[i] == r;
    }
  }

  lemma {:induction false} RunSound(actions: seq<Action>)
    ensures Sound(Run(actions))
  {
    if actions != [] {
      RunSound(actions[..|actions| - 1]);
      StepSound(Run(actions[..|actions| - 1]), actions[|actions| - 1]);
    }
  }

  // ----- What is promised in every interleaving -----

  /** Requests wait exactly while one flush, and only one, is promised to come for them. */
  lemma WaitingIsArmed(actions: seq<Action>)
    ensures var w := Run(actions);
            (w.pending != [] <==> w.timer) && (w.pending != [] <==> w.scheduled == 1) && w.scheduled <= 1
  {
    RunSound(actions);
  }

  function Joined(batches: seq<seq<nat>>, n: nat): seq<nat>
    requires n <= |batches|
  {
    if n == 0 then [] else Joined(batches, n - 1) + batches[n - 1]
  }

  lemma {:induction false} JoinedInOrder(w: World, n: nat)
    requires InOrder(w) && n <= |w.batches|
    ensures |Joined(w.batches, n)| == Offset(w.batches, n) && Consecutive(Joined(w.batches, n), 0)
  {
    if n > 0 {
      JoinedInOrder(w, n - 1);
      var before, last := Joined(w.batches, n - 1), w.batches[n - 1];
      assert Joined(w.batches, n) == before + last;
      assert Offset(w.batches, n) == Offset(w.batches, n - 1) + |last|;
      assert BatchFits(w.batches, n - 1);
      hide Offset, Joined, InOrder;
    }
  }

  /** The batches in the order taken, and then the queue, are the requests in arrival order, so
      every request is in exactly one place. */
  lemma ArrivalOrder(actions: seq<Action>)
    ensures var w := Run(actions);
            var all := Joined(w.batches, |w.batches|) + w.pending;
            |all| == |w.requests| && forall r | 0 <= r < |all| :: all[r] == r
  {
    RunSound(actions);
    JoinedInOrder(Run(actions), |Run(actions).batches|);
    hide Run;
  }

  /** A request is sent at most one result: that of the write of its own batch, and it has it once
      all of the batch has been served. */
  lemma EachRequestOneResult(actions: seq<Action>, b: nat, i: nat)
    ensures var w := Run(actions);
            b < |w.batches| && i < |w.batches[b]| ==>
              var r := w.batches[b][i];
              && r < |w.requests| && b < |w.flights| && |w.requests[r].results| <= 1
              && (w.requests[r].results != [] ==> w.flights[b].writing.Sending? && w.requests[r].results == [w.flights[b].writing.result])
              && (w.flights[b].writing.Sending? && w.flights[b].writing.sent == |w.batches[b]| ==>
                    w.requests[r].results == [w.flights[b].writing.result])
  {
    RunSound(actions);
    var w := Run(actions);
    hide Run;
    if b < |w.batches| && i < |w.batches[b]| { assert SentFits(w, b, i); }
  }

  /** A submission that returned the write's result returned the one sent to it; one that gave up
      had been cancelled itself. */
  lemma SubmitReturns(actions: seq<Action>, r: nat)
    ensures var w := Run(actions);
            r < |w.requests| && w.requests[r].ending.Some? ==>
              match w.requests[r].ending.value
              case Wrote(result) => w.requests[r].results == [result]
              case GaveUp => w.requests[r].cancelled
  {
    RunSound(actions);
    hide Run;
    if r < |Run(actions).requests| { assert EndingFits(Run(actions).requests[r]); }
  }

  /** The write's context is cancelled before the write ends only if every one of its requests is. */
  lemma CancelledOnlyTogether(actions: seq<Action>, b: nat, i: nat)
    ensures var w := Run(actions);
            b < |w.batches| && b < |w.flights| && w.flights[b].writing.UnderWay? && w.flights[b].cancelled && i < |w.batches[b]| ==>
              w.batches[b][i] < |w.requests| && w.requests[w.batches[b][i]].cancelled
  {
    RunSound(actions);
    var w := Run(actions);
    hide Run;
    if b < |w.batches| { assert WatchFits(w, b); }
  }
}
