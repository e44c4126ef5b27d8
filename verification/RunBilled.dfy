/** Billed operations: reserve, work, settle, with one debit however often replies are lost. */
module RunBilled {
  import opened Blanks
  import opened Decimals

  // ----- Keys -----

  const MAX_KEY_LENGTH := 255

  /** Bytes of a character in UTF-8 (section 3 of RFC 3629). */
  function ByteSize(c: char): nat {
    if c < '\U{80}' then 1 else if c < '\U{800}' then 2 else if c < '\U{10000}' then 3 else 4
  }

  /** One byte to U+007F, two to U+07FF, three to U+FFFF, and four beyond. */
  lemma ByteSizes(c: char)
    ensures ByteSize(c) == 1 <==> c as int <= 0x7F
    ensures ByteSize(c) == 2 <==> 0x80 <= c as int <= 0x7FF
    ensures ByteSize(c) == 3 <==> 0x800 <= c as int <= 0xFFFF
    ensures ByteSize(c) == 4 <==> 0x10000 <= c as int
  {
  }

  function ByteLength(s: string): nat {
    if s == "" then 0 else ByteSize(s[0]) + ByteLength(s[1..])
  }

  /** A stable key is trimmed, not empty and at most 255 bytes. */
  function StableKey(value: string): Option<string> {
    var key := Trim(value);
    if key == "" || ByteLength(key) > MAX_KEY_LENGTH then None else Some(key)
  }

  function ScopedKey(operationKey: string, suffix: string): Option<string> {
    var key := StableKey(operationKey);
    var scope := Trim(suffix);
    if key.None? || scope == "" then None else StableKey(key.value + ":" + scope)
  }

  lemma {:induction false} ByteLengthAdds(a: string, b: string)
    ensures ByteLength(a + b) == ByteLength(a) + ByteLength(b)
  {
    if a == "" {
      assert a + b == b;
    } else {
      assert (a + b)[1..] == a[1..] + b;
      ByteLengthAdds(a[1..], b);
    }
  }

  lemma {:induction false} AsciiLength(s: string)
    requires forall i | 0 <= i < |s| :: ByteSize(s[i]) == 1
    ensures ByteLength(s) == |s|
  {
    if s != "" { AsciiLength(s[1..]); }
  }

  lemma AlreadyTrimmed(s: string)
    requires s != "" && !IsSpace(s[0]) && !IsSpace(s[|s| - 1])
    ensures Trim(s) == s
  {
  }

  lemma TrimmedEnds(s: string)
    requires Trim(s) != ""
    ensures !IsSpace(Trim(s)[0])
  {
    var l := TrimLeft(s);
    var i := TrimLeftParts(s);
    var k := TrimRightParts(l);
    hide TrimLeft, TrimRight, IsSpace;
    assert Trim(s)[0] == l[0];
  }

  lemma AsciiSuffix(suffix: string)
    requires suffix == "reserve" || suffix == "settle"
    ensures ByteLength(":" + suffix) == 1 + |suffix|
  {
    AsciiLength(":" + suffix);
  }

  /** The key of one stage of an operation, when its name fits. */
  lemma ScopedKeyIs(operationKey: string, suffix: string)
    requires suffix == "reserve" || suffix == "settle"
    ensures ScopedKey(operationKey, suffix) ==
            if Trim(operationKey) == "" || ByteLength(Trim(operationKey)) + 1 + |suffix| > MAX_KEY_LENGTH then None
            else Some(Trim(operationKey) + ":" + suffix)
  {
    var key := Trim(operationKey);
    AlreadyTrimmed(suffix);
    if key != "" {
      var scoped := key + ":" + suffix;
      TrimmedEnds(operationKey);
      assert scoped[0] == key[0] && scoped[|scoped| - 1] == 'e';
      AlreadyTrimmed(scoped);
      assert scoped == key + (":" + suffix);
      ByteLengthAdds(key, ":" + suffix);
      AsciiSuffix(suffix);
    }
    hide Trim, ByteLength;
  }

  /** No settle key is any operation's reserve key. */
  lemma SettleKeyIsNoReserveKey(a: string, b: string)
    ensures ScopedKey(a, "settle").Some? && ScopedKey(b, "reserve").Some? ==>
              ScopedKey(a, "settle").value != ScopedKey(b, "reserve").value
  {
    ScopedKeyIs(a, "settle");
    ScopedKeyIs(b, "reserve");
    hide Trim, ByteLength, ScopedKey;
    var s := Trim(a) + ":" + "settle";
    var r := Trim(b) + ":" + "reserve";
    assert s[|s| - 7] == ':' && r[|r| - 7] == 'r';
  }

  /** Different operations have different settle keys. */
  lemma SettleKeyIsInjective(a: string, b: string)
    requires ScopedKey(a, "settle").Some? && ScopedKey(a, "settle") == ScopedKey(b, "settle")
    ensures Trim(a) == Trim(b)
  {
    ScopedKeyIs(a, "settle");
    ScopedKeyIs(b, "settle");
    hide Trim, ByteLength, ScopedKey;
    var s, t := Trim(a) + ":" + "settle", Trim(b) + ":" + "settle";
    assert s == t;
    assert Trim(a) == s[..|s| - 7] && Trim(b) == t[..|t| - 7];
  }

  /** An operation that could be reserved can be settled: its settle key is the shorter one. */
  lemma SettleKeyExists(operationKey: string)
    requires ScopedKey(operationKey, "reserve").Some?
    ensures ScopedKey(operationKey, "settle").Some?
  {
    ScopedKeyIs(operationKey, "reserve");
    ScopedKeyIs(operationKey, "settle");
    hide Trim, ByteLength, ScopedKey;
  }

  // ----- The ledger, as the store contract describes it -----

  datatype LeaseStatus = Active | Settled | Released | Expired

  /** A committed debit: under which key, for which lease, of how much. */
  datatype Entry = Entry(key: string, lease: nat, amount: Amount)

  datatype Ledger = Ledger(entries: seq<Entry>, leases: seq<LeaseStatus>, reservations: map<string, nat>)

  ghost predicate Valid(l: Ledger) {
    && (forall i, j | 0 <= i < j < |l.entries| :: l.entries[i].key != l.entries[j].key)
    && forall key | key in l.reservations :: l.reservations[key] < |l.leases|
  }

  function Find(entries: seq<Entry>, key: string): (r: Option<Entry>)
    ensures r.Some? ==> r.value in entries && r.value.key == key
    ensures r.None? ==> forall e | e in entries :: e.key != key
  {
    if entries == [] then None
    else if entries[0].key == key then Some(entries[0])
    else Find(entries[1..], key)
  }

  /** Reserving is idempotent by key; otherwise the store admits the operation or refuses. */
  function Reserved(l: Ledger, key: string, admitted: bool): (Ledger, Option<nat>) {
    if key in l.reservations then (l, Some(l.reservations[key]))
    else if !admitted then (l, None)
    else (l.(leases := l.leases + [Active], reservations := l.reservations[key := |l.leases|]), Some(|l.leases|))
  }

  /** Settling is idempotent by key: a repeat of the same debit is answered, not made again; a
      different one under the same key, or a lease no longer active, is refused. */
  function Committed(l: Ledger, e: Entry): (Ledger, bool) {
    var found := Find(l.entries, e.key);
    if found.Some? then (l, found.value == e)
    else if e.lease < |l.leases| && l.leases[e.lease].Active? then
      (l.(entries := l.entries + [e], leases := l.leases[e.lease := Settled]), true)
    else (l, false)
  }

  function WithLease(l: Ledger, lease: nat, status: LeaseStatus): Ledger {
    if lease < |l.leases| && l.leases[lease].Active? then l.(leases := l.leases[lease := status]) else l
  }

  // ----- What can happen around each call -----

  datatype Delivery = Delivered | LostBefore(retryable: bool) | LostAfter(retryable: bool)

  /** One settlement attempt: the lease may run out before it, the call or its answer may be lost,
      and the caller may have been cancelled by the time it fails. */
  datatype Attempt = Attempt(expires: bool, delivery: Delivery, cancelled: bool)

  datatype RunError = InvalidRequest | Refused | Transport(retryable: bool) | WorkFailed

  type Outcome = Result<Entry, RunError>

  predicate Retryable(e: RunError) {
    e.Transport? && e.retryable
  }

  datatype StoreCall = ReserveCall(key: string) | SettleCall(entry: Entry) | ReleaseCall(lease: nat)

  class CreditStore {
    var entries: seq<Entry>
    var leases: seq<LeaseStatus>
    var reservations: map<string, nat>
    var calls: seq<StoreCall>

    constructor ()
      ensures Model() == Ledger([], [], map[]) && calls == []
    {
      entries, leases, reservations, calls := [], [], map[], [];
    }

    ghost function Model(): Ledger
      reads this
    {
      Ledger(entries, leases, reservations)
    }

    method CreateLease(key: string, admitted: bool, delivery: Delivery) returns (lease: Result<nat, RunError>)
      modifies this
      ensures calls == old(calls) + [ReserveCall(key)]
      ensures var (after, id) := Reserved(old(Model()), key, admitted);
              && Model() == (if delivery.LostBefore? then old(Model()) else after)
              && lease == if !delivery.Delivered? then Failure(Transport(delivery.retryable))
                          else if id.None? then Failure(Refused) else Success(id.value)
    {
      calls := calls + [ReserveCall(key)];
      if delivery.LostBefore? { return Failure(Transport(delivery.retryable)); }
      var id := None;
      if key in reservations {
        id := Some(reservations[key]);
      } else if admitted {
        id := Some(|leases|);
        reservations := reservations[key := |leases|];
        leases := leases + [Active];
      }
      if delivery.LostAfter? { return Failure(Transport(delivery.retryable)); }
      return if id.None? then Failure(Refused) else Success(id.value);
    }

    method SettleLease(entry: Entry, attempt: Attempt) returns (reply: Outcome)
      modifies this
      ensures calls == old(calls) + [SettleCall(entry)]
      ensures (Model(), reply) == Settle(old(Model()), entry, attempt)
    {
      calls := calls + [SettleCall(entry)];
      if attempt.expires && entry.lease < |leases| && leases[entry.lease].Active? { leases := leases[entry.lease := Expired]; }
      if attempt.delivery.LostBefore? { return Failure(Transport(attempt.delivery.retryable)); }
      var found := Find(entries, entry.key);
      var ok := false;
      if found.Some? {
        ok := found.value == entry;
      } else if entry.lease < |leases| && leases[entry.lease].Active? {
        entries := entries + [entry];
        leases := leases[entry.lease := Settled];
        ok := true;
      }
      if attempt.delivery.LostAfter? { return Failure(Transport(attempt.delivery.retryable)); }
      return if ok then Success(entry) else Failure(Refused);
    }

    method ReleaseLease(lease: nat, delivery: Delivery)
      modifies this
      ensures calls == old(calls) + [ReleaseCall(lease)]
      ensures Model() == if delivery.LostBefore? then old(Model()) else WithLease(old(Model()), lease, Released)
    {
      calls := calls + [ReleaseCall(lease)];
      if delivery.LostBefore? { return; }
      if lease < |leases| && leases[lease].Active? { leases := leases[lease := Released]; }
    }
  }

  /** One settlement call and its answer. */
  function Settle(l: Ledger, entry: Entry, attempt: Attempt): (Ledger, Outcome) {
    var now := if attempt.expires then WithLease(l, entry.lease, Expired) else l;
    var (after, ok) := Committed(now, entry);
    match attempt.delivery
    case LostBefore(retryable) => (now, Failure(Transport(retryable)))
    case LostAfter(retryable) => (after, Failure(Transport(retryable)))
    case Delivered => (after, if ok then Success(entry) else Failure(Refused))
  }

  // ----- The operation -----

  /** What the caller asks for and what its work comes to. */
  datatype Options = Options(
    operationKey: string,
    estimate: Amount,
    settingsValid: bool,
    settlementAttempts: int,
    workFails: bool,
    actual: Amount)

  datatype Script = Script(admitted: bool, reserve: Delivery, release: Delivery, settle: nat -> Attempt)

  datatype Run = Run(ledger: Ledger, calls: seq<StoreCall>, outcome: Outcome)

  function Attempts(requested: int): int {
    if requested == 0 then 3 else requested
  }

  /** Beginning an operation: its lease, or the reason there is none. */
  function Begun(l: Ledger, o: Options, s: Script): (Ledger, seq<StoreCall>, Result<nat, RunError>) {
    var key := ScopedKey(o.operationKey, "reserve");
    if key.None? || o.estimate < 0.0 || !o.settingsValid then (l, [], Failure(InvalidRequest))
    else
      var (after, id) := Reserved(l, key.value, s.admitted);
      (if s.reserve.LostBefore? then l else after,
       [ReserveCall(key.value)],
       if !s.reserve.Delivered? then Failure(Transport(s.reserve.retryable))
       else if id.None? then Failure(Refused) else Success(id.value))
  }

  /** The settlement loop from one attempt on: it ends at the first success, at the first error not
      worth retrying, when cancelled, or when the attempts run out. */
  function SettleLoop(l: Ledger, entry: Entry, script: nat -> Attempt, attempt: nat, attempts: nat, last: RunError): Run
    decreases attempts - attempt
  {
    if attempt >= attempts then Run(l, [], Failure(last))
    else
      var (after, reply) := Settle(l, entry, script(attempt));
      if reply.Success? || !Retryable(reply.error) || script(attempt).cancelled then Run(after, [SettleCall(entry)], reply)
      else
        var rest := SettleLoop(after, entry, script, attempt + 1, attempts, reply.error);
        rest.(calls := [SettleCall(entry)] + rest.calls)
  }

  function RunSpec(l: Ledger, o: Options, s: Script): Run {
    if Attempts(o.settlementAttempts) < 1 then Run(l, [], Failure(InvalidRequest))
    else
      var (begun, calls, lease) := Begun(l, o, s);
      if lease.Failure? then Run(begun, calls, Failure(lease.error))
      else if o.workFails then
        Run(if s.release.LostBefore? then begun else WithLease(begun, lease.value, Released),
            calls + [ReleaseCall(lease.value)], Failure(WorkFailed))
      else
        var key := ScopedKey(o.operationKey, "settle");
        if key.None? || o.actual < 0.0 then Run(begun, calls, Failure(InvalidRequest))
        else
          var settled := SettleLoop(begun, Entry(key.value, lease.value, QuantizeMoney(o.actual)), s.settle, 0,
                                    Attempts(o.settlementAttempts), InvalidRequest);
          settled.(calls := calls + settled.calls)
  }

  method BeginBilledOperation(store: CreditStore, o: Options, s: Script) returns (lease: Result<nat, RunError>)
    modifies store
    ensures var (after, calls, begun) := Begun(old(store.Model()), o, s);
            store.Model() == after && store.calls == old(store.calls) + calls && lease == begun
  {
    hide Reserved, Trim, ByteLength;
    var operationKey := StableKey(o.operationKey);
    if operationKey.None? { return Failure(InvalidRequest); }
    StableTwice(o.operationKey);
    var reserveKey := ScopedKey(operationKey.value, "reserve");
    if reserveKey.None? { return Failure(InvalidRequest); }
    if o.estimate < 0.0 || !o.settingsValid { return Failure(InvalidRequest); }
    lease := store.CreateLease(reserveKey.value, s.admitted, s.reserve);
  }

  lemma StableTwice(value: string)
    requires StableKey(value).Some?
    ensures StableKey(StableKey(value).value) == StableKey(value)
    ensures forall suffix :: ScopedKey(StableKey(value).value, suffix) == ScopedKey(value, suffix)
  {
    TrimIdempotent(value);
    hide Trim, ByteLength;
  }

  /** One settlement by the operation: negative amounts never reach the store. */
  method SettleOperation(store: CreditStore, operationKey: string, lease: nat, actual: Amount, attempt: Attempt) returns (reply: Outcome)
    modifies store
    ensures var key := ScopedKey(operationKey, "settle");
            if key.None? || actual < 0.0 then
              store.Model() == old(store.Model()) && store.calls == old(store.calls) && reply == Failure(InvalidRequest)
            else
              var entry := Entry(key.value, lease, QuantizeMoney(actual));
              && (store.Model(), reply) == Settle(old(store.Model()), entry, attempt)
              && store.calls == old(store.calls) + [SettleCall(entry)]
  {
    hide Settle, RoundScaled, Trim, ByteLength;
    var settleKey := ScopedKey(operationKey, "settle");
    if settleKey.None? { return Failure(InvalidRequest); }
    if actual < 0.0 { return Failure(InvalidRequest); }
    reply := store.SettleLease(Entry(settleKey.value, lease, QuantizeMoney(actual)), attempt);
  }

  method SettleRepeatedly(store: CreditStore, operationKey: string, lease: nat, actual: Amount, script: nat -> Attempt, attempts: int)
    returns (outcome: Outcome)
    requires attempts >= 1
    modifies store
    ensures var key := ScopedKey(operationKey, "settle");
            if key.None? || actual < 0.0 then
              store.Model() == old(store.Model()) && store.calls == old(store.calls) && outcome == Failure(InvalidRequest)
            else
              var run := SettleLoop(old(store.Model()), Entry(key.value, lease, QuantizeMoney(actual)), script, 0, attempts, InvalidRequest);
              store.Model() == run.ledger && store.calls == old(store.calls) + run.calls && outcome == run.outcome
  {
    hide ScopedKey, Settle, RoundScaled;
    ghost var key := ScopedKey(operationKey, "settle");
    ghost var start, startCalls := store.Model(), store.calls;
    ghost var entry := Entry(if key.Some? then key.value else "", lease, QuantizeMoney(actual));
    ghost var whole := SettleLoop(start, entry, script, 0, attempts, InvalidRequest);
    var error := InvalidRequest;
    var attempt := 0;
    while attempt < attempts
      invariant 0 <= attempt <= attempts
      invariant attempt == 0 ==> error == InvalidRequest && store.Model() == start && store.calls == startCalls
      invariant attempt > 0 ==> key.Some? && actual >= 0.0
      invariant var rest := SettleLoop(store.Model(), entry, script, attempt, attempts, error);
                attempt > 0 ==> rest.ledger == whole.ledger && rest.outcome == whole.outcome
                                && store.calls + rest.calls == startCalls + whole.calls
    {
      ghost var before := store.calls;
      ghost var rest := SettleLoop(store.Model(), entry, script, attempt, attempts, error);
      var reply := SettleOperation(store, operationKey, lease, actual, script(attempt));
      if reply.Success? { return reply; }
      error := reply.error;
      if !Retryable(error) || script(attempt).cancelled { return Failure(error); }
      attempt := attempt + 1;
      ghost var left := SettleLoop(store.Model(), entry, script, attempt, attempts, error);
      assert store.calls + left.calls == before + rest.calls;
    }
    assert store.calls + [] == store.calls;
    return Failure(error);
  }

  /** Reserve, work, settle. The outcome of every script of lost calls, lost answers, expiries and
      cancellations is the one `RunSpec` describes. */
  method RunBilledOperation(store: CreditStore, o: Options, s: Script) returns (outcome: Outcome)
    modifies store
    ensures var run := RunSpec(old(store.Model()), o, s);
            store.Model() == run.ledger && store.calls == old(store.calls) + run.calls && outcome == run.outcome
  {
    hide ScopedKey, SettleLoop, RoundScaled, Begun, WithLease;
    var attempts := o.settlementAttempts;
    if attempts == 0 { attempts := 3; }
    if attempts < 1 { return Failure(InvalidRequest); }
    var begun := BeginBilledOperation(store, o, s);
    if begun.Failure? { return Failure(begun.error); }
    var lease := begun.value;
    if o.workFails {
      store.ReleaseLease(lease, s.release);
      return Failure(WorkFailed);
    }
    outcome := SettleRepeatedly(store, o.operationKey, lease, o.actual, s.settle, attempts);
  }

  // ----- At most one debit -----

  lemma SettleKeeps(l: Ledger, entry: Entry, attempt: Attempt)
    requires Valid(l)
    ensures var (after, reply) := Settle(l, entry, attempt);
            && Valid(after)
            && (after.entries == l.entries || (after.entries == l.entries + [entry] && Find(l.entries, entry.key).None?))
            && (reply.Success? ==> reply.value == entry && entry in after.entries)
            && after.reservations == l.reservations && |after.leases| == |l.leases|
  {
    var (after, reply) := Settle(l, entry, attempt);
    if after.entries == l.entries + [entry] {
      assert forall i | 0 <= i < |l.entries| :: l.entries[i] in l.entries;
      assert after.entries[|l.entries|] == entry;
    }
  }

  lemma {:induction false} LoopKeeps(l: Ledger, entry: Entry, script: nat -> Attempt, attempt: nat, attempts: nat, last: RunError)
    requires Valid(l)
    ensures var run := SettleLoop(l, entry, script, attempt, attempts, last);
            && Valid(run.ledger)
            && (run.ledger.entries == l.entries || (run.ledger.entries == l.entries + [entry] && Find(l.entries, entry.key).None?))
            && (run.outcome.Success? ==> run.outcome.value == entry && entry in run.ledger.entries)
    decreases attempts - attempt
  {
    if attempt < attempts {
      var (after, reply) := Settle(l, entry, script(attempt));
      SettleKeeps(l, entry, script(attempt));
      hide Settle, Valid;
      if reply.Failure? && Retryable(reply.error) && !script(attempt).cancelled {
        LoopKeeps(after, entry, script, attempt + 1, attempts, reply.error);
        if after.entries == l.entries + [entry] {
          assert after.entries[|l.entries|] == entry;
          assert entry in after.entries;
        }
      }
    }
  }

  /** Beginning debits nothing, and a lease it returns exists. */
  lemma BeginKeeps(l: Ledger, o: Options, s: Script)
    requires Valid(l)
    ensures var (after, calls, lease) := Begun(l, o, s);
            && Valid(after) && after.entries == l.entries
            && (lease.Success? ==> lease.value < |after.leases| && ScopedKey(o.operationKey, "reserve").Some?)
  {
    hide ScopedKey;
  }

  /** The debit an operation may make. */
  function DebitOf(o: Options, lease: nat): Entry {
    Entry(Trim(o.operationKey) + ":settle", lease, QuantizeMoney(o.actual))
  }

  lemma DebitKey(o: Options)
    requires ScopedKey(o.operationKey, "reserve").Some?
    ensures ScopedKey(o.operationKey, "settle") == Some(Trim(o.operationKey) + ":settle")
  {
    SettleKeyExists(o.operationKey);
    ScopedKeyIs(o.operationKey, "settle");
    hide Trim, ByteLength, ScopedKey;
    assert Trim(o.operationKey) + ":" + "settle" == Trim(o.operationKey) + ":settle";
  }

  /** For every script, a run adds no entry or exactly the operation's one debit, which nobody had
      made before; a success means that debit is in the ledger, once; failed work adds nothing. */
  lemma RunDebitsAtMostOnce(l: Ledger, o: Options, s: Script)
    requires Valid(l)
    ensures var run := RunSpec(l, o, s);
            var lease := Begun(l, o, s).2;
            && Valid(run.ledger)
            && (run.ledger.entries == l.entries
                || (lease.Success? && !o.workFails && run.ledger.entries == l.entries + [DebitOf(o, lease.value)]
                    && Find(l.entries, DebitOf(o, lease.value).key).None?))
            && (run.outcome.Success? ==> lease.Success? && run.outcome.value == DebitOf(o, lease.value)
                                         && DebitOf(o, lease.value) in run.ledger.entries)
  {
    BeginKeeps(l, o, s);
    var (begun, calls, lease) := Begun(l, o, s);
    if Attempts(o.settlementAttempts) >= 1 && lease.Success? && !o.workFails && o.actual >= 0.0 {
      DebitKey(o);
      hide Begun, Valid, ScopedKey, Trim, RoundScaled, SettleLoop;
      LoopKeeps(begun, DebitOf(o, lease.value), s.settle, 0, Attempts(o.settlementAttempts), InvalidRequest);
    }
  }

  /** Failed work releases the lease, once, and makes no settlement call at all. */
  lemma FailedWorkReleases(l: Ledger, o: Options, s: Script)
    requires o.workFails && Attempts(o.settlementAttempts) >= 1 && Begun(l, o, s).2.Success?
    ensures var run := RunSpec(l, o, s);
            var lease := Begun(l, o, s).2.value;
            && run.outcome == Failure(WorkFailed) && run.ledger.entries == l.entries
            && (forall c | c in run.calls :: !c.SettleCall?)
            && |run.calls| == 2 && run.calls[1] == ReleaseCall(lease)
            && (!s.release.LostBefore? && lease < |run.ledger.leases| ==> !run.ledger.leases[lease].Active?)
  {
    hide ScopedKey;
  }

  lemma {:induction false} LoopCalls(l: Ledger, entry: Entry, script: nat -> Attempt, attempt: nat, attempts: nat, last: RunError)
    ensures var calls := SettleLoop(l, entry, script, attempt, attempts, last).calls;
            && (attempt <= attempts ==> |calls| <= attempts - attempt)
            && forall c | c in calls :: c == SettleCall(entry)
    decreases attempts - attempt
  {
    if attempt < attempts {
      var (after, reply) := Settle(l, entry, script(attempt));
      hide Settle;
      if reply.Failure? && Retryable(reply.error) && !script(attempt).cancelled {
        LoopCalls(after, entry, script, attempt + 1, attempts, reply.error);
      }
    }
  }

  /** All settlement calls of a run are for one debit under one key, which is not the key it
      reserved with, and there are no more of them than attempts allowed. */
  lemma RunUsesOneKey(l: Ledger, o: Options, s: Script)
    ensures var run := RunSpec(l, o, s);
            var lease := Begun(l, o, s).2;
            && (forall c | c in run.calls && c.SettleCall? :: lease.Success? && c.entry == DebitOf(o, lease.value))
            && (forall c, r | c in run.calls && c.SettleCall? && r in run.calls && r.ReserveCall? :: c.entry.key != r.key)
            && |run.calls| <= 1 + (if Attempts(o.settlementAttempts) >= 1 then Attempts(o.settlementAttempts) else 0)
  {
    var (begun, calls, lease) := Begun(l, o, s);
    var reserveKey := ScopedKey(o.operationKey, "reserve");
    assert calls == [] || (reserveKey.Some? && calls == [ReserveCall(reserveKey.value)]);
    assert lease.Success? ==> reserveKey.Some?;
    SettleKeyIsNoReserveKey(o.operationKey, o.operationKey);
    hide Begun, ScopedKey, Trim, RoundScaled, SettleLoop;
    if Attempts(o.settlementAttempts) >= 1 && lease.Success? && !o.workFails && o.actual >= 0.0 {
      DebitKey(o);
      LoopCalls(begun, DebitOf(o, lease.value), s.settle, 0, Attempts(o.settlementAttempts), InvalidRequest);
    }
  }

  // ----- Retrying works -----

  /** The call or its answer was lost for a reason worth retrying, and the caller is still there. */
  predicate Glitch(a: Attempt) {
    !a.expires && !a.delivery.Delivered? && a.delivery.retryable && !a.cancelled
  }

  /** The debit has been made already, or can still be made. */
  predicate Payable(l: Ledger, entry: Entry) {
    var found := Find(l.entries, entry.key);
    if found.Some? then found.value == entry else entry.lease < |l.leases| && l.leases[entry.lease].Active?
  }

  lemma {:induction false} FindAppended(entries: seq<Entry>, e: Entry)
    requires Find(entries, e.key).None?
    ensures Find(entries + [e], e.key) == Some(e)
  {
    if entries != [] {
      assert (entries + [e])[1..] == entries[1..] + [e];
      FindAppended(entries[1..], e);
    }
  }

  lemma {:induction false} LoopRecovers(l: Ledger, entry: Entry, script: nat -> Attempt, attempt: nat, good: nat, attempts: nat, last: RunError)
    requires Payable(l, entry) && attempt <= good < attempts
    requires forall k: nat | attempt <= k < good :: Glitch(script(k))
    requires script(good).delivery.Delivered? && !script(good).expires
    ensures SettleLoop(l, entry, script, attempt, attempts, last).outcome == Success(entry)
    decreases good - attempt
  {
    var (after, reply) := Settle(l, entry, script(attempt));
    if attempt < good {
      assert Glitch(script(attempt));
      if Find(l.entries, entry.key).None? { FindAppended(l.entries, entry); }
      assert Payable(after, entry);
      LoopRecovers(after, entry, script, attempt + 1, good, attempts, reply.error);
    }
  }

  /** While the lease lasts, any number of lost calls and lost answers short of the attempts is
      ridden out: the run succeeds, and by the lemma above with one debit. */
  lemma RunRecovers(l: Ledger, o: Options, s: Script, good: nat)
    requires Begun(l, o, s).2.Success? && !o.workFails && o.actual >= 0.0
    requires Payable(Begun(l, o, s).0, DebitOf(o, Begun(l, o, s).2.value))
    requires good < Attempts(o.settlementAttempts)
    requires forall k: nat | k < good :: Glitch(s.settle(k))
    requires s.settle(good).delivery.Delivered? && !s.settle(good).expires
    ensures RunSpec(l, o, s).outcome == Success(DebitOf(o, Begun(l, o, s).2.value))
  {
    var (begun, calls, lease) := Begun(l, o, s);
    assert ScopedKey(o.operationKey, "reserve").Some?;
    DebitKey(o);
    hide Begun, ScopedKey, Trim, RoundScaled, SettleLoop, Payable, Glitch;
    LoopRecovers(begun, DebitOf(o, lease.value), s.settle, 0, good, Attempts(o.settlementAttempts), InvalidRequest);
  }

  // ----- Runs repeated after crashes -----

  function Runs(l: Ledger, work: seq<(Options, Script)>): Ledger
    decreases |work|
  {
    if work == [] then l
    else Runs(RunSpec(l, work[0].0, work[0].1).ledger, work[1..])
  }

  /** However often operations are begun again, each settle key is debited at most once, and what
      has been debited stays. */
  lemma {:induction false} RepeatedRunsDebitOnce(l: Ledger, work: seq<(Options, Script)>)
    requires Valid(l)
    ensures Valid(Runs(l, work)) && l.entries <= Runs(l, work).entries
    decreases |work|
  {
    if work != [] {
      var next := RunSpec(l, work[0].0, work[0].1).ledger;
      RunDebitsAtMostOnce(l, work[0].0, work[0].1);
      hide RunSpec, Valid;
      RepeatedRunsDebitOnce(next, work[1..]);
    }
  }

  // ----- Runs interleaved with each other -----

  /** Where one run stands. */
  datatype Stage = Ready | Holding | Settling(attempt: nat) | Ended(outcome: Outcome) | Crashed

  /** A run: what it was asked for, the lease it holds or held, and where it stands. */
  datatype Process = Process(options: Options, lease: Option<nat>, stage: Stage)

  /** One ledger, any number of runs, and for every ledger entry the run that made it. */
  datatype World = World(ledger: Ledger, processes: seq<Process>, madeBy: seq<nat>)

  datatype Action =
    | Start(options: Options)
    | ReserveStep(run: nat, admitted: bool, delivery: Delivery)
    | WorkStep(run: nat, release: Delivery)
    | SettleStep(run: nat, attempt: Attempt)
    | Crash(run: nat)
    | ExpireLease(lease: nat)

  const START := World(Ledger([], [], map[]), [], [])

  function WithStage(w: World, i: nat, stage: Stage): seq<Process>
    requires i < |w.processes|
  {
    w.processes[i := w.processes[i].(stage := stage)]
  }

  /** What a run does after one settlement answer, as in its retry loop. */
  function AfterSettling(o: Options, attempt: nat, cancelled: bool, reply: Outcome): Stage {
    if reply.Success? || !Retryable(reply.error) || cancelled || attempt + 1 >= Attempts(o.settlementAttempts) then Ended(reply)
    else Settling(attempt + 1)
  }

  /** One call of one run, or a crash, or a lease running out; an action that is not enabled changes
      nothing. */
  function Step(w: World, a: Action): World {
    match a
    case Start(options) => w.(processes := w.processes + [Process(options, None, Ready)])
    case ReserveStep(i, admitted, delivery) =>
      if i >= |w.processes| || !w.processes[i].stage.Ready? then w
      else
        var o := w.processes[i].options;
        if Attempts(o.settlementAttempts) < 1 then w.(processes := WithStage(w, i, Ended(Failure(InvalidRequest))))
        else
          var (ledger, _, lease) := Begun(w.ledger, o, Script(admitted, delivery, Delivered, _ => Attempt(false, Delivered, false)));
          if lease.Failure? then World(ledger, WithStage(w, i, Ended(Failure(lease.error))), w.madeBy)
          else World(ledger, w.processes[i := Process(o, Some(lease.value), Holding)], w.madeBy)
    case WorkStep(i, release) =>
      if i >= |w.processes| || !w.processes[i].stage.Holding? || w.processes[i].lease.None? then w
      else if !w.processes[i].options.workFails then w.(processes := WithStage(w, i, Settling(0)))
      else
        World(if release.LostBefore? then w.ledger else WithLease(w.ledger, w.processes[i].lease.value, Released),
              WithStage(w, i, Ended(Failure(WorkFailed))), w.madeBy)
    case SettleStep(i, attempt) =>
      if i >= |w.processes| || !w.processes[i].stage.Settling? || w.processes[i].lease.None? then w
      else
        var o := w.processes[i].options;
        var key := ScopedKey(o.operationKey, "settle");
        if key.None? || o.actual < 0.0 then w.(processes := WithStage(w, i, Ended(Failure(InvalidRequest))))
        else
          var (ledger, reply) := Settle(w.ledger, Entry(key.value, w.processes[i].lease.value, QuantizeMoney(o.actual)), attempt);
          World(ledger,
                WithStage(w, i, AfterSettling(o, w.processes[i].stage.attempt, attempt.cancelled, reply)),
                if |ledger.entries| > |w.ledger.entries| then w.madeBy + [i] else w.madeBy)
    case Crash(i) => if i < |w.processes| then w.(processes := WithStage(w, i, Crashed)) else w
    case ExpireLease(lease) => w.(ledger := WithLease(w.ledger, lease, Expired))
  }

  function Interleaved(actions: seq<Action>): World {
    if actions == [] then START else Step(Interleaved(actions[..|actions| - 1]), actions[|actions| - 1])
  }

  /** A run with a lease could form its keys; one that is settling or has settled had its work
      succeed; a success is in the ledger. */
  ghost predicate ProcessFits(l: Ledger, p: Process) {
    && (p.lease.Some? ==> ScopedKey(p.options.operationKey, "reserve").Some?)
    && (p.stage.Ready? ==> p.lease.None?)
    && (p.stage.Settling? ==> p.lease.Some? && !p.options.workFails)
    && (p.stage.Ended? && p.stage.outcome.Success? ==>
          p.lease.Some? && p.stage.outcome.value == DebitOf(p.options, p.lease.value) && p.stage.outcome.value in l.entries)
  }

  /** An entry is the debit of the run that made it, whose work succeeded. */
  ghost predicate EntryFits(w: World, e: nat)
    requires e < |w.ledger.entries| && |w.madeBy| == |w.ledger.entries|
  {
    var i := w.madeBy[e];
    && i < |w.processes| && w.processes[i].lease.Some? && !w.processes[i].options.workFails
    && w.ledger.entries[e] == DebitOf(w.processes[i].options, w.processes[i].lease.value)
  }

  ghost predicate Sound(w: World) {
    && Valid(w.ledger) && |w.madeBy| == |w.ledger.entries|
    && (forall i | 0 <= i < |w.processes| :: ProcessFits(w.ledger, w.processes[i]))
    && forall e | 0 <= e < |w.ledger.entries| :: EntryFits(w, e)
  }

  /** A step that makes no entry, and leaves leases and options of the runs that made some. */
  lemma QuietStep(w: World, next: World)
    requires Sound(w) && Valid(next.ledger)
    requires next.ledger.entries == w.ledger.entries && next.madeBy == w.madeBy && |next.processes| >= |w.processes|
    requires forall i | 0 <= i < |w.processes| :: next.processes[i].options == w.processes[i].options
    requires forall i | 0 <= i < |w.processes| && w.processes[i].lease.Some? :: next.processes[i].lease == w.processes[i].lease
    requires forall i | 0 <= i < |next.processes| ::
      (i < |w.processes| && next.processes[i] == w.processes[i]) || ProcessFits(next.ledger, next.processes[i])
    ensures Sound(next)
  {
    forall i | 0 <= i < |next.processes| ensures ProcessFits(next.ledger, next.processes[i]) {
      if i < |w.processes| { assert ProcessFits(w.ledger, w.processes[i]); }
    }
    forall e | 0 <= e < |next.ledger.entries| ensures EntryFits(next, e) { assert EntryFits(w, e); }
  }

  lemma ReserveSound(w: World, i: nat, admitted: bool, delivery: Delivery)
    requires Sound(w) && i < |w.processes| && w.processes[i].stage.Ready?
    ensures Sound(Step(w, ReserveStep(i, admitted, delivery)))
  {
    var o := w.processes[i].options;
    var s := Script(admitted, delivery, Delivered, _ => Attempt(false, Delivered, false));
    assert ProcessFits(w.ledger, w.processes[i]);
    BeginKeeps(w.ledger, o, s);
    hide Begun, ScopedKey;
    QuietStep(w, Step(w, ReserveStep(i, admitted, delivery)));
  }

  lemma WorkSound(w: World, i: nat, release: Delivery)
    requires Sound(w) && i < |w.processes| && w.processes[i].stage.Holding? && w.processes[i].lease.Some?
    ensures Sound(Step(w, WorkStep(i, release)))
  {
    assert ProcessFits(w.ledger, w.processes[i]);
    hide ScopedKey;
    QuietStep(w, Step(w, WorkStep(i, release)));
  }

  lemma SettleSound(w: World, i: nat, attempt: Attempt)
    requires Sound(w) && i < |w.processes| && w.processes[i].stage.Settling? && w.processes[i].lease.Some?
    ensures Sound(Step(w, SettleStep(i, attempt)))
  {
    var p := w.processes[i];
    var o := p.options;
    assert ProcessFits(w.ledger, p);
    DebitKey(o);
    var next := Step(w, SettleStep(i, attempt));
    if o.actual < 0.0 {
      hide ScopedKey, Valid;
      QuietStep(w, next);
    } else {
      var entry := DebitOf(o, p.lease.value);
      SettleKeeps(w.ledger, entry, attempt);
      var (ledger, reply) := Settle(w.ledger, entry, attempt);
      assert next.ledger == ledger;
      hide Settle, ScopedKey, Valid, Trim, RoundScaled;
      forall j | 0 <= j < |next.processes| ensures ProcessFits(next.ledger, next.processes[j]) {
        assert ProcessFits(w.ledger, w.processes[j]);
      }
      forall e | 0 <= e < |next.ledger.entries| ensures EntryFits(next, e) {
        if e < |w.ledger.entries| { assert EntryFits(w, e); }
      }
    }
  }

  lemma StepSound(w: World, a: Action)
    requires Sound(w)
    ensures Sound(Step(w, a))
  {
    match a {
      case Start(options) =>
        hide ScopedKey;
        QuietStep(w, Step(w, a));
      case ReserveStep(i, admitted, delivery) =>
        if i < |w.processes| && w.processes[i].stage.Ready? { ReserveSound(w, i, admitted, delivery); }
      case WorkStep(i, release) =>
        if i < |w.processes| && w.processes[i].stage.Holding? && w.processes[i].lease.Some? { WorkSound(w, i, release); }
      case SettleStep(i, attempt) =>
        if i < |w.processes| && w.processes[i].stage.Settling? && w.processes[i].lease.Some? { SettleSound(w, i, attempt); }
      case Crash(i) =>
        hide ScopedKey;
        if i < |w.processes| {
          assert ProcessFits(w.ledger, w.processes[i]);
          QuietStep(w, Step(w, a));
        }
      case ExpireLease(lease) =>
        hide ScopedKey;
        QuietStep(w, Step(w, a));
    }
  }

  lemma {:induction false} InterleavedSound(actions: seq<Action>)
    ensures Sound(Interleaved(actions))
  {
    if actions != [] {
      hide Step, Sound;
      InterleavedSound(actions[..|actions| - 1]);
      StepSound(Interleaved(actions[..|actions| - 1]), actions[|actions| - 1]);
    }
  }

  /** However runs interleave, lose calls and answers, crash, and share operation keys: each settle
      key is debited at most once. */
  lemma InterleavedDebitOnce(actions: seq<Action>, d: nat, e: nat)
    ensures var entries := Interleaved(actions).ledger.entries;
            d < |entries| && e < |entries| && entries[d].key == entries[e].key ==> d == e
  {
    InterleavedSound(actions);
  }

  /** Every debit is the quantised actual amount of a run whose work succeeded, for the lease it
      reserved, under its settle key; and no run makes two. */
  lemma InterleavedDebitsAreOwed(actions: seq<Action>, d: nat, e: nat)
    ensures var w := Interleaved(actions);
            d < |w.ledger.entries| ==>
              && d < |w.madeBy| && w.madeBy[d] < |w.processes|
              && var p := w.processes[w.madeBy[d]];
                 && !p.options.workFails && p.lease.Some?
                 && w.ledger.entries[d] == DebitOf(p.options, p.lease.value)
                 && (e < |w.ledger.entries| && e < |w.madeBy| && w.madeBy[e] == w.madeBy[d] ==> d == e)
  {
    InterleavedSound(actions);
    var w := Interleaved(actions);
    hide Interleaved;
    if d < |w.ledger.entries| {
      assert EntryFits(w, d);
      if e < |w.ledger.entries| { assert EntryFits(w, e); }
    }
  }

  /** A run that succeeded has its debit in the ledger. */
  lemma InterleavedSuccessIsDebited(actions: seq<Action>, i: nat)
    ensures var w := Interleaved(actions);
            i < |w.processes| && w.processes[i].stage.Ended? && w.processes[i].stage.outcome.Success? ==>
              && w.processes[i].lease.Some?
              && w.processes[i].stage.outcome.value == DebitOf(w.processes[i].options, w.processes[i].lease.value)
              && w.processes[i].stage.outcome.value in w.ledger.entries
  {
    InterleavedSound(actions);
    var w := Interleaved(actions);
    hide Interleaved, DebitOf, ScopedKey;
    if i < |w.processes| { assert ProcessFits(w.ledger, w.processes[i]); }
  }

  // ----- A negative amount -----

  /** Work that reports a negative amount: nothing reaches the store after the reservation, no debit
      is made, and an active lease stays active, to be ended by its expiry. */
  lemma NegativeActualKeepsLease(l: Ledger, o: Options, s: Script)
    requires o.actual < 0.0 && !o.workFails && Attempts(o.settlementAttempts) >= 1 && Begun(l, o, s).2.Success?
    ensures var run := RunSpec(l, o, s);
            var (begun, calls, lease) := Begun(l, o, s);
            run == Run(begun, calls, Failure(InvalidRequest)) && run.ledger.entries == l.entries && |calls| == 1
  {
    hide ScopedKey;
  }

  predicate MakesSettlement(calls: seq<StoreCall>) {
    exists call | call in calls :: call.SettleCall?
  }

  /** Once a run holds its lease and its work has succeeded, it asks the store to settle exactly if
      the amount is not negative. */
  lemma SettlesIffNotNegative(l: Ledger, o: Options, s: Script)
    requires !o.workFails && Attempts(o.settlementAttempts) >= 1 && Begun(l, o, s).2.Success?
    ensures MakesSettlement(RunSpec(l, o, s).calls) <==> o.actual >= 0.0
  {
    var (begun, calls, lease) := Begun(l, o, s);
    var run := RunSpec(l, o, s);
    if o.actual < 0.0 {
      NegativeActualKeepsLease(l, o, s);
      assert calls[0].ReserveCall?;
    } else {
      DebitKey(o);
      hide ScopedKey, Begun, Settle;
      assert run.calls[|calls|] == SettleCall(DebitOf(o, lease.value));
      assert run.calls[|calls|] in run.calls;
    }
  }

  /** Such a run: one credit reserved, minus one reported, the new lease left active. */
  lemma NegativeActualExample()
    ensures var o := Options("job", 1.0, true, 0, false, -1.0);
            var s := Script(true, Delivered, Delivered, _ => Attempt(false, Delivered, false));
            var run := RunSpec(Ledger([], [], map[]), o, s);
            run.outcome == Failure(InvalidRequest) && run.ledger.entries == [] && run.ledger.leases == [Active]
  {
    var o := Options("job", 1.0, true, 0, false, -1.0);
    var s := Script(true, Delivered, Delivered, _ => Attempt(false, Delivered, false));
    AlreadyTrimmed("job");
    AsciiLength("job");
    ScopedKeyIs("job", "reserve");
    hide ScopedKey, Trim, ByteLength;
    assert Begun(Ledger([], [], map[]), o, s).2 == Success(0);
    NegativeActualKeepsLease(Ledger([], [], map[]), o, s);
  }

  // ----- Which operations begin, and when retrying ends -----

  /** An operation gets its lease exactly if its trimmed key is not empty and fits with ":reserve" into
      255 bytes, its estimate is not negative, its settings are valid, the reserving call is answered,
      and the store has a reservation under that key or admits one. */
  lemma BeginsIff(l: Ledger, o: Options, s: Script)
    ensures var key := Trim(o.operationKey);
            Begun(l, o, s).2.Success? <==>
              && key != "" && ByteLength(key) + 8 <= 255
              && o.estimate >= 0.0 && o.settingsValid && s.reserve.Delivered?
              && (key + ":reserve" in l.reservations || s.admitted)
  {
    hide ScopedKey, Trim, ByteLength;
    ScopedKeyIs(o.operationKey, "reserve");
    var key := Trim(o.operationKey);
    assert key + ":" + "reserve" == key + ":reserve";
  }

  /** What becomes of a settlement whose first attempts are lost and worth retrying and whose k-th is lost
      and not worth it, or cancelled: it is the last, and its loss is what the caller sees. */
  lemma {:induction false} LoopGivesUp(l: Ledger, entry: Entry, script: nat -> Attempt, attempt: nat, last: nat, attempts: nat, error: RunError)
    requires attempt <= last < attempts
    requires forall i | attempt <= i < last :: !script(i).cancelled && script(i).delivery.LostBefore? && script(i).delivery.retryable
    requires script(last).delivery.LostBefore? && (!script(last).delivery.retryable || script(last).cancelled || last + 1 == attempts)
    ensures var run := SettleLoop(l, entry, script, attempt, attempts, error);
            && |run.calls| == last + 1 - attempt
            && run.outcome == Failure(Transport(script(last).delivery.retryable))
    decreases last - attempt
  {
    var (after, reply) := Settle(l, entry, script(attempt));
    assert reply == Failure(Transport(script(attempt).delivery.retryable));
    hide Settle;
    if attempt < last {
      LoopGivesUp(after, entry, script, attempt + 1, last, attempts, reply.error);
    }
  }

  /** How often a run tries, when nothing arrives: as often as it is asked to, three times if it is not
      asked, and no more once an attempt is not worth retrying or the caller is cancelled. */
  lemma RunGivesUp(l: Ledger, o: Options, s: Script, last: nat)
    requires !o.workFails && o.actual >= 0.0 && Begun(l, o, s).2.Success?
    requires var attempts := if o.settlementAttempts == 0 then 3 else o.settlementAttempts;
             && last < attempts
             && (forall i | 0 <= i < last :: !s.settle(i).cancelled && s.settle(i).delivery.LostBefore? && s.settle(i).delivery.retryable)
             && s.settle(last).delivery.LostBefore?
             && (!s.settle(last).delivery.retryable || s.settle(last).cancelled || last + 1 == attempts)
    ensures var run := RunSpec(l, o, s);
            && |run.calls| == 1 + (last + 1)
            && run.outcome == Failure(Transport(s.settle(last).delivery.retryable))
  {
    var (begun, calls, lease) := Begun(l, o, s);
    DebitKey(o);
    LoopGivesUp(begun, DebitOf(o, lease.value), s.settle, 0, last, Attempts(o.settlementAttempts), InvalidRequest);
    assert |calls| == 1;
    hide ScopedKey, Begun, SettleLoop;
  }

  /** A run asked for fewer than no attempts is refused before anything reaches the store, alone or among
      others. */
  lemma NegativeAttemptsAreRefused(l: Ledger, o: Options, s: Script, w: World, i: nat)
    requires o.settlementAttempts < 0
    ensures RunSpec(l, o, s) == Run(l, [], Failure(InvalidRequest))
    ensures i < |w.processes| && w.processes[i] == Process(o, None, Ready) ==>
              var next := Step(w, ReserveStep(i, s.admitted, s.reserve));
              next.ledger == w.ledger && next.processes == w.processes[i := Process(o, None, Ended(Failure(InvalidRequest)))]
  {
    hide Begun;
  }

  // ----- Leases -----

  /** A debit has settled its lease, no two debits share one, and no two keys reserved one. */
  ghost predicate Spent(l: Ledger) {
    && (forall e | 0 <= e < |l.entries| :: SpendsItsLease(l, l.entries[e]))
    && (forall d, e | 0 <= d < e < |l.entries| :: l.entries[d].lease != l.entries[e].lease)
    && Apart(l)
  }

  predicate SpendsItsLease(l: Ledger, e: Entry) {
    e.lease < |l.leases| && l.leases[e.lease].Settled?
  }

  ghost predicate Apart(l: Ledger) {
    && (forall key | key in l.reservations :: l.reservations[key] < |l.leases|)
    && forall key, other | key in l.reservations && other in l.reservations && l.reservations[key] == l.reservations[other] ::
         key == other
  }

  /** The lease of a run is the one reserved under its key. */
  ghost predicate Leased(w: World) {
    forall i | 0 <= i < |w.processes| && w.processes[i].lease.Some? :: LeaseOf(w.ledger, w.processes[i])
  }

  ghost predicate LeaseOf(l: Ledger, p: Process)
    requires p.lease.Some?
  {
    var key := ScopedKey(p.options.operationKey, "reserve");
    key.Some? && key.value in l.reservations && l.reservations[key.value] == p.lease.value
  }

  lemma SettleSpends(l: Ledger, entry: Entry, attempt: Attempt)
    requires Spent(l)
    ensures Spent(Settle(l, entry, attempt).0) && Settle(l, entry, attempt).0.reservations == l.reservations
  {
    var now := if attempt.expires then WithLease(l, entry.lease, Expired) else l;
    EndingSpends(l, entry.lease, Expired);
    CommitSpends(now, entry);
    hide WithLease, Committed, Spent;
  }

  lemma EndingSpends(l: Ledger, lease: nat, status: LeaseStatus)
    requires Spent(l)
    ensures Spent(WithLease(l, lease, status)) && WithLease(l, lease, status).reservations == l.reservations
  {
    var ended := WithLease(l, lease, status);
    forall e | 0 <= e < |ended.entries| ensures SpendsItsLease(ended, ended.entries[e]) {
      assert SpendsItsLease(l, l.entries[e]);
    }
  }

  lemma CommitSpends(l: Ledger, entry: Entry)
    requires Spent(l)
    ensures Spent(Committed(l, entry).0) && Committed(l, entry).0.reservations == l.reservations
  {
    var after := Committed(l, entry).0;
    hide Find;
    forall e | 0 <= e < |after.entries| ensures SpendsItsLease(after, after.entries[e]) {
      if e < |l.entries| { assert SpendsItsLease(l, l.entries[e]); }
    }
    forall d, e | 0 <= d < e < |after.entries| ensures after.entries[d].lease != after.entries[e].lease {
      assert SpendsItsLease(l, l.entries[d]);
    }
  }

  lemma BeginSpends(l: Ledger, o: Options, s: Script)
    requires Spent(l)
    ensures var (after, calls, lease) := Begun(l, o, s);
            && Spent(after)
            && (forall key | key in l.reservations :: key in after.reservations && after.reservations[key] == l.reservations[key])
            && (lease.Success? ==> LeaseOf(after, Process(o, Some(lease.value), Holding)))
  {
    hide ScopedKey;
    var after := Begun(l, o, s).0;
    assert after.entries == l.entries && |after.leases| >= |l.leases| && after.leases[..|l.leases|] == l.leases;
    forall e | 0 <= e < |after.entries| ensures SpendsItsLease(after, after.entries[e]) {
      assert SpendsItsLease(l, l.entries[e]);
      assert after.leases[..|l.leases|][l.entries[e].lease] == l.leases[l.entries[e].lease];
    }
  }

  /** Reservations that stay keep every run its lease. */
  lemma LeasedStays(w: World, next: World)
    requires Leased(w)
    requires forall key | key in w.ledger.reservations ::
      key in next.ledger.reservations && next.ledger.reservations[key] == w.ledger.reservations[key]
    requires forall i | 0 <= i < |next.processes| && next.processes[i].lease.Some? ::
      || LeaseOf(next.ledger, next.processes[i])
      || (i < |w.processes| && next.processes[i].lease == w.processes[i].lease && next.processes[i].options == w.processes[i].options)
    ensures Leased(next)
  {
    hide ScopedKey;
    forall i | 0 <= i < |next.processes| && next.processes[i].lease.Some? ensures LeaseOf(next.ledger, next.processes[i]) {
      if i < |w.processes| && w.processes[i].lease.Some? { assert LeaseOf(w.ledger, w.processes[i]); }
    }
  }

  lemma StepSpends(w: World, a: Action)
    requires Spent(w.ledger) && Leased(w)
    ensures Spent(Step(w, a).ledger) && Leased(Step(w, a))
  {
    hide ScopedKey, Spent, Leased, LeaseOf, Settle, Begun, WithLease, RoundScaled, AfterSettling;
    var next := Step(w, a);
    match a {
      case Start(options) => LeasedStays(w, next);
      case ReserveStep(i, admitted, delivery) =>
        if i < |w.processes| {
          BeginSpends(w.ledger, w.processes[i].options, Script(admitted, delivery, Delivered, _ => Attempt(false, Delivered, false)));
          ReserveLeases(w, i, admitted, delivery);
        }
      case WorkStep(i, release) =>
        if i < |w.processes| && w.processes[i].lease.Some? { EndingSpends(w.ledger, w.processes[i].lease.value, Released); }
        LeasedStays(w, next);
      case SettleStep(i, attempt) =>
        if i < |w.processes| && w.processes[i].lease.Some? {
          var key := ScopedKey(w.processes[i].options.operationKey, "settle");
          if key.Some? {
            SettleSpends(w.ledger, Entry(key.value, w.processes[i].lease.value, QuantizeMoney(w.processes[i].options.actual)), attempt);
          }
        }
        LeasedStays(w, next);
      case Crash(i) => LeasedStays(w, next);
      case ExpireLease(lease) =>
        EndingSpends(w.ledger, lease, Expired);
        LeasedStays(w, next);
    }
  }

  lemma ReserveLeases(w: World, i: nat, admitted: bool, delivery: Delivery)
    requires Spent(w.ledger) && Leased(w) && i < |w.processes|
    ensures Leased(Step(w, ReserveStep(i, admitted, delivery)))
  {
    var o := w.processes[i].options;
    var s := Script(admitted, delivery, Delivered, _ => Attempt(false, Delivered, false));
    BeginSpends(w.ledger, o, s);
    hide ScopedKey, Spent, Leased, Begun;
    LeasedStays(w, Step(w, ReserveStep(i, admitted, delivery)));
  }

  lemma {:induction false} InterleavedSpends(actions: seq<Action>)
    ensures Spent(Interleaved(actions).ledger) && Leased(Interleaved(actions))
  {
    if actions != [] {
      hide Step, Spent, Leased;
      InterleavedSpends(actions[..|actions| - 1]);
      StepSpends(Interleaved(actions[..|actions| - 1]), actions[|actions| - 1]);
    }
  }

  /** In every interleaving a lease is debited at most once, and is settled from then on. */
  lemma InterleavedLeaseDebitOnce(actions: seq<Action>, d: nat, e: nat)
    ensures var l := Interleaved(actions).ledger;
            d < |l.entries| ==>
              && l.entries[d].lease < |l.leases| && l.leases[l.entries[d].lease] == Settled
              && (e < |l.entries| && l.entries[e].lease == l.entries[d].lease ==> d == e)
  {
    InterleavedSpends(actions);
  }

  /** Two runs hold the same lease exactly if they were begun under the same operation key. */
  lemma SharedLeaseIff(actions: seq<Action>, i: nat, j: nat)
    ensures var w := Interleaved(actions);
            i < |w.processes| && j < |w.processes| && w.processes[i].lease.Some? && w.processes[j].lease.Some? ==>
              (w.processes[i].lease == w.processes[j].lease <==>
                 Trim(w.processes[i].options.operationKey) == Trim(w.processes[j].options.operationKey))
  {
    InterleavedSpends(actions);
    var w := Interleaved(actions);
    hide Interleaved;
    if i < |w.processes| && j < |w.processes| && w.processes[i].lease.Some? && w.processes[j].lease.Some? {
      var a, b := w.processes[i].options.operationKey, w.processes[j].options.operationKey;
      assert LeaseOf(w.ledger, w.processes[i]) && LeaseOf(w.ledger, w.processes[j]);
      ScopedKeyIs(a, "reserve");
      ScopedKeyIs(b, "reserve");
      hide Trim, ByteLength, ScopedKey;
      var k, m := Trim(a) + ":" + "reserve", Trim(b) + ":" + "reserve";
      assert k[..|k| - 8] == Trim(a) && m[..|m| - 8] == Trim(b);
    }
  }

  /** A lease that has run out, or is no longer active, is not debited. */
  lemma ExpiredIsRefused(l: Ledger, entry: Entry, attempt: Attempt)
    requires forall e | e in l.entries :: e.key != entry.key
    requires attempt.expires || entry.lease >= |l.leases| || !l.leases[entry.lease].Active?
    ensures var (after, reply) := Settle(l, entry, attempt);
            && after.entries == l.entries && reply.Failure?
            && (attempt.delivery.Delivered? ==> reply == Failure(Refused))
            && (attempt.expires && entry.lease < |l.leases| ==> !after.leases[entry.lease].Active?)
  {
  }

  // ----- A run left alone -----

  /** The settlement steps of one run, its attempts from one number on answered as the script says. */
  function Alone(w: World, i: nat, script: nat -> Attempt, attempt: nat, attempts: nat): World
    decreases attempts - attempt
  {
    if attempt >= attempts then w else Alone(Step(w, SettleStep(i, script(attempt))), i, script, attempt + 1, attempts)
  }

  lemma {:induction false} EndedStays(w: World, i: nat, script: nat -> Attempt, attempt: nat, attempts: nat)
    requires i < |w.processes| && w.processes[i].stage.Ended?
    ensures Alone(w, i, script, attempt, attempts) == w
    decreases attempts - attempt
  {
    if attempt < attempts { EndedStays(w, i, script, attempt + 1, attempts); }
  }

  lemma OneSettlement(w: World, i: nat, attempt: Attempt)
    requires i < |w.processes| && w.processes[i].stage.Settling? && w.processes[i].lease.Some?
    requires ScopedKey(w.processes[i].options.operationKey, "reserve").Some? && w.processes[i].options.actual >= 0.0
    ensures var p, next := w.processes[i], Step(w, SettleStep(i, attempt));
            var (after, reply) := Settle(w.ledger, DebitOf(p.options, p.lease.value), attempt);
            && next.ledger == after && |next.processes| == |w.processes|
            && next.processes[i] == p.(stage := AfterSettling(p.options, p.stage.attempt, attempt.cancelled, reply))
  {
    DebitKey(w.processes[i].options);
    hide ScopedKey, Trim, RoundScaled, Settle, AfterSettling;
  }

  /** The retry loop stops with an answer that ends it or came last, and else goes on from there. */
  lemma LoopUnfolds(l: Ledger, entry: Entry, script: nat -> Attempt, attempt: nat, attempts: nat, last: RunError)
    requires attempt < attempts
    ensures var (after, reply) := Settle(l, entry, script(attempt));
            var loop := SettleLoop(l, entry, script, attempt, attempts, last);
            if reply.Success? || !Retryable(reply.error) || script(attempt).cancelled || attempt + 1 >= attempts
            then loop.ledger == after && loop.outcome == reply
            else var rest := SettleLoop(after, entry, script, attempt + 1, attempts, reply.error);
                 loop.ledger == rest.ledger && loop.outcome == rest.outcome
  {
    hide Settle;
  }

  /** Step by step, a run that nobody disturbs does what its retry loop does: the same ledger, and the
      same outcome after as many attempts. */
  lemma {:induction false} AloneIsTheLoop(w: World, i: nat, script: nat -> Attempt, attempt: nat, last: RunError)
    requires i < |w.processes| && w.processes[i].stage == Settling(attempt) && w.processes[i].lease.Some?
    requires ScopedKey(w.processes[i].options.operationKey, "reserve").Some? && w.processes[i].options.actual >= 0.0
    requires attempt < Attempts(w.processes[i].options.settlementAttempts)
    ensures var o := w.processes[i].options;
            var attempts := Attempts(o.settlementAttempts);
            var loop := SettleLoop(w.ledger, DebitOf(o, w.processes[i].lease.value), script, attempt, attempts, last);
            var end := Alone(w, i, script, attempt, attempts);
            end.ledger == loop.ledger && |end.processes| == |w.processes| && end.processes[i].stage == Ended(loop.outcome)
    decreases Attempts(w.processes[i].options.settlementAttempts) - attempt
  {
    var o := w.processes[i].options;
    var attempts := Attempts(o.settlementAttempts);
    var entry := DebitOf(o, w.processes[i].lease.value);
    var (after, reply) := Settle(w.ledger, entry, script(attempt));
    var next := Step(w, SettleStep(i, script(attempt)));
    OneSettlement(w, i, script(attempt));
    LoopUnfolds(w.ledger, entry, script, attempt, attempts, last);
    hide ScopedKey, Settle, Step, DebitOf, SettleLoop;
    if next.processes[i].stage.Ended? {
      EndedStays(next, i, script, attempt + 1, attempts);
    } else {
      AloneIsTheLoop(next, i, script, attempt + 1, reply.error);
    }
  }
}
