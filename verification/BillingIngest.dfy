/** Ingestion of one billing event that may be delivered many times, by workers that crash, lose
    replies and outlive their claims. */
module BillingIngest {
  import opened Blanks
  import opened Decimals

  // ----- The claim store, for one event -----

  datatype Claim = Unclaimed | Held(token: nat) | Completed

  /** The claim and how many tokens have been granted; each grant uses a new token. */
  datatype Store = Store(claim: Claim, granted: nat)

  datatype ClaimReply = Granted(token: nat) | Duplicate | Busy | Rejected

  function ClaimEvent(s: Store, rejected: bool): (Store, ClaimReply) {
    if rejected then (s, Rejected)
    else
      match s.claim
      case Unclaimed => (Store(Held(s.granted), s.granted + 1), Granted(s.granted))
      case Held(_) => (s, Busy)
      case Completed => (s, Duplicate)
  }

  /** Completing takes effect only for the token that holds the claim now. */
  function CompleteEvent(s: Store, token: nat): (Store, bool) {
    if s.claim == Held(token) then (s.(claim := Completed), true) else (s, false)
  }

  /** Failing releases the claim, again only for the token that holds it now. */
  function FailEvent(s: Store, token: nat): (Store, bool) {
    if s.claim == Held(token) then (s.(claim := Unclaimed), true) else (s, false)
  }

  function Expire(s: Store): Store {
    if s.claim.Held? then s.(claim := Unclaimed) else s
  }

  /** What becomes of a call: it arrives and answers, never arrives, or takes effect and its
      answer is lost. */
  datatype Delivery = Delivered | LostBefore | LostAfter

  datatype CloseReply = NoReply | Said(ok: bool)

  // ----- What a worker makes of a claimed event -----

  datatype Event = Event(kind: string, wellFormed: bool, lifecycle: bool, checkoutIntent: string)

  datatype EventResult = EventResult(handled: bool, duplicate: bool, retryable: bool, ignored: bool, account: string)

  datatype Cause = ResolverFailed | HandlerFailed | ProcessorFailed | NotProcessed | IntentUpdateFailed | NoHandler

  datatype IngestError =
    | InvalidEvent | ClaimFailed | EventRejected
    | CompleteFailed | CompletionLost | FailFailed | FailureLost | Handling(cause: Cause)

  type Outcome = Result<EventResult, IngestError>

  const BLANK_RESULT := EventResult(false, false, false, false, "")

  /** What the parts outside the service answer while the event is handled; `handler` says which
      of the registered handlers succeed. */
  datatype Answers = Answers(
    account: Option<string>,
    handler: nat -> bool,
    configured: Option<EventResult>,
    processor: Option<EventResult>,
    intentUpdate: bool)

  /** What the store can do beyond claims. */
  datatype Abilities = Abilities(resolver: bool, configured: bool, processor: bool, intents: bool)

  /** Give up and release the claim, acknowledge an event without effect, or finish. */
  datatype Verdict = GiveUp(cause: Cause) | Acknowledge(account: string) | Finish(result: EventResult, notify: Option<string>)

  function ProcessedVerdict(answer: Option<EventResult>, account: string): Verdict {
    match answer
    case None => GiveUp(ProcessorFailed)
    case Some(r) =>
      if !r.handled then GiveUp(NotProcessed)
      else
        var result := if r.account == "" then r.(account := account) else r;
        Finish(result, if result.ignored then None else Some(result.account))
  }

  function VerdictOn(handler: Option<nat>, can: Abilities, event: Event, answers: Answers): Verdict {
    if can.resolver && answers.account.None? then GiveUp(ResolverFailed)
    else
      var account := if can.resolver then answers.account.value else "";
      if handler.Some? then
        if answers.handler(handler.value) then Finish(BLANK_RESULT.(handled := true, account := account), Some(account)) else GiveUp(HandlerFailed)
      else if can.configured && event.lifecycle then ProcessedVerdict(answers.configured, account)
      else if can.processor && event.lifecycle then ProcessedVerdict(answers.processor, account)
      else if event.kind == "checkout.expired" || event.kind == "invoice.upcoming" then
        if event.kind == "checkout.expired" && Trim(event.checkoutIntent) != "" && can.intents && !answers.intentUpdate
        then GiveUp(IntentUpdateFailed)
        else Acknowledge(account)
      else GiveUp(NoHandler)
  }

  /** The one closing call a worker makes, by the verdict. */
  function Close(s: Store, token: nat, verdict: Verdict, delivery: Delivery): (Store, CloseReply) {
    var (after, ok) := if verdict.GiveUp? then FailEvent(s, token) else CompleteEvent(s, token);
    match delivery
    case Delivered => (after, Said(ok))
    case LostBefore => (s, NoReply)
    case LostAfter => (after, NoReply)
  }

  /** What the worker returns, and the account to notify. */
  function Ending(verdict: Verdict, reply: CloseReply): (Outcome, Option<string>) {
    match verdict
    case GiveUp(cause) =>
      (Failure(if reply.NoReply? then FailFailed else if !reply.ok then FailureLost else Handling(cause)), None)
    case Acknowledge(account) =>
      (if reply.NoReply? then Failure(CompleteFailed)
       else Success(BLANK_RESULT.(handled := true, ignored := true, account := account)), None)
    case Finish(result, notify) =>
      if reply.NoReply? then (Failure(CompleteFailed), None)
      else if !reply.ok then (Failure(CompletionLost), None)
      else (Success(result), notify)
  }

  // ----- One ingestion, in the order the service makes its calls -----

  datatype Call = Call(completes: bool, token: nat)

  /** What other workers and the clock do to the claim meanwhile. */
  datatype Meanwhile = ClaimExpires | OtherClaims | OtherCompletes(token: nat) | OtherFails(token: nat)

  function Elapsed(s: Store, others: seq<Meanwhile>): Store
    decreases |others|
  {
    if others == [] then s
    else
      var next := match others[0]
                  case ClaimExpires => Expire(s)
                  case OtherClaims => ClaimEvent(s, false).0
                  case OtherCompletes(token) => CompleteEvent(s, token).0
                  case OtherFails(token) => FailEvent(s, token).0;
      Elapsed(next, others[1..])
  }

  class BillingStore {
    var claim: Claim
    var granted: nat
    var calls: seq<Call>

    constructor ()
      ensures Model() == Store(Unclaimed, 0) && calls == []
    {
      claim, granted, calls := Unclaimed, 0, [];
    }

    ghost function Model(): Store
      reads this
    {
      Store(claim, granted)
    }

    method ClaimBillingEvent(rejected: bool, delivery: Delivery) returns (reply: Option<ClaimReply>)
      modifies `claim, `granted
      ensures var (after, said) := ClaimEvent(old(Model()), rejected);
              && Model() == (if delivery.LostBefore? then old(Model()) else after)
              && reply == if delivery.Delivered? then Some(said) else None
    {
      if delivery.LostBefore? { return None; }
      var said;
      if rejected { said := Rejected; }
      else if claim.Held? { said := Busy; }
      else if claim.Completed? { said := Duplicate; }
      else {
        said := Granted(granted);
        claim := Held(granted);
        granted := granted + 1;
      }
      return if delivery.Delivered? then Some(said) else None;
    }

    method CloseBillingEvent(completes: bool, token: nat, delivery: Delivery) returns (reply: CloseReply)
      modifies `claim, `calls
      ensures calls == old(calls) + [Call(completes, token)]
      ensures forall verdict: Verdict :: verdict.GiveUp? != completes ==> (Model(), reply) == Close(old(Model()), token, verdict, delivery)
    {
      calls := calls + [Call(completes, token)];
      if delivery.LostBefore? { return NoReply; }
      var ok := claim == Held(token);
      if ok { claim := if completes then Completed else Unclaimed; }
      return if delivery.Delivered? then Said(ok) else NoReply;
    }

    method Elapse(others: seq<Meanwhile>)
      modifies `claim, `granted
      ensures Model() == Elapsed(old(Model()), others)
    {
      for i := 0 to |others|
        invariant Elapsed(old(Model()), others) == Elapsed(Model(), others[i..])
      {
        assert others[i..][1..] == others[i + 1..];
        match others[i] {
          case ClaimExpires => if claim.Held? { claim := Unclaimed; }
          case OtherClaims => if claim.Unclaimed? { claim, granted := Held(granted), granted + 1; }
          case OtherCompletes(token) => if claim == Held(token) { claim := Completed; }
          case OtherFails(token) => if claim == Held(token) { claim := Unclaimed; }
        }
      }
    }
  }

  /** Everything one ingestion does: the store, its closing calls, what it returns, and the
      callback it fires with the account. */
  datatype Ingestion = Ingestion(store: Store, calls: seq<Call>, outcome: Outcome, fired: Option<(nat, string)>)

  /** Where things go wrong around the two store calls. */
  datatype Faults = Faults(rejected: bool, claim: Delivery, close: Delivery)

  function Ingested(s: Store, handler: Option<nat>, callback: Option<nat>, can: Abilities, event: Event, answers: Answers,
                    faults: Faults, others: seq<Meanwhile>): Ingestion {
    if !event.wellFormed || !event.lifecycle then Ingestion(s, [], Failure(InvalidEvent), None)
    else
      var (claimed, reply) := ClaimEvent(s, faults.rejected);
      if !faults.claim.Delivered? then
        Ingestion(if faults.claim.LostBefore? then s else claimed, [], Failure(ClaimFailed), None)
      else
        match reply
        case Duplicate => Ingestion(claimed, [], Success(BLANK_RESULT.(handled := true, duplicate := true)), None)
        case Busy => Ingestion(claimed, [], Success(BLANK_RESULT.(retryable := true)), None)
        case Rejected => Ingestion(claimed, [], Failure(EventRejected), None)
        case Granted(token) =>
          Closing(Elapsed(claimed, others), token, VerdictOn(handler, can, event, answers), faults.close, callback)
  }

  /** The end of an ingestion, from the moment the verdict is known. */
  function Closing(s: Store, token: nat, verdict: Verdict, delivery: Delivery, callback: Option<nat>): Ingestion {
    var (closed, said) := Close(s, token, verdict, delivery);
    var (outcome, notify) := Ending(verdict, said);
    Ingestion(closed, [Call(!verdict.GiveUp?, token)], outcome, Firing(callback, notify))
  }

  function Firing(callback: Option<nat>, notify: Option<string>): Option<(nat, string)> {
    if notify.Some? && !IsBlank(notify.value) && callback.Some? then Some((callback.value, notify.value)) else None
  }

  class BillingService {
    var handlers: map<string, nat>
    var callbacks: map<string, nat>
    var defaultHandler: Option<nat>

    constructor ()
      ensures handlers == map[] && callbacks == map[] && defaultHandler == None
    {
      handlers, callbacks, defaultHandler := map[], map[], None;
    }

    /** Registers a handler for one kind, replacing the previous one. */
    method On(kind: string, handler: nat) returns (ok: bool)
      modifies `handlers
      ensures ok <==> !IsBlank(kind)
      ensures handlers == if ok then old(handlers)[kind := handler] else old(handlers)
      ensures forall k :: HandlerFor(k) == if ok && k == kind then Some(handler) else old(HandlerFor(k))
    {
      ok := !IsBlank(kind);
      if ok { handlers := handlers[kind := handler]; }
    }

    method OnEvent(kind: string, callback: nat) returns (ok: bool)
      modifies `callbacks
      ensures ok <==> !IsBlank(kind)
      ensures callbacks == if ok then old(callbacks)[kind := callback] else old(callbacks)
      ensures forall k :: CallbackFor(k) == if ok && k == kind then Some(callback) else old(CallbackFor(k))
    {
      ok := !IsBlank(kind);
      if ok { callbacks := callbacks[kind := callback]; }
    }

    method SetDefaultHandler(handler: Option<nat>)
      modifies `defaultHandler
      ensures defaultHandler == handler
      ensures forall k :: HandlerFor(k) == if k in handlers then old(HandlerFor(k)) else handler
    {
      defaultHandler := handler;
    }

    /** A handler of the event's own kind comes before the default one. */
    ghost function HandlerFor(kind: string): Option<nat>
      reads this
    {
      if kind in handlers then Some(handlers[kind]) else defaultHandler
    }

    ghost function CallbackFor(kind: string): Option<nat>
      reads this
    {
      if kind in callbacks then Some(callbacks[kind]) else None
    }

    method FireEventHandler(kind: string, account: string) returns (fired: Option<(nat, string)>)
      ensures fired == Firing(CallbackFor(kind), Some(account))
    {
      if IsBlank(account) { return None; }
      if kind !in callbacks { return None; }
      return Some((callbacks[kind], account));
    }

    method Fail(store: BillingStore, token: nat, cause: Cause, delivery: Delivery) returns (outcome: Outcome)
      modifies store`claim, store`calls
      ensures store.calls == old(store.calls) + [Call(false, token)]
      ensures forall callback :: Closing(old(store.Model()), token, GiveUp(cause), delivery, callback)
                              == Ingestion(store.Model(), [Call(false, token)], outcome, None)
    {
      var failed := store.CloseBillingEvent(false, token, delivery);
      assert (store.Model(), failed) == Close(old(store.Model()), token, GiveUp(cause), delivery);
      hide Close;
      if failed.NoReply? { return Failure(FailFailed); }
      if !failed.ok { return Failure(FailureLost); }
      return Failure(Handling(cause));
    }

    /** Completes an acknowledged event; whether the claim was still held is not looked at. */
    method CompleteIgnored(store: BillingStore, token: nat, account: string, delivery: Delivery) returns (outcome: Outcome)
      modifies store`claim, store`calls
      ensures store.calls == old(store.calls) + [Call(true, token)]
      ensures forall callback :: Closing(old(store.Model()), token, Acknowledge(account), delivery, callback)
                              == Ingestion(store.Model(), [Call(true, token)], outcome, None)
    {
      var completed := store.CloseBillingEvent(true, token, delivery);
      assert (store.Model(), completed) == Close(old(store.Model()), token, Acknowledge(account), delivery);
      hide Close;
      if completed.NoReply? { return Failure(CompleteFailed); }
      return Success(BLANK_RESULT.(handled := true, ignored := true, account := account));
    }

    /** Completes a handled event, and only then fires its callback. */
    method CompleteHandled(store: BillingStore, token: nat, kind: string, result: EventResult, delivery: Delivery)
      returns (outcome: Outcome, fired: Option<(nat, string)>)
      modifies store`claim, store`calls
      ensures store.calls == old(store.calls) + [Call(true, token)]
      ensures var notify := if result.ignored then None else Some(result.account);
              Closing(old(store.Model()), token, Finish(result, notify), delivery, CallbackFor(kind))
              == Ingestion(store.Model(), [Call(true, token)], outcome, fired)
    {
      fired := None;
      var completed := store.CloseBillingEvent(true, token, delivery);
      ghost var notify := if result.ignored then None else Some(result.account);
      assert (store.Model(), completed) == Close(old(store.Model()), token, Finish(result, notify), delivery);
      hide Close, IsBlank;
      if completed.NoReply? { return Failure(CompleteFailed), None; }
      if !completed.ok { return Failure(CompletionLost), None; }
      if !result.ignored { fired := FireEventHandler(kind, result.account); }
      return Success(result), fired;
    }

    method HandleClaimed(store: BillingStore, token: nat, can: Abilities, event: Event, answers: Answers, delivery: Delivery)
      returns (outcome: Outcome, fired: Option<(nat, string)>)
      modifies store`claim, store`calls
      ensures var verdict := VerdictOn(HandlerFor(event.kind), can, event, answers);
              var done := Closing(old(store.Model()), token, verdict, delivery, CallbackFor(event.kind));
              && store.calls == old(store.calls) + done.calls
              && Ingestion(store.Model(), done.calls, outcome, fired) == done
    {
      hide Closing, Trim;
      fired := None;
      var account := "";
      if can.resolver {
        if answers.account.None? {
          outcome := Fail(store, token, ResolverFailed, delivery);
          return;
        }
        account := answers.account.value;
      }
      var handler := if event.kind in handlers then Some(handlers[event.kind]) else defaultHandler;
      var result := BLANK_RESULT.(handled := true, account := account);
      if handler.Some? {
        if !answers.handler(handler.value) {
          outcome := Fail(store, token, HandlerFailed, delivery);
          return;
        }
      } else if (can.configured || can.processor) && event.lifecycle {
        var answer := if can.configured then answers.configured else answers.processor;
        if answer.None? {
          outcome := Fail(store, token, ProcessorFailed, delivery);
          return;
        }
        result := answer.value;
        if !result.handled {
          outcome := Fail(store, token, NotProcessed, delivery);
          return;
        }
        if result.account == "" { result := result.(account := account); }
      } else if event.kind == "checkout.expired" || event.kind == "invoice.upcoming" {
        if event.kind == "checkout.expired" && Trim(event.checkoutIntent) != "" && can.intents && !answers.intentUpdate {
          outcome := Fail(store, token, IntentUpdateFailed, delivery);
          return;
        }
        outcome := CompleteIgnored(store, token, account, delivery);
        return;
      } else {
        outcome := Fail(store, token, NoHandler, delivery);
        return;
      }
      outcome, fired := CompleteHandled(store, token, event.kind, result, delivery);
    }

    method Ingest(store: BillingStore, can: Abilities, event: Event, answers: Answers, faults: Faults, others: seq<Meanwhile>)
      returns (outcome: Outcome, fired: Option<(nat, string)>)
      modifies store
      ensures var done := Ingested(old(store.Model()), HandlerFor(event.kind), CallbackFor(event.kind),
                                   can, event, answers, faults, others);
              && store.Model() == done.store && store.calls == old(store.calls) + done.calls
              && outcome == done.outcome && fired == done.fired
    {
      hide Elapsed, ClaimEvent, VerdictOn, Closing;
      fired := None;
      if !event.wellFormed || !event.lifecycle { return Failure(InvalidEvent), None; }
      var claim := store.ClaimBillingEvent(faults.rejected, faults.claim);
      if claim.None? { return Failure(ClaimFailed), None; }
      if claim.value.Duplicate? { return Success(BLANK_RESULT.(handled := true, duplicate := true)), None; }
      if claim.value.Busy? { return Success(BLANK_RESULT.(retryable := true)), None; }
      if claim.value.Rejected? { return Failure(EventRejected), None; }
      store.Elapse(others);
      outcome, fired := HandleClaimed(store, claim.value.token, can, event, answers, faults.close);
    }
  }

  /** One ingestion makes at most one closing call, with the token it was granted; it fires a
      callback, or reports the event handled without calling it ignored or a duplicate, only if its
      own completion took effect on the claim it then still held. */
  lemma IngestionFences(s: Store, handler: Option<nat>, callback: Option<nat>, can: Abilities, event: Event, answers: Answers,
                        faults: Faults, others: seq<Meanwhile>)
    ensures var done := Ingested(s, handler, callback, can, event, answers, faults, others);
            && |done.calls| <= 1
            && (done.calls != [] ==> s.claim.Unclaimed? && done.calls[0].token == s.granted)
            && (done.fired.Some? || (done.outcome.Success? && done.outcome.value.handled && !done.outcome.value.ignored && !done.outcome.value.duplicate) ==>
                  || (s.claim.Unclaimed? && done.calls == [Call(true, s.granted)]
                      && Elapsed(Store(Held(s.granted), s.granted + 1), others).claim == Held(s.granted)
                      && done.store.claim.Completed?))
  {
    hide Elapsed, Trim, IsBlank;
  }

  // ----- How an event is closed -----

  /** Who deals with the event, if anybody: its handler, or the store's configured or plain processor. */
  datatype Dealer = Handler(handler: nat) | Processor(answer: Option<EventResult>) | Nobody

  function DealerOf(handler: Option<nat>, can: Abilities, answers: Answers): Dealer {
    match handler
    case Some(h) => Handler(h)
    case None =>
      if can.configured then Processor(answers.configured)
      else if can.processor then Processor(answers.processor)
      else Nobody
  }

  /** Whoever deals with it succeeds; with nobody, the event needs no more than to be acknowledged
      and the update of its checkout intent, if there is one to make, succeeds. */
  predicate DealtWith(handler: Option<nat>, can: Abilities, event: Event, answers: Answers) {
    match DealerOf(handler, can, answers)
    case Handler(h) => answers.handler(h)
    case Processor(answer) => answer.Some? && answer.value.handled
    case Nobody =>
      || event.kind == "invoice.upcoming"
      || (event.kind == "checkout.expired" && (IsBlank(event.checkoutIntent) || !can.intents || answers.intentUpdate))
  }

  predicate ClaimGranted(s: Store, event: Event, faults: Faults) {
    event.wellFormed && event.lifecycle && s.claim.Unclaimed? && !faults.rejected && faults.claim.Delivered?
  }

  /** The claim is still the ingestion's own when it closes, and the closing call is answered. */
  predicate StillOwn(s: Store, faults: Faults, others: seq<Meanwhile>) {
    Elapsed(Store(Held(s.granted), s.granted + 1), others).claim == Held(s.granted) && faults.close.Delivered?
  }

  /** Once its claim is granted, an ingestion makes one closing call with its token: a completing one
      exactly if the account resolves and the event is dealt with, and otherwise a failing one, after
      which it reports no success and fires nothing. */
  lemma CompletesIff(s: Store, handler: Option<nat>, callback: Option<nat>, can: Abilities, event: Event, answers: Answers,
                     faults: Faults, others: seq<Meanwhile>)
    requires ClaimGranted(s, event, faults)
    ensures var done := Ingested(s, handler, callback, can, event, answers, faults, others);
            var completes := (can.resolver ==> answers.account.Some?) && DealtWith(handler, can, event, answers);
            && done.calls == [Call(completes, s.granted)]
            && (!completes ==> done.outcome.Failure? && done.fired.None?)
  {
    TrimEmptyIffBlank(event.checkoutIntent);
    hide Elapsed, Trim, IsBlank;
  }

  /** An ingestion that is granted no claim makes no closing call and fires nothing. It says why: the event
      is malformed, the claim was lost or rejected; an event being handled by another worker is worth
      another try, and one completed before is a duplicate. */
  lemma UngrantedReports(s: Store, handler: Option<nat>, callback: Option<nat>, can: Abilities, event: Event, answers: Answers,
                         faults: Faults, others: seq<Meanwhile>)
    requires !ClaimGranted(s, event, faults)
    ensures var done := Ingested(s, handler, callback, can, event, answers, faults, others);
            && done.calls == [] && done.fired.None? && done.store.claim.Completed? == s.claim.Completed?
            && if !event.wellFormed || !event.lifecycle then done.outcome == Failure(InvalidEvent)
               else if !faults.claim.Delivered? then done.outcome == Failure(ClaimFailed)
               else if faults.rejected then done.outcome == Failure(EventRejected)
               else if s.claim.Completed? then done.outcome == Success(EventResult(true, true, false, false, ""))
               else s.claim.Held? && done.outcome == Success(EventResult(false, false, true, false, ""))
  {
    hide Elapsed, VerdictOn, Closing;
  }

  /** What an ingestion that does not complete reports: why, if the failing call is confirmed, and else
      that the claim was lost or the call was. */
  lemma FailedReports(s: Store, handler: Option<nat>, callback: Option<nat>, can: Abilities, event: Event, answers: Answers,
                      faults: Faults, others: seq<Meanwhile>)
    requires ClaimGranted(s, event, faults)
    requires !((can.resolver ==> answers.account.Some?) && DealtWith(handler, can, event, answers))
    ensures var done := Ingested(s, handler, callback, can, event, answers, faults, others);
            var dealer := DealerOf(handler, can, answers);
            var cause := if can.resolver && answers.account.None? then ResolverFailed
                         else match dealer
                              case Handler(_) => HandlerFailed
                              case Processor(answer) => if answer.None? then ProcessorFailed else NotProcessed
                              case Nobody => if event.kind == "checkout.expired" then IntentUpdateFailed else NoHandler;
            done.outcome == Failure(if !faults.close.Delivered? then FailFailed
                                    else if StillOwn(s, faults, others) then Handling(cause) else FailureLost)
  {
    TrimEmptyIffBlank(event.checkoutIntent);
    hide Elapsed, Trim, IsBlank;
  }

  /** A completion that is not confirmed is an error, except that an acknowledged event does not look
      whether the claim was still held. */
  lemma UnconfirmedReports(s: Store, handler: Option<nat>, callback: Option<nat>, can: Abilities, event: Event, answers: Answers,
                           faults: Faults, others: seq<Meanwhile>)
    requires ClaimGranted(s, event, faults) && !StillOwn(s, faults, others)
    requires (can.resolver ==> answers.account.Some?) && DealtWith(handler, can, event, answers)
    ensures var done := Ingested(s, handler, callback, can, event, answers, faults, others);
            && done.fired.None?
            && (!faults.close.Delivered? ==> done.outcome == Failure(CompleteFailed))
            && (faults.close.Delivered? && !DealerOf(handler, can, answers).Nobody? ==> done.outcome == Failure(CompletionLost))
            && (faults.close.Delivered? && DealerOf(handler, can, answers).Nobody? ==> done.outcome.Success? && done.outcome.value.ignored)
  {
    TrimEmptyIffBlank(event.checkoutIntent);
    hide Elapsed, Trim, IsBlank;
  }

  /** What a completing ingestion that still owns its claim reports: handled, for the account whoever
      dealt with it names or else the resolved one, and ignored if that is what was answered or nobody
      dealt with it; and whether it fires the callback. */
  lemma CompletedReports(s: Store, handler: Option<nat>, callback: Option<nat>, can: Abilities, event: Event, answers: Answers,
                         faults: Faults, others: seq<Meanwhile>)
    requires ClaimGranted(s, event, faults) && StillOwn(s, faults, others)
    requires (can.resolver ==> answers.account.Some?) && DealtWith(handler, can, event, answers)
    ensures var done := Ingested(s, handler, callback, can, event, answers, faults, others);
            var resolved := if can.resolver then answers.account.value else "";
            var dealer := DealerOf(handler, can, answers);
            var account := if dealer.Processor? && dealer.answer.value.account != "" then dealer.answer.value.account else resolved;
            var ignored := dealer.Nobody? || (dealer.Processor? && dealer.answer.value.ignored);
            && done.outcome.Success? && done.outcome.value.handled
            && done.outcome.value.account == account && done.outcome.value.ignored == ignored
            && done.store.claim.Completed?
            && done.fired == if !ignored && callback.Some? && !IsBlank(account) then Some((callback.value, account)) else None
  {
    TrimEmptyIffBlank(event.checkoutIntent);
    hide Elapsed, Trim, IsBlank;
  }

  /** An event that is only acknowledged, and nothing is there to handle: known before the call from
      its kind, the registered handlers and what the store can do. */
  predicate OnlyAcknowledged(handler: Option<nat>, can: Abilities, event: Event) {
    && event.wellFormed && event.lifecycle
    && handler.None? && !can.configured && !can.processor
    && (event.kind == "checkout.expired" || event.kind == "invoice.upcoming")
  }

  predicate HandledIsCompleted(done: Ingestion) {
    done.outcome.Success? && done.outcome.value.handled ==> done.store.claim.Completed?
  }

  /** An ingestion that reports its event handled always leaves it completed, whatever the store
      holds, the parts outside answer, is lost or happens meanwhile, exactly if the event is not one
      that is only acknowledged. */
  lemma HandledIsCompletedIff(handler: Option<nat>, can: Abilities, event: Event)
    ensures (forall s: Store, callback: Option<nat>, answers: Answers, faults: Faults, others: seq<Meanwhile> ::
               HandledIsCompleted(Ingested(s, handler, callback, can, event, answers, faults, others)))
       <==> !OnlyAcknowledged(handler, can, event)
  {
    if OnlyAcknowledged(handler, can, event) {
      var answers := Answers(Some(""), _ => true, None, None, true);
      var others := [ClaimExpires];
      assert Elapsed(Store(Unclaimed, 1), []) == Store(Unclaimed, 1);
      assert Elapsed(Store(Held(0), 1), others) == Store(Unclaimed, 1);
      assert !HandledIsCompleted(Ingested(Store(Unclaimed, 0), handler, None, can, event, answers, Faults(false, Delivered, Delivered), others));
    } else {
      forall s: Store, callback: Option<nat>, answers: Answers, faults: Faults, others: seq<Meanwhile>
        ensures HandledIsCompleted(Ingested(s, handler, callback, can, event, answers, faults, others))
      {
        HandledLeavesCompleted(s, handler, callback, can, event, answers, faults, others);
      }
    }
  }

  lemma HandledLeavesCompleted(s: Store, handler: Option<nat>, callback: Option<nat>, can: Abilities, event: Event, answers: Answers,
                               faults: Faults, others: seq<Meanwhile>)
    requires !OnlyAcknowledged(handler, can, event)
    ensures HandledIsCompleted(Ingested(s, handler, callback, can, event, answers, faults, others))
  {
    hide Elapsed, Trim, IsBlank;
  }

  /** An expired-checkout event whose claim runs out while it is handled: it is reported handled and
      ignored, although its completion did not take effect and the event is open again. */
  lemma AcknowledgedWithoutCompleting(answers: Answers)
    ensures var event := Event("checkout.expired", true, true, "");
            var done := Ingested(Store(Unclaimed, 0), None, None, Abilities(false, false, false, false), event, answers,
                                 Faults(false, Delivered, Delivered), [ClaimExpires]);
            && done.outcome == Success(EventResult(true, false, false, true, ""))
            && done.calls == [Call(true, 0)]
            && done.store == Store(Unclaimed, 1)
  {
    assert Elapsed(Store(Unclaimed, 1), []) == Store(Unclaimed, 1);
    assert Elapsed(Store(Held(0), 1), [ClaimExpires]) == Store(Unclaimed, 1);
  }

  // ----- All deliveries of the event, interleaved -----

  /** A worker: the token it was granted, if any, and where it stands. */
  datatype Phase = Working | Won(notify: string) | Ended

  datatype Worker = Worker(token: Option<nat>, phase: Phase)

  /** What has happened: a closing call reached its end, whether or not it took effect at the
      store, or a callback fired. */
  datatype Happened = Closed(worker: nat, call: Call, effective: bool) | Fired(worker: nat)

  datatype World = World(store: Store, workers: seq<Worker>, history: seq<Happened>)

  datatype Action =
    | Arrive(rejected: bool, delivery: Delivery)
    | CloseBy(worker: nat, verdict: Verdict, delivery: Delivery)
    | FireBy(worker: nat)
    | Crash(worker: nat)
    | ExpireClaim

  const START := World(Store(Unclaimed, 0), [], [])

  /** One step of one worker or of the clock, for any verdict the handling may reach; an action
      that is not enabled changes nothing. */
  function Step(w: World, a: Action): World {
    match a
    case Arrive(rejected, delivery) =>
      var (after, reply) := ClaimEvent(w.store, rejected);
      var worker := if delivery.Delivered? && reply.Granted? then Worker(Some(reply.token), Working) else Worker(None, Ended);
      World(if delivery.LostBefore? then w.store else after, w.workers + [worker], w.history)
    case CloseBy(i, verdict, delivery) =>
      if i < |w.workers| && w.workers[i].phase.Working? && w.workers[i].token.Some? then
        var token := w.workers[i].token.value;
        var (after, reply) := Close(w.store, token, verdict, delivery);
        var (_, notify) := Ending(verdict, reply);
        var effective := w.store.claim == Held(token) && !delivery.LostBefore?;
        World(after,
              w.workers[i := w.workers[i].(phase := if notify.Some? then Won(notify.value) else Ended)],
              w.history + [Closed(i, Call(!verdict.GiveUp?, token), effective)])
      else w
    case FireBy(i) =>
      if i < |w.workers| && w.workers[i].phase.Won? then
        World(w.store, w.workers[i := w.workers[i].(phase := Ended)], w.history + [Fired(i)])
      else w
    case Crash(i) => if i < |w.workers| then w.(workers := w.workers[i := w.workers[i].(phase := Ended)]) else w
    case ExpireClaim => w.(store := Expire(w.store))
  }

  function Run(actions: seq<Action>): World {
    if actions == [] then START else Step(Run(actions[..|actions| - 1]), actions[|actions| - 1])
  }

  predicate Completes(h: Happened) {
    h.Closed? && h.call.completes && h.effective
  }

  ghost predicate ClosedAt(history: seq<Happened>, i: nat, p: int) {
    0 <= p < |history| && history[p].Closed? && history[p].worker == i
  }

  ghost predicate FiredAt(history: seq<Happened>, i: nat, p: int) {
    0 <= p < |history| && history[p] == Fired(i)
  }

  /** The worker's own completion took effect before position `end`. */
  ghost predicate CompletedBefore(history: seq<Happened>, i: nat, end: int) {
    exists p :: p < end && ClosedAt(history, i, p) && Completes(history[p])
  }

  /** What the history says of one worker fits where it stands. */
  ghost predicate WorkerFits(w: World, i: nat)
    requires i < |w.workers|
  {
    var worker := w.workers[i];
    && (worker.token.Some? ==> worker.token.value < w.store.granted)
    && (worker.phase.Working? ==> worker.token.Some? && forall p :: !ClosedAt(w.history, i, p))
    && (worker.phase.Won? ==> CompletedBefore(w.history, i, |w.history|))
    && (!worker.phase.Ended? ==> forall p :: !FiredAt(w.history, i, p))
  }

  ghost predicate WorkersFit(w: World) {
    forall i | 0 <= i < |w.workers| :: WorkerFits(w, i)
  }

  ghost predicate TokensDiffer(w: World) {
    forall i, j | 0 <= i < j < |w.workers| && w.workers[i].token.Some? && w.workers[j].token.Some? ::
      w.workers[i].token != w.workers[j].token
  }

  /** A worker closes once, with its own token, and fires once, after its own completion. */
  ghost predicate EntryFits(w: World, p: nat)
    requires p < |w.history|
  {
    var h := w.history[p];
    && h.worker < |w.workers|
    && (h.Closed? ==>
          && w.workers[h.worker].token == Some(h.call.token)
          && forall q | 0 <= q < p :: !ClosedAt(w.history, h.worker, q))
    && (h.Fired? ==>
          && CompletedBefore(w.history, h.worker, p)
          && forall q | 0 <= q < p :: !FiredAt(w.history, h.worker, q))
  }

  ghost predicate HistoryFits(w: World) {
    forall p | 0 <= p < |w.history| :: EntryFits(w, p)
  }

  /** Completion happened at most once, and exactly if the event is completed now. */
  ghost predicate CompletionFits(w: World) {
    && (forall p, q | 0 <= p < q < |w.history| :: !(Completes(w.history[p]) && Completes(w.history[q])))
    && (w.store.claim.Completed? <==> exists p :: 0 <= p < |w.history| && Completes(w.history[p]))
    && (w.store.claim.Held? ==> w.store.claim.token < w.store.granted)
  }

  ghost predicate Fenced(w: World) {
    WorkersFit(w) && TokensDiffer(w) && HistoryFits(w) && CompletionFits(w)
  }

  /** A step that adds no history and ends workers, or leaves them, keeps what the history says. */
  lemma QuietStep(w: World, next: World)
    requires Fenced(w) && next.history == w.history && |next.workers| == |w.workers|
    requires next.store.granted == w.store.granted
    requires forall i | 0 <= i < |w.workers| :: next.workers[i] == w.workers[i] || next.workers[i] == w.workers[i].(phase := Ended)
    ensures WorkersFit(next) && TokensDiffer(next) && HistoryFits(next)
  {
    forall i | 0 <= i < |next.workers| ensures WorkerFits(next, i) { assert WorkerFits(w, i); }
    forall p | 0 <= p < |next.history| ensures EntryFits(next, p) { assert EntryFits(w, p); }
  }

  lemma ArriveFenced(w: World, rejected: bool, delivery: Delivery)
    requires Fenced(w)
    ensures Fenced(Step(w, Arrive(rejected, delivery)))
  {
    var next := Step(w, Arrive(rejected, delivery));
    var n := |w.workers|;
    forall i | 0 <= i < |next.workers| ensures WorkerFits(next, i) {
      if i < n {
        assert WorkerFits(w, i);
      } else {
        forall p | 0 <= p < |w.history| ensures w.history[p].worker != n { assert EntryFits(w, p); }
      }
    }
    forall i, j | 0 <= i < j < |next.workers| && next.workers[i].token.Some? && next.workers[j].token.Some?
      ensures next.workers[i].token != next.workers[j].token
    {
      assert WorkerFits(w, i);
    }
    forall p | 0 <= p < |next.history| ensures EntryFits(next, p) { assert EntryFits(w, p); }
  }

  lemma GrownBefore(history: seq<Happened>, h: Happened, i: nat, end: int)
    requires end <= |history|
    ensures CompletedBefore(history + [h], i, end) <==> CompletedBefore(history, i, end)
    ensures forall p | p < |history| :: (ClosedAt(history + [h], i, p) <==> ClosedAt(history, i, p))
    ensures forall p | p < |history| :: (FiredAt(history + [h], i, p) <==> FiredAt(history, i, p))
  {
    var longer := history + [h];
    assert forall p | 0 <= p < |history| :: longer[p] == history[p];
    if CompletedBefore(history, i, end) {
      var p :| p < end && ClosedAt(history, i, p) && Completes(history[p]);
      assert ClosedAt(longer, i, p) && Completes(longer[p]);
    }
    if CompletedBefore(longer, i, end) {
      var p :| p < end && ClosedAt(longer, i, p) && Completes(longer[p]);
      assert ClosedAt(history, i, p) && Completes(history[p]);
    }
  }

  /** A step that adds one entry keeps what is said of the entries before it and of the other workers. */
  lemma OldEntriesFit(w: World, next: World, h: Happened, p: nat)
    requires HistoryFits(w) && p < |w.history|
    requires next.history == w.history + [h] && |next.workers| == |w.workers|
    requires forall i | 0 <= i < |w.workers| :: next.workers[i].token == w.workers[i].token
    ensures EntryFits(next, p)
  {
    assert EntryFits(w, p);
    assert next.history[p] == w.history[p];
    GrownBefore(w.history, h, w.history[p].worker, p);
    hide CompletedBefore;
  }

  lemma OtherWorkersFit(w: World, next: World, h: Happened, i: nat)
    requires WorkersFit(w) && i < |w.workers| && i != h.worker
    requires next.history == w.history + [h] && |next.workers| == |w.workers| && next.store.granted == w.store.granted
    requires next.workers[i] == w.workers[i]
    ensures WorkerFits(next, i)
  {
    assert WorkerFits(w, i);
    GrownBefore(w.history, h, i, |w.history|);
    if w.workers[i].phase.Won? {
      var p :| p < |w.history| && ClosedAt(w.history, i, p) && Completes(w.history[p]);
      assert ClosedAt(next.history, i, p) && Completes(next.history[p]);
    }
  }

  lemma CloseFenced(w: World, i: nat, verdict: Verdict, delivery: Delivery)
    requires Fenced(w) && i < |w.workers| && w.workers[i].phase.Working? && w.workers[i].token.Some?
    ensures Fenced(Step(w, CloseBy(i, verdict, delivery)))
  {
    var next := Step(w, CloseBy(i, verdict, delivery));
    var n := |w.history|;
    var h := next.history[n];
    assert WorkerFits(w, i);
    assert next.history == w.history + [h] && h.worker == i && h.Closed?;
    GrownBefore(w.history, h, i, n);
    CloseCompletion(w, next, h);
    assert next.workers[i].phase.Won? ==> Completes(h);
    hide CompletionFits, Close, Ending, Step;
    forall j | 0 <= j < |next.workers| ensures WorkerFits(next, j) {
      if j == i {
        if next.workers[i].phase.Won? { assert ClosedAt(next.history, i, n) && Completes(next.history[n]); }
      } else {
        OtherWorkersFit(w, next, h, j);
      }
    }
    forall p | 0 <= p < |next.history| ensures EntryFits(next, p) {
      if p < n {
        OldEntriesFit(w, next, h, p);
      } else {
        assert forall q | 0 <= q < n :: !ClosedAt(next.history, i, q);
      }
    }
  }

  lemma CloseCompletion(w: World, next: World, h: Happened)
    requires CompletionFits(w) && next.history == w.history + [h]
    requires Completes(h) ==> w.store.claim.Held? && next.store == w.store.(claim := Completed)
    requires !Completes(h) ==> next.store == w.store || (w.store.claim.Held? && next.store == w.store.(claim := Unclaimed))
    ensures CompletionFits(next)
  {
    var n := |w.history|;
    assert forall p | 0 <= p < n :: next.history[p] == w.history[p];
    assert next.history[n] == h;
    if w.store.claim.Completed? {
      var p :| 0 <= p < n && Completes(w.history[p]);
      assert Completes(next.history[p]);
    }
  }

  lemma FireFenced(w: World, i: nat)
    requires Fenced(w) && i < |w.workers| && w.workers[i].phase.Won?
    ensures Fenced(Step(w, FireBy(i)))
  {
    var next := Step(w, FireBy(i));
    var n := |w.history|;
    var h := Fired(i);
    assert WorkerFits(w, i);
    GrownBefore(w.history, h, i, n);
    CloseCompletion(w, next, h);
    hide CompletionFits;
    forall j | 0 <= j < |next.workers| ensures WorkerFits(next, j) {
      if j != i { OtherWorkersFit(w, next, h, j); }
    }
    forall p | 0 <= p < |next.history| ensures EntryFits(next, p) {
      if p < n {
        OldEntriesFit(w, next, h, p);
      } else {
        assert forall q | 0 <= q < n :: !FiredAt(next.history, i, q);
      }
    }
  }

  /** Every step keeps the fence. */
  lemma StepFenced(w: World, a: Action)
    requires Fenced(w)
    ensures Fenced(Step(w, a))
  {
    match a {
      case Arrive(rejected, delivery) => ArriveFenced(w, rejected, delivery);
      case CloseBy(i, verdict, delivery) =>
        if i < |w.workers| && w.workers[i].phase.Working? && w.workers[i].token.Some? {
          CloseFenced(w, i, verdict, delivery);
        }
      case FireBy(i) => if i < |w.workers| && w.workers[i].phase.Won? { FireFenced(w, i); }
      case Crash(i) => QuietStep(w, Step(w, a));
      case ExpireClaim => QuietStep(w, Step(w, a));
    }
  }

  lemma {:induction false} RunFenced(actions: seq<Action>)
    ensures Fenced(Run(actions))
  {
    if actions != [] {
      RunFenced(actions[..|actions| - 1]);
      StepFenced(Run(actions[..|actions| - 1]), actions[|actions| - 1]);
    }
  }

  // ----- What is promised, whatever is redelivered, lost, expired or crashed -----

  /** A worker makes at most one closing call, with the token it was granted. */
  lemma OneClosingCall(actions: seq<Action>, p: nat, q: nat)
    ensures var w := Run(actions);
            p < |w.history| && w.history[p].Closed? ==>
              && w.history[p].worker < |w.workers|
              && w.workers[w.history[p].worker].token == Some(w.history[p].call.token)
              && (q < |w.history| && w.history[q].Closed? && w.history[q].worker == w.history[p].worker ==> p == q)
  {
    RunFenced(actions);
    var w := Run(actions);
    hide Run;
    if p < |w.history| && q < |w.history| && w.history[p].Closed? {
      assert EntryFits(w, p) && EntryFits(w, q);
      assert ClosedAt(w.history, w.history[p].worker, p);
      if w.history[q].Closed? { assert ClosedAt(w.history, w.history[q].worker, q); }
    } else if p < |w.history| {
      assert EntryFits(w, p);
    }
  }

  /** At most one completion takes effect. */
  lemma OneCompletion(actions: seq<Action>, p: nat, q: nat)
    ensures var h := Run(actions).history;
            p < |h| && q < |h| && Completes(h[p]) && Completes(h[q]) ==> p == q
  {
    RunFenced(actions);
  }

  /** A callback fires only after the firing worker's own completion took effect, and at most one
      callback fires in all. */
  lemma OneCallback(actions: seq<Action>, p: nat, q: nat)
    ensures var h := Run(actions).history;
            p < |h| && h[p].Fired? ==>
              && CompletedBefore(h, h[p].worker, p)
              && (q < |h| && h[q].Fired? ==> p == q)
  {
    RunFenced(actions);
    var w := Run(actions);
    hide Run;
    if p < |w.history| && w.history[p].Fired? {
      assert EntryFits(w, p);
      if q < |w.history| && w.history[q].Fired? {
        assert EntryFits(w, q);
        SameCompletion(w, w.history[p].worker, p, w.history[q].worker, q);
        assert FiredAt(w.history, w.history[p].worker, p) && FiredAt(w.history, w.history[q].worker, q);
      }
    }
  }

  lemma SameCompletion(w: World, i: nat, p: int, j: nat, q: int)
    requires CompletionFits(w) && CompletedBefore(w.history, i, p) && CompletedBefore(w.history, j, q)
    ensures i == j
  {
    var a :| a < p && ClosedAt(w.history, i, a) && Completes(w.history[a]);
    var b :| b < q && ClosedAt(w.history, j, b) && Completes(w.history[b]);
    assert a < b || b < a || a == b;
  }

  /** A token that has been granted and does not hold the claim. */
  predicate Stale(s: Store, token: nat) {
    token < s.granted && s.claim != Held(token)
  }

  lemma StaleStep(w: World, a: Action, token: nat)
    requires Stale(w.store, token)
    ensures Stale(Step(w, a).store, token)
  {
  }

  lemma WorkersStay(w: World, a: Action, i: nat)
    requires i < |w.workers|
    ensures i < |Step(w, a).workers| && Step(w, a).workers[i].token == w.workers[i].token
  {
    hide Close, Ending, ClaimEvent;
  }

  lemma {:induction false} StaysStale(actions: seq<Action>, more: seq<Action>, i: nat)
    requires i < |Run(actions).workers| && Run(actions).workers[i].token.Some?
    requires Stale(Run(actions).store, Run(actions).workers[i].token.value)
    ensures var w := Run(actions + more);
            && i < |w.workers| && w.workers[i].token == Run(actions).workers[i].token
            && Stale(w.store, w.workers[i].token.value)
    decreases |more|
  {
    hide Step, Stale;
    if more == [] {
      assert actions + more == actions;
    } else {
      var all := actions + more;
      assert all[..|all| - 1] == actions + more[..|more| - 1];
      StaysStale(actions, more[..|more| - 1], i);
      var before := Run(all[..|all| - 1]);
      assert Run(all) == Step(before, all[|all| - 1]);
      StaleStep(before, all[|all| - 1], before.workers[i].token.value);
      WorkersStay(before, all[|all| - 1], i);
    }
  }

  /** A worker that has lost its claim, to expiry, to another worker or to its own closing call,
      never gets it back, and nothing it closes at any later time changes the store. */
  lemma StaleWorkerIsHarmless(actions: seq<Action>, more: seq<Action>, i: nat, verdict: Verdict, delivery: Delivery)
    requires i < |Run(actions).workers| && Run(actions).workers[i].token.Some?
    requires Run(actions).store.claim != Held(Run(actions).workers[i].token.value)
    ensures var w := Run(actions + more);
            && i < |w.workers| && w.workers[i].token == Run(actions).workers[i].token
            && w.store.claim != Held(w.workers[i].token.value)
            && Step(w, CloseBy(i, verdict, delivery)).store == w.store
  {
    RunFenced(actions);
    assert WorkerFits(Run(actions), i);
    StaysStale(actions, more, i);
    hide Run;
  }

  /** Once completed, always completed. */
  lemma {:induction false} CompletedForGood(actions: seq<Action>, more: seq<Action>)
    requires Run(actions).store.claim.Completed?
    ensures Run(actions + more).store.claim.Completed?
    decreases |more|
  {
    if more == [] {
      assert actions + more == actions;
    } else {
      var all := actions + more;
      assert all[..|all| - 1] == actions + more[..|more| - 1];
      CompletedForGood(actions, more[..|more| - 1]);
    }
  }
}
