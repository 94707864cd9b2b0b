/** The client-side gateway (src/core.ts, `VSplitPaymentGateway`): one
    current session, a payment timer for the split timeout and an event
    emitter. Stripe's confirmation, the API client's responses and the
    refund responses are parameters; every request the gateway posts and
    every event it emits is appended to a ghost log. */
module Gateway {
  import opened Wrappers
  import opened PaymentTypes
  import opened SplitSessions
  import Events
  import Timers

  /** The events of `PaymentGatewayEvents`. */
  datatype GatewayEvent =
    | PaymentSuccess
    | PaymentFailed
    | PaymentRequiresAction
    | PaymentCanceled
    | SplitCompleted
    | SplitPartial
    | SplitTimeout
    | Error

  /** What an event carries: a payment result, the split session, or an
      error's message. */
  datatype Payload =
    | ResultPayload(result: PaymentResult)
    | SessionPayload(session: SplitSession)
    | ErrorPayload(message: string)

  /** What the gateway does that the outside can observe. */
  datatype Effect =
    | Emitted(event: GatewayEvent, payload: Payload)
    | Posted(path: string)
    | RefundRequested(request: RefundRequest)

  /** `currentSession`: a single payment intent or a split session. */
  datatype CurrentSession = Single(intent: PaymentIntent) | Split(session: SplitSession)

  /** The payment intent `confirmPayment` hands back, when it hands one back. */
  datatype ConfirmedIntent = ConfirmedIntent(id: string, status: PaymentStatus)

  /** How Stripe's `confirmPayment` ends: with a payment intent (possibly
      missing) and no error, with an error object, or by throwing (also the
      case when Stripe has not loaded); `Threw(None)` is a thrown value that
      is not an `Error`. */
  datatype Confirmation =
    | Confirmed(intent: Option<ConfirmedIntent>)
    | Declined(message: string)
    | Threw(thrown: Option<string>)

  /** The delay, in milliseconds, and the session id a split timeout was
      armed with. */
  datatype Arm = Arm(sessionId: string, delayMs: int)

  /** `x || fallback` for an optional message: an absent or empty message
      gives the fallback. */
  function MessageOr(message: Option<string>, fallback: string): (r: string)
    ensures message.Some? && message.value != "" ==> r == message.value
    ensures message.None? || message.value == "" ==> r == fallback
  {
    if message.Some? && message.value != "" then message.value else fallback
  }

  /** `error instanceof Error ? error.message : 'Unknown error'`. */
  function ThrownMessage(message: Option<string>): string {
    if message.Some? then message.value else "Unknown error"
  }

  /** The result `processPayment` returns for a confirmation, and the event
      it emits with it. */
  function ConfirmationResult(paymentIntentId: string, c: Confirmation): (out: (PaymentResult, GatewayEvent))
    ensures var (r, ev) := out;
      && (r.success <==> c.Confirmed? && c.intent.Some? && c.intent.value.status == Succeeded)
      && (r.success <==> r.status == Succeeded)
      && (ev == PaymentSuccess <==> r.success)
      && (ev == PaymentRequiresAction <==> c.Confirmed? && c.intent.Some? && c.intent.value.status == RequiresAction)
      && ev in {PaymentSuccess, PaymentRequiresAction, PaymentFailed}
      && (r.error.Some? <==> !c.Confirmed?)
      && (!c.Confirmed? ==> r.status == Failed && r.paymentId == paymentIntentId)
      && (c.Confirmed? && c.intent.Some? && c.intent.value.id != "" ==> r.paymentId == c.intent.value.id)
      && (c.Confirmed? && (c.intent.None? || c.intent.value.id == "") ==> r.paymentId == paymentIntentId)
  {
    match c
    case Declined(message) =>
      (PaymentResult(false, paymentIntentId, Failed, Some(message)), PaymentFailed)
    case Threw(thrown) =>
      (PaymentResult(false, paymentIntentId, Failed, Some(ThrownMessage(thrown))), PaymentFailed)
    case Confirmed(None) =>
      (PaymentResult(false, paymentIntentId, Failed, None), PaymentFailed)
    case Confirmed(Some(pi)) =>
      var success := pi.status == Succeeded;
      var r := PaymentResult(success, if pi.id != "" then pi.id else paymentIntentId, pi.status, None);
      (r, if success then PaymentSuccess else if pi.status == RequiresAction then PaymentRequiresAction else PaymentFailed)
  }

  /** A split confirmation that needs further action counts as a failure:
      the session's failure counter moves, its success counter and status
      do not. */
  lemma RequiresActionCountsAsFailure(s: SplitSession, index: int, id: string, piId: string)
    requires 0 <= index < |s.paymentIntents|
    ensures var r := ConfirmationResult(id, Confirmed(Some(ConfirmedIntent(piId, RequiresAction))));
      && r.1 == PaymentRequiresAction
      && Apply(s, Confirm(index, r.0.success)) == RecordFailure(s)
  {
  }

  /** `config.timeout || this.config.defaultTimeout || 600`, in seconds: a
      zero (or absent) timeout falls through to the next choice. */
  function ResolveTimeout(configTimeout: Option<int>, defaultTimeout: int): (t: int)
    ensures t != 0
    ensures configTimeout.Some? && configTimeout.value != 0 ==> t == configTimeout.value
    ensures (configTimeout.None? || configTimeout.value == 0) && defaultTimeout != 0 ==> t == defaultTimeout
    ensures (configTimeout.None? || configTimeout.value == 0) && defaultTimeout == 0 ==> t == 600
  {
    if configTimeout.Some? && configTimeout.value != 0 then configTimeout.value
    else if defaultTimeout != 0 then defaultTimeout
    else 600
  }

  /** The split session a confirmation is for, or the error it is rejected
      with: the current session must be a split session with that id, and
      the index must name one of its intents. */
  function SplitTarget(current: Option<CurrentSession>, sessionId: string, index: int): (r: Result<SplitSession, string>)
    ensures r.Success? <==>
      current.Some? && current.value.Split? && current.value.session.sessionId == sessionId
      && 0 <= index < |current.value.session.paymentIntents|
    ensures r.Success? ==> r.value == current.value.session
    ensures r.Failure? ==> r.error in {"Invalid session", "Invalid split index"}
    ensures r.Failure? && r.error == "Invalid split index" <==>
      current.Some? && current.value.Split? && current.value.session.sessionId == sessionId
      && !(0 <= index < |current.value.session.paymentIntents|)
  {
    if current.None? || !current.value.Split? || current.value.session.sessionId != sessionId then
      Failure("Invalid session")
    else if !(0 <= index < |current.value.session.paymentIntents|) then
      Failure("Invalid split index")
    else Success(current.value.session)
  }

  /** The refund requests, in order, as log entries. */
  function RefundRequests(refunds: seq<RefundRequest>): (r: seq<Effect>)
    ensures |r| == |refunds|
    ensures forall i | 0 <= i < |refunds| :: r[i] == RefundRequested(refunds[i])
  {
    seq(|refunds|, i requires 0 <= i < |refunds| => RefundRequested(refunds[i]))
  }

  /** The `error` events of the refunds that fail, in request order, each
      with the message its failure produced. */
  function RefundErrors(refunds: seq<RefundRequest>, failures: map<string, string>): (r: seq<Effect>)
    ensures |r| <= |refunds|
    ensures forall e | e in r :: e.Emitted? && e.event == Error
  {
    if refunds == [] then []
    else
      var last := refunds[|refunds| - 1];
      RefundErrors(refunds[..|refunds| - 1], failures)
        + (if last.paymentIntentId in failures then [Emitted(Error, ErrorPayload(failures[last.paymentIntentId]))] else [])
  }

  /** One more refund adds its `error` event exactly when it fails. */
  lemma RefundErrorsStep(refunds: seq<RefundRequest>, failures: map<string, string>, i: nat)
    requires i < |refunds|
    ensures RefundErrors(refunds[..i + 1], failures) == RefundErrors(refunds[..i], failures)
      + (if refunds[i].paymentIntentId in failures then [Emitted(Error, ErrorPayload(failures[refunds[i].paymentIntentId]))] else [])
  {
    assert refunds[..i + 1][..i] == refunds[..i];
  }

  /** No refund fails, no error is emitted. */
  lemma {:induction false} NoFailuresNoErrors(refunds: seq<RefundRequest>, failures: map<string, string>)
    requires forall i | 0 <= i < |refunds| :: refunds[i].paymentIntentId !in failures
    ensures RefundErrors(refunds, failures) == []
  {
    if refunds != [] {
      NoFailuresNoErrors(refunds[..|refunds| - 1], failures);
    }
  }

  class VSplitPaymentGateway {
    /** `config.currency`, `'usd'` unless the configuration gives one. */
    const currency: string
    /** `config.defaultTimeout`, 600 seconds unless the configuration gives one. */
    const defaultTimeout: int
    /** The callbacks that throw when called. */
    const throwing: set<nat>
    const emitter: Events.EventEmitter<GatewayEvent>
    const timer: Timers.PaymentTimer
    var currentSession: Option<CurrentSession>
    /** What each timeout this gateway armed will do when it goes off. */
    var timeouts: map<nat, Arm>
    ghost var log: seq<Effect>

    /** The emitter and the timer are consistent; the gateway only ever uses
        the unnamed timer, for split timeouts it knows the target of. */
    ghost predicate Valid()
      reads this, emitter, timer
    {
      && emitter.Valid() && timer.Valid() && timer.Tracked()
      && forall h | h in timer.scheduled ::
           h in timeouts && timer.scheduled[h] == Timers.Scheduled(Timers.Timeout, Timers.Unnamed)
    }

    /** The constructor: the configured currency and default timeout, or
        `'usd'` and 600 seconds; no session, no listener, no timer. */
    constructor (configCurrency: Option<string>, configDefaultTimeout: Option<int>, throwingCallbacks: set<nat>)
      ensures Valid()
      ensures currency == (if configCurrency.Some? then configCurrency.value else "usd")
      ensures defaultTimeout == (if configDefaultTimeout.Some? then configDefaultTimeout.value else 600)
      ensures currentSession == None && log == []
      ensures emitter.listeners == map[] && timer.scheduled == map[]
      ensures fresh(emitter) && fresh(timer)
    {
      currency := if configCurrency.Some? then configCurrency.value else "usd";
      defaultTimeout := if configDefaultTimeout.Some? then configDefaultTimeout.value else 600;
      throwing := throwingCallbacks;
      emitter := new Events.EventEmitter<GatewayEvent>();
      timer := new Timers.PaymentTimer();
      currentSession := None;
      timeouts := map[];
      log := [];
    }

    /** Whether a split timeout is pending. */
    ghost predicate TimeoutPending()
      reads this, timer
    {
      timer.scheduled != map[]
    }

    /** `eventEmitter.emit(event, payload)`: logged, and delivered to the
        listeners registered for the event by the emitter's `emit` as
        written. The gateway itself never registers a listener (its `on` and
        `off` are not modelled), so from the constructor on the emitter has
        none and the delivery, like `throwing`, changes nothing. */
    method Notify(ev: GatewayEvent, payload: Payload)
      requires Valid()
      modifies this, emitter
      ensures Valid()
      ensures log == old(log) + [Emitted(ev, payload)]
      ensures currentSession == old(currentSession) && timeouts == old(timeouts)
      ensures emitter.listeners == if ev in old(emitter.listeners)
        then old(emitter.listeners)[ev := Events.ForEachFrom(old(emitter.listeners)[ev], 0, throwing).1]
        else old(emitter.listeners)
    {
      log := log + [Emitted(ev, payload)];
      var called := emitter.Emit(ev, throwing);
    }

    /** `initializePayment(config)`: posts the request with the configured
        currency unless the payment names one; on success the returned intent
        becomes the current session, otherwise `payment:failed` is emitted
        with a failed result and the session stays as it was. */
    method InitializePayment(configCurrency: Option<string>, response: ApiResponse<PaymentIntent>)
      returns (r: PaymentResult, sentCurrency: string)
      requires Valid()
      modifies this, emitter
      ensures Valid()
      ensures sentCurrency == MessageOr(configCurrency, currency)
      ensures timeouts == old(timeouts)
      ensures response.success && response.data.Some? ==>
        && currentSession == Some(Single(response.data.value))
        && r == PaymentResult(true, response.data.value.id, response.data.value.status, None)
        && log == old(log) + [Posted("/payment/initialize")]
      ensures !(response.success && response.data.Some?) ==>
        && currentSession == old(currentSession)
        && r == PaymentResult(false, "", Failed, Some(MessageOr(response.error, "Failed to initialize payment")))
        && log == old(log) + [Posted("/payment/initialize"), Emitted(PaymentFailed, ResultPayload(r))]
    {
      sentCurrency := MessageOr(configCurrency, currency);
      log := log + [Posted("/payment/initialize")];
      if !response.success || response.data.None? {
        r := PaymentResult(false, "", Failed, Some(MessageOr(response.error, "Failed to initialize payment")));
        Notify(PaymentFailed, ResultPayload(r));
        return;
      }
      currentSession := Some(Single(response.data.value));
      r := PaymentResult(true, response.data.value.id, response.data.value.status, None);
    }

    /** `processPayment(paymentIntentId, method)`: the result of the
        confirmation, announced with `payment:success`,
        `payment:requires_action` or `payment:failed`. */
    method ProcessPayment(paymentIntentId: string, c: Confirmation) returns (r: PaymentResult)
      requires Valid()
      modifies this, emitter
      ensures Valid()
      ensures r == ConfirmationResult(paymentIntentId, c).0
      ensures log == old(log) + [Emitted(ConfirmationResult(paymentIntentId, c).1, ResultPayload(r))]
      ensures currentSession == old(currentSession) && timeouts == old(timeouts)
    {
      var ev;
      r, ev := ConfirmationResult(paymentIntentId, c).0, ConfirmationResult(paymentIntentId, c).1;
      Notify(ev, ResultPayload(r));
    }

    /** `initializeSplitPayment(config)`: on success the session becomes
        current and the timeout is armed for `timeout * 1000` ms, replacing
        any pending one; on failure `error` is emitted, the error is thrown,
        and neither the session nor the timer changes. */
    method InitializeSplitPayment(configTimeout: Option<int>, response: ApiResponse<SplitSession>)
      returns (r: Result<SplitSession, string>, timeout: int)
      requires Valid()
      modifies this, emitter, timer
      ensures Valid()
      ensures timeout == ResolveTimeout(configTimeout, defaultTimeout)
      ensures response.success && response.data.Some? ==>
        && r == Success(response.data.value)
        && currentSession == Some(Split(response.data.value))
        && timer.activeTimer.Some?
        && timer.scheduled == map[timer.activeTimer.value := Timers.Scheduled(Timers.Timeout, Timers.Unnamed)]
        && timeouts == old(timeouts)[timer.activeTimer.value := Arm(response.data.value.sessionId, timeout * 1000)]
        && log == old(log) + [Posted("/payment/split/initialize")]
      ensures !(response.success && response.data.Some?) ==>
        && r == Failure(MessageOr(response.error, "Failed to initialize split payment"))
        && currentSession == old(currentSession) && timeouts == old(timeouts)
        && timer.scheduled == old(timer.scheduled) && timer.activeTimer == old(timer.activeTimer)
        && log == old(log) + [Posted("/payment/split/initialize"), Emitted(Error, ErrorPayload(r.error))]
    {
      timeout := ResolveTimeout(configTimeout, defaultTimeout);
      log := log + [Posted("/payment/split/initialize")];
      if !response.success || response.data.None? {
        var message := MessageOr(response.error, "Failed to initialize split payment");
        Notify(Error, ErrorPayload(message));
        return Failure(message), timeout;
      }
      var session := response.data.value;
      currentSession := Some(Split(session));
      var h := timer.StartTimer(None);
      timeouts := timeouts[h := Arm(session.sessionId, timeout * 1000)];
      r := Success(session);
    }

    /** `processSplitPayment(sessionId, splitIndex, method)`. An unknown
        session or split is rejected with a failed result that carries the
        session id, announced with `payment:failed`, and changes nothing.
        Otherwise the split's intent is confirmed; a success counts towards
        the session (the stored intent keeps its status), and the session
        either completes
        — the timeout is cancelled and `split:completed` emitted — or becomes
        partial with `split:partial`; anything else counts as a failure. */
    method ProcessSplitPayment(sessionId: string, splitIndex: int, c: Confirmation) returns (r: PaymentResult)
      requires Valid()
      modifies this, emitter, timer
      ensures Valid()
      ensures timeouts == old(timeouts)
      ensures SplitTarget(old(currentSession), sessionId, splitIndex).Failure? ==>
        && r == PaymentResult(false, sessionId, Failed, Some(SplitTarget(old(currentSession), sessionId, splitIndex).error))
        && currentSession == old(currentSession)
        && timer.scheduled == old(timer.scheduled)
        && log == old(log) + [Emitted(PaymentFailed, ResultPayload(r))]
      ensures SplitTarget(old(currentSession), sessionId, splitIndex).Success? ==>
        var s := old(currentSession).value.session;
        var confirmation := ConfirmationResult(s.paymentIntents[splitIndex].id, c);
        var s' := Apply(s, Confirm(splitIndex, r.success));
        && r == confirmation.0
        && currentSession == Some(Split(s'))
        && (s'.status == Succeeded && r.success ==>
              timer.scheduled == map[]
              && log == old(log) + [Emitted(confirmation.1, ResultPayload(r)), Emitted(SplitCompleted, SessionPayload(s'))])
        && (s'.status != Succeeded && r.success ==>
              timer.scheduled == old(timer.scheduled)
              && log == old(log) + [Emitted(confirmation.1, ResultPayload(r)), Emitted(SplitPartial, SessionPayload(s'))])
        && (!r.success ==>
              timer.scheduled == old(timer.scheduled)
              && log == old(log) + [Emitted(confirmation.1, ResultPayload(r))])
    {
      var target := SplitTarget(currentSession, sessionId, splitIndex);
      if target.Failure? {
        r := PaymentResult(false, sessionId, Failed, Some(target.error));
        Notify(PaymentFailed, ResultPayload(r));
        return;
      }
      var session := target.value;
      r := ProcessPayment(session.paymentIntents[splitIndex].id, c);
      var updated := Apply(session, Confirm(splitIndex, r.success));
      currentSession := Some(Split(updated));
      if r.success {
        if updated.completedPayments == |updated.paymentIntents| {
          timer.ClearTimer(None);
          Notify(SplitCompleted, SessionPayload(updated));
        } else {
          Notify(SplitPartial, SessionPayload(updated));
        }
      }
    }

    /** `refundPartialPayments(session)`: one refund request per intent whose
        status is `succeeded`, all sent before any answer; each that fails
        emits `error`, and none stops the others. */
    method RefundPartialPayments(session: SplitSession, failures: map<string, string>)
      requires Valid()
      modifies this, emitter
      ensures Valid()
      ensures currentSession == old(currentSession) && timeouts == old(timeouts)
      ensures var refunds := TimeoutRefunds(session.paymentIntents, session.sessionId);
        log == old(log) + RefundRequests(refunds) + RefundErrors(refunds, failures)
    {
      var refunds := TimeoutRefunds(session.paymentIntents, session.sessionId);
      log := log + RefundRequests(refunds);
      ghost var sent := log;
      for i := 0 to |refunds|
        invariant Valid()
        invariant currentSession == old(currentSession) && timeouts == old(timeouts)
        invariant log == sent + RefundErrors(refunds[..i], failures)
      {
        var id := refunds[i].paymentIntentId;
        if id in failures {
          Notify(Error, ErrorPayload(failures[id]));
        }
        assert log == sent + RefundErrors(refunds[..i + 1], failures) by {
          RefundErrorsStep(refunds, failures, i);
          if id in failures {
            AppendAssociates(sent, RefundErrors(refunds[..i], failures), [Emitted(Error, ErrorPayload(failures[id]))]);
          } else {
            assert RefundErrors(refunds[..i], failures) + [] == RefundErrors(refunds[..i], failures);
          }
        }
      }
      assert refunds[..|refunds|] == refunds;
    }

    /** `handleSplitPaymentTimeout(sessionId)`: nothing unless the current
        session is the split session the timeout was armed for; then the
        session is marked `canceled` (whatever its status was), the refund
        sweep runs, and `split:timeout` is emitted. */
    method HandleSplitPaymentTimeout(sessionId: string, failures: map<string, string>)
      requires Valid()
      modifies this, emitter
      ensures Valid()
      ensures timeouts == old(timeouts)
      ensures !(old(currentSession).Some? && old(currentSession).value.Split? && old(currentSession).value.session.sessionId == sessionId) ==>
        currentSession == old(currentSession) && log == old(log)
      ensures old(currentSession).Some? && old(currentSession).value.Split? && old(currentSession).value.session.sessionId == sessionId ==>
        var s := old(currentSession).value.session.(status := Canceled);
        var refunds := TimeoutRefunds(s.paymentIntents, s.sessionId);
        && currentSession == Some(Split(s))
        && log == old(log) + RefundRequests(refunds) + RefundErrors(refunds, failures) + [Emitted(SplitTimeout, SessionPayload(s))]
    {
      if currentSession.None? || !currentSession.value.Split? || currentSession.value.session.sessionId != sessionId {
        return;
      }
      var session := currentSession.value.session.(status := Canceled);
      currentSession := Some(Split(session));
      RefundPartialPayments(session, failures);
      Notify(SplitTimeout, SessionPayload(session));
    }

    /** The runtime runs the pending timeout `h`: the timer forgets it (the
        timer's callback as written, which for the gateway's only, unnamed,
        timer also empties the unnamed slot), and the timeout handler runs
        for the session it was armed for. */
    method TimeoutFires(h: nat, failures: map<string, string>)
      requires Valid() && h in timer.scheduled
      modifies this, emitter, timer
      ensures Valid()
      ensures timer.scheduled == map[]
      ensures timeouts == old(timeouts)
      ensures var target := old(timeouts)[h].sessionId;
        !(old(currentSession).Some? && old(currentSession).value.Split? && old(currentSession).value.session.sessionId == target) ==>
        currentSession == old(currentSession) && log == old(log)
      ensures var target := old(timeouts)[h].sessionId;
        old(currentSession).Some? && old(currentSession).value.Split? && old(currentSession).value.session.sessionId == target ==>
        var s := old(currentSession).value.session.(status := Canceled);
        var refunds := TimeoutRefunds(s.paymentIntents, s.sessionId);
        && currentSession == Some(Split(s))
        && log == old(log) + RefundRequests(refunds) + RefundErrors(refunds, failures) + [Emitted(SplitTimeout, SessionPayload(s))]
    {
      var arm := timeouts[h];
      timer.FireAsWritten(h);
      HandleSplitPaymentTimeout(arm.sessionId, failures);
    }

    /** The first of two splits is paid and the armed timeout then goes
        off: the session ends `canceled` with one completed payment, and the
        sweep requests no refund, because the paid intent was never marked
        `succeeded`. */
    method PaidSplitThenTimeout(sessionId: string, paidId: string, h: nat, failures: map<string, string>)
      requires Valid() && h in timer.scheduled && timeouts[h].sessionId == sessionId
      requires currentSession.Some? && currentSession.value.Split?
      requires var s := currentSession.value.session;
        s.sessionId == sessionId && |s.paymentIntents| == 2 && s.completedPayments == 0 && NoneSucceeded(s)
      modifies this, emitter, timer
      ensures Valid() && timer.scheduled == map[]
      ensures currentSession == Some(Split(old(currentSession).value.session.(completedPayments := 1, status := Canceled)))
      ensures |old(log)| <= |log| && log[..|old(log)|] == old(log)
      ensures forall e | e in log[|old(log)|..] :: !e.RefundRequested?
    {
      ghost var s := currentSession.value.session;
      ghost var paid := s.(completedPayments := 1, status := Partial);
      assert paid == Apply(s, Confirm(0, true));
      var r := ProcessSplitPayment(sessionId, 0, Confirmed(Some(ConfirmedIntent(paidId, Succeeded))));
      assert currentSession == Some(Split(paid)) && h in timer.scheduled;
      ghost var mid := log;
      TimeoutFires(h, failures);
      assert TimeoutRefunds(paid.paymentIntents, sessionId) == [];
      assert log == mid + [Emitted(SplitTimeout, SessionPayload(paid.(status := Canceled)))];
    }

    /** `cancelPayment()`: nothing without a current session. Otherwise the
        timeout is cancelled, the backend is asked to cancel (a split session
        also runs the refund sweep), `payment:canceled` is emitted with the
        session's id, and the session is dropped. The session's own status is
        not changed before it is dropped. */
    method CancelPayment(failures: map<string, string>)
      requires Valid()
      modifies this, emitter, timer
      ensures Valid()
      ensures timeouts == old(timeouts)
      ensures old(currentSession).None? ==>
        currentSession == None && log == old(log) && timer.scheduled == old(timer.scheduled)
      ensures old(currentSession).Some? ==> currentSession == None && timer.scheduled == map[]
      ensures old(currentSession).Some? && old(currentSession).value.Single? ==>
        var id := old(currentSession).value.intent.id;
        log == old(log) + [Posted("/payment/" + id + "/cancel"),
                           Emitted(PaymentCanceled, ResultPayload(PaymentResult(true, id, Canceled, None)))]
      ensures old(currentSession).Some? && old(currentSession).value.Split? ==>
        var s := old(currentSession).value.session;
        var refunds := TimeoutRefunds(s.paymentIntents, s.sessionId);
        log == old(log) + [Posted("/payment/split/" + s.sessionId + "/cancel")]
          + RefundRequests(refunds) + RefundErrors(refunds, failures)
          + [Emitted(PaymentCanceled, ResultPayload(PaymentResult(true, s.sessionId, Canceled, None)))]
    {
      if currentSession.None? {
        return;
      }
      timer.ClearTimer(None);
      var paymentId;
      match currentSession.value {
        case Split(s) =>
          log := log + [Posted("/payment/split/" + s.sessionId + "/cancel")];
          RefundPartialPayments(s, failures);
          paymentId := s.sessionId;
        case Single(pi) =>
          log := log + [Posted("/payment/" + pi.id + "/cancel")];
          paymentId := pi.id;
      }
      Notify(PaymentCanceled, ResultPayload(PaymentResult(true, paymentId, Canceled, None)));
      currentSession := None;
    }

    /** `destroy()`: the timeout is cancelled, every listener removed and the
        session dropped. */
    method Destroy()
      requires Valid()
      modifies this, emitter, timer
      ensures Valid()
      ensures currentSession == None && timer.scheduled == map[] && emitter.listeners == map[]
      ensures log == old(log)
    {
      timer.ClearTimer(None);
      emitter.RemoveAllListeners(None);
      currentSession := None;
    }
  }
}
