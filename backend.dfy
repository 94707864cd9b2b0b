/** The session bookkeeping of the example backend
    (examples/backend/server.ts): split sessions stored by id in a map that
    remembers insertion order, the split-initialize route's validation and
    session construction, the timeout guard and sweep, the webhook-driven
    counters and the `verified` check. Stripe's answers, the clock and the
    random session id are parameters. */
module Backend {
  import opened Wrappers
  import opened JsStrings
  import opened PaymentTypes
  import opened SplitSessions

  /** One entry of the request's `splits`; `None` is a missing field. */
  datatype SplitSpec = SplitSpec(amount: Option<int>, splitLabel: Option<string>)

  /** What the route asks Stripe to create for one split. */
  datatype IntentRequest = IntentRequest(amount: int, currency: string, metadata: map<string, string>)

  /** What Stripe assigns to a created intent. */
  datatype Assigned = Assigned(id: string, clientSecret: string, status: PaymentStatus, created: int)

  /** A rejected request: the HTTP status and the error message. */
  datatype Rejection = Rejection(code: int, message: string)

  /** `!split.amount || split.amount <= 0` fails for this split. */
  predicate PositiveAmount(split: SplitSpec) {
    split.amount.Some? && split.amount.value > 0
  }

  /** The validation of the split-initialize route, in order: `splits`
      must be a non-empty array, then every amount must be positive. */
  function SplitsRejection(splits: Option<seq<SplitSpec>>): (r: Option<Rejection>)
    ensures r.None? <==> splits.Some? && |splits.value| > 0 && forall i | 0 <= i < |splits.value| :: PositiveAmount(splits.value[i])
    ensures r.Some? ==> r.value.code == 400
    ensures r == Some(Rejection(400, "Invalid splits configuration")) <==> splits.None? || splits.value == []
  {
    if splits.None? || splits.value == [] then Some(Rejection(400, "Invalid splits configuration"))
    else if exists i | 0 <= i < |splits.value| :: !PositiveAmount(splits.value[i]) then
      Some(Rejection(400, "Each split must have a positive amount"))
    else None
  }

  /** `splits.reduce((sum, split) => sum + split.amount, 0)` over splits
      whose amounts are all present. */
  function SplitSum(splits: seq<SplitSpec>): int
    requires forall i | 0 <= i < |splits| :: splits[i].amount.Some?
  {
    if splits == [] then 0 else SplitSum(splits[..|splits| - 1]) + splits[|splits| - 1].amount.value
  }

  /** The metadata of split `index`: its index, its label (or `Split n`,
      counted from one) and the order id (or `split_<now>`), then the
      client's metadata, which wins on a clash. */
  function SplitMetadata(split: SplitSpec, index: nat, orderId: Option<string>, metadata: map<string, string>, now: nat): map<string, string> {
    map["splitIndex" := NatToDecimal(index),
        "splitLabel" := (if split.splitLabel.Some? && split.splitLabel.value != "" then split.splitLabel.value else "Split " + NatToDecimal(index + 1)),
        "orderId" := (if orderId.Some? && orderId.value != "" then orderId.value else "split_" + NatToDecimal(now))]
      + metadata
  }

  /** The Stripe requests, one per split, in order. */
  function IntentRequests(splits: seq<SplitSpec>, orderId: Option<string>, metadata: map<string, string>, now: nat): (r: seq<IntentRequest>)
    requires forall i | 0 <= i < |splits| :: splits[i].amount.Some?
    ensures |r| == |splits|
    ensures forall i | 0 <= i < |splits| :: r[i].amount == splits[i].amount.value && r[i].currency == "usd"
    ensures forall i | 0 <= i < |splits| :: "splitIndex" in r[i].metadata && "orderId" in r[i].metadata
    ensures forall i | 0 <= i < |splits| :: "splitIndex" !in metadata ==> r[i].metadata["splitIndex"] == NatToDecimal(i)
    ensures forall i, key | 0 <= i < |splits| && key in metadata :: key in r[i].metadata && r[i].metadata[key] == metadata[key]
  {
    seq(|splits|, i requires 0 <= i < |splits| =>
      IntentRequest(splits[i].amount.value, "usd", SplitMetadata(splits[i], i, orderId, metadata, now)))
  }

  /** The stored intents: what Stripe issued, with the requested amount,
      currency and metadata. */
  function StoredIntents(requests: seq<IntentRequest>, issued: seq<Assigned>): (r: seq<PaymentIntent>)
    requires |issued| == |requests|
    ensures |r| == |requests|
    ensures forall i | 0 <= i < |r| ::
      r[i] == PaymentIntent(issued[i].id, issued[i].clientSecret, issued[i].status,
                            requests[i].amount, requests[i].currency, issued[i].created, requests[i].metadata)
  {
    seq(|requests|, i requires 0 <= i < |requests| =>
      PaymentIntent(issued[i].id, issued[i].clientSecret, issued[i].status,
                    requests[i].amount, requests[i].currency, issued[i].created, requests[i].metadata))
  }

  /** The stored intents add up to the sum of the split amounts. */
  lemma {:induction false} StoredIntentsSum(splits: seq<SplitSpec>, orderId: Option<string>, metadata: map<string, string>, now: nat, issued: seq<Assigned>)
    requires forall i | 0 <= i < |splits| :: splits[i].amount.Some?
    requires |issued| == |splits|
    ensures SumOfAmounts(StoredIntents(IntentRequests(splits, orderId, metadata, now), issued)) == SplitSum(splits)
  {
    if splits != [] {
      var n := |splits| - 1;
      var intents := StoredIntents(IntentRequests(splits, orderId, metadata, now), issued);
      var shorter := StoredIntents(IntentRequests(splits[..n], orderId, metadata, now), issued[..n]);
      StoredIntentsSum(splits[..n], orderId, metadata, now, issued[..n]);
      assert intents[..n] == shorter;
    }
  }

  /** `(timeout || 600) * 1000`: the delay of the timeout, in milliseconds. */
  function TimeoutDelay(timeout: Option<int>): (ms: int)
    ensures timeout.Some? && timeout.value != 0 ==> ms == timeout.value * 1000
    ensures timeout.None? || timeout.value == 0 ==> ms == 600000
  {
    (if timeout.Some? && timeout.value != 0 then timeout.value else 600) * 1000
  }

  /** The intents the sweep asks Stripe to cancel: those still waiting for
      a payment method or a confirmation, in order. */
  function CancelTargets(intents: seq<PaymentIntent>): (r: seq<string>)
    ensures forall k | 0 <= k < |intents| && intents[k].status in {RequiresPaymentMethod, RequiresConfirmation} ::
      intents[k].id in r
    ensures forall id | id in r ::
      exists k | 0 <= k < |intents| :: intents[k].status in {RequiresPaymentMethod, RequiresConfirmation} && intents[k].id == id
  {
    if intents == [] then []
    else
      var init := intents[..|intents| - 1];
      var last := intents[|intents| - 1];
      assert forall k | 0 <= k < |init| :: init[k] == intents[k];
      CancelTargets(init) + (if last.status in {RequiresPaymentMethod, RequiresConfirmation} then [last.id] else [])
  }

  /** No intent is both refunded and cancelled by the sweep. */
  lemma SweepTargetsDisjoint(intents: seq<PaymentIntent>, sessionId: string, r: RefundRequest, id: string)
    requires r in TimeoutRefunds(intents, sessionId) && id in CancelTargets(intents)
    requires forall j, k | 0 <= j < k < |intents| :: intents[j].id != intents[k].id
    ensures r.paymentIntentId != id
  {
    var j :| 0 <= j < |intents| && intents[j].status == Succeeded && r == TimeoutRefund(intents[j], sessionId);
    var k :| 0 <= k < |intents| && intents[k].status in {RequiresPaymentMethod, RequiresConfirmation} && intents[k].id == id;
    assert j != k;
  }

  /** Whether the session holds an intent with that id
      (`session.paymentIntents?.some(pi => pi.id === id)`). */
  predicate Owns(s: SplitSession, paymentIntentId: string) {
    exists k | 0 <= k < |s.paymentIntents| :: s.paymentIntents[k].id == paymentIntentId
  }

  /** The first session, in map order, that holds the intent. */
  function FirstOwner(ids: seq<string>, sessions: map<string, SplitSession>, paymentIntentId: string): (r: Option<string>)
    requires forall k | 0 <= k < |ids| :: ids[k] in sessions
    ensures r.None? <==> forall k | 0 <= k < |ids| :: !Owns(sessions[ids[k]], paymentIntentId)
    ensures r.Some? ==> r.value in ids && Owns(sessions[r.value], paymentIntentId)
  {
    if ids == [] then None
    else if Owns(sessions[ids[0]], paymentIntentId) then Some(ids[0])
    else
      var rest := FirstOwner(ids[1..], sessions, paymentIntentId);
      assert forall k | 1 <= k < |ids| :: ids[1..][k - 1] == ids[k];
      rest
  }

  /** No session before the one `FirstOwner` picks holds the intent. */
  lemma {:induction false} FirstOwnerIsFirst(ids: seq<string>, sessions: map<string, SplitSession>, paymentIntentId: string)
    requires forall k | 0 <= k < |ids| :: ids[k] in sessions
    ensures var r := FirstOwner(ids, sessions, paymentIntentId);
      r.Some? ==> exists k | 0 <= k < |ids| ::
        ids[k] == r.value && forall j | 0 <= j < k :: !Owns(sessions[ids[j]], paymentIntentId)
  {
    if ids != [] && !Owns(sessions[ids[0]], paymentIntentId) {
      var tail := ids[1..];
      FirstOwnerIsFirst(tail, sessions, paymentIntentId);
      var r := FirstOwner(tail, sessions, paymentIntentId);
      if r.Some? {
        var k :| 0 <= k < |tail| && tail[k] == r.value && forall j | 0 <= j < k :: !Owns(sessions[tail[j]], paymentIntentId);
        assert ids[k + 1] == r.value;
        assert forall j | 1 <= j < k + 1 :: ids[j] == tail[j - 1];
      }
    }
  }

  /** The intended webhook bookkeeping for a successful intent: the
      session's success counter and status move as on the client, and the
      intent itself is marked `succeeded` (the code as written does not mark
      it, so the sweep cannot find it). */
  function RecordPaid(s: SplitSession, paymentIntentId: string): (r: SplitSession)
    ensures |r.paymentIntents| == |s.paymentIntents|
    ensures r.(paymentIntents := s.paymentIntents) == RecordSuccess(s)
    ensures forall k | 0 <= k < |s.paymentIntents| ::
      r.paymentIntents[k] == if s.paymentIntents[k].id == paymentIntentId
        then s.paymentIntents[k].(status := Succeeded) else s.paymentIntents[k]
  {
    RecordSuccess(s).(paymentIntents := seq(|s.paymentIntents|, k requires 0 <= k < |s.paymentIntents| =>
      if s.paymentIntents[k].id == paymentIntentId then s.paymentIntents[k].(status := Succeeded) else s.paymentIntents[k]))
  }

  /** With distinct intent ids, the webhook for split `k`'s intent does to
      the session what the client's successful confirmation of split `k`
      does. */
  lemma WebhookMatchesClientStep(s: SplitSession, k: int)
    requires 0 <= k < |s.paymentIntents|
    requires forall i, j | 0 <= i < j < |s.paymentIntents| :: s.paymentIntents[i].id != s.paymentIntents[j].id
    ensures RecordPaid(s, s.paymentIntents[k].id) == ApplyRecorded(s, Confirm(k, true))
  {
    var a := RecordPaid(s, s.paymentIntents[k].id);
    var b := ApplyRecorded(s, Confirm(k, true));
    assert a.paymentIntents == b.paymentIntents by {
      forall i | 0 <= i < |s.paymentIntents|
        ensures a.paymentIntents[i] == b.paymentIntents[i]
      {
        if i != k {
          assert s.paymentIntents[i].id != s.paymentIntents[k].id;
        }
      }
    }
  }

  /** The timeout callback's guard as written: only a session that is still
      `pending` is swept. */
  predicate SweepsAsWritten(s: SplitSession) {
    s.status == Pending
  }

  /** The guard as intended: a session that has not succeeded and was not
      already cancelled, `pending` or `partial`, is swept. */
  predicate Sweeps(s: SplitSession) {
    s.status == Pending || s.status == Partial
  }

  /** The discrepancy: in a fresh two-split session whose first split is
      paid, the webhook as written leaves the session `partial` and the
      intent unmarked, so the timeout skips the session and even a sweep
      would refund nothing. With the intended bookkeeping the paid intent is
      marked, the intended guard sweeps the `partial` session and the sweep
      refunds that split. */
  lemma PartialSessionSkippedByTimeout(s: SplitSession)
    requires s.status == Pending && s.completedPayments == 0 && |s.paymentIntents| == 2
    requires NoneSucceeded(s)
    ensures var asWritten := RecordSuccess(s);
      && asWritten.status == Partial
      && !SweepsAsWritten(asWritten)
      && TimeoutRefunds(asWritten.paymentIntents, s.sessionId) == []
    ensures var paid := RecordPaid(s, s.paymentIntents[0].id);
      && paid.status == Partial
      && paid.paymentIntents[0].status == Succeeded
      && Sweeps(paid)
      && TimeoutRefund(paid.paymentIntents[0], s.sessionId) in TimeoutRefunds(paid.paymentIntents, s.sessionId)
  {
    PaidSplitIsNeverRefunded(s);
  }

  /** `verified` in the verify route: the intent succeeded, and its amount
      and currency match the expected ones when those are given (a zero
      amount or an empty currency counts as not given). */
  predicate Verified(status: PaymentStatus, amount: int, currency: string, expectedAmount: Option<int>, expectedCurrency: Option<string>) {
    && status == Succeeded
    && (expectedAmount.None? || expectedAmount.value == 0 || amount == expectedAmount.value)
    && (expectedCurrency.None? || expectedCurrency.value == "" || currency == ToLower(expectedCurrency.value))
  }

  /** The expected currency is compared case-insensitively: writing it in
      upper case changes nothing, so Stripe's `usd` matches an expected
      `USD` as well as `usd`. */
  lemma ExpectedCurrencyCaseIgnored(status: PaymentStatus, amount: int, currency: string, expectedAmount: Option<int>, expected: string)
    ensures Verified(status, amount, currency, expectedAmount, Some(expected))
      <==> Verified(status, amount, currency, expectedAmount, Some(ToUpper(expected)))
  {
    LowerOfUpper(expected);
  }

  /** Only the expected side is lower-cased: a stored currency with an
      upper-case letter never matches a non-empty expected currency. */
  lemma UpperStoredCurrencyNeverVerified(status: PaymentStatus, amount: int, currency: string, expectedAmount: Option<int>, expectedCurrency: Option<string>)
    requires exists i | 0 <= i < |currency| :: IsUpperAscii(currency[i])
    requires expectedCurrency.Some? && expectedCurrency.value != ""
    ensures !Verified(status, amount, currency, expectedAmount, expectedCurrency)
  {
    var i :| 0 <= i < |currency| && IsUpperAscii(currency[i]);
    assert currency != ToLower(expectedCurrency.value) by {
      assert !IsUpperAscii(LowerChar(currency[i]));
    }
  }

  predicate NoDuplicateIds(ids: seq<string>) {
    forall i, j | 0 <= i < j < |ids| :: ids[i] != ids[j]
  }

  class SessionStore {
    /** `sessionStorage`. */
    var sessions: map<string, SplitSession>
    /** The keys of `sessions` in insertion order, the order `entries()`
        visits them. */
    var order: seq<string>

    ghost predicate Valid()
      reads this
    {
      && NoDuplicateIds(order)
      && (forall k | 0 <= k < |order| :: order[k] in sessions)
      && (forall id | id in sessions :: id in order)
    }

    constructor ()
      ensures Valid() && sessions == map[] && order == []
    {
      sessions := map[];
      order := [];
    }

    /** `sessionStorage.set(id, session)`: a new key goes to the end of the
        order, an existing key keeps its place. */
    method Store(id: string, session: SplitSession)
      requires Valid()
      modifies this
      ensures Valid()
      ensures sessions == old(sessions)[id := session]
      ensures order == if id in old(sessions) then old(order) else old(order) + [id]
    {
      if id !in sessions {
        order := order + [id];
      }
      sessions := sessions[id := session];
    }

    /** The split-initialize route. A request without splits, or with a
        split whose amount is missing or not positive, is rejected before
        any intent is created. Otherwise one intent is requested per split;
        if any creation fails the route answers 500 and stores nothing;
        else the new session (pending, zero counters, the sum of the
        amounts, expiring `(timeout || 600) * 1000` ms from now) is stored
        and the timeout is armed with the same delay. */
    method InitializeSplit(splits: Option<seq<SplitSpec>>, timeout: Option<int>, orderId: Option<string>,
                           metadata: map<string, string>, now: nat, sessionId: string,
                           answers: Result<seq<Assigned>, string>)
      returns (r: Result<SplitSession, Rejection>, requests: seq<IntentRequest>, delayMs: int)
      requires Valid()
      requires answers.Success? && SplitsRejection(splits).None? ==> |answers.value| == |splits.value|
      modifies this
      ensures Valid()
      ensures SplitsRejection(splits).Some? ==>
        r == Failure(SplitsRejection(splits).value) && requests == []
        && sessions == old(sessions) && order == old(order)
      ensures SplitsRejection(splits).None? ==>
        requests == IntentRequests(splits.value, orderId, metadata, now)
      ensures SplitsRejection(splits).None? && answers.Failure? ==>
        r == Failure(Rejection(500, answers.error)) && sessions == old(sessions) && order == old(order)
      ensures SplitsRejection(splits).None? && answers.Success? ==>
        && r.Success?
        && r.value == SplitSession(sessionId, StoredIntents(requests, answers.value), Pending,
                                   SplitSum(splits.value), "usd", now + delayMs, 0, 0)
        && TotalMatches(r.value)
        && delayMs == TimeoutDelay(timeout)
        && sessions == old(sessions)[sessionId := r.value]
        && order == if sessionId in old(sessions) then old(order) else old(order) + [sessionId]
    {
      delayMs := TimeoutDelay(timeout);
      var rejection := SplitsRejection(splits);
      if rejection.Some? {
        return Failure(rejection.value), [], delayMs;
      }
      requests := IntentRequests(splits.value, orderId, metadata, now);
      if answers.Failure? {
        return Failure(Rejection(500, answers.error)), requests, delayMs;
      }
      var intents := StoredIntents(requests, answers.value);
      var session := SplitSession(sessionId, intents, Pending, SplitSum(splits.value), "usd", now + delayMs, 0, 0);
      StoredIntentsSum(splits.value, orderId, metadata, now, answers.value);
      Store(sessionId, session);
      r := Success(session);
    }

    /** `handleSplitTimeout(sessionId)`: nothing for an unknown session;
        otherwise the session becomes `canceled` whatever its status, the
        succeeded intents are refunded and the ones waiting for a method or
        a confirmation are cancelled. Stripe's failures are caught and
        logged, so they change nothing here. */
    method HandleSplitTimeout(sessionId: string) returns (refunds: seq<RefundRequest>, cancels: seq<string>)
      requires Valid()
      modifies this
      ensures Valid() && order == old(order)
      ensures sessionId !in old(sessions) ==> sessions == old(sessions) && refunds == [] && cancels == []
      ensures sessionId in old(sessions) ==>
        var s := old(sessions)[sessionId];
        && sessions == old(sessions)[sessionId := s.(status := Canceled)]
        && refunds == TimeoutRefunds(s.paymentIntents, sessionId)
        && cancels == CancelTargets(s.paymentIntents)
    {
      if sessionId !in sessions {
        return [], [];
      }
      var session := sessions[sessionId].(status := Canceled);
      Store(sessionId, session);
      refunds := TimeoutRefunds(session.paymentIntents, sessionId);
      cancels := CancelTargets(session.paymentIntents);
    }

    /** The timeout callback as written: the sweep runs only for a stored
        session that is still `pending`; a `partial` session, like one that
        succeeded or was already cancelled, is left alone. */
    method TimeoutFires(sessionId: string) returns (refunds: seq<RefundRequest>, cancels: seq<string>)
      requires Valid()
      modifies this
      ensures Valid() && order == old(order)
      ensures !(sessionId in old(sessions) && SweepsAsWritten(old(sessions)[sessionId])) ==>
        sessions == old(sessions) && refunds == [] && cancels == []
      ensures sessionId in old(sessions) && SweepsAsWritten(old(sessions)[sessionId]) ==>
        var s := old(sessions)[sessionId];
        && sessions == old(sessions)[sessionId := s.(status := Canceled)]
        && refunds == TimeoutRefunds(s.paymentIntents, sessionId)
        && cancels == CancelTargets(s.paymentIntents)
    {
      refunds, cancels := [], [];
      if sessionId in sessions && SweepsAsWritten(sessions[sessionId]) {
        refunds, cancels := HandleSplitTimeout(sessionId);
      }
    }

    /** The timeout callback with the intended guard: a stored session that
        is `pending` or `partial` is swept. */
    method TimeoutFiresIntended(sessionId: string) returns (refunds: seq<RefundRequest>, cancels: seq<string>)
      requires Valid()
      modifies this
      ensures Valid() && order == old(order)
      ensures !(sessionId in old(sessions) && Sweeps(old(sessions)[sessionId])) ==>
        sessions == old(sessions) && refunds == [] && cancels == []
      ensures sessionId in old(sessions) && Sweeps(old(sessions)[sessionId]) ==>
        var s := old(sessions)[sessionId];
        && sessions == old(sessions)[sessionId := s.(status := Canceled)]
        && refunds == TimeoutRefunds(s.paymentIntents, sessionId)
        && cancels == CancelTargets(s.paymentIntents)
    {
      refunds, cancels := [], [];
      if sessionId in sessions && Sweeps(sessions[sessionId]) {
        refunds, cancels := HandleSplitTimeout(sessionId);
      }
    }

    /** The loop both webhook handlers share: the first session in map order
        that holds the intent. */
    method FindOwner(paymentIntentId: string) returns (owner: Option<string>)
      requires Valid()
      ensures owner == FirstOwner(order, sessions, paymentIntentId)
    {
      var i := 0;
      while i < |order|
        invariant 0 <= i <= |order|
        invariant FirstOwner(order[i..], sessions, paymentIntentId) == FirstOwner(order, sessions, paymentIntentId)
      {
        var id := order[i];
        if Owns(sessions[id], paymentIntentId) {
          return Some(id);
        }
        assert order[i..][1..] == order[i + 1..];
        i := i + 1;
      }
      return None;
    }

    /** `handlePaymentSuccess(paymentIntent)` as written: for an intent with
        a `splitIndex`, the first session holding it counts one more success
        and moves to `partial` or `succeeded`; the intent itself keeps its
        stored status. Every other session is unchanged, and nothing changes
        when no session holds it. */
    method HandlePaymentSuccess(paymentIntentId: string, hasSplitIndex: bool)
      requires Valid()
      modifies this
      ensures Valid() && order == old(order)
      ensures var owner := FirstOwner(old(order), old(sessions), paymentIntentId);
        sessions == if hasSplitIndex && owner.Some?
          then old(sessions)[owner.value := RecordSuccess(old(sessions)[owner.value])]
          else old(sessions)
    {
      if !hasSplitIndex {
        return;
      }
      var owner := FindOwner(paymentIntentId);
      if owner.Some? {
        Store(owner.value, RecordSuccess(sessions[owner.value]));
      }
    }

    /** The intended success webhook: as above, and the paid intent is also
        marked `succeeded`, so a later sweep refunds it. */
    method HandlePaymentSuccessRecorded(paymentIntentId: string, hasSplitIndex: bool)
      requires Valid()
      modifies this
      ensures Valid() && order == old(order)
      ensures var owner := FirstOwner(old(order), old(sessions), paymentIntentId);
        sessions == if hasSplitIndex && owner.Some?
          then old(sessions)[owner.value := RecordPaid(old(sessions)[owner.value], paymentIntentId)]
          else old(sessions)
    {
      if !hasSplitIndex {
        return;
      }
      var owner := FindOwner(paymentIntentId);
      if owner.Some? {
        Store(owner.value, RecordPaid(sessions[owner.value], paymentIntentId));
      }
    }

    /** `handlePaymentFailure(paymentIntent)`: for an intent with a
        `splitIndex`, the first session holding it counts one more failure
        and nothing else changes. */
    method HandlePaymentFailure(paymentIntentId: string, hasSplitIndex: bool)
      requires Valid()
      modifies this
      ensures Valid() && order == old(order)
      ensures var owner := FirstOwner(old(order), old(sessions), paymentIntentId);
        sessions == if hasSplitIndex && owner.Some?
          then old(sessions)[owner.value := RecordFailure(old(sessions)[owner.value])]
          else old(sessions)
    {
      if !hasSplitIndex {
        return;
      }
      var owner := FindOwner(paymentIntentId);
      if owner.Some? {
        Store(owner.value, RecordFailure(sessions[owner.value]));
      }
    }

    /** The first of two splits is paid through the webhook and the timeout
        then goes off: the session stays `partial`, and nothing is refunded
        or cancelled. */
    method PaidSplitThenTimeout(sessionId: string) returns (refunds: seq<RefundRequest>, cancels: seq<string>)
      requires Valid() && sessions.Keys == {sessionId}
      requires var s := sessions[sessionId];
        s.status == Pending && s.completedPayments == 0 && |s.paymentIntents| == 2 && NoneSucceeded(s)
      modifies this
      ensures sessions == map[sessionId := RecordSuccess(old(sessions)[sessionId])]
      ensures sessions[sessionId].status == Partial
      ensures refunds == [] && cancels == []
    {
      var paidId := sessions[sessionId].paymentIntents[0].id;
      assert Owns(sessions[sessionId], paidId);
      assert sessionId in order;
      assert FirstOwner(order, sessions, paidId) == Some(sessionId);
      HandlePaymentSuccess(paidId, true);
      refunds, cancels := TimeoutFires(sessionId);
    }
  }
}
