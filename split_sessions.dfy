/** The split-session bookkeeping that the gateway (src/core.ts) and the
    example backend (examples/backend/server.ts) both perform on a
    `SplitPaymentSession`: the counter and status update after one
    confirmation, and the choice of intents the timeout sweep refunds. */
module SplitSessions {
  import opened PaymentTypes

  /** The sum of the intents' amounts. */
  function SumOfAmounts(intents: seq<PaymentIntent>): int {
    if intents == [] then 0 else SumOfAmounts(intents[..|intents| - 1]) + intents[|intents| - 1].amount
  }

  /** The session's total agrees with its intents. */
  predicate TotalMatches(s: SplitSession) {
    s.totalAmount == SumOfAmounts(s.paymentIntents)
  }

  /** One successful confirmation: `completedPayments += 1`; the session
      succeeds when the count equals the number of intents and is otherwise
      partial. Neither the intent's own status nor the session's previous
      status is consulted or changed. */
  function RecordSuccess(s: SplitSession): (r: SplitSession)
    ensures r.completedPayments == s.completedPayments + 1
    ensures r == s.(completedPayments := r.completedPayments, status := r.status)
    ensures r.status == Succeeded <==> s.completedPayments + 1 == |s.paymentIntents|
    ensures r.status != Succeeded ==> r.status == Partial
  {
    var done := s.completedPayments + 1;
    s.(completedPayments := done, status := if done == |s.paymentIntents| then Succeeded else Partial)
  }

  /** One unsuccessful confirmation: `failedPayments += 1`, nothing else. */
  function RecordFailure(s: SplitSession): (r: SplitSession)
    ensures r.failedPayments == s.failedPayments + 1
    ensures r == s.(failedPayments := r.failedPayments)
  {
    s.(failedPayments := s.failedPayments + 1)
  }

  /** The confirmation of split `index` as the caller drives it; an index with
      no intent is rejected before anything changes. */
  datatype Step = Confirm(index: int, succeeded: bool)

  predicate Applies(s: SplitSession, st: Step) {
    0 <= st.index < |s.paymentIntents|
  }

  /** The effect of one step on the session, as the code is written. */
  function Apply(s: SplitSession, st: Step): SplitSession {
    if !Applies(s, st) then s
    else if st.succeeded then RecordSuccess(s)
    else RecordFailure(s)
  }

  /** A sequence of steps, applied in order. */
  function Replay(s: SplitSession, steps: seq<Step>): SplitSession {
    if steps == [] then s else Apply(Replay(s, steps[..|steps| - 1]), steps[|steps| - 1])
  }

  /** How many steps of `steps` confirm an existing split with the given outcome. */
  function CountOutcome(n: nat, steps: seq<Step>, succeeded: bool): nat {
    if steps == [] then 0
    else
      var st := steps[|steps| - 1];
      CountOutcome(n, steps[..|steps| - 1], succeeded) + (if 0 <= st.index < n && st.succeeded == succeeded then 1 else 0)
  }

  /** Replaying steps changes only the two counters and the status: each
      successful step adds one to `completedPayments`, each unsuccessful one
      adds one to `failedPayments`, and the intents, the total and the
      identity of the session stay as they were. */
  lemma {:induction false} ReplayCounts(s: SplitSession, steps: seq<Step>)
    ensures var r := Replay(s, steps);
      && r.completedPayments == s.completedPayments + CountOutcome(|s.paymentIntents|, steps, true)
      && r.failedPayments == s.failedPayments + CountOutcome(|s.paymentIntents|, steps, false)
      && r.paymentIntents == s.paymentIntents
      && r.sessionId == s.sessionId && r.totalAmount == s.totalAmount
      && r.currency == s.currency && r.expiresAt == s.expiresAt
  {
    if steps != [] {
      ReplayCounts(s, steps[..|steps| - 1]);
    }
  }

  /** After any steps, the status is the initial one when no step succeeded;
      otherwise it is `succeeded` exactly when the success count equals the
      number of intents, and `partial` otherwise. */
  lemma {:induction false} ReplayStatus(s: SplitSession, steps: seq<Step>)
    ensures var r := Replay(s, steps);
      && (CountOutcome(|s.paymentIntents|, steps, true) == 0 ==> r.status == s.status)
      && (CountOutcome(|s.paymentIntents|, steps, true) > 0 ==>
            (r.status == Succeeded <==> r.completedPayments == |s.paymentIntents|)
            && (r.status != Succeeded ==> r.status == Partial))
  {
    if steps != [] {
      var init := steps[..|steps| - 1];
      ReplayStatus(s, init);
      ReplayCounts(s, init);
      ReplayCounts(s, steps);
    }
  }

  /** A fresh session with `n` intents succeeds once `n` successful
      confirmations have been counted, whichever splits they were for: the
      code does not notice that the same split was confirmed twice. */
  lemma FreshSessionSucceedsAfterNSuccesses(s: SplitSession, steps: seq<Step>)
    requires s.completedPayments == 0 && s.paymentIntents != []
    requires CountOutcome(|s.paymentIntents|, steps, true) == |s.paymentIntents|
    ensures Replay(s, steps).status == Succeeded
  {
    ReplayCounts(s, steps);
    ReplayStatus(s, steps);
  }

  /** A confirmation that arrives after the session succeeded reopens it:
      the count overshoots the number of intents and the status drops back
      to `partial`. Nothing makes `succeeded` terminal. */
  lemma SucceededSessionReopens(s: SplitSession)
    requires s.status == Succeeded && s.completedPayments == |s.paymentIntents|
    ensures RecordSuccess(s).status == Partial
  {
  }

  /** A timed-out session that then receives a successful confirmation leaves
      `canceled`: nothing makes `canceled` terminal either. */
  lemma CanceledSessionReopens(s: SplitSession)
    requires s.status == Canceled
    ensures RecordSuccess(s).status in {Succeeded, Partial}
  {
  }

  /** The refund the timeout sweep asks for, for one intent. */
  function TimeoutRefund(pi: PaymentIntent, sessionId: string): RefundRequest {
    RefundRequest(pi.id, "other", "split_payment_timeout", sessionId)
  }

  /** The number of intents whose status is `succeeded`. */
  function CountSucceeded(intents: seq<PaymentIntent>): nat {
    if intents == [] then 0
    else CountSucceeded(intents[..|intents| - 1]) + (if intents[|intents| - 1].status == Succeeded then 1 else 0)
  }

  /** The refund sweep: one request per intent whose status is `succeeded`, in
      intent order, all tagged with the timeout reason and the session; no
      request for any other intent. */
  function TimeoutRefunds(intents: seq<PaymentIntent>, sessionId: string): (r: seq<RefundRequest>)
    ensures |r| == CountSucceeded(intents)
    ensures forall k | 0 <= k < |intents| && intents[k].status == Succeeded ::
      TimeoutRefund(intents[k], sessionId) in r
    ensures forall q | q in r ::
      exists k | 0 <= k < |intents| :: intents[k].status == Succeeded && q == TimeoutRefund(intents[k], sessionId)
  {
    if intents == [] then []
    else
      var init := intents[..|intents| - 1];
      var last := intents[|intents| - 1];
      var rest := TimeoutRefunds(init, sessionId);
      assert forall k | 0 <= k < |init| :: init[k] == intents[k];
      rest + (if last.status == Succeeded then [TimeoutRefund(last, sessionId)] else [])
  }

  /** As written, confirmations never touch the intents' statuses, so the
      refunds the sweep would issue after any steps are those it would have
      issued before them. */
  lemma ReplayKeepsRefunds(s: SplitSession, steps: seq<Step>)
    ensures TimeoutRefunds(Replay(s, steps).paymentIntents, s.sessionId) == TimeoutRefunds(s.paymentIntents, s.sessionId)
  {
    ReplayCounts(s, steps);
  }

  /** A session as the backend returns it: no intent has succeeded yet. */
  predicate NoneSucceeded(s: SplitSession) {
    forall k | 0 <= k < |s.paymentIntents| :: s.paymentIntents[k].status != Succeeded
  }

  /** The discrepancy: one split of two is paid, the timeout sweep runs, and no
      refund is asked for. */
  lemma PaidSplitIsNeverRefunded(s: SplitSession)
    requires NoneSucceeded(s) && |s.paymentIntents| == 2 && s.completedPayments == 0
    ensures var r := Replay(s, [Confirm(0, true)]);
      r.completedPayments == 1 && r.status == Partial && TimeoutRefunds(r.paymentIntents, s.sessionId) == []
  {
    var steps := [Confirm(0, true)];
    assert steps[..0] == [];
    ReplayKeepsRefunds(s, steps);
  }

  /** The intended bookkeeping: a successful confirmation also marks its
      intent `succeeded`, so that the sweep can find it. */
  function ApplyRecorded(s: SplitSession, st: Step): SplitSession {
    if !Applies(s, st) then s
    else if st.succeeded then
      var r := RecordSuccess(s);
      r.(paymentIntents := s.paymentIntents[st.index := s.paymentIntents[st.index].(status := Succeeded)])
    else RecordFailure(s)
  }

  function ReplayRecorded(s: SplitSession, steps: seq<Step>): SplitSession {
    if steps == [] then s else ApplyRecorded(ReplayRecorded(s, steps[..|steps| - 1]), steps[|steps| - 1])
  }

  /** Whether some step confirmed split `k` successfully. */
  predicate ConfirmedSplit(steps: seq<Step>, k: int) {
    exists j | 0 <= j < |steps| :: steps[j] == Confirm(k, true)
  }

  /** With the intent marked on success, an intent of a session that started
      with none succeeded ends `succeeded` exactly when some step confirmed it;
      the counters evolve as in the code as written. */
  lemma {:induction false} ReplayRecordedMarksConfirmed(s: SplitSession, steps: seq<Step>)
    requires NoneSucceeded(s)
    ensures var r := ReplayRecorded(s, steps);
      && |r.paymentIntents| == |s.paymentIntents|
      && r.completedPayments == Replay(s, steps).completedPayments
      && r.failedPayments == Replay(s, steps).failedPayments
      && r.status == Replay(s, steps).status
      && forall k | 0 <= k < |s.paymentIntents| ::
           r.paymentIntents[k].id == s.paymentIntents[k].id
           && (r.paymentIntents[k].status == Succeeded <==> ConfirmedSplit(steps, k))
  {
    if steps != [] {
      var init := steps[..|steps| - 1];
      var st := steps[|steps| - 1];
      ReplayRecordedMarksConfirmed(s, init);
      ReplayCounts(s, init);
      forall k | 0 <= k < |s.paymentIntents|
        ensures ConfirmedSplit(steps, k) <==> ConfirmedSplit(init, k) || st == Confirm(k, true)
      {
        if ConfirmedSplit(steps, k) {
          var j :| 0 <= j < |steps| && steps[j] == Confirm(k, true);
          if j < |init| {
            assert init[j] == steps[j];
          }
        }
        if ConfirmedSplit(init, k) {
          var j :| 0 <= j < |init| && init[j] == Confirm(k, true);
          assert steps[j] == init[j];
        }
      }
    }
  }

  /** With the intended bookkeeping the sweep refunds exactly the splits that
      were confirmed successfully: every such split is refunded, and every
      refund is for such a split. */
  lemma RecordedSweepRefundsConfirmed(s: SplitSession, steps: seq<Step>)
    requires NoneSucceeded(s)
    ensures var r := ReplayRecorded(s, steps);
      && |r.paymentIntents| == |s.paymentIntents|
      && forall k | 0 <= k < |r.paymentIntents| && ConfirmedSplit(steps, k) ::
           TimeoutRefund(r.paymentIntents[k], s.sessionId) in TimeoutRefunds(r.paymentIntents, s.sessionId)
    ensures var r := ReplayRecorded(s, steps);
      forall q | q in TimeoutRefunds(r.paymentIntents, s.sessionId) ::
        exists k | 0 <= k < |r.paymentIntents| :: ConfirmedSplit(steps, k) && q == TimeoutRefund(r.paymentIntents[k], s.sessionId)
  {
    ReplayRecordedMarksConfirmed(s, steps);
  }
}
