# vsplit-payment-gateway — split-payment bookkeeping in Dafny

A model of the split-payment core of vsplit-payment-gateway and proofs about it. A split payment divides one order into several Stripe payment intents. A *split session* counts the confirmed and the failed splits. The session becomes `succeeded` when every split is paid, and it is otherwise `partial`. A timeout cancels the session and refunds the splits that were paid. The model covers:

- **The client gateway** (`src/core.ts`, module `Gateway`), a class `VSplitPaymentGateway`:
  - It holds the current session, a payment timer and an event emitter.
  - It has single-payment and split-payment initialisation and confirmation, the split timeout, the refund sweep, cancellation and `destroy`.
  - Stripe's confirmation, the API client's answers and the refund answers are parameters.
  - Every request posted, refund asked for and event emitted goes to a ghost log.
- **The session bookkeeping** (module `SplitSessions`): what one confirmation does to a session, replays of any sequence of confirmations, and the refund sweep's filter.
- **The event emitter** (`src/utils/event-emitter.ts`, module `Events`):
  - A class `EventEmitter` holding a map from event to the ordered list of its listeners.
  - Callbacks are opaque numbers. A `once` registration is a wrapper with its own identity.
- **The payment timer** (`src/utils/payment-timer.ts`, module `Timers`):
  - A class `PaymentTimer` with one unnamed slot and a map of named timers.
  - Timer handles are fresh numbers. The set of pending timers is explicit, and a timer going off is the explicit event `Fire(h)`.
- **The validators** (`src/utils/validation.ts`, module `Validation`) over integer amounts.
- **The formatters** (`src/utils/formatting.ts`, module `Formatting`).
- **The example backend's session store** (`examples/backend/server.ts`, module `Backend`), a class `SessionStore`:
  - The split-initialize route's validation and session construction.
  - The timeout guard and sweep.
  - The webhook-driven counters.
  - The `verified` check.
  - Stripe's answers, the clock and the random session id are parameters.
- **Support modules**:
  - `JsStrings` models the JavaScript string operations the code relies on: `replace(/\D/g, '')`, `toString`, `padStart`, `trim`, ASCII case mapping and `slice` with negative indices.
  - `PaymentTypes` holds the records of `src/types.ts`.
  - `Wrappers` holds `Option` and `Result`.

Amounts are integers in the smallest currency unit. Where the code and its design notes disagree, the model follows the code:

- A session's status is never terminal: a success after `succeeded` or `canceled` still moves the counters and the status.
- `requires_action` counts as a failed split.
- Re-confirming a split that already succeeded is not rejected.
- `cancelPayment` does not set the session's status.
- The split-count bounds 2..10 are not enforced by the gateway. Only `validateSplitPayments` checks 1..10, and nothing calls it.

Where the code has a defect (see "## Findings"), the model states the code as written in one member and the intended behaviour in another. The classes run the code as written, and the intended behaviour sits beside them:

- The gateway confirms splits with `Apply`, which leaves the intents' status alone. The intended `ApplyRecorded`, which marks the paid intent, is a function with its own lemmas.
- The gateway notifies listeners with the emitter's `Emit`. The intended `EmitSnapshot` is a separate method.
- The gateway's timer goes off through `FireAsWritten`. For the unnamed timer, the only one the gateway uses, it agrees with the intended `Fire`.
- The backend's `TimeoutFires` uses the `SweepsAsWritten` guard. `TimeoutFiresIntended` uses the intended `Sweeps` guard.
- The backend's `HandlePaymentSuccess` uses `RecordSuccess`. `HandlePaymentSuccessRecorded` uses the intended `RecordPaid`.

## Model

| member | source | states |
|---|---|---|
| JsStrings.Digits | src/utils/formatting.ts:122 | stripping non-digits leaves only digits and never lengthens the string |
| JsStrings.NatToDecimal | examples/backend/server.ts:132 | `toString` of a natural number is a non-empty digit string without a leading zero, one digit exactly below ten |
| JsStrings.DecimalRoundTrip | examples/backend/server.ts:132 | reading back the decimal text of a split index gives the index |
| JsStrings.PadStart | src/utils/formatting.ts:162-164 | `padStart(width, fill)` keeps the whole string as a suffix, puts only fill characters before it, and never truncates |
| JsStrings.TrimEmptyIffAllWhitespace | src/utils/validation.ts:67 | the trimmed string is non-empty exactly when some character is not white space |
| JsStrings.ToUpper | src/utils/formatting.ts:44 | `toUpperCase` keeps the length and maps each character on its own |
| JsStrings.ToLower | src/utils/formatting.ts:237 | `toLowerCase` on ASCII letters keeps the length and maps each character on its own |
| JsStrings.UpperOfLower | src/utils/formatting.ts:124 | upper-casing forgets any earlier lower-casing, so the country switch ignores case |
| JsStrings.SliceIndex | src/utils/formatting.ts:201 | a `slice` index within the string is itself, a negative one counts from the end, and the result is clamped to the length |
| SplitSessions.RecordSuccess | src/core.ts:243-255 | a success adds one to `completedPayments`, makes the session `succeeded` exactly when the count reaches the number of intents and `partial` otherwise, and changes nothing else |
| SplitSessions.RecordFailure | src/core.ts:256-258 | a failure adds one to `failedPayments` and changes nothing else, status included |
| SplitSessions.ReplayCounts | src/core.ts:243-258 | after any sequence of confirmations the counters grew by exactly the number of in-range successes and failures, and the intents, id, total, currency and expiry are unchanged |
| SplitSessions.ReplayStatus | src/core.ts:247-255 | after any sequence with at least one success the status is `succeeded` exactly when the success count equals the number of intents, else `partial`; with no success it is unchanged |
| SplitSessions.FreshSessionSucceedsAfterNSuccesses | src/core.ts:248-249 | a fresh session with n intents that sees n successes is `succeeded` |
| SplitSessions.SucceededSessionReopens | src/core.ts:243-255 | no terminal check: one more success on a completed session makes it `partial` |
| SplitSessions.CanceledSessionReopens | src/core.ts:243-255 | no terminal check: a success on a `canceled` session makes it `succeeded` or `partial` |
| SplitSessions.TimeoutRefunds | src/core.ts:297-314 | the sweep asks for exactly one refund per intent whose status is `succeeded`, with reason `other` and metadata `split_payment_timeout` and the session id, and for no other intent |
| SplitSessions.ReplayKeepsRefunds | src/core.ts:243-258 | confirmations as written never change what the sweep refunds |
| SplitSessions.PaidSplitIsNeverRefunded | src/core.ts:241-258 | as written, a fresh two-split session with its first split paid is `partial` with one completed payment, and the sweep refunds nothing |
| SplitSessions.ReplayRecordedMarksConfirmed | src/core.ts:243-258 | the intended bookkeeping keeps the counters and status of the code as written and marks exactly the splits confirmed successfully as `succeeded` |
| SplitSessions.RecordedSweepRefundsConfirmed | src/core.ts:297-314 | with the intended bookkeeping the sweep refunds exactly the splits that were confirmed successfully: each of them is refunded, and every refund is for one of them |
| Events.IndexOf | src/utils/event-emitter.ts:23 | `indexOf` is the first position of the listener, or -1 exactly when it is absent |
| Events.RemoveFirst | src/utils/event-emitter.ts:23-26 | `splice(indexOf(x), 1)` removes only the first occurrence and keeps the others in order; an absent listener leaves the list unchanged |
| Events.SpliceOut | src/utils/event-emitter.ts:23-26 | the `indexOf` and `splice` of `off` compute exactly `RemoveFirst`: the first occurrence goes, the list is unchanged when there is none |
| Events.AfterEmitWithin | src/utils/event-emitter.ts:49-56 | after an emit over a snapshot, the list holds only listeners that were there and do not remove themselves |
| Events.AfterEmitKeepsPlain | src/utils/event-emitter.ts:49-56 | every plain listener, and every `once` wrapper whose callback threw, survives an emit |
| Events.ForEachStaysInList | src/utils/event-emitter.ts:36-42 | `forEach` over the live list calls only callbacks of listeners in the list and leaves only listeners that were in it |
| Events.ForEachWithoutRemovals | src/utils/event-emitter.ts:36-42 | with no self-removing listener, `forEach` calls every callback once in registration order and leaves the list unchanged |
| Events.ForEachKeeps | src/utils/event-emitter.ts:36-42 | a listener that does not remove itself is still registered after `forEach` |
| Events.ListenerAfterOnceIsSkipped | src/utils/event-emitter.ts:36-42 | as written, a `once` listener followed by a plain one: the emit calls only the first, because the splice shifts the second under the loop |
| Events.EventEmitter.constructor | src/utils/event-emitter.ts:5 | a new emitter has no events |
| Events.EventEmitter.On | src/utils/event-emitter.ts:10-15 | `on` appends the callback at the end of the event's list, creating it if absent, without deduplication, so `listenerCount` grows by one |
| Events.EventEmitter.Once | src/utils/event-emitter.ts:49-56 | `once` appends a fresh wrapper, distinct from every listener already registered |
| Events.EventEmitter.Off | src/utils/event-emitter.ts:20-28 | `off` removes the first occurrence of the callback, keeps the key even when the list empties, and does nothing for an unknown event |
| Events.EventEmitter.Emit | src/utils/event-emitter.ts:33-44 | `emit` as written: the calls and the resulting list are those of `forEach` over the live list; an event without a list does nothing |
| Events.EventEmitter.ForEach | src/utils/event-emitter.ts:36-42 | the loop computes the live-list `forEach` |
| Events.EventEmitter.EmitSnapshot | src/utils/event-emitter.ts:33-44 | intended `emit`: every listener registered when the emit starts is called once, in order, thrown errors are swallowed, and the `once` wrappers whose callback returned are removed |
| Events.EventEmitter.CallListeners | src/utils/event-emitter.ts:36-42 | the loop over a snapshot calls every callback in order and leaves exactly the listeners that do not remove themselves |
| Events.EventEmitter.RemoveAllListeners | src/utils/event-emitter.ts:61-67 | with an event, only its list and name are deleted; without one, every list is |
| Events.EventEmitter.ListenerCount | src/utils/event-emitter.ts:72-75 | the length of the event's list, 0 for an event never registered |
| Events.EventEmitter.EventNames | src/utils/event-emitter.ts:80-82 | every event that has a list, an emptied one included, each once |
| Timers.SlotOf | src/utils/payment-timer.ts:24 | an empty timer id counts as no id |
| Timers.PaymentTimer.constructor | src/utils/payment-timer.ts:5-6 | a new timer has nothing pending |
| Timers.PaymentTimer.HasActiveTimer | src/utils/payment-timer.ts:73-78 | true exactly when a timer with that id, or the unnamed one, is pending |
| Timers.PaymentTimer.ClearTimer | src/utils/payment-timer.ts:38-51 | cancels and forgets only the named timer, or only the unnamed one; an unknown id changes nothing, and afterwards `hasActiveTimer` is false |
| Timers.PaymentTimer.StartTimer | src/utils/payment-timer.ts:11-33 | cancels the previous timer with the same id (or the previous unnamed one), leaves the others alone, and makes the new timer the only one in its slot |
| Timers.PaymentTimer.StartInterval | src/utils/payment-timer.ts:92-106 | the same replace-on-start bookkeeping, for a repeating timer |
| Timers.NamedStartConsistent | src/utils/payment-timer.ts:24-27 | starting a named timer under a fresh handle, after cancelling the one recorded under that name, keeps every recorded handle pending in its own slot and every pending named timer recorded under its name |
| Timers.PaymentTimer.ClearAllTimers | src/utils/payment-timer.ts:56-68 | forgets the unnamed timer and every named one, and cancels every pending timer it still tracks |
| Timers.PaymentTimer.Destroy | src/utils/payment-timer.ts:111-113 | leaves no tracked timer pending |
| Timers.PaymentTimer.FireAsWritten | src/utils/payment-timer.ts:16-22 | as written, a one-shot timer going off deletes its own id and clears the unnamed slot even when it is named; an interval changes nothing |
| Timers.PaymentTimer.Fire | src/utils/payment-timer.ts:16-22 | intended: a one-shot timer going off deletes its own id, clears the unnamed slot only when it is that slot's timer, and keeps every pending timer tracked |
| Timers.OrphanedUnnamedTimer | src/utils/payment-timer.ts:16-22 | as written, after a named timer goes off, a pending unnamed timer is invisible to `hasActiveTimer()` and survives `clearTimer()` and `clearAllTimers()` |
| Timers.NoOrphanWhenFiringOwnRecord | src/utils/payment-timer.ts:16-22 | with the intended `Fire`, the same sequence leaves nothing pending after `clearAllTimers()` |
| Validation.CurrencyIsUpperCase | src/utils/validation.ts:24-27 | a valid code is three upper-case ASCII letters, so `usd` is rejected while its upper-cased form is accepted |
| Validation.OrderIdNeedsNonBlank | src/utils/validation.ts:66-68 | an order id is valid exactly when it has a character that is not white space |
| Validation.ValidPhoneShape | src/utils/validation.ts:32-35 | a valid phone number has at least ten characters and no letter |
| Validation.ValidEmailHasOneAt | src/utils/validation.ts:9-12 | a valid email has exactly one `@`, not at the start, and no white space |
| Validation.FirstInvalidAmount | src/utils/validation.ts:106-110 | the first split whose amount is not positive, or none exactly when all are |
| Validation.SplitsValidIff | src/utils/validation.ts:92-112 | the splits are accepted exactly when there are one to ten, they sum to the total and every amount is positive |
| Validation.InvalidSplitMessageNamesFirst | src/utils/validation.ts:106-110 | the number in `Invalid amount for split n` is the one-based position of the first non-positive amount |
| Validation.ValidateSplitPayments | src/utils/validation.ts:85-113 | the loop reports the errors in order (none, more than ten, sum mismatch, first invalid amount) and is valid exactly when it reports none |
| Validation.MessageNamesCheck | src/utils/validation.ts:124-150 | distinct checks push distinct messages |
| Validation.ConfigErrorsIff | src/utils/validation.ts:118-156 | the error list is empty exactly when no check fails |
| Validation.ValidatePaymentConfig | src/utils/validation.ts:118-156 | pushes one message per failing check in the fixed order (amount, currency, order id, email, phone, return URL, webhook URL), and is valid exactly when none was pushed |
| Validation.ConfigValidIff | src/utils/validation.ts:118-156 | a configuration passes exactly when amount, currency and order id are valid and each optional field, when present and non-empty, is valid |
| Formatting.CurrencySymbol | src/utils/formatting.ts:30-45 | the table symbol of the upper-cased code for the ten listed codes, otherwise the upper-cased code |
| Formatting.CurrencySymbolIgnoresCase | src/utils/formatting.ts:30-45 | the symbol does not depend on the code's case, and `usd` gives `$` |
| Formatting.NorthAmericanLong | src/utils/formatting.ts:127-130 | the `+1 (ddd) ddd-dddd` layout of eleven digits keeps those digits and is a valid phone number |
| Formatting.NorthAmericanShort | src/utils/formatting.ts:131-134 | the `(ddd) ddd-dddd` layout of ten digits keeps them and is a valid phone number |
| Formatting.BritishInternational | src/utils/formatting.ts:139-140 | the `+44 dddd d…` layout keeps the eleven digits and is a valid phone number |
| Formatting.BritishNational | src/utils/formatting.ts:141-142 | the `ddddd d…` layout keeps the eleven digits and is a valid phone number |
| Formatting.PhoneFormatKeepsDigits | src/utils/formatting.ts:117-149 | formatting never changes the digits of the number, and any layout it applies is a valid phone number |
| Formatting.PhoneFormatIdempotent | src/utils/formatting.ts:117-149 | formatting a formatted number changes nothing |
| Formatting.PhoneCountryIgnoresCase | src/utils/formatting.ts:124 | the country code's case does not matter |
| Formatting.PaddedValue | src/utils/formatting.ts:162-164 | a zero-padded number is all digits and reads back as the number |
| Formatting.TimeRemainingReadsBack | src/utils/formatting.ts:154-165 | `00:00` for no time left; otherwise the text reads back as at least two digits of minutes and exactly two of seconds below 60, which recombine to the input |
| Formatting.MaskCardNumber | src/utils/formatting.ts:196-205 | same length; a number shorter than four is unchanged; otherwise the last four characters are kept and every earlier one is `*` |
| Formatting.MaskIdempotent | src/utils/formatting.ts:196-205 | masking twice equals masking once, and the mask depends only on the length and the last four characters |
| Formatting.FormatPaymentStatus | src/utils/formatting.ts:225-238 | intended: a status that lower-cases to one of the eight table keys gives its label, any other text is returned unchanged |
| Formatting.InheritedStatusKeyIsNotAString | src/utils/formatting.ts:237 | as written, `constructor` and `__proto__` (in any case) find inherited object members, so the result is not a string |
| Formatting.AsWrittenAgreesOffInheritedKeys | src/utils/formatting.ts:225-238 | on every other input the code as written returns exactly the intended label |
| Formatting.StatusLabelsDistinct | src/utils/formatting.ts:226-235 | a table status is labelled the same in any case, distinct statuses get distinct labels, and `partial` reads `Partially Completed` |
| Formatting.TruncateText | src/utils/formatting.ts:243-249 | text that fits is unchanged; otherwise, for a limit of at least three, the result has exactly the limit's length and is the text's prefix followed by `...` |
| Formatting.TruncateBelowThreeGrows | src/utils/formatting.ts:248 | below a limit of three the negative `slice` end makes the "truncated" text longer than the input |
| Gateway.MessageOr | src/core.ts:105 | an absent or empty message gives the fallback, any other gives itself |
| Gateway.ConfirmationResult | src/core.ts:148-184 | success exactly for a `succeeded` intent; the event is `payment:success`, `payment:requires_action` for `requires_action`, else `payment:failed`; an error is set exactly when Stripe declined or threw; the payment id falls back to the requested one |
| Gateway.RequiresActionCountsAsFailure | src/core.ts:159-172 | a `requires_action` confirmation emits `payment:requires_action` and counts as a failed split |
| Gateway.ResolveTimeout | src/core.ts:194 | `config.timeout`, else the default, else 600: never zero |
| Gateway.SplitTarget | src/core.ts:231-239 | a split is processed exactly when the current session is the split session with that id and the index is in range; otherwise `Invalid session` or `Invalid split index`, in that order |
| Gateway.RefundRequests | src/core.ts:300-311 | the refund requests, one log entry each, in order |
| Gateway.RefundErrors | src/core.ts:370-372 | only `error` events, at most one per refund |
| Gateway.NoFailuresNoErrors | src/core.ts:358-374 | when no refund fails, the sweep emits no error |
| Gateway.VSplitPaymentGateway.constructor | src/core.ts:31-44 | currency defaults to `usd` and the timeout to 600; no session, no listener, no pending timer |
| Gateway.VSplitPaymentGateway.InitializePayment | src/core.ts:92-125 | posts with the configured currency or the default; on success stores the intent and returns its id and status; otherwise keeps the session, returns a failed result with the server's message or the fallback, and emits `payment:failed` |
| Gateway.VSplitPaymentGateway.ProcessPayment | src/core.ts:130-185 | returns the confirmation's result and emits exactly its event; the session is untouched |
| Gateway.VSplitPaymentGateway.InitializeSplitPayment | src/core.ts:190-220 | on success stores the session and arms one unnamed timeout for `timeout * 1000` ms for that session; on failure stores and arms nothing and emits `error` |
| Gateway.VSplitPaymentGateway.ProcessSplitPayment | src/core.ts:225-271 | an invalid session or index gives a failed result naming the session and changes nothing; otherwise the result is the confirmation's, the session moves as `Apply` says (the counters and the status move, the stored intents keep their status), and completion clears the timer and emits `split:completed` (else `split:partial` on a success) |
| Gateway.VSplitPaymentGateway.RefundPartialPayments | src/core.ts:297-314 | every refund is requested before any answer, and each failing one adds an `error` event without stopping the rest |
| Gateway.VSplitPaymentGateway.HandleSplitPaymentTimeout | src/core.ts:276-292 | nothing unless the current session is that split session; then it becomes `canceled`, the sweep runs, and `split:timeout` is emitted last |
| Gateway.VSplitPaymentGateway.TimeoutFires | src/core.ts:211-213 | the armed timeout going off runs the timeout handler for the session it was armed with and leaves no timer pending |
| Gateway.VSplitPaymentGateway.PaidSplitThenTimeout | src/core.ts:225-314 | the first of two splits is paid and the armed timeout then goes off: the session ends `canceled` with one completed payment, no timer is left, and no refund is requested |
| Gateway.VSplitPaymentGateway.CancelPayment | src/core.ts:319-353 | nothing without a session; otherwise clears the timer, posts the cancel, runs the sweep for a split session, emits `payment:canceled` with status `canceled` and drops the session |
| Gateway.VSplitPaymentGateway.Destroy | src/core.ts:554-558 | no session, no pending timer and no listener afterwards, and nothing logged |
| Backend.SplitsRejection | examples/backend/server.ts:108-123 | accepts exactly a non-empty list of splits that all have positive amounts; a missing or empty list is `Invalid splits configuration`, checked first; every rejection is a 400 |
| Backend.IntentRequests | examples/backend/server.ts:126-140 | one request per split, in order, with the split's amount, currency `usd`, and the split's index as `splitIndex` unless the client's metadata overrides it |
| Backend.StoredIntents | examples/backend/server.ts:142-150 | each stored intent is Stripe's id, secret, status and creation time with the requested amount, currency and metadata |
| Backend.StoredIntentsSum | examples/backend/server.ts:164 | the stored intents add up to the sum of the split amounts |
| Backend.TimeoutDelay | examples/backend/server.ts:158 | the request's timeout in seconds, or 600 when it is missing or zero, times 1000 |
| Backend.CancelTargets | examples/backend/server.ts:445-448 | the sweep cancels exactly the intents waiting for a payment method or a confirmation |
| Backend.SweepTargetsDisjoint | examples/backend/server.ts:424-448 | with distinct intent ids, no intent is both refunded and cancelled |
| Backend.FirstOwner | examples/backend/server.ts:466-469 | a session in map order that holds the intent, or none exactly when no session does |
| Backend.FirstOwnerIsFirst | examples/backend/server.ts:466-469 | no session before the chosen one in map order holds the intent |
| Backend.RecordPaid | examples/backend/server.ts:470-490 | intended webhook bookkeeping: the counters and status move as `RecordSuccess` says, and only the intents with that id become `succeeded` |
| Backend.WebhookMatchesClientStep | examples/backend/server.ts:470-490 | with distinct ids, the success webhook for split k's intent does to the session what the client's successful confirmation of split k does |
| Backend.PartialSessionSkippedByTimeout | examples/backend/server.ts:180-183 | as written, a two-split session with one paid split is `partial`, so the timeout skips it and even a sweep would refund nothing; with the intended bookkeeping and guard it is swept and the paid split refunded |
| Backend.ExpectedCurrencyCaseIgnored | examples/backend/server.ts:338-342 | `verified` holds for an expected currency exactly when it holds for its upper-cased form |
| Backend.UpperStoredCurrencyNeverVerified | examples/backend/server.ts:338-342 | only the expected currency is lower-cased: a stored currency with an upper-case letter never matches a non-empty expected one |
| Backend.SessionStore.constructor | examples/backend/server.ts:24 | the store starts empty |
| Backend.SessionStore.Store | examples/backend/server.ts:175 | `Map.set`: the value is replaced, a new key goes last in iteration order and an existing key keeps its place |
| Backend.SessionStore.InitializeSplit | examples/backend/server.ts:103-200 | a rejected request creates and stores nothing; a Stripe failure answers 500 and stores nothing; otherwise the stored session is `pending` with zero counters, one intent per split, the sum as total and expiry `now + delay`, and the timeout uses the same delay; a new session id goes last in the order |
| Backend.SessionStore.HandleSplitTimeout | examples/backend/server.ts:416-459 | nothing for an unknown session; otherwise `canceled` whatever its status, refunds for exactly the `succeeded` intents and cancels for exactly the waiting ones; other sessions are unchanged |
| Backend.SessionStore.TimeoutFires | examples/backend/server.ts:178-187 | as written, the sweep runs only for a stored session that is still `pending`; any other session, a `partial` one included, changes nothing |
| Backend.SessionStore.TimeoutFiresIntended | examples/backend/server.ts:178-187 | with the intended guard, the sweep runs for a stored session that is `pending` or `partial`; any other changes nothing |
| Backend.SessionStore.FindOwner | examples/backend/server.ts:466-495 | the loop over `entries()` stops at the first session holding the intent |
| Backend.SessionStore.HandlePaymentSuccess | examples/backend/server.ts:461-503 | for an intent with a `splitIndex`, only the first session holding it changes, as `RecordSuccess` says, and the stored intent keeps its status; without one, or when no session holds it, nothing changes |
| Backend.SessionStore.HandlePaymentSuccessRecorded | examples/backend/server.ts:461-503 | the intended webhook: as above, but the session changes as `RecordPaid` says, so the paid intent is marked `succeeded` |
| Backend.SessionStore.HandlePaymentFailure | examples/backend/server.ts:505-524 | for an intent with a `splitIndex`, only the first session holding it gets one more failure, status unchanged |
| Backend.SessionStore.PaidSplitThenTimeout | examples/backend/server.ts:178-187 | the success webhook for the first of two splits, then the timeout: the session stays `partial` and nothing is refunded or cancelled |

## Left out

- Stripe itself is not modelled: `loadStripe`, `confirmPayment`, `createElements`, the intent, refund and cancel calls, and the webhook signature check. Each outcome is a parameter, for example `Confirmation` in `Gateway`, `answers` in `Backend.SessionStore.InitializeSplit`, and refund failures as a map from intent id to message.
- `ApiClient` is HTTP I/O. Its answers are `ApiResponse` parameters, and the paths it posts to are logged.
- `initialize()` and the error it emits when Stripe fails to load are not modelled. A confirmation before Stripe has loaded is the `Threw` case.
- Real time and the JavaScript event loop are not modelled. The async steps of each method run as one atomic step, and a timeout is an explicit operation (`TimeoutFires`), so races appear only as orders of whole operations.
- Gateway.VSplitPaymentGateway.RefundPartialPayments: the `error` events of failed refunds are logged after all the requests, in request order. The real order of the answers depends on the network.
- `getRemainingTime` always returns null and reads no state, so it is not modelled.
- Timer durations are recorded but not simulated. Which timer goes off, and when, is the caller's choice through `Fire`.
- `refundPayment`, `verifyPayment` and `getPaymentStatus` on the gateway only forward to the API. They are modelled only as the refund requests and `error` events of the sweep.
- `on`/`off` on the gateway only delegate to the emitter. Listener callbacks are opaque numbers, and the numbers in `throwing` are the callbacks that throw. Without `on`, the gateway's emitter never has a listener, so the delivery in Gateway.VSplitPaymentGateway.Notify and the gateway's `throwing` change nothing.
- The merchant-split pass-through (`initializePaymentWithMerchantSplits`, `processMerchantSplits`) and `getCurrentSession` are not modelled.
- Floating point and locale code is not modelled: `formatAmount`, `formatDate`, `convertToSubcurrency` and `convertFromSubcurrency`.
- Amounts are integers. The 0.01 tolerance of `validateSplitPayments` is therefore exact equality, and `isValidAmount`'s finiteness test is always true.
- Formatting.TimeRemainingReadsBack: covers integer seconds only. A fractional input would print a fractional seconds part.
- `isValidUrl` relies on the platform's `URL` parser. It is the parameter `isUrl` of `Validation.ValidatePaymentConfig`.
- `isValidPostalCode` and `formatErrorMessage` are not modelled.
- JsStrings.ToUpper: maps ASCII letters only. JavaScript's full Unicode mapping also sends a few non-ASCII letters (such as `ſ` and `ı`) to ASCII ones, so a lookup key such as `uſd` matches in JavaScript but not in the model.
- JsStrings.ToLower: maps ASCII letters only. JavaScript's `toLowerCase` maps all of Unicode and can change the length (`İ` becomes two code points), so the length and per-character claims hold for the model only. A status or currency with such a letter is looked up or compared differently.
- Formatting.MaskCardNumber: counts characters as Unicode scalar values. JavaScript's `length` and `slice` count UTF-16 code units, so a string with characters outside the Basic Multilingual Plane is measured and cut differently.
- Formatting.TruncateText: counts characters as Unicode scalar values, like `MaskCardNumber`. For example, `truncateText('😀😀😀😀', 5)` is `'😀...'` in JavaScript, while the model returns the four characters unchanged.
- Events.EventEmitter.RemoveAllListeners: `if (event)` tests truthiness, so in JavaScript an empty event name clears every list. The model deletes only that event's list. Every gateway event name is non-empty.
- Gateway.VSplitPaymentGateway.ProcessSplitPayment: the session is a value. In JavaScript the session object returned by `initializeSplitPayment` and carried by the `split:*` events is the object the gateway later updates in place, so whoever holds it sees later changes. The log holds a copy as of each event. The same holds for InitializeSplitPayment and HandleSplitPaymentTimeout.
- The TypeScript types do not constrain runtime values, and the model types do. A non-string status, or a non-number amount other than a missing one, is not modelled.
- Optional fields set explicitly to `undefined`, which the object spread copies over the defaults, are not modelled.
- Backend.SessionStore.InitializeSplit: uses one clock reading for the default order id and for the expiry. The code reads the clock twice.
- The random session id is a parameter.
- The request's `customer`, `orderId` and `createdAt` fields are stored by the route but not by the model, because no modelled operation reads them.
- The backend's single-payment routes, refund route and cancel route, the retrieve and status routes, `sendWebhookNotification` and `handlePaymentCancellation` are I/O with no session bookkeeping, and are not modelled.
- The `hasSplitIndex` flag of the webhook handlers stands for `paymentIntent.metadata?.splitIndex !== undefined`.
- React components, the demo pages and the example client are not modelled.

## Findings

| source | as written | input that shows it | evidently intended | confidence | as-written member | corrected member |
|---|---|---|---|---|---|---|
| src/core.ts:243-258 | a successful split only increments `completedPayments`; `paymentIntents[i].status` stays at its creation value, while the timeout refund sweep selects intents by `status === 'succeeded'` | a two-split session whose intents start as `requires_payment_method`; split 0 is paid, then the timeout fires: the sweep refunds nothing | the paid split's intent is recorded as `succeeded`, so the timeout refunds it | high, not executed | SplitSessions.PaidSplitIsNeverRefunded | SplitSessions.RecordedSweepRefundsConfirmed |
| src/utils/payment-timer.ts:16-22 | the callback of every one-shot timer sets `activeTimer = null`, also for a named timer | `startTimer(d, f)`, then `startTimer(d2, g, 'split')`; `'split'` goes off first: the unnamed timer is still pending, `hasActiveTimer()` is false and neither `clearTimer()` nor `clearAllTimers()` cancels it | only the unnamed timer clears the unnamed slot when it goes off | high, not executed | Timers.OrphanedUnnamedTimer | Timers.NoOrphanWhenFiringOwnRecord |
| src/utils/formatting.ts:237 | the label lookup `statusMap[status.toLowerCase()]` goes through the prototype chain | `formatPaymentStatus('constructor')` returns the `Object` function, and `'__proto__'` returns `Object.prototype`, not strings | only the eight own keys are labels; any other input is returned unchanged | high, not executed | Formatting.InheritedStatusKeyIsNotAString | Formatting.FormatPaymentStatus |
| src/utils/event-emitter.ts:36-42 | `emit` runs `forEach` over the live array, and a `once` wrapper splices itself out during the loop | `once(e, f)` then `on(e, g)`; `emit(e)` calls `f` only, because `g` shifts into the index already visited | every listener registered when `emit` starts is called once | high, not executed | Events.ListenerAfterOnceIsSkipped | Events.EventEmitter.EmitSnapshot |
| examples/backend/server.ts:180-183 | the timeout sweeps only a session still `pending`; a session with any paid split is `partial`, and the success webhook never marks the intent `succeeded` either | a two-split session; the `payment_intent.succeeded` webhook for the first intent arrives, then the timeout fires: the session stays `partial`, nothing is refunded or cancelled | a session that did not complete is cancelled on timeout and its paid splits are refunded | medium, not executed | Backend.PartialSessionSkippedByTimeout | Backend.SessionStore.TimeoutFiresIntended |
