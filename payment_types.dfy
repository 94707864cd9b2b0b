/** The records the gateway and the example backend exchange (src/types.ts). */
module PaymentTypes {
  import opened Wrappers

  /** `PaymentStatus`, plus the processor's own intent statuses that reach the
      same fields through a cast (`requires_payment_method`,
      `requires_confirmation`, `requires_capture`). */
  datatype PaymentStatus =
    | Pending
    | Processing
    | RequiresAction
    | Succeeded
    | Failed
    | Canceled
    | Partial
    | Refunded
    | RequiresPaymentMethod
    | RequiresConfirmation
    | RequiresCapture

  /** The wire name of a status. */
  function StatusName(s: PaymentStatus): string {
    match s
    case Pending => "pending"
    case Processing => "processing"
    case RequiresAction => "requires_action"
    case Succeeded => "succeeded"
    case Failed => "failed"
    case Canceled => "canceled"
    case Partial => "partial"
    case Refunded => "refunded"
    case RequiresPaymentMethod => "requires_payment_method"
    case RequiresConfirmation => "requires_confirmation"
    case RequiresCapture => "requires_capture"
  }

  /** `PaymentIntent`; amounts are integers in the smallest currency unit. */
  datatype PaymentIntent = PaymentIntent(
    id: string,
    clientSecret: string,
    status: PaymentStatus,
    amount: int,
    currency: string,
    created: int,
    metadata: map<string, string>)

  /** `SplitPaymentSession`. */
  datatype SplitSession = SplitSession(
    sessionId: string,
    paymentIntents: seq<PaymentIntent>,
    status: PaymentStatus,
    totalAmount: int,
    currency: string,
    expiresAt: int,
    completedPayments: int,
    failedPayments: int)

  /** `PaymentResult` without its untyped `data` payload. */
  datatype PaymentResult = PaymentResult(
    success: bool,
    paymentId: string,
    status: PaymentStatus,
    error: Option<string>)

  /** A refund the timeout sweep asks for: `reason: 'other'` and metadata
      `{ reason: metadataReason, sessionId }`. */
  datatype RefundRequest = RefundRequest(
    paymentIntentId: string,
    reason: string,
    metadataReason: string,
    sessionId: string)

  /** `ApiResponse<T>` as the API client returns it: it never throws. */
  datatype ApiResponse<T> = ApiResponse(success: bool, data: Option<T>, error: Option<string>)
}
