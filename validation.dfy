/** The validators of src/utils/validation.ts, over integer amounts in the
    smallest currency unit. */
module Validation {
  import opened Wrappers
  import opened JsStrings

  /** `isValidAmount`: a number greater than zero (every integer is finite). */
  predicate IsValidAmount(amount: int) {
    amount > 0
  }

  /** `isValidCurrency`: `/^[A-Z]{3}$/`. */
  predicate IsValidCurrency(currency: string) {
    |currency| == 3 && forall i | 0 <= i < 3 :: IsUpperAscii(currency[i])
  }

  /** A valid code is already upper case, and any three ASCII letters
      become a valid code once upper-cased; the gateway's default currency
      `"usd"` is not one as written. */
  lemma CurrencyIsUpperCase(currency: string)
    ensures IsValidCurrency(currency) ==> ToUpper(currency) == currency
    ensures |currency| == 3 && (forall i | 0 <= i < 3 :: IsLowerAscii(currency[i]) || IsUpperAscii(currency[i]))
      ==> IsValidCurrency(ToUpper(currency))
    ensures !IsValidCurrency("usd") && IsValidCurrency(ToUpper("usd"))
  {
    assert !IsUpperAscii("usd"[0]);
    assert ToUpper("usd") == [UpperChar('u'), UpperChar('s'), UpperChar('d')] == "USD";
  }

  /** `isValidOrderId`: the trimmed id is not empty. */
  predicate IsValidOrderId(orderId: string) {
    |Trim(orderId)| > 0
  }

  /** An order id is valid exactly when it has a character that is not
      white space. */
  lemma OrderIdNeedsNonBlank(orderId: string)
    ensures IsValidOrderId(orderId) <==> exists i | 0 <= i < |orderId| :: !IsJsWhitespace(orderId[i])
  {
    TrimEmptyIffAllWhitespace(orderId);
  }

  /** A character of `[\d\s\-()]`. */
  predicate IsPhoneChar(c: char) {
    IsDigit(c) || IsJsWhitespace(c) || c == '-' || c == '(' || c == ')'
  }

  /** `/^\+?[\d\s\-()]+$/`: an optional leading `+`, then at least one
      character of the class. */
  predicate MatchesPhonePattern(phone: string) {
    |PhoneBody(phone)| > 0 && forall i | 0 <= i < |PhoneBody(phone)| :: IsPhoneChar(PhoneBody(phone)[i])
  }

  /** The part after an optional leading `+`. */
  function PhoneBody(phone: string): string {
    if |phone| > 0 && phone[0] == '+' then phone[1..] else phone
  }

  /** `isValidPhoneNumber`: the pattern, and at least ten digits. */
  predicate IsValidPhoneNumber(phone: string) {
    MatchesPhonePattern(phone) && |Digits(phone)| >= 10
  }

  /** A valid phone number is at least ten characters long, and it has no
      letter. */
  lemma ValidPhoneShape(phone: string)
    requires IsValidPhoneNumber(phone)
    ensures |phone| >= 10
    ensures forall i | 0 <= i < |phone| :: !IsLowerAscii(phone[i]) && !IsUpperAscii(phone[i])
  {
    var body := PhoneBody(phone);
    forall i | 0 <= i < |phone|
      ensures !IsLowerAscii(phone[i]) && !IsUpperAscii(phone[i])
    {
      if phone[0] == '+' {
        if i > 0 {
          assert phone[i] == body[i - 1] && IsPhoneChar(body[i - 1]);
        }
      } else {
        assert phone[i] == body[i] && IsPhoneChar(body[i]);
      }
    }
  }

  /** Neither white space nor `@`: a character of `[^\s@]`. */
  predicate IsEmailChar(c: char) {
    !IsJsWhitespace(c) && c != '@'
  }

  predicate AllEmailChars(s: string) {
    forall i | 0 <= i < |s| :: IsEmailChar(s[i])
  }

  /** The position of the first `c` in `s`, if any. */
  function FindChar(s: string, c: char): (r: Option<nat>)
    ensures r.None? ==> forall i | 0 <= i < |s| :: s[i] != c
    ensures r.Some? ==> r.value < |s| && s[r.value] == c && forall i | 0 <= i < r.value :: s[i] != c
  {
    if s == [] then None
    else if s[0] == c then Some(0)
    else match FindChar(s[1..], c)
      case None => None
      case Some(i) => Some(i + 1)
  }

  /** `isValidEmail`: `/^[^\s@]+@[^\s@]+\.[^\s@]+$/` — one `@` with a
      non-empty local part, and a domain with a `.` that has a character on
      both sides; no white space anywhere. */
  predicate IsValidEmail(email: string) {
    match FindChar(email, '@')
    case None => false
    case Some(at) =>
      var domain := email[at + 1..];
      && at > 0 && AllEmailChars(email[..at]) && AllEmailChars(domain)
      && exists j | 0 < j < |domain| - 1 :: domain[j] == '.'
  }

  /** A valid email holds exactly one `@` and no white space. */
  lemma ValidEmailHasOneAt(email: string)
    requires IsValidEmail(email)
    ensures exists at | 0 < at < |email| :: email[at] == '@' && forall i | 0 <= i < |email| && i != at :: email[i] != '@'
    ensures forall i | 0 <= i < |email| :: !IsJsWhitespace(email[i])
  {
    var at := FindChar(email, '@').value;
    var domain := email[at + 1..];
    forall i | 0 <= i < |email| && i != at
      ensures email[i] != '@' && !IsJsWhitespace(email[i])
    {
      if i < at {
        assert email[i] == email[..at][i];
      } else {
        assert email[i] == domain[i - at - 1];
      }
    }
  }

  /** The sum of the split amounts (`splits.reduce((sum, s) => sum + s.amount, 0)`). */
  function Sum(amounts: seq<int>): int {
    if amounts == [] then 0 else Sum(amounts[..|amounts| - 1]) + amounts[|amounts| - 1]
  }

  /** The first split whose amount is not valid, if any. */
  function FirstInvalidAmount(amounts: seq<int>): (r: Option<nat>)
    ensures r.None? <==> forall i | 0 <= i < |amounts| :: IsValidAmount(amounts[i])
    ensures r.Some? ==> (r.value < |amounts| && !IsValidAmount(amounts[r.value])
      && forall i | 0 <= i < r.value :: IsValidAmount(amounts[i]))
  {
    if amounts == [] then None
    else if !IsValidAmount(amounts[0]) then Some(0)
    else match FirstInvalidAmount(amounts[1..])
      case None => None
      case Some(i) => Some(i + 1)
  }

  const NoSplits := "At least one split payment is required"
  const TooManySplits := "Maximum 10 split payments allowed"
  const SumMismatch := "Split amounts must equal total amount"
  const InvalidSplitPrefix := "Invalid amount for split "

  /** The error `validateSplitPayments` reports, checks in order: no split,
      more than ten, a sum other than the total (with integer amounts the
      0.01 tolerance is exact equality), then the first invalid amount,
      numbered from one. */
  function SplitsError(amounts: seq<int>, total: int): Option<string> {
    if |amounts| == 0 then Some(NoSplits)
    else if |amounts| > 10 then Some(TooManySplits)
    else if Sum(amounts) != total then Some(SumMismatch)
    else match FirstInvalidAmount(amounts)
      case Some(i) => Some(InvalidSplitPrefix + NatToDecimal(i + 1))
      case None => None
  }

  /** The splits are accepted exactly when there are one to ten of them,
      they add up to the total and every amount is positive. */
  lemma SplitsValidIff(amounts: seq<int>, total: int)
    ensures SplitsError(amounts, total).None? <==>
      && 1 <= |amounts| <= 10
      && Sum(amounts) == total
      && forall i | 0 <= i < |amounts| :: amounts[i] > 0
  {
  }

  /** The number in an invalid-amount message is the position of the first
      invalid split, counted from one. */
  lemma InvalidSplitMessageNamesFirst(amounts: seq<int>, total: int)
    requires 1 <= |amounts| <= 10 && Sum(amounts) == total
    requires exists i | 0 <= i < |amounts| :: amounts[i] <= 0
    ensures SplitsError(amounts, total).Some?
    ensures var m := SplitsError(amounts, total).value;
      && |m| > |InvalidSplitPrefix| && m[..|InvalidSplitPrefix|] == InvalidSplitPrefix
      && AllDigits(m[|InvalidSplitPrefix|..])
      && var n := DecimalValue(m[|InvalidSplitPrefix|..]);
         1 <= n <= |amounts| && amounts[n - 1] <= 0 && forall k | 0 <= k < n - 1 :: amounts[k] > 0
  {
    var i := FirstInvalidAmount(amounts).value;
    var m := SplitsError(amounts, total).value;
    assert m == InvalidSplitPrefix + NatToDecimal(i + 1);
    assert m[|InvalidSplitPrefix|..] == NatToDecimal(i + 1);
    DecimalRoundTrip(i + 1);
  }

  /** `validateSplitPayments(splits, totalAmount)`. */
  method ValidateSplitPayments(amounts: seq<int>, total: int) returns (valid: bool, error: Option<string>)
    ensures error == SplitsError(amounts, total)
    ensures valid <==> error.None?
  {
    if |amounts| == 0 {
      return false, Some(NoSplits);
    }
    if |amounts| > 10 {
      return false, Some(TooManySplits);
    }
    var totalSplitAmount := Sum(amounts);
    if totalSplitAmount != total {
      return false, Some(SumMismatch);
    }
    for i := 0 to |amounts|
      invariant forall k | 0 <= k < i :: IsValidAmount(amounts[k])
    {
      if !IsValidAmount(amounts[i]) {
        return false, Some(InvalidSplitPrefix + NatToDecimal(i + 1));
      }
    }
    return true, None;
  }

  /** `PaymentSessionConfig`, the fields `validatePaymentConfig` reads;
      `None` is an absent field. */
  datatype PaymentConfig = PaymentConfig(
    amount: int,
    currency: string,
    orderId: string,
    email: Option<string>,
    phone: Option<string>,
    returnUrl: Option<string>,
    webhookUrl: Option<string>)

  /** An optional string field is checked only when present and not empty
      (`config.field && ...`). */
  predicate Present(field: Option<string>) {
    field.Some? && field.value != ""
  }

  /** The checks of `validatePaymentConfig`. */
  datatype ConfigCheck = AmountCheck | CurrencyCheck | OrderIdCheck | EmailCheck | PhoneCheck | ReturnUrlCheck | WebhookUrlCheck

  /** The order in which `validatePaymentConfig` runs its checks. */
  const CheckOrder: seq<ConfigCheck> :=
    [AmountCheck, CurrencyCheck, OrderIdCheck, EmailCheck, PhoneCheck, ReturnUrlCheck, WebhookUrlCheck]

  /** Whether a check fails; `isUrl` stands for the platform's `URL` parser. */
  predicate Fails(config: PaymentConfig, isUrl: string -> bool, check: ConfigCheck) {
    match check
    case AmountCheck => !IsValidAmount(config.amount)
    case CurrencyCheck => !IsValidCurrency(config.currency)
    case OrderIdCheck => !IsValidOrderId(config.orderId)
    case EmailCheck => Present(config.email) && !IsValidEmail(config.email.value)
    case PhoneCheck => Present(config.phone) && !IsValidPhoneNumber(config.phone.value)
    case ReturnUrlCheck => Present(config.returnUrl) && !isUrl(config.returnUrl.value)
    case WebhookUrlCheck => Present(config.webhookUrl) && !isUrl(config.webhookUrl.value)
  }

  /** The message a failing check pushes. */
  function Message(check: ConfigCheck): string {
    match check
    case AmountCheck => "Invalid payment amount"
    case CurrencyCheck => "Invalid currency code"
    case OrderIdCheck => "Invalid order ID"
    case EmailCheck => "Invalid customer email"
    case PhoneCheck => "Invalid customer phone number"
    case ReturnUrlCheck => "Invalid return URL"
    case WebhookUrlCheck => "Invalid webhook URL"
  }

  /** Each check has its own message, so an error names the check that failed. */
  lemma MessageNamesCheck(a: ConfigCheck, b: ConfigCheck)
    requires Message(a) == Message(b)
    ensures a == b
  {
    assert Message(a)[|"Invalid "|..] == Message(b)[|"Invalid "|..];
  }

  /** The messages of the failing checks among `checks`, in order. */
  function ConfigErrors(config: PaymentConfig, isUrl: string -> bool, checks: seq<ConfigCheck>): (r: seq<string>)
    ensures |r| <= |checks|
  {
    if checks == [] then []
    else
      var last := checks[|checks| - 1];
      ConfigErrors(config, isUrl, checks[..|checks| - 1]) + (if Fails(config, isUrl, last) then [Message(last)] else [])
  }

  /** A check's message is reported exactly when the check fails, and
      nothing is reported exactly when no check fails. */
  lemma {:induction false} ConfigErrorsIff(config: PaymentConfig, isUrl: string -> bool, checks: seq<ConfigCheck>)
    ensures ConfigErrors(config, isUrl, checks) == [] <==> forall k | 0 <= k < |checks| :: !Fails(config, isUrl, checks[k])
  {
    if checks != [] {
      var init := checks[..|checks| - 1];
      ConfigErrorsIff(config, isUrl, init);
      assert forall k | 0 <= k < |init| :: init[k] == checks[k];
    }
  }

  /** Running one more check appends its message exactly when it fails. */
  lemma AppendCheck(config: PaymentConfig, isUrl: string -> bool, checks: seq<ConfigCheck>, check: ConfigCheck)
    ensures ConfigErrors(config, isUrl, checks + [check]) ==
      ConfigErrors(config, isUrl, checks) + (if Fails(config, isUrl, check) then [Message(check)] else [])
  {
    assert (checks + [check])[..|checks|] == checks;
  }

  /** The check order, one check appended at a time. */
  lemma CheckOrderByAppends()
    ensures [] + [AmountCheck] + [CurrencyCheck] + [OrderIdCheck] + [EmailCheck] + [PhoneCheck]
      + [ReturnUrlCheck] + [WebhookUrlCheck] == CheckOrder
  {
  }

  /** `validatePaymentConfig(config)`: pushes one message per failing check,
      in order, and is valid when it pushed none. Each `if (...)
      errors.push(...)` of the source is one conditional append below, its
      condition and message being `Fails` and `Message` of that check. */
  method ValidatePaymentConfig(config: PaymentConfig, isUrl: string -> bool) returns (valid: bool, errors: seq<string>)
    ensures errors == ConfigErrors(config, isUrl, CheckOrder)
    ensures valid <==> errors == []
  {
    errors := [];
    ghost var run: seq<ConfigCheck> := [];
    errors := errors + (if Fails(config, isUrl, AmountCheck) then [Message(AmountCheck)] else []);
    assert errors == ConfigErrors(config, isUrl, run + [AmountCheck]) by {
      AppendCheck(config, isUrl, run, AmountCheck);
    }
    run := run + [AmountCheck];
    errors := errors + (if Fails(config, isUrl, CurrencyCheck) then [Message(CurrencyCheck)] else []);
    assert errors == ConfigErrors(config, isUrl, run + [CurrencyCheck]) by {
      AppendCheck(config, isUrl, run, CurrencyCheck);
    }
    run := run + [CurrencyCheck];
    errors := errors + (if Fails(config, isUrl, OrderIdCheck) then [Message(OrderIdCheck)] else []);
    assert errors == ConfigErrors(config, isUrl, run + [OrderIdCheck]) by {
      AppendCheck(config, isUrl, run, OrderIdCheck);
    }
    run := run + [OrderIdCheck];
    errors := errors + (if Fails(config, isUrl, EmailCheck) then [Message(EmailCheck)] else []);
    assert errors == ConfigErrors(config, isUrl, run + [EmailCheck]) by {
      AppendCheck(config, isUrl, run, EmailCheck);
    }
    run := run + [EmailCheck];
    errors := errors + (if Fails(config, isUrl, PhoneCheck) then [Message(PhoneCheck)] else []);
    assert errors == ConfigErrors(config, isUrl, run + [PhoneCheck]) by {
      AppendCheck(config, isUrl, run, PhoneCheck);
    }
    run := run + [PhoneCheck];
    errors := errors + (if Fails(config, isUrl, ReturnUrlCheck) then [Message(ReturnUrlCheck)] else []);
    assert errors == ConfigErrors(config, isUrl, run + [ReturnUrlCheck]) by {
      AppendCheck(config, isUrl, run, ReturnUrlCheck);
    }
    run := run + [ReturnUrlCheck];
    errors := errors + (if Fails(config, isUrl, WebhookUrlCheck) then [Message(WebhookUrlCheck)] else []);
    assert errors == ConfigErrors(config, isUrl, run + [WebhookUrlCheck]) by {
      AppendCheck(config, isUrl, run, WebhookUrlCheck);
    }
    run := run + [WebhookUrlCheck];
    assert run == CheckOrder by {
      CheckOrderByAppends();
    }
    valid := |errors| == 0;
  }

  /** A configuration passes exactly when every check passes: amount,
      currency and order id always, the optional fields when present. */
  lemma ConfigValidIff(config: PaymentConfig, isUrl: string -> bool)
    ensures ConfigErrors(config, isUrl, CheckOrder) == [] <==>
      && IsValidAmount(config.amount) && IsValidCurrency(config.currency) && IsValidOrderId(config.orderId)
      && (Present(config.email) ==> IsValidEmail(config.email.value))
      && (Present(config.phone) ==> IsValidPhoneNumber(config.phone.value))
      && (Present(config.returnUrl) ==> isUrl(config.returnUrl.value))
      && (Present(config.webhookUrl) ==> isUrl(config.webhookUrl.value))
  {
    ConfigErrorsIff(config, isUrl, CheckOrder);
    assert CheckOrder[0] == AmountCheck && CheckOrder[1] == CurrencyCheck && CheckOrder[2] == OrderIdCheck;
    assert CheckOrder[3] == EmailCheck && CheckOrder[4] == PhoneCheck;
    assert CheckOrder[5] == ReturnUrlCheck && CheckOrder[6] == WebhookUrlCheck;
  }
}
