/** The display helpers of src/utils/formatting.ts that work on strings and
    integers: currency symbols, phone numbers, the countdown, card masking,
    status labels and truncation. */
module Formatting {
  import opened Wrappers
  import opened JsStrings
  import opened PaymentTypes
  import Validation

  // ---------------------------------------------------------------------
  // getCurrencySymbol

  /** The symbol table, keyed by upper-case code. Every symbol is non-empty,
      so the `||` fallback is taken only for a code outside the table. (An
      upper-cased key never names an `Object.prototype` member: those all
      contain lower-case letters.) */
  const CurrencySymbols: map<string, string> := map[
    "USD" := "$", "EUR" := "\U{20AC}", "GBP" := "\U{A3}", "JPY" := "\U{A5}",
    "CAD" := "C$", "AUD" := "A$", "CHF" := "CHF", "CNY" := "\U{A5}",
    "SEK" := "kr", "NZD" := "NZ$"]

  /** `getCurrencySymbol(currency)`: the table's symbol for the upper-cased
      code, else the upper-cased code itself. */
  function CurrencySymbol(currency: string): (r: string)
    ensures ToUpper(currency) in CurrencySymbols ==> r == CurrencySymbols[ToUpper(currency)]
    ensures ToUpper(currency) !in CurrencySymbols ==> r == ToUpper(currency)
  {
    var code := ToUpper(currency);
    if code in CurrencySymbols then CurrencySymbols[code] else code
  }

  /** The symbol does not depend on the case the code is written in, and
      the gateway's default currency `"usd"` shows as `$`. */
  lemma CurrencySymbolIgnoresCase(currency: string)
    ensures CurrencySymbol(ToLower(currency)) == CurrencySymbol(currency)
    ensures CurrencySymbol(ToUpper(currency)) == CurrencySymbol(currency)
    ensures CurrencySymbol("usd") == "$"
  {
    UpperOfLower(currency);
    UpperIdempotent(currency);
    assert ToUpper("usd") == [UpperChar('u'), UpperChar('s'), UpperChar('d')] == "USD";
  }

  // ---------------------------------------------------------------------
  // formatPhoneNumber

  /** The layout `formatPhoneNumber` picks for a string of digits in a
      country, or `None` when it leaves the input as it was. */
  function PhoneLayout(digits: string, country: string): Option<string> {
    var c := ToUpper(country);
    if c == "US" || c == "CA" then
      if |digits| == 11 && digits[0] == '1' then
        Some("+1 (" + Slice(digits, 1, 4) + ") " + Slice(digits, 4, 7) + "-" + Slice(digits, 7, |digits|))
      else if |digits| == 10 then
        Some("(" + Slice(digits, 0, 3) + ") " + Slice(digits, 3, 6) + "-" + Slice(digits, 6, |digits|))
      else None
    else if c == "GB" || c == "UK" then
      if |digits| == 11 && Slice(digits, 0, 2) == "44" then
        Some("+44 " + Slice(digits, 2, 6) + " " + Slice(digits, 6, |digits|))
      else if |digits| == 11 && digits[0] == '0' then
        Some(Slice(digits, 0, 5) + " " + Slice(digits, 5, |digits|))
      else None
    else None
  }

  /** `formatPhoneNumber(phone, country = 'US')`. */
  function FormatPhoneNumber(phone: string, country: string := "US"): string {
    match PhoneLayout(Digits(phone), country)
    case Some(formatted) => formatted
    case None => phone
  }

  predicate NoDigits(s: string) {
    forall i | 0 <= i < |s| :: !IsDigit(s[i])
  }

  /** From position `k` on, every character is a phone character. */
  predicate PhoneCharsFrom(s: string, k: nat) {
    forall i | k <= i < |s| :: Validation.IsPhoneChar(s[i])
  }

  /** Appending phone characters keeps a string made of phone characters
      from position `k` on. */
  lemma AppendPhoneChars(p: string, q: string, k: nat)
    requires k <= |p| && PhoneCharsFrom(p, k) && PhoneCharsFrom(q, 0)
    ensures PhoneCharsFrom(p + q, k)
  {
    var s := p + q;
    forall i | k <= i < |s|
      ensures Validation.IsPhoneChar(s[i])
    {
      if i < |p| {
        assert s[i] == p[i];
      } else {
        assert s[i] == q[i - |p|];
      }
    }
  }

  /** A run of digits is made of phone characters. */
  lemma DigitsArePhoneChars(run: string)
    requires AllDigits(run)
    ensures PhoneCharsFrom(run, 0)
  {
    forall i | 0 <= i < |run|
      ensures Validation.IsPhoneChar(run[i])
    {
      assert IsDigit(run[i]);
    }
  }

  /** One group of a layout, a separator without digits then a run of
      digits, adds exactly that run to the digits and only phone
      characters to the text. */
  lemma AppendGroup(p: string, sep: string, run: string, k: nat)
    requires NoDigits(sep) && PhoneCharsFrom(sep, 0) && AllDigits(run)
    requires k <= |p| && PhoneCharsFrom(p, k)
    ensures Digits(p + sep + run) == Digits(p) + run
    ensures PhoneCharsFrom(p + sep + run, k)
  {
    DigitsConcat(p, sep);
    DigitsOfNonDigits(sep);
    assert Digits(p + sep) == Digits(p);
    DigitsConcat(p + sep, run);
    DigitsOfDigitString(run);
    AppendPhoneChars(p, sep, k);
    DigitsArePhoneChars(run);
    AppendPhoneChars(p + sep, run, k);
  }

  /** A string of phone characters, after a leading `+` if it has one,
      with at least ten digits, passes `isValidPhoneNumber`. */
  lemma PhoneCharsAreValid(s: string)
    requires |s| > 1 && |Digits(s)| >= 10
    requires PhoneCharsFrom(s, if s[0] == '+' then 1 else 0)
    ensures Validation.IsValidPhoneNumber(s)
  {
    var body := Validation.PhoneBody(s);
    if s[0] == '+' {
      forall i | 0 <= i < |body|
        ensures Validation.IsPhoneChar(body[i])
      {
        assert body[i] == s[i + 1];
      }
    } else {
      assert body == s;
    }
  }

  /** `+1 (ddd) ddd-dddd`, for eleven digits. */
  lemma NorthAmericanLong(d: string)
    requires AllDigits(d) && |d| == 11 && d[0] == '1'
    ensures var r := "+1 (" + d[1..4] + ") " + d[4..7] + "-" + d[7..];
      Digits(r) == d && Validation.IsValidPhoneNumber(r)
  {
    AppendGroup("+", [], d[..1], 1);
    var p1 := "+" + [] + d[..1];
    assert p1 + " (" == "+1 (";
    AppendGroup(p1, " (", d[1..4], 1);
    var p2 := p1 + " (" + d[1..4];
    AppendGroup(p2, ") ", d[4..7], 1);
    var p3 := p2 + ") " + d[4..7];
    AppendGroup(p3, "-", d[7..], 1);
    var r := p3 + "-" + d[7..];
    assert Digits("+") == [];
    assert d == [] + d[..1] + d[1..4] + d[4..7] + d[7..];
    PhoneCharsAreValid(r);
  }

  /** `(ddd) ddd-dddd`, for ten digits. */
  lemma NorthAmericanShort(d: string)
    requires AllDigits(d) && |d| == 10
    ensures var r := "(" + d[..3] + ") " + d[3..6] + "-" + d[6..];
      Digits(r) == d && Validation.IsValidPhoneNumber(r)
  {
    AppendGroup([], "(", d[..3], 0);
    var p1 := [] + "(" + d[..3];
    assert [] + "(" == "(";
    AppendGroup(p1, ") ", d[3..6], 0);
    var p2 := p1 + ") " + d[3..6];
    AppendGroup(p2, "-", d[6..], 0);
    var r := p2 + "-" + d[6..];
    assert d == [] + d[..3] + d[3..6] + d[6..];
    PhoneCharsAreValid(r);
  }

  /** `+44 dddd dddddd`, for eleven digits starting `44`. */
  lemma BritishInternational(d: string)
    requires AllDigits(d) && |d| == 11 && d[..2] == "44"
    ensures var r := "+44 " + d[2..6] + " " + d[6..];
      Digits(r) == d && Validation.IsValidPhoneNumber(r)
  {
    AppendGroup("+", [], d[..2], 1);
    var p1 := "+" + [] + d[..2];
    assert p1 + " " == "+44 ";
    AppendGroup(p1, " ", d[2..6], 1);
    var p2 := p1 + " " + d[2..6];
    AppendGroup(p2, " ", d[6..], 1);
    var r := p2 + " " + d[6..];
    assert Digits("+") == [];
    assert d == [] + d[..2] + d[2..6] + d[6..];
    PhoneCharsAreValid(r);
  }

  /** `ddddd dddddd`, for eleven digits starting `0`. */
  lemma BritishNational(d: string)
    requires AllDigits(d) && |d| == 11
    ensures var r := d[..5] + " " + d[5..];
      Digits(r) == d && Validation.IsValidPhoneNumber(r)
  {
    AppendGroup([], [], d[..5], 0);
    var p1 := [] + [] + d[..5];
    assert p1 == d[..5];
    AppendGroup(p1, " ", d[5..], 0);
    var r := p1 + " " + d[5..];
    assert d == [] + d[..5] + d[5..];
    assert r[0] == d[0] && IsDigit(r[0]);
    PhoneCharsAreValid(r);
  }

  /** Formatting keeps the digits of the number: a formatted number has
      the same digits, in the same order, as the input, and whenever a
      layout applies the result passes `isValidPhoneNumber`. */
  lemma PhoneFormatKeepsDigits(phone: string, country: string)
    ensures Digits(FormatPhoneNumber(phone, country)) == Digits(phone)
    ensures PhoneLayout(Digits(phone), country).Some? ==>
      Validation.IsValidPhoneNumber(FormatPhoneNumber(phone, country))
  {
    var d := Digits(phone);
    var c := ToUpper(country);
    if (c == "US" || c == "CA") && |d| == 11 && d[0] == '1' {
      assert Slice(d, 1, 4) == d[1..4] && Slice(d, 4, 7) == d[4..7] && Slice(d, 7, |d|) == d[7..];
      NorthAmericanLong(d);
    } else if (c == "US" || c == "CA") && |d| == 10 {
      assert Slice(d, 0, 3) == d[..3] && Slice(d, 3, 6) == d[3..6] && Slice(d, 6, |d|) == d[6..];
      NorthAmericanShort(d);
    } else if (c == "GB" || c == "UK") && |d| == 11 && d[..2] == "44" {
      assert Slice(d, 0, 2) == d[..2] && Slice(d, 2, 6) == d[2..6] && Slice(d, 6, |d|) == d[6..];
      BritishInternational(d);
    } else if (c == "GB" || c == "UK") && |d| == 11 && d[0] == '0' {
      assert Slice(d, 0, 2) == d[..2] && Slice(d, 0, 5) == d[..5] && Slice(d, 5, |d|) == d[5..];
      BritishNational(d);
    } else if (c == "GB" || c == "UK") && |d| == 11 {
      assert Slice(d, 0, 2) == d[..2];
    }
  }

  /** Formatting a formatted number changes nothing. */
  lemma PhoneFormatIdempotent(phone: string, country: string)
    ensures FormatPhoneNumber(FormatPhoneNumber(phone, country), country) == FormatPhoneNumber(phone, country)
  {
    PhoneFormatKeepsDigits(phone, country);
  }

  /** The country code is matched whatever its case. */
  lemma PhoneCountryIgnoresCase(phone: string, country: string)
    ensures FormatPhoneNumber(phone, ToLower(country)) == FormatPhoneNumber(phone, country)
  {
    UpperOfLower(country);
  }

  // ---------------------------------------------------------------------
  // formatTimeRemaining

  /** `formatTimeRemaining(seconds)` for a whole number of seconds:
      `mm:ss`, each part padded to two digits with zeros. */
  function FormatTimeRemaining(seconds: int): string {
    if seconds <= 0 then "00:00"
    else PadStart(NatToDecimal(seconds / 60), 2, '0') + ":" + PadStart(NatToDecimal(seconds % 60), 2, '0')
  }

  /** A number below one hundred has at most two decimal digits. */
  lemma TwoDigitsBelowHundred(n: nat)
    requires n < 100
    ensures |NatToDecimal(n)| <= 2
  {
  }

  /** A zero-padded number still denotes that number. */
  lemma PaddedValue(n: nat, width: nat)
    ensures AllDigits(PadStart(NatToDecimal(n), width, '0'))
    ensures DecimalValue(PadStart(NatToDecimal(n), width, '0')) == n
  {
    var s := NatToDecimal(n);
    var p := PadStart(s, width, '0');
    var z := p[..|p| - |s|];
    assert p == z + s;
    DecimalValueLeadingZeros(z, s);
    DecimalRoundTrip(n);
  }

  /** `r` is `m:ss` for a number of seconds `total`: the part before the
      colon counts whole minutes, the two digits after it the seconds below
      a minute. */
  predicate ClockReads(r: string, total: int) {
    var colon := |r| - 3;
    && colon >= 2 && r[colon] == ':'
    && AllDigits(r[..colon]) && AllDigits(r[colon + 1..])
    && DecimalValue(r[colon + 1..]) < 60
    && DecimalValue(r[..colon]) * 60 + DecimalValue(r[colon + 1..]) == total
  }

  /** Minutes and seconds joined by a colon read back as a number of
      seconds, when the seconds part has two digits below sixty. */
  lemma ClockReadsBack(m: string, s: string, minutes: nat, secs: nat)
    requires AllDigits(m) && AllDigits(s) && |m| >= 2 && |s| == 2
    requires DecimalValue(m) == minutes && DecimalValue(s) == secs && secs < 60
    ensures ClockReads(m + ":" + s, minutes * 60 + secs)
  {
    var r := m + ":" + s;
    assert r[..|m|] == m && r[|m| + 1..] == s;
  }

  /** The countdown reads back as the number of seconds it was given; a
      time that has run out shows `00:00`. */
  lemma TimeRemainingReadsBack(seconds: int)
    ensures seconds <= 0 ==> FormatTimeRemaining(seconds) == "00:00"
    ensures seconds > 0 ==> ClockReads(FormatTimeRemaining(seconds), seconds)
  {
    if seconds > 0 {
      var minutes, secs := seconds / 60, seconds % 60;
      var m := PadStart(NatToDecimal(minutes), 2, '0');
      var s := PadStart(NatToDecimal(secs), 2, '0');
      TwoDigitsBelowHundred(secs);
      PaddedValue(minutes, 2);
      PaddedValue(secs, 2);
      ClockReadsBack(m, s, minutes, secs);
      assert minutes * 60 + secs == seconds;
      assert FormatTimeRemaining(seconds) == m + ":" + s;
    }
  }

  // ---------------------------------------------------------------------
  // maskCardNumber

  /** `maskCardNumber(cardNumber)`: all but the last four characters become
      `*`; a number shorter than four (or empty) is returned as it is. */
  function MaskCardNumber(card: string): (r: string)
    ensures |r| == |card|
    ensures |card| < 4 ==> r == card
    ensures |card| >= 4 ==> r[|card| - 4..] == card[|card| - 4..]
    ensures |card| >= 4 ==> forall i | 0 <= i < |card| - 4 :: r[i] == '*'
  {
    if |card| < 4 then card
    else Repeat('*', |card| - 4) + Slice(card, -4, |card|)
  }

  /** Masking a masked number changes nothing, and two numbers of the same
      length that end alike mask alike. */
  lemma MaskIdempotent(card: string, other: string)
    ensures MaskCardNumber(MaskCardNumber(card)) == MaskCardNumber(card)
    ensures |card| == |other| >= 4 && card[|card| - 4..] == other[|other| - 4..] ==>
      MaskCardNumber(card) == MaskCardNumber(other)
  {
    var m := MaskCardNumber(card);
    if |card| >= 4 {
      var mm := MaskCardNumber(m);
      assert forall i | 0 <= i < |m| :: mm[i] == m[i] by {
        forall i | 0 <= i < |m| ensures mm[i] == m[i] {
          if i >= |m| - 4 {
            assert mm[i] == mm[|m| - 4..][i - (|m| - 4)];
            assert m[i] == m[|m| - 4..][i - (|m| - 4)];
          }
        }
      }
      if |card| == |other| && card[|card| - 4..] == other[|other| - 4..] {
        var o := MaskCardNumber(other);
        forall i | 0 <= i < |m| ensures m[i] == o[i] {
          if i >= |m| - 4 {
            assert m[i] == m[|m| - 4..][i - (|m| - 4)];
            assert o[i] == o[|o| - 4..][i - (|o| - 4)];
          }
        }
      }
    }
  }

  // ---------------------------------------------------------------------
  // formatPaymentStatus

  /** The labels, keyed by lower-case status name. */
  const StatusLabels: map<string, string> := map[
    "pending" := "Pending", "processing" := "Processing",
    "requires_action" := "Requires Action", "succeeded" := "Succeeded",
    "failed" := "Failed", "canceled" := "Canceled",
    "partial" := "Partially Completed", "refunded" := "Refunded"]

  /** What a property lookup on the label object literal can produce: a
      string, or one of the two members every object inherits under an
      all-lower-case name — the `Object` function (`constructor`) and
      `Object.prototype` (`__proto__`). Both are truthy, so `||` keeps them. */
  datatype JsValue = JsString(s: string) | ObjectFunction | ObjectPrototype

  /** `formatPaymentStatus(status)` as written: `statusMap[key] || status`
      on a plain object, which also finds the inherited members. */
  function FormatPaymentStatusAsWritten(status: string): JsValue {
    var key := ToLower(status);
    if key in StatusLabels then JsString(StatusLabels[key])
    else if key == "constructor" then ObjectFunction
    else if key == "__proto__" then ObjectPrototype
    else JsString(status)
  }

  /** The discrepancy: a status named `constructor` or `__proto__`, in any
      case, is displayed as a function or an object instead of a string. */
  lemma InheritedStatusKeyIsNotAString()
    ensures !FormatPaymentStatusAsWritten("constructor").JsString?
    ensures !FormatPaymentStatusAsWritten("Constructor").JsString?
    ensures !FormatPaymentStatusAsWritten("__proto__").JsString?
  {
    assert ToLower("constructor") == "constructor";
    assert ToLower("Constructor") == "constructor";
    assert ToLower("__proto__") == "__proto__";
  }

  /** `formatPaymentStatus` as intended: the label when the lower-cased
      status has one of its own, otherwise the status as given. */
  function FormatPaymentStatus(status: string): (r: string)
    ensures ToLower(status) in StatusLabels ==> r == StatusLabels[ToLower(status)]
    ensures ToLower(status) !in StatusLabels ==> r == status
  {
    var key := ToLower(status);
    if key in StatusLabels then StatusLabels[key] else status
  }

  /** The intended function differs from the code as written only on the
      two inherited names, where it returns the status unchanged. */
  lemma AsWrittenAgreesOffInheritedKeys(status: string)
    ensures ToLower(status) != "constructor" && ToLower(status) != "__proto__" ==>
      FormatPaymentStatusAsWritten(status) == JsString(FormatPaymentStatus(status))
    ensures FormatPaymentStatus("constructor") == "constructor"
  {
    assert ToLower("constructor") == "constructor";
  }

  /** Status names are written in lower case. */
  lemma StatusNameIsLower(s: PaymentStatus)
    ensures ToLower(StatusName(s)) == StatusName(s)
  {
    var n := StatusName(s);
    assert forall i | 0 <= i < |n| :: !IsUpperAscii(n[i]);
  }

  /** The label a status shows: the eight statuses of the gateway get their
      label whatever the case of the name, the processor's own statuses
      show their name, and no two statuses show alike. */
  lemma StatusLabelsDistinct(a: PaymentStatus, b: PaymentStatus)
    ensures StatusName(a) in StatusLabels ==>
      FormatPaymentStatus(ToUpper(StatusName(a))) == FormatPaymentStatus(StatusName(a))
    ensures FormatPaymentStatus(StatusName(a)) == FormatPaymentStatus(StatusName(b)) ==> a == b
    ensures FormatPaymentStatus(StatusName(Partial)) == "Partially Completed"
  {
    StatusNameIsLower(a);
    StatusNameIsLower(b);
    StatusNameIsLower(Partial);
    LowerOfUpper(StatusName(a));
    assert ToLower(ToUpper(StatusName(a))) == StatusName(a);
  }

  // ---------------------------------------------------------------------
  // truncateText

  /** `truncateText(text, maxLength)`: the text when it fits, otherwise
      `text.slice(0, maxLength - 3)` followed by `...`. */
  function TruncateText(text: string, maxLength: int): (r: string)
    ensures |text| <= maxLength ==> r == text
    ensures |text| > maxLength >= 3 ==> |r| == maxLength && r == text[..maxLength - 3] + "..."
  {
    if |text| <= maxLength then text
    else Slice(text, 0, maxLength - 3) + "..."
  }

  /** With a limit below three the negative slice end counts from the end
      of the text, so the result can be longer than both the limit and the
      text itself. */
  lemma TruncateBelowThreeGrows()
    ensures TruncateText("hello", 2) == "hell..."
    ensures |TruncateText("hello", 2)| > |"hello"|
  {
    assert Slice("hello", 0, -1) == "hell";
  }
}
