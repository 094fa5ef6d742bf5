// The checkout form of script.js: the phone-number mask (`applyPhoneMask`)
// and the field checks and payload of `submitOrder`.
module Checkout {
  import opened Text
  import opened Wrappers

  // ---------------------------------------------------------------------------
  // Phone mask

  /** The subscriber digits the mask keeps: one leading 7 or 8 (the country
      prefix typed by the user) is dropped, and at most ten digits remain. */
  function National(raw: string): (v: string)
    ensures |v| <= 10
    ensures forall i :: 0 <= i < |v| ==> IsDigit(v[i])
  {
    var d := Digits(raw);
    var v := if d != [] && (d[0] == '7' || d[0] == '8') then d[1..] else d;
    if |v| > 10 then v[..10] else v
  }

  /** What the mask writes in front of the digit at position `i`. */
  function Separator(i: nat): (sep: string)
    ensures forall k :: 0 <= k < |sep| ==> !IsDigit(sep[k])
  {
    if i == 0 then "(" else if i == 3 then ") " else if i == 6 || i == 8 then "-" else ""
  }

  /** The digits laid out one by one, each after its separator:
      `(XXX) XXX-XX-XX`, cut off after the last digit. */
  function Layout(v: string): string
    decreases |v|
  {
    if v == [] then [] else Layout(v[..|v| - 1]) + Separator(|v| - 1) + [v[|v| - 1]]
  }

  /** The value the phone field holds after the mask has run. */
  function PhoneMask(raw: string): string {
    if Digits(raw) == [] then "" else "+7 " + Layout(National(raw))
  }

  function Min(a: int, b: int): int {
    if a < b then a else b
  }

  // The four pieces the handler appends, each guarded by the length test
  // of its `if`; `substring` clamps its end to the length.
  function Area(v: string): string {
    if |v| > 0 then "(" + v[..Min(3, |v|)] else ""
  }

  function Exchange(v: string): string {
    if |v| >= 4 then ") " + v[3..Min(6, |v|)] else ""
  }

  function FirstPair(v: string): string {
    if |v| >= 7 then "-" + v[6..Min(8, |v|)] else ""
  }

  function LastPair(v: string): string {
    if |v| >= 9 then "-" + v[8..Min(10, |v|)] else ""
  }

  /** The first half of `applyPhoneMask`: strip the non-digits, drop one
      leading 7 or 8, keep at most ten digits. */
  method NationalDigits(raw: string) returns (value: string)
    requires Digits(raw) != []
    ensures value == National(raw)
  {
    value := Digits(raw);
    if value[0] == '7' || value[0] == '8' {
      value := value[1..];
    }
    if |value| > 10 {
      value := value[..10];
    }
  }

  /** `applyPhoneMask`: builds the field value piece by piece, as the event
      handler does with `substring` and `+=`. */
  method ApplyPhoneMask(raw: string) returns (formatted: string)
    ensures formatted == PhoneMask(raw)
  {
    if Digits(raw) == [] {
      return "";
    }
    var value := NationalDigits(raw);
    formatted := "+7 ";
    ghost var pieces := "";
    if |value| > 0 {
      formatted := formatted + "(" + value[..Min(3, |value|)];
    }
    pieces := Area(value);
    assert formatted == "+7 " + pieces;
    if |value| >= 4 {
      formatted := formatted + ") " + value[3..Min(6, |value|)];
    }
    pieces := pieces + Exchange(value);
    assert formatted == "+7 " + pieces;
    if |value| >= 7 {
      formatted := formatted + "-" + value[6..Min(8, |value|)];
    }
    pieces := pieces + FirstPair(value);
    assert formatted == "+7 " + pieces;
    if |value| >= 9 {
      formatted := formatted + "-" + value[8..Min(10, |value|)];
    }
    pieces := pieces + LastPair(value);
    assert formatted == "+7 " + pieces;
    LayoutInGroups(value);
  }

  /** The per-digit layout agrees with the handler's grouping by substrings. */
  lemma {:induction false} LayoutInGroups(v: string)
    requires |v| <= 10
    ensures Layout(v) == Area(v) + Exchange(v) + FirstPair(v) + LastPair(v)
    decreases |v|
  {
    var n := |v|;
    if n == 0 {
    } else {
      var u := v[..n - 1];
      LayoutInGroups(u);
      var x := v[n - 1];
      assert Layout(v) == Layout(u) + Separator(n - 1) + [x];
      if n <= 3 {
        AreaGrows(v);
      } else if n <= 6 {
        ExchangeGrows(v);
      } else if n <= 8 {
        FirstPairGrows(v);
      } else {
        LastPairGrows(v);
      }
    }
  }

  lemma AreaGrows(v: string)
    requires 1 <= |v| <= 3
    ensures var u := v[..|v| - 1];
      Area(v) + Exchange(v) + FirstPair(v) + LastPair(v)
      == Area(u) + Exchange(u) + FirstPair(u) + LastPair(u) + Separator(|v| - 1) + [v[|v| - 1]]
  {
    var n := |v|;
    var u := v[..n - 1];
    assert v[..n] == u + [v[n - 1]];
    if n == 1 {
      assert Area(u) == "";
    } else {
      assert Area(u) == "(" + u;
    }
  }

  lemma ExchangeGrows(v: string)
    requires 4 <= |v| <= 6
    ensures var u := v[..|v| - 1];
      Area(v) + Exchange(v) + FirstPair(v) + LastPair(v)
      == Area(u) + Exchange(u) + FirstPair(u) + LastPair(u) + Separator(|v| - 1) + [v[|v| - 1]]
  {
    var n := |v|;
    var u := v[..n - 1];
    assert Area(u) == Area(v) by { assert u[..3] == v[..3]; }
    assert v[3..n] == u[3..] + [v[n - 1]];
    if n == 4 {
      assert Exchange(u) == "";
      assert v[3..n] == [v[3]];
    }
  }

  lemma FirstPairGrows(v: string)
    requires 7 <= |v| <= 8
    ensures var u := v[..|v| - 1];
      Area(v) + Exchange(v) + FirstPair(v) + LastPair(v)
      == Area(u) + Exchange(u) + FirstPair(u) + LastPair(u) + Separator(|v| - 1) + [v[|v| - 1]]
  {
    var n := |v|;
    var u := v[..n - 1];
    assert Area(u) == Area(v) by { assert u[..3] == v[..3]; }
    assert Exchange(u) == Exchange(v) by { assert u[3..6] == v[3..6]; }
    assert v[6..n] == u[6..] + [v[n - 1]];
    if n == 7 {
      assert FirstPair(u) == "";
    }
  }

  lemma LastPairGrows(v: string)
    requires 9 <= |v| <= 10
    ensures var u := v[..|v| - 1];
      Area(v) + Exchange(v) + FirstPair(v) + LastPair(v)
      == Area(u) + Exchange(u) + FirstPair(u) + LastPair(u) + Separator(|v| - 1) + [v[|v| - 1]]
  {
    var n := |v|;
    var u := v[..n - 1];
    assert Area(u) == Area(v) by { assert u[..3] == v[..3]; }
    assert Exchange(u) == Exchange(v) by { assert u[3..6] == v[3..6]; }
    assert FirstPair(u) == FirstPair(v) by { assert u[6..8] == v[6..8]; }
    assert v[8..n] == u[8..] + [v[n - 1]];
    if n == 9 {
      assert LastPair(u) == "";
    }
  }

  /** The separators add no digits. */
  lemma {:induction false} DigitsOfLayout(v: string)
    requires forall i :: 0 <= i < |v| ==> IsDigit(v[i])
    ensures Digits(Layout(v)) == v
    decreases |v|
  {
    if v != [] {
      var n := |v|;
      var u := v[..n - 1];
      var x := v[n - 1];
      var lu, sep := Layout(u), Separator(n - 1);
      assert Layout(v) == lu + sep + [x];
      assert Digits(lu) == u by {
        assert forall k :: 0 <= k < |u| ==> u[k] == v[k];
        DigitsOfLayout(u);
      }
      assert Digits(lu + sep + [x]) == Digits(lu) + [x] by {
        DigitsAfterSeparator(lu, sep, x);
      }
      assert u + [x] == v;
    }
  }

  lemma DigitsAfterSeparator(a: string, sep: string, x: char)
    requires forall k :: 0 <= k < |sep| ==> !IsDigit(sep[k])
    requires IsDigit(x)
    ensures Digits(a + sep + [x]) == Digits(a) + [x]
  {
    DigitsOfNonDigits(sep);
    DigitsAppend(a, sep);
    assert Digits(a + sep) == Digits(a) + [];
    DigitsSnoc(a + sep, x);
  }


  /** Input with no digit clears the field; otherwise the field starts with
      "+7 " and its digits are 7 followed by the kept subscriber digits. */
  lemma MaskShape(raw: string)
    ensures Digits(raw) == [] ==> PhoneMask(raw) == ""
    ensures Digits(raw) != [] ==>
      StartsWith(PhoneMask(raw), "+7 ") && Digits(PhoneMask(raw)) == "7" + National(raw)
  {
    if Digits(raw) != [] {
      var v := National(raw);
      DigitsOfLayout(v);
      DigitsAppend("+7 ", Layout(v));
      assert Digits("+7 ") == "7" by {
        assert "+7 "[..2] == "+7" && "+7"[..1] == "+";
      }
    }
  }

  /** Masking an already masked value changes nothing. */
  lemma MaskIdempotent(raw: string)
    ensures PhoneMask(PhoneMask(raw)) == PhoneMask(raw)
  {
    MaskShape(raw);
    var r := PhoneMask(raw);
    if r == "" {
      assert Digits(r) == [];
    } else {
      var v := National(raw);
      assert Digits(r) == "7" + v;
      assert ("7" + v)[1..] == v;
      assert National(r) == v;
    }
  }

  // ---------------------------------------------------------------------------
  // Submitting the order

  /** The checkout form as `submitOrder` reads it: text fields as typed, and
      for each radio group the value of the checked button, if any. */
  datatype CheckoutForm = CheckoutForm(
    name: string, phone: string, address: string,
    deliveryType: Option<string>,
    paymentType: Option<string>, paymentPhone: string,
    comment: string,
    orderTimeType: Option<string>, specificTime: string)

  /** The `info` object sent to the bot. The payload's `cart` and `total`
      fields, and the emptying of the cart after `tg.sendData`, are not part
      of this value. */
  datatype OrderInfo = OrderInfo(
    name: string, phone: string, deliveryType: string, address: string,
    paymentType: string, paymentPhone: string, comment: string,
    discount: real, promoCode: string)

  /** The toasts `submitOrder` stops with. */
  datatype FormError = NoTimeChosen | NameOrPhoneMissing | AddressMissing | InvoicePhoneMissing

  function TrimJs(s: string): string {
    Trim(s, IsJsSpace)
  }

  function DeliveryValue(f: CheckoutForm): string {
    match f.deliveryType
    case Some(v) => v
    case None => "pickup"
  }

  function PaymentValue(f: CheckoutForm): string {
    match f.paymentType
    case Some(v) => v
    case None => "Наличными"
  }

  predicate WantsSpecificTime(f: CheckoutForm) {
    f.orderTimeType == Some("time")
  }

  predicate NeedsInvoicePhone(payType: string) {
    payType == "Kaspi" || payType == "Halyk"
  }

  /** The delivery label shown to the bot and the admin. */
  function PrettyDelivery(delType: string): string {
    if delType == "delivery" then "Доставка" else if delType == "dinein" then "В зале" else "Самовывоз"
  }

  /** The comment sent to the bot: the time request in front of what the
      customer typed. */
  function TimedComment(f: CheckoutForm): string {
    if WantsSpecificTime(f) then "⏰ К " + f.specificTime + ". " + TrimJs(f.comment)
    else "⚡ Как можно скорее. " + TrimJs(f.comment)
  }

  /** `submitOrder` up to `tg.sendData`: the checks in the source's order,
      then the payload. */
  function SubmitOrder(f: CheckoutForm, appliedDiscount: real, appliedPromoCode: string): Result<OrderInfo, FormError> {
    var name := TrimJs(f.name);
    var phone := TrimJs(f.phone);
    var address := TrimJs(f.address);
    var delType := DeliveryValue(f);
    var payType := PaymentValue(f);
    var payPhone := TrimJs(f.paymentPhone);
    if WantsSpecificTime(f) && f.specificTime == "" then Failure(NoTimeChosen)
    else if name == "" || phone == "" then Failure(NameOrPhoneMissing)
    else if delType == "delivery" && address == "" then Failure(AddressMissing)
    else if NeedsInvoicePhone(payType) && payPhone == "" then Failure(InvoicePhoneMissing)
    else Success(OrderInfo(
      name, phone, PrettyDelivery(delType), if delType == "delivery" then address else "",
      payType, payPhone, TimedComment(f), appliedDiscount, appliedPromoCode))
  }

  /** A field counts as missing when it is empty or all spaces. */
  predicate Blank(s: string) {
    forall i :: 0 <= i < |s| ==> IsJsSpace(s[i])
  }

  /** The order goes out exactly when every required field is filled in. */
  lemma SubmitAcceptsIff(f: CheckoutForm, discount: real, code: string)
    ensures SubmitOrder(f, discount, code).Success? <==>
      && !(WantsSpecificTime(f) && f.specificTime == "")
      && !Blank(f.name) && !Blank(f.phone)
      && !(DeliveryValue(f) == "delivery" && Blank(f.address))
      && !(NeedsInvoicePhone(PaymentValue(f)) && Blank(f.paymentPhone))
  {
    SubmitAcceptsTrimmed(f, discount, code);
    BlankIff(f.name);
    BlankIff(f.phone);
    BlankIff(f.address);
    BlankIff(f.paymentPhone);
  }

  lemma SubmitAcceptsTrimmed(f: CheckoutForm, discount: real, code: string)
    ensures SubmitOrder(f, discount, code).Success? <==>
      && !(WantsSpecificTime(f) && f.specificTime == "")
      && TrimJs(f.name) != "" && TrimJs(f.phone) != ""
      && !(DeliveryValue(f) == "delivery" && TrimJs(f.address) == "")
      && !(NeedsInvoicePhone(PaymentValue(f)) && TrimJs(f.paymentPhone) == "")
  {
  }

  lemma BlankIff(s: string)
    ensures Blank(s) <==> TrimJs(s) == ""
  {
    TrimEmpty(s, IsJsSpace);
  }

  /** A missing time is reported before anything else is looked at. */
  lemma MissingTimeFirst(f: CheckoutForm, discount: real, code: string)
    requires WantsSpecificTime(f) && f.specificTime == ""
    ensures SubmitOrder(f, discount, code) == Failure(NoTimeChosen)
  {
  }

  lemma ClockInFront(t: string, x: string)
    ensures StartsWith("⏰ К " + t + ". " + x, "⏰ К ")
  {
    var c := "⏰ К " + t + ". " + x;
    assert c == "⏰ К " + (t + ". " + x);
    assert c[..|"⏰ К "|] == "⏰ К ";
  }

  lemma HurryNotClock(x: string)
    ensures !StartsWith("⚡ Как можно скорее. " + x, "⏰ К ")
  {
    var c := "⚡ Как можно скорее. " + x;
    assert c[0] == '⚡';
  }

  /** The comment starts with the clock only when a time was picked. */
  lemma TimedCommentMarked(f: CheckoutForm)
    ensures WantsSpecificTime(f) <==> StartsWith(TimedComment(f), "⏰ К ")
  {
    if WantsSpecificTime(f) {
      ClockInFront(f.specificTime, TrimJs(f.comment));
    } else {
      HurryNotClock(TrimJs(f.comment));
    }
  }

  lemma SubmittedComment(f: CheckoutForm, discount: real, code: string)
    requires SubmitOrder(f, discount, code).Success?
    ensures SubmitOrder(f, discount, code).value.comment == TimedComment(f)
  {
  }

  /** What a sent order carries: the delivery label, an address only for
      delivery, the time request in front of the comment, and the promo. */
  lemma SubmittedPayload(f: CheckoutForm, discount: real, code: string)
    requires SubmitOrder(f, discount, code).Success?
    ensures var info := SubmitOrder(f, discount, code).value;
      && (info.deliveryType == "Доставка" <==> DeliveryValue(f) == "delivery")
      && (DeliveryValue(f) != "delivery" ==> info.address == "")
      && (WantsSpecificTime(f) <==> StartsWith(info.comment, "⏰ К "))
      && info.discount == discount && info.promoCode == code
  {
    TimedCommentMarked(f);
    DeliveryLabelIff(DeliveryValue(f));
    SubmittedComment(f, discount, code);
  }

  lemma DeliveryLabelIff(delType: string)
    ensures PrettyDelivery(delType) == "Доставка" <==> delType == "delivery"
  {
    if delType != "delivery" {
      var d := PrettyDelivery(delType);
      assert d[0] != "Доставка"[0];
    }
  }
}
