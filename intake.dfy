// The order intake of bot.py (`web_app_data_handler`): whether a promo code
// is redeemed, what the customer and the admin are told about it, and the
// "to a set time" flag of the admin's order message.
module Intake {
  import opened Text
  import opened Promo
  import opened Wrappers
  import Checkout

  /** The ledger is consulted only for a non-empty code with a positive rate. */
  predicate AttemptsPromo(code: string, rate: real) {
    code != "" && rate > 0.0
  }

  /** What the handler settles on for the promo: the rate it keeps, the
      warning appended to the customer's reply and the line added to the
      admin's message ("" for none). */
  datatype PromoOutcome = PromoOutcome(rate: real, warning: string, adminNote: string)

  /** The code as the warnings show it, in bold. */
  function Bold(code: string): string {
    "<b>" + code + "</b>"
  }

  function UsedWarning(code: string): string {
    "⚠️ Промокод " + Bold(code) + " уже был использован вами ранее. Скидка отменена."
  }

  function LimitWarning(code: string): string {
    "⚠️ Лимит промокода " + Bold(code) + " исчерпан. Скидка отменена."
  }

  function ErrorWarning(code: string): string {
    "⚠️ Ошибка применения промокода " + Bold(code) + ". Скидка отменена."
  }

  /** The outcome for a redemption status. `amountNote` is what the discount
      arithmetic appends after the code on success: " (-N ₸)", or "" when
      that arithmetic raised. */
  function Settle(code: string, rate: real, status: Status, amountNote: string): PromoOutcome {
    match status
    case Ok => PromoOutcome(rate, "", "\n🎁 <b>Промокод:</b> " + code + amountNote)
    case Used => PromoOutcome(0.0, UsedWarning(code), "\n❌ <b>Промокод:</b> " + code + " (Повторное использование)")
    case Limit => PromoOutcome(0.0, LimitWarning(code), "\n❌ <b>Промокод:</b> " + code + " (Лимит исчерпан)")
    case _ => PromoOutcome(0.0, ErrorWarning(code), "\n❌ <b>Промокод:</b> " + code + " (Ошибка)")
  }

  datatype Intake = Intake(outcome: PromoOutcome, after: Ledger)

  /** The promo part of the handler: gate, redeem, settle. */
  function TakeOrder(l: Ledger, code: string, rate: real, userId: string, now: string,
                     fault: Fault, amountNote: string): Intake
  {
    if !AttemptsPromo(code, rate) then Intake(PromoOutcome(rate, "", ""), l)
    else
      var r := Redeem(l, code, userId, now, fault);
      Intake(Settle(code, rate, r.status, amountNote), r.after)
  }

  /** The handler against the worksheets, which `process_promo_code` updates. */
  method HandleOrderPromo(sheets: PromoSheets, code: string, rate: real, userId: string,
                          now: string, fault: Fault, amountNote: string)
    returns (outcome: PromoOutcome)
    modifies sheets
    ensures Intake(outcome, sheets.State())
      == TakeOrder(old(sheets.State()), code, rate, userId, now, fault, amountNote)
  {
    outcome := PromoOutcome(rate, "", "");
    if code != "" && rate > 0.0 {
      var status := sheets.ProcessPromoCode(code, userId, now, fault);
      outcome := Settle(code, rate, status, amountNote);
    }
  }

  /** Without a code or without a discount the ledger is left alone and the
      order goes through as sent. */
  lemma NoAttemptNoChange(l: Ledger, code: string, rate: real, userId: string, now: string,
                          fault: Fault, amountNote: string)
    requires code == "" || rate <= 0.0
    ensures var t := TakeOrder(l, code, rate, userId, now, fault, amountNote);
      t.after == l && t.outcome == PromoOutcome(rate, "", "")
  {
  }

  /** The discount survives exactly when the ledger said OK; every other
      status zeroes the rate and warns the customer. */
  lemma DiscountKeptIff(l: Ledger, code: string, rate: real, userId: string, now: string,
                        fault: Fault, amountNote: string)
    requires AttemptsPromo(code, rate)
    ensures var t := TakeOrder(l, code, rate, userId, now, fault, amountNote);
      var r := Redeem(l, code, userId, now, fault);
      && t.after == r.after
      && (t.outcome.rate == rate <==> r.status == Ok)
      && (r.status != Ok ==> t.outcome.rate == 0.0)
      && (t.outcome.warning == "" <==> r.status == Ok)
  {
  }

  /** Whatever happens, the rate the order keeps lies between 0 and the rate
      the web app sent. */
  lemma RateNeverGrows(l: Ledger, code: string, rate: real, userId: string, now: string,
                       fault: Fault, amountNote: string)
    requires rate >= 0.0
    ensures var t := TakeOrder(l, code, rate, userId, now, fault, amountNote);
      0.0 <= t.outcome.rate <= rate
  {
  }

  /** A customer who already used a code gets the repeat warning and keeps
      no discount, whatever letter case the app sent. */
  lemma RepeatOrderWarned(l: Ledger, code: string, again: string, rate: real, userId: string,
                          now: string, later: string, amountNote: string)
    requires AttemptsPromo(code, rate) && AttemptsPromo(again, rate)
    requires Upper(again) == Upper(code)
    requires Redeem(l, code, userId, now, NoFault).status == Ok
    ensures var first := TakeOrder(l, code, rate, userId, now, NoFault, amountNote);
      var second := TakeOrder(first.after, again, rate, userId, later, NoFault, amountNote);
      && first.outcome.rate == rate
      && second.outcome == PromoOutcome(0.0, UsedWarning(again),
           "\n❌ <b>Промокод:</b> " + again + " (Повторное использование)")
      && second.after == first.after
  {
    NoDoubleRedemption(l, code, again, userId, now, later, NoFault);
  }

  /** The reply to the customer; `totalText` is the printed total. */
  function ClientResponse(totalText: string, warning: string): string {
    "✅ Заказ принят!\nСумма: " + totalText + " ₸"
    + (if warning != "" then "\n\n" + warning else "")
    + "\nЖдите подтверждения времени."
  }

  /** A refusal warning names the code. */
  lemma WarningNamesCode(code: string, rate: real, status: Status, amountNote: string)
    requires status != Ok
    ensures Contains(Settle(code, rate, status, amountNote).warning, Bold(code))
  {
    var b := Bold(code);
    assert Contains(b, b) by { assert b[..|b|] == b; }
    match status {
      case Used =>
        ContainsWithin("⚠️ Промокод ", b, " уже был использован вами ранее. Скидка отменена.", b);
      case Limit =>
        ContainsWithin("⚠️ Лимит промокода ", b, " исчерпан. Скидка отменена.", b);
      case _ =>
        ContainsWithin("⚠️ Ошибка применения промокода ", b, ". Скидка отменена.", b);
    }
  }

  /** The reply names the code whenever the promo was turned down. */
  lemma ClientToldOfRefusal(code: string, rate: real, status: Status, amountNote: string,
                            totalText: string)
    requires status != Ok
    ensures Contains(ClientResponse(totalText, Settle(code, rate, status, amountNote).warning), Bold(code))
  {
    var w := Settle(code, rate, status, amountNote).warning;
    WarningNamesCode(code, rate, status, amountNote);
    var head := "✅ Заказ принят!\nСумма: " + totalText + " ₸" + "\n\n";
    assert w != "";
    assert ClientResponse(totalText, w) == head + w + "\nЖдите подтверждения времени.";
    ContainsWithin(head, w, "\nЖдите подтверждения времени.", Bold(code));
  }

  // ---------------------------------------------------------------------------
  // The "to a set time" flag of the admin's order message

  const TimeFlagLine := "⏰ <b>КО ВРЕМЕНИ!</b>\n"

  /** The test bot.py:238 makes: the comment contains "Ко времени". */
  predicate TimeFlagAsWritten(comment: string) {
    Contains(comment, "Ко времени")
  }

  /** The test the comment format of `submitOrder` calls for: the comment
      opens with the clock the web app writes for a chosen time. */
  predicate TimeFlag(comment: string) {
    StartsWith(comment, "⏰ К ")
  }

  /** The flag line the admin message gets. */
  function TimeFlagText(comment: string): string {
    if TimeFlag(comment) then TimeFlagLine else ""
  }

  /** A customer picks a time such as "12:30" and types no comment: the web
      app sends "⏰ К 12:30. ", which the test as written does not recognise. */
  lemma TimeFlagAsWrittenMissesTimedOrder(f: Checkout.CheckoutForm, discount: real, code: string)
    requires Checkout.SubmitOrder(f, discount, code).Success?
    requires Checkout.WantsSpecificTime(f) && |f.specificTime| <= 5
    requires Checkout.TrimJs(f.comment) == ""
    ensures Checkout.SubmitOrder(f, discount, code).value.comment == "⏰ К " + f.specificTime + ". "
    ensures !TimeFlagAsWritten(Checkout.SubmitOrder(f, discount, code).value.comment)
  {
    Checkout.SubmittedComment(f, discount, code);
    TimedCommentUnflagged(f);
  }

  lemma TimedCommentUnflagged(f: Checkout.CheckoutForm)
    requires Checkout.WantsSpecificTime(f) && |f.specificTime| <= 5
    requires Checkout.TrimJs(f.comment) == ""
    ensures Checkout.TimedComment(f) == "⏰ К " + f.specificTime + ". "
    ensures !TimeFlagAsWritten(Checkout.TimedComment(f))
  {
    var c := "⏰ К " + f.specificTime + ". ";
    assert Checkout.TimedComment(f) == c + "";
    assert c + "" == c;
    NoKoVremeni(c);
  }

  /** "Ко времени" does not occur in a text of at most eleven characters
      whose first two are not its К. */
  lemma NoKoVremeni(c: string)
    requires |c| <= 11 && |c| >= 2 && c[0] != 'К' && c[1] != 'К'
    ensures !Contains(c, "Ко времени")
  {
    var p := "Ко времени";
    assert !StartsWith(c, p) by { assert c[0] != p[0]; }
    assert !StartsWith(c[1..], p) by { assert c[1..][0] != p[0]; }
    var rest := c[1..][1..];
    assert |rest| < |p|;
    if Contains(rest, p) {
      ContainsNeedsRoom(rest, p);
    }
  }

  /** With the corrected test, a sent order is flagged exactly when the
      customer chose a time. */
  lemma TimeFlagIff(f: Checkout.CheckoutForm, discount: real, code: string)
    requires Checkout.SubmitOrder(f, discount, code).Success?
    ensures TimeFlag(Checkout.SubmitOrder(f, discount, code).value.comment)
      <==> Checkout.WantsSpecificTime(f)
    ensures (TimeFlagText(Checkout.SubmitOrder(f, discount, code).value.comment) == TimeFlagLine)
      <==> Checkout.WantsSpecificTime(f)
  {
    Checkout.SubmittedPayload(f, discount, code);
  }
}
