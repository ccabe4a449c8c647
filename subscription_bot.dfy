/**
 * The current bot (src/index.ts): the purchase conversation, the invoice, the
 * status check and the settlement of a successful payment into the ledger.
 *
 * `Bot` holds the state the handlers change: the per-user sessions, the
 * ledger (the `users` table) and the log of outbound actions. Each handler is
 * one method, run as one atomic step.
 */
module SubscriptionBot {
  import opened Wrappers
  import opened Calendar
  import opened NumberInput
  import opened Outbound
  import StoreRetry

  /**
   * `ctx.session`: an optional month count and the "awaiting a month count"
   * flag. An unset flag is read as false everywhere, so it is a plain bool.
   */
  datatype Session = Session(months: Option<int>, awaitingMonthsInput: bool)

  /** The session `restartBot` writes. */
  const RestartSession: Session := Session(Some(1), false)

  /** Every session the handlers write holds a month count in 1..12. */
  predicate SessionOk(s: Session) {
    s.months.Some? && 1 <= s.months.value <= 12
  }

  /** `!ctx.session.months`: the month count is unset or zero. */
  predicate MonthsFalsy(s: Session) {
    s.months.None? || s.months.value == 0
  }

  // ---------------------------------------------------------------- invoice

  const PayloadPrefix: string := "subscription_"

  /** The invoice payload `subscription_<id>_<months>`. */
  function Payload(id: UserId, months: int): string {
    PayloadPrefix + IntToDecimal(id) + "_" + IntToDecimal(months)
  }

  /** Reads the user id and month count back out of an invoice payload. */
  function ParsePayload(p: string): Option<(UserId, int)> {
    if |p| < |PayloadPrefix| || p[..|PayloadPrefix|] != PayloadPrefix then None
    else
      var rest := p[|PayloadPrefix|..];
      var i := IndexOf(rest, '_');
      if i == |rest| then None
      else
        var id, months := ToNumber(rest[..i]), ToNumber(rest[i + 1..]);
        if IsInteger(id) && IsInteger(months) then Some((id.whole, months.whole)) else None
  }

  /** `getInvoice(id, months)`: the price line is in kopecks, the receipt counts months. */
  function GetInvoice(id: UserId, months: int, price: int): Invoice {
    Invoice(id, Payload(id, months), 100 * price * months,
            Some(Receipt(months, IntToDecimal(price) + ".00")))
  }

  lemma SeparatorAfterDecimal(a: string, b: string)
    requires forall i :: 0 <= i < |a| ==> IsDigit(a[i]) || a[i] == '-'
    ensures IndexOf(a + "_" + b, '_') == |a|
    ensures (a + "_" + b)[..|a|] == a && (a + "_" + b)[|a| + 1..] == b
  {
    var s := a + "_" + b;
    var r := IndexOf(s, '_');
    assert s[|a|] == '_';
  }

  /**
   * The payload of an invoice identifies the paying user and the number of
   * months bought, and the receipt bills that many months.
   */
  lemma InvoiceIdentifiesPurchase(id: UserId, months: int, price: int)
    ensures ParsePayload(GetInvoice(id, months, price).payload) == Some((id, months))
    ensures GetInvoice(id, months, price).receipt.Some?
    ensures GetInvoice(id, months, price).receipt.value.quantity == months
    ensures GetInvoice(id, months, price).receipt.value.unitValue == IntToDecimal(price) + ".00"
    ensures GetInvoice(id, months, price).chatId == id
  {
    var a, b := IntToDecimal(id), IntToDecimal(months);
    var p := Payload(id, months);
    assert p == PayloadPrefix + (a + "_" + b);
    assert p[..|PayloadPrefix|] == PayloadPrefix;
    assert p[|PayloadPrefix|..] == a + "_" + b;
    SeparatorAfterDecimal(a, b);
    DecimalRoundTrip(id);
    DecimalRoundTrip(months);
  }

  /**
   * The amount charged is in kopecks: one month costs `100 * price`, and the
   * amount is that one-month amount times the number of months.
   */
  lemma InvoiceChargesPerMonth(id: UserId, months: int, price: int)
    ensures GetInvoice(id, 1, price).amount == 100 * price
    ensures GetInvoice(id, months, price).amount == 100 * price * months
    ensures GetInvoice(id, months, price).amount == months * GetInvoice(id, 1, price).amount
  {
    var one := GetInvoice(id, 1, price).amount;
    assert one == 100 * price;
    assert GetInvoice(id, months, price).amount == one * months;
  }

  // ------------------------------------------------------------- the ledger

  /**
   * The new `subscription_end` written by the payment upsert: a new row ends
   * `months` months from today; an existing row whose end is still after
   * today is extended by `months` months; any other existing row restarts
   * from today.
   */
  function UpsertEnd(existing: Option<Date>, today: Date, months: nat): Date {
    match existing
    case None => AddMonths(today, months)
    case Some(end) => if Before(today, end) then AddMonths(end, months) else AddMonths(today, months)
  }

  /**
   * After a payment for at least one month, the subscription ends after
   * today, and after the end date it had before.
   */
  lemma UpsertEndsLater(existing: Option<Date>, today: Date, months: nat)
    requires months >= 1
    ensures Before(today, UpsertEnd(existing, today, months))
    ensures existing.Some? ==> Before(existing.value, UpsertEnd(existing, today, months))
  {
    AddMonthsLater(today, months);
    if existing.Some? {
      var end := existing.value;
      AddMonthsLater(end, months);
      if Before(today, end) {
        BeforeIsStrictTotalOrder(today, end, AddMonths(end, months));
      } else {
        BeforeIsStrictTotalOrder(end, today, AddMonths(today, months));
      }
    }
  }

  /**
   * Renewing an active subscription keeps its unused time: the result is
   * never earlier than what a first purchase on the same day would give.
   */
  lemma UpsertKeepsRemainingTime(existing: Option<Date>, today: Date, months: nat)
    ensures NotAfter(AddMonths(today, months), UpsertEnd(existing, today, months))
  {
    if existing.Some? && Before(today, existing.value) {
      AddMonthsMonotone(today, existing.value, months);
    }
  }

  // ------------------------------------------------------------ status check

  /**
   * The status reply, at day granularity: inactive without a row, or when
   * the end date has been reached (midnight of the end day lies before the
   * current moment); otherwise active until the end date.
   */
  function StatusMessage(ledger: Ledger, u: UserId, today: Date): Message {
    match Lookup(ledger, u)
    case None => StatusInactive
    case Some(end) => if Before(today, end) then StatusActiveUntil(end) else StatusInactive
  }

  /**
   * The status check and the payment upsert agree: a payment extends the
   * current end date exactly when the status check reports the subscription
   * active, and otherwise counts from today.
   */
  lemma RenewalExtendsExactlyWhenActive(ledger: Ledger, u: UserId, today: Date, months: nat)
    ensures StatusMessage(ledger, u, today).StatusActiveUntil?
      <==> u in ledger && Before(today, ledger[u])
    ensures UpsertEnd(Lookup(ledger, u), today, months)
      == if StatusMessage(ledger, u, today).StatusActiveUntil?
         then AddMonths(ledger[u], months) else AddMonths(today, months)
  {
  }

  /** The month count a payment's invoice payload bills this user for, when it names them and a count in 1..12. */
  function PaidMonths(u: UserId, payload: string): Option<nat> {
    match ParsePayload(payload)
    case None => None
    case Some((id, months)) => if id == u && 1 <= months <= 12 then Some(months) else None
  }

  /** Paying an invoice issued for `months` months credits exactly that many months to its payer. */
  lemma InvoiceSettlesItsOwnCount(u: UserId, months: int, price: int)
    requires 1 <= months <= 12
    ensures PaidMonths(u, GetInvoice(u, months, price).payload) == Some(months)
    ensures forall v :: v != u ==> PaidMonths(v, GetInvoice(u, months, price).payload).None?
  {
    InvoiceIdentifiesPurchase(u, months, price);
  }

  // ------------------------------------------------------ the conversation

  class Bot {
    var sessions: map<UserId, Session>
    var ledger: Ledger
    var log: seq<Action>
    const price: int

    ghost predicate Valid()
      reads this
    {
      forall u :: u in sessions ==> SessionOk(sessions[u])
    }

    /**
     * The bot as the process starts it: the `users` table and the session
     * store are PostgreSQL tables, so both hold whatever earlier runs left in
     * them. Every stored session was written by a handler, so it holds a
     * month count in 1..12. Nothing has been sent yet.
     */
    constructor (price: int, ledger0: Ledger, sessions0: map<UserId, Session>)
      requires forall u :: u in sessions0 ==> SessionOk(sessions0[u])
      ensures Valid()
      ensures this.price == price && sessions == sessions0 && ledger == ledger0 && log == []
    {
      this.price := price;
      sessions := sessions0;
      ledger := ledger0;
      log := [];
    }

    /** `restartBot`: the session is overwritten with the initial one and the menu is shown. */
    method Restart(u: UserId)
      requires Valid()
      modifies this
      ensures Valid()
      ensures sessions == old(sessions)[u := RestartSession]
      ensures ledger == old(ledger) && log == old(log) + [Reply(u, MainMenu)]
    {
      sessions := sessions[u := RestartSession];
      log := log + [Reply(u, MainMenu)];
    }

    /** `/start`. */
    method Start(u: UserId)
      requires Valid()
      modifies this
      ensures Valid()
      ensures sessions == old(sessions)[u := RestartSession]
      ensures ledger == old(ledger) && log == old(log) + [Reply(u, MainMenu)]
    {
      Restart(u);
    }

    /** The "buy a subscription" menu entry: offers the payment methods, changes nothing. */
    method Buy(u: UserId)
      requires Valid()
      modifies this
      ensures Valid()
      ensures sessions == old(sessions) && ledger == old(ledger)
      ensures log == old(log) + [Reply(u, PaymentMethods)]
    {
      log := log + [Reply(u, PaymentMethods)];
    }

    /**
     * The payment-method button: without a session it restarts; otherwise it
     * starts awaiting a month count and leaves the month count as it was.
     */
    method ChoosePaymentMethod(u: UserId)
      requires Valid()
      modifies this
      ensures Valid() && ledger == old(ledger)
      ensures u !in old(sessions) ==>
        sessions == old(sessions)[u := RestartSession] && log == old(log) + [Reply(u, MainMenu)]
      ensures u in old(sessions) ==>
        sessions == old(sessions)[u := old(sessions)[u].(awaitingMonthsInput := true)]
        && log == old(log) + [Reply(u, AskMonths), AnswerCallback(u)]
    {
      if u !in sessions {
        Restart(u);
        return;
      }
      sessions := sessions[u := sessions[u].(awaitingMonthsInput := true)];
      log := log + [Reply(u, AskMonths), AnswerCallback(u)];
    }

    /** The cancel button: acknowledges, then runs the full restart, whatever the session held. */
    method Cancel(u: UserId)
      requires Valid()
      modifies this
      ensures Valid() && ledger == old(ledger)
      ensures sessions == old(sessions)[u := RestartSession]
      ensures log == old(log) + [EditMessage(u, CancelNotice), Reply(u, MainMenu), AnswerCallback(u)]
    {
      log := log + [EditMessage(u, CancelNotice)];
      Restart(u);
      log := log + [AnswerCallback(u)];
    }

    /**
     * Free text. Without a session, or when no month count is awaited, it
     * restarts and never stores a month count. While awaiting, a text that
     * reads as an integer in 1..12 is stored as the month count (the
     * awaiting flag stays set); any other text is answered with a re-prompt
     * and changes nothing.
     */
    method ReceiveText(u: UserId, text: string)
      requires Valid()
      modifies this
      ensures Valid() && ledger == old(ledger)
      ensures (u !in old(sessions) || !old(sessions)[u].awaitingMonthsInput) ==>
        sessions == old(sessions)[u := RestartSession] && log == old(log) + [Reply(u, MainMenu)]
      ensures u in old(sessions) && old(sessions)[u].awaitingMonthsInput && ParseMonths(text).None? ==>
        sessions == old(sessions) && log == old(log) + [Reply(u, InvalidMonths)]
      ensures u in old(sessions) && old(sessions)[u].awaitingMonthsInput && ParseMonths(text).Some? ==>
        var m := ParseMonths(text).value;
        sessions == old(sessions)[u := old(sessions)[u].(months := Some(m))]
        && log == old(log) + [Reply(u, MonthsChosen(m))]
    {
      var months := ParseMonths(text);
      if u !in sessions || !sessions[u].awaitingMonthsInput {
        Restart(u);
        return;
      }
      match months {
        case None =>
          log := log + [Reply(u, InvalidMonths)];
        case Some(m) =>
          sessions := sessions[u := sessions[u].(months := Some(m))];
          log := log + [Reply(u, MonthsChosen(m))];
      }
    }

    /** The payment provider's pre-checkout query is always approved. */
    method AnswerPreCheckout(u: UserId)
      requires Valid()
      modifies this
      ensures Valid()
      ensures sessions == old(sessions) && ledger == old(ledger)
      ensures log == old(log) + [ApprovePreCheckout(u)]
    {
      log := log + [ApprovePreCheckout(u)];
    }

    /**
     * The pay button: acknowledges; without a session it restarts; otherwise
     * it sends the invoice for the session's month count. (A session with no
     * month count would restart too, but every session holds one.)
     */
    method ConfirmPayment(u: UserId)
      requires Valid()
      modifies this
      ensures Valid() && ledger == old(ledger)
      ensures u !in old(sessions) ==>
        sessions == old(sessions)[u := RestartSession]
        && log == old(log) + [AnswerCallback(u), Reply(u, MainMenu)]
      ensures u in old(sessions) ==>
        var m := old(sessions)[u].months.value;
        1 <= m <= 12 && sessions == old(sessions)
        && log == old(log) + [AnswerCallback(u), Reply(u, InvoiceMessage(GetInvoice(u, m, price)))]
    {
      log := log + [AnswerCallback(u)];
      if u !in sessions || MonthsFalsy(sessions[u]) {
        Restart(u);
        return;
      }
      var months := sessions[u].months.value;
      log := log + [Reply(u, InvoiceMessage(GetInvoice(u, months, price)))];
    }

    /**
     * The subscription status menu entry: reads this user's row and replies,
     * changing nothing else. When the query fails the handler stops before
     * replying; the error handler only logs, so nothing is sent.
     */
    method CheckStatus(u: UserId, today: Date, queryFails: bool)
      requires Valid()
      modifies this
      ensures Valid()
      ensures sessions == old(sessions) && ledger == old(ledger)
      ensures log == old(log) + if queryFails then [] else [Reply(u, StatusMessage(ledger, u, today))]
    {
      if queryFails {
        return;
      }
      log := log + [Reply(u, StatusMessage(ledger, u, today))];
    }

    /**
     * The payment upsert for `months` months under the retry loop: the ledger
     * changes at most once, only at this user's row, as described by
     * `StoreRetry.Retry`.
     */
    method StoreWithRetry(u: UserId, today: Date, months: nat, outcomes: seq<bool>)
      returns (calls: nat, stored: bool)
      requires Valid()
      modifies this
      ensures Valid() && sessions == old(sessions) && log == old(log)
      ensures (calls, stored) == StoreRetry.Retry(outcomes)
      ensures ledger == if stored then old(ledger)[u := UpsertEnd(Lookup(old(ledger), u), today, months)]
                        else old(ledger)
    {
      calls, stored := 0, false;
      var attempts := 0;
      while attempts < StoreRetry.MaxFailures && !stored
        invariant 0 <= attempts <= StoreRetry.MaxFailures
        invariant sessions == old(sessions) && log == old(log)
        invariant !stored ==> (
          calls == attempts && ledger == old(ledger)
          && StoreRetry.Retry(outcomes)
             == (attempts + StoreRetry.RetryFrom(outcomes, attempts).0, StoreRetry.RetryFrom(outcomes, attempts).1))
        invariant stored ==> (
          (calls, true) == StoreRetry.Retry(outcomes)
          && ledger == old(ledger)[u := UpsertEnd(Lookup(old(ledger), u), today, months)])
        decreases StoreRetry.MaxFailures - attempts, if stored then 0 else 1
      {
        calls := calls + 1;
        if StoreRetry.CallSucceeds(outcomes, attempts) {
          ledger := ledger[u := UpsertEnd(Lookup(ledger, u), today, months)];
          stored := true;
        } else {
          attempts := attempts + 1;
        }
      }
    }

    /**
     * A successful payment. An invite link is created first (if that call
     * fails, the handler stops and nothing else happens); a missing session
     * also stops the handler. Otherwise the upsert is retried for the month
     * count the session holds NOW, which need not be the count of the paid
     * invoice (see `StaleMonthCountScenario`), and the invite link is sent
     * whether or not a write succeeded.
     */
    method SuccessfulPayment(u: UserId, today: Date, inviteCreated: bool, outcomes: seq<bool>)
      returns (calls: nat, stored: bool)
      requires Valid()
      modifies this
      ensures Valid() && sessions == old(sessions)
      ensures !inviteCreated || u !in old(sessions) ==>
        calls == 0 && !stored && ledger == old(ledger) && log == old(log)
      ensures inviteCreated && u in old(sessions) ==>
        (calls, stored) == StoreRetry.Retry(outcomes)
        && ledger == (if stored
                      then old(ledger)[u := UpsertEnd(Lookup(old(ledger), u), today, old(sessions)[u].months.value)]
                      else old(ledger))
        && log == old(log) + [Reply(u, InviteLink)]
    {
      calls, stored := 0, false;
      if !inviteCreated || u !in sessions {
        return;
      }
      calls, stored := StoreWithRetry(u, today, sessions[u].months.value, outcomes);
      log := log + [Reply(u, InviteLink)];
    }

    /**
     * The settlement as intended: the months credited are the ones of the
     * invoice that was paid, read back from the payment's invoice payload,
     * and not whatever the session holds when the payment arrives. A payload
     * that does not name this user and a count in 1..12 credits nothing.
     */
    method SuccessfulPaymentOfInvoice(u: UserId, payload: string, today: Date, inviteCreated: bool, outcomes: seq<bool>)
      returns (calls: nat, stored: bool)
      requires Valid()
      modifies this
      ensures Valid() && sessions == old(sessions)
      ensures !inviteCreated || PaidMonths(u, payload).None? ==>
        calls == 0 && !stored && ledger == old(ledger) && log == old(log)
      ensures inviteCreated && PaidMonths(u, payload).Some? ==>
        (calls, stored) == StoreRetry.Retry(outcomes)
        && ledger == (if stored
                      then old(ledger)[u := UpsertEnd(Lookup(old(ledger), u), today, PaidMonths(u, payload).value)]
                      else old(ledger))
        && log == old(log) + [Reply(u, InviteLink)]
    {
      calls, stored := 0, false;
      var paid := PaidMonths(u, payload);
      if !inviteCreated || paid.None? {
        return;
      }
      calls, stored := StoreWithRetry(u, today, paid.value, outcomes);
      log := log + [Reply(u, InviteLink)];
    }
  }

  /**
   * The month count is read when the payment arrives, not when the invoice
   * is sent: a user who confirms a one-month invoice, then types "12" (the
   * awaiting flag is still set), then pays, is credited twelve months.
   */
  method StaleMonthCountScenario(u: UserId, today: Date, price: int)
    returns (invoice: Invoice, log: seq<Action>, ledger: Ledger)
    ensures invoice == GetInvoice(u, 1, price) && PaidMonths(u, invoice.payload) == Some(1)
    ensures Reply(u, InvoiceMessage(invoice)) in log
    ensures ledger == map[u := AddMonths(today, 12)]
  {
    var bot := new Bot(price, map[], map[]);
    var one, twelve := IntToDecimal(1), IntToDecimal(12);
    MonthsAcceptedExactlyInRange(1);
    MonthsAcceptedExactlyInRange(12);
    bot.Start(u);
    bot.ChoosePaymentMethod(u);
    bot.ReceiveText(u, one);
    bot.ConfirmPayment(u);
    invoice := GetInvoice(u, 1, price);
    assert Reply(u, InvoiceMessage(invoice)) in bot.log;
    bot.ReceiveText(u, twelve);
    StoreRetry.RetryOutcome([true]);
    var calls, stored := bot.SuccessfulPayment(u, today, true, [true]);
    InvoiceSettlesItsOwnCount(u, 1, price);
    log, ledger := bot.log, bot.ledger;
    assert map[][u := AddMonths(today, 12)] == map[u := AddMonths(today, 12)];
  }
}
