/**
 * The older bot (index.ts at the repository root): the same conversation
 * with different rules. A handler that reads a field of a missing session
 * stops with an error and changes nothing; stale text is ignored; the
 * invoice has a fixed price and payload; a payment always extends an
 * existing row; the status check trusts any row.
 */
module LegacyBot {
  import opened Wrappers
  import opened Calendar
  import opened NumberInput
  import opened Outbound
  import StoreRetry
  import SubscriptionBot

  /** `ctx.session`: a month count (declared always present) and the awaiting flag. */
  datatype Session = Session(months: int, awaitingMonthsInput: bool)

  const RestartSession: Session := Session(1, false)

  /** The price in roubles, fixed in the code. */
  const Price: int := 3499

  const FixedPayload: string := "YourPayload"

  /** `getInvoice(id, months)`: no receipt, and the same payload for every purchase. */
  function GetInvoice(id: UserId, months: int): Invoice {
    Invoice(id, FixedPayload, 100 * Price * months, None)
  }

  /**
   * The older invoice charges 3499 roubles (349900 kopecks) per month, and
   * its payload does not tell purchases apart: the current payload decoder
   * finds no user or month count in it.
   */
  lemma InvoiceCarriesNoPurchase(id: UserId, months: int, otherId: UserId, otherMonths: int)
    ensures GetInvoice(id, months).amount == 349900 * months
    ensures GetInvoice(id, months).payload == GetInvoice(otherId, otherMonths).payload
    ensures SubscriptionBot.ParsePayload(GetInvoice(id, months).payload) == None
  {
    var p := FixedPayload;
    assert p[0] != SubscriptionBot.PayloadPrefix[0];
  }

  /**
   * The older upsert: a new row ends `months` months from today; an existing
   * row (its end date is never NULL) is always extended from its end date.
   */
  function UpsertEnd(existing: Option<Date>, today: Date, months: nat): Date {
    match existing
    case None => AddMonths(today, months)
    case Some(end) => AddMonths(end, months)
  }

  /** The two upsert rules agree on new rows and on rows still running after today. */
  lemma UpsertRulesAgreeUnlessLapsed(existing: Option<Date>, today: Date, months: nat)
    requires existing.None? || Before(today, existing.value)
    ensures UpsertEnd(existing, today, months) == SubscriptionBot.UpsertEnd(existing, today, months)
  {
  }

  /**
   * On a lapsed row the older rule never gives a later end date than the
   * current one, which restarts from today.
   */
  lemma LapsedRenewalNotLaterThanCurrent(end: Date, today: Date, months: nat)
    requires NotAfter(end, today)
    ensures NotAfter(UpsertEnd(Some(end), today, months), SubscriptionBot.UpsertEnd(Some(end), today, months))
  {
    AddMonthsMonotone(end, today, months);
  }

  /**
   * A renewal of a long-lapsed row leaves the subscription already expired:
   * a row ending on 10 January 2024, renewed for one month on 1 June 2024,
   * ends on 10 February 2024, while the current rule gives 1 July 2024.
   */
  lemma LapsedRenewalStaysExpired()
    ensures var end, today := Civil(2024, 1, 10), Civil(2024, 6, 1);
      UpsertEnd(Some(end), today, 1) == Civil(2024, 2, 10)
      && Before(UpsertEnd(Some(end), today, 1), today)
      && SubscriptionBot.UpsertEnd(Some(end), today, 1) == Civil(2024, 7, 1)
      && Before(today, SubscriptionBot.UpsertEnd(Some(end), today, 1))
  {
  }

  /** The older status check: active whenever a row exists, whatever its date. */
  function StatusMessage(ledger: Ledger, u: UserId): Message {
    if u in ledger then StatusActiveUntil(ledger[u]) else StatusInactive
  }

  /**
   * The older status check reports a subscription as active exactly when a
   * row exists, so it can report a subscription active until a day already
   * past; the current check never does.
   */
  lemma StatusTrustsAnyRow(ledger: Ledger, u: UserId, today: Date)
    ensures StatusMessage(ledger, u).StatusActiveUntil? <==> u in ledger
    ensures u in ledger && NotAfter(ledger[u], today) ==>
      StatusMessage(ledger, u) == StatusActiveUntil(ledger[u])
      && SubscriptionBot.StatusMessage(ledger, u, today) == StatusInactive
  {
    if u in ledger && NotAfter(ledger[u], today) {
      BeforeIsStrictTotalOrder(today, ledger[u], today);
    }
  }

  class Bot {
    var sessions: map<UserId, Session>
    var ledger: Ledger
    var log: seq<Action>

    ghost predicate Valid()
      reads this
    {
      forall u :: u in sessions ==> 1 <= sessions[u].months <= 12
    }

    /**
     * The bot as the process starts it: the `users` table holds whatever
     * earlier runs left in it, while the in-memory session store starts empty.
     */
    constructor (ledger0: Ledger)
      ensures Valid() && sessions == map[] && ledger == ledger0 && log == []
    {
      sessions := map[];
      ledger := ledger0;
      log := [];
    }

    /** `restartBot`: the session is overwritten with the initial one and the menu is shown. */
    method Restart(u: UserId)
      requires Valid()
      modifies this
      ensures Valid()
      ensures sessions == old(sessions)[u := RestartSession]
      ensures ledger == old(ledger) && log == old(log) + [Reply(u, MainMenu)]
    {
      sessions := sessions[u := RestartSession];
      log := log + [Reply(u, MainMenu)];
    }

    /** `/start`. */
    method Start(u: UserId)
      requires Valid()
      modifies this
      ensures Valid()
      ensures sessions == old(sessions)[u := RestartSession]
      ensures ledger == old(ledger) && log == old(log) + [Reply(u, MainMenu)]
    {
      Restart(u);
    }

    /** The "buy a subscription" menu entry. */
    method Buy(u: UserId)
      requires Valid()
      modifies this
      ensures Valid()
      ensures sessions == old(sessions) && ledger == old(ledger)
      ensures log == old(log) + [Reply(u, PaymentMethods)]
    {
      log := log + [Reply(u, PaymentMethods)];
    }

    /**
     * The payment-method button: sets the awaiting flag and asks for a month
     * count; without a session the handler fails and nothing changes.
     */
    method ChoosePaymentMethod(u: UserId)
      requires Valid()
      modifies this
      ensures Valid() && ledger == old(ledger)
      ensures u !in old(sessions) ==> sessions == old(sessions) && log == old(log)
      ensures u in old(sessions) ==>
        sessions == old(sessions)[u := old(sessions)[u].(awaitingMonthsInput := true)]
        && log == old(log) + [Reply(u, AskMonths)]
    {
      if u !in sessions {
        return;
      }
      sessions := sessions[u := sessions[u].(awaitingMonthsInput := true)];
      log := log + [Reply(u, AskMonths)];
    }

    /**
     * The cancel button: edits the message, writes `{months: 1}`, then runs
     * the restart; it ends in the restart session whatever the session held.
     */
    method Cancel(u: UserId)
      requires Valid()
      modifies this
      ensures Valid() && ledger == old(ledger)
      ensures sessions == old(sessions)[u := RestartSession]
      ensures log == old(log) + [EditMessage(u, CancelNotice), Reply(u, MainMenu)]
    {
      log := log + [EditMessage(u, CancelNotice)];
      sessions := sessions[u := Session(1, false)];
      Restart(u);
    }

    /**
     * Free text: ignored unless a month count is awaited (without a session
     * the handler fails, which changes nothing either). While awaiting, the
     * same 1..12 integer check as the current bot applies.
     */
    method ReceiveText(u: UserId, text: string)
      requires Valid()
      modifies this
      ensures Valid() && ledger == old(ledger)
      ensures (u !in old(sessions) || !old(sessions)[u].awaitingMonthsInput) ==>
        sessions == old(sessions) && log == old(log)
      ensures u in old(sessions) && old(sessions)[u].awaitingMonthsInput && ParseMonths(text).None? ==>
        sessions == old(sessions) && log == old(log) + [Reply(u, InvalidMonths)]
      ensures u in old(sessions) && old(sessions)[u].awaitingMonthsInput && ParseMonths(text).Some? ==>
        var m := ParseMonths(text).value;
        sessions == old(sessions)[u := old(sessions)[u].(months := m)]
        && log == old(log) + [Reply(u, MonthsChosen(m))]
    {
      var months := ParseMonths(text);
      if u !in sessions || !sessions[u].awaitingMonthsInput {
        return;
      }
      match months {
        case None =>
          log := log + [Reply(u, InvalidMonths)];
        case Some(m) =>
          sessions := sessions[u := sessions[u].(months := m)];
          log := log + [Reply(u, MonthsChosen(m))];
      }
    }

    /** The payment provider's pre-checkout query is always approved. */
    method AnswerPreCheckout(u: UserId)
      requires Valid()
      modifies this
      ensures Valid()
      ensures sessions == old(sessions) && ledger == old(ledger)
      ensures log == old(log) + [ApprovePreCheckout(u)]
    {
      log := log + [ApprovePreCheckout(u)];
    }

    /**
     * The pay button: the invoice for the session's month count, with no
     * check that it is set; without a session the handler fails.
     */
    method ConfirmPayment(u: UserId)
      requires Valid()
      modifies this
      ensures Valid() && sessions == old(sessions) && ledger == old(ledger)
      ensures u !in old(sessions) ==> log == old(log)
      ensures u in old(sessions) ==>
        1 <= old(sessions)[u].months <= 12
        && log == old(log) + [Reply(u, InvoiceMessage(GetInvoice(u, old(sessions)[u].months)))]
    {
      if u !in sessions {
        return;
      }
      log := log + [Reply(u, InvoiceMessage(GetInvoice(u, sessions[u].months)))];
    }

    /**
     * The subscription status menu entry: reads this user's row and replies,
     * changing nothing else. When the query fails the handler stops before
     * replying, so nothing is sent.
     */
    method CheckStatus(u: UserId, queryFails: bool)
      requires Valid()
      modifies this
      ensures Valid()
      ensures sessions == old(sessions) && ledger == old(ledger)
      ensures log == old(log) + if queryFails then [] else [Reply(u, StatusMessage(ledger, u))]
    {
      if queryFails {
        return;
      }
      log := log + [Reply(u, StatusMessage(ledger, u))];
    }

    /**
     * A successful payment: invite link, then the always-extend upsert under
     * the same five-failure retry, then the link is sent whatever the
     * outcome. A failed link creation or a missing session stops the handler.
     */
    method SuccessfulPayment(u: UserId, today: Date, inviteCreated: bool, outcomes: seq<bool>)
      returns (calls: nat, stored: bool)
      requires Valid()
      modifies this
      ensures Valid() && sessions == old(sessions)
      ensures !inviteCreated || u !in old(sessions) ==>
        calls == 0 && !stored && ledger == old(ledger) && log == old(log)
      ensures inviteCreated && u in old(sessions) ==>
        (calls, stored) == StoreRetry.Retry(outcomes)
        && ledger == (if stored
                      then old(ledger)[u := UpsertEnd(Lookup(old(ledger), u), today, old(sessions)[u].months)]
                      else old(ledger))
        && log == old(log) + [Reply(u, InviteLink)]
    {
      calls, stored := 0, false;
      if !inviteCreated || u !in sessions {
        return;
      }
      var months := sessions[u].months;
      var attempts := 0;
      while attempts < StoreRetry.MaxFailures && !stored
        invariant 0 <= attempts <= StoreRetry.MaxFailures
        invariant sessions == old(sessions) && log == old(log)
        invariant !stored ==> (
          calls == attempts && ledger == old(ledger)
          && StoreRetry.Retry(outcomes)
             == (attempts + StoreRetry.RetryFrom(outcomes, attempts).0, StoreRetry.RetryFrom(outcomes, attempts).1))
        invariant stored ==> (
          (calls, true) == StoreRetry.Retry(outcomes)
          && ledger == old(ledger)[u := UpsertEnd(Lookup(old(ledger), u), today, months)])
        decreases StoreRetry.MaxFailures - attempts, if stored then 0 else 1
      {
        calls := calls + 1;
        if StoreRetry.CallSucceeds(outcomes, attempts) {
          ledger := ledger[u := UpsertEnd(Lookup(ledger, u), today, months)];
          stored := true;
        } else {
          attempts := attempts + 1;
        }
      }
      log := log + [Reply(u, InviteLink)];
    }
  }
}
