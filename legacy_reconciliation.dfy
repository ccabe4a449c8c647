/**
 * The older daily job (notifyUsers.ts at the repository root), run against
 * the older bot: every offset selects end dates exactly `daysLeft` days
 * ahead, and at offset 0 a user gets a notice and a channel ban; no row is
 * ever deleted and nobody is removed from the chat.
 */
module LegacyReconciliation {
  import opened Calendar
  import opened Outbound
  import opened Dispatch
  import LegacyBot
  import Reconciliation

  /** The offsets the daily job runs, in this order. */
  const DailyOffsets: seq<nat> := [3, 2, 1, 0]

  /** The query's condition, for every offset: the end date is exactly `today + daysLeft days`. */
  predicate Selected(end: Date, today: Date, daysLeft: nat) {
    end == AddDays(today, daysLeft)
  }

  function Selection(ledger: Ledger, today: Date, daysLeft: nat): set<UserId> {
    set u | u in ledger && Selected(ledger[u], today, daysLeft)
  }

  /** The calls of the offset-0 `try` block for one user, in order. */
  function NoticeCalls(u: UserId): seq<Action> {
    [Reply(u, ExpiryNotice), BanFromChannel(u)]
  }

  /**
   * The calls issued for one selected user: a reminder (with the same word
   * choice as the current job), or the notice followed by the channel ban
   * unless the notice failed.
   */
  function UserCalls(u: UserId, daysLeft: nat, failing: set<Action>): seq<Action> {
    if daysLeft >= 1 then [Reply(u, Reminder(daysLeft, Reconciliation.DayWord(daysLeft)))]
    else if Reply(u, ExpiryNotice) in failing then [Reply(u, ExpiryNotice)]
    else NoticeCalls(u)
  }

  /** The block of calls for each selected user. */
  function Blocks(daysLeft: nat, failing: set<Action>): UserId -> seq<Action> {
    v => UserCalls(v, daysLeft, failing)
  }

  /** The calls issued by one pass over `rows`, user after user. */
  function PassLog(rows: seq<UserId>, daysLeft: nat, failing: set<Action>): seq<Action> {
    Pass(rows, Blocks(daysLeft, failing))
  }

  /**
   * At offset 0 the block follows the `try` rule: the notice, then the
   * channel ban only if the notice went through. Nothing concerns the chat
   * or the row, and what is issued is the start of the current job's block.
   */
  lemma NoticeThenBan(u: UserId, failing: set<Action>)
    ensures UserCalls(u, 0, failing) == Attempted(NoticeCalls(u), failing)
    ensures BanFromChat(u) !in UserCalls(u, 0, failing) && DeleteRecord(u) !in UserCalls(u, 0, failing)
    ensures var issued := UserCalls(u, 0, failing);
      issued == Reconciliation.UserCalls(u, 0, failing)[..|issued|]
  {
    var notice, channel := Reply(u, ExpiryNotice), BanFromChannel(u);
    assert NoticeCalls(u)[1..] == [channel];
    assert [channel][1..] == [];
    assert Attempted([channel], failing) == [channel];
  }

  /** Every call issued for a user concerns that user. */
  lemma UserCallsConcernUser(v: UserId, daysLeft: nat, failing: set<Action>)
    ensures forall j :: 0 <= j < |UserCalls(v, daysLeft, failing)| ==> UserCalls(v, daysLeft, failing)[j].user == v
  {
  }

  /**
   * Each selected user gets exactly the calls of their own block, whatever
   * happens to the other users of the pass.
   */
  lemma PerUserIsolation(rows: seq<UserId>, daysLeft: nat, failing: set<Action>, u: UserId)
    requires Distinct(rows)
    ensures ActionsAbout(PassLog(rows, daysLeft, failing), u)
      == if u in rows then UserCalls(u, daysLeft, failing) else []
  {
    forall v {
      UserCallsConcernUser(v, daysLeft, failing);
    }
    PassIsolation(rows, Blocks(daysLeft, failing), u);
  }

  /** For the reminder offsets both jobs select the same users. */
  lemma ReminderSelectionsAgree(ledger: Ledger, today: Date, daysLeft: nat)
    requires daysLeft >= 1
    ensures Selection(ledger, today, daysLeft) == Reconciliation.Selection(ledger, today, daysLeft)
  {
    forall u ensures u in Selection(ledger, today, daysLeft) <==> u in Reconciliation.Selection(ledger, today, daysLeft) {
    }
  }

  /**
   * At offset 0 the older job selects only the users whose subscription ends
   * today; the current one also selects every end date already past.
   */
  lemma ExpirySelectionNarrower(ledger: Ledger, today: Date)
    ensures Selection(ledger, today, 0) <= Reconciliation.Selection(ledger, today, 0)
    ensures forall u :: (u in Reconciliation.Selection(ledger, today, 0) - Selection(ledger, today, 0)
      <==> u in ledger && Before(ledger[u], today))
  {
    assert AddDays(today, 0) == today;
    forall u | u in Selection(ledger, today, 0)
      ensures u in Reconciliation.Selection(ledger, today, 0)
    {
      assert ledger[u] == today;
    }
  }

  /**
   * A user whose end date is already past is selected by no offset of the
   * older job, on that day or any later one, so a missed expiry day (or a
   * failed ban) is never followed up.
   */
  lemma MissedExpiryNeverSelected(ledger: Ledger, today: Date, u: UserId, daysLeft: nat)
    requires u in ledger && Before(ledger[u], today)
    ensures u !in Selection(ledger, today, daysLeft)
  {
    AddDaysNotBefore(today, daysLeft);
    BeforeIsStrictTotalOrder(ledger[u], today, AddDays(today, daysLeft));
  }

  /**
   * A concrete missed day: a subscription ending on 1 March 2024, with the
   * job next running on 2 March 2024, is selected by no offset of the older
   * job and by offset 0 of the current one.
   */
  lemma MissedExpirySample(u: UserId)
    ensures var ledger, today := map[u := Civil(2024, 3, 1)], Civil(2024, 3, 2);
      (forall d: nat :: u !in Selection(ledger, today, d))
      && u in Reconciliation.Selection(ledger, today, 0)
  {
    var ledger, today := map[u := Civil(2024, 3, 1)], Civil(2024, 3, 2);
    forall d: nat
      ensures u !in Selection(ledger, today, d)
    {
      MissedExpiryNeverSelected(ledger, today, u, d);
    }
  }

  lemma PassStep(rows: seq<UserId>, i: nat, daysLeft: nat, failing: set<Action>)
    requires i < |rows|
    ensures PassLog(rows[..i + 1], daysLeft, failing)
      == PassLog(rows[..i], daysLeft, failing) + UserCalls(rows[i], daysLeft, failing)
  {
    PassAppend(rows, i, Blocks(daysLeft, failing));
  }

  /** The body of the loop over the rows: the `try` block of one selected user. */
  method HandleRow(bot: LegacyBot.Bot, u: UserId, daysLeft: nat, failing: set<Action>)
    requires bot.Valid()
    modifies bot
    ensures bot.Valid()
    ensures bot.sessions == old(bot.sessions) && bot.ledger == old(bot.ledger)
    ensures bot.log == old(bot.log) + UserCalls(u, daysLeft, failing)
  {
    if daysLeft >= 1 {
      bot.log := bot.log + [Reply(u, Reminder(daysLeft, Reconciliation.DayWord(daysLeft)))];
    } else {
      bot.log := bot.log + [Reply(u, ExpiryNotice)];
      if Reply(u, ExpiryNotice) in failing {
        return;
      }
      bot.log := bot.log + [BanFromChannel(u)];
    }
  }

  /** The loop over the query's rows, each row in its own `try` block. */
  method HandleRows(bot: LegacyBot.Bot, rows: seq<UserId>, daysLeft: nat, failing: set<Action>)
    requires bot.Valid()
    modifies bot
    ensures bot.Valid()
    ensures bot.sessions == old(bot.sessions) && bot.ledger == old(bot.ledger)
    ensures bot.log == old(bot.log) + PassLog(rows, daysLeft, failing)
  {
    var i := 0;
    while i < |rows|
      invariant 0 <= i <= |rows|
      invariant bot.Valid() && bot.sessions == old(bot.sessions) && bot.ledger == old(bot.ledger)
      invariant bot.log == old(bot.log) + PassLog(rows[..i], daysLeft, failing)
    {
      HandleRow(bot, rows[i], daysLeft, failing);
      PassStep(rows, i, daysLeft, failing);
      i := i + 1;
    }
    assert rows[..|rows|] == rows;
  }

  /**
   * `notifyUsers(daysLeft)`: queries the rows ending exactly `daysLeft` days
   * from today and handles each in its own `try`. The ledger is left as it
   * was, so the same pass on the same day selects the same users again. The
   * query is outside any `try`: when it fails, the pass rejects before
   * handling any row.
   */
  method NotifyUsers(bot: LegacyBot.Bot, daysLeft: nat, today: Date, failing: set<Action>, queryFails: bool)
    returns (rows: seq<UserId>)
    requires bot.Valid()
    modifies bot
    ensures bot.Valid() && bot.sessions == old(bot.sessions) && bot.ledger == old(bot.ledger)
    ensures queryFails ==> rows == []
    ensures !queryFails ==> forall u :: u in rows <==> u in Selection(old(bot.ledger), today, daysLeft)
    ensures Distinct(rows)
    ensures bot.log == old(bot.log) + PassLog(rows, daysLeft, failing)
  {
    if queryFails {
      rows := [];
      return;
    }
    rows := ListRows(Selection(bot.ledger, today, daysLeft));
    HandleRows(bot, rows, daysLeft, failing);
  }

  /**
   * The daily job: offsets 3, 2, 1 and 0, in that order, each awaited before
   * the next, over an unchanging ledger. A pass whose query fails (its
   * offset is in `failingQueries`) rejects, and the job stops there: `ran`
   * passes ran in full, and the rows of every pass that did not run are empty.
   */
  method DailyRun(bot: LegacyBot.Bot, today: Date, failing: set<Action>, failingQueries: set<nat>)
    returns (ran: nat, rows3: seq<UserId>, rows2: seq<UserId>, rows1: seq<UserId>, rows0: seq<UserId>)
    requires bot.Valid()
    modifies bot
    ensures bot.Valid() && bot.sessions == old(bot.sessions) && bot.ledger == old(bot.ledger)
    ensures ran <= |DailyOffsets|
    ensures forall k :: 0 <= k < ran ==> DailyOffsets[k] !in failingQueries
    ensures ran < |DailyOffsets| ==> DailyOffsets[ran] in failingQueries
    ensures ran > 0 ==> forall u :: u in rows3 <==> u in Selection(old(bot.ledger), today, DailyOffsets[0])
    ensures ran > 1 ==> forall u :: u in rows2 <==> u in Selection(old(bot.ledger), today, DailyOffsets[1])
    ensures ran > 2 ==> forall u :: u in rows1 <==> u in Selection(old(bot.ledger), today, DailyOffsets[2])
    ensures ran > 3 ==> forall u :: u in rows0 <==> u in Selection(old(bot.ledger), today, DailyOffsets[3])
    ensures ran <= 0 ==> rows3 == []
    ensures ran <= 1 ==> rows2 == []
    ensures ran <= 2 ==> rows1 == []
    ensures ran <= 3 ==> rows0 == []
    ensures bot.log == old(bot.log) + PassLog(rows3, DailyOffsets[0], failing) + PassLog(rows2, DailyOffsets[1], failing)
                       + PassLog(rows1, DailyOffsets[2], failing) + PassLog(rows0, DailyOffsets[3], failing)
  {
    ran, rows3, rows2, rows1, rows0 := 0, [], [], [], [];
    rows3 := NotifyUsers(bot, DailyOffsets[0], today, failing, DailyOffsets[0] in failingQueries);
    if DailyOffsets[0] !in failingQueries {
      ran := 1;
      rows2 := NotifyUsers(bot, DailyOffsets[1], today, failing, DailyOffsets[1] in failingQueries);
      if DailyOffsets[1] !in failingQueries {
        ran := 2;
        rows1 := NotifyUsers(bot, DailyOffsets[2], today, failing, DailyOffsets[2] in failingQueries);
        if DailyOffsets[2] !in failingQueries {
          ran := 3;
          rows0 := NotifyUsers(bot, DailyOffsets[3], today, failing, DailyOffsets[3] in failingQueries);
          if DailyOffsets[3] !in failingQueries {
            ran := 4;
          }
        }
      }
    }
  }
}
