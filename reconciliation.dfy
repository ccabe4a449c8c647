/**
 * The current daily reconciliation job (src/notifyUsers.ts): for each
 * offset it selects users by their end date, reminds them before expiry,
 * and at offset 0 notifies, removes from the channel and the chat, and
 * deletes the ledger row. Every outbound call may fail: an action in
 * `failing` is issued and fails.
 */
module Reconciliation {
  import opened Calendar
  import opened Outbound
  import opened Dispatch
  import SubscriptionBot

  /** The offsets the daily job runs, in this order. */
  const DailyOffsets: seq<nat> := [3, 2, 1, 0]

  /**
   * The query's condition: at offset 0 every end date up to and including
   * today; at any other offset exactly `today + daysLeft days`.
   */
  predicate Selected(end: Date, today: Date, daysLeft: nat) {
    if daysLeft == 0 then NotAfter(end, today) else end == AddDays(today, daysLeft)
  }

  function Selection(ledger: Ledger, today: Date, daysLeft: nat): set<UserId> {
    set u | u in ledger && Selected(ledger[u], today, daysLeft)
  }

  /** The reminder's word for "days": singular after 1, the plural form for 2 to 4. */
  function DayWord(daysLeft: int): string {
    if daysLeft == 1 then "день" else "дня"
  }

  lemma DayWordChoice(daysLeft: int)
    ensures DayWord(daysLeft) == "день" <==> daysLeft == 1
    ensures DayWord(daysLeft) == "дня" <==> daysLeft != 1
  {
  }

  /** The calls of the offset-0 `try` block for one user, in order. */
  function RevocationCalls(u: UserId): seq<Action> {
    [Reply(u, ExpiryNotice), BanFromChannel(u), BanFromChat(u), DeleteRecord(u)]
  }

  /** The row of `u` is deleted: every call of its block went through. */
  predicate Revoked(u: UserId, failing: set<Action>) {
    Reply(u, ExpiryNotice) !in failing && BanFromChannel(u) !in failing
    && BanFromChat(u) !in failing && DeleteRecord(u) !in failing
  }

  /**
   * The calls issued for one selected user: a reminder, or the revocation
   * block up to and including its first failing call.
   */
  function UserCalls(u: UserId, daysLeft: nat, failing: set<Action>): seq<Action> {
    if daysLeft >= 1 then [Reply(u, Reminder(daysLeft, DayWord(daysLeft)))]
    else if Reply(u, ExpiryNotice) in failing then [Reply(u, ExpiryNotice)]
    else if BanFromChannel(u) in failing then [Reply(u, ExpiryNotice), BanFromChannel(u)]
    else if BanFromChat(u) in failing then [Reply(u, ExpiryNotice), BanFromChannel(u), BanFromChat(u)]
    else RevocationCalls(u)
  }

  /** The block of calls for each selected user. */
  function Blocks(daysLeft: nat, failing: set<Action>): UserId -> seq<Action> {
    v => UserCalls(v, daysLeft, failing)
  }

  /** The calls issued by one pass over `rows`, user after user. */
  function PassLog(rows: seq<UserId>, daysLeft: nat, failing: set<Action>): seq<Action> {
    Pass(rows, Blocks(daysLeft, failing))
  }

  /** The row one user's block deletes: their own, at offset 0, when every call went through. */
  function Gone(u: UserId, daysLeft: nat, failing: set<Action>): set<UserId> {
    if daysLeft == 0 && Revoked(u, failing) then {u} else {}
  }

  /** The rows one pass over `rows` deletes. */
  function Removed(rows: seq<UserId>, daysLeft: nat, failing: set<Action>): set<UserId>
    decreases |rows|
  {
    if rows == [] then {}
    else Removed(rows[..|rows| - 1], daysLeft, failing) + Gone(rows[|rows| - 1], daysLeft, failing)
  }

  /** A pass deletes exactly the selected rows whose whole block went through, and only at offset 0. */
  lemma {:induction false} RemovedExactlyRevoked(rows: seq<UserId>, daysLeft: nat, failing: set<Action>, u: UserId)
    ensures u in Removed(rows, daysLeft, failing) <==> daysLeft == 0 && u in rows && Revoked(u, failing)
    decreases |rows|
  {
    if rows != [] {
      var init := rows[..|rows| - 1];
      RemovedExactlyRevoked(init, daysLeft, failing, u);
      assert rows == init + [rows[|rows| - 1]];
    }
  }

  /** The revocation block follows the `try` rule: its calls are issued in order until one fails. */
  lemma RevocationSteps(u: UserId, failing: set<Action>)
    ensures UserCalls(u, 0, failing) == Attempted(RevocationCalls(u), failing)
  {
    var notice, channel, chat, delete := Reply(u, ExpiryNotice), BanFromChannel(u), BanFromChat(u), DeleteRecord(u);
    assert [delete][1..] == [];
    assert Attempted([delete], failing) == [delete];
    assert [chat, delete][1..] == [delete];
    assert Attempted([chat, delete], failing) == if chat in failing then [chat] else [chat, delete];
    assert [channel, chat, delete][1..] == [chat, delete];
    assert Attempted([channel, chat, delete], failing)
      == if channel in failing then [channel] else [channel] + Attempted([chat, delete], failing);
    assert RevocationCalls(u)[1..] == [channel, chat, delete];
  }

  /**
   * At offset 0 the calls for one user come in the order notice, channel
   * removal, chat removal, deletion, and stop at the first failure: the
   * deletion is attempted only when the three earlier calls succeeded, the
   * row is deleted only when all four succeed, and a user whose notice cannot
   * be delivered is not removed from anything.
   */
  lemma RevocationOrder(u: UserId, failing: set<Action>)
    ensures var issued := UserCalls(u, 0, failing);
      1 <= |issued| <= 4 && issued == RevocationCalls(u)[..|issued|]
      && (DeleteRecord(u) in issued <==>
          Reply(u, ExpiryNotice) !in failing && BanFromChannel(u) !in failing && BanFromChat(u) !in failing)
      && (Reply(u, ExpiryNotice) in failing ==> issued == [Reply(u, ExpiryNotice)])
    ensures u in Removed([u], 0, failing) <==> Revoked(u, failing)
  {
    RevocationSteps(u, failing);
    RemovedExactlyRevoked([u], 0, failing, u);
  }

  /** Every call issued for a user concerns that user. */
  lemma UserCallsConcernUser(v: UserId, daysLeft: nat, failing: set<Action>)
    ensures forall j :: 0 <= j < |UserCalls(v, daysLeft, failing)| ==> UserCalls(v, daysLeft, failing)[j].user == v
  {
    if daysLeft == 0 {
      RevocationSteps(v, failing);
    }
  }

  /** A reminder pass sends one reminder to each selected user, in row order, and nothing else. */
  lemma {:induction false} ReminderPassSendsOnePerUser(rows: seq<UserId>, daysLeft: nat, failing: set<Action>)
    requires daysLeft >= 1
    ensures |PassLog(rows, daysLeft, failing)| == |rows|
    ensures forall i :: 0 <= i < |rows| ==>
      PassLog(rows, daysLeft, failing)[i] == Reply(rows[i], Reminder(daysLeft, DayWord(daysLeft)))
    ensures Removed(rows, daysLeft, failing) == {}
    decreases |rows|
  {
    if rows != [] {
      ReminderPassSendsOnePerUser(rows[..|rows| - 1], daysLeft, failing);
    }
  }

  /**
   * Each selected user gets exactly the calls of their own block, whatever
   * happens to the other users of the pass: a failure for one user stops
   * only that user's block.
   */
  lemma PerUserIsolation(rows: seq<UserId>, daysLeft: nat, failing: set<Action>, u: UserId)
    requires Distinct(rows)
    ensures ActionsAbout(PassLog(rows, daysLeft, failing), u)
      == if u in rows then UserCalls(u, daysLeft, failing) else []
  {
    forall v {
      UserCallsConcernUser(v, daysLeft, failing);
    }
    PassIsolation(rows, Blocks(daysLeft, failing), u);
  }

  /**
   * When every call of the offset-0 pass succeeds, no row ends on or before
   * today afterwards, so running the pass again selects nobody.
   */
  lemma CleanRevocationClearsExpired(ledger: Ledger, today: Date, rows: seq<UserId>, failing: set<Action>)
    requires forall u :: u in rows <==> u in Selection(ledger, today, 0)
    requires forall u :: u in rows ==> Revoked(u, failing)
    ensures var after := ledger - Removed(rows, 0, failing);
      (forall u :: u in after ==> Before(today, after[u]))
      && Selection(after, today, 0) == {}
  {
    forall u
      ensures u in Removed(rows, 0, failing) <==> u in rows && Revoked(u, failing)
    {
      RemovedExactlyRevoked(rows, 0, failing, u);
    }
    var after := ledger - Removed(rows, 0, failing);
    forall u | u in after
      ensures Before(today, after[u]) && !NotAfter(after[u], today)
    {
      BeforeIsStrictTotalOrder(today, after[u], today);
    }
    forall u ensures u !in Selection(after, today, 0) {
    }
  }

  /** Different offsets select different users, so nobody gets two messages from one run. */
  lemma SelectionsDisjoint(ledger: Ledger, today: Date, d1: nat, d2: nat)
    requires d1 < d2
    ensures Selection(ledger, today, d1) !! Selection(ledger, today, d2)
  {
    forall u | u in Selection(ledger, today, d1) && u in Selection(ledger, today, d2)
      ensures false
    {
      var end := ledger[u];
      AddDaysIncreasing(today, d1, d2);
      if d1 == 0 {
        AddDaysIncreasing(today, 0, d2);
        BeforeIsStrictTotalOrder(end, today, AddDays(today, d2));
      } else {
        BeforeIsStrictTotalOrder(end, end, end);
      }
    }
  }

  /** A subscription ending more than three days from today is left alone by the whole run. */
  lemma DistantEndNotSelected(ledger: Ledger, today: Date, u: UserId, d: nat)
    requires u in ledger && Before(AddDays(today, 3), ledger[u]) && d <= 3
    ensures u !in Selection(ledger, today, d)
  {
    var end := ledger[u];
    AddDaysNotBefore(today, 3);
    if d < 3 {
      AddDaysIncreasing(today, d, 3);
    }
    BeforeIsStrictTotalOrder(AddDays(today, d), AddDays(today, 3), end);
    BeforeIsStrictTotalOrder(today, AddDays(today, 3), end);
    BeforeIsStrictTotalOrder(end, today, AddDays(today, 3));
  }

  lemma RemoveInTwoSteps(m: Ledger, a: set<UserId>, b: set<UserId>)
    ensures m - (a + b) == (m - a) - b
  {
  }

  /** Handling one more row extends the pass's calls and deletions by that row's own. */
  lemma PassStep(rows: seq<UserId>, i: nat, daysLeft: nat, failing: set<Action>)
    requires i < |rows|
    ensures PassLog(rows[..i + 1], daysLeft, failing)
      == PassLog(rows[..i], daysLeft, failing) + UserCalls(rows[i], daysLeft, failing)
    ensures Removed(rows[..i + 1], daysLeft, failing)
      == Removed(rows[..i], daysLeft, failing) + Gone(rows[i], daysLeft, failing)
  {
    PassAppend(rows, i, Blocks(daysLeft, failing));
    assert rows[..i + 1][..i] == rows[..i];
    assert rows[..i + 1] == rows[..i] + [rows[i]];
  }

  /**
   * The offset-0 `try` block for one user: notice, channel removal, chat
   * removal, row deletion, stopping at the first call that fails.
   */
  method Revoke(bot: SubscriptionBot.Bot, u: UserId, failing: set<Action>)
    requires bot.Valid()
    modifies bot
    ensures bot.Valid()
    ensures bot.sessions == old(bot.sessions)
    ensures bot.log == old(bot.log) + UserCalls(u, 0, failing)
    ensures bot.ledger == if Revoked(u, failing) then old(bot.ledger) - {u} else old(bot.ledger)
  {
    RevocationSteps(u, failing);
    bot.log := bot.log + [Reply(u, ExpiryNotice)];
    if Reply(u, ExpiryNotice) in failing {
      return;
    }
    bot.log := bot.log + [BanFromChannel(u)];
    if BanFromChannel(u) in failing {
      return;
    }
    bot.log := bot.log + [BanFromChat(u)];
    if BanFromChat(u) in failing {
      return;
    }
    bot.log := bot.log + [DeleteRecord(u)];
    if DeleteRecord(u) in failing {
      return;
    }
    bot.ledger := bot.ledger - {u};
  }

  /** The body of the loop over the rows: the `try` block of one selected user. */
  method HandleRow(bot: SubscriptionBot.Bot, u: UserId, daysLeft: nat, failing: set<Action>)
    requires bot.Valid()
    modifies bot
    ensures bot.Valid()
    ensures bot.sessions == old(bot.sessions)
    ensures bot.log == old(bot.log) + UserCalls(u, daysLeft, failing)
    ensures bot.ledger == old(bot.ledger) - Gone(u, daysLeft, failing)
  {
    if daysLeft >= 1 {
      // a failed send is caught and logged; nothing else follows for this user
      bot.log := bot.log + [Reply(u, Reminder(daysLeft, DayWord(daysLeft)))];
    } else {
      Revoke(bot, u, failing);
    }
  }

  /** The loop over the query's rows, each row in its own `try` block. */
  method HandleRows(bot: SubscriptionBot.Bot, rows: seq<UserId>, daysLeft: nat, failing: set<Action>)
    requires bot.Valid()
    modifies bot
    ensures bot.Valid()
    ensures bot.sessions == old(bot.sessions)
    ensures bot.log == old(bot.log) + PassLog(rows, daysLeft, failing)
    ensures bot.ledger == old(bot.ledger) - Removed(rows, daysLeft, failing)
  {
    var i := 0;
    while i < |rows|
      invariant 0 <= i <= |rows|
      invariant bot.Valid() && bot.sessions == old(bot.sessions)
      invariant bot.log == old(bot.log) + PassLog(rows[..i], daysLeft, failing)
      invariant bot.ledger == old(bot.ledger) - Removed(rows[..i], daysLeft, failing)
    {
      HandleRow(bot, rows[i], daysLeft, failing);
      PassStep(rows, i, daysLeft, failing);
      RemoveInTwoSteps(old(bot.ledger), Removed(rows[..i], daysLeft, failing), Gone(rows[i], daysLeft, failing));
      i := i + 1;
    }
    assert rows[..|rows|] == rows;
  }

  /**
   * `notifyUsers(daysLeft)`: queries the selected rows and handles each in
   * its own `try`: a reminder for a positive offset, the revocation block at
   * offset 0. Sessions are never touched; only offset 0 deletes rows. The
   * query itself is outside any `try`: when it fails, the pass rejects
   * before handling any row.
   */
  method NotifyUsers(bot: SubscriptionBot.Bot, daysLeft: nat, today: Date, failing: set<Action>, queryFails: bool)
    returns (rows: seq<UserId>)
    requires bot.Valid()
    modifies bot
    ensures bot.Valid() && bot.sessions == old(bot.sessions)
    ensures queryFails ==> rows == []
    ensures !queryFails ==> forall u :: u in rows <==> u in Selection(old(bot.ledger), today, daysLeft)
    ensures Distinct(rows)
    ensures bot.log == old(bot.log) + PassLog(rows, daysLeft, failing)
    ensures bot.ledger == old(bot.ledger) - Removed(rows, daysLeft, failing)
    ensures daysLeft >= 1 || queryFails ==> bot.ledger == old(bot.ledger)
  {
    if queryFails {
      rows := [];
      return;
    }
    rows := ListRows(Selection(bot.ledger, today, daysLeft));
    HandleRows(bot, rows, daysLeft, failing);
    if daysLeft >= 1 {
      ReminderPassSendsOnePerUser(rows, daysLeft, failing);
    }
  }

  /**
   * The daily job: offsets 3, 2, 1 and 0, in that order, each awaited before
   * the next. The reminder passes leave the ledger alone, so every pass
   * selects from the ledger as it was when the job started; only the last
   * pass deletes rows. A pass whose query fails (its offset is in
   * `failingQueries`) rejects, and the job stops there: `ran` passes ran in
   * full, and the rows of every pass that did not run are empty.
   */
  method DailyRun(bot: SubscriptionBot.Bot, today: Date, failing: set<Action>, failingQueries: set<nat>)
    returns (ran: nat, rows3: seq<UserId>, rows2: seq<UserId>, rows1: seq<UserId>, rows0: seq<UserId>)
    requires bot.Valid()
    modifies bot
    ensures bot.Valid() && bot.sessions == old(bot.sessions)
    ensures ran <= |DailyOffsets|
    ensures forall k :: 0 <= k < ran ==> DailyOffsets[k] !in failingQueries
    ensures ran < |DailyOffsets| ==> DailyOffsets[ran] in failingQueries
    ensures ran > 0 ==> forall u :: u in rows3 <==> u in Selection(old(bot.ledger), today, DailyOffsets[0])
    ensures ran > 1 ==> forall u :: u in rows2 <==> u in Selection(old(bot.ledger), today, DailyOffsets[1])
    ensures ran > 2 ==> forall u :: u in rows1 <==> u in Selection(old(bot.ledger), today, DailyOffsets[2])
    ensures ran > 3 ==> forall u :: u in rows0 <==> u in Selection(old(bot.ledger), today, DailyOffsets[3])
    ensures ran <= 0 ==> rows3 == []
    ensures ran <= 1 ==> rows2 == []
    ensures ran <= 2 ==> rows1 == []
    ensures ran <= 3 ==> rows0 == []
    ensures bot.log == old(bot.log) + PassLog(rows3, DailyOffsets[0], failing) + PassLog(rows2, DailyOffsets[1], failing)
                       + PassLog(rows1, DailyOffsets[2], failing) + PassLog(rows0, DailyOffsets[3], failing)
    ensures ran == |DailyOffsets| ==> bot.ledger == old(bot.ledger) - Removed(rows0, DailyOffsets[3], failing)
    ensures ran < |DailyOffsets| ==> bot.ledger == old(bot.ledger)
  {
    ran, rows3, rows2, rows1, rows0 := 0, [], [], [], [];
    rows3 := NotifyUsers(bot, DailyOffsets[0], today, failing, DailyOffsets[0] in failingQueries);
    if DailyOffsets[0] !in failingQueries {
      ran := 1;
      rows2 := NotifyUsers(bot, DailyOffsets[1], today, failing, DailyOffsets[1] in failingQueries);
      if DailyOffsets[1] !in failingQueries {
        ran := 2;
        rows1 := NotifyUsers(bot, DailyOffsets[2], today, failing, DailyOffsets[2] in failingQueries);
        if DailyOffsets[2] !in failingQueries {
          ran := 3;
          rows0 := NotifyUsers(bot, DailyOffsets[3], today, failing, DailyOffsets[3] in failingQueries);
          if DailyOffsets[3] !in failingQueries {
            ran := 4;
          }
        }
      }
    }
  }
}
