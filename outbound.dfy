/**
 * What both versions of the bot share: user identifiers, the subscription
 * ledger (the `users` table) and the outbound effects the bot produces,
 * recorded as entries of an action log.
 */
module Outbound {
  import opened Wrappers
  import opened Calendar

  /** A chat user id; the table column holds a bigint, so ids are unbounded here. */
  type UserId = int

  /**
   * The `users` table: `user_id` is unique, so there is at most one
   * `subscription_end` per user, and that column is never NULL.
   */
  type Ledger = map<UserId, Date>

  /** The receipt line sent to the payment provider with an invoice. */
  datatype Receipt = Receipt(quantity: int, unitValue: string)

  datatype Invoice = Invoice(chatId: UserId, payload: string, amount: int, receipt: Option<Receipt>)

  /** The messages the bot sends, without their wording. */
  datatype Message =
    | MainMenu                             // greeting with the purchase / status keyboard
    | PaymentMethods                       // choice of payment method
    | AskMonths                            // "enter a number of months from 1 to 12"
    | CancelNotice                         // "action cancelled, back to the main menu"
    | InvalidMonths                        // re-prompt after a rejected month count
    | MonthsChosen(months: int)            // offer to pay for the chosen months
    | InvoiceMessage(invoice: Invoice)
    | StatusInactive
    | StatusActiveUntil(end: Date)
    | InviteLink                           // the single-use channel invite link
    | Reminder(daysLeft: int, dayWord: string)
    | ExpiryNotice                         // "your subscription has ended"

  /** One outbound call: a chat message, an acknowledgement, a removal or a row deletion. */
  datatype Action =
    | Reply(user: UserId, message: Message)
    | EditMessage(user: UserId, message: Message)
    | AnswerCallback(user: UserId)
    | ApprovePreCheckout(user: UserId)
    | BanFromChannel(user: UserId)
    | BanFromChat(user: UserId)
    | DeleteRecord(user: UserId)
}
