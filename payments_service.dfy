/**
 * The payments service as a whole (PaymentsService/Program.cs): the inbox
 * consumer runs as a hosted service beside the account endpoints, and both
 * write the same tables. A history is any interleaving of deliveries to the
 * consumer and calls to the two endpoints that write.
 */
module PaymentsService {
  import opened Common
  import opened PaymentsDb
  import opened InboxProcessor
  import opened AccountsController

  /** One thing that reaches the payments tables. */
  datatype Event =
    | Delivery(attempt: Attempt)
    | AccountOpened(userId: Option<string>, accountId: Guid, now: Time, storeFails: bool)
    | DepositMade(userId: Option<string>, amount: Money, transactionId: Guid, now: Time, storeFails: bool)

  /** The tables after one event. */
  function Handle(s: PaymentsState, e: Event): PaymentsState {
    match e
    case Delivery(a) => OnPaymentRequest(s, a.body, a.ids, a.now, a.storeFails).state
    case AccountOpened(u, id, now, fails) => CreateAccountStep(s, u, id, now, fails).state
    case DepositMade(u, amount, tid, now, fails) => DepositStep(s, u, amount, tid, now, fails).state
  }

  /** The tables after the events in turn. */
  function Serve(s: PaymentsState, events: seq<Event>): PaymentsState
    decreases |events|
  {
    if |events| == 0 then s else Serve(Handle(s, events[0]), events[1..])
  }

  /** One event, whatever its input and the store's faults, keeps the ledger settled. */
  lemma HandleKeepsSettled(s: PaymentsState, e: Event)
    requires Settled(s)
    ensures Settled(Handle(s, e))
  {
    match e
    case Delivery(a) =>
      if a.body.Decoded? {
        ProcessPaymentKeepsSettled(s, a.body.message, a.ids, a.now, a.storeFails);
      }
    case AccountOpened(u, id, now, fails) =>
      CreateAccountKeepsSettled(s, u, id, now, fails);
    case DepositMade(u, amount, tid, now, fails) =>
      DepositKeepsSettled(s, u, amount, tid, now, fails);
  }

  /**
   * Over any interleaving of deliveries, redeliveries, account openings and
   * deposits, with any faults, the keys stay unique, every balance equals its
   * ledger, and no order is debited twice.
   */
  lemma {:induction false} ServeKeepsSettled(s: PaymentsState, events: seq<Event>)
    requires Settled(s)
    ensures Settled(Serve(s, events))
    decreases |events|
  {
    if |events| > 0 {
      HandleKeepsSettled(s, events[0]);
      ServeKeepsSettled(Handle(s, events[0]), events[1..]);
    }
  }
}
