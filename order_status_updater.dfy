/**
 * The consumer of the payment_results queue (OrderStatusUpdater): each
 * PaymentResult settles the order it names, FINISHED on success and
 * CANCELLED otherwise, and the delivery is acked or nacked with requeue.
 */
module OrderStatusUpdater {
  import opened Common
  import opened Messages
  import opened Broker
  import opened OrdersDb

  /** The status a result puts its order in; the prior status plays no part. */
  function StatusFor(success: bool): OrderStatus {
    if success then FINISHED else CANCELLED
  }

  /** The tracked order after the two in-place assignments. */
  function Resolved(o: Order, success: bool, now: Time): Order {
    o.(status := StatusFor(success), updatedAt := now)
  }

  /**
   * UpdateOrderStatus: an unknown order id is logged and the call returns
   * with nothing saved; otherwise the resolved order is saved.
   */
  function UpdateStatus(s: OrdersState, result: PaymentResult, now: Time, storeFails: bool): Step {
    match OrderWithId(s.orders, result.orderId)
    case None => Step(Returned, s)
    case Some(k) =>
      Commit(s, NoOrdersChanges.(orderModified := Some(Resolved(s.orders[k], result.success, now))), storeFails)
  }

  method UpdateOrderStatus(db: OrdersStore, result: PaymentResult, now: Time, storeFails: bool)
    returns (o: Outcome)
    requires db.Valid()
    modifies db
    ensures db.Valid()
    ensures Step(o, db.State()) == UpdateStatus(old(db.State()), result, now, storeFails)
  {
    var k := OrderWithId(db.orders, result.orderId);
    if k.None? {
      return Returned;
    }
    var order := db.orders[k.value];
    order := order.(status := if result.success then FINISHED else CANCELLED);
    order := order.(updatedAt := now);
    o := db.SaveChanges(NoOrdersChanges.(orderModified := Some(order)), storeFails);
  }

  /** A delivery's acknowledgement together with the tables it leaves. */
  datatype Handled = Handled(delivery: Delivery, state: OrdersState)

  /** The Received callback on the payment_results queue. */
  function OnPaymentResult(s: OrdersState, body: Body<PaymentResult>, now: Time, storeFails: bool): Handled {
    match body
    case Decoded(result) =>
      var r := UpdateStatus(s, result, now, storeFails);
      Handled(Decide(body, r.outcome), r.state)
    case _ => Handled(Decide(body, Returned), s)
  }

  method Received(db: OrdersStore, body: Body<PaymentResult>, now: Time, storeFails: bool)
    returns (d: Delivery)
    requires db.Valid()
    modifies db
    ensures db.Valid()
    ensures Handled(d, db.State()) == OnPaymentResult(old(db.State()), body, now, storeFails)
  {
    var handled := Returned;
    if body.Decoded? {
      handled := UpdateOrderStatus(db, body.message, now, storeFails);
    }
    d := Decide(body, handled);
  }

  // ----- What one result does -----

  /** A result for an order that is not stored changes nothing and is acked. */
  lemma UnknownOrderIsAcked(s: OrdersState, result: PaymentResult, now: Time, storeFails: bool)
    requires forall i :: 0 <= i < |s.orders| ==> s.orders[i].id != result.orderId
    ensures UpdateStatus(s, result, now, storeFails) == Step(Returned, s)
    ensures OnPaymentResult(s, Decoded(result), now, storeFails) == Handled(Ack, s)
  {
  }

  /**
   * The only way a result is applied: the order with its id takes the
   * status Success selects and the time of the call; its other columns,
   * every other order and the outbox are untouched.
   */
  ghost predicate StatusApplied(s: OrdersState, s': OrdersState, result: PaymentResult, now: Time) {
    && |s'.orders| == |s.orders|
    && s'.outbox == s.outbox
    && (forall i :: 0 <= i < |s.orders| && s.orders[i].id != result.orderId ==> s'.orders[i] == s.orders[i])
    && (forall i :: 0 <= i < |s.orders| && s.orders[i].id == result.orderId ==>
          s'.orders[i] == Resolved(s.orders[i], result.success, now))
  }

  /**
   * A stored order is settled by its result: FINISHED when Success is set,
   * CANCELLED when it is not, whatever its status was, unless the save
   * fails, in which case nothing is written.
   */
  lemma StatusFollowsResult(s: OrdersState, result: PaymentResult, now: Time, storeFails: bool, k: nat)
    requires Schema(s)
    requires k < |s.orders| && s.orders[k].id == result.orderId
    ensures var r := UpdateStatus(s, result, now, storeFails);
      && (r.outcome.Returned? <==> !storeFails)
      && (r.outcome.Threw? ==> r.state == s)
      && (r.outcome.Returned? ==> StatusApplied(s, r.state, result, now))
      && (r.outcome.Returned? && result.success ==> r.state.orders[k].status == FINISHED)
      && (r.outcome.Returned? && !result.success ==> r.state.orders[k].status == CANCELLED)
  {
    var i := OrderWithId(s.orders, result.orderId).value;
    assert i == k;
    var c := NoOrdersChanges.(orderModified := Some(Resolved(s.orders[k], result.success, now)));
    assert Rejection(s, c).None?;
    if !storeFails {
      var s' := Apply(s, c);
      assert s'.orders == s.orders[k := Resolved(s.orders[k], result.success, now)] + [];
      assert WriteBack(s.outbox, map[]) == s.outbox;
    }
  }

  /** A terminal order is not protected: a later result with the other verdict flips it. */
  lemma TerminalOrderCanFlip(s: OrdersState, result: PaymentResult, now: Time, k: nat)
    requires Schema(s)
    requires k < |s.orders| && s.orders[k].id == result.orderId
    requires s.orders[k].status == (if result.success then CANCELLED else FINISHED)
    ensures var r := UpdateStatus(s, result, now, false);
      && r.outcome.Returned?
      && r.state.orders[k].status != s.orders[k].status
  {
    StatusFollowsResult(s, result, now, false, k);
  }

  /** A redelivered result leaves the order as one delivery at the later time would. */
  lemma SameResultTwiceIsOnce(s: OrdersState, result: PaymentResult, now1: Time, now2: Time)
    requires Schema(s)
    ensures var once := UpdateStatus(s, result, now1, false).state;
      UpdateStatus(once, result, now2, false) == UpdateStatus(s, result, now2, false)
  {
    match OrderWithId(s.orders, result.orderId)
    case None =>
    case Some(k) =>
      StatusFollowsResult(s, result, now1, false, k);
      StatusFollowsResult(s, result, now2, false, k);
      var once := UpdateStatus(s, result, now1, false).state;
      assert Schema(once);
      assert once.orders[k].id == result.orderId;
      StatusFollowsResult(once, result, now2, false, k);
      var twice := UpdateStatus(once, result, now2, false).state;
      var direct := UpdateStatus(s, result, now2, false).state;
      assert twice.orders == direct.orders by {
        assert |twice.orders| == |direct.orders|;
        forall i | 0 <= i < |direct.orders|
          ensures twice.orders[i] == direct.orders[i]
        {
          if s.orders[i].id == result.orderId {
            assert i == k;
          }
        }
      }
  }

  /** Settling an order keeps its id, user and amount, so every request row still matches. */
  lemma UpdateKeepsRequestsMatched(s: OrdersState, result: PaymentResult, now: Time, storeFails: bool)
    requires Schema(s) && RequestsMatchOrders(s)
    ensures RequestsMatchOrders(UpdateStatus(s, result, now, storeFails).state)
  {
    match OrderWithId(s.orders, result.orderId)
    case None =>
    case Some(k) =>
      StatusFollowsResult(s, result, now, storeFails, k);
      var r := UpdateStatus(s, result, now, storeFails);
      if r.outcome.Returned? {
        SettledOrdersKeepRequestsMatched(s, r.state);
      }
  }

  /** Orders that keep their id, user and amount, beside the same outbox, stay matched with their requests. */
  lemma SettledOrdersKeepRequestsMatched(s: OrdersState, s': OrdersState)
    requires RequestsMatchOrders(s)
    requires s'.outbox == s.outbox && |s'.orders| == |s.orders|
    requires forall i :: 0 <= i < |s.orders| ==>
      s'.orders[i].id == s.orders[i].id && s'.orders[i].userId == s.orders[i].userId
      && s'.orders[i].amount == s.orders[i].amount
    ensures RequestsMatchOrders(s')
  {
    forall i | 0 <= i < |s'.orders|
      ensures HasRequest(s'.outbox, s'.orders[i])
    {
      assert HasRequest(s.outbox, s.orders[i]);
      var j :| 0 <= j < |s.outbox| && RequestFor(s.outbox[j], s.orders[i]);
      assert RequestFor(s'.outbox[j], s'.orders[i]);
    }
    forall j | 0 <= j < |s'.outbox|
      ensures HasOrder(s'.orders, s'.outbox[j])
    {
      assert HasOrder(s.orders, s.outbox[j]);
      var i :| 0 <= i < |s.orders| && RequestFor(s.outbox[j], s.orders[i]);
      assert RequestFor(s'.outbox[j], s'.orders[i]);
    }
  }

  // ----- Acknowledgement -----

  /** A nacked delivery leaves the tables as they were, so its redelivery starts afresh. */
  lemma NackedDeliveryChangesNothing(s: OrdersState, body: Body<PaymentResult>, now: Time, storeFails: bool)
    requires Schema(s)
    ensures var h := OnPaymentResult(s, body, now, storeFails);
      h.delivery == NackRequeue ==> h.state == s
  {
  }

  /**
   * An acked delivery was either the body "null" or a result the handler
   * finished: the status of its order, when stored, is written.
   */
  lemma AckedDeliveryIsApplied(s: OrdersState, body: Body<PaymentResult>, now: Time, storeFails: bool)
    requires Schema(s)
    ensures var h := OnPaymentResult(s, body, now, storeFails);
      h.delivery == Ack ==>
        || (body.JsonNull? && h.state == s)
        || (body.Decoded? && StatusApplied(s, h.state, body.message, now))
  {
    if body.Decoded? {
      var result := body.message;
      match OrderWithId(s.orders, result.orderId)
      case None =>
        assert forall i :: 0 <= i < |s.orders| ==> s.orders[i].id != result.orderId;
      case Some(k) =>
        StatusFollowsResult(s, result, now, storeFails, k);
    }
  }
}
