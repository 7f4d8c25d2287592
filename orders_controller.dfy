/**
 * The order endpoints of the orders service (OrdersController): placing an
 * order, which stores it together with its payment request in one save, and
 * the two read endpoints.
 */
module OrdersController {
  import opened Common
  import opened Messages
  import opened Seqs
  import opened OrdersDb

  /** The values Guid.NewGuid() supplies to CreateOrder. */
  datatype OrderIds = OrderIds(orderId: Guid, messageId: Guid, outboxId: Guid)

  /** The bodies of the Ok responses. */
  datatype OrderCreated = OrderCreated(orderId: Guid, status: string)
  datatype OrderSummary = OrderSummary(id: Guid, amount: Money, description: string, status: string, createdAt: Time)
  datatype OrderDetail = OrderDetail(
    id: Guid, amount: Money, description: string, status: string, createdAt: Time, updatedAt: Time)

  /** An endpoint's response together with the tables it leaves. */
  datatype Reply<T> = Reply(response: Response<T>, state: OrdersState)

  /** The order CreateOrder builds, in state NEW. */
  function NewOrder(userId: UserId, amount: Money, description: string, ids: OrderIds, now: Time): Order {
    Order(ids.orderId, userId, amount, description, NEW, now, now)
  }

  /** The unpublished outbox row holding the order's PaymentRequest. */
  function RequestRow(order: Order, ids: OrderIds, now: Time): OutboxMessage {
    OutboxMessage(
      ids.outboxId,
      PaymentRequestType,
      RequestPayload(PaymentRequest(ids.messageId, order.id, order.userId, order.amount, now)),
      false,
      now,
      None)
  }

  /** POST api/orders on the tables: the order and its request row in one save. */
  function CreateOrderStep(s: OrdersState, userId: Option<string>, amount: Money, description: string, ids: OrderIds,
                           now: Time, storeFails: bool): (r: Reply<OrderCreated>)
    ensures !r.response.Ok? ==> r.state == s
    ensures r.response.Ok? ==> |r.state.orders| == |s.orders| + 1 && |r.state.outbox| == |s.outbox| + 1
  {
    if IsNullOrEmpty(userId) then Reply(BadRequest(UserIdRequired), s)
    else
      var order := NewOrder(userId.value, amount, description, ids, now);
      var row := RequestRow(order, ids, now);
      var saved := Commit(s, NoOrdersChanges.(orderAdded := Some(order), outboxAdded := Some(row)), storeFails);
      if saved.outcome.Threw? then Reply(Failed(saved.outcome.error), s)
      else Reply(Ok(OrderCreated(order.id, StatusName(order.status))), saved.state)
  }

  method CreateOrder(db: OrdersStore, userId: Option<string>, amount: Money, description: string, ids: OrderIds,
                     now: Time, storeFails: bool) returns (response: Response<OrderCreated>)
    requires db.Valid()
    modifies db
    ensures db.Valid()
    ensures Reply(response, db.State()) == CreateOrderStep(old(db.State()), userId, amount, description, ids, now, storeFails)
  {
    if IsNullOrEmpty(userId) {
      return BadRequest(UserIdRequired);
    }
    var order := NewOrder(userId.value, amount, description, ids, now);
    var paymentMessage := PaymentRequest(ids.messageId, order.id, userId.value, amount, now);
    var outboxMessage := OutboxMessage(ids.outboxId, PaymentRequestType, RequestPayload(paymentMessage), false, now, None);
    var changes := NoOrdersChanges.(orderAdded := Some(order));
    changes := changes.(outboxAdded := Some(outboxMessage));
    var outcome := db.SaveChanges(changes, storeFails);
    if outcome.Threw? {
      return Failed(outcome.error);
    }
    response := Ok(OrderCreated(order.id, StatusName(order.status)));
  }

  // ----- Queries -----

  /** Orders.Where(o => o.UserId == userId). */
  function OrdersOf(orders: seq<Order>, userId: UserId): (r: seq<Order>)
    ensures forall o :: o in r <==> o in orders && o.userId == userId
    ensures forall o :: multiset(r)[o] == if o.userId == userId then multiset(orders)[o] else 0
  {
    Filter(orders, (o: Order) => o.userId == userId)
  }

  /** OrderByDescending(o => o.CreatedAt): newest first, the same orders. */
  function NewestFirst(orders: seq<Order>): (r: seq<Order>)
    ensures forall i, j :: 0 <= i < j < |r| ==> r[i].createdAt >= r[j].createdAt
    ensures multiset(r) == multiset(orders)
  {
    var r := SortBy(orders, (o: Order) => -o.createdAt);
    assert forall i, j :: 0 <= i < j < |r| ==> -r[i].createdAt <= -r[j].createdAt;
    r
  }

  function Summary(o: Order): OrderSummary {
    OrderSummary(o.id, o.amount, o.description, StatusName(o.status), o.createdAt)
  }

  function Detail(o: Order): OrderDetail {
    OrderDetail(o.id, o.amount, o.description, StatusName(o.status), o.createdAt, o.updatedAt)
  }

  /** The projection Select applies to each order, in order. */
  function Summaries(orders: seq<Order>): (r: seq<OrderSummary>)
    ensures |r| == |orders| && forall i :: 0 <= i < |orders| ==> r[i] == Summary(orders[i])
  {
    seq(|orders|, i requires 0 <= i < |orders| => Summary(orders[i]))
  }

  /** GET api/orders: the caller's orders, newest first, as summaries. */
  function GetOrders(s: OrdersState, userId: Option<string>): (r: Response<seq<OrderSummary>>)
    ensures IsNullOrEmpty(userId) <==> r == BadRequest(UserIdRequired)
    ensures r.Ok? || r == BadRequest(UserIdRequired)
  {
    if IsNullOrEmpty(userId) then BadRequest(UserIdRequired)
    else
      Ok(Summaries(NewestFirst(OrdersOf(s.orders, userId.value))))
  }

  /** Orders.Where(o => o.Id == orderId && o.UserId == userId).FirstOrDefault(), as a position. */
  function OrderOfUser(orders: seq<Order>, orderId: Guid, userId: UserId): (r: Option<nat>)
    ensures r.Some? ==> r.value < |orders| && orders[r.value].id == orderId && orders[r.value].userId == userId
    ensures r.None? <==> forall j :: 0 <= j < |orders| ==> !(orders[j].id == orderId && orders[j].userId == userId)
  {
    FirstIndex(orders, (o: Order) => o.id == orderId && o.userId == userId)
  }

  /** GET api/orders/{orderId}; NotFound() carries no message. */
  function GetOrderStatus(s: OrdersState, userId: Option<string>, orderId: Guid): (r: Response<OrderDetail>)
    ensures IsNullOrEmpty(userId) ==> r == BadRequest(UserIdRequired)
    ensures r.Ok? ==> exists k :: 0 <= k < |s.orders| && s.orders[k].id == orderId && s.orders[k].userId == userId.value
                                  && r.value == Detail(s.orders[k])
    ensures r == NotFound("")
            <==> !IsNullOrEmpty(userId)
                 && forall k :: 0 <= k < |s.orders| ==> !(s.orders[k].id == orderId && s.orders[k].userId == userId.value)
    ensures r.Ok? || r == NotFound("") || r == BadRequest(UserIdRequired)
  {
    if IsNullOrEmpty(userId) then BadRequest(UserIdRequired)
    else
      var k := OrderOfUser(s.orders, orderId, userId.value);
      if k.None? then NotFound("")
      else Ok(Detail(s.orders[k.value]))
  }

  // ----- Properties -----

  /** Without a caller id every endpoint answers BadRequest and writes nothing. */
  lemma MissingUserIsBadRequest(s: OrdersState, userId: Option<string>, amount: Money, description: string,
                                ids: OrderIds, now: Time, storeFails: bool, orderId: Guid)
    requires IsNullOrEmpty(userId)
    ensures CreateOrderStep(s, userId, amount, description, ids, now, storeFails) == Reply(BadRequest(UserIdRequired), s)
    ensures GetOrders(s, userId) == BadRequest(UserIdRequired)
    ensures GetOrderStatus(s, userId, orderId) == BadRequest(UserIdRequired)
  {
  }

  /**
   * A placed order is stored once, in state NEW, with the caller's user and
   * the requested amount and description; its PaymentRequest row is stored
   * unpublished beside it; the response names the order and "NEW".
   */
  lemma CreateOrderStoresOrderAndRequest(s: OrdersState, u: UserId, amount: Money, description: string, ids: OrderIds,
                                         now: Time)
    requires u != ""
    requires OrderWithId(s.orders, ids.orderId).None? && OutboxIdFree(s.outbox, ids.outboxId)
    ensures var r := CreateOrderStep(s, Some(u), amount, description, ids, now, false);
      && r.response == Ok(OrderCreated(ids.orderId, "NEW"))
      && r.state.orders == s.orders + [Order(ids.orderId, u, amount, description, NEW, now, now)]
      && r.state.outbox == s.outbox + [OutboxMessage(ids.outboxId, PaymentRequestType,
           RequestPayload(PaymentRequest(ids.messageId, ids.orderId, u, amount, now)), false, now, None)]
      && RequestFor(r.state.outbox[|s.outbox|], r.state.orders[|s.orders|])
  {
    var r := CreateOrderStep(s, Some(u), amount, description, ids, now, false);
    assert r.state.outbox == WriteBack(s.outbox, map[]) + [RequestRow(NewOrder(u, amount, description, ids, now), ids, now)];
  }

  /** The order and its request are saved together: after any call both are stored or neither is. */
  lemma OrderAndRequestCommitTogether(s: OrdersState, userId: Option<string>, amount: Money, description: string,
                                      ids: OrderIds, now: Time, storeFails: bool)
    ensures var r := CreateOrderStep(s, userId, amount, description, ids, now, storeFails);
      (exists i :: 0 <= i < |r.state.orders| && r.state.orders[i].id == ids.orderId && i >= |s.orders|)
      <==> (exists j :: 0 <= j < |r.state.outbox| && r.state.outbox[j].id == ids.outboxId && j >= |s.outbox|)
  {
    var r := CreateOrderStep(s, userId, amount, description, ids, now, storeFails);
    if r.response.Ok? {
      var order := NewOrder(userId.value, amount, description, ids, now);
      assert r.state.orders[|s.orders|] == order;
      assert WriteBack(s.outbox, map[]) == s.outbox;
      assert r.state.outbox[|s.outbox|] == RequestRow(order, ids, now);
    }
  }

  /** A successful CreateOrder appends exactly the order and its request row. */
  lemma CreateOrderAppends(s: OrdersState, userId: Option<string>, amount: Money, description: string,
                           ids: OrderIds, now: Time, storeFails: bool)
    requires CreateOrderStep(s, userId, amount, description, ids, now, storeFails).response.Ok?
    ensures var order := NewOrder(userId.value, amount, description, ids, now);
      CreateOrderStep(s, userId, amount, description, ids, now, storeFails).state
        == OrdersState(s.orders + [order], s.outbox + [RequestRow(order, ids, now)])
  {
    assert WriteBack(s.outbox, map[]) == s.outbox;
  }

  /** Appending an order together with its own request row keeps orders and requests matched. */
  lemma MatchedPairKeepsRequestsMatched(s: OrdersState, order: Order, row: OutboxMessage)
    requires RequestsMatchOrders(s) && RequestFor(row, order)
    ensures RequestsMatchOrders(OrdersState(s.orders + [order], s.outbox + [row]))
  {
    var s' := OrdersState(s.orders + [order], s.outbox + [row]);
    forall i | 0 <= i < |s'.orders|
      ensures HasRequest(s'.outbox, s'.orders[i])
    {
      if i < |s.orders| {
        assert HasRequest(s.outbox, s.orders[i]);
        var j :| 0 <= j < |s.outbox| && RequestFor(s.outbox[j], s.orders[i]);
        assert s'.outbox[j] == s.outbox[j];
      } else {
        assert s'.outbox[|s.outbox|] == row;
      }
    }
    forall j | 0 <= j < |s'.outbox|
      ensures HasOrder(s'.orders, s'.outbox[j])
    {
      if j < |s.outbox| {
        assert HasOrder(s.orders, s.outbox[j]);
        var i :| 0 <= i < |s.orders| && RequestFor(s.outbox[j], s.orders[i]);
        assert s'.orders[i] == s.orders[i];
      } else {
        assert s'.orders[|s.orders|] == order;
      }
    }
  }

  /** Placing an order keeps every order matched with its request row. */
  lemma CreateOrderKeepsRequestsMatched(s: OrdersState, userId: Option<string>, amount: Money, description: string,
                                        ids: OrderIds, now: Time, storeFails: bool)
    requires RequestsMatchOrders(s)
    ensures RequestsMatchOrders(CreateOrderStep(s, userId, amount, description, ids, now, storeFails).state)
  {
    if CreateOrderStep(s, userId, amount, description, ids, now, storeFails).response.Ok? {
      var order := NewOrder(userId.value, amount, description, ids, now);
      CreateOrderAppends(s, userId, amount, description, ids, now, storeFails);
      MatchedPairKeepsRequestsMatched(s, order, RequestRow(order, ids, now));
    }
  }

  /** The orders GET api/orders lists, before projection: exactly the caller's, as many as the caller has. */
  lemma CallersOrdersNewestFirst(orders: seq<Order>, u: UserId)
    ensures var mine := NewestFirst(OrdersOf(orders, u));
      && (forall o :: o in mine <==> o in orders && o.userId == u)
      && |mine| == |OrdersOf(orders, u)|
  {
    var mine := NewestFirst(OrdersOf(orders, u));
    assert |multiset(mine)| == |multiset(OrdersOf(orders, u))|;
    forall o ensures o in mine <==> o in OrdersOf(orders, u) {
      assert o in mine <==> o in multiset(mine);
    }
  }

  /**
   * GET api/orders lists exactly the caller's orders, one summary per order,
   * newest first.
   */
  lemma GetOrdersListsCallersOrders(s: OrdersState, u: UserId)
    requires u != ""
    ensures var r := GetOrders(s, Some(u));
      && r.Ok?
      && (forall i, j :: 0 <= i < j < |r.value| ==> r.value[i].createdAt >= r.value[j].createdAt)
      && (forall i :: 0 <= i < |r.value| ==>
            exists k :: 0 <= k < |s.orders| && s.orders[k].userId == u && r.value[i] == Summary(s.orders[k]))
      && (forall k :: 0 <= k < |s.orders| && s.orders[k].userId == u ==> Summary(s.orders[k]) in r.value)
      && |r.value| == |OrdersOf(s.orders, u)|
  {
    var mine := NewestFirst(OrdersOf(s.orders, u));
    assert GetOrders(s, Some(u)) == Ok(Summaries(mine));
    SummariesKeepOrder(mine);
    ListedOrdersAreCallers(s.orders, u);
    CallersOrdersAreListed(s.orders, u);
  }

  lemma SummariesKeepOrder(mine: seq<Order>)
    requires forall i, j :: 0 <= i < j < |mine| ==> mine[i].createdAt >= mine[j].createdAt
    ensures var r := Summaries(mine); forall i, j :: 0 <= i < j < |r| ==> r[i].createdAt >= r[j].createdAt
  {
  }

  lemma ListedOrdersAreCallers(orders: seq<Order>, u: UserId)
    ensures var r := Summaries(NewestFirst(OrdersOf(orders, u)));
      && |r| == |OrdersOf(orders, u)|
      && forall i :: 0 <= i < |r| ==> exists k :: 0 <= k < |orders| && orders[k].userId == u && r[i] == Summary(orders[k])
  {
    var mine := NewestFirst(OrdersOf(orders, u));
    CallersOrdersNewestFirst(orders, u);
    var r := Summaries(mine);
    forall i | 0 <= i < |r|
      ensures exists k :: 0 <= k < |orders| && orders[k].userId == u && r[i] == Summary(orders[k])
    {
      assert mine[i] in mine;
      var k :| 0 <= k < |orders| && orders[k] == mine[i];
    }
  }

  lemma CallersOrdersAreListed(orders: seq<Order>, u: UserId)
    ensures var r := Summaries(NewestFirst(OrdersOf(orders, u)));
      forall k :: 0 <= k < |orders| && orders[k].userId == u ==> Summary(orders[k]) in r
  {
    var mine := NewestFirst(OrdersOf(orders, u));
    CallersOrdersNewestFirst(orders, u);
    var r := Summaries(mine);
    forall k | 0 <= k < |orders| && orders[k].userId == u
      ensures Summary(orders[k]) in r
    {
      assert orders[k] in mine;
      var i :| 0 <= i < |mine| && mine[i] == orders[k];
      assert r[i] == Summary(orders[k]);
    }
  }

  /** A user never sees another user's order: an order stored only under other users is NotFound. */
  lemma OtherUsersOrderIsNotFound(s: OrdersState, u: UserId, orderId: Guid)
    requires u != ""
    requires forall k :: 0 <= k < |s.orders| && s.orders[k].id == orderId ==> s.orders[k].userId != u
    ensures GetOrderStatus(s, Some(u), orderId) == NotFound("")
  {
  }

  /** Where keys are unique, the caller's own order is found and described as stored. */
  lemma OwnOrderIsFound(s: OrdersState, u: UserId, k: nat)
    requires Schema(s) && u != ""
    requires k < |s.orders| && s.orders[k].userId == u
    ensures GetOrderStatus(s, Some(u), s.orders[k].id) == Ok(Detail(s.orders[k]))
  {
    var j := OrderOfUser(s.orders, s.orders[k].id, u).value;
    assert j == k;
  }
}
