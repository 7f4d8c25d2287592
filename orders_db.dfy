/**
 * The orders database (OrdersDbContext): the Orders table, the
 * OutboxMessages table of the orders service, their primary keys, and
 * SaveChanges as one atomic commit of a staged change set.
 */
module OrdersDb {
  import opened Common
  import opened Messages
  import opened Seqs

  datatype OrderStatus = NEW | FINISHED | CANCELLED

  /** OrderStatus.ToString(). */
  function StatusName(status: OrderStatus): string {
    match status
    case NEW => "NEW"
    case FINISHED => "FINISHED"
    case CANCELLED => "CANCELLED"
  }

  datatype Order = Order(
    id: Guid,
    userId: UserId,
    amount: Money,
    description: string,
    status: OrderStatus,
    createdAt: Time,
    updatedAt: Time)

  datatype OrdersState = OrdersState(orders: seq<Order>, outbox: seq<OutboxMessage>)

  /** Orders.FirstOrDefault(o => o.Id == id), as a position. */
  function OrderWithId(orders: seq<Order>, id: Guid): (r: Option<nat>)
    ensures r.Some? ==> r.value < |orders| && orders[r.value].id == id
    ensures r.None? <==> forall j :: 0 <= j < |orders| ==> orders[j].id != id
  {
    FirstIndex(orders, (o: Order) => o.id == id)
  }

  /** The stored outbox row with this primary key, as a position. */
  function OutboxWithId(outbox: seq<OutboxMessage>, id: Guid): (r: Option<nat>)
    ensures r.Some? ==> r.value < |outbox| && outbox[r.value].id == id
    ensures r.None? <==> forall j :: 0 <= j < |outbox| ==> outbox[j].id != id
  {
    FirstIndex(outbox, (m: OutboxMessage) => m.id == id)
  }

  predicate OrderKeysUnique(orders: seq<Order>) {
    forall i, j :: 0 <= i < j < |orders| ==> orders[i].id != orders[j].id
  }

  /** The primary keys OrdersDbContext declares, as a state invariant. */
  predicate Schema(s: OrdersState) {
    OrderKeysUnique(s.orders) && OutboxKeysUnique(s.outbox)
  }

  // ----- SaveChanges -----

  /**
   * The rows one SaveChanges writes: an added order, a modified tracked
   * order, an added outbox row, and modified tracked outbox rows keyed by id.
   */
  datatype OrdersChanges = OrdersChanges(
    orderAdded: Option<Order>,
    orderModified: Option<Order>,
    outboxAdded: Option<OutboxMessage>,
    outboxModified: map<Guid, OutboxMessage>)

  const NoOrdersChanges := OrdersChanges(None, None, None, map[])

  /** The exception SaveChanges throws for these changes, or None when it commits. */
  function Rejection(s: OrdersState, c: OrdersChanges): (r: Option<Error>)
    ensures r.None? ==> c.orderModified.Some? ==> OrderWithId(s.orders, c.orderModified.value.id).Some?
    ensures r.None? ==> forall id :: id in c.outboxModified ==> OutboxWithId(s.outbox, id).Some?
    ensures r.None? ==> forall id :: id in c.outboxModified ==> c.outboxModified[id].id == id
  {
    if c.orderModified.Some? && OrderWithId(s.orders, c.orderModified.value.id).None? then
      Some(ConcurrencyConflict)
    else if exists id :: id in c.outboxModified && OutboxWithId(s.outbox, id).None? then
      Some(ConcurrencyConflict)
    else if exists id :: id in c.outboxModified && c.outboxModified[id].id != id then
      Some(KeyViolation)
    else if c.orderAdded.Some? && OrderWithId(s.orders, c.orderAdded.value.id).Some? then
      Some(KeyViolation)
    else if c.outboxAdded.Some? && !OutboxIdFree(s.outbox, c.outboxAdded.value.id) then
      Some(KeyViolation)
    else
      None
  }

  /** Each stored outbox row whose key is tracked as modified is replaced by the tracked row. */
  function WriteBack(rows: seq<OutboxMessage>, modified: map<Guid, OutboxMessage>): seq<OutboxMessage> {
    seq(|rows|, i requires 0 <= i < |rows| => if rows[i].id in modified then modified[rows[i].id] else rows[i])
  }

  /** The tables after the staged rows are written. */
  function Apply(s: OrdersState, c: OrdersChanges): OrdersState
    requires Rejection(s, c).None?
  {
    var orders :=
      if c.orderModified.Some?
      then s.orders[OrderWithId(s.orders, c.orderModified.value.id).value := c.orderModified.value]
      else s.orders;
    OrdersState(orders + Optional(c.orderAdded), WriteBack(s.outbox, c.outboxModified) + Optional(c.outboxAdded))
  }

  /** The outcome of a call together with the tables it leaves. */
  datatype Step = Step(outcome: Outcome, state: OrdersState)

  /**
   * SaveChanges: either every staged row is written, or it throws and
   * nothing is. A committed save keeps the primary keys unique.
   */
  function Commit(s: OrdersState, c: OrdersChanges, storeFails: bool): (r: Step)
    ensures r.outcome.Threw? ==> r.state == s
    ensures r.outcome.Returned? <==> !storeFails && Rejection(s, c).None?
    ensures r.outcome.Returned? ==> r.state == Apply(s, c)
    ensures Schema(s) ==> Schema(r.state)
  {
    if storeFails then Step(Threw(StoreFailure), s)
    else match Rejection(s, c)
      case Some(e) => Step(Threw(e), s)
      case None =>
        ApplyKeepsSchema(s, c);
        Step(Returned, Apply(s, c))
  }

  lemma ApplyKeepsSchema(s: OrdersState, c: OrdersChanges)
    requires Rejection(s, c).None?
    ensures Schema(s) ==> Schema(Apply(s, c))
  {
    if Schema(s) {
      var orders :=
        if c.orderModified.Some?
        then s.orders[OrderWithId(s.orders, c.orderModified.value.id).value := c.orderModified.value]
        else s.orders;
      assert forall i :: 0 <= i < |orders| ==> orders[i].id == s.orders[i].id;
      AddedOrderKeepsKeys(orders, c.orderAdded);
      var outbox := WriteBack(s.outbox, c.outboxModified);
      WriteBackKeepsIds(s.outbox, c.outboxModified);
      AddedOutboxKeepsKeys(outbox, c.outboxAdded);
    }
  }

  lemma AddedOrderKeepsKeys(orders: seq<Order>, added: Option<Order>)
    requires OrderKeysUnique(orders)
    requires added.Some? ==> forall j :: 0 <= j < |orders| ==> orders[j].id != added.value.id
    ensures OrderKeysUnique(orders + Optional(added))
  {
  }

  lemma WriteBackKeepsIds(rows: seq<OutboxMessage>, modified: map<Guid, OutboxMessage>)
    requires forall id :: id in modified ==> modified[id].id == id
    ensures |WriteBack(rows, modified)| == |rows|
    ensures forall i :: 0 <= i < |rows| ==> WriteBack(rows, modified)[i].id == rows[i].id
  {
  }

  // ----- The transactional outbox -----

  /** The outbox row is the PaymentRequest of this order: same order id, user and amount. */
  predicate RequestFor(m: OutboxMessage, o: Order) {
    && m.kind == PaymentRequestType
    && m.payload.RequestPayload?
    && m.payload.request.orderId == o.id
    && m.payload.request.userId == o.userId
    && m.payload.request.amount == o.amount
  }

  /**
   * What committing an order together with its request buys: no order
   * lacks its request row, and no request row names an order that is not
   * stored.
   */
  ghost predicate RequestsMatchOrders(s: OrdersState) {
    && (forall i :: 0 <= i < |s.orders| ==> HasRequest(s.outbox, s.orders[i]))
    && (forall j :: 0 <= j < |s.outbox| ==> HasOrder(s.orders, s.outbox[j]))
  }

  ghost predicate HasRequest(outbox: seq<OutboxMessage>, o: Order) {
    exists j :: 0 <= j < |outbox| && RequestFor(outbox[j], o)
  }

  ghost predicate HasOrder(orders: seq<Order>, m: OutboxMessage) {
    exists i :: 0 <= i < |orders| && RequestFor(m, orders[i])
  }

  /** The tables of the orders database, updated in place by its callers. */
  class OrdersStore {
    var orders: seq<Order>
    var outbox: seq<OutboxMessage>

    function State(): OrdersState
      reads this
    {
      OrdersState(orders, outbox)
    }

    ghost predicate Valid()
      reads this
    {
      Schema(State())
    }

    constructor ()
      ensures Valid()
      ensures State() == OrdersState([], [])
    {
      orders, outbox := [], [];
    }

    /** SaveChangesAsync: writes every staged row, or throws and writes none. */
    method SaveChanges(c: OrdersChanges, storeFails: bool) returns (o: Outcome)
      requires Valid()
      modifies this
      ensures Valid()
      ensures Step(o, State()) == Commit(old(State()), c, storeFails)
    {
      if storeFails {
        return Threw(StoreFailure);
      }
      var rejection := Rejection(State(), c);
      if rejection.Some? {
        assert Commit(State(), c, storeFails) == Step(Threw(rejection.value), State());
        return Threw(rejection.value);
      }
      ghost var before := State();
      if c.orderModified.Some? {
        var k := OrderWithId(orders, c.orderModified.value.id).value;
        orders := orders[k := c.orderModified.value];
      }
      orders := orders + Optional(c.orderAdded);
      outbox := WriteBack(outbox, c.outboxModified) + Optional(c.outboxAdded);
      o := Returned;
      assert State() == Apply(before, c);
      assert Commit(before, c, storeFails) == Step(Returned, Apply(before, c));
    }
  }
}
