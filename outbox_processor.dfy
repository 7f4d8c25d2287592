/**
 * The outbox publisher of the orders service (OutboxProcessor): each cycle
 * selects the ten oldest unpublished outbox rows, publishes their payloads
 * in order to the payment_requests queue, marks them processed, and saves
 * the marks once at the end. The polling loop keeps cycling whatever a
 * cycle throws.
 */
module OutboxProcessor {
  import opened Common
  import opened Messages
  import opened Seqs
  import opened Broker
  import opened OrdersDb

  const BatchSize: nat := 10

  // ----- Selecting the batch -----

  /** OutboxMessages.Where(m => !m.Processed). */
  function Unprocessed(outbox: seq<OutboxMessage>): (r: seq<OutboxMessage>)
    ensures forall m :: m in r <==> m in outbox && !m.processed
    ensures forall m :: multiset(r)[m] == if m.processed then 0 else multiset(outbox)[m]
    ensures |r| <= |outbox|
  {
    Filter(outbox, (m: OutboxMessage) => !m.processed)
  }

  /** Each row was created no later than every row after it. */
  ghost predicate InCreationOrder(rows: seq<OutboxMessage>) {
    forall i, j :: 0 <= i < j < |rows| ==> rows[i].createdAt <= rows[j].createdAt
  }

  /** OrderBy(m => m.CreatedAt): oldest first, the same rows. */
  function OldestFirst(rows: seq<OutboxMessage>): (r: seq<OutboxMessage>)
    ensures InCreationOrder(r)
    ensures multiset(r) == multiset(rows) && |r| == |rows|
    ensures forall m :: m in r <==> m in rows
  {
    var r := SortBy(rows, (m: OutboxMessage) => m.createdAt);
    assert forall m :: m in r <==> m in multiset(r);
    assert forall m :: m in rows <==> m in multiset(rows);
    r
  }

  /**
   * The first BatchSize rows of an ascending arrangement of the unprocessed
   * rows: all unprocessed, ascending, no unprocessed row left out is older,
   * and none at all only when every row is processed.
   */
  lemma TakeIsOldest(outbox: seq<OutboxMessage>, sorted: seq<OutboxMessage>, b: seq<OutboxMessage>)
    requires InCreationOrder(sorted)
    requires forall m :: m in sorted <==> m in outbox && !m.processed
    requires b == Take(sorted, BatchSize)
    ensures |b| == if |sorted| < BatchSize then |sorted| else BatchSize
    ensures forall m :: m in b ==> m in outbox && !m.processed
    ensures InCreationOrder(b)
    ensures forall m, x :: m in outbox && !m.processed && m !in b && x in b ==> x.createdAt <= m.createdAt
    ensures |b| == 0 <==> forall m :: m in outbox ==> m.processed
    ensures |sorted| < BatchSize ==> forall m :: m in outbox && !m.processed ==> m in b
  {
    var n := |b|;
    assert b == sorted[..n];
    forall m, x | m in outbox && !m.processed && m !in b && x in b
      ensures x.createdAt <= m.createdAt
    {
      var j :| 0 <= j < |sorted| && sorted[j] == m;
      var i :| 0 <= i < n && b[i] == x;
      assert m !in sorted[..n];
      assert n <= j;
      assert sorted[i] == x;
    }
    if n == 0 {
      assert |sorted| == 0;
      forall m | m in outbox ensures m.processed {
        assert m !in sorted;
      }
    } else {
      assert b[0] in sorted;
    }
  }

  /** The rows one cycle publishes: the unprocessed rows, oldest first, at most ten. */
  function SelectBatch(outbox: seq<OutboxMessage>): (b: seq<OutboxMessage>)
    ensures |b| == if |Unprocessed(outbox)| < BatchSize then |Unprocessed(outbox)| else BatchSize
    ensures forall m :: m in b ==> m in outbox && !m.processed
    ensures InCreationOrder(b)
    ensures forall m, x :: m in outbox && !m.processed && m !in b && x in b ==> x.createdAt <= m.createdAt
    ensures |b| == 0 <==> forall m :: m in outbox ==> m.processed
  {
    var sorted := OldestFirst(Unprocessed(outbox));
    var b := Take(sorted, BatchSize);
    TakeIsOldest(outbox, sorted, b);
    b
  }

  /**
   * The batch repeats no row: each stored row is in it at most as often as
   * it is stored. With fewer than ten rows unprocessed, all of them are in it.
   */
  lemma BatchIsExact(outbox: seq<OutboxMessage>)
    ensures multiset(SelectBatch(outbox)) <= multiset(outbox)
    ensures |Unprocessed(outbox)| < BatchSize ==> forall m :: m in outbox && !m.processed ==> m in SelectBatch(outbox)
  {
    var sorted := OldestFirst(Unprocessed(outbox));
    TakeIsOldest(outbox, sorted, Take(sorted, BatchSize));
    UnprocessedIsSubMultiset(outbox);
    TakeIsSubMultiset(outbox, sorted);
  }

  /** Where keeps each row at most as often as it is stored. */
  lemma UnprocessedIsSubMultiset(outbox: seq<OutboxMessage>)
    ensures multiset(Unprocessed(outbox)) <= multiset(outbox)
  {
    var r := Unprocessed(outbox);
    forall m ensures multiset(r)[m] <= multiset(outbox)[m] {
    }
  }

  /** A prefix of an arrangement of stored rows holds each row at most as often as it is stored. */
  lemma TakeIsSubMultiset(outbox: seq<OutboxMessage>, sorted: seq<OutboxMessage>)
    requires multiset(sorted) == multiset(Unprocessed(outbox))
    requires multiset(Unprocessed(outbox)) <= multiset(outbox)
    ensures multiset(Take(sorted, BatchSize)) <= multiset(outbox)
  {
  }

  /**
   * Every batch the query at lines 45-49 may return: SQL's ORDER BY leaves
   * rows with equal CreatedAt in no fixed order, so any arrangement of the
   * ties is allowed. Ten rows, or all the unprocessed ones when fewer; each
   * unprocessed and at most as often as stored; ascending; none older left
   * behind.
   */
  ghost predicate QueryMayReturn(outbox: seq<OutboxMessage>, b: seq<OutboxMessage>) {
    && |b| == (if |Unprocessed(outbox)| < BatchSize then |Unprocessed(outbox)| else BatchSize)
    && multiset(b) <= multiset(Unprocessed(outbox))
    && InCreationOrder(b)
    && (forall m, x :: m in outbox && !m.processed && m !in b && x in b ==> x.createdAt <= m.createdAt)
  }

  /** The model's own query is one of the batches the database may return. */
  lemma SelectBatchMayBeReturned(outbox: seq<OutboxMessage>)
    ensures QueryMayReturn(outbox, SelectBatch(outbox))
  {
    var sorted := OldestFirst(Unprocessed(outbox));
    assert SelectBatch(outbox) == Take(sorted, BatchSize);
    assert multiset(Take(sorted, BatchSize)) <= multiset(sorted);
  }

  /**
   * Whatever order the database gives equal CreatedAt, a batch it may return
   * holds only stored unprocessed rows, and, when fewer than ten are
   * unprocessed, every one of them.
   */
  lemma ReturnedBatchHoldsFewRows(outbox: seq<OutboxMessage>, b: seq<OutboxMessage>)
    requires QueryMayReturn(outbox, b)
    ensures BatchOf(outbox, b)
    ensures |Unprocessed(outbox)| < BatchSize ==> forall m :: m in outbox && !m.processed ==> m in b
  {
    var u := Unprocessed(outbox);
    forall m | m in b ensures m in outbox && !m.processed {
      assert m in multiset(b);
      assert m in multiset(u);
    }
    if |u| < BatchSize {
      forall m | m in outbox && !m.processed ensures m in b {
        if m !in b {
          assert m in multiset(u);
          assert |multiset(u) - multiset{m}| == |u| - 1;
          assert multiset(b) <= multiset(u) - multiset{m};
          SubMultisetIsSmaller(multiset(b), multiset(u) - multiset{m});
          assert false;
        }
      }
    }
  }

  /** A sub-multiset has no more elements. */
  lemma {:induction false} SubMultisetIsSmaller<T>(a: multiset<T>, b: multiset<T>)
    requires a <= b
    ensures |a| <= |b|
    decreases |b|
  {
    if a != multiset{} {
      var x :| x in a;
      SubMultisetIsSmaller(a - multiset{x}, b - multiset{x});
    }
  }

  // ----- One cycle -----

  /** The BasicPublish of one row: its payload, to payment_requests, persistent. */
  function Publish(m: OutboxMessage): Publication {
    Publication(PaymentRequestsQueue, m.payload, true)
  }

  /** The publishes of a sequence of rows, in order. */
  function Publications(rows: seq<OutboxMessage>): (p: seq<Publication>)
    ensures |p| == |rows| && forall i :: 0 <= i < |rows| ==> p[i] == Publish(rows[i])
    decreases |rows|
  {
    if |rows| == 0 then []
    else Publications(rows[..|rows| - 1]) + [Publish(rows[|rows| - 1])]
  }

  /** A row after the loop body has flipped its flag. */
  function Marked(m: OutboxMessage, now: Time): OutboxMessage {
    m.(processed := true, processedAt := Some(now))
  }

  /** The tracked rows the loop body has marked, keyed by id. */
  function Tracked(batch: seq<OutboxMessage>, now: Time): map<Guid, OutboxMessage>
    decreases |batch|
  {
    if |batch| == 0 then map[]
    else Tracked(batch[..|batch| - 1], now)[batch[|batch| - 1].id := Marked(batch[|batch| - 1], now)]
  }

  /** Every batch row is tracked under its id, and every tracked row is a batch row marked at `now`. */
  lemma {:induction false} TrackedRows(batch: seq<OutboxMessage>, now: Time)
    ensures var t := Tracked(batch, now);
      && (forall m :: m in batch ==> m.id in t)
      && (forall id :: id in t ==> t[id].id == id && exists m :: m in batch && t[id] == Marked(m, now))
    decreases |batch|
  {
    if |batch| > 0 {
      var init := batch[..|batch| - 1];
      TrackedRows(init, now);
      assert batch == init + [batch[|batch| - 1]];
    }
  }

  /** Where one cycle can throw: connecting, the publish of batch row `index`, or the final save. */
  datatype CycleFault = NoFault | ConnectFails | PublishFailsAt(index: nat) | SaveFails

  /** What a cycle did: how it ended, what it published, and the tables it left. */
  datatype Cycle = Cycle(outcome: Outcome, published: seq<Publication>, state: OrdersState)

  /** Every row of the batch is a stored row that was not yet processed. */
  predicate BatchOf(outbox: seq<OutboxMessage>, batch: seq<OutboxMessage>) {
    forall m :: m in batch ==> m in outbox && !m.processed
  }

  /** A cycle over a selected batch: connect, publish row by row, then save the marks once. */
  function CycleOn(s: OrdersState, batch: seq<OutboxMessage>, now: Time, fault: CycleFault): Cycle {
    if |batch| == 0 then Cycle(Returned, [], s)
    else if fault.ConnectFails? then Cycle(Threw(BrokerUnreachable), [], s)
    else if fault.PublishFailsAt? && fault.index < |batch| then
      Cycle(Threw(BrokerUnreachable), Publications(batch[..fault.index]), s)
    else
      var saved := Commit(s, NoOrdersChanges.(outboxModified := Tracked(batch, now)), fault.SaveFails?);
      Cycle(saved.outcome, Publications(batch), saved.state)
  }

  /** ProcessOutboxMessages on the tables. */
  function CycleStep(s: OrdersState, now: Time, fault: CycleFault): Cycle {
    CycleOn(s, SelectBatch(s.outbox), now, fault)
  }

  method ProcessOutboxMessages(db: OrdersStore, channel: Channel, now: Time, fault: CycleFault)
    returns (o: Outcome)
    requires db.Valid()
    modifies db, channel
    ensures db.Valid()
    ensures var c := CycleStep(old(db.State()), now, fault);
      o == c.outcome && db.State() == c.state && channel.published == old(channel.published) + c.published
  {
    var messages := SelectBatch(db.outbox);
    o := PublishBatch(db, channel, messages, now, fault);
  }

  /** The rest of ProcessOutboxMessages once the batch is read: the early return, the foreach and the save. */
  method PublishBatch(db: OrdersStore, channel: Channel, messages: seq<OutboxMessage>, now: Time, fault: CycleFault)
    returns (o: Outcome)
    requires db.Valid()
    modifies db, channel
    ensures db.Valid()
    ensures var c := CycleOn(old(db.State()), messages, now, fault);
      o == c.outcome && db.State() == c.state && channel.published == old(channel.published) + c.published
  {
    if |messages| == 0 {
      return Returned;
    }
    if fault.ConnectFails? {
      return Threw(BrokerUnreachable);
    }
    var tracked: map<Guid, OutboxMessage> := map[];
    var i := 0;
    while i < |messages|
      invariant 0 <= i <= |messages|
      invariant tracked == Tracked(messages[..i], now)
      invariant channel.published == old(channel.published) + Publications(messages[..i])
      invariant db.State() == old(db.State())
      invariant fault.PublishFailsAt? ==> i <= fault.index
    {
      if fault == PublishFailsAt(i) {
        return Threw(BrokerUnreachable);
      }
      channel.BasicPublish(PaymentRequestsQueue, messages[i].payload, true);
      tracked := tracked[messages[i].id := Marked(messages[i], now)];
      assert messages[..i + 1][..i] == messages[..i];
      i := i + 1;
    }
    assert messages[..i] == messages;
    o := db.SaveChanges(NoOrdersChanges.(outboxModified := tracked), fault.SaveFails?);
  }

  // ----- What one cycle does -----

  /** The marks of a batch of stored rows are always accepted by the store. */
  lemma MarksAccepted(s: OrdersState, batch: seq<OutboxMessage>, now: Time)
    requires BatchOf(s.outbox, batch)
    ensures Rejection(s, NoOrdersChanges.(outboxModified := Tracked(batch, now))).None?
  {
    var c := NoOrdersChanges.(outboxModified := Tracked(batch, now));
    TrackedAreStored(s.outbox, batch, now);
    assert !exists id :: id in c.outboxModified && OutboxWithId(s.outbox, id).None?;
    assert !exists id :: id in c.outboxModified && c.outboxModified[id].id != id;
  }

  /** Every tracked row is keyed by its own id, and that id is stored. */
  lemma TrackedAreStored(outbox: seq<OutboxMessage>, batch: seq<OutboxMessage>, now: Time)
    requires BatchOf(outbox, batch)
    ensures forall id :: id in Tracked(batch, now) ==>
      Tracked(batch, now)[id].id == id && OutboxWithId(outbox, id).Some?
  {
    var t := Tracked(batch, now);
    TrackedRows(batch, now);
    forall id | id in t ensures OutboxWithId(outbox, id).Some? {
      var m :| m in batch && t[id] == Marked(m, now);
      assert m in outbox;
    }
  }

  /** The rows a commit of the marks leaves: each batch row marked at `now`, every other row as it was. */
  lemma MarksWrittenBack(s: OrdersState, batch: seq<OutboxMessage>, now: Time)
    requires Schema(s) && BatchOf(s.outbox, batch)
    ensures var t := Tracked(batch, now);
      && |WriteBack(s.outbox, t)| == |s.outbox|
      && forall i :: 0 <= i < |s.outbox| ==>
           WriteBack(s.outbox, t)[i] == if s.outbox[i] in batch then Marked(s.outbox[i], now) else s.outbox[i]
  {
    var t := Tracked(batch, now);
    TrackedRows(batch, now);
    forall i | 0 <= i < |s.outbox|
      ensures WriteBack(s.outbox, t)[i] == if s.outbox[i] in batch then Marked(s.outbox[i], now) else s.outbox[i]
    {
      var id := s.outbox[i].id;
      if id in t {
        var m :| m in batch && t[id] == Marked(m, now);
        var k :| 0 <= k < |s.outbox| && s.outbox[k] == m;
        assert s.outbox[k].id == id;
        assert k == i;
      }
    }
  }

  /**
   * A cycle that returns has published every batch row's payload in batch
   * order and marked exactly the batch rows processed at `now`; a cycle that
   * throws has published a prefix of the batch and changed no row. It
   * returns unless one of the faults actually strikes.
   */
  lemma CycleMarksBatch(s: OrdersState, batch: seq<OutboxMessage>, now: Time, fault: CycleFault)
    requires Schema(s) && BatchOf(s.outbox, batch)
    ensures var c := CycleOn(s, batch, now, fault);
      && (c.outcome.Returned? <==>
            |batch| == 0 || fault.NoFault? || (fault.PublishFailsAt? && fault.index >= |batch|))
      && (c.outcome.Returned? ==>
            && c.published == Publications(batch)
            && c.state.orders == s.orders
            && |c.state.outbox| == |s.outbox|
            && forall i :: 0 <= i < |s.outbox| ==>
                 c.state.outbox[i] == if s.outbox[i] in batch then Marked(s.outbox[i], now) else s.outbox[i])
      && (c.outcome.Threw? ==> c.state == s && c.published <= Publications(batch))
  {
    if |batch| == 0 {
      assert CycleOn(s, batch, now, fault) == Cycle(Returned, [], s);
    } else if fault.ConnectFails? {
      assert CycleOn(s, batch, now, fault) == Cycle(Threw(BrokerUnreachable), [], s);
    } else if fault.PublishFailsAt? && fault.index < |batch| {
      assert Publications(batch[..fault.index]) <= Publications(batch);
    } else {
      CommittedMarks(s, batch, now, fault.SaveFails?);
    }
  }

  /** The save at the end of a cycle whose publishes all went through. */
  lemma CommittedMarks(s: OrdersState, batch: seq<OutboxMessage>, now: Time, storeFails: bool)
    requires Schema(s) && BatchOf(s.outbox, batch)
    ensures var saved := Commit(s, NoOrdersChanges.(outboxModified := Tracked(batch, now)), storeFails);
      && (saved.outcome.Returned? <==> !storeFails)
      && (saved.outcome.Returned? ==>
            && saved.state.orders == s.orders
            && |saved.state.outbox| == |s.outbox|
            && forall i :: 0 <= i < |s.outbox| ==>
                 saved.state.outbox[i] == if s.outbox[i] in batch then Marked(s.outbox[i], now) else s.outbox[i])
  {
    var changes := NoOrdersChanges.(outboxModified := Tracked(batch, now));
    MarksAccepted(s, batch, now);
    if !storeFails {
      assert Apply(s, changes) == OrdersState(s.orders, WriteBack(s.outbox, Tracked(batch, now)));
      MarksWrittenBack(s, batch, now);
    }
  }

  /** A cycle finding every row processed publishes nothing and changes nothing. */
  lemma EmptyBatchIsNoOp(s: OrdersState, now: Time, fault: CycleFault)
    requires forall m :: m in s.outbox ==> m.processed
    ensures CycleStep(s, now, fault) == Cycle(Returned, [], s)
  {
  }

  /** Processed never goes from true back to false, whatever the cycle meets. */
  lemma ProcessedNeverReverts(s: OrdersState, now: Time, fault: CycleFault)
    requires Schema(s)
    ensures var c := CycleStep(s, now, fault);
      && |c.state.outbox| == |s.outbox|
      && forall i :: 0 <= i < |s.outbox| && s.outbox[i].processed ==> c.state.outbox[i].processed
  {
    CycleMarksBatch(s, SelectBatch(s.outbox), now, fault);
  }

  /** A row is marked processed only in a cycle that published its payload. */
  lemma MarkedRowsWerePublished(s: OrdersState, now: Time, fault: CycleFault)
    requires Schema(s)
    ensures var c := CycleStep(s, now, fault);
      && |c.state.outbox| == |s.outbox|
      && forall i :: 0 <= i < |s.outbox| && !s.outbox[i].processed && c.state.outbox[i].processed
           ==> Publish(s.outbox[i]) in c.published
  {
    MarkedRowsWerePublishedOn(s, SelectBatch(s.outbox), now, fault);
  }

  lemma MarkedRowsWerePublishedOn(s: OrdersState, batch: seq<OutboxMessage>, now: Time, fault: CycleFault)
    requires Schema(s) && BatchOf(s.outbox, batch)
    ensures var c := CycleOn(s, batch, now, fault);
      && |c.state.outbox| == |s.outbox|
      && forall i :: 0 <= i < |s.outbox| && !s.outbox[i].processed && c.state.outbox[i].processed
           ==> Publish(s.outbox[i]) in c.published
  {
    var c := CycleOn(s, batch, now, fault);
    CycleMarksBatch(s, batch, now, fault);
    forall i | 0 <= i < |s.outbox| && !s.outbox[i].processed && c.state.outbox[i].processed
      ensures Publish(s.outbox[i]) in c.published
    {
      var k :| 0 <= k < |batch| && batch[k] == s.outbox[i];
      assert c.published[k] == Publish(s.outbox[i]);
    }
  }

  /**
   * At-least-once: after a cycle that throws, every row it published is
   * still stored unprocessed, and the next cycle that returns publishes it
   * again, in the same order.
   */
  lemma FailedCycleIsRepublished(s: OrdersState, now: Time, fault: CycleFault, next: Time, nextFault: CycleFault)
    requires Schema(s)
    requires CycleStep(s, now, fault).outcome.Threw?
    ensures var c := CycleStep(s, now, fault);
      && c.state == s
      && (forall p :: p in c.published ==> exists m :: m in s.outbox && !m.processed && p == Publish(m))
      && (CycleStep(c.state, next, nextFault).outcome.Returned? ==>
            c.published <= CycleStep(c.state, next, nextFault).published)
  {
    FailedCycleIsRepublishedOn(s, SelectBatch(s.outbox), now, fault, next, nextFault);
  }

  /**
   * Independent of the tie order: when fewer than ten rows are unprocessed,
   * a cycle on any batch the query may return that throws, followed by a
   * cycle on the same tables on any batch the query may return that returns,
   * republishes every payload the first one published.
   */
  lemma FailedCycleIsRepublishedByAnyQuery(s: OrdersState, b: seq<OutboxMessage>, now: Time, fault: CycleFault,
                                           b': seq<OutboxMessage>, next: Time, nextFault: CycleFault)
    requires Schema(s) && QueryMayReturn(s.outbox, b) && QueryMayReturn(s.outbox, b')
    requires |Unprocessed(s.outbox)| < BatchSize
    ensures CycleOn(s, b, now, fault).outcome.Threw? ==> CycleOn(s, b, now, fault).state == s
    ensures CycleOn(s, b, now, fault).outcome.Threw? && CycleOn(s, b', next, nextFault).outcome.Returned? ==>
              forall p :: p in CycleOn(s, b, now, fault).published ==> p in CycleOn(s, b', next, nextFault).published
  {
    ReturnedBatchHoldsFewRows(s.outbox, b);
    ReturnedBatchHoldsFewRows(s.outbox, b');
    CycleMarksBatch(s, b, now, fault);
    CycleMarksBatch(s, b', next, nextFault);
    PublicationsOfCoveredRows(b, b', CycleOn(s, b, now, fault).published);
  }

  /** Any prefix of the publishes of one batch is among the publishes of a batch holding all its rows. */
  lemma PublicationsOfCoveredRows(b: seq<OutboxMessage>, b': seq<OutboxMessage>, pre: seq<Publication>)
    requires pre <= Publications(b)
    requires forall m :: m in b ==> m in b'
    ensures forall p :: p in pre ==> p in Publications(b')
  {
    forall p | p in pre ensures p in Publications(b') {
      var k :| 0 <= k < |pre| && pre[k] == p;
      assert Publications(b)[k] == Publish(b[k]);
      assert b[k] in b;
      var j :| 0 <= j < |b'| && b'[j] == b[k];
      assert Publications(b')[j] == Publish(b'[j]);
    }
  }

  lemma FailedCycleIsRepublishedOn(s: OrdersState, batch: seq<OutboxMessage>, now: Time, fault: CycleFault,
                                   next: Time, nextFault: CycleFault)
    requires Schema(s) && BatchOf(s.outbox, batch)
    requires CycleOn(s, batch, now, fault).outcome.Threw?
    ensures var c := CycleOn(s, batch, now, fault);
      && c.state == s
      && (forall p :: p in c.published ==> exists m :: m in s.outbox && !m.processed && p == Publish(m))
      && (CycleOn(s, batch, next, nextFault).outcome.Returned? ==>
            c.published <= CycleOn(s, batch, next, nextFault).published)
  {
    var c := CycleOn(s, batch, now, fault);
    CycleMarksBatch(s, batch, now, fault);
    CycleMarksBatch(s, batch, next, nextFault);
    forall p | p in c.published ensures exists m :: m in s.outbox && !m.processed && p == Publish(m) {
      var k :| 0 <= k < |c.published| && c.published[k] == p;
      assert Publications(batch)[k] == Publish(batch[k]);
      assert batch[k] in batch;
    }
  }

  /** After a cycle that returns, no published row is left unprocessed, so none is selected again. */
  lemma SuccessfulCycleIsNotRepeated(s: OrdersState, now: Time, fault: CycleFault)
    requires Schema(s)
    requires CycleStep(s, now, fault).outcome.Returned?
    ensures var c := CycleStep(s, now, fault);
      forall m, x :: m in SelectBatch(s.outbox) && x in c.state.outbox && x.id == m.id ==> x.processed
  {
    SuccessfulCycleIsNotRepeatedOn(s, SelectBatch(s.outbox), now, fault);
  }

  lemma SuccessfulCycleIsNotRepeatedOn(s: OrdersState, batch: seq<OutboxMessage>, now: Time, fault: CycleFault)
    requires Schema(s) && BatchOf(s.outbox, batch)
    requires CycleOn(s, batch, now, fault).outcome.Returned?
    ensures var c := CycleOn(s, batch, now, fault);
      forall m, x :: m in batch && x in c.state.outbox && x.id == m.id ==> x.processed
  {
    var c := CycleOn(s, batch, now, fault);
    CycleMarksBatch(s, batch, now, fault);
    MarkedIdsAreProcessed(s.outbox, c.state.outbox, batch, now);
  }

  /** Once the batch rows are marked in place, every row holding a batch row's key is processed. */
  lemma MarkedIdsAreProcessed(outbox: seq<OutboxMessage>, out: seq<OutboxMessage>, batch: seq<OutboxMessage>, now: Time)
    requires OutboxKeysUnique(outbox) && BatchOf(outbox, batch)
    requires |out| == |outbox|
    requires forall i :: 0 <= i < |outbox| ==>
      out[i] == if outbox[i] in batch then Marked(outbox[i], now) else outbox[i]
    ensures forall m, x :: m in batch && x in out && x.id == m.id ==> x.processed
  {
    forall m, x | m in batch && x in out && x.id == m.id ensures x.processed {
      var i :| 0 <= i < |out| && out[i] == x;
      var k :| 0 <= k < |outbox| && outbox[k] == m;
      assert out[i].id == outbox[i].id;
      assert i == k;
    }
  }

  /** A row after a cycle: same key, kind, payload and creation time, and still processed if it was. */
  predicate KeptRow(m: OutboxMessage, m': OutboxMessage) {
    && m'.id == m.id
    && m'.kind == m.kind
    && m'.payload == m.payload
    && m'.createdAt == m.createdAt
    && (m.processed ==> m'.processed)
  }

  /** The rows a cycle leaves: the orders as they were, and every outbox row kept in place. */
  ghost predicate RowsKept(s: OrdersState, s': OrdersState) {
    && s'.orders == s.orders
    && |s'.outbox| == |s.outbox|
    && forall i :: 0 <= i < |s.outbox| ==> KeptRow(s.outbox[i], s'.outbox[i])
  }

  /** Whatever it meets, a cycle keeps the keys unique and every row in place, and never unmarks one. */
  lemma CycleOnKeepsRows(s: OrdersState, batch: seq<OutboxMessage>, now: Time, fault: CycleFault)
    requires Schema(s) && BatchOf(s.outbox, batch)
    ensures Schema(CycleOn(s, batch, now, fault).state)
    ensures RowsKept(s, CycleOn(s, batch, now, fault).state)
  {
    var c := CycleOn(s, batch, now, fault);
    CycleMarksBatch(s, batch, now, fault);
    if c.outcome.Returned? {
      forall i | 0 <= i < |s.outbox| ensures KeptRow(s.outbox[i], c.state.outbox[i]) {
        if s.outbox[i] in batch {
          assert c.state.outbox[i] == Marked(s.outbox[i], now);
        }
      }
      assert forall i :: 0 <= i < |s.outbox| ==> c.state.outbox[i].id == s.outbox[i].id;
    }
  }

  lemma CycleKeepsRows(s: OrdersState, now: Time, fault: CycleFault)
    requires Schema(s)
    ensures Schema(CycleStep(s, now, fault).state)
    ensures RowsKept(s, CycleStep(s, now, fault).state)
  {
    CycleOnKeepsRows(s, SelectBatch(s.outbox), now, fault);
  }

  /** Rows kept in place keep every order matched with its request row. */
  lemma KeptRowsKeepRequestsMatched(s: OrdersState, s': OrdersState)
    requires RequestsMatchOrders(s) && RowsKept(s, s')
    ensures RequestsMatchOrders(s')
  {
    forall i | 0 <= i < |s'.orders| ensures HasRequest(s'.outbox, s'.orders[i]) {
      assert HasRequest(s.outbox, s.orders[i]);
      var j :| 0 <= j < |s.outbox| && RequestFor(s.outbox[j], s.orders[i]);
      assert KeptRow(s.outbox[j], s'.outbox[j]);
      assert RequestFor(s'.outbox[j], s'.orders[i]);
    }
    forall j | 0 <= j < |s'.outbox| ensures HasOrder(s'.orders, s'.outbox[j]) {
      assert HasOrder(s.orders, s.outbox[j]);
      var i :| 0 <= i < |s.orders| && RequestFor(s.outbox[j], s.orders[i]);
      assert KeptRow(s.outbox[j], s'.outbox[j]);
      assert RequestFor(s'.outbox[j], s'.orders[i]);
    }
  }

  /** A cycle keeps the keys unique and every order matched with its request row. */
  lemma CycleKeepsRequestsMatched(s: OrdersState, now: Time, fault: CycleFault)
    requires Schema(s) && RequestsMatchOrders(s)
    ensures Schema(CycleStep(s, now, fault).state) && RequestsMatchOrders(CycleStep(s, now, fault).state)
  {
    CycleKeepsRows(s, now, fault);
    KeptRowsKeepRequestsMatched(s, CycleStep(s, now, fault).state);
  }

  // ----- The polling loop -----

  /** One pass of the ExecuteAsync loop: the clock and the fault that pass meets. */
  datatype Tick = Tick(now: Time, fault: CycleFault)

  /** What the loop has published, and the tables it has left, after a run of passes. */
  datatype Trace = Trace(published: seq<Publication>, state: OrdersState)

  /**
   * ExecuteAsync: one cycle per pass, with an exception caught and logged
   * and the loop going on; the delays between passes take no part.
   */
  function Run(s: OrdersState, ticks: seq<Tick>): Trace
    decreases |ticks|
  {
    if |ticks| == 0 then Trace([], s)
    else
      var before := Run(s, ticks[..|ticks| - 1]);
      var tick := ticks[|ticks| - 1];
      var c := CycleStep(before.state, tick.now, tick.fault);
      Trace(before.published + c.published, c.state)
  }

  method ExecuteAsync(db: OrdersStore, channel: Channel, ticks: seq<Tick>)
    requires db.Valid()
    modifies db, channel
    ensures db.Valid()
    ensures var t := Run(old(db.State()), ticks);
      db.State() == t.state && channel.published == old(channel.published) + t.published
  {
    ghost var start := db.State();
    ghost var sent := channel.published;
    var i := 0;
    while i < |ticks|
      invariant 0 <= i <= |ticks|
      invariant db.Valid()
      invariant db.State() == Run(start, ticks[..i]).state
      invariant channel.published == sent + Run(start, ticks[..i]).published
    {
      ghost var before := Run(start, ticks[..i]);
      ghost var c := CycleStep(before.state, ticks[i].now, ticks[i].fault);
      RunExtends(start, ticks, i);
      var _ := ProcessOutboxMessages(db, channel, ticks[i].now, ticks[i].fault);
      ConcatAssoc(sent, before.published, c.published);
      i := i + 1;
    }
    assert ticks[..i] == ticks;
  }

  /** A run one pass longer is the shorter run followed by one more cycle. */
  lemma RunExtends(s: OrdersState, ticks: seq<Tick>, i: nat)
    requires i < |ticks|
    ensures var before := Run(s, ticks[..i]);
      var c := CycleStep(before.state, ticks[i].now, ticks[i].fault);
      Run(s, ticks[..i + 1]) == Trace(before.published + c.published, c.state)
  {
    assert ticks[..i + 1][..i] == ticks[..i];
  }

  /**
   * Over any run, whatever faults it meets: the keys stay unique, no row
   * moves or loses its payload, and no processed row is unmarked.
   */
  lemma {:induction false} RunKeepsRows(s: OrdersState, ticks: seq<Tick>)
    requires Schema(s)
    ensures Schema(Run(s, ticks).state)
    ensures RowsKept(s, Run(s, ticks).state)
    decreases |ticks|
  {
    if |ticks| > 0 {
      var init := ticks[..|ticks| - 1];
      RunKeepsRows(s, init);
      var before := Run(s, init).state;
      var tick := ticks[|ticks| - 1];
      CycleKeepsRows(before, tick.now, tick.fault);
      var after := CycleStep(before, tick.now, tick.fault).state;
      forall i | 0 <= i < |s.outbox| ensures KeptRow(s.outbox[i], after.outbox[i]) {
        assert KeptRow(s.outbox[i], before.outbox[i]);
        assert KeptRow(before.outbox[i], after.outbox[i]);
      }
    }
  }

  /**
   * Over any run, a row that ends up processed and was not at the start
   * had its payload published to payment_requests during the run.
   */
  lemma {:induction false} RunMarksOnlyPublished(s: OrdersState, ticks: seq<Tick>)
    requires Schema(s)
    ensures var t := Run(s, ticks);
      && |t.state.outbox| == |s.outbox|
      && forall i :: 0 <= i < |s.outbox| && !s.outbox[i].processed && t.state.outbox[i].processed
           ==> Publish(s.outbox[i]) in t.published
    decreases |ticks|
  {
    RunKeepsRows(s, ticks);
    if |ticks| > 0 {
      var init := ticks[..|ticks| - 1];
      var before := Run(s, init);
      var tick := ticks[|ticks| - 1];
      var c := CycleStep(before.state, tick.now, tick.fault);
      RunMarksOnlyPublished(s, init);
      RunKeepsRows(s, init);
      MarkedRowsWerePublished(before.state, tick.now, tick.fault);
      forall i | 0 <= i < |s.outbox| && !s.outbox[i].processed && c.state.outbox[i].processed
        ensures Publish(s.outbox[i]) in before.published + c.published
      {
        assert KeptRow(s.outbox[i], before.state.outbox[i]);
      }
    }
  }

  /** Over any run, every order keeps its request row and every request row its order. */
  lemma {:induction false} RunKeepsRequestsMatched(s: OrdersState, ticks: seq<Tick>)
    requires Schema(s) && RequestsMatchOrders(s)
    ensures Schema(Run(s, ticks).state) && RequestsMatchOrders(Run(s, ticks).state)
    decreases |ticks|
  {
    if |ticks| > 0 {
      var init := ticks[..|ticks| - 1];
      RunKeepsRequestsMatched(s, init);
      var tick := ticks[|ticks| - 1];
      CycleKeepsRequestsMatched(Run(s, init).state, tick.now, tick.fault);
    }
  }
}
