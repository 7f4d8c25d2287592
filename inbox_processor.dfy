/**
 * The idempotent payment-request consumer of the payments service
 * (InboxProcessor): a transport-level check on the inbox row of the message,
 * a business-level check on the ledger for the order, then a debit or a
 * decline, a PaymentResult outbox row and the inbox row marked processed,
 * all in one SaveChanges.
 */
module InboxProcessor {
  import opened Common
  import opened Messages
  import opened Broker
  import opened PaymentsDb

  /** The values Guid.NewGuid() supplies during one call. */
  datatype NewIds = NewIds(transactionId: Guid, resultMessageId: Guid, outboxId: Guid)

  const AlreadyProcessed := "Already processed"
  const AccountNotFound := "Account not found"
  const InsufficientFunds := "Insufficient funds"
  const PaymentSuccessful := "Payment successful"

  /** The new ids collide with no stored key. */
  predicate FreshFor(s: PaymentsState, ids: NewIds) {
    TransactionIdFree(s.transactions, ids.transactionId) && OutboxIdFree(s.outbox, ids.outboxId)
  }

  /** CreatePaymentResult: the unpublished outbox row holding the result. */
  function PaymentResultRow(orderId: Guid, success: bool, reason: string, ids: NewIds, now: Time): OutboxMessage {
    OutboxMessage(
      ids.outboxId,
      PaymentResultType,
      ResultPayload(PaymentResult(ids.resultMessageId, orderId, success, reason, now)),
      false,
      now,
      None)
  }

  /** The inbox row of the message, processed: added when absent, else the stored row modified. */
  function ProcessedInbox(inbox: map<Guid, InboxMessage>, req: PaymentRequest, now: Time): InboxWrite {
    if req.messageId !in inbox then
      InsertInbox(InboxMessage(req.messageId, PaymentRequestType, req, true, now, Some(now)))
    else
      UpdateInbox(inbox[req.messageId].(processed := true, processedAt := Some(now)))
  }

  /** The WITHDRAWAL row recorded for a debit. */
  function Withdrawal(req: PaymentRequest, ids: NewIds, now: Time): Transaction {
    Transaction(ids.transactionId, req.userId, Some(req.orderId), req.amount, WITHDRAWAL, now)
  }

  predicate AlreadyHandled(s: PaymentsState, messageId: Guid) {
    messageId in s.inbox && s.inbox[messageId].processed
  }

  /** The debit branch is taken: an account exists for the user and covers the amount. */
  predicate CanDebit(s: PaymentsState, req: PaymentRequest) {
    var k := AccountOfUser(s.accounts, req.userId);
    k.Some? && s.accounts[k.value].balance >= req.amount
  }

  /**
   * The rows ProcessPaymentRequest stages before it saves; None when it
   * returns early because the message was already processed.
   */
  function Stage(s: PaymentsState, req: PaymentRequest, ids: NewIds, now: Time): Option<Changes> {
    if AlreadyHandled(s, req.messageId) then None
    else
      var inboxWrite := ProcessedInbox(s.inbox, req, now);
      if HasOrderTransaction(s.transactions, req.orderId) then
        Some(NoChanges.(
          outboxAdded := Some(PaymentResultRow(req.orderId, true, AlreadyProcessed, ids, now)),
          inboxWrite := inboxWrite))
      else
        var k := AccountOfUser(s.accounts, req.userId);
        if k.None? then
          Some(NoChanges.(
            outboxAdded := Some(PaymentResultRow(req.orderId, false, AccountNotFound, ids, now)),
            inboxWrite := inboxWrite))
        else if s.accounts[k.value].balance < req.amount then
          Some(NoChanges.(
            outboxAdded := Some(PaymentResultRow(req.orderId, false, InsufficientFunds, ids, now)),
            inboxWrite := inboxWrite))
        else
          var account := s.accounts[k.value];
          Some(NoChanges.(
            accountModified := Some(account.(balance := account.balance - req.amount, updatedAt := now)),
            transactionAdded := Some(Withdrawal(req, ids, now)),
            outboxAdded := Some(PaymentResultRow(req.orderId, true, PaymentSuccessful, ids, now)),
            inboxWrite := inboxWrite))
  }

  /** ProcessPaymentRequest on the tables: the staged rows, committed at once. */
  function ProcessPayment(s: PaymentsState, req: PaymentRequest, ids: NewIds, now: Time, storeFails: bool): Step {
    match Stage(s, req, ids, now)
    case None => Step(Returned, s)
    case Some(c) => Commit(s, c, storeFails)
  }

  method ProcessPaymentRequest(db: PaymentsStore, req: PaymentRequest, ids: NewIds, now: Time, storeFails: bool)
    returns (o: Outcome)
    requires db.Valid()
    modifies db
    ensures db.Valid()
    ensures Step(o, db.State()) == ProcessPayment(old(db.State()), req, ids, now, storeFails)
  {
    var existingInbox := if req.messageId in db.inbox then Some(db.inbox[req.messageId]) else None;
    if existingInbox.Some? && existingInbox.value.processed {
      return Returned;
    }

    ghost var s0 := db.State();
    var changes := NoChanges;
    if HasOrderTransaction(db.transactions, req.orderId) {
      changes := changes.(outboxAdded := Some(PaymentResultRow(req.orderId, true, AlreadyProcessed, ids, now)));
      changes := changes.(inboxWrite := ProcessedInbox(db.inbox, req, now));
      assert Stage(s0, req, ids, now) == Some(changes);
      o := db.SaveChanges(changes, storeFails);
      return;
    }

    var k := AccountOfUser(db.accounts, req.userId);
    var success: bool;
    var reason: string;
    if k.None? {
      success, reason := false, AccountNotFound;
    } else if db.accounts[k.value].balance < req.amount {
      success, reason := false, InsufficientFunds;
    } else {
      var account := db.accounts[k.value];
      account := account.(balance := account.balance - req.amount);
      account := account.(updatedAt := now);
      changes := changes.(accountModified := Some(account));
      changes := changes.(transactionAdded := Some(Withdrawal(req, ids, now)));
      success, reason := true, PaymentSuccessful;
    }

    changes := changes.(outboxAdded := Some(PaymentResultRow(req.orderId, success, reason, ids, now)));
    changes := changes.(inboxWrite := ProcessedInbox(db.inbox, req, now));
    assert Stage(s0, req, ids, now) == Some(changes);
    o := db.SaveChanges(changes, storeFails);
  }

  /** A delivery's acknowledgement together with the tables it leaves. */
  datatype Handled = Handled(delivery: Delivery, state: PaymentsState)

  /** The Received callback on the payment_requests queue. */
  function OnPaymentRequest(s: PaymentsState, body: Body<PaymentRequest>, ids: NewIds, now: Time, storeFails: bool): Handled {
    match body
    case Decoded(req) =>
      var r := ProcessPayment(s, req, ids, now, storeFails);
      Handled(Decide(body, r.outcome), r.state)
    case _ => Handled(Decide(body, Returned), s)
  }

  method Received(db: PaymentsStore, body: Body<PaymentRequest>, ids: NewIds, now: Time, storeFails: bool)
    returns (d: Delivery)
    requires db.Valid()
    modifies db
    ensures db.Valid()
    ensures Handled(d, db.State()) == OnPaymentRequest(old(db.State()), body, ids, now, storeFails)
  {
    var handled := Returned;
    if body.Decoded? {
      handled := ProcessPaymentRequest(db, body.message, ids, now, storeFails);
    }
    d := Decide(body, handled);
  }

  // ----- What one call does -----

  /** The inbox row of the message is now processed; every other row is as it was. */
  ghost predicate InboxMarked(before: map<Guid, InboxMessage>, after: map<Guid, InboxMessage>, req: PaymentRequest, now: Time) {
    var m := req.messageId;
    && m in after
    && after[m].processed
    && after[m].processedAt == Some(now)
    && (m !in before ==> after[m] == InboxMessage(m, PaymentRequestType, req, true, now, Some(now)))
    && (m in before ==> after[m] == before[m].(processed := true, processedAt := Some(now)))
    && (forall id :: id != m ==> (id in after <==> id in before))
    && (forall id :: id != m && id in before ==> after[id] == before[id])
  }

  /** Unless the message was already processed, what the call stages is accepted by the store. */
  lemma StagedChangesAccepted(s: PaymentsState, req: PaymentRequest, ids: NewIds, now: Time)
    requires Schema(s) && !AlreadyHandled(s, req.messageId) && FreshFor(s, ids)
    ensures Stage(s, req, ids, now).Some?
    ensures Rejection(s, Stage(s, req, ids, now).value).None?
    ensures InboxMarked(s.inbox, Apply(s, Stage(s, req, ids, now).value).inbox, req, now)
  {
    var c := Stage(s, req, ids, now).value;
    if c.accountModified.Some? {
      var k := AccountOfUser(s.accounts, req.userId).value;
      var a := c.accountModified.value;
      var j := AccountWithId(s.accounts, a.id).value;
      assert j == k;
      assert !UserIdTakenByOther(s.accounts, a) by {
        forall i | 0 <= i < |s.accounts| && s.accounts[i].id != a.id
          ensures s.accounts[i].userId != a.userId
        {
          if i < k { assert s.accounts[i].userId != s.accounts[k].userId; }
          if k < i { assert s.accounts[k].userId != s.accounts[i].userId; }
        }
      }
    }
  }

  /** A message whose inbox row is processed is acknowledged without any change. */
  lemma DuplicateMessageIsNoOp(s: PaymentsState, req: PaymentRequest, ids: NewIds, now: Time, storeFails: bool)
    requires AlreadyHandled(s, req.messageId)
    ensures ProcessPayment(s, req, ids, now, storeFails) == Step(Returned, s)
  {
  }

  /** An order the ledger already has is answered "Already processed", without a second debit. */
  lemma PaidOrderIsReplayed(s: PaymentsState, req: PaymentRequest, ids: NewIds, now: Time)
    requires Schema(s) && FreshFor(s, ids)
    requires !AlreadyHandled(s, req.messageId) && HasOrderTransaction(s.transactions, req.orderId)
    ensures var r := ProcessPayment(s, req, ids, now, false);
      && r.outcome == Returned
      && r.state.accounts == s.accounts
      && r.state.transactions == s.transactions
      && r.state.outbox == s.outbox + [PaymentResultRow(req.orderId, true, AlreadyProcessed, ids, now)]
      && InboxMarked(s.inbox, r.state.inbox, req, now)
  {
    StagedChangesAccepted(s, req, ids, now);
  }

  /** No account for the user: declined with "Account not found", nothing debited. */
  lemma MissingAccountIsDeclined(s: PaymentsState, req: PaymentRequest, ids: NewIds, now: Time)
    requires Schema(s) && FreshFor(s, ids)
    requires !AlreadyHandled(s, req.messageId) && !HasOrderTransaction(s.transactions, req.orderId)
    requires forall i :: 0 <= i < |s.accounts| ==> s.accounts[i].userId != req.userId
    ensures var r := ProcessPayment(s, req, ids, now, false);
      && r.outcome == Returned
      && r.state.accounts == s.accounts
      && r.state.transactions == s.transactions
      && r.state.outbox == s.outbox + [PaymentResultRow(req.orderId, false, AccountNotFound, ids, now)]
      && InboxMarked(s.inbox, r.state.inbox, req, now)
  {
    StagedChangesAccepted(s, req, ids, now);
  }

  /** A balance below the amount: declined with "Insufficient funds", balance unchanged. */
  lemma ShortBalanceIsDeclined(s: PaymentsState, req: PaymentRequest, ids: NewIds, now: Time, k: nat)
    requires Schema(s) && FreshFor(s, ids)
    requires !AlreadyHandled(s, req.messageId) && !HasOrderTransaction(s.transactions, req.orderId)
    requires k < |s.accounts| && s.accounts[k].userId == req.userId && s.accounts[k].balance < req.amount
    ensures var r := ProcessPayment(s, req, ids, now, false);
      && r.outcome == Returned
      && r.state.accounts == s.accounts
      && r.state.transactions == s.transactions
      && r.state.outbox == s.outbox + [PaymentResultRow(req.orderId, false, InsufficientFunds, ids, now)]
      && InboxMarked(s.inbox, r.state.inbox, req, now)
  {
    var j := AccountOfUser(s.accounts, req.userId).value;
    assert j == k;
    StagedChangesAccepted(s, req, ids, now);
  }

  /**
   * The user's account covers the amount: the balance drops by exactly the
   * amount and stays non-negative, one WITHDRAWAL for the order is recorded,
   * and "Payment successful" is answered. No other account changes, and the
   * debited account keeps its Version.
   */
  lemma DebitIsRecorded(s: PaymentsState, req: PaymentRequest, ids: NewIds, now: Time, k: nat)
    requires Schema(s) && FreshFor(s, ids)
    requires !AlreadyHandled(s, req.messageId) && !HasOrderTransaction(s.transactions, req.orderId)
    requires k < |s.accounts| && s.accounts[k].userId == req.userId && s.accounts[k].balance >= req.amount
    ensures var r := ProcessPayment(s, req, ids, now, false);
      && r.outcome == Returned
      && |r.state.accounts| == |s.accounts|
      && r.state.accounts[k].balance == s.accounts[k].balance - req.amount >= 0
      && r.state.accounts[k] == s.accounts[k].(balance := s.accounts[k].balance - req.amount, updatedAt := now)
      && (forall j :: 0 <= j < |s.accounts| && j != k ==> r.state.accounts[j] == s.accounts[j])
      && r.state.transactions
         == s.transactions + [Transaction(ids.transactionId, req.userId, Some(req.orderId), req.amount, WITHDRAWAL, now)]
      && r.state.outbox == s.outbox + [PaymentResultRow(req.orderId, true, PaymentSuccessful, ids, now)]
      && InboxMarked(s.inbox, r.state.inbox, req, now)
  {
    var j := AccountOfUser(s.accounts, req.userId).value;
    assert j == k;
    StagedChangesAccepted(s, req, ids, now);
    var a := s.accounts[k].(balance := s.accounts[k].balance - req.amount, updatedAt := now);
    var i := AccountWithId(s.accounts, a.id).value;
    assert i == k;
  }

  /**
   * Every call that gets past the inbox check, and whose save succeeds,
   * enqueues exactly one unpublished PaymentResult for the order and leaves
   * the message's inbox row processed.
   */
  lemma EveryHandledRequestIsAnswered(s: PaymentsState, req: PaymentRequest, ids: NewIds, now: Time)
    requires Schema(s) && FreshFor(s, ids) && !AlreadyHandled(s, req.messageId)
    ensures var r := ProcessPayment(s, req, ids, now, false);
      && r.outcome == Returned
      && |r.state.outbox| == |s.outbox| + 1
      && r.state.outbox[..|s.outbox|] == s.outbox
      && r.state.outbox[|s.outbox|].kind == PaymentResultType
      && !r.state.outbox[|s.outbox|].processed
      && r.state.outbox[|s.outbox|].payload.ResultPayload?
      && r.state.outbox[|s.outbox|].payload.result.orderId == req.orderId
      && InboxMarked(s.inbox, r.state.inbox, req, now)
  {
    StagedChangesAccepted(s, req, ids, now);
    var r := ProcessPayment(s, req, ids, now, false);
    assert r.state.outbox[..|s.outbox|] == s.outbox;
  }

  /** A call that throws (a failed or rejected save) commits nothing. */
  lemma ThrowingCallCommitsNothing(s: PaymentsState, req: PaymentRequest, ids: NewIds, now: Time, storeFails: bool)
    ensures var r := ProcessPayment(s, req, ids, now, storeFails);
      r.outcome.Threw? ==> r.state == s
    ensures storeFails && !AlreadyHandled(s, req.messageId)
      ==> ProcessPayment(s, req, ids, now, storeFails) == Step(Threw(StoreFailure), s)
  {
  }

  // ----- Redelivery -----

  /** A call for a message that returns leaves the message's inbox row processed. */
  lemma ReturnedCallMarksMessage(s: PaymentsState, req: PaymentRequest, ids: NewIds, now: Time, storeFails: bool)
    requires InboxKeyed(s.inbox)
    requires ProcessPayment(s, req, ids, now, storeFails).outcome == Returned
    ensures AlreadyHandled(ProcessPayment(s, req, ids, now, storeFails).state, req.messageId)
  {
    if !AlreadyHandled(s, req.messageId) {
      var c := Stage(s, req, ids, now).value;
      assert ProcessPayment(s, req, ids, now, storeFails) == Commit(s, c, storeFails);
      assert Commit(s, c, storeFails).state == Apply(s, c);
      assert c.inboxWrite.InsertInbox? || c.inboxWrite.UpdateInbox?;
      assert c.inboxWrite.row.id == req.messageId && c.inboxWrite.row.processed;
    }
  }

  /** Once a call for a message has returned, a redelivery of that message is a no-op. */
  lemma RedeliveryIsNoOp(s: PaymentsState, req: PaymentRequest, ids: NewIds, now: Time, storeFails: bool,
                         ids': NewIds, now': Time, storeFails': bool)
    requires Schema(s)
    requires ProcessPayment(s, req, ids, now, storeFails).outcome == Returned
    ensures var s1 := ProcessPayment(s, req, ids, now, storeFails).state;
      ProcessPayment(s1, req, ids', now', storeFails') == Step(Returned, s1)
  {
    ReturnedCallMarksMessage(s, req, ids, now, storeFails);
    DuplicateMessageIsNoOp(ProcessPayment(s, req, ids, now, storeFails).state, req, ids', now', storeFails');
  }

  /** However it is delivered, a request for an order the ledger already has changes no balance and records nothing. */
  lemma PaidOrderIsNeverDebitedAgain(s: PaymentsState, req: PaymentRequest, ids: NewIds, now: Time, storeFails: bool)
    requires HasOrderTransaction(s.transactions, req.orderId)
    ensures var r := ProcessPayment(s, req, ids, now, storeFails);
      r.state.accounts == s.accounts && r.state.transactions == s.transactions
  {
  }

  /**
   * After a debit for an order, a request for the same order under a new
   * message id (or the same one) debits nothing more.
   */
  lemma SecondRequestForOrderDebitsNothing(s: PaymentsState, req: PaymentRequest, ids: NewIds, now: Time,
                                           req': PaymentRequest, ids': NewIds, now': Time, storeFails': bool)
    requires Schema(s) && FreshFor(s, ids)
    requires !AlreadyHandled(s, req.messageId) && !HasOrderTransaction(s.transactions, req.orderId)
    requires CanDebit(s, req)
    requires req'.orderId == req.orderId
    ensures var s1 := ProcessPayment(s, req, ids, now, false).state;
      var s2 := ProcessPayment(s1, req', ids', now', storeFails').state;
      s2.accounts == s1.accounts && s2.transactions == s1.transactions
  {
    var k := AccountOfUser(s.accounts, req.userId).value;
    DebitIsRecorded(s, req, ids, now, k);
    var s1 := ProcessPayment(s, req, ids, now, false).state;
    assert s1.transactions[|s.transactions|].orderId == Some(req.orderId);
    PaidOrderIsNeverDebitedAgain(s1, req', ids', now', storeFails');
  }

  // ----- Delivery and acknowledgement -----

  /** A nacked delivery has committed nothing, so its redelivery starts afresh. */
  lemma NackedDeliveryCommitsNothing(s: PaymentsState, body: Body<PaymentRequest>, ids: NewIds, now: Time, storeFails: bool)
    ensures var h := OnPaymentRequest(s, body, ids, now, storeFails);
      h.delivery == NackRequeue ==> h.state == s
  {
  }

  /** A delivery is acked only when its payload is null or its message ends processed in the inbox. */
  lemma AckedDeliveryIsProcessed(s: PaymentsState, body: Body<PaymentRequest>, ids: NewIds, now: Time, storeFails: bool)
    requires Schema(s)
    ensures var h := OnPaymentRequest(s, body, ids, now, storeFails);
      h.delivery == Ack ==> body.JsonNull? || (body.Decoded? && AlreadyHandled(h.state, body.message.messageId))
  {
    if body.Decoded? && OnPaymentRequest(s, body, ids, now, storeFails).delivery == Ack {
      RedeliveryIsNoOp(s, body.message, ids, now, storeFails, ids, now, storeFails);
    }
  }

  // ----- Exactly-once effect -----

  /** Whatever it is asked and whatever the store does, one call keeps the ledger settled. */
  lemma ProcessPaymentKeepsSettled(s: PaymentsState, req: PaymentRequest, ids: NewIds, now: Time, storeFails: bool)
    requires Settled(s)
    ensures Settled(ProcessPayment(s, req, ids, now, storeFails).state)
  {
    var debits := !AlreadyHandled(s, req.messageId) && !HasOrderTransaction(s.transactions, req.orderId) && CanDebit(s, req);
    if debits && ProcessPayment(s, req, ids, now, storeFails).outcome.Returned? {
      ReturnedDebitWasFresh(s, req, ids, now, storeFails);
      DebitKeepsSettled(s, req, ids, now, AccountOfUser(s.accounts, req.userId).value);
    } else {
      OnlyDebitChangesLedger(s, req, ids, now, storeFails);
    }
  }

  /** A debit whose save returned had ids that collided with no stored key. */
  lemma ReturnedDebitWasFresh(s: PaymentsState, req: PaymentRequest, ids: NewIds, now: Time, storeFails: bool)
    requires !AlreadyHandled(s, req.messageId) && !HasOrderTransaction(s.transactions, req.orderId) && CanDebit(s, req)
    requires ProcessPayment(s, req, ids, now, storeFails).outcome.Returned?
    ensures !storeFails && FreshFor(s, ids)
  {
    var c := Stage(s, req, ids, now).value;
    assert Rejection(s, c).None?;
  }

  /** A committed debit keeps the schema, every balance equal to its ledger, and one transaction per order. */
  lemma DebitKeepsSettled(s: PaymentsState, req: PaymentRequest, ids: NewIds, now: Time, k: nat)
    requires Settled(s) && FreshFor(s, ids)
    requires !AlreadyHandled(s, req.messageId) && !HasOrderTransaction(s.transactions, req.orderId)
    requires k < |s.accounts| && s.accounts[k].userId == req.userId && s.accounts[k].balance >= req.amount
    ensures Settled(ProcessPayment(s, req, ids, now, false).state)
  {
    DebitIsRecorded(s, req, ids, now, k);
    CommitKeepsSchema(s, Stage(s, req, ids, now).value, false);
    var s' := ProcessPayment(s, req, ids, now, false).state;
    LedgerKeptByEntry(s, s', k, Withdrawal(req, ids, now));
    assert forall i :: 0 <= i < |s.transactions| ==> s.transactions[i].orderId != Some(req.orderId);
  }

  /** Every call but a committed debit leaves the accounts and the ledger as they were, and the schema intact. */
  lemma OnlyDebitChangesLedger(s: PaymentsState, req: PaymentRequest, ids: NewIds, now: Time, storeFails: bool)
    requires Schema(s)
    requires !(!AlreadyHandled(s, req.messageId) && !HasOrderTransaction(s.transactions, req.orderId)
               && CanDebit(s, req) && ProcessPayment(s, req, ids, now, storeFails).outcome.Returned?)
    ensures var r := ProcessPayment(s, req, ids, now, storeFails);
      Schema(r.state) && r.state.accounts == s.accounts && r.state.transactions == s.transactions
  {
    var r := ProcessPayment(s, req, ids, now, storeFails);
    if r.outcome.Returned? && !AlreadyHandled(s, req.messageId) {
      var c := Stage(s, req, ids, now).value;
      assert c.accountModified.None? && c.accountAdded.None? && c.transactionAdded.None?;
      assert r.state == Apply(s, c);
    }
  }

  /** One redelivery attempt: its body, the ids and clock it sees, and whether its save fails. */
  datatype Attempt = Attempt(body: Body<PaymentRequest>, ids: NewIds, now: Time, storeFails: bool)

  /** The tables after the consumer handles the deliveries in turn. */
  function Consume(s: PaymentsState, attempts: seq<Attempt>): PaymentsState
    decreases |attempts|
  {
    if |attempts| == 0 then s
    else
      var a := attempts[0];
      Consume(OnPaymentRequest(s, a.body, a.ids, a.now, a.storeFails).state, attempts[1..])
  }

  /**
   * Exactly-once effect over at-least-once delivery: under any sequence of
   * deliveries, redeliveries and failed saves, no order is debited twice and
   * every balance stays equal to its ledger.
   */
  lemma {:induction false} ConsumeKeepsSettled(s: PaymentsState, attempts: seq<Attempt>)
    requires Settled(s)
    ensures Settled(Consume(s, attempts))
    decreases |attempts|
  {
    if |attempts| > 0 {
      var a := attempts[0];
      if a.body.Decoded? {
        ProcessPaymentKeepsSettled(s, a.body.message, a.ids, a.now, a.storeFails);
      }
      ConsumeKeepsSettled(OnPaymentRequest(s, a.body, a.ids, a.now, a.storeFails).state, attempts[1..]);
    }
  }

  /**
   * The Version token does not serialise two debits of one account: two
   * handlers that read the same tables both commit, the second overwrites
   * the first's balance, and the balance no longer equals the ledger.
   */
  lemma InterleavedDebitsBothCommit(s: PaymentsState, now: Time, k: nat,
                                    req1: PaymentRequest, ids1: NewIds, req2: PaymentRequest, ids2: NewIds)
    requires Schema(s) && LedgerBalanced(s)
    requires req1.messageId !in s.inbox && req2.messageId !in s.inbox && req1.messageId != req2.messageId
    requires !HasOrderTransaction(s.transactions, req1.orderId) && !HasOrderTransaction(s.transactions, req2.orderId)
    requires k < |s.accounts| && s.accounts[k].userId == req1.userId && s.accounts[k].userId == req2.userId
    requires s.accounts[k].balance >= req1.amount && s.accounts[k].balance >= req2.amount
    requires FreshFor(s, ids1) && FreshFor(s, ids2)
    requires ids1.transactionId != ids2.transactionId && ids1.outboxId != ids2.outboxId
    requires req1.amount != 0
    ensures Stage(s, req1, ids1, now).Some? && Stage(s, req2, ids2, now).Some?
    ensures var r1 := Commit(s, Stage(s, req1, ids1, now).value, false);
      var r2 := Commit(r1.state, Stage(s, req2, ids2, now).value, false);
      && r1.outcome == Returned
      && r2.outcome == Returned
      && r2.state.accounts[k].balance == s.accounts[k].balance - req2.amount
      && |r2.state.transactions| == |s.transactions| + 2
      && !LedgerBalanced(r2.state)
  {
    DebitStaged(s, req1, ids1, now, k);
    DebitStaged(s, req2, ids2, now, k);
    var c1 := Stage(s, req1, ids1, now).value;
    var c2 := Stage(s, req2, ids2, now).value;
    StagedChangesAccepted(s, req1, ids1, now);
    var s1 := Apply(s, c1);
    ApplyKeepsSchema(s, c1);
    assert Commit(s, c1, false) == Step(Returned, s1);
    var a := c2.accountModified.value;
    TrackedRowAccepted(s1, k, a);
    assert s1.transactions == s.transactions + [Withdrawal(req1, ids1, now)];
    assert s1.outbox == s.outbox + [PaymentResultRow(req1.orderId, true, PaymentSuccessful, ids1, now)];
    assert req2.messageId !in s1.inbox;
    NoRejection(s1, c2);
    var s2 := Apply(s1, c2);
    assert s2.accounts[k] == a;
    assert s2.transactions == (s.transactions + [Withdrawal(req1, ids1, now)]) + [Withdrawal(req2, ids2, now)];
    BothDebitsInLedger(s, k, Withdrawal(req1, ids1, now), Withdrawal(req2, ids2, now), s2);
  }

  /** The rows staged when account k of the requesting user covers the amount. */
  lemma DebitStaged(s: PaymentsState, req: PaymentRequest, ids: NewIds, now: Time, k: nat)
    requires UserIdsUnique(s.accounts)
    requires !AlreadyHandled(s, req.messageId) && !HasOrderTransaction(s.transactions, req.orderId)
    requires k < |s.accounts| && s.accounts[k].userId == req.userId && s.accounts[k].balance >= req.amount
    ensures Stage(s, req, ids, now) == Some(NoChanges.(
      accountModified := Some(s.accounts[k].(balance := s.accounts[k].balance - req.amount, updatedAt := now)),
      transactionAdded := Some(Withdrawal(req, ids, now)),
      outboxAdded := Some(PaymentResultRow(req.orderId, true, PaymentSuccessful, ids, now)),
      inboxWrite := ProcessedInbox(s.inbox, req, now)))
  {
    var j := AccountOfUser(s.accounts, req.userId).value;
    assert j == k;
  }

  /** Two withdrawals recorded for the user of account k while its balance shows only the second. */
  lemma BothDebitsInLedger(s: PaymentsState, k: nat, w1: Transaction, w2: Transaction, s2: PaymentsState)
    requires LedgerBalanced(s) && k < |s.accounts| && k < |s2.accounts|
    requires w1.userId == s.accounts[k].userId && w2.userId == s.accounts[k].userId
    requires w1.kind == WITHDRAWAL && w2.kind == WITHDRAWAL && w1.amount != 0
    requires s2.transactions == (s.transactions + [w1]) + [w2]
    requires s2.accounts[k].userId == s.accounts[k].userId
    requires s2.accounts[k].balance == s.accounts[k].balance - w2.amount
    ensures !LedgerBalanced(s2)
  {
    var u := s.accounts[k].userId;
    LedgerAppend(s.transactions, w1, u);
    LedgerAppend(s.transactions + [w1], w2, u);
    assert Ledger(s2.transactions, u) == s.accounts[k].balance - w1.amount - w2.amount;
  }
}
