/**
 * The payments database (PaymentsDbContext): its four tables, the key,
 * unique-index and concurrency-token constraints of its schema, and
 * SaveChanges as one atomic commit of a staged change set.
 */
module PaymentsDb {
  import opened Common
  import opened Messages
  import opened Seqs

  datatype Account = Account(
    id: Guid,
    userId: UserId,
    balance: Money,
    version: int,      // the concurrency token; no operation of the services assigns it
    createdAt: Time,
    updatedAt: Time)

  datatype TransactionType = DEPOSIT | WITHDRAWAL

  datatype Transaction = Transaction(
    id: Guid,
    userId: UserId,
    orderId: Option<Guid>,
    amount: Money,
    kind: TransactionType,
    createdAt: Time)

  /** An InboxMessages row; its Payload column holds the serialized request. */
  datatype InboxMessage = InboxMessage(
    id: Guid,
    kind: string,
    payload: PaymentRequest,
    processed: bool,
    createdAt: Time,
    processedAt: Option<Time>)

  /** The tables; InboxMessages is keyed by its primary key, the message id. */
  datatype PaymentsState = PaymentsState(
    accounts: seq<Account>,
    transactions: seq<Transaction>,
    inbox: map<Guid, InboxMessage>,
    outbox: seq<OutboxMessage>)

  // ----- Queries -----

  /** Accounts.FirstOrDefault(a => a.UserId == userId), as a position. */
  function AccountOfUser(accounts: seq<Account>, userId: UserId): (r: Option<nat>)
    ensures r.Some? ==> r.value < |accounts| && accounts[r.value].userId == userId
    ensures r.None? <==> forall j :: 0 <= j < |accounts| ==> accounts[j].userId != userId
  {
    FirstIndex(accounts, (a: Account) => a.userId == userId)
  }

  /** The stored row with this primary key, as a position. */
  function AccountWithId(accounts: seq<Account>, id: Guid): (r: Option<nat>)
    ensures r.Some? ==> r.value < |accounts| && accounts[r.value].id == id
    ensures r.None? <==> forall j :: 0 <= j < |accounts| ==> accounts[j].id != id
  {
    FirstIndex(accounts, (a: Account) => a.id == id)
  }

  /** Transactions.FirstOrDefault(t => t.OrderId == orderId) != null */
  predicate HasOrderTransaction(transactions: seq<Transaction>, orderId: Guid) {
    exists i :: 0 <= i < |transactions| && transactions[i].orderId == Some(orderId)
  }

  // ----- Schema constraints -----

  predicate AccountKeysUnique(accounts: seq<Account>) {
    forall i, j :: 0 <= i < j < |accounts| ==> accounts[i].id != accounts[j].id
  }

  /** HasIndex(e => e.UserId).IsUnique() */
  predicate UserIdsUnique(accounts: seq<Account>) {
    forall i, j :: 0 <= i < j < |accounts| ==> accounts[i].userId != accounts[j].userId
  }

  predicate TransactionKeysUnique(transactions: seq<Transaction>) {
    forall i, j :: 0 <= i < j < |transactions| ==> transactions[i].id != transactions[j].id
  }

  predicate TransactionIdFree(transactions: seq<Transaction>, id: Guid) {
    forall i :: 0 <= i < |transactions| ==> transactions[i].id != id
  }

  /** Each inbox row sits under its own primary key, so one row per message id. */
  predicate InboxKeyed(inbox: map<Guid, InboxMessage>) {
    forall id :: id in inbox ==> inbox[id].id == id
  }

  /** The constraints PaymentsDbContext declares, as a state invariant. */
  predicate Schema(s: PaymentsState) {
    && AccountKeysUnique(s.accounts)
    && UserIdsUnique(s.accounts)
    && TransactionKeysUnique(s.transactions)
    && InboxKeyed(s.inbox)
    && OutboxKeysUnique(s.outbox)
  }

  // ----- SaveChanges -----

  /** How the inbox row of a message is staged: added, or a tracked row modified. */
  datatype InboxWrite = NoInboxWrite | InsertInbox(row: InboxMessage) | UpdateInbox(row: InboxMessage)

  /**
   * The rows one SaveChanges writes. A modified account is the tracked row;
   * its Version is the value that was read, since nothing assigns it.
   */
  datatype Changes = Changes(
    accountAdded: Option<Account>,
    accountModified: Option<Account>,
    transactionAdded: Option<Transaction>,
    outboxAdded: Option<OutboxMessage>,
    inboxWrite: InboxWrite)

  const NoChanges := Changes(None, None, None, None, NoInboxWrite)

  /** Some other account already holds a's UserId. */
  predicate UserIdTakenByOther(accounts: seq<Account>, a: Account) {
    exists j :: 0 <= j < |accounts| && accounts[j].id != a.id && accounts[j].userId == a.userId
  }

  /** The modified account's row is stored and carries the Version that was read. */
  predicate VersionMatches(accounts: seq<Account>, a: Account) {
    var i := AccountWithId(accounts, a.id);
    i.Some? && accounts[i.value].version == a.version
  }

  /** The exception SaveChanges throws for these changes, or None when it commits. */
  function Rejection(s: PaymentsState, c: Changes): (r: Option<Error>)
    ensures c.accountModified.Some? && !VersionMatches(s.accounts, c.accountModified.value)
            ==> r == Some(ConcurrencyConflict)
    ensures r.None? ==> c.accountModified.Some? ==> VersionMatches(s.accounts, c.accountModified.value)
  {
    if c.accountModified.Some? && !VersionMatches(s.accounts, c.accountModified.value) then
      Some(ConcurrencyConflict)
    else if c.inboxWrite.UpdateInbox? && c.inboxWrite.row.id !in s.inbox then
      Some(ConcurrencyConflict)
    else if c.accountModified.Some? && UserIdTakenByOther(s.accounts, c.accountModified.value) then
      Some(KeyViolation)
    else if c.accountAdded.Some?
      && (AccountWithId(s.accounts, c.accountAdded.value.id).Some?
          || AccountOfUser(s.accounts, c.accountAdded.value.userId).Some?
          || (c.accountModified.Some? && c.accountModified.value.userId == c.accountAdded.value.userId)) then
      Some(KeyViolation)
    else if c.transactionAdded.Some? && !TransactionIdFree(s.transactions, c.transactionAdded.value.id) then
      Some(KeyViolation)
    else if c.outboxAdded.Some? && !OutboxIdFree(s.outbox, c.outboxAdded.value.id) then
      Some(KeyViolation)
    else if c.inboxWrite.InsertInbox? && c.inboxWrite.row.id in s.inbox then
      Some(KeyViolation)
    else
      None
  }

  /** Changes that add no account, and whose every row passes its check, are accepted. */
  lemma NoRejection(s: PaymentsState, c: Changes)
    requires c.accountAdded.None?
    requires c.accountModified.Some? ==>
      VersionMatches(s.accounts, c.accountModified.value) && !UserIdTakenByOther(s.accounts, c.accountModified.value)
    requires c.transactionAdded.Some? ==> TransactionIdFree(s.transactions, c.transactionAdded.value.id)
    requires c.outboxAdded.Some? ==> OutboxIdFree(s.outbox, c.outboxAdded.value.id)
    requires c.inboxWrite.InsertInbox? ==> c.inboxWrite.row.id !in s.inbox
    requires c.inboxWrite.UpdateInbox? ==> c.inboxWrite.row.id in s.inbox
    ensures Rejection(s, c).None?
  {
  }

  /** The tables after the staged rows are written. */
  function Apply(s: PaymentsState, c: Changes): PaymentsState
    requires Rejection(s, c).None?
  {
    var accounts :=
      if c.accountModified.Some?
      then s.accounts[AccountWithId(s.accounts, c.accountModified.value.id).value := c.accountModified.value]
      else s.accounts;
    var inbox :=
      match c.inboxWrite
      case NoInboxWrite => s.inbox
      case InsertInbox(row) => s.inbox[row.id := row]
      case UpdateInbox(row) => s.inbox[row.id := row];
    PaymentsState(
      accounts + Optional(c.accountAdded),
      s.transactions + Optional(c.transactionAdded),
      inbox,
      s.outbox + Optional(c.outboxAdded))
  }

  /** The outcome of a call together with the tables it leaves. */
  datatype Step = Step(outcome: Outcome, state: PaymentsState)

  /** Every stored account keeps its place, its key and its Version. */
  ghost predicate VersionsKept(s: PaymentsState, s': PaymentsState) {
    && |s.accounts| <= |s'.accounts|
    && forall i :: 0 <= i < |s.accounts| ==>
         s'.accounts[i].id == s.accounts[i].id && s'.accounts[i].version == s.accounts[i].version
  }

  /**
   * SaveChanges: either every staged row is written, or it throws and
   * nothing is. A committed save keeps the schema constraints and never
   * changes a stored Version.
   */
  function Commit(s: PaymentsState, c: Changes, storeFails: bool): (r: Step)
    ensures r.outcome.Threw? ==> r.state == s
    ensures r.outcome.Returned? <==> !storeFails && Rejection(s, c).None?
    ensures r.outcome.Returned? ==> r.state == Apply(s, c)
  {
    if storeFails then Step(Threw(StoreFailure), s)
    else match Rejection(s, c)
      case Some(e) => Step(Threw(e), s)
      case None => Step(Returned, Apply(s, c))
  }

  /** A save keeps the schema constraints, and never moves a stored account or changes its Version. */
  lemma CommitKeepsSchema(s: PaymentsState, c: Changes, storeFails: bool)
    requires Schema(s)
    ensures Schema(Commit(s, c, storeFails).state)
    ensures VersionsKept(s, Commit(s, c, storeFails).state)
  {
    if !storeFails && Rejection(s, c).None? {
      ApplyKeepsSchema(s, c);
    }
  }

  lemma ApplyKeepsSchema(s: PaymentsState, c: Changes)
    requires Rejection(s, c).None?
    ensures Schema(s) ==> Schema(Apply(s, c))
    ensures VersionsKept(s, Apply(s, c))
  {
    var accounts :=
      if c.accountModified.Some?
      then s.accounts[AccountWithId(s.accounts, c.accountModified.value.id).value := c.accountModified.value]
      else s.accounts;
    assert Apply(s, c).accounts == accounts + Optional(c.accountAdded);
    if c.accountModified.Some? {
      var a := c.accountModified.value;
      var k := AccountWithId(s.accounts, a.id).value;
      assert VersionMatches(s.accounts, a);
      if Schema(s) {
        assert !UserIdTakenByOther(s.accounts, a);
        ModifiedAccountKeepsKeys(s.accounts, k, a);
      }
    }
    if Schema(s) {
      if c.accountAdded.Some? {
        var a := c.accountAdded.value;
        assert AccountWithId(s.accounts, a.id).None? && AccountOfUser(s.accounts, a.userId).None?;
        assert forall j :: 0 <= j < |accounts| ==> accounts[j].id != a.id && accounts[j].userId != a.userId;
      }
      AddedAccountKeepsKeys(accounts, c.accountAdded);
      AddedTransactionKeepsKeys(s.transactions, c.transactionAdded);
      AddedOutboxKeepsKeys(s.outbox, c.outboxAdded);
    }
  }

  /** A tracked account written back under its own key, with a UserId nobody else holds. */
  lemma ModifiedAccountKeepsKeys(accounts: seq<Account>, k: nat, a: Account)
    requires AccountKeysUnique(accounts) && UserIdsUnique(accounts)
    requires k < |accounts| && accounts[k].id == a.id
    requires !UserIdTakenByOther(accounts, a)
    ensures AccountKeysUnique(accounts[k := a]) && UserIdsUnique(accounts[k := a])
  {
    var accounts' := accounts[k := a];
    forall i, j | 0 <= i < j < |accounts'|
      ensures accounts'[i].userId != accounts'[j].userId
    {
      if i == k {
        assert accounts[j].id != a.id;
      } else if j == k {
        assert accounts[i].id != a.id;
      }
    }
  }

  lemma AddedAccountKeepsKeys(accounts: seq<Account>, added: Option<Account>)
    requires AccountKeysUnique(accounts) && UserIdsUnique(accounts)
    requires added.Some? ==>
      forall j :: 0 <= j < |accounts| ==> accounts[j].id != added.value.id && accounts[j].userId != added.value.userId
    ensures AccountKeysUnique(accounts + Optional(added)) && UserIdsUnique(accounts + Optional(added))
  {
  }

  lemma AddedTransactionKeepsKeys(transactions: seq<Transaction>, added: Option<Transaction>)
    requires TransactionKeysUnique(transactions)
    requires added.Some? ==> TransactionIdFree(transactions, added.value.id)
    ensures TransactionKeysUnique(transactions + Optional(added))
  {
  }

  // ----- The ledger -----

  /** What a transaction adds to its user's balance. */
  function Delta(t: Transaction): Money {
    if t.kind == DEPOSIT then t.amount else -t.amount
  }

  /** The sum of the user's deposits minus the sum of the user's withdrawals. */
  function Ledger(transactions: seq<Transaction>, userId: UserId): Money {
    if |transactions| == 0 then 0
    else
      var last := transactions[|transactions| - 1];
      Ledger(transactions[..|transactions| - 1], userId) + (if last.userId == userId then Delta(last) else 0)
  }

  lemma {:induction false} LedgerAppend(transactions: seq<Transaction>, t: Transaction, userId: UserId)
    ensures Ledger(transactions + [t], userId)
         == Ledger(transactions, userId) + (if t.userId == userId then Delta(t) else 0)
  {
    assert (transactions + [t])[..|transactions|] == transactions;
  }

  /**
   * Every transaction belongs to a user who has an account, and every
   * balance equals its user's ledger.
   */
  ghost predicate LedgerBalanced(s: PaymentsState) {
    && (forall t :: 0 <= t < |s.transactions|
          ==> AccountOfUser(s.accounts, s.transactions[t].userId).Some?)
    && (forall i :: 0 <= i < |s.accounts|
          ==> s.accounts[i].balance == Ledger(s.transactions, s.accounts[i].userId))
  }

  /** A user nobody has recorded a transaction for has a zero ledger. */
  lemma {:induction false} LedgerOfStranger(transactions: seq<Transaction>, userId: UserId)
    requires forall t :: 0 <= t < |transactions| ==> transactions[t].userId != userId
    ensures Ledger(transactions, userId) == 0
  {
    if |transactions| > 0 {
      LedgerOfStranger(transactions[..|transactions| - 1], userId);
    }
  }

  /**
   * Recording one transaction t for the user of account k, while changing
   * that balance by exactly Delta(t) and no other balance or user, keeps
   * every balance equal to its ledger.
   */
  lemma LedgerKeptByEntry(s: PaymentsState, s': PaymentsState, k: nat, t: Transaction)
    requires UserIdsUnique(s.accounts) && LedgerBalanced(s)
    requires k < |s.accounts| == |s'.accounts|
    requires t.userId == s.accounts[k].userId
    requires s'.transactions == s.transactions + [t]
    requires forall j :: 0 <= j < |s.accounts| ==> s'.accounts[j].userId == s.accounts[j].userId
    requires s'.accounts[k].balance == s.accounts[k].balance + Delta(t)
    requires forall j :: 0 <= j < |s.accounts| && j != k ==> s'.accounts[j].balance == s.accounts[j].balance
    ensures LedgerBalanced(s')
  {
    forall i | 0 <= i < |s'.accounts|
      ensures s'.accounts[i].balance == Ledger(s'.transactions, s'.accounts[i].userId)
    {
      LedgerAppend(s.transactions, t, s.accounts[i].userId);
    }
    forall x | 0 <= x < |s'.transactions|
      ensures AccountOfUser(s'.accounts, s'.transactions[x].userId).Some?
    {
      var u := s'.transactions[x].userId;
      if x < |s.transactions| {
        assert s'.transactions[x] == s.transactions[x];
        var j := AccountOfUser(s.accounts, u).value;
        assert s'.accounts[j].userId == u;
      } else {
        assert s'.accounts[k].userId == u;
      }
    }
  }

  /** Withdrawals for one order are recorded at most once. */
  ghost predicate OneTransactionPerOrder(transactions: seq<Transaction>) {
    forall i, j :: 0 <= i < j < |transactions| && transactions[i].orderId.Some?
      ==> transactions[i].orderId != transactions[j].orderId
  }

  /** The ledger invariants every write keeps: schema, balances equal ledgers, one transaction per order. */
  ghost predicate Settled(s: PaymentsState) {
    Schema(s) && LedgerBalanced(s) && OneTransactionPerOrder(s.transactions)
  }

  /**
   * A tracked account written back with its own key, UserId and Version is
   * accepted by the concurrency check and by the unique index.
   */
  lemma TrackedRowAccepted(s: PaymentsState, k: nat, a: Account)
    requires Schema(s) && k < |s.accounts|
    requires a.id == s.accounts[k].id && a.userId == s.accounts[k].userId && a.version == s.accounts[k].version
    ensures AccountWithId(s.accounts, a.id) == Some(k)
    ensures VersionMatches(s.accounts, a) && !UserIdTakenByOther(s.accounts, a)
  {
    var j := AccountWithId(s.accounts, a.id).value;
    assert j == k;
  }

  /**
   * The OrderId index is not unique: the store accepts a transaction under
   * a fresh key whatever order it names, a second withdrawal for an order
   * included. Only the handler's lookup keeps one transaction per order.
   */
  lemma OrderIdIndexNotUnique(s: PaymentsState, t: Transaction)
    requires Schema(s) && TransactionIdFree(s.transactions, t.id)
    ensures var r := Commit(s, NoChanges.(transactionAdded := Some(t)), false);
      && r.outcome == Returned
      && r.state == s.(transactions := s.transactions + [t])
      && Schema(r.state)
  {
    CommitKeepsSchema(s, NoChanges.(transactionAdded := Some(t)), false);
  }

  /** The tables of the payments database, updated in place by its callers. */
  class PaymentsStore {
    var accounts: seq<Account>
    var transactions: seq<Transaction>
    var inbox: map<Guid, InboxMessage>
    var outbox: seq<OutboxMessage>

    function State(): PaymentsState
      reads this
    {
      PaymentsState(accounts, transactions, inbox, outbox)
    }

    ghost predicate Valid()
      reads this
    {
      Schema(State())
    }

    constructor ()
      ensures Valid()
      ensures State() == PaymentsState([], [], map[], [])
    {
      accounts, transactions, inbox, outbox := [], [], map[], [];
    }

    /** SaveChangesAsync: writes every staged row, or throws and writes none. */
    method SaveChanges(c: Changes, storeFails: bool) returns (o: Outcome)
      requires Valid()
      modifies this
      ensures Valid()
      ensures Step(o, State()) == Commit(old(State()), c, storeFails)
    {
      if storeFails {
        return Threw(StoreFailure);
      }
      var rejection := Rejection(State(), c);
      if rejection.Some? {
        assert Commit(State(), c, storeFails) == Step(Threw(rejection.value), State());
        return Threw(rejection.value);
      }
      ghost var before := State();
      if c.accountModified.Some? {
        var k := AccountWithId(accounts, c.accountModified.value.id).value;
        accounts := accounts[k := c.accountModified.value];
      }
      accounts := accounts + Optional(c.accountAdded);
      transactions := transactions + Optional(c.transactionAdded);
      outbox := outbox + Optional(c.outboxAdded);
      if c.inboxWrite.InsertInbox? || c.inboxWrite.UpdateInbox? {
        inbox := inbox[c.inboxWrite.row.id := c.inboxWrite.row];
      }
      o := Returned;
      assert State() == Apply(before, c);
      ApplyKeepsSchema(before, c);
      assert Commit(before, c, storeFails) == Step(Returned, Apply(before, c));
    }
  }
}
