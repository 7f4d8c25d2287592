/**
 * The account endpoints of the payments service (AccountsController):
 * opening an account, depositing into it and reading its balance. Each
 * endpoint validates in a fixed order before it touches the tables.
 */
module AccountsController {
  import opened Common
  import opened PaymentsDb

  const AccountAlreadyExists := "Account already exists"
  const AmountMustBePositive := "Amount must be positive"
  const AccountNotFound := "Account not found"

  /** The bodies of the Ok responses. */
  datatype AccountCreated = AccountCreated(accountId: Guid, balance: Money)
  datatype Deposited = Deposited(balance: Money, transactionId: Guid)
  datatype Balance = Balance(balance: Money)

  /** An endpoint's response together with the tables it leaves. */
  datatype Reply<T> = Reply(response: Response<T>, state: PaymentsState)

  /** The account CreateAccount builds: zero balance, Version 0, both timestamps the clock's. */
  function NewAccount(userId: UserId, accountId: Guid, now: Time): Account {
    Account(accountId, userId, 0, 0, now, now)
  }

  /** The DEPOSIT row a deposit records; it belongs to no order. */
  function DepositRow(userId: UserId, amount: Money, transactionId: Guid, now: Time): Transaction {
    Transaction(transactionId, userId, None, amount, DEPOSIT, now)
  }

  /** POST api/accounts on the tables. */
  function CreateAccountStep(s: PaymentsState, userId: Option<string>, accountId: Guid, now: Time, storeFails: bool)
    : (r: Reply<AccountCreated>)
    ensures !r.response.Ok? ==> r.state == s
    ensures r.response.Ok? ==> !IsNullOrEmpty(userId) && r.state.transactions == s.transactions
  {
    if IsNullOrEmpty(userId) then Reply(BadRequest(UserIdRequired), s)
    else if AccountOfUser(s.accounts, userId.value).Some? then Reply(Conflict(AccountAlreadyExists), s)
    else
      var account := NewAccount(userId.value, accountId, now);
      var saved := Commit(s, NoChanges.(accountAdded := Some(account)), storeFails);
      if saved.outcome.Threw? then Reply(Failed(saved.outcome.error), s)
      else Reply(Ok(AccountCreated(account.id, account.balance)), saved.state)
  }

  /** POST api/accounts/deposit on the tables. */
  function DepositStep(s: PaymentsState, userId: Option<string>, amount: Money, transactionId: Guid, now: Time,
                       storeFails: bool): (r: Reply<Deposited>)
    ensures !r.response.Ok? ==> r.state == s
    ensures r.response.Ok? ==> amount > 0 && |r.state.transactions| == |s.transactions| + 1
  {
    if IsNullOrEmpty(userId) then Reply(BadRequest(UserIdRequired), s)
    else if amount <= 0 then Reply(BadRequest(AmountMustBePositive), s)
    else
      var k := AccountOfUser(s.accounts, userId.value);
      if k.None? then Reply(NotFound(AccountNotFound), s)
      else
        var account := s.accounts[k.value].(balance := s.accounts[k.value].balance + amount, updatedAt := now);
        var deposit := DepositRow(userId.value, amount, transactionId, now);
        var saved := Commit(s, NoChanges.(accountModified := Some(account), transactionAdded := Some(deposit)),
                            storeFails);
        if saved.outcome.Threw? then Reply(Failed(saved.outcome.error), s)
        else Reply(Ok(Deposited(account.balance, deposit.id)), saved.state)
  }

  /** GET api/accounts/balance: a lookup that cannot change the tables. */
  function GetBalance(s: PaymentsState, userId: Option<string>): (r: Response<Balance>)
    ensures IsNullOrEmpty(userId) ==> r == BadRequest(UserIdRequired)
    ensures r.Ok? ==> exists k :: 0 <= k < |s.accounts| && s.accounts[k].userId == userId.value
                                  && s.accounts[k].balance == r.value.balance
    ensures r == NotFound(AccountNotFound)
            <==> !IsNullOrEmpty(userId) && forall k :: 0 <= k < |s.accounts| ==> s.accounts[k].userId != userId.value
    ensures r.Ok? || r == NotFound(AccountNotFound) || r == BadRequest(UserIdRequired)
  {
    if IsNullOrEmpty(userId) then BadRequest(UserIdRequired)
    else
      var k := AccountOfUser(s.accounts, userId.value);
      if k.None? then NotFound(AccountNotFound)
      else Ok(Balance(s.accounts[k.value].balance))
  }

  method CreateAccount(db: PaymentsStore, userId: Option<string>, accountId: Guid, now: Time, storeFails: bool)
    returns (response: Response<AccountCreated>)
    requires db.Valid()
    modifies db
    ensures db.Valid()
    ensures Reply(response, db.State()) == CreateAccountStep(old(db.State()), userId, accountId, now, storeFails)
  {
    if IsNullOrEmpty(userId) {
      return BadRequest(UserIdRequired);
    }
    var existing := AccountOfUser(db.accounts, userId.value);
    if existing.Some? {
      return Conflict(AccountAlreadyExists);
    }
    var account := NewAccount(userId.value, accountId, now);
    var outcome := db.SaveChanges(NoChanges.(accountAdded := Some(account)), storeFails);
    if outcome.Threw? {
      return Failed(outcome.error);
    }
    response := Ok(AccountCreated(account.id, account.balance));
  }

  method Deposit(db: PaymentsStore, userId: Option<string>, amount: Money, transactionId: Guid, now: Time,
                 storeFails: bool) returns (response: Response<Deposited>)
    requires db.Valid()
    modifies db
    ensures db.Valid()
    ensures Reply(response, db.State()) == DepositStep(old(db.State()), userId, amount, transactionId, now, storeFails)
  {
    if IsNullOrEmpty(userId) {
      return BadRequest(UserIdRequired);
    }
    if amount <= 0 {
      return BadRequest(AmountMustBePositive);
    }
    var k := AccountOfUser(db.accounts, userId.value);
    if k.None? {
      return NotFound(AccountNotFound);
    }
    var account := db.accounts[k.value];
    account := account.(balance := account.balance + amount);
    account := account.(updatedAt := now);
    var deposit := DepositRow(userId.value, amount, transactionId, now);
    ghost var s0 := db.State();
    var changes := NoChanges.(accountModified := Some(account), transactionAdded := Some(deposit));
    var outcome := db.SaveChanges(changes, storeFails);
    ghost var saved := Commit(s0, changes, storeFails);
    assert DepositStep(s0, userId, amount, transactionId, now, storeFails)
        == if saved.outcome.Threw? then Reply(Failed(saved.outcome.error), s0)
           else Reply(Ok(Deposited(account.balance, deposit.id)), saved.state);
    if outcome.Threw? {
      return Failed(outcome.error);
    }
    response := Ok(Deposited(account.balance, deposit.id));
  }

  // ----- Properties -----

  /** Without a caller id every endpoint answers BadRequest and writes nothing. */
  lemma MissingUserIsBadRequest(s: PaymentsState, userId: Option<string>, id: Guid, amount: Money, now: Time,
                                storeFails: bool)
    requires IsNullOrEmpty(userId)
    ensures CreateAccountStep(s, userId, id, now, storeFails) == Reply(BadRequest(UserIdRequired), s)
    ensures DepositStep(s, userId, amount, id, now, storeFails) == Reply(BadRequest(UserIdRequired), s)
    ensures GetBalance(s, userId) == BadRequest(UserIdRequired)
  {
  }

  /** A second account for a user is refused with Conflict and nothing is added. */
  lemma ExistingAccountIsConflict(s: PaymentsState, u: UserId, k: nat, accountId: Guid, now: Time, storeFails: bool)
    requires u != "" && k < |s.accounts| && s.accounts[k].userId == u
    ensures CreateAccountStep(s, Some(u), accountId, now, storeFails) == Reply(Conflict(AccountAlreadyExists), s)
  {
  }

  /**
   * A user without an account gets one with zero balance and Version 0, the
   * response carries its id, and the balance endpoint then reports zero.
   */
  lemma NewAccountStartsEmpty(s: PaymentsState, u: UserId, accountId: Guid, now: Time)
    requires Schema(s) && u != ""
    requires forall k :: 0 <= k < |s.accounts| ==> s.accounts[k].userId != u && s.accounts[k].id != accountId
    ensures var r := CreateAccountStep(s, Some(u), accountId, now, false);
      && r.response == Ok(AccountCreated(accountId, 0))
      && r.state == s.(accounts := s.accounts + [Account(accountId, u, 0, 0, now, now)])
      && GetBalance(r.state, Some(u)) == Ok(Balance(0))
  {
    var r := CreateAccountStep(s, Some(u), accountId, now, false);
    assert r.state.accounts[|s.accounts|].userId == u;
    var k := AccountOfUser(r.state.accounts, u).value;
    assert k == |s.accounts|;
  }

  /** The amount is checked before the account: a non-positive deposit is BadRequest even without an account. */
  lemma NonPositiveDepositIsBadRequest(s: PaymentsState, u: UserId, amount: Money, tid: Guid, now: Time,
                                       storeFails: bool)
    requires u != "" && amount <= 0
    ensures DepositStep(s, Some(u), amount, tid, now, storeFails) == Reply(BadRequest(AmountMustBePositive), s)
  {
  }

  lemma DepositWithoutAccountIsNotFound(s: PaymentsState, u: UserId, amount: Money, tid: Guid, now: Time,
                                        storeFails: bool)
    requires u != "" && amount > 0
    requires forall k :: 0 <= k < |s.accounts| ==> s.accounts[k].userId != u
    ensures DepositStep(s, Some(u), amount, tid, now, storeFails) == Reply(NotFound(AccountNotFound), s)
  {
  }

  /**
   * A deposit raises exactly the caller's balance by the amount, appends one
   * DEPOSIT row with no order, reports the new balance, and the balance
   * endpoint then agrees.
   */
  lemma DepositCredits(s: PaymentsState, u: UserId, amount: Money, tid: Guid, now: Time, k: nat)
    requires Schema(s) && u != "" && amount > 0
    requires k < |s.accounts| && s.accounts[k].userId == u
    requires TransactionIdFree(s.transactions, tid)
    ensures var r := DepositStep(s, Some(u), amount, tid, now, false);
      && r.response == Ok(Deposited(s.accounts[k].balance + amount, tid))
      && r.state.accounts == s.accounts[k := s.accounts[k].(balance := s.accounts[k].balance + amount, updatedAt := now)]
      && r.state.transactions == s.transactions + [DepositRow(u, amount, tid, now)]
      && r.state.inbox == s.inbox && r.state.outbox == s.outbox
      && GetBalance(r.state, Some(u)) == Ok(Balance(s.accounts[k].balance + amount))
  {
    var a := s.accounts[k].(balance := s.accounts[k].balance + amount, updatedAt := now);
    TrackedRowAccepted(s, k, a);
    var r := DepositStep(s, Some(u), amount, tid, now, false);
    assert AccountOfUser(s.accounts, u) == Some(k);
    var c := NoChanges.(accountModified := Some(a), transactionAdded := Some(DepositRow(u, amount, tid, now)));
    assert Rejection(s, c).None?;
    ApplyKeepsSchema(s, c);
    assert r.state == Apply(s, c);
    assert AccountOfUser(r.state.accounts, u) == Some(k) by {
      assert r.state.accounts[k].userId == u;
    }
  }

  /** Opening an account keeps every balance equal to its ledger. */
  lemma CreateAccountKeepsLedger(s: PaymentsState, userId: Option<string>, accountId: Guid, now: Time, storeFails: bool)
    requires Schema(s) && LedgerBalanced(s)
    ensures LedgerBalanced(CreateAccountStep(s, userId, accountId, now, storeFails).state)
  {
    var r := CreateAccountStep(s, userId, accountId, now, storeFails);
    if r.response.Ok? {
      var u := userId.value;
      assert r.state.accounts == s.accounts + [NewAccount(u, accountId, now)];
      forall t | 0 <= t < |s.transactions| ensures s.transactions[t].userId != u {
        var j := AccountOfUser(s.accounts, s.transactions[t].userId).value;
      }
      LedgerOfStranger(s.transactions, u);
      forall x | 0 <= x < |r.state.transactions|
        ensures AccountOfUser(r.state.accounts, r.state.transactions[x].userId).Some?
      {
        var j := AccountOfUser(s.accounts, s.transactions[x].userId).value;
        assert r.state.accounts[j] == s.accounts[j];
      }
    }
  }

  /** A deposit keeps every balance equal to its ledger. */
  lemma DepositKeepsLedger(s: PaymentsState, userId: Option<string>, amount: Money, tid: Guid, now: Time,
                           storeFails: bool)
    requires Schema(s) && LedgerBalanced(s)
    ensures LedgerBalanced(DepositStep(s, userId, amount, tid, now, storeFails).state)
  {
    var r := DepositStep(s, userId, amount, tid, now, storeFails);
    if r.response.Ok? {
      var u := userId.value;
      var k := AccountOfUser(s.accounts, u).value;
      var a := s.accounts[k].(balance := s.accounts[k].balance + amount, updatedAt := now);
      TrackedRowAccepted(s, k, a);
      LedgerKeptByEntry(s, r.state, k, DepositRow(u, amount, tid, now));
    }
  }

  /** Opening an account keeps the ledger settled: it writes no transaction. */
  lemma CreateAccountKeepsSettled(s: PaymentsState, userId: Option<string>, accountId: Guid, now: Time,
                                  storeFails: bool)
    requires Settled(s)
    ensures Settled(CreateAccountStep(s, userId, accountId, now, storeFails).state)
  {
    CreateAccountKeepsLedger(s, userId, accountId, now, storeFails);
    if !IsNullOrEmpty(userId) && AccountOfUser(s.accounts, userId.value).None? {
      CommitKeepsSchema(s, NoChanges.(accountAdded := Some(NewAccount(userId.value, accountId, now))), storeFails);
    }
  }

  /** A deposit keeps the ledger settled: the one transaction it writes names no order. */
  lemma DepositKeepsSettled(s: PaymentsState, userId: Option<string>, amount: Money, tid: Guid, now: Time,
                            storeFails: bool)
    requires Settled(s)
    ensures Settled(DepositStep(s, userId, amount, tid, now, storeFails).state)
  {
    DepositKeepsLedger(s, userId, amount, tid, now, storeFails);
    DepositKeepsSchema(s, userId, amount, tid, now, storeFails);
    DepositNamesNoOrder(s, userId, amount, tid, now, storeFails);
  }

  lemma DepositKeepsSchema(s: PaymentsState, userId: Option<string>, amount: Money, tid: Guid, now: Time,
                           storeFails: bool)
    requires Schema(s)
    ensures Schema(DepositStep(s, userId, amount, tid, now, storeFails).state)
  {
    if !IsNullOrEmpty(userId) && amount > 0 && AccountOfUser(s.accounts, userId.value).Some? {
      var u := userId.value;
      var k := AccountOfUser(s.accounts, u).value;
      var a := s.accounts[k].(balance := s.accounts[k].balance + amount, updatedAt := now);
      var c := NoChanges.(accountModified := Some(a), transactionAdded := Some(DepositRow(u, amount, tid, now)));
      CommitKeepsSchema(s, c, storeFails);
      assert DepositStep(s, userId, amount, tid, now, storeFails).state == Commit(s, c, storeFails).state;
    }
  }

  lemma DepositNamesNoOrder(s: PaymentsState, userId: Option<string>, amount: Money, tid: Guid, now: Time,
                            storeFails: bool)
    requires OneTransactionPerOrder(s.transactions)
    ensures OneTransactionPerOrder(DepositStep(s, userId, amount, tid, now, storeFails).state.transactions)
  {
    var r := DepositStep(s, userId, amount, tid, now, storeFails);
    if r.response.Ok? {
      var u := userId.value;
      var t := DepositRow(u, amount, tid, now);
      assert r.state.transactions == s.transactions + [t];
      AppendingNoOrderKeepsOnePerOrder(s.transactions, t);
    }
  }

  lemma AppendingNoOrderKeepsOnePerOrder(ts: seq<Transaction>, t: Transaction)
    requires OneTransactionPerOrder(ts) && t.orderId.None?
    ensures OneTransactionPerOrder(ts + [t])
  {
  }

  /** Where the ledger is balanced, the reported balance is the caller's deposits minus withdrawals. */
  lemma BalanceIsLedger(s: PaymentsState, u: UserId, k: nat)
    requires LedgerBalanced(s) && u != ""
    requires k < |s.accounts| && s.accounts[k].userId == u
    ensures GetBalance(s, Some(u)) == Ok(Balance(Ledger(s.transactions, u)))
  {
  }
}
