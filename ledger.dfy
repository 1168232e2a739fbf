/**
 * backend/auth.js: the admin-only `/fake-transfer` that debits one account,
 * credits another and logs a `completed` transaction; `/register` with its
 * duplicate-email check and zero balances; and the account summaries that
 * `/login` and `/accounts` return.
 *
 * The two accounts of a transfer are loaded separately and saved one after
 * the other, so the model keeps the two writes apart: when both e-mails name
 * the same account the second write (the credit) is the one that remains.
 */
module Ledger {
  import opened Common
  import opened Models
  import Decimal

  /** A record of backend/transaction.js. */
  datatype Transaction = Transaction(from: string, to: string, amount: int, date: int, status: string)

  /** The `Transaction` collection. */
  class TransactionLog {
    var entries: seq<Transaction>

    constructor (entries: seq<Transaction>)
      ensures this.entries == entries
    {
      this.entries := entries;
    }
  }

  /** The two collections a transfer touches. */
  datatype Books = Books(users: seq<User>, log: seq<Transaction>)

  /** The sum of all stored balances. */
  function TotalBalance(users: seq<User>): int
  {
    if users == [] then 0 else users[0].balance + TotalBalance(users[1..])
  }

  /** Replacing one account changes the total by exactly the change of its balance. */
  lemma {:induction false} TotalBalanceUpdate(users: seq<User>, i: nat, u: User)
    requires i < |users|
    ensures TotalBalance(users[i := u]) == TotalBalance(users) - users[i].balance + u.balance
  {
    if i > 0 {
      assert users[i := u][1..] == users[1..][i - 1 := u];
      TotalBalanceUpdate(users[1..], i - 1, u);
    } else {
      assert users[i := u][1..] == users[1..];
    }
  }

  // ---------------------------------------------------------------------
  // POST /fake-transfer
  // ---------------------------------------------------------------------

  /** The request body `{ fromEmail, toEmail, amount }`. */
  datatype TransferRequest = TransferRequest(fromEmail: Option<string>, toEmail: Option<string>, amount: Option<int>)

  datatype Reply =
    | Transferred(fromBalance: int, toBalance: int, transaction: Transaction)
    | Refused(status: int, error: string)

  /** `!fromEmail || !toEmail || !amount` is false. */
  predicate HasRequiredFields(req: TransferRequest)
  {
    Truthy(req.fromEmail) && Truthy(req.toEmail) && NonZero(req.amount)
  }

  /** The fake transfer as a step from the stored books to the reply and the new books. */
  function FakeTransfer(books: Books, req: TransferRequest, date: int): (Reply, Books)
  {
    if !HasRequiredFields(req) then (Refused(400, "Missing required fields"), books)
    else
      var amount := req.amount.value;
      var fromIx := FindByEmail(books.users, req.fromEmail.value);
      var toIx := FindByEmail(books.users, req.toEmail.value);
      if fromIx.None? || toIx.None? then (Refused(404, "Account not found"), books)
      else
        var from, to := books.users[fromIx.value], books.users[toIx.value];
        if from.role != Admin then (Refused(403, "Only admin can transfer"), books)
        else if from.balance < amount then (Refused(400, "Insufficient funds"), books)
        else
          var debited := from.(balance := from.balance - amount);
          var credited := to.(balance := to.balance + amount);
          var users := books.users[fromIx.value := debited][toIx.value := credited];
          var tx := Transaction(from.fullName, to.fullName, amount, date, "completed");
          (Transferred(debited.balance, credited.balance, tx), Books(users, books.log + [tx]))
  }

  /** The handler, step by step as the route does it: load both, check, save each, log. */
  method FakeTransferHandler(db: UserCollection, log: TransactionLog, req: TransferRequest, date: int)
    returns (reply: Reply)
    modifies db, log
    ensures (reply, Books(db.users, log.entries)) == FakeTransfer(Books(old(db.users), old(log.entries)), req, date)
  {
    if !HasRequiredFields(req) {
      return Refused(400, "Missing required fields");
    }
    var amount := req.amount.value;
    var fromIx := FindByEmail(db.users, req.fromEmail.value);
    var toIx := FindByEmail(db.users, req.toEmail.value);
    if fromIx.None? || toIx.None? {
      return Refused(404, "Account not found");
    }
    var from, to := db.users[fromIx.value], db.users[toIx.value];
    if from.role != Admin {
      return Refused(403, "Only admin can transfer");
    }
    if from.balance < amount {
      return Refused(400, "Insufficient funds");
    }
    from := from.(balance := from.balance - amount);
    to := to.(balance := to.balance + amount);
    db.users := db.users[fromIx.value := from];
    db.users := db.users[toIx.value := to];
    var tx := Transaction(from.fullName, to.fullName, amount, date, "completed");
    log.entries := log.entries + [tx];
    reply := Transferred(from.balance, to.balance, tx);
  }

  /**
   * The checks come in the source's order, and the transfer goes through
   * exactly when all of them pass; no positivity of the amount is required.
   */
  lemma FakeTransferChecks(books: Books, req: TransferRequest, date: int)
    ensures var (reply, _) := FakeTransfer(books, req, date);
      && (!HasRequiredFields(req) ==> reply == Refused(400, "Missing required fields"))
      && (HasRequiredFields(req) &&
          (FindByEmail(books.users, req.fromEmail.value).None? || FindByEmail(books.users, req.toEmail.value).None?)
          ==> reply == Refused(404, "Account not found"))
      && (reply.Transferred? <==>
          && HasRequiredFields(req)
          && FindByEmail(books.users, req.fromEmail.value).Some?
          && FindByEmail(books.users, req.toEmail.value).Some?
          && books.users[FindByEmail(books.users, req.fromEmail.value).value].role == Admin
          && books.users[FindByEmail(books.users, req.fromEmail.value).value].balance >= req.amount.value)
  {
  }

  /** A source account that is not an admin is refused with 403. */
  lemma OnlyAdminMayTransfer(books: Books, req: TransferRequest, date: int, i: nat)
    requires HasRequiredFields(req) && FindByEmail(books.users, req.toEmail.value).Some?
    requires FindByEmail(books.users, req.fromEmail.value) == Some(i)
    requires books.users[i].role != Admin
    ensures FakeTransfer(books, req, date).0 == Refused(403, "Only admin can transfer")
  {
  }

  /** Every refusal leaves both collections as they were: no balance moves and nothing is logged. */
  lemma RefusalChangesNothing(books: Books, req: TransferRequest, date: int)
    ensures FakeTransfer(books, req, date).0.Refused? ==> FakeTransfer(books, req, date).1 == books
  {
  }

  /**
   * A transfer between two different e-mails debits the source by exactly the
   * amount, credits the destination by exactly the amount, leaves every other
   * account and every availableBalance untouched, and appends exactly one
   * completed transaction.
   */
  lemma TransferMovesExactlyAmount(books: Books, req: TransferRequest, date: int)
    requires FakeTransfer(books, req, date).0.Transferred?
    requires req.fromEmail != req.toEmail
    ensures var (reply, after) := FakeTransfer(books, req, date);
      var i := FindByEmail(books.users, req.fromEmail.value).value;
      var j := FindByEmail(books.users, req.toEmail.value).value;
      var amount := req.amount.value;
      && i != j
      && |after.users| == |books.users|
      && after.users[i] == books.users[i].(balance := books.users[i].balance - amount)
      && after.users[j] == books.users[j].(balance := books.users[j].balance + amount)
      && (forall k :: 0 <= k < |books.users| && k != i && k != j ==> after.users[k] == books.users[k])
      && (forall k :: 0 <= k < |books.users| ==> after.users[k].availableBalance == books.users[k].availableBalance)
      && after.log == books.log + [Transaction(books.users[i].fullName, books.users[j].fullName, amount, date, "completed")]
      && reply.fromBalance == after.users[i].balance && reply.toBalance == after.users[j].balance
  {
  }

  /** The users after a transfer: the debited source, then the credited destination, saved in turn. */
  lemma TransferredUsers(books: Books, req: TransferRequest, date: int)
    requires FakeTransfer(books, req, date).0.Transferred?
    ensures var i := FindByEmail(books.users, req.fromEmail.value).value;
      var j := FindByEmail(books.users, req.toEmail.value).value;
      var amount := req.amount.value;
      && i < |books.users| && j < |books.users|
      && FakeTransfer(books, req, date).1.users ==
           books.users[i := books.users[i].(balance := books.users[i].balance - amount)]
                      [j := books.users[j].(balance := books.users[j].balance + amount)]
  {
  }

  /** Moving `amount` from one position to another keeps the sum. */
  lemma TotalBalanceMove(users: seq<User>, i: nat, j: nat, amount: int)
    requires i < |users| && j < |users| && i != j
    ensures TotalBalance(users[i := users[i].(balance := users[i].balance - amount)]
                              [j := users[j].(balance := users[j].balance + amount)])
         == TotalBalance(users)
  {
    var mid := users[i := users[i].(balance := users[i].balance - amount)];
    TotalBalanceUpdate(users, i, mid[i]);
    assert mid[j] == users[j];
    TotalBalanceUpdate(mid, j, users[j].(balance := users[j].balance + amount));
  }

  /** A transfer between two different accounts preserves the sum of all balances. */
  lemma TransferConservesTotal(books: Books, req: TransferRequest, date: int)
    requires FakeTransfer(books, req, date).0.Transferred?
    requires req.fromEmail != req.toEmail
    ensures TotalBalance(FakeTransfer(books, req, date).1.users) == TotalBalance(books.users)
  {
    TransferredUsers(books, req, date);
    var i := FindByEmail(books.users, req.fromEmail.value).value;
    var j := FindByEmail(books.users, req.toEmail.value).value;
    assert books.users[i].email == req.fromEmail.value && books.users[j].email == req.toEmail.value;
    TotalBalanceMove(books.users, i, j, req.amount.value);
  }

  /** Moving the whole balance is allowed and leaves the source at zero. */
  lemma WholeBalanceLeavesZero(books: Books, req: TransferRequest, date: int, i: nat)
    requires HasRequiredFields(req) && req.fromEmail != req.toEmail
    requires FindByEmail(books.users, req.toEmail.value).Some?
    requires FindByEmail(books.users, req.fromEmail.value) == Some(i)
    requires books.users[i].role == Admin && books.users[i].balance == req.amount.value
    ensures var (reply, after) := FakeTransfer(books, req, date);
      reply.Transferred? && after.users[i].balance == 0 && reply.fromBalance == 0
  {
  }

  /**
   * When both e-mails name one account, the credit is saved last over the
   * debit, so that account ends `amount` richer and the total grows by `amount`.
   */
  lemma SelfTransferKeepsTheCredit(books: Books, req: TransferRequest, date: int)
    requires FakeTransfer(books, req, date).0.Transferred?
    requires req.fromEmail == req.toEmail
    ensures var i := FindByEmail(books.users, req.fromEmail.value).value;
      var after := FakeTransfer(books, req, date).1;
      && after.users[i].balance == books.users[i].balance + req.amount.value
      && TotalBalance(after.users) == TotalBalance(books.users) + req.amount.value
  {
    var i := FindByEmail(books.users, req.fromEmail.value).value;
    var from := books.users[i];
    var credited := from.(balance := from.balance + req.amount.value);
    assert books.users[i := from.(balance := from.balance - req.amount.value)][i := credited]
        == books.users[i := credited];
    TotalBalanceUpdate(books.users, i, credited);
  }

  // ---------------------------------------------------------------------
  // POST /register
  // ---------------------------------------------------------------------

  datatype RegisterReply = Registered(user: User) | RegisterRefused(status: int, error: string)

  /** `Math.floor(Math.random() * 1e16).toString()` for a draw `0 <= rand < 1`. */
  function RandomAccountNumber(rand: real): (r: string)
    requires 0.0 <= rand < 1.0
    ensures 1 <= |r| <= 16 && Decimal.AllDigits(r)
  {
    var n: nat := (rand * 10000000000000000.0).Floor;
    assert n < 10000000000000000;
    Decimal.Pow10Sixteen();
    Decimal.ShowLengthAtMost(n, 16);
    Decimal.Show(n)
  }

  /**
   * The account `/register` builds: the given name, e-mail, hashed password
   * and account type (the schema default `checking` when absent), a random
   * account number, zero balances, role `user`, not seeded; every other
   * field keeps its schema default.
   */
  function NewAccount(id: nat, routing: string, fullName: string, email: string, passwordHash: string,
                      accountType: Option<AccountType>, rand: real): (u: User)
    requires 0.0 <= rand < 1.0
    ensures u.balance == 0 && u.availableBalance == 0 && u.role == RegularUser && !u.isSeeded
    ensures u.email == email && u.fullName == fullName && u.passwordHash == passwordHash
    ensures u.accountType == (if accountType.Some? then accountType.value else Checking)
    ensures u.kycStatus == KycStatus.Pending && !u.isVerified && u.accountStatus == Inactive
  {
    DefaultUser(id, routing).(
      fullName := fullName, email := email, passwordHash := passwordHash,
      accountType := if accountType.Some? then accountType.value else Checking,
      accountNumber := RandomAccountNumber(rand),
      balance := 0, availableBalance := 0, role := RegularUser, isSeeded := false)
  }

  function Register(users: seq<User>, id: nat, routing: string, fullName: string, email: string,
                    password: string, accountType: Option<AccountType>, rand: real,
                    hash: string -> string): (RegisterReply, seq<User>)
    requires 0.0 <= rand < 1.0
  {
    if FindByEmail(users, email).Some? then (RegisterRefused(400, "User already exists"), users)
    else
      var user := NewAccount(id, routing, fullName, email, hash(password), accountType, rand);
      (Registered(user), users + [user])
  }

  method RegisterHandler(db: UserCollection, id: nat, routing: string, fullName: string, email: string,
                         password: string, accountType: Option<AccountType>, rand: real,
                         hash: string -> string) returns (reply: RegisterReply)
    requires 0.0 <= rand < 1.0
    modifies db
    ensures (reply, db.users) == Register(old(db.users), id, routing, fullName, email, password, accountType, rand, hash)
  {
    var existing := FindByEmail(db.users, email);
    if existing.Some? {
      return RegisterRefused(400, "User already exists");
    }
    var hashed := hash(password);
    var newUser := NewAccount(id, routing, fullName, email, hashed, accountType, rand);
    db.users := db.users + [newUser];
    reply := Registered(newUser);
  }

  /**
   * An e-mail that is already stored is refused and nothing is stored;
   * otherwise exactly the new account is appended, and an e-mail that was
   * unique stays unique.
   */
  lemma RegisterKeepsEmailsUnique(users: seq<User>, id: nat, routing: string, fullName: string, email: string,
                                  password: string, accountType: Option<AccountType>, rand: real,
                                  hash: string -> string)
    requires 0.0 <= rand < 1.0
    requires forall a, b :: 0 <= a < b < |users| ==> users[a].email != users[b].email
    ensures var (reply, after) := Register(users, id, routing, fullName, email, password, accountType, rand, hash);
      && (reply.RegisterRefused? <==> exists k :: 0 <= k < |users| && users[k].email == email)
      && (reply.RegisterRefused? ==> after == users)
      && (reply.Registered? ==> after == users + [reply.user] && reply.user.balance == 0)
      && (forall a, b :: 0 <= a < b < |after| ==> after[a].email != after[b].email)
  {
  }

  // ---------------------------------------------------------------------
  // POST /login and GET /accounts: the account summaries
  // ---------------------------------------------------------------------

  datatype AccountSummary = AccountSummary(
    fullName: string, email: string, accountType: AccountType, accountNumber: string,
    balance: int, availableBalance: int)

  function Summary(u: User): AccountSummary
  {
    AccountSummary(u.fullName, u.email, u.accountType, u.accountNumber, u.balance, u.availableBalance)
  }

  /** `User.find({ isSeeded: true })` followed by `accounts.map(acc => ({ ... }))`. */
  function SeededSummaries(users: seq<User>): (r: seq<AccountSummary>)
    ensures |r| <= |users|
  {
    if users == [] then []
    else (if users[0].isSeeded then [Summary(users[0])] else []) + SeededSummaries(users[1..])
  }

  /** The listing holds exactly the summaries of the seeded accounts, with their stored balances. */
  lemma {:induction false} SeededSummariesExact(users: seq<User>, v: AccountSummary)
    ensures v in SeededSummaries(users) <==> exists k :: 0 <= k < |users| && users[k].isSeeded && Summary(users[k]) == v
  {
    if users != [] {
      SeededSummariesExact(users[1..], v);
      if v in SeededSummaries(users[1..]) {
        var k :| 0 <= k < |users[1..]| && users[1..][k].isSeeded && Summary(users[1..][k]) == v;
        assert users[k + 1] == users[1..][k];
      }
      if exists k :: 0 <= k < |users| && users[k].isSeeded && Summary(users[k]) == v {
        var k :| 0 <= k < |users| && users[k].isSeeded && Summary(users[k]) == v;
        if k > 0 {
          assert users[1..][k - 1] == users[k];
        }
      }
    }
  }

  datatype LoginReply =
    | LoginRefused(status: int, error: string)
    | AdminLogin(admin: AccountSummary, accounts: seq<AccountSummary>)
    | UserLogin(profile: AccountSummary)

  /** `/login`: find by e-mail, compare the password, then answer by role. */
  function Login(users: seq<User>, email: string, password: string, compare: (string, string) -> bool): (r: LoginReply)
    ensures r.AdminLogin? || r.UserLogin? <==>
      FindByEmail(users, email).Some? && compare(password, users[FindByEmail(users, email).value].passwordHash)
    ensures r.AdminLogin? ==> users[FindByEmail(users, email).value].role == Admin
  {
    match FindByEmail(users, email)
    case None => LoginRefused(404, "User not found")
    case Some(i) =>
      if !compare(password, users[i].passwordHash) then LoginRefused(401, "Invalid credentials")
      else if users[i].role == Admin then AdminLogin(Summary(users[i]), SeededSummaries(users))
      else UserLogin(Summary(users[i]))
  }

  /**
   * What each login attempt is answered with: an unknown e-mail gets 404, a
   * wrong password for the first account with that e-mail gets 401, an
   * admin gets its own summary with the listing of the seeded accounts, and
   * anyone else gets only its own summary.
   */
  lemma LoginReplies(users: seq<User>, email: string, password: string, compare: (string, string) -> bool)
    ensures (forall k :: 0 <= k < |users| ==> users[k].email != email) ==>
      Login(users, email, password, compare) == LoginRefused(404, "User not found")
    ensures forall i :: 0 <= i < |users| && users[i].email == email &&
                        (forall k :: 0 <= k < i ==> users[k].email != email) ==>
      var r := Login(users, email, password, compare);
      && (!compare(password, users[i].passwordHash) ==> r == LoginRefused(401, "Invalid credentials"))
      && (compare(password, users[i].passwordHash) && users[i].role == Admin ==>
            r == AdminLogin(Summary(users[i]), SeededSummaries(users)))
      && (compare(password, users[i].passwordHash) && users[i].role != Admin ==>
            r == UserLogin(Summary(users[i])))
  {
    forall i | 0 <= i < |users| && users[i].email == email && (forall k :: 0 <= k < i ==> users[k].email != email)
      ensures var r := Login(users, email, password, compare);
        && (!compare(password, users[i].passwordHash) ==> r == LoginRefused(401, "Invalid credentials"))
        && (compare(password, users[i].passwordHash) && users[i].role == Admin ==>
              r == AdminLogin(Summary(users[i]), SeededSummaries(users)))
        && (compare(password, users[i].passwordHash) && users[i].role != Admin ==>
              r == UserLogin(Summary(users[i])))
    {
      FindByEmailFirst(users, email, i);
    }
  }

  /** The first account holding an e-mail is the one `findOne({ email })` returns. */
  lemma FindByEmailFirst(users: seq<User>, email: string, i: nat)
    requires i < |users| && users[i].email == email
    requires forall k :: 0 <= k < i ==> users[k].email != email
    ensures FindByEmail(users, email) == Some(i)
  {
    var p := (u: User) => u.email == email;
    assert p(users[i]);
    var j := IndexOf(users, p).value;
    assert p(users[j]);
  }
}
