/**
 * server.js: the session-based bank kept in a JSON file of users. Each user
 * has a checking and a savings balance, four lower-cased secret answers and
 * an append-only list of transactions. The file is the `users` field of a
 * `UserFile`; loading and saving it are the reads and writes of that field.
 *
 * Amounts are what `parseFloat` makes of the form field: a number (modelled
 * as an integer) or NaN. A handler that reads a property of a user that
 * `users.find` did not find throws; the model answers `Crashed` there and
 * leaves the file as it was, since the write comes later.
 */
module SessionBank {
  import opened Common

  datatype Entry =
    | WireTransfer(to: Option<string>, amount: int, date: string)
    | MobileDeposit(checkNumber: Option<string>, amount: int, date: string)

  datatype Balance = Balance(checking: int, savings: int)

  datatype Customer = Customer(
    username: string,
    password: string,
    secretAnswers: seq<string>,
    balance: Balance,
    transactions: seq<Entry>)

  /** data/users.json. */
  class UserFile {
    var users: seq<Customer>

    constructor (users: seq<Customer>)
      ensures this.users == users
    {
      this.users := users;
    }
  }

  /** What `parseFloat` returns. */
  datatype Parsed = NaN | Num(value: int)

  /** The four secret answers of a form; a missing field is `None`. */
  datatype Answers = Answers(a1: Option<string>, a2: Option<string>, a3: Option<string>, a4: Option<string>)

  predicate AllGiven(a: Answers)
  {
    a.a1.Some? && a.a2.Some? && a.a3.Some? && a.a4.Some?
  }

  /** `[a1, a2, a3, a4].map(a => a.toLowerCase())`. */
  function Lowered(a: Answers): (r: seq<string>)
    requires AllGiven(a)
    ensures |r| == 4
  {
    [Lower(a.a1.value), Lower(a.a2.value), Lower(a.a3.value), Lower(a.a4.value)]
  }

  function FindByName(users: seq<Customer>, name: string): Option<nat>
  {
    IndexOf(users, (u: Customer) => u.username == name)
  }

  // ---------------------------------------------------------------------
  // POST /register
  // ---------------------------------------------------------------------

  datatype RegisterOutcome = UsernameTaken | Registered | Crashed

  const INITIAL_CHECKING := 400000
  const INITIAL_SAVINGS := 500000

  function Register(users: seq<Customer>, username: string, password: string, answers: Answers)
    : (RegisterOutcome, seq<Customer>)
  {
    if FindByName(users, username).Some? then (UsernameTaken, users)
    else if !AllGiven(answers) then (Crashed, users)
    else
      var user := Customer(username, password, Lowered(answers), Balance(INITIAL_CHECKING, INITIAL_SAVINGS), []);
      (Registered, users + [user])
  }

  method RegisterHandler(file: UserFile, username: string, password: string, answers: Answers)
    returns (outcome: RegisterOutcome)
    modifies file
    ensures (outcome, file.users) == Register(old(file.users), username, password, answers)
  {
    var users := file.users;
    if FindByName(users, username).Some? {
      return UsernameTaken;
    }
    if !AllGiven(answers) {
      return Crashed;
    }
    var newUser := Customer(username, password, Lowered(answers), Balance(INITIAL_CHECKING, INITIAL_SAVINGS), []);
    users := users + [newUser];
    file.users := users;
    outcome := Registered;
  }

  /**
   * A taken username leaves the file unchanged; a successful registration
   * appends one user holding 400000 checking, 500000 savings, no
   * transactions and the four answers lower-cased, and usernames that were
   * unique stay unique.
   */
  lemma RegisterAppendsOneUser(users: seq<Customer>, username: string, password: string, answers: Answers)
    requires forall a, b :: 0 <= a < b < |users| ==> users[a].username != users[b].username
    ensures var (outcome, after) := Register(users, username, password, answers);
      && (outcome == UsernameTaken <==> exists k :: 0 <= k < |users| && users[k].username == username)
      && (outcome != Registered ==> after == users)
      && (outcome == Crashed <==> FindByName(users, username).None? && !AllGiven(answers))
      && (outcome == Registered ==>
            && after[..|users|] == users && |after| == |users| + 1
            && after[|users|].username == username && after[|users|].password == password
            && after[|users|].secretAnswers == Lowered(answers)
            && after[|users|].balance == Balance(400000, 500000)
            && after[|users|].transactions == []
            && |after[|users|].secretAnswers| == 4
            && (forall i :: 0 <= i < 4 ==> after[|users|].secretAnswers[i] == Lower(Lowered(answers)[i])))
      && (forall a, b :: 0 <= a < b < |after| ==> after[a].username != after[b].username)
  {
    var (outcome, after) := Register(users, username, password, answers);
    if outcome == Registered {
      assert after[..|users|] == users;
      forall i | 0 <= i < 4 ensures after[|users|].secretAnswers[i] == Lower(Lowered(answers)[i]) {
        LowerIdempotent([answers.a1.value, answers.a2.value, answers.a3.value, answers.a4.value][i]);
      }
    }
  }

  // ---------------------------------------------------------------------
  // POST /login
  // ---------------------------------------------------------------------

  datatype LoginOutcome = InvalidCredentials | AnswersMismatch | LoggedIn(username: string) | LoginCrashed

  /** `user.secretAnswers.every((ans, i) => ans === answers[i])`; past the fourth answer there is nothing to equal. */
  predicate AnswersMatch(stored: seq<string>, given: seq<string>)
  {
    forall i :: 0 <= i < |stored| ==> i < |given| && stored[i] == given[i]
  }

  function Login(users: seq<Customer>, username: string, password: string, answers: Answers): LoginOutcome
  {
    match IndexOf(users, (u: Customer) => u.username == username && u.password == password)
    case None => InvalidCredentials
    case Some(i) =>
      if !AllGiven(answers) then LoginCrashed
      else if AnswersMatch(users[i].secretAnswers, Lowered(answers)) then LoggedIn(users[i].username)
      else AnswersMismatch
  }

  /**
   * Login succeeds exactly when the first user with this username and
   * password has, at every position, the supplied answer lower-cased.
   */
  lemma LoginSucceedsIff(users: seq<Customer>, username: string, password: string, answers: Answers)
    ensures Login(users, username, password, answers).LoggedIn? <==>
      exists i ::
        && 0 <= i < |users|
        && users[i].username == username && users[i].password == password
        && (forall k :: 0 <= k < i ==> !(users[k].username == username && users[k].password == password))
        && AllGiven(answers)
        && AnswersMatch(users[i].secretAnswers, Lowered(answers))
  {
    var p := (u: Customer) => u.username == username && u.password == password;
    var found := IndexOf(users, p);
    if found.Some? {
      var i := found.value;
      assert p(users[i]);
      if Login(users, username, password, answers).LoggedIn? {
        assert AllGiven(answers) && AnswersMatch(users[i].secretAnswers, Lowered(answers));
      }
      forall j | 0 <= j < |users| && p(users[j]) && (forall k :: 0 <= k < j ==> !p(users[k]))
        ensures j == i
      {
      }
    }
  }

  /** A user registered through the form can log in with the same answers in any letter case. */
  lemma RegisteredUserCanLogIn(users: seq<Customer>, username: string, password: string,
                               answers: Answers, typed: Answers)
    requires FindByName(users, username).None?
    requires Register(users, username, password, answers).0 == Registered
    requires AllGiven(typed) && Lowered(typed) == Lowered(answers)
    ensures Login(Register(users, username, password, answers).1, username, password, typed) == LoggedIn(username)
  {
    var after := Register(users, username, password, answers).1;
    var p := (u: Customer) => u.username == username && u.password == password;
    assert forall k :: 0 <= k < |users| ==> !p(after[k]);
    assert p(after[|users|]);
    assert IndexOf(after, p) == Some(|users|);
  }

  // ---------------------------------------------------------------------
  // GET /dashboard
  // ---------------------------------------------------------------------

  datatype Dashboard =
    | RedirectToLogin
    | View(username: string, checking: int, savings: int, total: int, transactions: seq<Entry>)

  function ShowDashboard(users: seq<Customer>, session: Option<string>): (r: Dashboard)
    ensures r.View? <==> Truthy(session) && FindByName(users, session.value).Some?
    ensures r.View? ==> r.total == r.checking + r.savings
    ensures r.View? ==>
      exists i :: 0 <= i < |users| && users[i].username == session.value &&
                  users[i].balance == Balance(r.checking, r.savings) && users[i].transactions == r.transactions
  {
    if !Truthy(session) then RedirectToLogin
    else match FindByName(users, session.value)
      case None => RedirectToLogin
      case Some(i) =>
        var user := users[i];
        View(user.username, user.balance.checking, user.balance.savings,
             user.balance.checking + user.balance.savings, user.transactions)
  }

  // ---------------------------------------------------------------------
  // POST /transfer and POST /deposit
  // ---------------------------------------------------------------------

  datatype Outcome = RedirectLogin | InvalidCode | InvalidAmount | Done | HandlerCrashed

  const CONFIRMATION_CODE := "123456"

  function Wire(users: seq<Customer>, session: Option<string>, recipient: Option<string>, amount: Parsed,
                code: Option<string>, date: string): (Outcome, seq<Customer>)
  {
    if !Truthy(session) then (RedirectLogin, users)
    else
      var found := FindByName(users, session.value);
      if code != Some(CONFIRMATION_CODE) then (InvalidCode, users)
      else if amount.NaN? || amount.value <= 0 then (InvalidAmount, users)
      else if found.None? then (HandlerCrashed, users)
      else
        var user := users[found.value];
        if amount.value > user.balance.checking then (InvalidAmount, users)
        else
          var updated := user.(balance := user.balance.(checking := user.balance.checking - amount.value),
                               transactions := user.transactions + [WireTransfer(recipient, amount.value, date)]);
          (Done, users[found.value := updated])
  }

  method WireHandler(file: UserFile, session: Option<string>, recipient: Option<string>, amount: Parsed,
                     code: Option<string>, date: string) returns (outcome: Outcome)
    modifies file
    ensures (outcome, file.users) == Wire(old(file.users), session, recipient, amount, code, date)
  {
    if !Truthy(session) {
      return RedirectLogin;
    }
    var users := file.users;
    var found := FindByName(users, session.value);
    if code != Some(CONFIRMATION_CODE) {
      return InvalidCode;
    }
    if amount.NaN? || amount.value <= 0 {
      return InvalidAmount;
    }
    if found.None? {
      return HandlerCrashed;
    }
    var user := users[found.value];
    if amount.value > user.balance.checking {
      return InvalidAmount;
    }
    user := user.(balance := user.balance.(checking := user.balance.checking - amount.value));
    user := user.(transactions := user.transactions + [WireTransfer(recipient, amount.value, date)]);
    users := users[found.value := user];
    file.users := users;
    outcome := Done;
  }

  /** The code is checked before the amount: a wrong code is reported whatever the amount. */
  lemma WrongCodeWins(users: seq<Customer>, session: Option<string>, recipient: Option<string>, amount: Parsed,
                      code: Option<string>, date: string)
    requires Truthy(session) && code != Some("123456")
    ensures Wire(users, session, recipient, amount, code, date) == (InvalidCode, users)
  {
  }

  /**
   * Every refusal leaves the file unchanged. A wire goes through exactly when
   * the code is right and 0 < amount <= checking of a stored user; it then
   * lowers that user's checking by the amount, keeps savings, appends one
   * entry at the end of that user's list and touches no other user, so
   * checking never goes below zero on this path.
   */
  lemma WireEffect(users: seq<Customer>, session: Option<string>, recipient: Option<string>, amount: Parsed,
                   code: Option<string>, date: string)
    ensures var (outcome, after) := Wire(users, session, recipient, amount, code, date);
      && (outcome != Done ==> after == users)
      && (outcome == Done <==>
            Truthy(session) && code == Some("123456") && amount.Num? && 0 < amount.value &&
            FindByName(users, session.value).Some? &&
            amount.value <= users[FindByName(users, session.value).value].balance.checking)
      && (outcome == Done ==>
            var i := FindByName(users, session.value).value;
            && |after| == |users|
            && after[i].balance.checking == users[i].balance.checking - amount.value
            && after[i].balance.checking >= 0
            && after[i].balance.savings == users[i].balance.savings
            && after[i].transactions == users[i].transactions + [WireTransfer(recipient, amount.value, date)]
            && forall k :: 0 <= k < |users| && k != i ==> after[k] == users[k])
  {
  }

  function Deposit(users: seq<Customer>, session: Option<string>, checkNumber: Option<string>, amount: Parsed,
                   date: string): (Outcome, seq<Customer>)
  {
    if !Truthy(session) then (RedirectLogin, users)
    else
      var found := FindByName(users, session.value);
      if amount.NaN? || amount.value <= 0 then (InvalidAmount, users)
      else if found.None? then (HandlerCrashed, users)
      else
        var user := users[found.value];
        var updated := user.(balance := user.balance.(checking := user.balance.checking + amount.value),
                             transactions := user.transactions + [MobileDeposit(checkNumber, amount.value, date)]);
        (Done, users[found.value := updated])
  }

  method DepositHandler(file: UserFile, session: Option<string>, checkNumber: Option<string>, amount: Parsed,
                        date: string) returns (outcome: Outcome)
    modifies file
    ensures (outcome, file.users) == Deposit(old(file.users), session, checkNumber, amount, date)
  {
    if !Truthy(session) {
      return RedirectLogin;
    }
    var users := file.users;
    var found := FindByName(users, session.value);
    if amount.NaN? || amount.value <= 0 {
      return InvalidAmount;
    }
    if found.None? {
      return HandlerCrashed;
    }
    var user := users[found.value];
    user := user.(balance := user.balance.(checking := user.balance.checking + amount.value));
    user := user.(transactions := user.transactions + [MobileDeposit(checkNumber, amount.value, date)]);
    users := users[found.value := user];
    file.users := users;
    outcome := Done;
  }

  /**
   * A deposit goes through exactly when the amount is a positive number for
   * a stored user; it raises checking by the amount and appends exactly one
   * entry, and a refused deposit changes nothing.
   */
  lemma DepositEffect(users: seq<Customer>, session: Option<string>, checkNumber: Option<string>, amount: Parsed,
                      date: string)
    ensures var (outcome, after) := Deposit(users, session, checkNumber, amount, date);
      && (outcome != Done ==> after == users)
      && (outcome == Done <==>
            Truthy(session) && amount.Num? && amount.value > 0 && FindByName(users, session.value).Some?)
      && (outcome == Done ==>
            var i := FindByName(users, session.value).value;
            && |after| == |users|
            && after[i].balance == users[i].balance.(checking := users[i].balance.checking + amount.value)
            && after[i].transactions == users[i].transactions + [MobileDeposit(checkNumber, amount.value, date)]
            && forall k :: 0 <= k < |users| && k != i ==> after[k] == users[k])
  {
  }

  /** The sum of all checking balances. */
  function TotalChecking(users: seq<Customer>): int
  {
    if users == [] then 0 else users[0].balance.checking + TotalChecking(users[1..])
  }

  lemma {:induction false} TotalCheckingUpdate(users: seq<Customer>, i: nat, u: Customer)
    requires i < |users|
    ensures TotalChecking(users[i := u]) == TotalChecking(users) - users[i].balance.checking + u.balance.checking
  {
    if i > 0 {
      assert users[i := u][1..] == users[1..][i - 1 := u];
      TotalCheckingUpdate(users[1..], i - 1, u);
    } else {
      assert users[i := u][1..] == users[1..];
    }
  }

  /** Money leaves the bank by wires and enters by deposits, by exactly the amount. */
  lemma WireAndDepositMoveTotal(users: seq<Customer>, session: Option<string>, other: Option<string>,
                                amount: Parsed, code: Option<string>, date: string)
    ensures var (o1, a1) := Wire(users, session, other, amount, code, date);
      o1 == Done ==> TotalChecking(a1) == TotalChecking(users) - amount.value
    ensures var (o2, a2) := Deposit(users, session, other, amount, date);
      o2 == Done ==> TotalChecking(a2) == TotalChecking(users) + amount.value
  {
    var (o1, a1) := Wire(users, session, other, amount, code, date);
    if o1 == Done {
      var i := FindByName(users, session.value).value;
      TotalCheckingUpdate(users, i, a1[i]);
      assert a1 == users[i := a1[i]];
    }
    var (o2, a2) := Deposit(users, session, other, amount, date);
    if o2 == Done {
      var i := FindByName(users, session.value).value;
      TotalCheckingUpdate(users, i, a2[i]);
      assert a2 == users[i := a2[i]];
    }
  }

  // ---------------------------------------------------------------------
  // POST /admin
  // ---------------------------------------------------------------------

  datatype Tagged = Tagged(user: string, entry: Entry)

  /** `users.flatMap(user => user.transactions.map(tx => ({ user: user.username, ...tx })))`. */
  function AllTransactions(users: seq<Customer>): seq<Tagged>
  {
    if users == [] then []
    else Tag(users[0].username, users[0].transactions) + AllTransactions(users[1..])
  }

  function Tag(name: string, entries: seq<Entry>): (r: seq<Tagged>)
    ensures |r| == |entries|
    ensures forall k :: 0 <= k < |entries| ==> r[k] == Tagged(name, entries[k])
  {
    seq(|entries|, k requires 0 <= k < |entries| => Tagged(name, entries[k]))
  }

  function EntryCount(users: seq<Customer>): nat
  {
    if users == [] then 0 else |users[0].transactions| + EntryCount(users[1..])
  }

  /** The admin list is as long as all users' lists together. */
  lemma {:induction false} AllTransactionsLength(users: seq<Customer>)
    ensures |AllTransactions(users)| == EntryCount(users)
  {
    if users != [] {
      AllTransactionsLength(users[1..]);
    }
  }

  /** Listing two groups of users lists the first group's entries, then the second's. */
  lemma {:induction false} AllTransactionsAppend(a: seq<Customer>, b: seq<Customer>)
    ensures AllTransactions(a + b) == AllTransactions(a) + AllTransactions(b)
  {
    if a != [] {
      assert (a + b)[1..] == a[1..] + b;
      AllTransactionsAppend(a[1..], b);
    } else {
      assert a + b == b;
    }
  }

  /** An entry is listed under a name exactly when a user of that name holds it. */
  lemma {:induction false} AllTransactionsMembership(users: seq<Customer>, t: Tagged)
    ensures t in AllTransactions(users) <==>
      exists i :: 0 <= i < |users| && users[i].username == t.user && t.entry in users[i].transactions
  {
    if users != [] {
      AllTransactionsMembership(users[1..], t);
      var head := Tag(users[0].username, users[0].transactions);
      assert t in head <==> users[0].username == t.user && t.entry in users[0].transactions by {
        if t in head {
          var k :| 0 <= k < |head| && head[k] == t;
        }
        if users[0].username == t.user && t.entry in users[0].transactions {
          var k :| 0 <= k < |users[0].transactions| && users[0].transactions[k] == t.entry;
          assert head[k] == t;
        }
      }
      if exists i :: 1 <= i < |users| && users[i].username == t.user && t.entry in users[i].transactions {
        var i :| 1 <= i < |users| && users[i].username == t.user && t.entry in users[i].transactions;
        assert users[1..][i - 1] == users[i];
      }
      if exists i :: 0 <= i < |users[1..]| && users[1..][i].username == t.user && t.entry in users[1..][i].transactions {
        var i :| 0 <= i < |users[1..]| && users[1..][i].username == t.user && t.entry in users[1..][i].transactions;
        assert users[i + 1] == users[1..][i];
      }
    }
  }

  datatype AdminPage = AccessDenied | AdminDashboard(users: seq<Customer>, allTransactions: seq<Tagged>)

  function Admin(users: seq<Customer>, username: Option<string>, password: Option<string>): (r: AdminPage)
    ensures r.AdminDashboard? <==> username == Some("admin") && password == Some("admin123")
    ensures r.AdminDashboard? ==> r.users == users && r.allTransactions == AllTransactions(users)
    ensures r.AdminDashboard? ==> |r.allTransactions| == EntryCount(users)
  {
    if username != Some("admin") || password != Some("admin123") then AccessDenied
    else
      AllTransactionsLength(users);
      AdminDashboard(users, AllTransactions(users))
  }
}
