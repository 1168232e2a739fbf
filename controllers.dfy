/**
 * backend/controllers.js: registration with its field checks and the
 * initial account record, the login input check, token verification, the
 * KYC upload flag, and the loan and transfer requests that only create
 * `pending` records.
 */
module Controllers {
  import opened Common
  import opened Models
  import Decimal
  import Utils

  // ---------------------------------------------------------------------
  // register
  // ---------------------------------------------------------------------

  /** The fields `register` reads from the request body. */
  datatype RegistrationForm = RegistrationForm(
    fullName: Option<string>,
    email: Option<string>,
    phone: Option<string>,
    username: Option<string>,
    password: Option<string>,
    confirmPassword: Option<string>,
    dob: Option<string>,
    ssn: Option<string>)

  /** None of the eight fields is missing or empty. */
  predicate HasAllFields(f: RegistrationForm)
  {
    && Truthy(f.fullName) && Truthy(f.email) && Truthy(f.phone) && Truthy(f.username)
    && Truthy(f.password) && Truthy(f.confirmPassword) && Truthy(f.dob) && Truthy(f.ssn)
  }

  const BANK_NAME := "Meta Bank"

  /** `findOne({ $or: [{ email }, { username }] })`. */
  function FindByEmailOrUsername(users: seq<User>, email: string, username: string): Option<nat>
  {
    IndexOf(users, (u: User) => u.email == email || u.username == username)
  }

  /** The document `User.create` stores for a form that passed every check. */
  function NewAccount(id: nat, f: RegistrationForm, passwordHash: string, routing: string,
                      accountNumber: string): User
    requires HasAllFields(f)
  {
    DefaultUser(id, routing).(
      fullName := f.fullName.value, email := f.email.value, phone := f.phone.value,
      username := f.username.value, passwordHash := passwordHash, dob := f.dob.value,
      ssn := f.ssn.value, bankName := BANK_NAME,
      accountType := Checking, accountStatus := Inactive, accountNumber := accountNumber,
      balance := 0, availableBalance := 0, isVerified := false, kycStatus := KycStatus.Pending)
  }

  /**
   * `register`, for the environment's routing number `env`, the eight random
   * bytes behind the account number and the password hasher `hash`.
   */
  function Register(users: seq<User>, id: nat, f: RegistrationForm, env: Option<string>,
                    bytes: seq<bv8>, hash: string -> string): (Response<User>, seq<User>)
  {
    if !HasAllFields(f) then (Error(400, "Missing required fields"), users)
    else if f.password != f.confirmPassword then (Error(400, "Passwords do not match"), users)
    else if FindByEmailOrUsername(users, f.email.value, f.username.value).Some? then
      (Error(409, "Email or username already exists"), users)
    else
      var user := NewAccount(id, f, hash(f.password.value), Utils.RoutingNumber(env),
                             Utils.GenerateAccountNumber("", bytes));
      (Ok(201, user), users + [user])
  }

  method RegisterHandler(db: UserCollection, id: nat, f: RegistrationForm, env: Option<string>,
                         bytes: seq<bv8>, hash: string -> string) returns (reply: Response<User>)
    modifies db
    ensures (reply, db.users) == Register(old(db.users), id, f, env, bytes, hash)
  {
    if !HasAllFields(f) {
      return Error(400, "Missing required fields");
    }
    if f.password != f.confirmPassword {
      return Error(400, "Passwords do not match");
    }
    var existing := FindByEmailOrUsername(db.users, f.email.value, f.username.value);
    if existing.Some? {
      return Error(409, "Email or username already exists");
    }
    var hashedPassword := hash(f.password.value);
    var accountNumber := Utils.GenerateAccountNumber("", bytes);
    var newUser := NewAccount(id, f, hashedPassword, Utils.RoutingNumber(env), accountNumber);
    db.users := db.users + [newUser];
    reply := Ok(201, newUser);
  }

  /**
   * The checks come in order: a missing or empty field is reported before a
   * password mismatch, which is reported before a clash; a request passes
   * exactly when it has all fields, matching passwords and an e-mail and a
   * username no stored user has. Every refusal stores nothing.
   */
  lemma RegisterChecks(users: seq<User>, id: nat, f: RegistrationForm, env: Option<string>,
                       bytes: seq<bv8>, hash: string -> string)
    ensures var (reply, after) := Register(users, id, f, env, bytes, hash);
      && (!HasAllFields(f) ==> reply == Error(400, "Missing required fields"))
      && (HasAllFields(f) && f.password != f.confirmPassword ==> reply == Error(400, "Passwords do not match"))
      && (reply.Ok? <==>
            HasAllFields(f) && f.password == f.confirmPassword &&
            forall k :: 0 <= k < |users| ==> users[k].email != f.email.value && users[k].username != f.username.value)
      && (reply.Error? ==> after == users)
      && (reply.Error? && reply.status == 409 <==>
            HasAllFields(f) && f.password == f.confirmPassword &&
            exists k :: 0 <= k < |users| && (users[k].email == f.email.value || users[k].username == f.username.value))
  {
    if HasAllFields(f) && f.password == f.confirmPassword {
      var p := (u: User) => u.email == f.email.value || u.username == f.username.value;
      var found := IndexOf(users, p);
      if found.Some? {
        assert p(users[found.value]);
      }
    }
  }

  /**
   * A new account is an unverified, inactive checking account at Meta Bank
   * with both balances 0, a pending KYC status, the routing number of the
   * environment, a fresh 12-digit account number and the hashed password,
   * appended after every stored user; name, e-mail, phone, username, date
   * of birth and SSN are copied from the form.
   */
  lemma RegisterNewAccount(users: seq<User>, id: nat, f: RegistrationForm, env: Option<string>,
                           bytes: seq<bv8>, hash: string -> string)
    requires HasAllFields(f) && f.password == f.confirmPassword
    requires FindByEmailOrUsername(users, f.email.value, f.username.value).None?
    ensures var (reply, after) := Register(users, id, f, env, bytes, hash);
      var u := reply.body;
      && reply.Ok? && reply.status == 201
      && after == users + [u]
      && u.id == id && u.email == f.email.value && u.username == f.username.value
      && u.fullName == f.fullName.value && u.phone == f.phone.value
      && u.dob == f.dob.value && u.ssn == f.ssn.value
      && u.passwordHash == hash(f.password.value)
      && u.balance == 0 && u.availableBalance == 0
      && u.accountStatus == Inactive && !u.isVerified && u.kycStatus == KycStatus.Pending
      && u.accountType == Checking && u.bankName == "Meta Bank" && u.role == RegularUser
      && u.routingNumber == Utils.RoutingNumber(env)
      && |u.accountNumber| == 12 && Decimal.AllDigits(u.accountNumber)
      && 100000000000 <= Decimal.Parse(u.accountNumber) <= 999999999999
  {
    var u := Register(users, id, f, env, bytes, hash).0.body;
    assert u.accountNumber[0..] == u.accountNumber;
  }

  /** Usernames and e-mails that were unique among the stored users stay unique. */
  lemma RegisterKeepsIdentitiesUnique(users: seq<User>, id: nat, f: RegistrationForm, env: Option<string>,
                                      bytes: seq<bv8>, hash: string -> string)
    requires forall a, b :: 0 <= a < b < |users| ==>
               users[a].email != users[b].email && users[a].username != users[b].username
    ensures var after := Register(users, id, f, env, bytes, hash).1;
      forall a, b :: 0 <= a < b < |after| ==>
        after[a].email != after[b].email && after[a].username != after[b].username
  {
    var (reply, after) := Register(users, id, f, env, bytes, hash);
    if reply.Ok? {
      RegisterChecks(users, id, f, env, bytes, hash);
      forall a, b | 0 <= a < b < |after|
        ensures after[a].email != after[b].email && after[a].username != after[b].username
      {
        if b == |users| {
          assert after[a] == users[a] && after[b] == reply.body;
        } else {
          assert after[a] == users[a] && after[b] == users[b];
        }
      }
    }
  }

  // ---------------------------------------------------------------------
  // login
  // ---------------------------------------------------------------------

  datatype Credentials = Credentials(email: Option<string>, username: Option<string>, password: Option<string>)

  /** A password and at least one of e-mail and username must be given. */
  predicate LoginInputOk(c: Credentials)
  {
    (Truthy(c.email) || Truthy(c.username)) && Truthy(c.password)
  }

  /**
   * One clause of `$or: [{ username }, { email }]`; an absent value asks for
   * a document without that field, and every stored user has both.
   */
  predicate LoginMatches(u: User, c: Credentials)
  {
    (c.username.Some? && u.username == c.username.value) || (c.email.Some? && u.email == c.email.value)
  }

  /** `login` with the password checker `compare(plain, hash)`; the token itself is left out. */
  function Login(users: seq<User>, c: Credentials, compare: (string, string) -> bool): Response<User>
  {
    if !LoginInputOk(c) then Error(400, "Username/Email and password are required")
    else match IndexOf(users, (u: User) => LoginMatches(u, c))
      case None => Error(401, "Invalid credentials")
      case Some(i) =>
        if compare(c.password.value, users[i].passwordHash) then Ok(200, users[i])
        else Error(401, "Invalid credentials")
  }

  /**
   * Input without a password or without both e-mail and username is refused
   * with 400 whatever is stored; a successful login returns a stored user
   * that matches the username or the e-mail and whose hash accepts the
   * password, and it is the first such match.
   */
  lemma LoginChecks(users: seq<User>, c: Credentials, compare: (string, string) -> bool)
    ensures !LoginInputOk(c) ==> Login(users, c, compare) == Error(400, "Username/Email and password are required")
    ensures var r := Login(users, c, compare);
      r.Ok? ==>
        && LoginInputOk(c)
        && exists i :: 0 <= i < |users| && r.body == users[i] && LoginMatches(users[i], c)
                      && compare(c.password.value, users[i].passwordHash)
                      && forall k :: 0 <= k < i ==> !LoginMatches(users[k], c)
    ensures (forall k :: 0 <= k < |users| ==> !LoginMatches(users[k], c)) ==>
      Login(users, c, compare).Error?
  {
    var p := (u: User) => LoginMatches(u, c);
    var found := IndexOf(users, p);
    if found.Some? {
      assert p(users[found.value]);
    }
  }

  // ---------------------------------------------------------------------
  // verifyUser and uploadKYC
  // ---------------------------------------------------------------------

  /**
   * `verifyUser` for the query token and the answer `jwt` of verifying it;
   * a verification failure is caught as 500.
   */
  function VerifyUser(users: seq<User>, token: Option<string>, jwt: JwtAnswer): (Response<User>, seq<User>)
  {
    if !Truthy(token) then (Error(400, "Missing token"), users)
    else if !jwt.Decoded? then (Error(500, "Verification failed"), users)
    else match FindById(users, jwt.id)
      case None => (Error(404, "User not found"), users)
      case Some(i) =>
        var user := users[i].(isVerified := true);
        (Ok(200, user), users[i := user])
  }

  method VerifyUserHandler(db: UserCollection, token: Option<string>, jwt: JwtAnswer) returns (reply: Response<User>)
    modifies db
    ensures (reply, db.users) == VerifyUser(old(db.users), token, jwt)
  {
    if !Truthy(token) {
      return Error(400, "Missing token");
    }
    if !jwt.Decoded? {
      return Error(500, "Verification failed");
    }
    var found := FindById(db.users, jwt.id);
    if found.None? {
      return Error(404, "User not found");
    }
    var user := db.users[found.value];
    user := user.(isVerified := true);
    db.users := db.users[found.value := user];
    reply := Ok(200, user);
  }

  /**
   * Verification succeeds exactly for a token that decodes to a stored id;
   * it then sets `isVerified` of that user and changes no other field and no
   * other user, and every failure changes nothing.
   */
  lemma VerifyUserSetsOnlyTheFlag(users: seq<User>, token: Option<string>, jwt: JwtAnswer)
    ensures var (reply, after) := VerifyUser(users, token, jwt);
      && (reply.Ok? <==> Truthy(token) && jwt.Decoded? && FindById(users, jwt.id).Some?)
      && (reply.Error? ==> after == users)
      && (reply.Ok? ==>
            var i := FindById(users, jwt.id).value;
            && users[i].id == jwt.id
            && after == users[i := users[i].(isVerified := true)]
            && reply.body.isVerified)
  {
  }

  /** `uploadKYC` of backend/controllers.js: marks the requester's KYC as pending. */
  function UploadKyc(users: seq<User>, requester: nat): (Response<()>, seq<User>)
  {
    match FindById(users, requester)
    case None => (Error(404, "User not found"), users)
    case Some(i) => (Ok(200, ()), users[i := users[i].(kycStatus := KycStatus.Pending)])
  }

  method UploadKycHandler(db: UserCollection, requester: nat) returns (reply: Response<()>)
    modifies db
    ensures (reply, db.users) == UploadKyc(old(db.users), requester)
  {
    var found := FindById(db.users, requester);
    if found.None? {
      return Error(404, "User not found");
    }
    var user := db.users[found.value];
    user := user.(kycStatus := KycStatus.Pending);
    db.users := db.users[found.value := user];
    reply := Ok(200, ());
  }

  /** After an upload the requester's KYC is pending, whatever it was, and nothing else changed. */
  lemma UploadKycMarksPending(users: seq<User>, requester: nat)
    ensures var (reply, after) := UploadKyc(users, requester);
      && (reply.Ok? <==> exists k :: 0 <= k < |users| && users[k].id == requester)
      && (reply.Error? ==> after == users)
      && (reply.Ok? ==>
            var i := FindById(users, requester).value;
            && after[i].kycStatus == KycStatus.Pending
            && after[i] == users[i].(kycStatus := after[i].kycStatus)
            && forall k :: 0 <= k < |users| && k != i ==> after[k] == users[k])
  {
    var p := (u: User) => u.id == requester;
    var found := IndexOf(users, p);
    if found.Some? {
      assert p(users[found.value]);
    }
  }

  /**
   * `approveKYC`, `rejectKYC` and `completeTransfer` answer 200 with a fixed
   * message; they read and write no collection, which the absence of a
   * `modifies` clause states.
   */
  method ApproveKycStub(users: UserCollection) returns (reply: Response<string>)
    ensures reply == Ok(200, "KYC approved")
  {
    reply := Ok(200, "KYC approved");
  }

  method RejectKycStub(users: UserCollection) returns (reply: Response<string>)
    ensures reply == Ok(200, "KYC rejected")
  {
    reply := Ok(200, "KYC rejected");
  }

  method CompleteTransferStub(users: UserCollection, transfers: TransferCollection) returns (reply: Response<string>)
    ensures reply == Ok(200, "Transfer completed")
  {
    reply := Ok(200, "Transfer completed");
  }

  // ---------------------------------------------------------------------
  // applyLoan and makeTransfer
  // ---------------------------------------------------------------------

  /**
   * `Loan.create({ userId, amount, status: 'pending' })`. The loan schema of
   * backend/loan.js requires an amount: without one nothing is stored and the
   * rejected promise leaves the request unanswered (`None`).
   */
  function ApplyLoan(loans: seq<Loan>, requester: nat, amount: Option<int>): (Option<Loan>, seq<Loan>)
  {
    if amount.None? then (None, loans)
    else
      var loan := Loan(requester, amount.value, None, LoanStatus.Pending);
      (Some(loan), loans + [loan])
  }

  method ApplyLoanHandler(db: LoanCollection, requester: nat, amount: Option<int>) returns (created: Option<Loan>)
    modifies db
    ensures (created, db.loans) == ApplyLoan(old(db.loans), requester, amount)
  {
    if amount.None? {
      return None;
    }
    var loan := Loan(requester, amount.value, None, LoanStatus.Pending);
    db.loans := db.loans + [loan];
    created := Some(loan);
  }

  /** `Transfer.create({ userId, amount, status: 'pending' })` against backend/transfer.js. */
  function MakeTransfer(transfers: seq<Transfer>, requester: nat, amount: Option<int>): (Option<Transfer>, seq<Transfer>)
  {
    if amount.None? then (None, transfers)
    else
      var transfer := Transfer(requester, None, amount.value, TransferStatus.Pending, None);
      (Some(transfer), transfers + [transfer])
  }

  method MakeTransferHandler(db: TransferCollection, requester: nat, amount: Option<int>)
    returns (created: Option<Transfer>)
    modifies db
    ensures (created, db.transfers) == MakeTransfer(old(db.transfers), requester, amount)
  {
    if amount.None? {
      return None;
    }
    var transfer := Transfer(requester, None, amount.value, TransferStatus.Pending, None);
    db.transfers := db.transfers + [transfer];
    created := Some(transfer);
  }

  /**
   * A loan or transfer request appends at most one record, owned by the
   * requester, with the requested amount and status `pending`, and leaves
   * every earlier record as it was. The handlers modify only their own
   * collection, so no balance changes.
   */
  lemma RequestsOnlyAppendPending(loans: seq<Loan>, transfers: seq<Transfer>, requester: nat, amount: Option<int>)
    ensures var (loan, afterLoans) := ApplyLoan(loans, requester, amount);
      && afterLoans[..|loans|] == loans
      && (loan.None? <==> amount.None?)
      && (loan.None? ==> afterLoans == loans)
      && (loan.Some? ==> afterLoans == loans + [loan.value] && loan.value.status == LoanStatus.Pending
                         && loan.value.userId == requester && loan.value.amount == amount.value)
    ensures var (transfer, afterTransfers) := MakeTransfer(transfers, requester, amount);
      && afterTransfers[..|transfers|] == transfers
      && (transfer.None? <==> amount.None?)
      && (transfer.None? ==> afterTransfers == transfers)
      && (transfer.Some? ==> afterTransfers == transfers + [transfer.value]
                             && transfer.value.status == TransferStatus.Pending
                             && transfer.value.userId == requester && transfer.value.amount == amount.value)
  {
    var (loan, afterLoans) := ApplyLoan(loans, requester, amount);
    assert afterLoans[..|loans|] == loans;
    var (transfer, afterTransfers) := MakeTransfer(transfers, requester, amount);
    assert afterTransfers[..|transfers|] == transfers;
  }
}
