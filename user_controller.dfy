/**
 * backend/controllers/userController.js: the dashboard projection with its
 * display defaults, the loan and transfer requests built from the request
 * body, and e-mail verification by a stored single-use token with an expiry.
 */
module UserController {
  import opened Common
  import opened Models

  // ---------------------------------------------------------------------
  // getUserDashboard
  // ---------------------------------------------------------------------

  /** What a loaded user document yields for each path the dashboard reads; an absent value is `None`. */
  datatype ProfileDocument = ProfileDocument(
    id: nat,
    username: Option<string>,
    fullName: Option<string>,
    email: Option<string>,
    phone: Option<string>,
    dob: Option<string>,
    address: Option<string>,
    kycStatus: Option<string>,
    accountType: Option<string>,
    bankName: Option<string>,
    accountNumber: Option<string>,
    routingNumber: Option<string>,
    isVerified: bool,
    balance: Option<int>,
    availableBalance: Option<int>)

  datatype DashboardView = DashboardView(
    username: Option<string>,
    fullName: Option<string>,
    email: Option<string>,
    phone: Option<string>,
    dob: Option<string>,
    address: string,
    kycStatus: string,
    accountStatus: string,
    accountType: string,
    bankName: string,
    accountNumber: string,
    routingNumber: string,
    balance: int,
    availableBalance: int)

  /** `value || fallback`. */
  function OrElse(value: Option<string>, fallback: string): string
  {
    if Truthy(value) then value.value else fallback
  }

  /** `value ?? fallback`. */
  function Coalesce(value: Option<int>, fallback: int): int
  {
    if value.Some? then value.value else fallback
  }

  function Project(d: ProfileDocument): DashboardView
  {
    DashboardView(
      d.username, d.fullName, d.email, d.phone, d.dob,
      OrElse(d.address, "Not provided"),
      OrElse(d.kycStatus, "Pending"),
      if d.isVerified then "Active" else "Inactive",
      OrElse(d.accountType, "Checking"),
      OrElse(d.bankName, "Meta Bank"),
      OrElse(d.accountNumber, "**** 9281"),
      OrElse(d.routingNumber, "1100001"),
      Coalesce(d.balance, 1250000),
      Coalesce(d.availableBalance, 1248500))
  }

  function Dashboard(docs: seq<ProfileDocument>, requester: nat): (r: Response<DashboardView>)
    ensures r.Error? <==> forall k :: 0 <= k < |docs| ==> docs[k].id != requester
    ensures r.Error? ==> r == Error(404, "User not found")
    ensures r.Ok? ==> r.status == 200 && exists k :: 0 <= k < |docs| && docs[k].id == requester && r.body == Project(docs[k])
  {
    match IndexOf(docs, (d: ProfileDocument) => d.id == requester)
    case None => Error(404, "User not found")
    case Some(i) => Ok(200, Project(docs[i]))
  }

  /**
   * The account status reads `Active` exactly when the user is verified.
   * Both balances fall back only when absent, so a stored 0 is shown as 0.
   * Every text field shows the stored value when it is non-empty and its
   * default otherwise, so no displayed text field is ever empty.
   */
  lemma DashboardDefaults(d: ProfileDocument)
    ensures var v := Project(d);
      && (v.accountStatus == "Active" <==> d.isVerified)
      && (v.accountStatus == "Active" || v.accountStatus == "Inactive")
      && (d.balance.Some? ==> v.balance == d.balance.value)
      && (d.balance.None? ==> v.balance == 1250000)
      && (d.availableBalance.Some? ==> v.availableBalance == d.availableBalance.value)
      && (d.availableBalance.None? ==> v.availableBalance == 1248500)
      && (Truthy(d.address) ==> v.address == d.address.value)
      && (!Truthy(d.address) ==> v.address == "Not provided")
      && (Truthy(d.bankName) ==> v.bankName == d.bankName.value)
      && (!Truthy(d.bankName) ==> v.bankName == "Meta Bank")
      && (Truthy(d.accountNumber) ==> v.accountNumber == d.accountNumber.value)
      && (!Truthy(d.accountNumber) ==> v.accountNumber == "**** 9281")
      && (Truthy(d.routingNumber) ==> v.routingNumber == d.routingNumber.value)
      && (!Truthy(d.routingNumber) ==> v.routingNumber == "1100001")
      && (Truthy(d.kycStatus) ==> v.kycStatus == d.kycStatus.value)
      && (!Truthy(d.kycStatus) ==> v.kycStatus == "Pending")
      && (Truthy(d.accountType) ==> v.accountType == d.accountType.value)
      && (!Truthy(d.accountType) ==> v.accountType == "Checking")
      && v.address != "" && v.kycStatus != "" && v.accountType != "" && v.bankName != ""
      && v.accountNumber != "" && v.routingNumber != ""
  {
  }

  // ---------------------------------------------------------------------
  // applyLoan and makeTransfer
  // ---------------------------------------------------------------------

  /** The request body of a loan application; every field is spread into the new document. */
  datatype LoanBody = LoanBody(userId: Option<nat>, amount: Option<int>, purpose: Option<string>, status: Option<string>)

  /**
   * `new Loan({ ...req.body, userId: req.user.id }).save()`: the requester
   * always owns the loan, a status in the body replaces the default
   * `pending`, and a status outside the enumeration fails validation (500).
   */
  function ApplyLoan(loans: seq<Loan>, requester: nat, body: LoanBody): (Response<()>, seq<Loan>)
  {
    if !NonZero(body.amount) || !Truthy(body.purpose) then
      (Error(400, "Loan amount and purpose are required"), loans)
    else
      var status := if body.status.Some? then ParseLoanStatus(body.status.value) else Some(LoanStatus.Pending);
      if status.None? then (Error(500, "Loan application failed"), loans)
      else (Ok(201, ()), loans + [Loan(requester, body.amount.value, body.purpose, status.value)])
  }

  method ApplyLoanHandler(db: LoanCollection, requester: nat, body: LoanBody) returns (reply: Response<()>)
    modifies db
    ensures (reply, db.loans) == ApplyLoan(old(db.loans), requester, body)
  {
    if !NonZero(body.amount) || !Truthy(body.purpose) {
      return Error(400, "Loan amount and purpose are required");
    }
    var status := Some(LoanStatus.Pending);
    if body.status.Some? {
      status := ParseLoanStatus(body.status.value);
    }
    if status.None? {
      return Error(500, "Loan application failed");
    }
    var loan := Loan(requester, body.amount.value, body.purpose, status.value);
    db.loans := db.loans + [loan];
    reply := Ok(201, ());
  }

  /**
   * An application is refused with 400 exactly when the amount is missing
   * or 0 or the purpose is missing or empty, and then nothing is stored. A
   * stored loan belongs to the requester whatever `userId` the body names,
   * and it is `pending` unless the body itself names another valid status.
   */
  lemma ApplyLoanChecks(loans: seq<Loan>, requester: nat, body: LoanBody)
    ensures var (reply, after) := ApplyLoan(loans, requester, body);
      && (reply == Error(400, "Loan amount and purpose are required") <==>
            !NonZero(body.amount) || !Truthy(body.purpose))
      && (reply.Error? ==> after == loans)
      && (reply.Ok? ==>
            && |after| == |loans| + 1 && after[..|loans|] == loans
            && after[|loans|].userId == requester
            && after[|loans|].amount == body.amount.value != 0
            && after[|loans|].purpose == body.purpose
            && (body.status.None? ==> after[|loans|].status == LoanStatus.Pending)
            && (body.status.Some? ==> LoanStatusName(after[|loans|].status) == body.status.value))
  {
    var (reply, after) := ApplyLoan(loans, requester, body);
    if reply.Ok? {
      assert after[..|loans|] == loans;
    }
  }

  /** The request body of a transfer; `recipientAccount` is not a path of the transfer schema. */
  datatype TransferBody = TransferBody(
    userId: Option<nat>,
    amount: Option<int>,
    recipientAccount: Option<string>,
    toAccount: Option<string>,
    status: Option<string>)

  /** `new Transfer({ ...req.body, userId: req.user.id }).save()`. */
  function MakeTransfer(transfers: seq<Transfer>, requester: nat, body: TransferBody): (Response<()>, seq<Transfer>)
  {
    if !NonZero(body.amount) || !Truthy(body.recipientAccount) then
      (Error(400, "Transfer amount and recipient account are required"), transfers)
    else
      var status := if body.status.Some? then ParseTransferStatus(body.status.value) else Some(TransferStatus.Pending);
      if status.None? then (Error(500, "Transfer failed"), transfers)
      else (Ok(201, ()), transfers + [Transfer(requester, body.toAccount, body.amount.value, status.value, None)])
  }

  method MakeTransferHandler(db: TransferCollection, requester: nat, body: TransferBody) returns (reply: Response<()>)
    modifies db
    ensures (reply, db.transfers) == MakeTransfer(old(db.transfers), requester, body)
  {
    if !NonZero(body.amount) || !Truthy(body.recipientAccount) {
      return Error(400, "Transfer amount and recipient account are required");
    }
    var status := Some(TransferStatus.Pending);
    if body.status.Some? {
      status := ParseTransferStatus(body.status.value);
    }
    if status.None? {
      return Error(500, "Transfer failed");
    }
    var transfer := Transfer(requester, body.toAccount, body.amount.value, status.value, None);
    db.transfers := db.transfers + [transfer];
    reply := Ok(201, ());
  }

  /**
   * A transfer request is refused with 400 exactly when the amount is
   * missing or 0 or the recipient account is missing or empty. A stored
   * transfer belongs to the requester, and its destination is the body's
   * `toAccount`, whatever `recipientAccount` says: the checked recipient is
   * not what is stored.
   */
  lemma MakeTransferChecks(transfers: seq<Transfer>, requester: nat, body: TransferBody)
    ensures var (reply, after) := MakeTransfer(transfers, requester, body);
      && (reply == Error(400, "Transfer amount and recipient account are required") <==>
            !NonZero(body.amount) || !Truthy(body.recipientAccount))
      && (reply.Error? ==> after == transfers)
      && (reply.Ok? ==>
            && |after| == |transfers| + 1 && after[..|transfers|] == transfers
            && after[|transfers|].userId == requester
            && after[|transfers|].amount == body.amount.value
            && after[|transfers|].toAccount == body.toAccount
            && (body.status.None? ==> after[|transfers|].status == TransferStatus.Pending))
  {
    var (reply, after) := MakeTransfer(transfers, requester, body);
    if reply.Ok? {
      assert after[..|transfers|] == transfers;
    }
  }

  // ---------------------------------------------------------------------
  // verifyAccount
  // ---------------------------------------------------------------------

  /** `{ verificationToken: token, verificationTokenExpiry: { $gt: now } }`. */
  predicate HoldsLiveToken(u: User, token: string, nowMs: int)
  {
    u.verificationToken == Some(token) && u.verificationTokenExpiry.Some? && u.verificationTokenExpiry.value > nowMs
  }

  function VerifyAccount(users: seq<User>, token: Option<string>, nowMs: int): (Response<()>, seq<User>)
  {
    if !Truthy(token) then (Error(400, "Verification token is required"), users)
    else match IndexOf(users, (u: User) => HoldsLiveToken(u, token.value, nowMs))
      case None => (Error(400, "Invalid or expired token"), users)
      case Some(i) =>
        var verified := users[i].(isVerified := true, verificationToken := None, verificationTokenExpiry := None);
        (Ok(200, ()), users[i := verified])
  }

  method VerifyAccountHandler(db: UserCollection, token: Option<string>, nowMs: int) returns (reply: Response<()>)
    modifies db
    ensures (reply, db.users) == VerifyAccount(old(db.users), token, nowMs)
  {
    if !Truthy(token) {
      return Error(400, "Verification token is required");
    }
    var found := IndexOf(db.users, (u: User) => HoldsLiveToken(u, token.value, nowMs));
    if found.None? {
      return Error(400, "Invalid or expired token");
    }
    var user := db.users[found.value];
    user := user.(isVerified := true);
    user := user.(verificationToken := None);
    user := user.(verificationTokenExpiry := None);
    db.users := db.users[found.value := user];
    reply := Ok(200, ());
  }

  /**
   * Verification succeeds exactly when some user holds this token with an
   * expiry strictly after now. The matched user becomes verified with token
   * and expiry cleared; no other user and no other field changes, and a
   * failure changes nothing.
   */
  lemma VerifyAccountSucceedsIff(users: seq<User>, token: Option<string>, nowMs: int)
    ensures var (reply, after) := VerifyAccount(users, token, nowMs);
      && (reply.Ok? <==>
            Truthy(token) && exists k :: 0 <= k < |users| && HoldsLiveToken(users[k], token.value, nowMs))
      && (reply.Error? ==> after == users)
      && (reply.Ok? ==>
            exists i :: 0 <= i < |users| && HoldsLiveToken(users[i], token.value, nowMs) &&
              after == users[i := users[i].(isVerified := true, verificationToken := None,
                                            verificationTokenExpiry := None)])
  {
    if Truthy(token) {
      var p := (u: User) => HoldsLiveToken(u, token.value, nowMs);
      var found := IndexOf(users, p);
      if found.Some? {
        assert p(users[found.value]);
      }
    }
  }

  /** A token whose expiry is now or earlier is refused. */
  lemma ExpiredTokenRefused(users: seq<User>, token: string, nowMs: int)
    requires token != ""
    requires forall k :: 0 <= k < |users| && users[k].verificationToken == Some(token) ==>
               users[k].verificationTokenExpiry.Some? && users[k].verificationTokenExpiry.value <= nowMs
    ensures VerifyAccount(users, Some(token), nowMs) == (Error(400, "Invalid or expired token"), users)
  {
  }

  /** When no two users share a token, a token that verified once is refused ever after. */
  lemma {:induction false} TokenIsSingleUse(users: seq<User>, token: string, now1: int, now2: int)
    requires forall a, b :: 0 <= a < b < |users| && users[a].verificationToken == Some(token) ==>
               users[b].verificationToken != Some(token)
    requires VerifyAccount(users, Some(token), now1).0.Ok?
    ensures var after := VerifyAccount(users, Some(token), now1).1;
      VerifyAccount(after, Some(token), now2) == (Error(400, "Invalid or expired token"), after)
  {
    var p := (u: User) => HoldsLiveToken(u, token, now1);
    var i := IndexOf(users, p).value;
    assert p(users[i]);
    var after := VerifyAccount(users, Some(token), now1).1;
    forall k | 0 <= k < |after| ensures !HoldsLiveToken(after[k], token, now2) {
      if k != i {
        assert after[k] == users[k];
        if k < i {
          assert users[k].verificationToken != Some(token);
        } else {
          assert users[k].verificationToken != Some(token);
        }
      }
    }
    var q := (u: User) => HoldsLiveToken(u, token, now2);
    assert forall k :: 0 <= k < |after| ==> !q(after[k]);
  }
}
