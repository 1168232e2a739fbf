/**
 * backend/models.js: the user, loan, transfer and ticket records, their
 * enumerations and `min: 0` constraints, the collections that hold them,
 * and the `pre('save')` hooks that assign a transfer or ticket reference.
 *
 * The same user record also stands for the user schemas of backend/user.js
 * and backend/models/User.js, which declare subsets of these fields; a text
 * field that a document does not hold is the empty string.
 */
module Models {
  import opened Common
  import Decimal

  datatype Role = RegularUser | Admin | Support
  datatype KycStatus = Pending | Approved | Verified | Rejected
  datatype AccountType = Checking | Savings | Business
  datatype AccountStatus = Active | Inactive
  datatype LoanStatus = Pending | Approved | Rejected
  datatype TransferStatus = Pending | Completed
  datatype TicketStatus = Open | Resolved

  /** The strings the schema stores for a role. */
  function RoleName(r: Role): string
  {
    match r
    case RegularUser => "user"
    case Admin => "admin"
    case Support => "support"
  }

  /** Mongoose's enum check on a stored role string. */
  function ParseRole(s: string): (r: Option<Role>)
    ensures r.Some? ==> RoleName(r.value) == s
    ensures forall role: Role :: RoleName(role) == s ==> r == Some(role)
  {
    if s == "user" then Some(RegularUser)
    else if s == "admin" then Some(Admin)
    else if s == "support" then Some(Support)
    else None
  }

  function KycStatusName(k: KycStatus): string
  {
    match k
    case Pending => "pending"
    case Approved => "approved"
    case Verified => "verified"
    case Rejected => "rejected"
  }

  function ParseKycStatus(s: string): (r: Option<KycStatus>)
    ensures r.Some? ==> KycStatusName(r.value) == s
    ensures forall k: KycStatus :: KycStatusName(k) == s ==> r == Some(k)
  {
    if s == "pending" then Some(KycStatus.Pending)
    else if s == "approved" then Some(KycStatus.Approved)
    else if s == "verified" then Some(Verified)
    else if s == "rejected" then Some(KycStatus.Rejected)
    else None
  }

  function LoanStatusName(s: LoanStatus): string
  {
    match s
    case Pending => "pending"
    case Approved => "approved"
    case Rejected => "rejected"
  }

  /** Mongoose's enum check on a loan status string. */
  function ParseLoanStatus(s: string): (r: Option<LoanStatus>)
    ensures r.Some? ==> LoanStatusName(r.value) == s
    ensures forall st: LoanStatus :: LoanStatusName(st) == s ==> r == Some(st)
  {
    if s == "pending" then Some(LoanStatus.Pending)
    else if s == "approved" then Some(LoanStatus.Approved)
    else if s == "rejected" then Some(LoanStatus.Rejected)
    else None
  }

  function TransferStatusName(s: TransferStatus): string
  {
    match s
    case Pending => "pending"
    case Completed => "completed"
  }

  /** Mongoose's enum check on a transfer status string. */
  function ParseTransferStatus(s: string): (r: Option<TransferStatus>)
    ensures r.Some? ==> TransferStatusName(r.value) == s
    ensures forall st: TransferStatus :: TransferStatusName(st) == s ==> r == Some(st)
  {
    if s == "pending" then Some(TransferStatus.Pending)
    else if s == "completed" then Some(Completed)
    else None
  }

  datatype User = User(
    id: nat,
    fullName: string,
    email: string,
    phone: string,
    username: string,
    passwordHash: string,
    dob: string,
    ssn: string,
    bankName: string,
    role: Role,
    kycStatus: KycStatus,
    idFront: string,
    idBack: string,
    isVerified: bool,
    accountNumber: string,
    accountType: AccountType,
    accountStatus: AccountStatus,
    balance: int,
    availableBalance: int,
    routingNumber: string,
    isSeeded: bool,
    verificationToken: Option<string>,
    verificationTokenExpiry: Option<int>)

  /** A user document holding only the schema defaults besides its id. */
  function DefaultUser(id: nat, routingNumber: string): (u: User)
    ensures u.id == id && u.routingNumber == routingNumber
    ensures u.role == RegularUser && u.kycStatus == KycStatus.Pending && !u.isVerified
    ensures u.accountType == Checking && u.accountStatus == Inactive
    ensures u.balance == 0 && u.availableBalance == 0 && !u.isSeeded
    ensures u.idFront == "" && u.idBack == ""
    ensures u.verificationToken.None? && u.verificationTokenExpiry.None?
  {
    User(id, "", "", "", "", "", "", "", "", RegularUser, KycStatus.Pending, "", "", false,
         "", Checking, Inactive, 0, 0, routingNumber, false, None, None)
  }

  datatype Loan = Loan(userId: nat, amount: int, purpose: Option<string>, status: LoanStatus)

  datatype Transfer = Transfer(
    userId: nat,
    toAccount: Option<string>,
    amount: int,
    status: TransferStatus,
    transferId: Option<string>)

  /** The `min: 0` constraints of the loan and transfer schemas. */
  predicate ValidLoan(l: Loan) { l.amount >= 0 }
  predicate ValidTransfer(t: Transfer) { t.amount >= 0 }

  /** The `User` collection, in storage order. */
  class UserCollection {
    var users: seq<User>

    constructor (users: seq<User>)
      ensures this.users == users
    {
      this.users := users;
    }
  }

  /** The `Loan` collection. */
  class LoanCollection {
    var loans: seq<Loan>

    constructor (loans: seq<Loan>)
      ensures this.loans == loans
    {
      this.loans := loans;
    }
  }

  /** The `Transfer` collection. */
  class TransferCollection {
    var transfers: seq<Transfer>

    constructor (transfers: seq<Transfer>)
      ensures this.transfers == transfers
    {
      this.transfers := transfers;
    }
  }

  /** `findById`: the position of the first user with this id. */
  function FindById(users: seq<User>, id: nat): Option<nat>
  {
    IndexOf(users, (u: User) => u.id == id)
  }

  /** `findOne({ email })`. */
  function FindByEmail(users: seq<User>, email: string): Option<nat>
  {
    IndexOf(users, (u: User) => u.email == email)
  }

  // ---------------------------------------------------------------------
  // Reference numbers assigned by the pre('save') hooks
  // ---------------------------------------------------------------------

  /** `Math.floor(Math.random() * 1000)` for a draw `0 <= rand < 1`. */
  function RandomSuffix(rand: real): (s: nat)
    requires 0.0 <= rand < 1.0
    ensures s <= 999
  {
    (rand * 1000.0).Floor
  }

  /** `${prefix}${Math.floor(nowMs / 1000)}-${suffix}`. */
  function ClockId(prefix: string, nowMs: nat, suffix: nat): string
  {
    prefix + Decimal.Show(nowMs / 1000) + "-" + Decimal.Show(suffix)
  }

  /** The position of the first '-' in `s`, if any. */
  function DashIndex(s: string): (r: Option<nat>)
    ensures r.Some? ==> r.value < |s| && s[r.value] == '-' && '-' !in s[..r.value]
    ensures r.None? ==> '-' !in s
  {
    IndexOf(s, (c: char) => c == '-')
  }

  /** Reads back the seconds and the suffix of a reference made by `ClockId`. */
  function ParseClockId(prefix: string, id: string): Option<(nat, nat)>
  {
    if !StartsWith(id, prefix) then None
    else
      var rest := id[|prefix|..];
      match DashIndex(rest)
      case None => None
      case Some(d) =>
        var secs, suffix := rest[..d], rest[d + 1..];
        if secs != [] && suffix != [] && Decimal.AllDigits(secs) && Decimal.AllDigits(suffix)
        then Some((Decimal.Parse(secs), Decimal.Parse(suffix)))
        else None
  }

  /** A generated reference carries the clock's seconds and the suffix, and nothing else. */
  lemma ClockIdRoundTrip(prefix: string, nowMs: nat, suffix: nat)
    ensures ParseClockId(prefix, ClockId(prefix, nowMs, suffix)) == Some((nowMs / 1000, suffix))
  {
    var secs, tail := Decimal.Show(nowMs / 1000), Decimal.Show(suffix);
    var id := ClockId(prefix, nowMs, suffix);
    assert id[..|prefix|] == prefix;
    var rest := id[|prefix|..];
    assert rest == secs + "-" + tail;
    assert '-' !in secs by {
      forall i | 0 <= i < |secs| ensures secs[i] != '-' {
        assert Decimal.IsDigit(secs[i]);
      }
    }
    assert rest[|secs|] == '-' && rest[..|secs|] == secs;
    assert DashIndex(rest) == Some(|secs|);
    assert rest[|secs| + 1..] == tail;
    Decimal.ParseShow(nowMs / 1000);
    Decimal.ParseShow(suffix);
  }

  /** Two references made at different seconds or with different suffixes differ. */
  lemma ClockIdInjective(prefix: string, t1: nat, s1: nat, t2: nat, s2: nat)
    requires ClockId(prefix, t1, s1) == ClockId(prefix, t2, s2)
    ensures t1 / 1000 == t2 / 1000 && s1 == s2
  {
    ClockIdRoundTrip(prefix, t1, s1);
    ClockIdRoundTrip(prefix, t2, s2);
  }

  /** `if (!this.xId) this.xId = generated`: an existing reference is kept. */
  function AssignIfAbsent(current: Option<string>, generated: string): (r: string)
    ensures Truthy(current) ==> r == current.value
    ensures !Truthy(current) ==> r == generated
  {
    if Truthy(current) then current.value else generated
  }

  /** Running a hook a second time keeps what the first run produced. */
  lemma AssignIfAbsentIdempotent(current: Option<string>, first: string, second: string)
    requires first != ""
    ensures AssignIfAbsent(Some(AssignIfAbsent(current, first)), second) == AssignIfAbsent(current, first)
  {
  }

  /** A transfer document of backend/models.js. */
  class TransferDocument {
    var userId: nat
    var toAccount: string
    var amount: int
    var status: TransferStatus
    var transferId: Option<string>

    /** A new document takes the schema default status `pending`. */
    constructor (userId: nat, toAccount: string, amount: int, transferId: Option<string>)
      ensures this.userId == userId && this.toAccount == toAccount && this.amount == amount
      ensures status == TransferStatus.Pending && this.transferId == transferId
    {
      this.userId, this.toAccount, this.amount := userId, toAccount, amount;
      status := TransferStatus.Pending;
      this.transferId := transferId;
    }

    /** The `pre('save')` hook: `TR-<seconds>-<suffix>` when no id is set. */
    method PreSave(nowMs: nat, rand: real)
      requires 0.0 <= rand < 1.0
      modifies this`transferId
      ensures transferId == Some(AssignIfAbsent(old(transferId), ClockId("TR-", nowMs, RandomSuffix(rand))))
    {
      if !Truthy(transferId) {
        var randomSuffix := RandomSuffix(rand);
        transferId := Some(ClockId("TR-", nowMs, randomSuffix));
      }
    }
  }

  /** A ticket document of backend/models.js. */
  class TicketDocument {
    var userId: nat
    var userEmail: string
    var issue: string
    var status: TicketStatus
    var ticketId: Option<string>

    constructor (userId: nat, userEmail: string, issue: string, ticketId: Option<string>)
      ensures this.userId == userId && this.userEmail == userEmail && this.issue == issue
      ensures status == Open && this.ticketId == ticketId
    {
      this.userId, this.userEmail, this.issue := userId, userEmail, issue;
      status := Open;
      this.ticketId := ticketId;
    }

    /** The `pre('save')` hook: `T-<seconds>-<suffix>` when no id is set. */
    method PreSave(nowMs: nat, rand: real)
      requires 0.0 <= rand < 1.0
      modifies this`ticketId
      ensures ticketId == Some(AssignIfAbsent(old(ticketId), ClockId("T-", nowMs, RandomSuffix(rand))))
    {
      if !Truthy(ticketId) {
        var randomSuffix := RandomSuffix(rand);
        ticketId := Some(ClockId("T-", nowMs, randomSuffix));
      }
    }
  }

  /** Saving a transfer twice assigns its reference once: the second hook keeps it. */
  method SaveTwice(doc: TransferDocument, now1: nat, rand1: real, now2: nat, rand2: real)
    requires 0.0 <= rand1 < 1.0 && 0.0 <= rand2 < 1.0
    modifies doc`transferId
    ensures doc.transferId == Some(AssignIfAbsent(old(doc.transferId), ClockId("TR-", now1, RandomSuffix(rand1))))
    ensures doc.userId == old(doc.userId) && doc.toAccount == old(doc.toAccount)
    ensures doc.amount == old(doc.amount) && doc.status == old(doc.status)
  {
    doc.PreSave(now1, rand1);
    doc.PreSave(now2, rand2);
  }
}
