/**
 * backend/controllers/kycController.js: uploading the two identity images,
 * listing the users whose KYC is pending, and the administrator's approval
 * and rejection.
 */
module KycController {
  import opened Common
  import opened Models

  // ---------------------------------------------------------------------
  // uploadKYC
  // ---------------------------------------------------------------------

  /**
   * `uploadKYC` for the stored names of the uploaded `idFront` and `idBack`
   * files (`None` when that file is missing). The user is looked up first,
   * so an unknown requester gets 404 even without files.
   */
  function UploadKyc(users: seq<User>, requester: nat, idFront: Option<string>, idBack: Option<string>)
    : (Response<string>, seq<User>)
  {
    match FindById(users, requester)
    case None => (Error(404, "User not found"), users)
    case Some(i) =>
      if idFront.None? || idBack.None? then (Error(400, "Both ID front and back images are required"), users)
      else
        var user := users[i].(idFront := idFront.value, idBack := idBack.value, kycStatus := KycStatus.Pending);
        (Ok(200, "KYC documents uploaded successfully"), users[i := user])
  }

  method UploadKycHandler(db: UserCollection, requester: nat, idFront: Option<string>, idBack: Option<string>)
    returns (reply: Response<string>)
    modifies db
    ensures (reply, db.users) == UploadKyc(old(db.users), requester, idFront, idBack)
  {
    var found := FindById(db.users, requester);
    if found.None? {
      return Error(404, "User not found");
    }
    if idFront.None? || idBack.None? {
      return Error(400, "Both ID front and back images are required");
    }
    var user := db.users[found.value];
    user := user.(idFront := idFront.value);
    user := user.(idBack := idBack.value);
    user := user.(kycStatus := KycStatus.Pending);
    db.users := db.users[found.value := user];
    reply := Ok(200, "KYC documents uploaded successfully");
  }

  /**
   * An upload goes through exactly when the requester is stored and both
   * files are present. It then stores both file names and sets the KYC
   * status to pending, whatever it was before, changing nothing else; a
   * refused upload changes nothing.
   */
  lemma UploadKycEffect(users: seq<User>, requester: nat, idFront: Option<string>, idBack: Option<string>)
    ensures var (reply, after) := UploadKyc(users, requester, idFront, idBack);
      && (reply.Ok? <==>
            (exists k :: 0 <= k < |users| && users[k].id == requester) && idFront.Some? && idBack.Some?)
      && (reply.Error? ==> after == users)
      && (reply.Ok? ==>
            var i := FindById(users, requester).value;
            && after[i].idFront == idFront.value && after[i].idBack == idBack.value
            && after[i].kycStatus == KycStatus.Pending
            && after == users[i := users[i].(idFront := idFront.value, idBack := idBack.value,
                                             kycStatus := KycStatus.Pending)])
  {
    var p := (u: User) => u.id == requester;
    var found := IndexOf(users, p);
    if found.Some? {
      assert p(users[found.value]);
    }
  }

  // ---------------------------------------------------------------------
  // getPendingKYC
  // ---------------------------------------------------------------------

  /** `User.find({ kycStatus: 'pending' }).select('-password')`, in storage order. */
  function PendingKyc(users: seq<User>): seq<User>
  {
    if users == [] then []
    else
      var rest := PendingKyc(users[1..]);
      if users[0].kycStatus == KycStatus.Pending then [users[0].(passwordHash := "")] + rest else rest
  }

  /**
   * The pending list holds exactly the stored pending users, each without
   * its password hash: every listed entry comes from a stored pending user,
   * and every stored pending user is listed.
   */
  lemma {:induction false} PendingKycExact(users: seq<User>)
    ensures forall u :: u in PendingKyc(users) ==>
      exists k :: 0 <= k < |users| && users[k].kycStatus == KycStatus.Pending && u == users[k].(passwordHash := "")
    ensures forall u :: u in PendingKyc(users) ==> u.kycStatus == KycStatus.Pending && u.passwordHash == ""
    ensures forall k :: 0 <= k < |users| && users[k].kycStatus == KycStatus.Pending ==>
      users[k].(passwordHash := "") in PendingKyc(users)
    ensures |PendingKyc(users)| <= |users|
  {
    if users != [] {
      PendingKycExact(users[1..]);
      forall u | u in PendingKyc(users)
        ensures exists k :: 0 <= k < |users| && users[k].kycStatus == KycStatus.Pending && u == users[k].(passwordHash := "")
      {
        if u !in PendingKyc(users[1..]) {
          assert users[0].kycStatus == KycStatus.Pending && u == users[0].(passwordHash := "");
        } else {
          var k :| 0 <= k < |users[1..]| && users[1..][k].kycStatus == KycStatus.Pending
                   && u == users[1..][k].(passwordHash := "");
          assert users[k + 1] == users[1..][k];
        }
      }
      forall k | 0 <= k < |users| && users[k].kycStatus == KycStatus.Pending
        ensures users[k].(passwordHash := "") in PendingKyc(users)
      {
        if k > 0 {
          assert users[k] == users[1..][k - 1];
        }
      }
    }
  }

  /**
   * The list keeps storage order: listing two groups of users lists the
   * first group's pending users, then the second's.
   */
  lemma {:induction false} PendingKycAppend(a: seq<User>, b: seq<User>)
    ensures PendingKyc(a + b) == PendingKyc(a) + PendingKyc(b)
  {
    if a == [] {
      assert a + b == b;
    } else {
      assert (a + b)[1..] == a[1..] + b;
      PendingKycAppend(a[1..], b);
    }
  }

  // ---------------------------------------------------------------------
  // approveKYC and rejectKYC
  // ---------------------------------------------------------------------

  /** `findByIdAndUpdate(id, { kycStatus: status })`. */
  function SetKycStatus(users: seq<User>, id: nat, status: KycStatus): (Response<()>, seq<User>)
  {
    match FindById(users, id)
    case None => (Error(404, "User not found"), users)
    case Some(i) => (Ok(200, ()), users[i := users[i].(kycStatus := status)])
  }

  method ApproveKycHandler(db: UserCollection, id: nat) returns (reply: Response<()>)
    modifies db
    ensures (reply, db.users) == SetKycStatus(old(db.users), id, KycStatus.Approved)
  {
    var found := FindById(db.users, id);
    if found.None? {
      return Error(404, "User not found");
    }
    db.users := db.users[found.value := db.users[found.value].(kycStatus := KycStatus.Approved)];
    reply := Ok(200, ());
  }

  method RejectKycHandler(db: UserCollection, id: nat) returns (reply: Response<()>)
    modifies db
    ensures (reply, db.users) == SetKycStatus(old(db.users), id, KycStatus.Rejected)
  {
    var found := FindById(db.users, id);
    if found.None? {
      return Error(404, "User not found");
    }
    db.users := db.users[found.value := db.users[found.value].(kycStatus := KycStatus.Rejected)];
    reply := Ok(200, ());
  }

  /**
   * Approval or rejection of a stored user sets its status from any prior
   * status and changes nothing else; an unknown id gives 404 and changes
   * nothing.
   */
  lemma SetKycStatusEffect(users: seq<User>, id: nat, status: KycStatus)
    ensures var (reply, after) := SetKycStatus(users, id, status);
      && (reply.Error? <==> forall k :: 0 <= k < |users| ==> users[k].id != id)
      && (reply.Error? ==> reply == Error(404, "User not found") && after == users)
      && (reply.Ok? ==>
            var i := FindById(users, id).value;
            && users[i].id == id
            && after[i].kycStatus == status
            && after == users[i := users[i].(kycStatus := status)])
  {
  }

  /** Setting the same status twice leaves the users as setting it once. */
  lemma SetKycStatusIdempotent(users: seq<User>, id: nat, status: KycStatus)
    ensures var once := SetKycStatus(users, id, status).1;
      SetKycStatus(once, id, status) == (SetKycStatus(users, id, status).0, once)
  {
    var once := SetKycStatus(users, id, status).1;
    var p := (u: User) => u.id == id;
    match FindById(users, id)
    case None =>
    case Some(i) =>
      assert forall k :: 0 <= k < i ==> once[k] == users[k] && !p(once[k]);
      assert p(once[i]);
      assert FindById(once, id) == Some(i);
      assert once[i].(kycStatus := status) == once[i];
      assert once[i := once[i]] == once;
  }

  /** An approved user is no longer listed as pending. */
  lemma ApprovalLeavesPendingList(users: seq<User>, id: nat)
    requires FindById(users, id).Some?
    ensures var after := SetKycStatus(users, id, KycStatus.Approved).1;
      var i := FindById(users, id).value;
      after[i].(passwordHash := "") !in PendingKyc(after)
  {
    var after := SetKycStatus(users, id, KycStatus.Approved).1;
    PendingKycExact(after);
  }
}
