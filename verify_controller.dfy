/**
 * backend/controllers/verifyController.js: e-mail verification by a signed
 * token, which reports an already verified user without writing.
 */
module VerifyController {
  import opened Common
  import opened Models

  /** The `token` query parameter: absent, a string, or another value (an array of repeated parameters). */
  datatype TokenParam = Missing | Text(text: string) | NotText

  predicate UsableToken(t: TokenParam)
  {
    t.Text? && t.text != ""
  }

  /** `verifyUser`, for the answer `jwt` of verifying the token. */
  function VerifyUser(users: seq<User>, token: TokenParam, jwt: JwtAnswer): (Response<string>, seq<User>)
  {
    if !UsableToken(token) then (Error(400, "Missing or invalid verification token"), users)
    else if !jwt.Decoded? then (Error(403, "Invalid or expired token"), users)
    else match FindById(users, jwt.id)
      case None => (Error(404, "User not found"), users)
      case Some(i) =>
        if users[i].isVerified then (Ok(200, "User already verified"), users)
        else (Ok(200, "Account verified successfully"), users[i := users[i].(isVerified := true)])
  }

  method VerifyUserHandler(db: UserCollection, token: TokenParam, jwt: JwtAnswer) returns (reply: Response<string>)
    modifies db
    ensures (reply, db.users) == VerifyUser(old(db.users), token, jwt)
  {
    if !UsableToken(token) {
      return Error(400, "Missing or invalid verification token");
    }
    if !jwt.Decoded? {
      return Error(403, "Invalid or expired token");
    }
    var found := FindById(db.users, jwt.id);
    if found.None? {
      return Error(404, "User not found");
    }
    var user := db.users[found.value];
    if user.isVerified {
      return Ok(200, "User already verified");
    }
    user := user.(isVerified := true);
    db.users := db.users[found.value := user];
    reply := Ok(200, "Account verified successfully");
  }

  /**
   * A missing, empty or non-string token is refused with 400 before it is
   * decoded, so the answer of the verifier plays no part; a token that does
   * not verify gives 403 and an unknown id 404, and none of these writes.
   */
  lemma VerifyUserRefusals(users: seq<User>, token: TokenParam, jwt: JwtAnswer, otherJwt: JwtAnswer)
    ensures !UsableToken(token) ==>
      VerifyUser(users, token, jwt) == VerifyUser(users, token, otherJwt) ==
        (Error(400, "Missing or invalid verification token"), users)
    ensures UsableToken(token) && !jwt.Decoded? ==>
      VerifyUser(users, token, jwt) == (Error(403, "Invalid or expired token"), users)
    ensures UsableToken(token) && jwt.Decoded? && (forall k :: 0 <= k < |users| ==> users[k].id != jwt.id) ==>
      VerifyUser(users, token, jwt) == (Error(404, "User not found"), users)
  {
  }

  /**
   * A successful verification sets `isVerified` of the user the token names
   * and changes no other field and no other user; a user who is already
   * verified is reported as such and nothing is written.
   */
  lemma VerifyUserEffect(users: seq<User>, token: TokenParam, jwt: JwtAnswer)
    requires UsableToken(token) && jwt.Decoded? && FindById(users, jwt.id).Some?
    ensures var i := FindById(users, jwt.id).value;
      var (reply, after) := VerifyUser(users, token, jwt);
      && users[i].id == jwt.id
      && reply.Ok?
      && after == users[i := users[i].(isVerified := true)]
      && (users[i].isVerified <==> reply.body == "User already verified")
  {
  }

  /** Verifying twice with the same token leaves the same users as verifying once. */
  lemma VerifyUserIdempotent(users: seq<User>, token: TokenParam, jwt: JwtAnswer)
    ensures var once := VerifyUser(users, token, jwt).1;
      VerifyUser(once, token, jwt).1 == once
    ensures var once := VerifyUser(users, token, jwt);
      once.0.Ok? ==> VerifyUser(once.1, token, jwt).0 == Ok(200, "User already verified")
  {
    if UsableToken(token) && jwt.Decoded? && FindById(users, jwt.id).Some? {
      var i := FindById(users, jwt.id).value;
      var once := VerifyUser(users, token, jwt).1;
      var p := (u: User) => u.id == jwt.id;
      assert forall k :: 0 <= k < i ==> once[k] == users[k] && !p(once[k]);
      assert p(once[i]);
      assert FindById(once, jwt.id) == Some(i);
    }
  }
}
