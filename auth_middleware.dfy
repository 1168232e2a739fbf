/**
 * backend/middleware/authMiddleware.js: `verifyToken` demands a header
 * starting with `Bearer ` and takes its second space-separated field as the
 * token; `isAdmin` admits only the role spelled exactly `Admin`.
 */
module AuthMiddleware {
  import opened Common
  import opened Models

  predicate IsBlank(c: char)
  {
    c == ' '
  }

  /** `s.split(' ')`: the fields between single spaces, empty fields included. */
  function Split(s: string): (r: seq<string>)
    ensures |r| >= 1
    ensures forall k :: 0 <= k < |r| ==> ' ' !in r[k]
    decreases |s|
  {
    match IndexOf(s, IsBlank)
    case None => [s]
    case Some(i) =>
      assert forall k :: 0 <= k < i ==> s[..i][k] == s[k];
      [s[..i]] + Split(s[i + 1..])
  }

  /** `parts.join(' ')`. */
  function Join(parts: seq<string>): string
    requires |parts| >= 1
  {
    if |parts| == 1 then parts[0] else parts[0] + " " + Join(parts[1..])
  }

  /** Splitting at the first space: the text before it, then the fields of the rest. */
  lemma SplitAtFirstSpace(s: string, i: nat)
    requires IndexOf(s, IsBlank) == Some(i)
    ensures Split(s) == [s[..i]] + Split(s[i + 1..])
    ensures s == s[..i] + " " + s[i + 1..]
  {
  }

  lemma JoinCons(first: string, rest: seq<string>)
    requires |rest| >= 1
    ensures Join([first] + rest) == first + " " + Join(rest)
  {
    assert ([first] + rest)[1..] == rest;
  }

  /** Splitting loses nothing: joining the fields gives back the string. */
  lemma {:induction false} SplitJoin(s: string)
    ensures Join(Split(s)) == s
    decreases |s|
  {
    match IndexOf(s, IsBlank)
    case None =>
    case Some(i) =>
      SplitAtFirstSpace(s, i);
      SplitJoin(s[i + 1..]);
      JoinCons(s[..i], Split(s[i + 1..]));
  }

  /** The first field of a string is the text up to its first space. */
  lemma FirstField(word: string, rest: string)
    requires ' ' !in word
    ensures Split(word)[0] == word
    ensures Split(word + " " + rest)[0] == word
  {
    var p := IsBlank;
    assert forall k :: 0 <= k < |word| ==> !p(word[k]);
    var s := word + " " + rest;
    assert forall k :: 0 <= k < |word| ==> !p(s[k]);
    assert p(s[|word|]);
    assert IndexOf(s, p) == Some(|word|);
    assert s[..|word|] == word;
  }

  /**
   * After `Bearer ` the token is the next field: a token without spaces is
   * taken whole, and whatever follows another space is ignored.
   */
  lemma SecondFieldAfterBearer(token: string, rest: string)
    requires ' ' !in token
    ensures |Split("Bearer " + token)| >= 2 && Split("Bearer " + token)[1] == token
    ensures |Split("Bearer " + token + " " + rest)| >= 2 && Split("Bearer " + token + " " + rest)[1] == token
  {
    var p := IsBlank;
    var a := "Bearer " + token;
    var b := "Bearer " + token + " " + rest;
    assert forall k :: 0 <= k < 6 ==> !p(a[k]) && !p(b[k]);
    assert p(a[6]) && p(b[6]);
    assert IndexOf(a, p) == Some(6);
    assert IndexOf(b, p) == Some(6);
    assert a[7..] == token;
    assert b[7..] == token + " " + rest;
    FirstField(token, rest);
  }

  /** The decoded payload that becomes `req.user`. */
  function VerifyToken(authorization: Option<string>, verify: string -> JwtAnswer): Response<JwtAnswer>
  {
    if !Truthy(authorization) || !StartsWith(authorization.value, "Bearer ") then
      Error(401, "Missing or malformed token")
    else
      var fields := Split(authorization.value);
      var token := if |fields| > 1 then fields[1] else "";
      var answer := verify(token);
      if answer.Decoded? then Ok(200, answer) else Error(403, "Invalid or expired token")
  }

  /** A header that starts with `Bearer ` always has a second field. */
  lemma BearerHeaderHasSecondField(header: string)
    requires StartsWith(header, "Bearer ")
    ensures |Split(header)| >= 2
    ensures Split(header)[1] == Split(header[7..])[0]
  {
    var p := IsBlank;
    assert header[..7] == "Bearer ";
    assert forall k :: 0 <= k < 6 ==> !p(header[k]);
    assert p(header[6]);
    assert IndexOf(header, p) == Some(6);
  }

  /**
   * A missing header or one without the `Bearer ` prefix gets 401; any
   * other gets 403 unless its second field verifies, and an accepted
   * request carries the verifier's whole answer for that field.
   */
  lemma VerifyTokenOutcomes(authorization: Option<string>, verify: string -> JwtAnswer)
    ensures !Truthy(authorization) ==> VerifyToken(authorization, verify) == Error(401, "Missing or malformed token")
    ensures Truthy(authorization) && !StartsWith(authorization.value, "Bearer ") ==>
      VerifyToken(authorization, verify) == Error(401, "Missing or malformed token")
    ensures Truthy(authorization) && StartsWith(authorization.value, "Bearer ") ==>
      && |Split(authorization.value)| >= 2
      && var answer := verify(Split(authorization.value)[1]);
      && (answer.Decoded? ==> VerifyToken(authorization, verify) == Ok(200, answer))
      && (!answer.Decoded? ==> VerifyToken(authorization, verify) == Error(403, "Invalid or expired token"))
  {
    if Truthy(authorization) && StartsWith(authorization.value, "Bearer ") {
      BearerHeaderHasSecondField(authorization.value);
    }
  }

  /** `isAdmin`: the exact, case-sensitive role `Admin`, from the token and then from the store. */
  function IsAdmin(claims: JwtAnswer, users: seq<User>): Response<()>
    requires claims.Decoded?
  {
    if claims.role == Some("Admin") then Ok(200, ())
    else match FindById(users, claims.id)
      case Some(i) =>
        if RoleName(users[i].role) == "Admin" then Ok(200, ()) else Error(403, "Access denied: Admins only")
      case None => Error(403, "Access denied: Admins only")
  }

  /**
   * Only a token whose role is exactly `Admin` is admitted: the stored
   * roles are the lower-case values of the schema enum, so the store never
   * admits, and a token role of `admin` is refused with 403. The tokens the
   * backend signs carry the stored role, so none of them says `Admin`
   * either.
   */
  lemma IsAdminExactRole(claims: JwtAnswer, users: seq<User>)
    requires claims.Decoded?
    ensures IsAdmin(claims, users).Ok? <==> claims.role == Some("Admin")
    ensures IsAdmin(claims, users).Error? ==> IsAdmin(claims, users) == Error(403, "Access denied: Admins only")
    ensures IsAdmin(claims.(role := Some("admin")), users).Error?
  {
    forall r: Role ensures RoleName(r) != "Admin" {
      assert RoleName(r)[0] != 'A';
    }
  }
}
