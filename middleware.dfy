/**
 * backend/middleware.js: `verifyToken` takes the text after `Bearer ` as the
 * token and normalises the role it carries; `isAdmin` admits an `admin` role
 * from the token at once and otherwise asks the store.
 *
 * Token verification is the oracle `verify`, which answers for every token
 * string what `jsonwebtoken.verify` would.
 */
module Middleware {
  import opened Common
  import opened Models

  const BEARER := "Bearer "

  /** `h.startsWith('Bearer ') ? h.slice(7) : ''` with `h = authorization || ''`. */
  function BearerToken(authorization: Option<string>): string
  {
    var h := if authorization.Some? then authorization.value else "";
    if StartsWith(h, BEARER) then h[|BEARER|..] else ""
  }

  /**
   * The token is what follows the first seven characters exactly when the
   * header starts with `Bearer `, and empty otherwise; a missing header
   * reads as the empty one, and extraction inverts prefixing.
   */
  lemma BearerTokenExtraction(authorization: Option<string>, token: string)
    ensures authorization.Some? && StartsWith(authorization.value, "Bearer ") ==>
      BEARER + BearerToken(authorization) == authorization.value
    ensures !(authorization.Some? && StartsWith(authorization.value, "Bearer ")) ==> BearerToken(authorization) == ""
    ensures BearerToken(None) == BearerToken(Some("")) == ""
    ensures BearerToken(Some("Bearer " + token)) == token
  {
    var h := "Bearer " + token;
    assert h[..7] == "Bearer ";
    assert h[7..] == token;
    if authorization.Some? && StartsWith(authorization.value, "Bearer ") {
      var a := authorization.value;
      assert a == a[..7] + a[7..];
    }
  }

  /** Who the request is made by, as `req.user`. */
  datatype Principal = Principal(id: nat, role: string)

  /** `(role || 'user').toLowerCase()`. */
  function NormalisedRole(role: Option<string>): string
  {
    Lower(if Truthy(role) then role.value else "user")
  }

  function VerifyToken(authorization: Option<string>, verify: string -> JwtAnswer): Response<Principal>
  {
    var token := BearerToken(authorization);
    if token == "" then Error(401, "Missing or malformed token")
    else match verify(token)
      case Decoded(id, role) => Ok(200, Principal(id, NormalisedRole(role)))
      case Expired => Error(403, "Token expired")
      case Invalid => Error(403, "Invalid or expired token")
  }

  /**
   * An empty token, from a missing header, another scheme or a bare
   * `Bearer `, is refused with 401 before anything is verified. A token that
   * does not verify gives 403, with `Token expired` exactly for an expired
   * one. An accepted request carries the token's id and its role
   * lower-cased, `user` when the token has none.
   */
  lemma VerifyTokenOutcomes(authorization: Option<string>, verify: string -> JwtAnswer)
    ensures BearerToken(authorization) == "" ==> VerifyToken(authorization, verify) == Error(401, "Missing or malformed token")
    ensures VerifyToken(Some("Bearer "), verify).Error? && VerifyToken(None, verify).status == 401
    ensures var r := VerifyToken(authorization, verify);
      && (r.Error? && r.status == 403 <==> BearerToken(authorization) != "" && !verify(BearerToken(authorization)).Decoded?)
      && (r == Error(403, "Token expired") <==> BearerToken(authorization) != "" && verify(BearerToken(authorization)) == Expired)
    ensures var r := VerifyToken(authorization, verify);
      r.Ok? ==>
        var answer := verify(BearerToken(authorization));
        && answer.Decoded?
        && r.body.id == answer.id
        && r.body.role == Lower(r.body.role)
        && (!Truthy(answer.role) ==> r.body.role == "user")
        && (Truthy(answer.role) ==> r.body.role == Lower(answer.role.value))
  {
    BearerTokenExtraction(Some("Bearer "), "");
    var r := VerifyToken(authorization, verify);
    if r.Ok? {
      var answer := verify(BearerToken(authorization));
      LowerIdempotent(if Truthy(answer.role) then answer.role.value else "user");
      assert Lower("user") == "user";
    }
  }

  /** A token whose role is `Admin`, `ADMIN` or `admin` is admitted as `admin`. */
  lemma RoleNormalisationIgnoresCase()
    ensures NormalisedRole(Some("Admin")) == NormalisedRole(Some("ADMIN")) == NormalisedRole(Some("admin")) == "admin"
    ensures NormalisedRole(None) == NormalisedRole(Some("")) == "user"
  {
    assert Lower("Admin") == "admin";
    assert Lower("ADMIN") == "admin";
    assert Lower("admin") == "admin";
    assert Lower("user") == "user";
  }

  /** `isAdmin`: the token's role first, then the stored role of the same id. */
  function IsAdmin(principal: Principal, users: seq<User>): Response<()>
  {
    if principal.role == "admin" then Ok(200, ())
    else match FindById(users, principal.id)
      case Some(i) =>
        if RoleName(users[i].role) == "admin" then Ok(200, ()) else Error(403, "Access denied: Admins only")
      case None => Error(403, "Access denied: Admins only")
  }

  /**
   * An `admin` role in the token admits without looking at the store;
   * otherwise the request is admitted exactly when the first stored user
   * with that id has the role admin, and refused with 403 when not.
   */
  lemma IsAdminDecision(principal: Principal, users: seq<User>, otherUsers: seq<User>)
    ensures principal.role == "admin" ==> IsAdmin(principal, users) == IsAdmin(principal, otherUsers) == Ok(200, ())
    ensures principal.role != "admin" ==>
      (IsAdmin(principal, users).Ok? <==>
         exists i :: 0 <= i < |users| && users[i].id == principal.id && users[i].role == Admin &&
                     forall k :: 0 <= k < i ==> users[k].id != principal.id)
    ensures IsAdmin(principal, users).Error? ==> IsAdmin(principal, users) == Error(403, "Access denied: Admins only")
  {
    var p := (u: User) => u.id == principal.id;
    var found := IndexOf(users, p);
    if found.Some? {
      assert p(users[found.value]);
      assert RoleName(users[found.value].role) == "admin" <==> users[found.value].role == Admin;
    }
  }
}
