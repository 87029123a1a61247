/** The two request gates of the server: `protect`, which turns an
    `Authorization: Bearer <token>` header into the signed-in user, and
    `isSeller`, which admits only the Seller. Token verification is a
    parameter `verify`, a partial map from token to user id. */
module Auth {
  import opened Common
  import opened Models
  import opened Collections

  const NoToken := "Not authorized, no token."
  const TokenFailed := "Not authorized, token failed."
  const UserNotFound := "Not authorized, user not found."
  const Forbidden := "Forbidden. Access restricted to sellers."

  /** A gate either calls `next()` with the user it attached to the request,
      or answers the request itself. */
  datatype Gate = Next(user: PublicUser) | Deny(status: nat, message: string)

  /** One response written by a middleware. */
  datatype Response = Response(status: nat, message: string)

  /** Everything a run of `protect` did: the responses it wrote, in order,
      and the user passed on if it called `next()`. */
  datatype Trace = Trace(sent: seq<Response>, next: Option<PublicUser>)

  // ---------------------------------------------------------------------
  // The header
  // ---------------------------------------------------------------------

  /** Position of the first space, or the length when there is none. */
  function IndexOfSpace(s: string): (i: nat)
    ensures i <= |s|
    ensures i < |s| ==> s[i] == ' '
    ensures forall k :: 0 <= k < i ==> s[k] != ' '
  {
    if s == [] then 0
    else if s[0] == ' ' then 0
    else 1 + IndexOfSpace(s[1..])
  }

  /** `header.split(' ')[1]`: the text after the first space up to the next
      one; `undefined` when the header has no space. */
  function TokenOf(h: string): (r: Option<string>)
    ensures r.None? <==> ' ' !in h
    ensures r.Some? ==> ' ' !in r.value
  {
    var i := IndexOfSpace(h);
    if i == |h| then None
    else
      var rest := h[i + 1..];
      Some(rest[..IndexOfSpace(rest)])
  }

  /** The header a client builds as `Bearer ${token}` yields that token back. */
  lemma TokenOfBearer(t: string)
    requires ' ' !in t
    ensures TokenOf("Bearer " + t) == Some(t)
  {
    var h := "Bearer " + t;
    assert h[6] == ' ';
    assert IndexOfSpace(h) == 6;
    assert h[7..] == t;
    var j := IndexOfSpace(t);
    assert forall k :: 0 <= k < |t| ==> t[k] != ' ';
    assert j == |t|;
    assert t[..j] == t;
    assert ' ' in h;
  }

  predicate StartsWithBearer(h: string) {
    "Bearer" <= h
  }

  // ---------------------------------------------------------------------
  // protect
  // ---------------------------------------------------------------------

  /** The `try` block of `protect`: verify the token, then load the user
      without the password. A missing or empty token makes `jwt.verify`
      throw; a malformed id makes `findById` throw; both land in `catch`. */
  function CheckToken(token: Option<string>, verify: string -> Option<Id>, users: Collection<User>): (g: Gate)
    ensures g.Next? <==>
      Truthy(token) && verify(token.value).Some? && IsValidObjectId(verify(token.value).value)
      && CastId(verify(token.value).value) in users.docs
    ensures g.Next? ==> g.user == Public(users.docs[CastId(verify(token.value).value)])
    ensures g.Deny? ==> g.status == 401
    ensures g.Deny? && !Truthy(token) ==> g.message == TokenFailed
    ensures Truthy(token) && (verify(token.value).None? || !IsValidObjectId(verify(token.value).value)) ==>
      g == Deny(401, TokenFailed)
    ensures (Truthy(token) && verify(token.value).Some? && IsValidObjectId(verify(token.value).value)
             && CastId(verify(token.value).value) !in users.docs) ==> g == Deny(401, UserNotFound)
  {
    if !Truthy(token) then Deny(401, TokenFailed)
    else match verify(token.value)
      case None => Deny(401, TokenFailed)
      case Some(id) =>
        if !IsValidObjectId(id) then Deny(401, TokenFailed)
        else if CastId(id) !in users.docs then Deny(401, UserNotFound)
        else Next(Public(users.docs[CastId(id)]))
  }

  function AsTrace(g: Gate): Trace {
    match g
    case Next(u) => Trace([], Some(u))
    case Deny(s, m) => Trace([Response(s, m)], None)
  }

  /** `protect` as written: after the `try` block the `if (!token)` test runs
      as well, so a Bearer header without a token gets a second response. */
  function ProtectAsWritten(header: Option<string>, verify: string -> Option<Id>, users: Collection<User>): (t: Trace)
    ensures t.next.Some? ==> |t.sent| == 0
  {
    if header.Some? && StartsWithBearer(header.value) then
      var token := TokenOf(header.value);
      var first := AsTrace(CheckToken(token, verify, users));
      if !Truthy(token) then Trace(first.sent + [Response(401, NoToken)], first.next)
      else first
    else
      Trace([Response(401, NoToken)], None)
  }

  /** `protect` with exactly one outcome per request: a Bearer header whose
      token is missing or empty is refused once, as "no token". */
  function Protect(header: Option<string>, verify: string -> Option<Id>, users: Collection<User>): (g: Gate)
    ensures g.Next? <==>
      && header.Some? && StartsWithBearer(header.value)
      && var token := TokenOf(header.value);
         Truthy(token) && verify(token.value).Some?
         && IsValidObjectId(verify(token.value).value) && CastId(verify(token.value).value) in users.docs
    ensures g.Next? ==> g.user == Public(users.docs[CastId(verify(TokenOf(header.value).value).value)])
    ensures g.Deny? ==> g.status == 401
    ensures (header.None? || !StartsWithBearer(header.value)) ==> g == Deny(401, NoToken)
    ensures header.Some? && StartsWithBearer(header.value) && !Truthy(TokenOf(header.value)) ==>
      g == Deny(401, NoToken)
    ensures header.Some? && StartsWithBearer(header.value) && Truthy(TokenOf(header.value)) ==>
      var t := TokenOf(header.value).value;
      (verify(t).None? || !IsValidObjectId(verify(t).value) ==> g == Deny(401, TokenFailed))
      && (verify(t).Some? && IsValidObjectId(verify(t).value) && CastId(verify(t).value) !in users.docs
          ==> g == Deny(401, UserNotFound))
  {
    if header.Some? && StartsWithBearer(header.value) then
      var token := TokenOf(header.value);
      if !Truthy(token) then Deny(401, NoToken) else CheckToken(token, verify, users)
    else
      Deny(401, NoToken)
  }

  /** Wherever the written middleware answers once, it answers as `Protect`;
      so `next()` is called exactly when `Protect` admits the request. */
  lemma ProtectAsWrittenAgrees(header: Option<string>, verify: string -> Option<Id>, users: Collection<User>)
    ensures var t := ProtectAsWritten(header, verify, users);
      && (t.next.Some? <==> Protect(header, verify, users).Next?)
      && (|t.sent| < 2 ==> t == AsTrace(Protect(header, verify, users)))
      && (|t.sent| == 2 <==>
            header.Some? && StartsWithBearer(header.value) && !Truthy(TokenOf(header.value)))
  {
  }

  /** The header "Bearer" on its own: two responses are written, the
      second after the first has already been sent. */
  lemma BareBearerAnsweredTwice(verify: string -> Option<Id>, users: Collection<User>)
    ensures ProtectAsWritten(Some("Bearer"), verify, users).sent
            == [Response(401, TokenFailed), Response(401, NoToken)]
    ensures Protect(Some("Bearer"), verify, users) == Deny(401, NoToken)
  {
    assert ' ' !in "Bearer";
    assert StartsWithBearer("Bearer");
  }

  /** A client sending back the token it was issued for a stored user is
      admitted as that user, without the password. */
  lemma IssuedTokenAdmits(users: Collection<User>, id: Id, sign: Id -> string, verify: string -> Option<Id>)
    requires id in users.docs && IsCanonicalId(id)
    requires verify(sign(id)) == Some(id)
    requires sign(id) != "" && ' ' !in sign(id)
    ensures Protect(Some("Bearer " + sign(id)), verify, users) == Next(Public(users.docs[id]))
  {
    TokenOfBearer(sign(id));
    CastCanonical(id);
    assert StartsWithBearer("Bearer " + sign(id));
  }

  // ---------------------------------------------------------------------
  // isSeller
  // ---------------------------------------------------------------------

  /** `isSeller`: `next()` exactly when the request carries a Seller. */
  function IsSeller(user: Option<PublicUser>): (g: Gate)
    ensures g.Next? <==> user.Some? && user.value.role == Seller
    ensures g.Next? ==> g.user == user.value
    ensures g.Deny? ==> g == Deny(403, Forbidden)
  {
    if user.Some? && user.value.role == Seller then Next(user.value) else Deny(403, Forbidden)
  }

  /** A stored user holding the Seller role: what the seller-only routes need. */
  predicate IsSellerAccount(users: Collection<User>, id: Id) {
    id in users.docs && users.docs[id].role == Seller
  }

  /** `protect, isSeller` in sequence, as the seller-only routes mount them. */
  function SellerGate(header: Option<string>, verify: string -> Option<Id>, users: Collection<User>): (g: Gate)
    ensures g.Next? ==> g.user.role == Seller && Protect(header, verify, users).Next? && g.user == Protect(header, verify, users).user
    ensures g.Next? <==> Protect(header, verify, users).Next? && Protect(header, verify, users).user.role == Seller
    ensures g.Deny? ==> g.status == 401 || g == Deny(403, Forbidden)
  {
    match Protect(header, verify, users)
    case Next(u) => IsSeller(Some(u))
    case Deny(s, m) => Deny(s, m)
  }

  /** Every user document is stored under its own `_id`. */
  predicate KeyedById(users: Collection<User>) {
    forall id :: id in users.docs ==> users.docs[id].id == id
  }

  /** A request admitted by `protect` carries a stored user, as stored minus
      the password; one admitted by the seller routes carries the Seller. */
  lemma ProtectAdmitsStoredUser(header: Option<string>, verify: string -> Option<Id>, users: Collection<User>)
    requires KeyedById(users)
    requires Protect(header, verify, users).Next?
    ensures var u := Protect(header, verify, users).user;
      u.id in users.docs && Public(users.docs[u.id]) == u
    ensures SellerGate(header, verify, users).Next? ==>
      IsSellerAccount(users, SellerGate(header, verify, users).user.id)
  {
  }
}
