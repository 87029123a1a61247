/** The decisions of the user controller: which registrations are refused
    and why, what a new user document holds, and when a login succeeds.
    `hash` stands for bcrypt (a password matches a stored hash when it
    hashes to it) and `sign` for issuing a token for a user id. */
module Accounts {
  import opened Common
  import opened Models
  import opened Collections

  datatype RegisterInput = RegisterInput(
    name: Option<string>, email: Option<string>, password: Option<string>, role: Option<string>)

  /** The body of a successful registration or login. */
  datatype Session = Session(id: Id, name: string, email: string, role: Role, token: string)

  const MissingFields := "Please enter all required fields."
  const EmailTaken := "User with this email already exists."
  const SellerTaken := "A Seller account already exists. Only one is allowed."
  const RegisterFailed := "Server error during user registration."
  const MissingCredentials := "Please provide email and password."
  const InvalidCredentials := "Invalid credentials."

  /** `User.findOne({ email })`: the first user in natural order whose
      stored email equals the query after the field's trim and lowercase
      setters. */
  function FindByEmail(users: seq<User>, email: string): (r: Option<User>)
    ensures r.Some? ==> r.value in users && r.value.email == NormalizeEmail(email)
    ensures r.None? <==> forall k :: 0 <= k < |users| ==> users[k].email != NormalizeEmail(email)
    decreases |users|
  {
    if users == [] then None
    else if users[0].email == NormalizeEmail(email) then Some(users[0])
    else FindByEmail(users[1..], email)
  }

  /** `User.findOne({ role: 'Seller' })` finds someone. */
  predicate SellerExists(users: Collection<User>) {
    exists id :: id in users.docs && users.docs[id].role == Seller
  }

  /** At most one user holds the Seller role. */
  predicate AtMostOneSeller(users: Collection<User>) {
    forall a, b ::
      (a in users.docs && b in users.docs && users.docs[a].role == Seller && users.docs[b].role == Seller)
      ==> a == b
  }

  /** No two users share an email. */
  predicate UniqueEmails(users: Collection<User>) {
    forall a, b :: a in users.docs && b in users.docs && users.docs[a].email == users.docs[b].email ==> a == b
  }

  /** `registerUser` up to `User.create`: the three refusals with 400, in
      order, then the new document, which the schema refuses (500) when its
      trimmed name or normalised email is empty, when the role is not one of
      the two names, or when the hash is shorter than six characters. */
  function Register(users: Collection<User>, in_: RegisterInput, newId: Id, hash: string -> string)
    : (r: Reply<User>)
    requires Collections.Valid(users)
    ensures r == Err(400, MissingFields) <==> !Truthy(in_.name) || !Truthy(in_.email) || !Truthy(in_.password)
    ensures Truthy(in_.name) && Truthy(in_.email) && Truthy(in_.password) ==>
      ((exists id :: id in users.docs && users.docs[id].email == NormalizeEmail(in_.email.value))
         <==> r == Err(400, EmailTaken))
    ensures r == Err(400, SellerTaken) <==>
      && Truthy(in_.name) && Truthy(in_.email) && Truthy(in_.password)
      && (forall id :: id in users.docs ==> users.docs[id].email != NormalizeEmail(in_.email.value))
      && in_.role == Some("Seller") && SellerExists(users)
    ensures r.Err? ==>
      r == Err(400, MissingFields) || r == Err(400, EmailTaken) || r == Err(400, SellerTaken)
      || r == Err(500, RegisterFailed)
    ensures r.Ok? <==>
      && Truthy(in_.name) && Truthy(in_.email) && Truthy(in_.password)
      && (forall id :: id in users.docs ==> users.docs[id].email != NormalizeEmail(in_.email.value))
      && !(in_.role == Some("Seller") && SellerExists(users))
      && ParseRole(OrString(in_.role, "Client")).Some?
      && UserSchemaValid(NewUser(newId, in_.name.value, in_.email.value, hash(in_.password.value),
                                 ParseRole(OrString(in_.role, "Client")).value))
    ensures r.Ok? ==>
      && r.status == 201
      && r.value.id == newId
      && r.value.name == Trim(in_.name.value)
      && r.value.email == NormalizeEmail(in_.email.value)
      && r.value.password == hash(in_.password.value)
      && RoleName(r.value.role) == OrString(in_.role, "Client")
      && UserSchemaValid(r.value)
      && (forall id :: id in users.docs ==> users.docs[id].email != r.value.email)
      && (r.value.role == Seller ==> !SellerExists(users))
  {
    if !Truthy(in_.name) || !Truthy(in_.email) || !Truthy(in_.password) then Err(400, MissingFields)
    else if EmailInUse(users, in_.email.value) then Err(400, EmailTaken)
    else if in_.role == Some("Seller") && SellerExists(users) then Err(400, SellerTaken)
    else
      match ParseRole(OrString(in_.role, "Client"))
      case None => Err(500, RegisterFailed)
      case Some(role) =>
        var u := NewUser(newId, in_.name.value, in_.email.value, hash(in_.password.value), role);
        if UserSchemaValid(u) then Ok(201, u) else Err(500, RegisterFailed)
  }

  /** `User.findOne({ email })` finds someone: exactly when a stored user
      has the email after the setters. */
  predicate EmailInUse(users: Collection<User>, email: string)
    requires Collections.Valid(users)
    ensures EmailInUse(users, email) <==>
      exists id :: id in users.docs && users.docs[id].email == NormalizeEmail(email)
  {
    FindByEmailInDocs(users, email);
    FindByEmail(Values(users), email).Some?
  }

  lemma FindByEmailInDocs(users: Collection<User>, email: string)
    requires Collections.Valid(users)
    ensures FindByEmail(Values(users), email).Some? <==>
      exists id :: id in users.docs && users.docs[id].email == NormalizeEmail(email)
  {
    var vs := Values(users);
    var e := NormalizeEmail(email);
    if FindByEmail(vs, email).Some? {
      var k :| 0 <= k < |vs| && vs[k].email == e;
      assert users.ids[k] in users.docs && users.docs[users.ids[k]] == vs[k];
    }
    if exists id :: id in users.docs && users.docs[id].email == e {
      var id :| id in users.docs && users.docs[id].email == e;
      var k :| 0 <= k < |users.ids| && users.ids[k] == id;
      assert vs[k].email == e;
    }
  }

  /** A user with a new email, who is a Seller only when there was none,
      joins without breaking either rule. */
  lemma InsertKeepsInvariants(users: Collection<User>, newId: Id, u: User)
    requires Collections.Valid(users) && newId !in users.docs
    requires AtMostOneSeller(users) && UniqueEmails(users)
    requires forall id :: id in users.docs ==> users.docs[id].email != u.email
    requires u.role == Seller ==> !SellerExists(users)
    ensures var after := Insert(users, newId, u);
      AtMostOneSeller(after) && UniqueEmails(after)
  {
    var after := Insert(users, newId, u);
    forall a, b | a in after.docs && b in after.docs && after.docs[a].role == Seller && after.docs[b].role == Seller
      ensures a == b
    {
      if a != b && (a == newId || b == newId) {
        assert SellerExists(users);
      }
    }
  }

  /** The users after one registration: the admitted user added, or the
      same users after a refusal. */
  function RegisterOne(users: Collection<User>, in_: RegisterInput, newId: Id, hash: string -> string)
    : (r: Collection<User>)
    requires Collections.Valid(users) && newId !in users.docs
    ensures Collections.Valid(r)
    ensures forall id :: id in r.docs <==> id in users.docs || (id == newId && Register(users, in_, newId, hash).Ok?)
    ensures AtMostOneSeller(users) && UniqueEmails(users) ==> AtMostOneSeller(r) && UniqueEmails(r)
  {
    var next := Register(users, in_, newId, hash);
    if next.Ok? then
      var u := next.value;
      assert AtMostOneSeller(users) && UniqueEmails(users) ==>
        AtMostOneSeller(Insert(users, newId, u)) && UniqueEmails(Insert(users, newId, u)) by {
        if AtMostOneSeller(users) && UniqueEmails(users) {
          InsertKeepsInvariants(users, newId, u);
        }
      }
      Insert(users, newId, u)
    else users
  }

  /** From any users with at most one Seller, any run of registrations
      leaves at most one Seller. */
  lemma {:induction false} RegistrationsKeepOneSeller(
    users: Collection<User>, inputs: seq<RegisterInput>, ids: seq<Id>, hash: string -> string)
    requires Collections.Valid(users) && AtMostOneSeller(users) && UniqueEmails(users)
    requires |ids| == |inputs|
    requires forall i :: 0 <= i < |ids| ==> ids[i] !in users.docs
    requires forall i, j :: 0 <= i < j < |ids| ==> ids[i] != ids[j]
    ensures AtMostOneSeller(RegisterAll(users, inputs, ids, hash))
    decreases |inputs|
  {
    if inputs != [] {
      var users' := RegisterOne(users, inputs[0], ids[0], hash);
      forall i | 0 <= i < |ids[1..]| ensures ids[1..][i] !in users'.docs {
        assert ids[1..][i] == ids[i + 1];
      }
      RegistrationsKeepOneSeller(users', inputs[1..], ids[1..], hash);
    }
  }

  /** The users after each registration in turn, the refused ones adding
      nobody. */
  function RegisterAll(users: Collection<User>, inputs: seq<RegisterInput>, ids: seq<Id>, hash: string -> string)
    : (r: Collection<User>)
    requires Collections.Valid(users) && |ids| == |inputs|
    requires forall i :: 0 <= i < |ids| ==> ids[i] !in users.docs
    requires forall i, j :: 0 <= i < j < |ids| ==> ids[i] != ids[j]
    ensures Collections.Valid(r)
    decreases |inputs|
  {
    if inputs == [] then users
    else
      var users' := RegisterOne(users, inputs[0], ids[0], hash);
      assert forall i :: 0 <= i < |ids[1..]| ==> ids[1..][i] !in users'.docs by {
        forall i | 0 <= i < |ids[1..]| ensures ids[1..][i] !in users'.docs {
          assert ids[1..][i] == ids[i + 1];
        }
      }
      RegisterAll(users', inputs[1..], ids[1..], hash)
  }

  /** The body sent back for a user: id, name, email, role and a token for
      the id; never the password. */
  function SessionOf(u: User, sign: Id -> string): (s: Session)
    ensures s.id == u.id && s.name == u.name && s.email == u.email && s.role == u.role
    ensures s.token == sign(u.id)
  {
    Session(u.id, u.name, u.email, u.role, sign(u.id))
  }

  /** `loginUser`: 400 without an email or a password; then one and the
      same 401 whether the email is unknown or the password wrong. */
  function Login(users: Collection<User>, email: Option<string>, password: Option<string>,
                 hash: string -> string, sign: Id -> string): (r: Reply<Session>)
    requires Collections.Valid(users)
    ensures !Truthy(email) || !Truthy(password) ==> r == Err(400, MissingCredentials)
    ensures r.Err? ==> r == Err(400, MissingCredentials) || r == Err(401, InvalidCredentials)
    ensures r.Ok? <==>
      (&& Truthy(email) && Truthy(password)
       && FindByEmail(Values(users), email.value).Some?
       && FindByEmail(Values(users), email.value).value.password == hash(password.value))
    ensures r.Ok? ==> r.status == 200 && r.value == SessionOf(FindByEmail(Values(users), email.value).value, sign)
  {
    if !Truthy(email) || !Truthy(password) then Err(400, MissingCredentials)
    else match FindByEmail(Values(users), email.value)
      case Some(u) =>
        if hash(password.value) == u.password then Ok(200, SessionOf(u, sign))
        else Err(401, InvalidCredentials)
      case None => Err(401, InvalidCredentials)
  }

  /** Whoever has just registered can log in with the same email and
      password, and gets their own id back. */
  lemma {:induction false} LoginAfterRegister(
    users: Collection<User>, in_: RegisterInput, newId: Id, hash: string -> string, sign: Id -> string)
    requires Collections.Valid(users) && newId !in users.docs
    requires Register(users, in_, newId, hash).Ok?
    ensures var u := Register(users, in_, newId, hash).value;
      Login(Insert(users, newId, u), in_.email, in_.password, hash, sign) == Ok(200, SessionOf(u, sign))
  {
    var u := Register(users, in_, newId, hash).value;
    var after := Insert(users, newId, u);
    FindByEmailInDocs(users, in_.email.value);
    FindByEmailAppend(Values(users), u, in_.email.value);
  }

  lemma {:induction false} FindByEmailAppend(us: seq<User>, u: User, email: string)
    requires FindByEmail(us, email).None? && u.email == NormalizeEmail(email)
    ensures FindByEmail(us + [u], email) == Some(u)
    decreases |us|
  {
    if us != [] {
      assert (us + [u])[1..] == us[1..] + [u];
      FindByEmailAppend(us[1..], u, email);
    }
  }

  /** An unknown email and a wrong password get the same answer. */
  lemma LoginDoesNotTellWhich(users: Collection<User>, email: string, password: string,
                              hash: string -> string, sign: Id -> string)
    requires Collections.Valid(users) && email != "" && password != ""
    requires FindByEmail(Values(users), email).None?
             || hash(password) != FindByEmail(Values(users), email).value.password
    ensures Login(users, Some(email), Some(password), hash, sign) == Err(401, InvalidCredentials)
  {
  }

  /** The length rule applies to the stored hash, not to the password: a
      password of any length, a single character included, is accepted
      whenever its hash is long enough. */
  lemma PasswordLengthUnchecked(users: Collection<User>, name: string, email: string, password: string,
                                hash: string -> string, newId: Id)
    requires Collections.Valid(users) && password != ""
    requires Trim(name) != "" && NormalizeEmail(email) != ""
    requires forall id :: id in users.docs ==> users.docs[id].email != NormalizeEmail(email)
    requires |hash(password)| >= MinPasswordLength
    ensures var r := Register(users, RegisterInput(Some(name), Some(email), Some(password), None), newId, hash);
      r.Ok? && r.value.password == hash(password) && r.value.role == Client
  {
    var in_ := RegisterInput(Some(name), Some(email), Some(password), None);
    assert ParseRole(OrString(in_.role, "Client")) == Some(Client);
    RegisterAdmits(users, in_, newId, hash, Client);
  }

  /** The path through `registerUser` that reaches `User.create`: a Seller
      is admitted while there is none yet. */
  lemma RegisterAdmits(users: Collection<User>, in_: RegisterInput, newId: Id, hash: string -> string, role: Role)
    requires Collections.Valid(users)
    requires Truthy(in_.name) && Truthy(in_.email) && Truthy(in_.password)
    requires forall id :: id in users.docs ==> users.docs[id].email != NormalizeEmail(in_.email.value)
    requires in_.role == Some("Seller") ==> !SellerExists(users)
    requires ParseRole(OrString(in_.role, "Client")) == Some(role)
    requires UserSchemaValid(NewUser(newId, in_.name.value, in_.email.value, hash(in_.password.value), role))
    ensures Register(users, in_, newId, hash)
      == Ok(201, NewUser(newId, in_.name.value, in_.email.value, hash(in_.password.value), role))
  {
    assert !EmailInUse(users, in_.email.value);
  }
}
