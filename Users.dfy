/** The backend's user accounts: a table keyed by e-mail and the signup, login and
    profile-update rules over it. */
module Users {
  import opened Common
  import opened Text

  /** A row of the `User` table. `password` stands for the stored hash: checking a
      password against it is modelled as equality with the password it was made from. */
  datatype User = User(name: string, email: string, password: string, profession: Option<string>)

  /** A member of a JSON request body as `data.get(key)` sees it. */
  datatype Field = Missing | Null | Str(text: string)

  /** Python truthiness of a string member: present, not null and not empty. */
  predicate Truthy(f: Field)
  {
    f.Str? && f.text != ""
  }

  /** `.lower().strip()`, applied to every submitted e-mail: the lower-cased input with
      the whitespace around it removed, and nothing else. */
  function NormaliseEmail(e: string): (r: string)
    ensures |r| <= |e|
    ensures r == [] || (!IsSpace(r[0]) && !IsSpace(r[|r| - 1]))
    ensures exists i :: StrippedAt(Lower(e), r, i)
  {
    Strip(Lower(e))
  }

  /** A normalised e-mail has no ASCII capital. */
  lemma NormalisedIsLower(e: string)
    ensures Lower(NormaliseEmail(e)) == NormaliseEmail(e)
  {
    LowerIdempotent(e);
    StripLowerStripped(Lower(e));
  }

  lemma LowerIdempotent(s: string)
    ensures Lower(Lower(s)) == Lower(s)
  {
  }

  lemma StripLowerStripped(l: string)
    requires Lower(l) == l
    ensures Lower(Strip(l)) == Strip(l)
  {
  }

  /** A normalised e-mail normalises to itself, so the address stored at signup and
      carried in tokens finds the same row again. */
  lemma {:induction false} NormaliseIdempotent(e: string)
    ensures NormaliseEmail(NormaliseEmail(e)) == NormaliseEmail(e)
  {
    var n := NormaliseEmail(e);
    LowerIdempotent(e);
    StripLowerStripped(Lower(e));
    assert Lower(n) == n;
    assert TrimStart(n) == n;
    assert TrimEnd(n) == n;
  }

  /** Every row is stored under its own e-mail, as `filter_by(email=...)` presumes. */
  ghost predicate KeyedByEmail(users: map<string, User>)
  {
    forall k | k in users :: users[k].email == k
  }

  /** The members of a signup request body. */
  datatype SignupRequest = SignupRequest(name: Field, email: Field, password: Field, profession: Field)

  /** The new row `signup` inserts, or the status it answers with instead: 400 for a
      missing member, a malformed e-mail or a short password, 409 for a taken e-mail,
      500 when `profession` is JSON null (`.strip()` on None raises). */
  function SignupDecision(req: SignupRequest, users: map<string, User>): (r: Result<User, int>)
    ensures r.Failure? ==> r.error == 400 || r.error == 409 || r.error == 500
    ensures r.Success? ==> r.value.email !in users
  {
    if !Truthy(req.email) || !Truthy(req.password) || !Truthy(req.name) then Failure(400)
    else if req.profession.Null? then Failure(500)
    else
      var email := NormaliseEmail(req.email.text);
      var profession := if req.profession.Str? then Strip(req.profession.text) else "";
      if '@' !in email || '.' !in email then Failure(400)
      else if |req.password.text| < 6 then Failure(400)
      else if email in users then Failure(409)
      else Success(User(req.name.text, email, req.password.text, if profession != "" then Some(profession) else None))
  }

  /** What `login` answers: 400 for a missing e-mail or password, the matching row when
      the normalised e-mail is registered and the password checks, 401 otherwise. */
  function Login(email: Field, password: Field, users: map<string, User>): (r: Result<User, int>)
    ensures !Truthy(email) || !Truthy(password) ==> r == Failure(400)
    ensures r.Failure? ==> r.error == 400 || r.error == 401
    ensures r.Success? <==>
      Truthy(email) && Truthy(password) && NormaliseEmail(email.text) in users
      && users[NormaliseEmail(email.text)].password == password.text
    ensures r.Success? ==> r.value == users[NormaliseEmail(email.text)]
  {
    if !Truthy(email) || !Truthy(password) then Failure(400)
    else
      var key := NormaliseEmail(email.text);
      if key in users && users[key].password == password.text then Success(users[key])
      else Failure(401)
  }

  /** After a successful signup the same credentials log in. */
  lemma SignupThenLogin(req: SignupRequest, users: map<string, User>)
    requires SignupDecision(req, users).Success?
    ensures var u := SignupDecision(req, users).value;
      Login(req.email, req.password, users[u.email := u]) == Success(u)
  {
    var u := SignupDecision(req, users).value;
    assert users[u.email := u][u.email] == u;
  }

  /** signup's validation order: a missing member is 400, then a null profession is 500. */
  lemma SignupRejects(req: SignupRequest, users: map<string, User>)
    ensures !Truthy(req.email) || !Truthy(req.password) || !Truthy(req.name) ==> SignupDecision(req, users) == Failure(400)
    ensures SignupDecision(req, users) == Failure(500) <==>
      Truthy(req.email) && Truthy(req.password) && Truthy(req.name) && req.profession.Null?
  {
  }

  /** signup accepts exactly the complete requests with a well-formed, unregistered
      e-mail and a password of at least 6 characters, and answers 409 exactly when such a
      request names a registered e-mail. */
  lemma SignupAccepts(req: SignupRequest, users: map<string, User>)
    ensures SignupDecision(req, users).Success? <==>
      && Truthy(req.email) && Truthy(req.password) && Truthy(req.name) && !req.profession.Null?
      && '@' in NormaliseEmail(req.email.text) && '.' in NormaliseEmail(req.email.text)
      && |req.password.text| >= 6
      && NormaliseEmail(req.email.text) !in users
    ensures SignupDecision(req, users) == Failure(409) <==>
      && Truthy(req.email) && Truthy(req.password) && Truthy(req.name) && !req.profession.Null?
      && '@' in NormaliseEmail(req.email.text) && '.' in NormaliseEmail(req.email.text)
      && |req.password.text| >= 6
      && NormaliseEmail(req.email.text) in users
  {
  }

  /** The row signup inserts: the given name and password, the normalised e-mail, and the
      stripped profession, or none when that is empty. */
  lemma SignupRow(req: SignupRequest, users: map<string, User>)
    requires SignupDecision(req, users).Success?
    ensures var u := SignupDecision(req, users).value;
      && u.email == NormaliseEmail(req.email.text)
      && u.name == req.name.text && u.password == req.password.text
      && (u.profession.Some? <==> req.profession.Str? && Strip(req.profession.text) != "")
      && (u.profession.Some? ==> u.profession.value == Strip(req.profession.text))
  {
  }

  /** Every e-mail signup stores is in normalised form. */
  lemma SignupStoresNormalised(req: SignupRequest, users: map<string, User>)
    requires SignupDecision(req, users).Success?
    ensures var u := SignupDecision(req, users).value;
      NormaliseEmail(u.email) == u.email && '@' in u.email
  {
    var u := SignupDecision(req, users).value;
    SignupRow(req, users);
    assert '@' in u.email;
    NormaliseIdempotent(req.email.text);
  }

  /** After a successful signup the stored, normalised e-mail (what signup returns and
      what tokens carry) logs in with the same password. */
  lemma SignupThenLoginStored(req: SignupRequest, users: map<string, User>)
    requires SignupDecision(req, users).Success?
    ensures var u := SignupDecision(req, users).value;
      Login(Str(u.email), req.password, users[u.email := u]) == Success(u)
  {
    var u := SignupDecision(req, users).value;
    SignupAccepts(req, users);
    SignupRow(req, users);
    SignupStoresNormalised(req, users);
    LoginWithStoredEmail(users[u.email := u], u, req.password);
  }

  lemma LoginWithStoredEmail(users: map<string, User>, u: User, password: Field)
    requires u.email in users && users[u.email] == u
    requires NormaliseEmail(u.email) == u.email && '@' in u.email
    requires password.Str? && password.text == u.password && password.text != ""
    ensures Login(Str(u.email), password, users) == Success(u)
  {
  }

  /** The `User` table, keyed by e-mail. */
  class UserTable {
    var users: map<string, User>

    /** Every row is stored under its own e-mail. */
    ghost predicate Valid()
      reads this
    {
      KeyedByEmail(users)
    }

    constructor ()
      ensures Valid() && users == map[]
    {
      users := map[];
    }

    /** signup: inserts exactly the row `SignupDecision` builds (201), or leaves the table
        as it was and answers with the decision's status. */
    method Signup(req: SignupRequest) returns (status: int)
      requires Valid()
      modifies this
      ensures Valid()
      ensures SignupDecision(req, old(users)).Success? ==>
        var u := SignupDecision(req, old(users)).value;
        && status == 201
        && u.email !in old(users)
        && users == old(users)[u.email := u]
        && |users| == |old(users)| + 1
      ensures SignupDecision(req, old(users)).Failure? ==>
        status == SignupDecision(req, old(users)).error && users == old(users)
    {
      var decision := SignupDecision(req, users);
      if decision.Success? {
        var u := decision.value;
        users := users[u.email := u];
        status := 201;
      } else {
        status := decision.error;
      }
    }

    /** update_user: sets `name` when a non-empty one is given and `profession` when one
        is given and not null; the e-mail, the password and every other row stay. */
    method UpdateUser(email: string, name: Field, profession: Field) returns (status: int)
      requires Valid() && email in users
      modifies this
      ensures Valid() && status == 200
      ensures email in users && users.Keys == old(users).Keys
      ensures users[email].name == if Truthy(name) then name.text else old(users[email].name)
      ensures users[email].profession == if profession.Str? then Some(profession.text) else old(users[email].profession)
      ensures users[email].email == old(users[email].email) && users[email].password == old(users[email].password)
      ensures forall k | k in users && k != email :: users[k] == old(users[k])
    {
      var u := users[email];
      if Truthy(name) {
        u := u.(name := name.text);
      }
      if profession.Str? {
        u := u.(profession := Some(profession.text));
      }
      users := users[email := u];
      status := 200;
    }
  }
}
