/**
 * The account directory: `/signup` validates its input, then stores one account
 * with the hashed password and answers with a signed token; `/signin` looks the
 * account up by e-mail, compares the password with the stored hash and answers
 * with a fresh token.
 */
module Auth {
  import opened Js
  import opened Types
  import opened Tokens
  import opened Store
  import opened Utils

  /** validator.js's `isEmail` and `isStrongPassword`, kept abstract. */
  datatype Validators = Validators(isEmail: string -> bool, isStrongPassword: string -> bool)

  datatype SignupBody = SignupBody(fullName: Option<string>, role: Option<string>, email: Option<string>, password: Option<string>)

  datatype SigninBody = SigninBody(email: Option<string>, password: Option<string>)

  /** Every check of the signup chain passes. */
  predicate SignupValid(body: SignupBody, users: seq<User>, v: Validators)
  {
    && Present(body.fullName)
    && OrEmpty(body.role) in Roles
    && v.isEmail(OrEmpty(body.email))
    && !HasUserWithEmail(users, OrEmpty(body.email))
    && Present(body.password)
    && v.isStrongPassword(OrEmpty(body.password))
  }

  /**
   * The validation chain of `/signup`, every validator run, in order: `fullName`
   * not empty; `role` exactly "PATIENT" or "DOCTOR"; `email` well formed and used
   * by no account; `password` not empty and strong.
   */
  function SignupErrors(body: SignupBody, users: seq<User>, v: Validators): (errs: seq<FieldError>)
    ensures errs == [] <==> SignupValid(body, users, v)
    ensures !Present(body.fullName) ==> FieldError("fullName", INVALID_VALUE) in errs
    ensures OrEmpty(body.role) !in Roles ==> FieldError("role", ROLE_VALIDATION_ERROR) in errs
    ensures !v.isEmail(OrEmpty(body.email)) ==> FieldError("email", INVALID_VALUE) in errs
    ensures HasUserWithEmail(users, OrEmpty(body.email)) ==> FieldError("email", EMAIL_ALREADY_IN_USE) in errs
    ensures !Present(body.password) ==> FieldError("password", INVALID_VALUE) in errs
    ensures !v.isStrongPassword(OrEmpty(body.password)) ==> FieldError("password", PASSWORD_VALIDATION_ERROR) in errs
    ensures forall e :: e in errs ==> e.path in {"fullName", "role", "email", "password"}
  {
    Check(Present(body.fullName), "fullName", INVALID_VALUE)
    + Check(OrEmpty(body.role) in Roles, "role", ROLE_VALIDATION_ERROR)
    + Check(v.isEmail(OrEmpty(body.email)), "email", INVALID_VALUE)
    + Check(!HasUserWithEmail(users, OrEmpty(body.email)), "email", EMAIL_ALREADY_IN_USE)
    + Check(Present(body.password), "password", INVALID_VALUE)
    + Check(v.isStrongPassword(OrEmpty(body.password)), "password", PASSWORD_VALIDATION_ERROR)
  }

  /** The account `/signup` stores; `id` is the fresh `nanoid()`, `createdAt` the current time. */
  function NewUser(body: SignupBody, crypt: Bcrypt, id: string, createdAt: string): User
  {
    var role := OrEmpty(body.role);
    User(OrEmpty(body.email), crypt.hash(OrEmpty(body.password)), ToUpper(role), role + "_" + id, createdAt, OrEmpty(body.fullName))
  }

  /** The claims of the token issued for an account. */
  function ClaimsOf(u: User): Claims
  {
    Claims(u.email, u.userId, u.role, u.fullName)
  }

  /** `toUpperCase` leaves both accepted roles as they are. */
  lemma RolesAreUpperCase(role: string)
    requires role in Roles
    ensures ToUpper(role) == role
  {
    if role == PATIENT {
      assert NoLowerCase(role) by {
        assert role == ['P', 'A', 'T', 'I', 'E', 'N', 'T'];
      }
    } else {
      assert NoLowerCase(role) by {
        assert role == ['D', 'O', 'C', 'T', 'O', 'R'];
      }
    }
  }

  /**
   * What a valid signup stores: the e-mail and name as given, the hash of the
   * password, the role as given (already upper case), and a user id that starts
   * with the role and an underscore.
   */
  lemma SignupRecord(body: SignupBody, users: seq<User>, v: Validators, crypt: Bcrypt, id: string, createdAt: string)
    requires SignupValid(body, users, v)
    ensures var u := NewUser(body, crypt, id, createdAt);
      && u.email == OrEmpty(body.email) && u.fullName == body.fullName.value
      && u.password == crypt.hash(body.password.value)
      && u.role == body.role.value && u.role in Roles
      && u.userId[..|u.role| + 1] == u.role + "_"
      && !HasUserWithEmail(users, u.email)
  {
    var role := body.role.value;
    RolesAreUpperCase(role);
    assert (role + "_" + id)[..|role| + 1] == role + "_";
  }

  /**
   * `POST /signup`. A failed check answers 400 with the error list and stores
   * nothing; otherwise exactly one account is appended and the reply (201)
   * carries a token signed with that account's claims.
   */
  method Signup(db: Database, body: SignupBody, v: Validators, crypt: Bcrypt, jwt: Jwt, id: string, createdAt: string)
    returns (reply: Reply)
    modifies db
    ensures !SignupValid(body, old(db.users), v) ==>
      && reply == ErrorReply(GenerateResponse(Some(400), Some(FieldErrors(SignupErrors(body, old(db.users), v)))))
      && db.users == old(db.users)
    ensures SignupValid(body, old(db.users), v) ==>
      var u := NewUser(body, crypt, id, createdAt);
      && db.users == old(db.users) + [u]
      && reply == Reply(201, GenerateResponse(Some(201), Some(TokenText(jwt.sign(ClaimsOf(u))))))
    ensures db.doctors == old(db.doctors) && db.appointments == old(db.appointments)
    ensures EmailsUnique(old(db.users)) ==> EmailsUnique(db.users)
  {
    var errors := SignupErrors(body, db.users, v);
    if errors != [] {
      return ErrorReply(GenerateResponse(Some(400), Some(FieldErrors(errors))));
    }
    var user := NewUser(body, crypt, id, createdAt);
    var token := jwt.sign(ClaimsOf(user));
    ghost var before := db.users;
    db.AddUser(user);
    reply := Reply(201, GenerateResponse(Some(201), Some(TokenText(token))));
    assert forall i :: 0 <= i < |before| ==> before[i].email != user.email;
  }

  // ---------------------------------------------------------------------------

  /** The account `/signin` finds for an e-mail: the first one stored with it. */
  function AccountFor(users: seq<User>, email: string): (r: Option<User>)
    ensures r.Some? <==> HasUserWithEmail(users, email)
    ensures r.Some? ==> r.value in users && r.value.email == email
  {
    First(users, (u: User) => u.email == email)
  }

  /** The validation chain of `/signin`: `email` not empty and well formed, `password` not empty. */
  function SigninErrors(body: SigninBody, v: Validators): (errs: seq<FieldError>)
    ensures errs == [] <==> Present(body.email) && v.isEmail(body.email.value) && Present(body.password)
  {
    Check(Present(body.email), "email", INVALID_VALUE)
    + Check(v.isEmail(OrEmpty(body.email)), "email", INVALID_VALUE)
    + Check(Present(body.password), "password", INVALID_VALUE)
  }

  /**
   * `POST /signin`, which changes nothing. An unknown e-mail answers 400
   * EMAIL_NOT_FOUND, a password that does not match the stored hash 400
   * PASSWORD_NOT_MATCH; otherwise 200 with a token for the account, its role
   * upper-cased.
   */
  function Signin(users: seq<User>, body: SigninBody, v: Validators, crypt: Bcrypt, jwt: Jwt): (r: Reply)
    ensures SigninErrors(body, v) != [] ==>
      r == ErrorReply(GenerateResponse(Some(400), Some(FieldErrors(SigninErrors(body, v)))))
    ensures SigninErrors(body, v) == [] && !HasUserWithEmail(users, body.email.value) ==>
      r == ErrorReply(Error(400, EMAIL_NOT_FOUND))
    ensures SigninErrors(body, v) == [] && HasUserWithEmail(users, body.email.value) ==>
      var u := AccountFor(users, body.email.value).value;
      && (!crypt.compare(body.password.value, u.password) ==> r == ErrorReply(Error(400, PASSWORD_NOT_MATCH)))
      && (crypt.compare(body.password.value, u.password) ==>
            r == Reply(200, GenerateResponse(Some(200), Some(TokenText(jwt.sign(Claims(u.email, u.userId, ToUpper(u.role), u.fullName)))))))
    ensures r.httpStatus == 200 || r.httpStatus == 400
  {
    var errors := SigninErrors(body, v);
    if errors != [] then ErrorReply(GenerateResponse(Some(400), Some(FieldErrors(errors))))
    else
      var email, password := body.email.value, body.password.value;
      match AccountFor(users, email)
      case None => ErrorReply(Error(400, EMAIL_NOT_FOUND))
      case Some(u) =>
        if !crypt.compare(password, u.password) then ErrorReply(Error(400, PASSWORD_NOT_MATCH))
        else
          var token := jwt.sign(Claims(email, u.userId, ToUpper(u.role), u.fullName));
          Reply(200, GenerateResponse(Some(200), Some(TokenText(token))))
  }

  /**
   * Signing in with the e-mail and password of a successful signup succeeds, and
   * the token carries exactly the claims of the stored account.
   */
  lemma SigninAfterSignup(users: seq<User>, body: SignupBody, v: Validators, crypt: Bcrypt, jwt: Jwt, id: string, createdAt: string)
    requires SignupValid(body, users, v)
    requires !v.isEmail("")
    requires BcryptSound(crypt)
    ensures var u := NewUser(body, crypt, id, createdAt);
      Signin(users + [u], SigninBody(body.email, body.password), v, crypt, jwt)
        == Reply(200, GenerateResponse(Some(200), Some(TokenText(jwt.sign(ClaimsOf(u))))))
  {
    var u := NewUser(body, crypt, id, createdAt);
    var all := users + [u];
    SignupRecord(body, users, v, crypt, id, createdAt);
    assert HasUserWithEmail(all, u.email) by {
      assert all[|users|] == u;
    }
    var found := AccountFor(all, u.email).value;
    assert found == u by {
      var i :| 0 <= i < |all| && all[i] == found && all[i].email == u.email
        && forall j :: 0 <= j < i ==> all[j].email != u.email;
      if i < |users| {
        assert users[i].email == u.email;
      }
    }
    assert crypt.compare(body.password.value, u.password);
    ToUpperIdempotent(body.role.value);
  }

  /** Signing up twice with the same e-mail: the second attempt is rejected as EMAIL_ALREADY_IN_USE. */
  lemma SecondSignupRejected(users: seq<User>, body: SignupBody, again: SignupBody, v: Validators, crypt: Bcrypt, id: string, createdAt: string)
    requires SignupValid(body, users, v)
    requires again.email == body.email
    ensures !SignupValid(again, users + [NewUser(body, crypt, id, createdAt)], v)
    ensures FieldError("email", EMAIL_ALREADY_IN_USE) in SignupErrors(again, users + [NewUser(body, crypt, id, createdAt)], v)
  {
    var all := users + [NewUser(body, crypt, id, createdAt)];
    assert all[|users|].email == OrEmpty(again.email);
  }
}
