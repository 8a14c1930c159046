/**
 * The admin account controllers: signup, login and logout over the Admin
 * collection, which is separate from the User collection.
 */
module AdminController {
  import opened Domain
  import opened Store
  import opened Accounts

  const AdminCreated := "Admin Created Successfully."
  const AdminNotFound := "Admin Not Found"

  /**
   * Admin signup: the same schema as user signup; duplicates are looked for in
   * the Admin collection only, so an email held by a user does not block it.
   * Success answers 201 with the new admin's password cleared.
   */
  method Signup(db: Db, firstName: string, lastName: string, email: string, password: string,
                isEmail: string -> bool, hash: string -> Digest, newId: Id) returns (r: Reply)
    requires db.Valid()
    modifies db`admins
    ensures db.Valid()
    ensures var issues := SignupIssues(firstName, lastName, email, password, isEmail);
      issues != [] ==> r == Reply(400, ErrorList(issues), KeepCookies) && db.admins == old(db.admins)
    ensures SignupIssues(firstName, lastName, email, password, isEmail) == [] && HasEmail(old(db.admins), email) ==>
      r == Reply(400, Message(AlreadyExists), KeepCookies) && db.admins == old(db.admins)
    ensures SignupIssues(firstName, lastName, email, password, isEmail) == [] && !HasEmail(old(db.admins), email) ==>
      var created := Account(newId, firstName, lastName, email, hash(password));
      db.admins == old(db.admins) + [created] &&
      r == Reply(201, AccountCreated(AdminCreated, StrippedView(created)), KeepCookies)
  {
    var issues := SignupIssues(firstName, lastName, email, password, isEmail);
    if issues != [] {
      return Reply(400, ErrorList(issues), KeepCookies);
    }
    var existing := FindByEmail(db.admins, email);
    if existing.Some? {
      return Reply(400, Message(AlreadyExists), KeepCookies);
    }
    var hashed := hash(password);
    var created := Account(newId, firstName, lastName, email, hashed);
    AppendKeepsEmailsUnique(db.admins, created);
    db.admins := db.admins + [created];
    r := Reply(201, AccountCreated(AdminCreated, StrippedView(created)), KeepCookies);
  }

  /**
   * Admin login: empty fields, unknown email and wrong password are three
   * distinct 400 replies that set no cookie; success answers 201 with a
   * one-day admin token holding only the admin id, and the admin with its
   * password cleared.
   */
  function Login(admins: seq<Account>, email: string, password: string,
                 compare: (string, Digest) -> bool, now: int, production: bool): (r: Reply)
    ensures r.cookie.SetCookie? <==> r.status == 201
    ensures r.status == 201 <==>
      email != "" && password != "" && HasEmail(admins, email) && compare(password, FindByEmail(admins, email).value.password)
    ensures r.status != 201 ==> r.status == 400 && r.body.Errors? && r.cookie.KeepCookies?
    ensures (email == "" || password == "") ==> r.body == Errors(FieldsRequired)
    ensures email != "" && password != "" && !HasEmail(admins, email) ==> r.body == Errors(AdminNotFound)
    ensures r.status == 201 ==> r.body.LoggedIn? && r.body.principal.password.None?
    ensures r.status == 201 ==>
      (exists a :: a in admins && a.email == email &&
         r.body == LoggedIn(LoginOk, Jwt(a.id, AdminKey, TokenLifetime), StrippedView(a)) &&
         r.cookie.cookie == SessionCookie(Jwt(a.id, AdminKey, TokenLifetime), now, production))
  {
    if email == "" || password == "" then Fail(400, FieldsRequired)
    else match FindByEmail(admins, email)
      case None => Fail(400, AdminNotFound)
      case Some(a) =>
        if !compare(password, a.password) then Fail(400, WrongPassword)
        else
          var token := Jwt(a.id, AdminKey, TokenLifetime);
          Reply(201, LoggedIn(LoginOk, token, StrippedView(a)), SetCookie(SessionCookie(token, now, production)))
  }

  /** An existing admin email with a password bcrypt rejects is told apart from an unknown email. */
  lemma WrongPasswordIsNotNotFound(admins: seq<Account>, email: string, password: string,
                                   compare: (string, Digest) -> bool, now: int, production: bool)
    requires email != "" && password != "" && HasEmail(admins, email)
    requires !compare(password, FindByEmail(admins, email).value.password)
    ensures Login(admins, email, password, compare, now, production) == Fail(400, WrongPassword)
  {
  }

  /**
   * Registering an admin and then logging in with the same credentials
   * succeeds, for any bcrypt that accepts the digest it produced.
   */
  lemma {:induction false} LoginAfterSignup(admins: seq<Account>, newId: Id, firstName: string, lastName: string,
                                            email: string, password: string, hash: string -> Digest,
                                            compare: (string, Digest) -> bool, now: int, production: bool)
    requires email != "" && password != "" && !HasEmail(admins, email)
    requires compare(password, hash(password))
    ensures var created := Account(newId, firstName, lastName, email, hash(password));
      Login(admins + [created], email, password, compare, now, production).status == 201 &&
      Login(admins + [created], email, password, compare, now, production).body.token == Jwt(newId, AdminKey, TokenLifetime)
  {
    var created := Account(newId, firstName, lastName, email, hash(password));
    FindByEmailAppend(admins, created, email);
  }
}
