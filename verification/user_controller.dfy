/**
 * The end-user controllers: signup, login, logout and the purchased-courses
 * query, over the User, Purchase and Course collections.
 */
module UserController {
  import opened Domain
  import opened Store
  import opened Accounts

  const UserCreated := "User Created Successfully."
  const UserNotFound := "User Not Found"

  /**
   * signup: the schema gate, then the duplicate-email gate, then the insert of
   * a user whose password is bcrypt's digest; the reply carries the new user
   * with its password cleared.
   */
  method Signup(db: Db, firstName: string, lastName: string, email: string, password: string,
                isEmail: string -> bool, hash: string -> Digest, newId: Id) returns (r: Reply)
    requires db.Valid()
    modifies db`users
    ensures db.Valid()
    ensures var issues := SignupIssues(firstName, lastName, email, password, isEmail);
      issues != [] ==> r == Reply(400, ErrorList(issues), KeepCookies) && db.users == old(db.users)
    ensures SignupIssues(firstName, lastName, email, password, isEmail) == [] && HasEmail(old(db.users), email) ==>
      r == Reply(400, Message(AlreadyExists), KeepCookies) && db.users == old(db.users)
    ensures SignupIssues(firstName, lastName, email, password, isEmail) == [] && !HasEmail(old(db.users), email) ==>
      var created := Account(newId, firstName, lastName, email, hash(password));
      db.users == old(db.users) + [created] &&
      r == Reply(200, AccountCreated(UserCreated, StrippedView(created)), KeepCookies)
  {
    var issues := SignupIssues(firstName, lastName, email, password, isEmail);
    if issues != [] {
      return Reply(400, ErrorList(issues), KeepCookies);
    }
    var existing := FindByEmail(db.users, email);
    if existing.Some? {
      return Reply(400, Message(AlreadyExists), KeepCookies);
    }
    var hashed := hash(password);
    var created := Account(newId, firstName, lastName, email, hashed);
    AppendKeepsEmailsUnique(db.users, created);
    db.users := db.users + [created];
    r := Reply(200, AccountCreated(UserCreated, StrippedView(created)), KeepCookies);
  }

  /**
   * login: empty fields, unknown email and wrong password are three distinct
   * 400 replies that set no cookie; success signs a one-day token holding
   * only the user id and returns the user with its password digest.
   */
  function Login(users: seq<Account>, email: string, password: string,
                 compare: (string, Digest) -> bool, now: int, production: bool): (r: Reply)
    ensures r.cookie.SetCookie? <==> r.status == 200
    ensures r.status == 200 <==>
      email != "" && password != "" && HasEmail(users, email) && compare(password, FindByEmail(users, email).value.password)
    ensures r.status != 200 ==> r.status == 400 && r.body.Errors? && r.cookie.KeepCookies?
    ensures (email == "" || password == "") ==> r.body == Errors(FieldsRequired)
    ensures email != "" && password != "" && !HasEmail(users, email) ==> r.body == Errors(UserNotFound)
    ensures r.status == 200 ==>
      (exists u :: u in users && u.email == email &&
         r.body == LoggedIn(LoginOk, Jwt(u.id, UserKey, TokenLifetime), FullView(u)) &&
         r.cookie.cookie == SessionCookie(Jwt(u.id, UserKey, TokenLifetime), now, production))
  {
    if email == "" || password == "" then Fail(400, FieldsRequired)
    else match FindByEmail(users, email)
      case None => Fail(400, UserNotFound)
      case Some(u) =>
        if !compare(password, u.password) then Fail(400, WrongPassword)
        else
          var token := Jwt(u.id, UserKey, TokenLifetime);
          Reply(200, LoggedIn(LoginOk, token, FullView(u)), SetCookie(SessionCookie(token, now, production)))
  }

  /** An existing email with a password bcrypt rejects is told apart from an unknown email. */
  lemma WrongPasswordIsNotNotFound(users: seq<Account>, email: string, password: string,
                                   compare: (string, Digest) -> bool, now: int, production: bool)
    requires email != "" && password != "" && HasEmail(users, email)
    requires !compare(password, FindByEmail(users, email).value.password)
    ensures Login(users, email, password, compare, now, production) == Fail(400, WrongPassword)
  {
  }

  /**
   * Signing up and then logging in with the same credentials succeeds, for
   * any bcrypt that accepts the digest it produced.
   */
  lemma {:induction false} LoginAfterSignup(users: seq<Account>, newId: Id, firstName: string, lastName: string,
                                            email: string, password: string, hash: string -> Digest,
                                            compare: (string, Digest) -> bool, now: int, production: bool)
    requires email != "" && password != "" && !HasEmail(users, email)
    requires compare(password, hash(password))
    ensures var created := Account(newId, firstName, lastName, email, hash(password));
      Login(users + [created], email, password, compare, now, production).status == 200 &&
      Login(users + [created], email, password, compare, now, production).body.token == Jwt(newId, UserKey, TokenLifetime)
  {
    var created := Account(newId, firstName, lastName, email, hash(password));
    FindByEmailAppend(users, created, email);
  }

  /** The loop of `purchases`: the course id of every purchase, in order, duplicates kept. */
  method CollectCourseIds(purchased: seq<Purchase>) returns (ids: seq<Id>)
    ensures |ids| == |purchased|
    ensures forall i :: 0 <= i < |purchased| ==> ids[i] == purchased[i].courseId
  {
    ids := [];
    var i := 0;
    while i < |purchased|
      invariant 0 <= i <= |purchased|
      invariant |ids| == i
      invariant forall k :: 0 <= k < i ==> ids[k] == purchased[k].courseId
    {
      ids := ids + [purchased[i].courseId];
      i := i + 1;
    }
  }

  /**
   * purchases: the caller's Purchase records, and exactly the courses some
   * purchase of the caller points to, each once and in collection order.
   */
  method Purchases(db: Db, userId: Id) returns (r: Reply)
    requires db.Valid()
    ensures r.status == 200 && r.cookie.KeepCookies? && r.body.PurchaseList?
    ensures r.body.purchased == PurchasesOf(db.purchases, userId)
    ensures forall c :: c in r.body.courseData <==> c in db.courses && Purchase(userId, c.id) in db.purchases
    ensures UniqueCourseIds(r.body.courseData)
  {
    var purchased := PurchasesOf(db.purchases, userId);
    var ids := CollectCourseIds(purchased);
    var courseData := CoursesWithIds(db.courses, ids);
    forall c | c in db.courses
      ensures c.id in ids <==> Purchase(userId, c.id) in db.purchases
    {
      if Purchase(userId, c.id) in db.purchases {
        var k :| 0 <= k < |purchased| && purchased[k] == Purchase(userId, c.id);
        assert ids[k] == c.id;
      }
    }
    CoursesWithIdsUnique(db.courses, ids);
    r := Reply(200, PurchaseList(purchased, courseData), KeepCookies);
  }
}
