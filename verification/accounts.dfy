/**
 * What the user and admin account controllers share: the zod signup schema,
 * the session cookie that login sets, and logout.  bcrypt and zod's email
 * check are foreign code: they reach the controllers as function parameters.
 */
module Accounts {
  import opened Domain
  import opened Store

  const MinNameLength := 3
  const MinPasswordLength := 7

  const FirstNameIssue := "FirstName should be minimum 3 char long"
  const LastNameIssue := "lastName should be minimum 3 char long"
  const EmailIssue := "Enter valid Email"
  const PasswordIssue := "Password length should be greater than 7"

  const AlreadyExists := "User already exist."
  const FieldsRequired := "All fields are required"
  const WrongPassword := "Incorrect Password"
  const LoginOk := "Login Successfully"

  /** Token lifetime given to jwt.sign. */
  const TokenLifetime := "1d"
  /** Cookie lifetime, in milliseconds: 24*60*60*1000. */
  const DayMs := 24 * 60 * 60 * 1000

  /** The schema's messages in its field order. */
  const SchemaOrder := [FirstNameIssue, LastNameIssue, EmailIssue, PasswordIssue]

  /** The position of a message in the schema's field order (4 for any other string). */
  function Rank(m: string): (k: nat)
    ensures k <= 4 && (k < 4 <==> m in SchemaOrder) && (k < 4 ==> SchemaOrder[k] == m)
  {
    if m == FirstNameIssue then 0
    else if m == LastNameIssue then 1
    else if m == EmailIssue then 2
    else if m == PasswordIssue then 3
    else 4
  }

  /** The zod schema's answer: the message of every failing field, in the schema's field order. */
  function SignupIssues(firstName: string, lastName: string, email: string, password: string, isEmail: string -> bool): (issues: seq<string>)
    ensures issues == [] <==> |firstName| >= 3 && |lastName| >= 3 && isEmail(email) && |password| >= 7
    ensures FirstNameIssue in issues <==> |firstName| < 3
    ensures LastNameIssue in issues <==> |lastName| < 3
    ensures EmailIssue in issues <==> !isEmail(email)
    ensures PasswordIssue in issues <==> |password| < 7
    ensures forall m :: m in issues ==> m in SchemaOrder
    ensures forall i, j :: 0 <= i < j < |issues| ==> Rank(issues[i]) < Rank(issues[j])
  {
    (if |firstName| < MinNameLength then [FirstNameIssue] else [])
    + (if |lastName| < MinNameLength then [LastNameIssue] else [])
    + (if isEmail(email) then [] else [EmailIssue])
    + (if |password| < MinPasswordLength then [PasswordIssue] else [])
  }

  /** A password of exactly seven characters raises no password issue, whatever the message says. */
  lemma SevenCharacterPasswordAccepted(firstName: string, lastName: string, email: string, password: string, isEmail: string -> bool)
    requires |password| == 7
    ensures PasswordIssue !in SignupIssues(firstName, lastName, email, password, isEmail)
  {
  }

  /** The `jwt` cookie set by a successful login at time `now` (milliseconds). */
  function SessionCookie(token: Jwt, now: int, production: bool): (c: Cookie)
    ensures c.name == "jwt" && c.token == token && c.expires - now == 86_400_000
    ensures c.httpOnly && c.secure == production && c.sameSite == "Lax"
  {
    Cookie("jwt", token, now + DayMs, true, production, "Lax")
  }

  /** Logout of either principal: clears the `jwt` cookie; it is given no store, so no record changes. */
  function Logout(): (r: Reply)
    ensures r.status == 201 && r.cookie == ClearCookie("jwt")
    ensures r.body == Message("Logout Successfully")
  {
    Reply(201, Message("Logout Successfully"), ClearCookie("jwt"))
  }

  /** Appending an account with a new email leaves every earlier email lookup alone and finds the new one. */
  lemma {:induction false} FindByEmailAppend(accounts: seq<Account>, a: Account, email: string)
    ensures FindByEmail(accounts + [a], email) ==
      if HasEmail(accounts, email) then FindByEmail(accounts, email)
      else if a.email == email then Some(a) else None
  {
    if accounts != [] {
      assert (accounts + [a])[1..] == accounts[1..] + [a];
      FindByEmailAppend(accounts[1..], a, email);
      if accounts[0].email != email && HasEmail(accounts, email) {
        var b :| b in accounts && b.email == email;
        assert b in accounts[1..];
      }
    } else {
      assert [a][1..] == [];
    }
  }

  /** Appending an account whose email is new keeps emails unique. */
  lemma AppendKeepsEmailsUnique(accounts: seq<Account>, a: Account)
    requires UniqueEmails(accounts) && !HasEmail(accounts, a.email)
    ensures UniqueEmails(accounts + [a])
  {
    var s := accounts + [a];
    forall i, j | 0 <= i < j < |s| ensures s[i].email != s[j].email {
      if j == |accounts| {
        assert s[i] in accounts;
      }
    }
  }
}
