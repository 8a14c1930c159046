/**
 * The document store: the five Mongoose collections the controllers read and
 * write, held as sequences in insertion order, and the queries the
 * controllers issue against them (findById, findOne, find with a filter).
 */
module Store {
  import opened Domain

  /** No two courses share an `_id`. */
  predicate UniqueCourseIds(courses: seq<Course>)
  {
    forall i, j :: 0 <= i < j < |courses| ==> courses[i].id != courses[j].id
  }

  /** No two accounts of one collection share an email. */
  predicate UniqueEmails(accounts: seq<Account>)
  {
    forall i, j :: 0 <= i < j < |accounts| ==> accounts[i].email != accounts[j].email
  }

  /** Some course of the collection has this id. */
  predicate HasCourseId(courses: seq<Course>, id: Id)
  {
    exists c :: c in courses && c.id == id
  }

  /** Some account of the collection has this email. */
  predicate HasEmail(accounts: seq<Account>, email: string)
  {
    exists a :: a in accounts && a.email == email
  }

  /** The filter `{ _id: id, creatorId: adminId }` of updateCourse and deleteCourse. */
  predicate Owns(c: Course, id: Id, adminId: Id)
  {
    c.id == id && c.creatorId == adminId
  }

  /** `Course.findById(id)`: the first course with this id, if any. */
  function FindCourse(courses: seq<Course>, id: Id): (r: Option<Course>)
    ensures r.None? <==> !HasCourseId(courses, id)
    ensures r.Some? ==> r.value in courses && r.value.id == id
  {
    if courses == [] then None
    else if courses[0].id == id then Some(courses[0])
    else FindCourse(courses[1..], id)
  }

  /** `Course.findOne({ _id: id, creatorId: adminId })`, as the position of the first match. */
  function FindOwned(courses: seq<Course>, id: Id, adminId: Id): (r: Option<nat>)
    ensures r.Some? ==> r.value < |courses| && Owns(courses[r.value], id, adminId)
    ensures r.Some? ==> forall j :: 0 <= j < r.value ==> !Owns(courses[j], id, adminId)
    ensures r.None? <==> forall j :: 0 <= j < |courses| ==> !Owns(courses[j], id, adminId)
  {
    if courses == [] then None
    else if Owns(courses[0], id, adminId) then Some(0)
    else match FindOwned(courses[1..], id, adminId)
      case None => None
      case Some(k) => Some(k + 1)
  }

  /** `User.findOne({ email })` / `Admin.findOne({ email })`: the first account with this email. */
  function FindByEmail(accounts: seq<Account>, email: string): (r: Option<Account>)
    ensures r.None? <==> !HasEmail(accounts, email)
    ensures r.Some? ==> r.value in accounts && r.value.email == email
  {
    if accounts == [] then None
    else if accounts[0].email == email then Some(accounts[0])
    else FindByEmail(accounts[1..], email)
  }

  /** `User.findById(id)`: the first account with this id. */
  function FindAccount(accounts: seq<Account>, id: Id): (r: Option<Account>)
    ensures r.None? <==> forall a :: a in accounts ==> a.id != id
    ensures r.Some? ==> r.value in accounts && r.value.id == id
  {
    if accounts == [] then None
    else if accounts[0].id == id then Some(accounts[0])
    else FindAccount(accounts[1..], id)
  }

  /** `Purchase.find({ userId })`: the user's purchases, in collection order. */
  function PurchasesOf(purchases: seq<Purchase>, userId: Id): (r: seq<Purchase>)
    ensures forall p :: p in r <==> p in purchases && p.userId == userId
    ensures forall p :: multiset(r)[p] == if p.userId == userId then multiset(purchases)[p] else 0
    ensures |r| <= |purchases|
  {
    if purchases == [] then []
    else
      assert purchases == [purchases[0]] + purchases[1..];
      (if purchases[0].userId == userId then [purchases[0]] else []) + PurchasesOf(purchases[1..], userId)
  }

  /** `Course.find({ _id: { $in: ids } })`: the courses whose id is listed, each once, in collection order. */
  function CoursesWithIds(courses: seq<Course>, ids: seq<Id>): (r: seq<Course>)
    ensures forall c :: c in r <==> c in courses && c.id in ids
    ensures |r| <= |courses|
  {
    if courses == [] then []
    else (if courses[0].id in ids then [courses[0]] else []) + CoursesWithIds(courses[1..], ids)
  }

  /** The `$in` filter keeps each course once: unique ids in the collection stay unique in the result. */
  lemma {:induction false} CoursesWithIdsUnique(courses: seq<Course>, ids: seq<Id>)
    requires UniqueCourseIds(courses)
    ensures UniqueCourseIds(CoursesWithIds(courses, ids))
  {
    if courses != [] {
      var tail := courses[1..];
      assert UniqueCourseIds(tail) by {
        forall i, j | 0 <= i < j < |tail| ensures tail[i].id != tail[j].id {
          assert tail[i] == courses[i + 1] && tail[j] == courses[j + 1];
        }
      }
      CoursesWithIdsUnique(tail, ids);
      var rest := CoursesWithIds(tail, ids);
      forall c | c in rest ensures c.id != courses[0].id {
        var k :| 0 <= k < |tail| && tail[k] == c;
        assert courses[k + 1] == c;
      }
    }
  }

  /**
   * Removing the course at position k (as findOneAndDelete does) keeps every
   * other course, adds none, keeps ids unique, and leaves no course with the
   * removed id.
   */
  lemma RemoveAtKeepsOthers(courses: seq<Course>, k: nat)
    requires k < |courses| && UniqueCourseIds(courses)
    ensures var rest := courses[..k] + courses[k + 1..];
      && UniqueCourseIds(rest)
      && !HasCourseId(rest, courses[k].id)
      && (forall c :: c in courses && c.id != courses[k].id ==> c in rest)
      && (forall c :: c in rest ==> c in courses)
  {
    var rest := courses[..k] + courses[k + 1..];
    assert forall j :: 0 <= j < |rest| ==> rest[j] == courses[if j < k then j else j + 1];
    forall c | c in courses && c.id != courses[k].id ensures c in rest {
      var j :| 0 <= j < |courses| && courses[j] == c;
      assert rest[if j < k then j else j - 1] == c;
    }
  }

  /** The collections of the database. */
  class Db {
    var users: seq<Account>
    var admins: seq<Account>
    var courses: seq<Course>
    var purchases: seq<Purchase>
    var orders: seq<Order>

    /** What every controller keeps: unique course ids, and unique emails within each account collection. */
    ghost predicate Valid()
      reads this
    {
      UniqueCourseIds(courses) && UniqueEmails(users) && UniqueEmails(admins)
    }

    constructor ()
      ensures Valid()
      ensures users == [] && admins == [] && courses == [] && purchases == [] && orders == []
    {
      users, admins, courses, purchases, orders := [], [], [], [], [];
    }
  }
}
