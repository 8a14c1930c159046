/**
 * The course controllers: course management by its owning admin, the public
 * listing and detail reads, and the two-step purchase flow (open a Razorpay
 * order, then verify the payment signature and record an Order and a
 * Purchase).  Cloudinary, Razorpay and HMAC-SHA256 are foreign: their results
 * or functions are parameters.
 */
module CourseController {
  import opened Domain
  import opened Store

  const AllFieldsRequired := "All fields are required"
  const NoFileUploaded := "No file uploaded."
  const InvalidFormat := "Invalid file format. Only png and jpg are Allowed."
  const CloudFailure := "Error in Uploading file to Cloudinary"
  const CreateFailure := "Error in Creating Course"
  const CourseCreated := "Course Created Successfully"
  const CantUpdate := "Can't Update, Created by Other Admin"
  const UpdateFailure := "Error in updating course"
  const CourseUpdated := "Course Updated successfully"
  const CantDelete := "Can't delete, Created by Other Admin"
  const CourseDeleted := "Course Deleted Successfully"
  const CourseNotFound := "Course not found"
  const AlreadyPurchased := "User has already purchased this Course"
  const BuyFailure := "Error in Course buying"
  const InvalidSignature := "Invalid payment signature"
  const PaymentOk := "Payment verified & course unlocked"

  /** The image mimetypes createCourse accepts. */
  const AllowedFormats := ["image/png", "image/jpeg"]

  /** The request carries `req.files.image`. */
  predicate HasImage(files: Files)
  {
    files.Files? && files.image.Some?
  }

  /**
   * The checks createCourse makes before it writes, in source order: the
   * error reply it sends, or None when `Course.create` stores the course.
   * The multipart form delivers `price` as a string, so `!price` rejects
   * only the empty field; "0" passes, and Mongoose's Number cast
   * (`toNumber`, None when it yields NaN) then fails only inside
   * `Course.create`, in the catch block.  `req.files` is destructured before
   * it is checked, so a request without files ends in the catch block's 500;
   * so does one whose files lack an `image` entry but have other entries.
   */
  function CreateRejection(title: string, description: string, priceField: string, files: Files,
                           cloud: CloudResult, toNumber: string -> Option<int>): (r: Option<Reply>)
    ensures r.None? <==>
      title != "" && description != "" && priceField != "" && HasImage(files) &&
      files.image.value.mimetype in AllowedFormats && cloud.Uploaded? && toNumber(priceField).Some?
    ensures r.Some? ==> r.value.body.Errors? && r.value.cookie.KeepCookies? && r.value.status in {400, 500}
    ensures (title == "" || description == "" || priceField == "") ==> r == Some(Fail(400, AllFieldsRequired))
    ensures title != "" && description != "" && priceField != "" && files.NoFiles? ==> r == Some(Fail(500, CreateFailure))
    ensures title != "" && description != "" && priceField != "" && files == Files(None, 0) ==>
            r == Some(Fail(400, NoFileUploaded))
    ensures title != "" && description != "" && priceField != "" && files.Files? && files.image.None? && files.others > 0 ==>
            r == Some(Fail(500, CreateFailure))
    ensures (title != "" && description != "" && priceField != "" && HasImage(files) &&
             files.image.value.mimetype !in AllowedFormats) ==> r == Some(Fail(400, InvalidFormat))
    ensures (title != "" && description != "" && priceField != "" && HasImage(files) &&
             files.image.value.mimetype in AllowedFormats && cloud.UploadError?) ==> r == Some(Fail(400, CloudFailure))
    ensures (title != "" && description != "" && priceField != "" && HasImage(files) &&
             files.image.value.mimetype in AllowedFormats && cloud.UploadThrew?) ==> r == Some(Fail(500, CreateFailure))
    ensures (title != "" && description != "" && priceField != "" && HasImage(files) &&
             files.image.value.mimetype in AllowedFormats && cloud.Uploaded? && toNumber(priceField).None?) ==>
            r == Some(Fail(500, CreateFailure))
  {
    if title == "" || description == "" || priceField == "" then Some(Fail(400, AllFieldsRequired))
    else if files.NoFiles? then Some(Fail(500, CreateFailure))
    else if files.image.None? && files.others == 0 then Some(Fail(400, NoFileUploaded))
    else if files.image.None? then Some(Fail(500, CreateFailure))
    else if files.image.value.mimetype !in AllowedFormats then Some(Fail(400, InvalidFormat))
    else if cloud.UploadError? then Some(Fail(400, CloudFailure))
    else if cloud.UploadThrew? then Some(Fail(500, CreateFailure))
    else if toNumber(priceField).None? then Some(Fail(500, CreateFailure))
    else None
  }

  /** A price field of "0" is present for `!price`: it is refused only if its cast fails. */
  lemma ZeroPriceFieldPasses(title: string, description: string, files: Files, cloud: CloudResult,
                             toNumber: string -> Option<int>)
    requires title != "" && description != ""
    ensures CreateRejection(title, description, "0", files, cloud, toNumber) != Some(Fail(400, AllFieldsRequired))
  {
  }

  /**
   * createCourse: when every check passes, exactly one course is appended,
   * owned by the calling admin and carrying the request's fields, the cast
   * price and the uploaded asset; otherwise the collection is unchanged.
   * `newId` is the fresh `_id` the store assigns.
   */
  method CreateCourse(db: Db, adminId: Id, title: string, description: string, priceField: string,
                      files: Files, cloud: CloudResult, toNumber: string -> Option<int>, newId: Id) returns (r: Reply)
    requires db.Valid() && !HasCourseId(db.courses, newId)
    modifies db`courses
    ensures db.Valid()
    ensures CreateRejection(title, description, priceField, files, cloud, toNumber).Some? ==>
      r == CreateRejection(title, description, priceField, files, cloud, toNumber).value && db.courses == old(db.courses)
    ensures CreateRejection(title, description, priceField, files, cloud, toNumber).None? ==>
      var created := Course(newId, title, description, toNumber(priceField).value, Image(cloud.publicId, cloud.secureUrl), adminId);
      db.courses == old(db.courses) + [created] &&
      r == Reply(200, CourseSaved(CourseCreated, created), KeepCookies)
    ensures r.status == 200 <==> |db.courses| == |old(db.courses)| + 1
  {
    var rejection := CreateRejection(title, description, priceField, files, cloud, toNumber);
    if rejection.Some? {
      return rejection.value;
    }
    var created := Course(newId, title, description, toNumber(priceField).value, Image(cloud.publicId, cloud.secureUrl), adminId);
    db.courses := db.courses + [created];
    r := Reply(200, CourseSaved(CourseCreated, created), KeepCookies);
  }

  /** The course after a permitted update: text fields and price overwritten, image replaced only by a new upload. */
  function Revised(c: Course, title: string, description: string, price: int, files: Files, cloud: CloudResult): (d: Course)
    requires !HasImage(files) || cloud.Uploaded?
    ensures d.id == c.id && d.creatorId == c.creatorId
    ensures d.title == title && d.description == description && d.price == price
    ensures d.image == if HasImage(files) then Image(cloud.publicId, cloud.secureUrl) else c.image
  {
    var image := if HasImage(files) then Image(cloud.publicId, cloud.secureUrl) else c.image;
    c.(title := title, description := description, price := price, image := image)
  }

  /**
   * updateCourse: only a course with this id created by this admin is
   * touched (404 otherwise); a failed upload of a new image ends in the
   * catch block's 400 with nothing saved; otherwise that one course is
   * revised in place and every other course is left as it was.
   */
  method UpdateCourse(db: Db, adminId: Id, courseId: Id, title: string, description: string, price: int,
                      files: Files, cloud: CloudResult) returns (r: Reply)
    requires db.Valid()
    modifies db`courses
    ensures db.Valid()
    ensures |db.courses| == |old(db.courses)|
    ensures forall j :: 0 <= j < |db.courses| && old(db.courses)[j].id != courseId ==> db.courses[j] == old(db.courses)[j]
    ensures FindOwned(old(db.courses), courseId, adminId).None? ==>
      r == Fail(404, CantUpdate) && db.courses == old(db.courses)
    ensures FindOwned(old(db.courses), courseId, adminId).Some? && HasImage(files) && !cloud.Uploaded? ==>
      r == Fail(400, UpdateFailure) && db.courses == old(db.courses)
    ensures FindOwned(old(db.courses), courseId, adminId).Some? && (!HasImage(files) || cloud.Uploaded?) ==>
      var k := FindOwned(old(db.courses), courseId, adminId).value;
      var revised := Revised(old(db.courses)[k], title, description, price, files, cloud);
      db.courses == old(db.courses)[k := revised] &&
      r == Reply(201, CourseSaved(CourseUpdated, revised), KeepCookies)
  {
    var found := FindOwned(db.courses, courseId, adminId);
    if found.None? {
      return Fail(404, CantUpdate);
    }
    var k := found.value;
    if HasImage(files) && !cloud.Uploaded? {
      return Fail(400, UpdateFailure);
    }
    var revised := Revised(db.courses[k], title, description, price, files, cloud);
    db.courses := db.courses[k := revised];
    r := Reply(201, CourseSaved(CourseUpdated, revised), KeepCookies);
  }

  /**
   * deleteCourse: removes the course with this id created by this admin and
   * nothing else; without such a course it answers 400 and removes nothing.
   * Purchases and orders that point to the course are left in place.
   */
  method DeleteCourse(db: Db, adminId: Id, courseId: Id) returns (r: Reply)
    requires db.Valid()
    modifies db`courses
    ensures db.Valid()
    ensures forall c :: c in old(db.courses) && c.id != courseId ==> c in db.courses
    ensures forall c :: c in db.courses ==> c in old(db.courses)
    ensures FindOwned(old(db.courses), courseId, adminId).None? ==>
      r == Fail(400, CantDelete) && db.courses == old(db.courses)
    ensures FindOwned(old(db.courses), courseId, adminId).Some? ==>
      var k := FindOwned(old(db.courses), courseId, adminId).value;
      db.courses == old(db.courses)[..k] + old(db.courses)[k + 1..] && !HasCourseId(db.courses, courseId) &&
      r == Reply(201, Message(CourseDeleted), KeepCookies)
  {
    var found := FindOwned(db.courses, courseId, adminId);
    if found.None? {
      return Fail(400, CantDelete);
    }
    var k := found.value;
    RemoveAtKeepsOthers(db.courses, k);
    db.courses := db.courses[..k] + db.courses[k + 1..];
    r := Reply(201, Message(CourseDeleted), KeepCookies);
  }

  /** getCourses: every course, for any caller, answered with 201. */
  function GetCourses(courses: seq<Course>): (r: Reply)
    ensures r.status == 201 && r.cookie.KeepCookies?
    ensures r.body.CourseList? && forall c :: c in r.body.courses <==> c in courses
  {
    Reply(201, CourseList(courses), KeepCookies)
  }

  /** courseDetails: the course with this id (201), or 404 "Course not found". */
  function CourseDetails(courses: seq<Course>, courseId: Id): (r: Reply)
    ensures r.status == 201 <==> HasCourseId(courses, courseId)
    ensures r.status == 201 ==> r.body.CourseFound? && r.body.course in courses && r.body.course.id == courseId
    ensures r.status != 201 ==> r == Fail(404, CourseNotFound)
  {
    match FindCourse(courses, courseId)
    case None => Fail(404, CourseNotFound)
    case Some(c) => Reply(201, CourseFound(c), KeepCookies)
  }

  /** The order buyCourses asks Razorpay for: the price in paise (hundredths of a rupee). */
  function OrderRequest(c: Course): (q: GatewayRequest)
    ensures q.amount == 100 * c.price && q.currency == "INR" && q.receipt == "receipt_" + c.id
  {
    GatewayRequest(c.price * 100, "INR", "receipt_" + c.id)
  }

  /** The reply of buyCourses and the Razorpay order it requested, if it got that far. */
  datatype BuyOutcome = BuyOutcome(reply: Reply, request: Option<GatewayRequest>)

  /**
   * buyCourses: 404 for an unknown course, 400 when the user already has a
   * Purchase of it; otherwise one gateway order of `price * 100` INR with
   * receipt `receipt_<courseId>` is requested.  It writes nothing: no
   * Purchase and no Order come from this step.
   */
  function BuyCourses(courses: seq<Course>, purchases: seq<Purchase>, userId: Id, courseId: Id,
                      gateway: GatewayResult): (b: BuyOutcome)
    ensures b.request.Some? <==> HasCourseId(courses, courseId) && Purchase(userId, courseId) !in purchases
    ensures !HasCourseId(courses, courseId) ==> b.reply == Fail(404, CourseNotFound)
    ensures HasCourseId(courses, courseId) && Purchase(userId, courseId) in purchases ==>
      b.reply == Fail(400, AlreadyPurchased)
    ensures b.request.Some? ==>
      (exists c :: c in courses && c.id == courseId &&
         b.request.value == GatewayRequest(c.price * 100, "INR", "receipt_" + courseId))
    ensures b.reply.status == 200 <==> b.request.Some? && gateway.GatewayOrder?
    ensures b.request.Some? && gateway.GatewayThrew? ==> b.reply == Fail(401, BuyFailure)
    ensures b.reply.status == 200 ==>
      b.reply == Reply(200, OrderOpened(gateway.orderId, gateway.amount, courseId), KeepCookies)
  {
    match FindCourse(courses, courseId)
    case None => BuyOutcome(Fail(404, CourseNotFound), None)
    case Some(c) =>
      if Purchase(userId, courseId) in purchases then BuyOutcome(Fail(400, AlreadyPurchased), None)
      else
        var request := OrderRequest(c);
        match gateway
        case GatewayThrew => BuyOutcome(Fail(401, BuyFailure), Some(request))
        case GatewayOrder(orderId, amount) =>
          BuyOutcome(Reply(200, OrderOpened(orderId, amount, courseId), KeepCookies), Some(request))
  }

  /** Once the user holds a Purchase of a course, buying it again is refused and no gateway order is requested. */
  lemma BuyAfterPurchaseRejected(courses: seq<Course>, purchases: seq<Purchase>, userId: Id, courseId: Id,
                                 gateway: GatewayResult)
    requires HasCourseId(courses, courseId)
    ensures var b := BuyCourses(courses, purchases + [Purchase(userId, courseId)], userId, courseId, gateway);
      b.reply == Fail(400, AlreadyPurchased) && b.request.None?
  {
  }

  /** The string the gateway signs: the order id, a vertical bar, the payment id. */
  function SignedPayload(orderId: string, paymentId: string): (s: string)
    ensures |s| == |orderId| + 1 + |paymentId| && s[|orderId|] == '|'
    ensures s[..|orderId|] == orderId && s[|orderId| + 1..] == paymentId
  {
    orderId + "|" + paymentId
  }

  /** The hex HMAC-SHA256 of the payload under the key secret equals the supplied signature. */
  predicate SignatureMatches(hmac: (string, string) -> string, secret: string,
                             orderId: string, paymentId: string, signature: string)
  {
    hmac(secret, SignedPayload(orderId, paymentId)) == signature
  }

  /** With no bar inside the order ids, the signed payload determines the order id and the payment id. */
  lemma {:induction false} PayloadDeterminesIds(o1: string, p1: string, o2: string, p2: string)
    requires '|' !in o1 && '|' !in o2
    requires SignedPayload(o1, p1) == SignedPayload(o2, p2)
    ensures o1 == o2 && p1 == p2
  {
    var s := SignedPayload(o1, p1);
    // Both bars sit at the end of an order id that holds no bar of its own.
    assert forall k :: 0 <= k < |o1| ==> s[k] == o1[k];
    assert forall k :: 0 <= k < |o2| ==> s[k] == o2[k];
  }

  /**
   * A signature accepted for one (order id, payment id) pair is refused for
   * any other pair, provided HMAC under the secret is injective and order ids
   * carry no bar.  Without the bar condition the pairs ("a|b", "c") and
   * ("a", "b|c") sign the same payload.
   */
  lemma TamperedIdsFail(hmac: (string, string) -> string, secret: string, signature: string,
                        orderId: string, paymentId: string, otherOrderId: string, otherPaymentId: string)
    requires forall m1, m2 :: hmac(secret, m1) == hmac(secret, m2) ==> m1 == m2
    requires '|' !in orderId && '|' !in otherOrderId
    requires (otherOrderId, otherPaymentId) != (orderId, paymentId)
    requires SignatureMatches(hmac, secret, orderId, paymentId, signature)
    ensures !SignatureMatches(hmac, secret, otherOrderId, otherPaymentId, signature)
  {
    if SignatureMatches(hmac, secret, otherOrderId, otherPaymentId, signature) {
      PayloadDeterminesIds(orderId, paymentId, otherOrderId, otherPaymentId);
    }
  }

  /** `user?.firstName + " " + user?.lastName`: JavaScript renders a missing user as "undefined undefined". */
  function PayerName(user: Option<Account>): (name: string)
    ensures user.None? ==> name == "undefined undefined"
    ensures user.Some? ==> name == user.value.firstName + " " + user.value.lastName
  {
    match user
    case None => "undefined undefined"
    case Some(u) => u.firstName + " " + u.lastName
  }

  /** The Order verifyPayment records: the course price as stored, not the paise sent to the gateway. */
  function PaymentOrder(user: Option<Account>, userId: Id, c: Course, paymentId: string): (o: Order)
    ensures o.amount == c.price && o.courseId == c.id && o.userId == userId
    ensures o.paymentId == paymentId && o.status == "success"
    ensures o.email == if user.Some? then Some(user.value.email) else None
  {
    Order(PayerName(user), if user.Some? then Some(user.value.email) else None, userId, c.id, paymentId, c.price, "success")
  }

  /**
   * For a course the user can buy, the amount buyCourses asks the gateway to
   * charge is 100 times the amount verifyPayment then records in the Order.
   */
  lemma ChargedIsHundredTimesRecorded(courses: seq<Course>, purchases: seq<Purchase>, userId: Id, courseId: Id,
                                      gateway: GatewayResult, user: Option<Account>, paymentId: string)
    requires HasCourseId(courses, courseId) && Purchase(userId, courseId) !in purchases
    ensures var b := BuyCourses(courses, purchases, userId, courseId, gateway);
      b.request.Some? &&
      b.request.value.amount == 100 * PaymentOrder(user, userId, FindCourse(courses, courseId).value, paymentId).amount
  {
  }

  /**
   * verifyPayment: a signature that is not the HMAC of `order_id|payment_id`
   * is refused with nothing written; with a valid signature and an existing
   * course, exactly one Order and one Purchase are appended, whether or not
   * the user already owns the course.  The signature does not cover courseId.
   */
  method VerifyPayment(db: Db, userId: Id, orderId: string, paymentId: string, signature: string, courseId: Id,
                       secret: string, hmac: (string, string) -> string) returns (r: Reply)
    requires db.Valid()
    modifies db`orders, db`purchases
    ensures db.Valid()
    ensures !SignatureMatches(hmac, secret, orderId, paymentId, signature) ==>
      r == Fail(400, InvalidSignature) && db.orders == old(db.orders) && db.purchases == old(db.purchases)
    ensures SignatureMatches(hmac, secret, orderId, paymentId, signature) && !HasCourseId(db.courses, courseId) ==>
      r == Fail(404, CourseNotFound) && db.orders == old(db.orders) && db.purchases == old(db.purchases)
    ensures SignatureMatches(hmac, secret, orderId, paymentId, signature) && HasCourseId(db.courses, courseId) ==>
      var order := PaymentOrder(FindAccount(db.users, userId), userId, FindCourse(db.courses, courseId).value, paymentId);
      db.orders == old(db.orders) + [order] &&
      db.purchases == old(db.purchases) + [Purchase(userId, courseId)] &&
      r == Reply(200, PaymentVerified(PaymentOk, order), KeepCookies)
  {
    var expected := hmac(secret, SignedPayload(orderId, paymentId));
    if expected != signature {
      return Fail(400, InvalidSignature);
    }
    var user := FindAccount(db.users, userId);
    var course := FindCourse(db.courses, courseId);
    if course.None? {
      return Fail(404, CourseNotFound);
    }
    var order := PaymentOrder(user, userId, course.value, paymentId);
    db.orders := db.orders + [order];
    db.purchases := db.purchases + [Purchase(userId, courseId)];
    r := Reply(200, PaymentVerified(PaymentOk, order), KeepCookies);
  }
}
