/**
 * The controllers composed into the marketplace's main path: an admin
 * creates a course, the listing shows it, a user buys it, the payment is
 * verified, the course appears among the user's purchases, and a second
 * purchase is refused.
 */
module PurchaseFlow {
  import opened Domain
  import opened Store
  import opened CourseController
  import opened UserController

  /** The create step: a png upload with title "X" and price field "100" appends exactly that course. */
  method CreateX(db: Db, adminId: Id, courseId: Id, description: string, image: Upload, publicId: string, url: string,
                 toNumber: string -> Option<int>) returns (course: Course)
    requires db.Valid() && !HasCourseId(db.courses, courseId)
    requires description != "" && image.mimetype == "image/png" && toNumber("100") == Some(100)
    modifies db`courses
    ensures db.Valid()
    ensures course == Course(courseId, "X", description, 100, Image(publicId, url), adminId)
    ensures db.courses == old(db.courses) + [course]
  {
    var files := Files(Some(image), 0);
    var cloud := Uploaded(publicId, url);
    assert HasImage(files) && image.mimetype in AllowedFormats;
    assert CreateRejection("X", description, "100", files, cloud, toNumber).None?;
    var created := CreateCourse(db, adminId, "X", description, "100", files, cloud, toNumber, courseId);
    course := Course(courseId, "X", description, 100, Image(publicId, url), adminId);
  }

  method CreateBuyVerifyList(db: Db, adminId: Id, userId: Id, courseId: Id, description: string,
                             image: Upload, publicId: string, url: string,
                             orderId: string, paymentId: string, secret: string, hmac: (string, string) -> string,
                             toNumber: string -> Option<int>)
    returns (listing: Reply, firstBuy: BuyOutcome, verified: Reply, owned: Reply, secondBuy: BuyOutcome)
    requires db.Valid() && !HasCourseId(db.courses, courseId)
    requires description != "" && image.mimetype == "image/png" && toNumber("100") == Some(100)
    requires Purchase(userId, courseId) !in db.purchases
    modifies db`courses, db`orders, db`purchases
    ensures listing.status == 201 && listing.body.CourseList?
    ensures exists c :: c in listing.body.courses && c.id == courseId && c.title == "X" && c.price == 100 && c.creatorId == adminId
    ensures firstBuy.request == Some(GatewayRequest(10000, "INR", "receipt_" + courseId))
    ensures firstBuy.reply.status == 200
    ensures verified.status == 200 && verified.body.PaymentVerified? && verified.body.order.amount == 100
    ensures owned.body.PurchaseList? && exists c :: c in owned.body.courseData && c.id == courseId
    ensures secondBuy.reply == Fail(400, AlreadyPurchased) && secondBuy.request.None?
  {
    var course := CreateX(db, adminId, courseId, description, image, publicId, url, toNumber);
    assert course in db.courses;
    listing := GetCourses(db.courses);

    firstBuy := BuyCourses(db.courses, db.purchases, userId, courseId, GatewayOrder(orderId, 10000));

    verified := VerifyPayment(db, userId, orderId, paymentId, hmac(secret, SignedPayload(orderId, paymentId)), courseId, secret, hmac);
    assert FindCourse(db.courses, courseId) == Some(course) by {
      assert HasCourseId(db.courses, courseId);
    }
    assert Purchase(userId, course.id) in db.purchases;

    owned := Purchases(db, userId);
    assert course in owned.body.courseData;

    secondBuy := BuyCourses(db.courses, db.purchases, userId, courseId, GatewayOrder(orderId, 10000));
  }
}
