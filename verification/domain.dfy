/**
 * Records of the course marketplace and the shape of every HTTP reply its
 * controllers send.  Foreign collaborators (bcrypt, JWT signing, HMAC,
 * Cloudinary, Razorpay) are not modelled here: the controllers receive their
 * results or their functions as parameters.
 */
module Domain {

  datatype Option<+T> = None | Some(value: T)

  /** A document id (a MongoDB ObjectId in its string form). */
  type Id = string

  /** The output of bcrypt.hash: a value of its own type, never a plaintext string. */
  datatype Digest = Bcrypt(encoded: string)

  /** A User or an Admin document: both collections have this shape. */
  datatype Account = Account(id: Id, firstName: string, lastName: string, email: string, password: Digest)

  /** An account as it is serialised into a reply; `password: None` is a field set to `undefined`. */
  datatype AccountView = AccountView(id: Id, firstName: string, lastName: string, email: string, password: Option<Digest>)

  /** The account as stored, password included. */
  function FullView(a: Account): (v: AccountView)
    ensures v.id == a.id && v.firstName == a.firstName && v.lastName == a.lastName && v.email == a.email
    ensures v.password == Some(a.password)
  {
    AccountView(a.id, a.firstName, a.lastName, a.email, Some(a.password))
  }

  /** The account after `password = undefined`. */
  function StrippedView(a: Account): (v: AccountView)
    ensures v == FullView(a).(password := None)
  {
    AccountView(a.id, a.firstName, a.lastName, a.email, None)
  }

  /** The Cloudinary asset a course points to. */
  datatype Image = Image(publicId: string, url: string)

  datatype Course = Course(id: Id, title: string, description: string, price: int, image: Image, creatorId: Id)

  /** Entitlement record; the schema puts no uniqueness constraint on (userId, courseId). */
  datatype Purchase = Purchase(userId: Id, courseId: Id)

  /** Payment audit record; `email` is None when no user document was found. */
  datatype Order = Order(name: string, email: Option<string>, userId: Id, courseId: Id, paymentId: string, amount: int, status: string)

  /** One uploaded file as express-fileupload describes it. */
  datatype Upload = Upload(mimetype: string, tempFilePath: string)

  /**
   * `req.files`: absent (`undefined`), or an object with an optional `image`
   * entry and `others` further file fields.
   */
  datatype Files = NoFiles | Files(image: Option<Upload>, others: nat)

  /** What `cloudinary.uploader.upload` produced: an asset, a response carrying an error, or an exception. */
  datatype CloudResult = Uploaded(publicId: string, secureUrl: string) | UploadError | UploadThrew

  /** The options object passed to `razorpay.orders.create`. */
  datatype GatewayRequest = GatewayRequest(amount: int, currency: string, receipt: string)

  /** What `razorpay.orders.create` produced. */
  datatype GatewayResult = GatewayOrder(orderId: string, amount: int) | GatewayThrew

  /** The two JWT secrets: JWT_USER_PASSWORD and JWT_ADMIN_PASSWORD. */
  datatype SigningKey = UserKey | AdminKey

  /** A signed token, given by its claims: the payload is the principal id alone. */
  datatype Jwt = Jwt(id: Id, key: SigningKey, expiresIn: string)

  datatype Cookie = Cookie(name: string, token: Jwt, expires: int, httpOnly: bool, secure: bool, sameSite: string)

  /** What a reply does to the client's cookies. */
  datatype CookieOp = KeepCookies | SetCookie(cookie: Cookie) | ClearCookie(name: string)

  /** The JSON bodies the controllers send. */
  datatype Body =
    | Errors(text: string)
    | ErrorList(texts: seq<string>)
    | Message(text: string)
    | CourseSaved(message: string, course: Course)
    | CourseList(courses: seq<Course>)
    | CourseFound(course: Course)
    | OrderOpened(orderId: string, amount: int, courseId: Id)
    | PaymentVerified(message: string, order: Order)
    | AccountCreated(message: string, account: AccountView)
    | LoggedIn(message: string, token: Jwt, principal: AccountView)
    | PurchaseList(purchased: seq<Purchase>, courseData: seq<Course>)

  datatype Reply = Reply(status: nat, body: Body, cookie: CookieOp)

  /** `res.status(status).json({ errors: text })`. */
  function Fail(status: nat, text: string): (r: Reply)
    ensures r.status == status && r.body == Errors(text) && r.cookie.KeepCookies?
  {
    Reply(status, Errors(text), KeepCookies)
  }
}
