# Course marketplace backend: a verified model

This project models the business rules of an online course marketplace's
REST backend. Admins create, update and delete priced courses with an image.
Users sign up, log in, buy a course through the Razorpay payment gateway and
list the courses they own. The store is an in-memory database: one class
`Store.Db` holds the User, Admin, Course, Purchase and Order collections as
sequences. Each controller is modelled in one of three ways:

- as a method that changes exactly the collections its `modifies` clause
  names (signup, course create/update/delete, payment verification, and the
  purchases query with its loop);
- as a function of the collections it reads (login, course listing, course
  detail, buy);
- as a function of no state at all (logout).

The Express routers are modelled as ordered tables with first-match dispatch.
Their mount points are `/api/v1/course` and `/api/v1/user`.

Foreign code is not modelled. It reaches the model as parameters:

- bcrypt hashing is `hash: string -> Digest` and bcrypt comparison is
  `compare: (string, Digest) -> bool`;
- zod's email check is `isEmail: string -> bool`;
- HMAC-SHA256 is `hmac: (key, message) -> hex digest`;
- the Cloudinary upload result is a `CloudResult` and the Razorpay order
  result is a `GatewayResult`;
- the clock (`now`, milliseconds) and `NODE_ENV === "production"`
  (`production`) are plain values;
- a JWT is represented by its claims (`Jwt(id, key, expiresIn)`). The
  signature itself is not computed.

Behaviours of the code that the model keeps as written:

- User login returns the stored user with its password digest
  (backend/controllers/user.controllers.js:61). Only admin login clears it
  (backend/controllers/admin.controllers.js:62).
- An ownership mismatch answers 404 in updateCourse
  (backend/controllers/course.controllers.js:63-66) but 400 in deleteCourse
  (backend/controllers/course.controllers.js:104-107).
- createCourse destructures `req.files` (backend/controllers/course.controllers.js:21)
  before its missing-files check at line 22. A request without files
  therefore ends in the catch block's 500, and the 400 "No file uploaded."
  is reached only by a files object with no entries.
- The multipart form delivers `price` as a string, so `!price` refuses only
  an empty field. A price of "0" passes, and Mongoose's Number cast decides
  the stored price.

Files:

- `domain.dfy`: the records and reply shapes.
- `store.dfy`: the collections and the store queries.
- `accounts.dfy`: the signup schema, the session cookie and logout.
- `user_controller.dfy`, `admin_controller.dfy` and `course_controller.dfy`:
  the controllers.
- `routing.dfy`, `course_routes.dfy` and `user_routes.dfy`: the routers.
- `purchase_flow.dfy`: the controllers composed into create, list, buy,
  verify, list purchases and buy again.

## Model

| member | source | states |
|---|---|---|
| `Domain.StrippedView` | backend/controllers/user.controllers.js:31 | The account shown after `password = undefined` is the full view with only the password field removed: id, names and email are kept. |
| `Domain.FullView` | backend/controllers/user.controllers.js:61 | The user returned by login carries every stored field, its password digest included. |
| `Store.FindCourse` | backend/controllers/course.controllers.js:127 | `findById` finds a course with the id exactly when one exists, and what it finds is in the collection. |
| `Store.FindOwned` | backend/controllers/course.controllers.js:62 | The `{_id, creatorId}` filter returns the first course owned by that admin with that id. It returns None exactly when no course matches both. |
| `Store.FindByEmail` | backend/controllers/user.controllers.js:44 | `findOne({email})` finds an account with that email exactly when one exists. |
| `Store.FindAccount` | backend/controllers/course.controllers.js:189 | `User.findById` finds an account with that id exactly when one exists. |
| `Store.PurchasesOf` | backend/controllers/user.controllers.js:82 | `Purchase.find({userId})` holds exactly the purchases whose userId is the caller's, each as many times as it is stored: duplicates from repeated payment verification are kept. |
| `Store.CoursesWithIds` | backend/controllers/user.controllers.js:88-90 | The `$in` filter holds exactly the courses whose id is in the list. It is never longer than the collection, however many times an id is listed. |
| `Store.CoursesWithIdsUnique` | backend/controllers/user.controllers.js:88-90 | If the collection's course ids are unique, the `$in` result lists each course once, even when the id list has duplicates. |
| `Store.RemoveAtKeepsOthers` | backend/controllers/course.controllers.js:100-103 | Removing one course keeps every course with another id and adds none. Ids stay unique, and no course with the removed id is left. |
| `Accounts.SignupIssues` | backend/controllers/user.controllers.js:13-22 | There are no issues exactly when both names have at least 3 characters, the email passes the check and the password has at least 7 characters. Each message appears exactly when its own field fails. Nothing else appears, no message appears twice, and the messages follow the schema's field order. |
| `Accounts.SevenCharacterPasswordAccepted` | backend/controllers/user.controllers.js:17 | A 7-character password raises no issue, although the message says "greater than 7". |
| `Accounts.SessionCookie` | backend/controllers/user.controllers.js:53-59 | The login cookie is named `jwt` and expires 86 400 000 ms (one day) after `now`. It is httpOnly and SameSite Lax, and `secure` only in production. |
| `Accounts.Logout` | backend/controllers/user.controllers.js:69-76 | Logout (for users, and the same code for admins at backend/controllers/admin.controllers.js:72-78) always answers 201 and clears the `jwt` cookie. It receives no store, so no record can change. |
| `Accounts.FindByEmailAppend` | backend/controllers/user.controllers.js:44 | After an account is appended, an email lookup gives the old result for emails already present, and the new account for its own email. |
| `Accounts.AppendKeepsEmailsUnique` | backend/controllers/user.controllers.js:24-30 | Appending an account whose email is not yet present keeps emails unique. |
| `UserController.Signup` | backend/controllers/user.controllers.js:11-36 | A schema failure answers 400 with every failing message. A taken email answers 400 "User already exist.". In both cases no user is added. Otherwise exactly one user is appended, storing `hash(password)` (a `Digest`, never the plaintext), and the reply shows the user with no password. Emails stay unique. |
| `UserController.Login` | backend/controllers/user.controllers.js:38-67 | A cookie is set exactly on the 200 reply. 200 happens exactly when both fields are non-empty, the email exists and bcrypt accepts the password. Empty fields and an unknown email give distinct 400 messages. Success issues a 1-day user-key token whose payload is only the user id, and returns the user with its password digest. |
| `UserController.WrongPasswordIsNotNotFound` | backend/controllers/user.controllers.js:44-51 | A known email with a wrong password answers "Incorrect Password", not "User Not Found", and sets no cookie. |
| `UserController.LoginAfterSignup` | backend/controllers/user.controllers.js:28-61 | After a signup with a new email, logging in with the same credentials succeeds and the token carries the new user's id. This holds for any bcrypt that accepts its own digest. |
| `UserController.CollectCourseIds` | backend/controllers/user.controllers.js:84-87 | The loop visits every purchase in order. It collects each one's courseId at the same position, duplicates included. |
| `UserController.Purchases` | backend/controllers/user.controllers.js:79-95 | `purchased` is the caller's purchases. A course is in `courseData` exactly when it is in the store and the caller has a Purchase of it. No course appears twice. |
| `AdminController.Signup` | backend/controllers/admin.controllers.js:14-39 | Same schema gate as user signup. Duplicates are looked up in the Admin collection only, so a user's email does not block it, and only the Admin collection changes. Success appends one admin with `hash(password)` and answers 201 with the password cleared. |
| `AdminController.Login` | backend/controllers/admin.controllers.js:41-70 | A cookie is set exactly on the 201 reply. 201 happens exactly when both fields are non-empty, the admin exists and bcrypt accepts the password. "Admin Not Found" and "Incorrect Password" are distinct 400s. Success issues a 1-day admin-key token carrying only the admin id, and the admin in the reply has no password. |
| `AdminController.WrongPasswordIsNotNotFound` | backend/controllers/admin.controllers.js:47-54 | A known admin email with a wrong password answers "Incorrect Password", not "Admin Not Found". |
| `AdminController.LoginAfterSignup` | backend/controllers/admin.controllers.js:31-64 | After registering an admin with a new email, logging in with the same credentials answers 201 and carries the new admin's id. |
| `CourseController.CreateRejection` | backend/controllers/course.controllers.js:18-47 | A course is written exactly when title, description and the price field are non-empty strings, an image is present with mimetype `image/png` or `image/jpeg`, the upload succeeded, and the price field casts to a number. Empty fields give 400 "All fields are required". A files object with no entries gives 400 "No file uploaded.". A bad mimetype gives 400. A Cloudinary response carrying an error gives 400 "Error in Uploading file to Cloudinary". No files at all, files without an `image` entry but with other entries, a Cloudinary throw, or a price the cast refuses each give 500 "Error in Creating Course". |
| `CourseController.ZeroPriceFieldPasses` | backend/controllers/course.controllers.js:18 | A price field of "0" is not a missing field. |
| `CourseController.CreateCourse` | backend/controllers/course.controllers.js:14-55 | A rejected request leaves the courses unchanged. An accepted one appends exactly one course: the new id, the request's title and description, the cast price, the uploaded asset, and `creatorId` equal to the caller. The reply is 200. |
| `CourseController.Revised` | backend/controllers/course.controllers.js:68-84 | A permitted update overwrites title, description and price. The image is replaced only when a new file came with the request. Id and creator are kept. |
| `CourseController.UpdateCourse` | backend/controllers/course.controllers.js:57-94 | Without a course matching both id and the caller as creator, it answers 404 and changes nothing. A failed new-image upload answers 400 and changes nothing. Otherwise only that course is revised, every course with another id is untouched, and the reply is 201. |
| `CourseController.DeleteCourse` | backend/controllers/course.controllers.js:96-113 | Without a course matching both id and creator, it answers 400 and the courses are unchanged. Otherwise exactly that course is removed, no course with that id remains, and the reply is 201. Courses with other ids are never removed, and purchases and orders are untouched. |
| `CourseController.GetCourses` | backend/controllers/course.controllers.js:115-122 | Lists every stored course, answering 201. |
| `CourseController.CourseDetails` | backend/controllers/course.controllers.js:124-135 | Answers 201 with a stored course of that id exactly when one exists, otherwise 404 "Course not found". |
| `CourseController.BuyCourses` | backend/controllers/course.controllers.js:137-166 | A gateway order is requested exactly when the course exists and the user has no Purchase of it. An unknown course gives 404 and an existing purchase gives 400. The request is `price * 100` INR with receipt `receipt_<courseId>`. The reply is 200 with the gateway's order, or 401 if the gateway threw. Being a function of the collections, it writes no Purchase or Order. |
| `CourseController.BuyAfterPurchaseRejected` | backend/controllers/course.controllers.js:145-150 | Once a Purchase of the course by the user exists, buying it again answers 400 and requests no gateway order. |
| `CourseController.OrderRequest` | backend/controllers/course.controllers.js:151-155 | The gateway order asks for 100 times the course price, in INR, with receipt `receipt_<courseId>`. |
| `CourseController.SignedPayload` | backend/controllers/course.controllers.js:179 | The signed string is the order id, one vertical bar, then the payment id. |
| `CourseController.PayloadDeterminesIds` | backend/controllers/course.controllers.js:179 | When order ids contain no vertical bar, two equal payloads come from the same order id and payment id. |
| `CourseController.TamperedIdsFail` | backend/controllers/course.controllers.js:179-188 | If HMAC under the secret is injective and order ids carry no bar, a signature accepted for one order id and payment id is refused, by the comparison at line 186, for any other pair. |
| `CourseController.PayerName` | backend/controllers/course.controllers.js:198 | The Order name is first name, space, last name; with no user found it is "undefined undefined". |
| `CourseController.PaymentOrder` | backend/controllers/course.controllers.js:197-205 | The recorded Order's amount is the course price, its status "success", and it carries the payment id, user id and course id. |
| `CourseController.ChargedIsHundredTimesRecorded` | backend/controllers/course.controllers.js:151-205 | For a course the user can buy, buyCourses asks the gateway for 100 times the amount that verifyPayment records in the Order. |
| `CourseController.VerifyPayment` | backend/controllers/course.controllers.js:168-221 | A bad signature answers 400 with no Order or Purchase written. A good signature for an unknown course answers 404 with nothing written. Otherwise exactly one Order and one Purchase (userId, courseId) are appended, even if the user already owns the course. The signature does not cover courseId. |
| `Routing.Bind` | backend/routes/course.routes.js:10-15 | A pattern fits a path exactly when the lengths agree and every literal equals its segment and every parameter meets a non-empty segment. Each parameter of the pattern is bound, and only those. Each parameter is bound to its own segment. A name used twice keeps its last segment. |
| `Routing.FirstMatch` | backend/routes/course.routes.js:9-16 | Finds the first registration whose verb and pattern fit, with none fitting before it. It finds nothing exactly when nothing fits. |
| `Routing.Dispatch` | backend/routes/course.routes.js:9-16 | The dispatched route is registered in the table for the request's verb. Its params are what the pattern binds. There is no dispatch exactly when no registration fits. |
| `Routing.DispatchAt` | backend/routes/course.routes.js:12-13 | A fitting registration with no fitting one before it is the one dispatched. |
| `Routing.Mount` | backend/server.js:35-37 | `/api/v1/course`, `/api/v1/user` and `/api/v1/admin` hand the rest of the path to their router. No other prefix is mounted. |
| `CourseRoutes.DispatchRunsRequiredGuard` | backend/routes/course.routes.js:9-16 | Every dispatched course request runs its handler's guard: admin for create, update and delete; user for buy and verify-payment; none for listing and detail. |
| `CourseRoutes.CoursesListingNotShadowed` | backend/routes/course.routes.js:12-13 | GET `/courses` dispatches to getCourses, never to courseDetails. |
| `CourseRoutes.DetailsTakesOtherGets` | backend/routes/course.routes.js:13 | Any other non-empty one-segment GET reaches courseDetails with that segment as `courseId`. |
| `CourseRoutes.UpdateBindsCourseId` | backend/routes/course.routes.js:10 | PUT `/update/<id>` reaches updateCourse with `courseId = id`. |
| `CourseRoutes.DeleteBindsCourseId` | backend/routes/course.routes.js:11 | DELETE `/delete/<id>` reaches deleteCourse with `courseId = id`. |
| `CourseRoutes.BuyBindsCourseId` | backend/routes/course.routes.js:15 | POST `/buy/<id>` reaches buyCourses with `courseId = id`. |
| `CourseRoutes.MountedListing` | backend/server.js:35 | `/api/v1/course/courses` goes to the course router and reaches an unguarded getCourses. |
| `UserRoutes.GuardsAndVerbs` | backend/routes/user.routes.js:7-10 | signup, login and logout are unguarded POSTs. `/purchased` is the only GET and the only route behind the user middleware. |
| `UserRoutes.PathsDisjoint` | backend/routes/user.routes.js:7-10 | No path fits two user routes, so each path has exactly one handler. |
| `UserRoutes.DispatchGuard` | backend/routes/user.routes.js:7-10 | A dispatched user request runs the user middleware exactly when it is GET `/purchased`. |
| `UserRoutes.MountedPurchased` | backend/server.js:36 | `/api/v1/user/purchased` goes to the user router and reaches the guarded purchases route. |
| `PurchaseFlow.CreateBuyVerifyList` | backend/controllers/course.controllers.js:137-221 | The steps run in order: an admin creates course "X" at price 100, and the listing shows it. Buying requests 10000 paise. Verifying with the right signature records an Order of 100. The course is then among the user's purchases, and a second buy is refused with 400. |

## Left out

- Cloudinary, Razorpay, bcrypt, JWT signing, HMAC-SHA256 and zod's email pattern are foreign libraries or network clients. Their results or functions are parameters.
- bcrypt salts each hash. A call's `hash` parameter stands for that one call, and the cost factor 10 is not modelled.
- The middleware bodies are not part of this model. Their files are backend/middleware/user.mid.js and backend/middleware/admin.middleware.js. The authenticated `userId`/`adminId` is a parameter.
- backend/routes/admin.routes.js is not part of this model. `Routing.Mount` names the admin router, but its table is not modelled.
- `server.js` wiring is not modelled: CORS, the cookie parser, the file-upload middleware, the `GET /` status handler and `listen`.
- Express matching details are not modelled: case-insensitive paths, optional trailing slashes and URL decoding. Paths are given as their segments.
- Each request is atomic. The read-then-write race on duplicate purchases and a crash between the Order and Purchase writes are not modelled.
- Catch blocks for database failures are left out. So are cast errors for malformed ids and bcrypt exceptions. Each of these gives a generic 4xx/5xx reply. The exceptions the shown code itself causes or catches from its collaborators are modelled: at createCourse, `req.files` missing or without an image, a Cloudinary throw (500) and a failed Number cast of the price inside `Course.create` (500); at updateCourse, a failed upload (400); at buyCourses, a Razorpay throw (401).
- Request fields are modelled as present strings. An absent field behaves like `""` in the truthiness checks. zod's own "Required" message for an absent field is not modelled.
- Multipart form fields arrive as strings. createCourse takes the raw price field and Mongoose's Number cast as a parameter (`toNumber`, None for NaN). Stored prices are integers, so fractional prices are not covered. A JSON body with a numeric price is not modelled: without files it cannot create a course, and for the number 0 it answers 400 where the model's "0" reaches the missing-files 500.
- `UpdateCourse`: takes the price already cast to an integer. The cast inside `course.save()` is not modelled.
- `Accounts.SignupIssues`: lengths are counted as Dafny counts them, in Unicode scalar values. zod's `.min(n)` uses JavaScript's `.length`, which counts UTF-16 code units, so a character outside the Basic Multilingual Plane (an emoji, say) counts twice in the source and once in the model. The length rules agree with the source only for text inside that plane.
- `UpdateCourse`: an absent title, description or price would be written as `undefined`. What saving that does depends on the course schema, which is not part of this model.
- `UpdateCourse`: an upload that resolves with an error object instead of throwing is treated like a thrown upload.
- `GetCourses`: states which courses are listed, not their order.
- `CreateCourse`: requires the new `_id` to be unused, as ObjectId generation guarantees.
- Unique emails per account collection are part of `Db.Valid()`. The user and admin schemas are not part of this model, and signup keeps this invariant.
- Ids are compared as the canonical lower-case 24-hex-digit strings the server itself emits. Mongoose casts id filters to ObjectId, which parses hex digits case-insensitively, so an upper-case spelling of an existing id finds that document in the source but nothing in the model (`Store.FindCourse`, `Store.FindOwned`, `Store.FindAccount` and the Purchase test in `CourseController.BuyCourses`). Non-canonical spellings of one ObjectId are not modelled.
- Document `_id`s of Purchase and Order records, the Order timestamps, and `console.log` are not modelled.
- The frontend views are not modelled. They are display code with no rules of their own.
