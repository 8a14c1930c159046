/**
 * The course router, mounted at `/api/v1/course`: seven registrations in
 * the order the router file makes them.
 */
module CourseRoutes {
  import opened Domain
  import opened Routing

  const Table: seq<Route> := [
    Route(Post, [Lit("create")], AdminGuard, CreateCourse),
    Route(Put, [Lit("update"), Param("courseId")], AdminGuard, UpdateCourse),
    Route(Delete, [Lit("delete"), Param("courseId")], AdminGuard, DeleteCourse),
    Route(Get, [Lit("courses")], Open, GetCourses),
    Route(Get, [Param("courseId")], Open, CourseDetails),
    Route(Post, [Lit("buy"), Param("courseId")], UserGuard, BuyCourses),
    Route(Post, [Lit("verify-payment")], UserGuard, VerifyPayment)
  ]

  /** The guard each course handler is meant to run behind. */
  function RequiredGuard(h: Handler): (g: Guard)
  {
    match h
    case CreateCourse | UpdateCourse | DeleteCourse => AdminGuard
    case BuyCourses | VerifyPayment => UserGuard
    case _ => Open
  }

  /**
   * Whatever request reaches a course handler passes through that handler's
   * guard: the admin middleware for create, update and delete, the user
   * middleware for buy and verify-payment, none for listing and detail.
   */
  lemma DispatchRunsRequiredGuard(verb: Verb, path: seq<string>)
    requires Dispatch(Table, verb, path).Some?
    ensures var m := Dispatch(Table, verb, path).value;
      m.route.guard == RequiredGuard(m.route.handler)
  {
    var m := Dispatch(Table, verb, path).value;
    assert m.route in Table;
  }

  /** GET /courses is registered before GET /:courseId, so the listing wins it. */
  lemma CoursesListingNotShadowed()
    ensures Dispatch(Table, Get, ["courses"]) == Some(Match(Table[3], map[]))
    ensures Dispatch(Table, Get, ["courses"]).value.route.handler == GetCourses
  {
    assert Bind(Table[3].pattern, ["courses"]) == Some(map[]);
    DispatchAt(Table, Get, ["courses"], 3);
  }

  /** Every other one-segment GET reaches courseDetails with the segment as `courseId`. */
  lemma DetailsTakesOtherGets(id: string)
    requires id != "" && id != "courses"
    ensures Dispatch(Table, Get, [id]) == Some(Match(Table[4], map["courseId" := id]))
  {
    assert Bind(Table[4].pattern, [id]) == Some(map["courseId" := id]);
    assert !Matches(Table[3], Get, [id]);
    DispatchAt(Table, Get, [id], 4);
  }

  /** update binds its second segment to the `courseId` parameter updateCourse reads. */
  lemma UpdateBindsCourseId(id: string)
    requires id != ""
    ensures Dispatch(Table, Put, ["update", id]) == Some(Match(Table[1], map["courseId" := id]))
  {
    BindsSecondSegment("update", id);
    DispatchAt(Table, Put, ["update", id], 1);
  }

  /** delete binds its second segment to the `courseId` parameter deleteCourse reads. */
  lemma DeleteBindsCourseId(id: string)
    requires id != ""
    ensures Dispatch(Table, Delete, ["delete", id]) == Some(Match(Table[2], map["courseId" := id]))
  {
    BindsSecondSegment("delete", id);
    DispatchAt(Table, Delete, ["delete", id], 2);
  }

  /** buy binds its second segment to the `courseId` parameter buyCourses reads. */
  lemma BuyBindsCourseId(id: string)
    requires id != ""
    ensures Dispatch(Table, Post, ["buy", id]) == Some(Match(Table[5], map["courseId" := id]))
  {
    BindsSecondSegment("buy", id);
    assert !Matches(Table[0], Post, ["buy", id]);
    DispatchAt(Table, Post, ["buy", id], 5);
  }

  lemma BindsSecondSegment(verb: string, id: string)
    requires id != ""
    ensures Bind([Lit(verb), Param("courseId")], [verb, id]) == Some(map["courseId" := id])
  {
    assert Bind([Param("courseId")], [id]) == Some(map["courseId" := id]);
  }

  /** The full path `/api/v1/course/courses` reaches getCourses with no guard. */
  lemma MountedListing()
    ensures Mount(["api", "v1", "course", "courses"]) == Some((CourseRouter, ["courses"]))
    ensures Dispatch(Table, Get, ["courses"]).value.route.handler == GetCourses
    ensures Dispatch(Table, Get, ["courses"]).value.route.guard == Open
  {
    CoursesListingNotShadowed();
  }
}
