/** The server's write and authentication routes (server/index.js) over an
    abstract store of table rows. Identifiers, tokens and timestamps
    (`uuidv4()`, `Date.now()`) are supplied by the caller as `Fresh`. */
module ServerApi {
  import opened Wrappers
  import opened Js

  datatype User = User(id: string, email: string, passwordHash: string,
                       firstName: string, lastName: string, createdAt: int)
  datatype Course = Course(id: string, title: string, description: string, category: string, createdAt: int)
  datatype TaskRow = TaskRow(id: string, courseId: string, title: string, description: string,
                             meta: string, ord: int)
  datatype Lecture = Lecture(id: string, courseId: string, title: string, content: string, ord: int)

  datatype Db = Db(users: seq<User>, courses: seq<Course>, tasks: seq<TaskRow>, lectures: seq<Lecture>)

  /** The values a handler draws from its environment. */
  datatype Fresh = Fresh(id: string, accessToken: string, refreshToken: string, now: int)

  datatype Body =
    | ErrorBody(error: string)
    | AuthBody(accessToken: string, refreshToken: string, userId: string, email: string, firstName: string)
    | CourseBody(course: Course)
    | TaskBody(task: TaskRow)
    | LectureBody(lecture: Lecture)
    | ServerError

  datatype Response = Response(status: int, body: Body)

  /** A handler's effect on the store, and its reply. */
  datatype Outcome = Outcome(db: Db, response: Response)

  /** What a handler throws becomes Express's default error reply: status
      500 with an HTML error page. */
  const Crash: Response := Response(500, ServerError)

  /** `req.body` as server/index.js sets the app up: no body-parsing
      middleware is installed (the only `app.use` serves Swagger), so
      Express leaves it undefined whatever JSON the client sent. */
  function BodyAsWritten<T>(sent: T): (r: Option<T>)
    ensures r.None?
  {
    None
  }

  /** `req.body` once `app.use(express.json())` is installed: the JSON the
      client sent. */
  function BodyParsed<T>(sent: T): (r: Option<T>)
    ensures r.Some? && r.value == sent
  {
    Some(sent)
  }

  /** An optional request field, present and non-empty: JavaScript truthiness
      of a string field. */
  predicate Present(field: Option<string>) {
    field.Some? && field.value != []
  }

  /** `db.getUserByEmail(email)`: the row with that email, if any. */
  function FindUser(users: seq<User>, email: string): (r: Option<User>)
    ensures r.Some? ==> r.value in users && r.value.email == email
    ensures r.None? <==> forall i :: 0 <= i < |users| ==> users[i].email != email
  {
    if users == [] then None
    else if users[0].email == email then Some(users[0])
    else FindUser(users[1..], email)
  }

  /** The `UNIQUE` constraint on `users.email`. */
  ghost predicate EmailsUnique(users: seq<User>) {
    forall i, j :: 0 <= i < j < |users| ==> users[i].email != users[j].email
  }

  datatype SignUpRequest = SignUpRequest(email: Option<string>, password: Option<string>,
                                         firstName: Option<string>, lastName: Option<string>)

  /** `POST /auth/sign-up`. Destructuring an undefined `req.body` throws. */
  function SignUp(db: Db, body: Option<SignUpRequest>, env: Fresh): (r: Outcome)
    ensures body.None? ==> r == Outcome(db, Crash)
    ensures body.Some? && (!Present(body.value.email) || !Present(body.value.password)) ==>
              r == Outcome(db, Response(400, ErrorBody("missing_fields")))
    ensures (body.Some? && Present(body.value.email) && Present(body.value.password)
             && FindUser(db.users, body.value.email.value).Some?) ==>
              r == Outcome(db, Response(409, ErrorBody("user_exists")))
    ensures r.response.status == 201 <==>
              body.Some? && Present(body.value.email) && Present(body.value.password)
              && FindUser(db.users, body.value.email.value).None?
    ensures r.response.status == 201 ==>
              var req := body.value;
              r.db == db.(users := db.users + [User(env.id, req.email.value, req.password.value,
                                                   StrOr(req.firstName, ""), StrOr(req.lastName, ""),
                                                   env.now)])
    ensures r.response.status != 201 ==> r.db == db
  {
    if body.None? then Outcome(db, Crash)
    else
      var req := body.value;
      if !Present(req.email) || !Present(req.password) then
        Outcome(db, Response(400, ErrorBody("missing_fields")))
      else if FindUser(db.users, req.email.value).Some? then
        Outcome(db, Response(409, ErrorBody("user_exists")))
      else
        var user := User(env.id, req.email.value, req.password.value,
                         StrOr(req.firstName, ""), StrOr(req.lastName, ""), env.now);
        Outcome(db.(users := db.users + [user]),
                Response(201, AuthBody(env.accessToken, env.refreshToken, user.id, user.email, user.firstName)))
  }

  datatype SignInRequest = SignInRequest(email: string, password: Option<string>)

  /** `POST /auth/sign-in`: plaintext comparison of the stored hash with
      the submitted password. It reads the store and never changes it.
      Reading `req.body.email` from an undefined body throws. */
  function SignIn(db: Db, body: Option<SignInRequest>, env: Fresh): (r: Response)
    ensures body.None? ==> r == Crash
    ensures body.Some? ==> r.status == 200 || r == Response(401, ErrorBody("invalid_credentials"))
    ensures r.status == 200 <==>
              body.Some? && FindUser(db.users, body.value.email).Some?
              && body.value.password == Some(FindUser(db.users, body.value.email).value.passwordHash)
    ensures r.status == 200 ==> r.body.AuthBody? && r.body.email == body.value.email
  {
    if body.None? then Crash
    else
      var user := FindUser(db.users, body.value.email);
      if user.None? || body.value.password != Some(user.value.passwordHash) then
        Response(401, ErrorBody("invalid_credentials"))
      else
        Response(200, AuthBody(env.accessToken, env.refreshToken, user.value.id, user.value.email,
                               user.value.firstName))
  }

  /** A sign-up keeps emails unique, whatever its outcome. */
  lemma SignUpKeepsUnique(db: Db, body: Option<SignUpRequest>, env: Fresh)
    requires EmailsUnique(db.users)
    ensures EmailsUnique(SignUp(db, body, env).db.users)
  {
  }

  /** Any sequence of sign-ups applied in order. */
  function SignUpAll(db: Db, bodies: seq<Option<SignUpRequest>>, env: seq<Fresh>): Db
    requires |env| == |bodies|
    decreases |bodies|
  {
    if bodies == [] then db else SignUpAll(SignUp(db, bodies[0], env[0]).db, bodies[1..], env[1..])
  }

  /** Email uniqueness is an invariant of every sequence of sign-ups. */
  lemma {:induction false} SignUpAllKeepsUnique(db: Db, bodies: seq<Option<SignUpRequest>>, env: seq<Fresh>)
    requires |env| == |bodies|
    requires EmailsUnique(db.users)
    ensures EmailsUnique(SignUpAll(db, bodies, env).users)
    decreases |bodies|
  {
    if bodies != [] {
      SignUpKeepsUnique(db, bodies[0], env[0]);
      SignUpAllKeepsUnique(SignUp(db, bodies[0], env[0]).db, bodies[1..], env[1..]);
    }
  }

  lemma {:induction false} FindUserAppendedAbsent(users: seq<User>, u: User)
    requires FindUser(users, u.email).None?
    ensures FindUser(users + [u], u.email) == Some(u)
  {
    if users != [] {
      assert (users + [u])[1..] == users[1..] + [u];
      FindUserAppendedAbsent(users[1..], u);
    }
  }

  /** With a JSON body parser, signing in after a successful sign-up with
      the same email and password succeeds and answers with that email. */
  lemma SignUpThenSignIn(db: Db, req: SignUpRequest, env: Fresh, env2: Fresh)
    requires SignUp(db, BodyParsed(req), env).response.status == 201
    ensures var signIn := BodyParsed(SignInRequest(req.email.value, req.password));
            && SignIn(SignUp(db, BodyParsed(req), env).db, signIn, env2).status == 200
            && SignIn(SignUp(db, BodyParsed(req), env).db, signIn, env2).body.email == req.email.value
  {
    var user := User(env.id, req.email.value, req.password.value,
                     StrOr(req.firstName, ""), StrOr(req.lastName, ""), env.now);
    FindUserAppendedAbsent(db.users, user);
  }

  /** With a JSON body parser, a second sign-up with the same email is
      refused with 409. */
  lemma SignUpTwiceConflicts(db: Db, req: SignUpRequest, env: Fresh, env2: Fresh)
    requires SignUp(db, BodyParsed(req), env).response.status == 201
    ensures SignUp(SignUp(db, BodyParsed(req), env).db, BodyParsed(req), env2).response
            == Response(409, ErrorBody("user_exists"))
  {
    var user := User(env.id, req.email.value, req.password.value,
                     StrOr(req.firstName, ""), StrOr(req.lastName, ""), env.now);
    FindUserAppendedAbsent(db.users, user);
  }

  /** As written, both authentication routes crash on every request. */
  lemma AsWrittenAuthCrashes(db: Db, su: SignUpRequest, si: SignInRequest, env: Fresh)
    ensures SignUp(db, BodyAsWritten(su), env) == Outcome(db, Crash)
    ensures SignIn(db, BodyAsWritten(si), env) == Crash
  {
  }

  /** As written, no sequence of sign-ups ever adds a user. */
  lemma {:induction false} AsWrittenSignUpsLeaveStore(db: Db, reqs: seq<SignUpRequest>, env: seq<Fresh>)
    requires |env| == |reqs|
    ensures SignUpAll(db, seq(|reqs|, i requires 0 <= i < |reqs| => BodyAsWritten(reqs[i])), env) == db
    decreases |reqs|
  {
    var bodies := seq(|reqs|, i requires 0 <= i < |reqs| => BodyAsWritten(reqs[i]));
    if reqs != [] {
      assert bodies[1..] == seq(|reqs[1..]|, i requires 0 <= i < |reqs[1..]| => BodyAsWritten(reqs[1..][i]));
      AsWrittenSignUpsLeaveStore(db, reqs[1..], env[1..]);
    }
  }

  const Invalid: Response := Response(400, ErrorBody("invalid"))

  /** `x || 0` for an optional numeric field. */
  function OrZero(field: Option<int>): (r: int)
    ensures field.Some? ==> r == field.value
    ensures field.None? ==> r == 0
  {
    if field.Some? && field.value != 0 then field.value else 0
  }

  datatype CourseRequest = CourseRequest(title: Option<string>, description: Option<string>,
                                         category: Option<string>)

  /** `POST /courses`. */
  function CreateCourse(db: Db, body: Option<CourseRequest>, env: Fresh): (r: Outcome)
    ensures body.None? || !Present(body.value.title) ==> r == Outcome(db, Invalid)
    ensures body.Some? && Present(body.value.title) ==>
              var req := body.value;
              var c := Course(env.id, req.title.value, StrOr(req.description, ""),
                              StrOr(req.category, ""), env.now);
              r == Outcome(db.(courses := db.courses + [c]), Response(201, CourseBody(c)))
  {
    if body.None? || !Present(body.value.title) then Outcome(db, Invalid)
    else
      var req := body.value;
      var c := Course(env.id, req.title.value, StrOr(req.description, ""),
                      StrOr(req.category, ""), env.now);
      Outcome(db.(courses := db.courses + [c]), Response(201, CourseBody(c)))
  }

  datatype TaskRequest = TaskRequest(title: Option<string>, description: Option<string>,
                                     meta: Option<string>, ord: Option<int>)

  /** `POST /courses/:id/tasks`. */
  function CreateTask(db: Db, courseId: string, body: Option<TaskRequest>, env: Fresh): (r: Outcome)
    ensures body.None? || !Present(body.value.title) ==> r == Outcome(db, Invalid)
    ensures body.Some? && Present(body.value.title) ==>
              var req := body.value;
              var t := TaskRow(env.id, courseId, req.title.value, StrOr(req.description, ""),
                               StrOr(req.meta, ""), OrZero(req.ord));
              r == Outcome(db.(tasks := db.tasks + [t]), Response(201, TaskBody(t)))
  {
    if body.None? || !Present(body.value.title) then Outcome(db, Invalid)
    else
      var req := body.value;
      var t := TaskRow(env.id, courseId, req.title.value, StrOr(req.description, ""),
                       StrOr(req.meta, ""), OrZero(req.ord));
      Outcome(db.(tasks := db.tasks + [t]), Response(201, TaskBody(t)))
  }

  datatype LectureRequest = LectureRequest(title: Option<string>, content: Option<string>, ord: Option<int>)

  /** `POST /courses/:id/lectures`. */
  function CreateLecture(db: Db, courseId: string, body: Option<LectureRequest>, env: Fresh): (r: Outcome)
    ensures body.None? || !Present(body.value.title) ==> r == Outcome(db, Invalid)
    ensures body.Some? && Present(body.value.title) ==>
              var req := body.value;
              var l := Lecture(env.id, courseId, req.title.value, StrOr(req.content, ""), OrZero(req.ord));
              r == Outcome(db.(lectures := db.lectures + [l]), Response(201, LectureBody(l)))
  {
    if body.None? || !Present(body.value.title) then Outcome(db, Invalid)
    else
      var req := body.value;
      var l := Lecture(env.id, courseId, req.title.value, StrOr(req.content, ""), OrZero(req.ord));
      Outcome(db.(lectures := db.lectures + [l]), Response(201, LectureBody(l)))
  }

  /** A create route either refuses with 400 and leaves the store alone, or
      adds exactly one row, with a non-empty title, to its own table. */
  lemma CreateAddsOneRowOrNone(db: Db, courseId: string, cr: Option<CourseRequest>,
                               tr: Option<TaskRequest>, lr: Option<LectureRequest>, env: Fresh)
    ensures var o := CreateCourse(db, cr, env);
            (o.response.status == 400 && o.db == db)
            || (o.response.status == 201 && o.db.users == db.users && o.db.tasks == db.tasks
                && o.db.lectures == db.lectures && |o.db.courses| == |db.courses| + 1
                && o.db.courses[|db.courses|].title != [])
    ensures var o := CreateTask(db, courseId, tr, env);
            (o.response.status == 400 && o.db == db)
            || (o.response.status == 201 && o.db.users == db.users && o.db.courses == db.courses
                && o.db.lectures == db.lectures && |o.db.tasks| == |db.tasks| + 1
                && o.db.tasks[|db.tasks|].title != [] && o.db.tasks[|db.tasks|].courseId == courseId)
    ensures var o := CreateLecture(db, courseId, lr, env);
            (o.response.status == 400 && o.db == db)
            || (o.response.status == 201 && o.db.users == db.users && o.db.courses == db.courses
                && o.db.tasks == db.tasks && |o.db.lectures| == |db.lectures| + 1
                && o.db.lectures[|db.lectures|].title != [] && o.db.lectures[|db.lectures|].courseId == courseId)
  {
  }

  /** As written, every create request is refused with 400 and the store
      never changes. */
  lemma AsWrittenCreateRefused(db: Db, courseId: string, cr: CourseRequest, tr: TaskRequest,
                               lr: LectureRequest, env: Fresh)
    ensures CreateCourse(db, BodyAsWritten(cr), env) == Outcome(db, Invalid)
    ensures CreateTask(db, courseId, BodyAsWritten(tr), env) == Outcome(db, Invalid)
    ensures CreateLecture(db, courseId, BodyAsWritten(lr), env) == Outcome(db, Invalid)
  {
  }

  /** With a JSON body parser, a titled request creates its row. */
  lemma ParsedTitledCreates(db: Db, cr: CourseRequest, env: Fresh)
    requires Present(cr.title)
    ensures CreateCourse(db, BodyParsed(cr), env).response.status == 201
    ensures |CreateCourse(db, BodyParsed(cr), env).db.courses| == |db.courses| + 1
  {
  }
}
