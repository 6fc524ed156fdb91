/** The client's session (src/script.js): the module-level variables
    `token`, `userId`, `userEnrollments`, `currentCourseId` and
    `currentErrorElement`, with the screen and navbar they lead to, and the
    handlers that change them. Each handler is first given as a function of
    the state before it and of the replies its requests receive; the
    `Session` class then performs the same steps on its fields. */
module Session {
  import opened Wrappers
  import opened JsText
  import opened Api
  import opened Notification
  import opened Access

  // ---------------------------------------------------------------------
  // reply payloads (only the fields the handlers read)

  /** A body whose content the session does not look at. */
  datatype Ignored = Ignored

  datatype Course = Course(authorId: JsId)
  datatype Lesson = Lesson(courseId: JsId)
  datatype User = User(id: JsId)
  datatype LoginData = LoginData(token: Option<string>)

  /** `userEnrollments`: an array of records, or any other value (such as the
      `{}` of an empty reply), which has no `some`/`map` method. */
  datatype Enrollments = List(records: seq<Enrollment>) | NotList

  function EnrollmentsOf(d: Data<Enrollments>): Enrollments {
    if d.EmptyObject? then NotList else d.value
  }

  /** A field of `{}` is `undefined`. */
  function AuthorOf(d: Data<Course>): JsId {
    if d.EmptyObject? then Undefined else d.value.authorId
  }

  function LessonCourseOf(d: Data<Lesson>): JsId {
    if d.EmptyObject? then Undefined else d.value.courseId
  }

  function UserIdOf(d: Data<User>): JsId {
    if d.EmptyObject? then Undefined else d.value.id
  }

  function TokenOf(d: Data<LoginData>): Option<string> {
    if d.EmptyObject? then None else d.value.token
  }

  // ---------------------------------------------------------------------
  // the state

  /** What the content area shows, as far as the rules decide it. */
  datatype Screen =
    | HomeScreen
    | LoginScreen
    | ProfileScreen(userId: JsId)
    | CourseSearchScreen
    | CourseScreen(courseId: JsId, actions: CourseActions, lessonsOpen: bool)
    | LessonScreen(courseId: JsId, authorControls: bool)

  datatype SessionState = SessionState(
    token: Option<string>,
    userId: JsId,
    enrollments: Enrollments,
    currentCourseId: JsId,
    slot: Slot,
    screen: Screen,
    navbar: Navbar)

  /** The replies `showCourse` waits for, in order. */
  datatype CourseReplies = CourseReplies(course: Reply<Course>, lessons: Reply<Ignored>)

  /** The replies `showProfile` waits for, in order; `courses` are the
      per-enrollment course requests in the order they complete. */
  datatype ProfileReplies = ProfileReplies(
    user: Reply<User>,
    createdCourses: Reply<Ignored>,
    enrollments: Reply<Enrollments>,
    enrollmentsAgain: Reply<Enrollments>,
    courses: seq<Reply<Ignored>>)

  const NotAListError := "userEnrollments.some is not a function"
  const LoadCourseFailed := "Failed to load course: "
  const LoadLessonFailed := "Failed to load lesson: "
  const EnrollFailed := "Failed to enroll in course: "
  const LeaveFailed := "Failed to leave course: "
  const LoginFailed := "Login failed: "
  const LoginRequired := "Please login to access courses"

  // ---------------------------------------------------------------------
  // steps

  /** `showError(message)`. */
  function WithError(s: SessionState, message: string): SessionState {
    s.(slot := ShowNotice(s.slot, message))
  }

  /** What `fetchWithAuth` does to the state: a failure is shown. */
  function AfterFetch<T>(s: SessionState, r: Fetched<T>): SessionState {
    if r.Failed? then WithError(s, r.message) else s
  }

  /** The timer of notice `id` fires. */
  function TimerStep(s: SessionState, id: nat): SessionState {
    s.(slot := TimerFires(s.slot, id))
  }

  function ShowHomeStep(s: SessionState): SessionState {
    s.(screen := HomeScreen, navbar := NavbarFor(s.token))
  }

  function ShowLoginStep(s: SessionState): SessionState {
    s.(screen := LoginScreen, navbar := NavbarFor(s.token))
  }

  /** `showCourse(courseId)`: a failed request is shown twice, once as it is
      and once prefixed; a `userEnrollments` that is not an array fails the
      membership test with a TypeError; otherwise the course view is shown
      with the gated actions. */
  function ShowCourseStep(s: SessionState, parse: string -> Option<Claims>, courseId: JsId, replies: CourseReplies): SessionState {
    var s0 := s.(currentCourseId := courseId);
    var course := Classify(replies.course);
    if course.Failed? then
      WithError(WithError(s0, course.message), LoadCourseFailed + course.message)
    else
      var lessons := Classify(replies.lessons);
      if lessons.Failed? then
        WithError(WithError(s0, lessons.message), LoadCourseFailed + lessons.message)
      else if s0.enrollments.NotList? then
        WithError(s0, LoadCourseFailed + NotAListError)
      else
        var isAuthor := IsCourseAuthor(s.token, parse, s.userId, AuthorOf(course.data));
        var enrolled := IsEnrolled(s.enrollments.records, courseId);
        s0.(screen := CourseScreen(courseId, CourseActionsFor(isAuthor, TokenHeld(s.token), enrolled), isAuthor || enrolled),
            navbar := NavbarFor(s.token))
  }

  /** `showLesson(lessonId)`: the author controls appear when the user's id
      equals (`===`) the course's author id; no token is consulted. */
  function ShowLessonStep(s: SessionState, lessonReply: Reply<Lesson>, courseReply: Reply<Course>): SessionState {
    var lesson := Classify(lessonReply);
    if lesson.Failed? then
      WithError(WithError(s, lesson.message), LoadLessonFailed + lesson.message)
    else
      var course := Classify(courseReply);
      if course.Failed? then
        WithError(WithError(s, course.message), LoadLessonFailed + course.message)
      else
        s.(screen := LessonScreen(LessonCourseOf(lesson.data), s.userId == AuthorOf(course.data)),
           navbar := NavbarFor(s.token))
  }

  /** The per-enrollment course requests: each failure is shown, in the
      order the replies arrive. */
  function ShowFailures(slot: Slot, replies: seq<Reply<Ignored>>): Slot {
    if replies == [] then slot
    else
      var before := ShowFailures(slot, replies[..|replies| - 1]);
      var r := Classify(replies[|replies| - 1]);
      if r.Failed? then ShowNotice(before, r.message) else before
  }

  predicate AllFetched(replies: seq<Reply<Ignored>>) {
    forall i :: 0 <= i < |replies| ==> Classify(replies[i]).Fetched?
  }

  predicate AllNested(records: seq<Enrollment>) {
    forall i :: 0 <= i < |records| ==> records[i].enrollmentId.Some?
  }

  /** `showProfile()`. Without a token it shows the login form. A token that
      does not decode throws at `payload.sub`, and every failed request or
      TypeError ends the handler where it happens; `userEnrollments` is
      replaced as soon as the first enrollment request succeeds, `userId`
      only once the whole profile has been shown. */
  function ShowProfileStep(s: SessionState, parse: string -> Option<Claims>, p: ProfileReplies): SessionState {
    if !TokenHeld(s.token) then ShowLoginStep(s)
    else if DecodeJWT(s.token, parse).None? then s
    else
      var user := Classify(p.user);
      if user.Failed? then WithError(s, user.message)
      else
        var created := Classify(p.createdCourses);
        if created.Failed? then WithError(s, created.message)
        else
          var first := Classify(p.enrollments);
          if first.Failed? then WithError(s, first.message)
          else
            var s1 := s.(enrollments := EnrollmentsOf(first.data));
            var second := Classify(p.enrollmentsAgain);
            if second.Failed? then WithError(s1, second.message)
            else
              var list := EnrollmentsOf(second.data);
              if list.NotList? then s1
              else
                var s2 := s1.(slot := ShowFailures(s1.slot, p.courses));
                if !AllNested(list.records) || !AllFetched(p.courses) then s2
                else
                  var id := UserIdOf(user.data);
                  s2.(screen := ProfileScreen(id), navbar := NavbarFor(s.token), userId := id)
  }

  /** `showCourses()`: without a token, a notice and the login form. */
  function ShowCoursesStep(s: SessionState): SessionState {
    if !TokenHeld(s.token) then ShowLoginStep(WithError(s, LoginRequired))
    else s.(screen := CourseSearchScreen, navbar := NavbarFor(s.token))
  }

  /** `login()`: on success the returned `token` field (absent in `{}`)
      becomes the token and the profile is shown; a failure is shown as it
      is and then prefixed. */
  function LoginStep(s: SessionState, parse: string -> Option<Claims>, reply: Reply<LoginData>, profile: ProfileReplies): SessionState {
    var r := Classify(reply);
    if r.Failed? then WithError(WithError(s, r.message), LoginFailed + r.message)
    else ShowProfileStep(s.(token := TokenOf(r.data)), parse, profile)
  }

  /** The `catch` of `enrollCourse` and `leaveCourse`: a message naming
      `code` refreshes `userEnrollments` and shows the course again (a failed
      refresh is shown and escapes); any other message is shown prefixed. */
  function CatchStep(s: SessionState, parse: string -> Option<Claims>, message: string, code: string, prefix: string,
                     retry: Reply<Enrollments>, view: CourseReplies): SessionState {
    if Contains(message, code) then
      var r := Classify(retry);
      if r.Failed? then WithError(s, r.message)
      else ShowCourseStep(s.(enrollments := EnrollmentsOf(r.data)), parse, s.currentCourseId, view)
    else WithError(s, prefix + message)
  }

  /** `enrollCourse()`: nothing without a current course; otherwise the
      enroll request, a refresh of `userEnrollments` and the course view
      again, with a failure handled by the catch on "409". */
  function EnrollStep(s: SessionState, parse: string -> Option<Claims>, enroll: Reply<Ignored>, refresh: Reply<Enrollments>,
                      retry: Reply<Enrollments>, view: CourseReplies): SessionState {
    if !IdTruthy(s.currentCourseId) then s
    else
      var e := Classify(enroll);
      if e.Failed? then CatchStep(WithError(s, e.message), parse, e.message, "409", EnrollFailed, retry, view)
      else
        var r := Classify(refresh);
        if r.Failed? then CatchStep(WithError(s, r.message), parse, r.message, "409", EnrollFailed, retry, view)
        else ShowCourseStep(s.(enrollments := EnrollmentsOf(r.data)), parse, s.currentCourseId, view)
  }

  /** `leaveCourse()`: nothing without a current course; the membership test
      of the course view (a TypeError if `userEnrollments` is not an array);
      when not enrolled, the course view again without any request;
      otherwise the leave request, a refresh and the course view, with a
      failure handled by the catch on "404". */
  function LeaveStep(s: SessionState, parse: string -> Option<Claims>, leave: Reply<Ignored>, refresh: Reply<Enrollments>,
                     retry: Reply<Enrollments>, view: CourseReplies): SessionState {
    if !IdTruthy(s.currentCourseId) then s
    else if s.enrollments.NotList? then CatchStep(s, parse, NotAListError, "404", LeaveFailed, retry, view)
    else if !IsEnrolled(s.enrollments.records, s.currentCourseId) then ShowCourseStep(s, parse, s.currentCourseId, view)
    else
      var l := Classify(leave);
      if l.Failed? then CatchStep(WithError(s, l.message), parse, l.message, "404", LeaveFailed, retry, view)
      else
        var r := Classify(refresh);
        if r.Failed? then CatchStep(WithError(s, r.message), parse, r.message, "404", LeaveFailed, retry, view)
        else ShowCourseStep(s.(enrollments := EnrollmentsOf(r.data)), parse, s.currentCourseId, view)
  }

  /** `logout()` as written: with a token that does not decode, `payload.sub`
      throws before the token is cleared, and nothing changes. */
  function LogoutAsWritten(s: SessionState, parse: string -> Option<Claims>, reply: Reply<Ignored>): SessionState {
    if TokenHeld(s.token) && DecodeJWT(s.token, parse).None? then s
    else LogoutStep(s, parse, reply)
  }

  /** `logout()` as intended: the logout request goes out when the token
      decodes (its failure is shown when it arrives), and the token is
      cleared and the home screen shown in every case. */
  function LogoutStep(s: SessionState, parse: string -> Option<Claims>, reply: Reply<Ignored>): SessionState {
    var sent := TokenHeld(s.token) && DecodeJWT(s.token, parse).Some?;
    var s1 := ShowHomeStep(s.(token := None));
    if sent then AfterFetch(s1, Classify(reply)) else s1
  }

  // ---------------------------------------------------------------------
  // the session object

  class Session {
    var token: Option<string>
    var userId: JsId
    var userEnrollments: Enrollments
    var currentCourseId: JsId
    var currentErrorElement: Option<Notice>
    var nextNoticeId: nat
    var screen: Screen
    var navbar: Navbar
    /** `JSON.parse(atob(segment))` for `decodeJWT`. */
    const parse: string -> Option<Claims>

    function State(): SessionState
      reads this
    {
      SessionState(token, userId, userEnrollments, currentCourseId, Slot(currentErrorElement, nextNoticeId), screen, navbar)
    }

    /** Notice identities are fresh. */
    predicate Valid()
      reads this
    {
      SlotValid(State().slot)
    }

    /** Page load: the stored token (an empty string counts as none), no
        user, no enrollments, no course, and the home screen. */
    constructor (storedToken: Option<string>, parse: string -> Option<Claims>)
      ensures Valid()
      ensures this.parse == parse
      ensures State() == ShowHomeStep(SessionState(if storedToken == Some("") then None else storedToken,
                                                    Null, List([]), Null, Slot(None, 0), HomeScreen, GuestNav))
    {
      token := if storedToken == Some("") then None else storedToken;
      userId := Null;
      userEnrollments := List([]);
      currentCourseId := Null;
      currentErrorElement := None;
      nextNoticeId := 0;
      this.parse := parse;
      screen := HomeScreen;
      navbar := NavbarFor(if storedToken == Some("") then None else storedToken);
    }

    /** `showError(message)`. */
    method ShowError(message: string)
      requires Valid()
      modifies this
      ensures Valid()
      ensures State() == WithError(old(State()), message)
    {
      currentErrorElement := Some(Notice(nextNoticeId, DisplayText(message)));
      nextNoticeId := nextNoticeId + 1;
    }

    /** The `setTimeout` callback of notice `id`. */
    method TimerFires(id: nat)
      requires Valid()
      modifies this
      ensures Valid()
      ensures State() == TimerStep(old(State()), id)
    {
      if currentErrorElement.Some? && currentErrorElement.value.id == id {
        currentErrorElement := None;
      }
    }

    /** `fetchWithAuth(...)`: the headers the request carries, and the call's
        outcome, a failure being shown. */
    method FetchWithAuth<T>(reply: Reply<T>) returns (headers: Headers, result: Fetched<T>)
      requires Valid()
      modifies this
      ensures Valid()
      ensures headers == RequestHeaders(old(token))
      ensures result == Classify(reply)
      ensures State() == AfterFetch(old(State()), result)
    {
      headers := RequestHeaders(token);
      result := Classify(reply);
      if result.Failed? {
        ShowError(result.message);
      }
    }

    method RenderNavbar()
      modifies this
      ensures State() == old(State()).(navbar := NavbarFor(token))
    {
      navbar := NavbarFor(token);
    }

    method ShowHome()
      modifies this
      ensures State() == ShowHomeStep(old(State()))
    {
      screen := HomeScreen;
      RenderNavbar();
    }

    method ShowLogin()
      modifies this
      ensures State() == ShowLoginStep(old(State()))
    {
      screen := LoginScreen;
      RenderNavbar();
    }

    method ShowCourse(courseId: JsId, replies: CourseReplies)
      requires Valid()
      modifies this
      ensures Valid()
      ensures State() == ShowCourseStep(old(State()), parse, courseId, replies)
    {
      currentCourseId := courseId;
      var _, course := FetchWithAuth(replies.course);
      if course.Failed? {
        ShowError(LoadCourseFailed + course.message);
        return;
      }
      var _, lessons := FetchWithAuth(replies.lessons);
      if lessons.Failed? {
        ShowError(LoadCourseFailed + lessons.message);
        return;
      }
      var payload := DecodeJWT(token, parse);
      var isAuthor := payload.Some? && userId == AuthorOf(course.data);
      if userEnrollments.NotList? {
        ShowError(LoadCourseFailed + NotAListError);
        return;
      }
      var isEnrolled := IsEnrolled(userEnrollments.records, courseId);
      screen := CourseScreen(courseId, CourseActionsFor(isAuthor, TokenHeld(token), isEnrolled), isAuthor || isEnrolled);
      RenderNavbar();
    }

    method ShowLesson(lessonReply: Reply<Lesson>, courseReply: Reply<Course>)
      requires Valid()
      modifies this
      ensures Valid()
      ensures State() == ShowLessonStep(old(State()), lessonReply, courseReply)
    {
      var _, lesson := FetchWithAuth(lessonReply);
      if lesson.Failed? {
        ShowError(LoadLessonFailed + lesson.message);
        return;
      }
      var _, course := FetchWithAuth(courseReply);
      if course.Failed? {
        ShowError(LoadLessonFailed + course.message);
        return;
      }
      var isAuthor := userId == AuthorOf(course.data);
      screen := LessonScreen(LessonCourseOf(lesson.data), isAuthor);
      RenderNavbar();
    }

    /** The per-enrollment course requests of `showProfile`, replies taken
        in the order they arrive: every failure is shown; the result says
        whether all of them succeeded. */
    method FetchCourses(replies: seq<Reply<Ignored>>) returns (allFetched: bool)
      requires Valid()
      modifies this
      ensures Valid()
      ensures allFetched == AllFetched(replies)
      ensures State() == old(State()).(slot := ShowFailures(old(State()).slot, replies))
    {
      ghost var before := State();
      allFetched := true;
      var i := 0;
      while i < |replies|
        invariant 0 <= i <= |replies|
        invariant Valid()
        invariant State() == before.(slot := ShowFailures(before.slot, replies[..i]))
        invariant allFetched <==> AllFetched(replies[..i])
      {
        assert replies[..i + 1][..i] == replies[..i];
        var _, course := FetchWithAuth(replies[i]);
        if course.Failed? {
          allFetched := false;
        }
        i := i + 1;
      }
      assert replies[..i] == replies;
    }

    method ShowProfile(p: ProfileReplies)
      requires Valid()
      modifies this
      ensures Valid()
      ensures State() == ShowProfileStep(old(State()), parse, p)
    {
      if !TokenHeld(token) {
        ShowLogin();
        return;
      }
      var payload := DecodeJWT(token, parse);
      if payload.None? {
        return;
      }
      var _, user := FetchWithAuth(p.user);
      if user.Failed? {
        return;
      }
      var _, created := FetchWithAuth(p.createdCourses);
      if created.Failed? {
        return;
      }
      var _, first := FetchWithAuth(p.enrollments);
      if first.Failed? {
        return;
      }
      userEnrollments := EnrollmentsOf(first.data);
      var _, second := FetchWithAuth(p.enrollmentsAgain);
      if second.Failed? {
        return;
      }
      var list := EnrollmentsOf(second.data);
      if list.NotList? {
        return;
      }
      var allFetched := FetchCourses(p.courses);
      if !AllNested(list.records) || !allFetched {
        return;
      }
      var id := UserIdOf(user.data);
      screen := ProfileScreen(id);
      RenderNavbar();
      userId := id;
    }

    method ShowCourses()
      requires Valid()
      modifies this
      ensures Valid()
      ensures State() == ShowCoursesStep(old(State()))
    {
      if !TokenHeld(token) {
        ShowError(LoginRequired);
        ShowLogin();
        return;
      }
      screen := CourseSearchScreen;
      RenderNavbar();
    }

    method Login(reply: Reply<LoginData>, profile: ProfileReplies)
      requires Valid()
      modifies this
      ensures Valid()
      ensures State() == LoginStep(old(State()), parse, reply, profile)
    {
      var _, data := FetchWithAuth(reply);
      if data.Failed? {
        ShowError(LoginFailed + data.message);
        return;
      }
      token := TokenOf(data.data);
      ShowProfile(profile);
    }

    /** The shared `catch` of enrolling and leaving. */
    method Recover(message: string, code: string, prefix: string, retry: Reply<Enrollments>, view: CourseReplies)
      requires Valid()
      modifies this
      ensures Valid()
      ensures State() == CatchStep(old(State()), parse, message, code, prefix, retry, view)
    {
      if Contains(message, code) {
        var _, r := FetchWithAuth(retry);
        if r.Failed? {
          return;
        }
        userEnrollments := EnrollmentsOf(r.data);
        ShowCourse(currentCourseId, view);
      } else {
        ShowError(prefix + message);
      }
    }

    method EnrollCourse(enroll: Reply<Ignored>, refresh: Reply<Enrollments>, retry: Reply<Enrollments>, view: CourseReplies)
      requires Valid()
      modifies this
      ensures Valid()
      ensures State() == EnrollStep(old(State()), parse, enroll, refresh, retry, view)
    {
      if !IdTruthy(currentCourseId) {
        return;
      }
      var _, e := FetchWithAuth(enroll);
      if e.Failed? {
        Recover(e.message, "409", EnrollFailed, retry, view);
        return;
      }
      var _, r := FetchWithAuth(refresh);
      if r.Failed? {
        Recover(r.message, "409", EnrollFailed, retry, view);
        return;
      }
      userEnrollments := EnrollmentsOf(r.data);
      ShowCourse(currentCourseId, view);
    }

    method LeaveCourse(leave: Reply<Ignored>, refresh: Reply<Enrollments>, retry: Reply<Enrollments>, view: CourseReplies)
      requires Valid()
      modifies this
      ensures Valid()
      ensures State() == LeaveStep(old(State()), parse, leave, refresh, retry, view)
    {
      if !IdTruthy(currentCourseId) {
        return;
      }
      if userEnrollments.NotList? {
        Recover(NotAListError, "404", LeaveFailed, retry, view);
        return;
      }
      var isEnrolled := IsEnrolled(userEnrollments.records, currentCourseId);
      if !isEnrolled {
        ShowCourse(currentCourseId, view);
        return;
      }
      var _, l := FetchWithAuth(leave);
      if l.Failed? {
        Recover(l.message, "404", LeaveFailed, retry, view);
        return;
      }
      var _, r := FetchWithAuth(refresh);
      if r.Failed? {
        Recover(r.message, "404", LeaveFailed, retry, view);
        return;
      }
      userEnrollments := EnrollmentsOf(r.data);
      ShowCourse(currentCourseId, view);
    }

    /** `logout()`, with the token cleared in every case. */
    method Logout(reply: Reply<Ignored>)
      requires Valid()
      modifies this
      ensures Valid()
      ensures State() == LogoutStep(old(State()), parse, reply)
    {
      var sent := TokenHeld(token) && DecodeJWT(token, parse).Some?;
      token := None;
      ShowHome();
      if sent {
        var result := Classify(reply);
        if result.Failed? {
          ShowError(result.message);
        }
      }
    }
  }
}
