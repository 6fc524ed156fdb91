/** Properties of the session handlers of src/script.js, stated over the
    step functions that the `Session` class is proved to perform. */
module SessionProperties {
  import opened Wrappers
  import opened JsText
  import opened Api
  import opened Notification
  import opened Access
  import opened Session

  /** What the course view offers follows the gating rules: the author
      actions exactly for the author, Leave exactly for another logged-in
      user with a record naming the course (in either shape), Enroll for one
      without, nothing for a visitor; the lessons open for the author or an
      enrolled user. The view appears only when both requests succeed and
      `userEnrollments` is an array; the course becomes current either way. */
  lemma CourseViewGated(s: SessionState, parse: string -> Option<Claims>, courseId: JsId, replies: CourseReplies)
    ensures var r := ShowCourseStep(s, parse, courseId, replies);
      r.currentCourseId == courseId && r.token == s.token && r.userId == s.userId && r.enrollments == s.enrollments
    ensures var r := ShowCourseStep(s, parse, courseId, replies);
      !(Classify(replies.course).Fetched? && Classify(replies.lessons).Fetched? && s.enrollments.List?) ==>
        r.screen == s.screen && r.navbar == s.navbar
    ensures var r := ShowCourseStep(s, parse, courseId, replies);
      Classify(replies.course).Fetched? && Classify(replies.lessons).Fetched? && s.enrollments.List? ==>
        var author := IsCourseAuthor(s.token, parse, s.userId, AuthorOf(Classify(replies.course).data));
        var enrolled := exists i :: 0 <= i < |s.enrollments.records| && NamesCourse(s.enrollments.records[i], courseId);
        r.screen.CourseScreen? && r.screen.courseId == courseId &&
        (r.screen.actions == AuthorActions <==> author) &&
        (r.screen.actions == LeaveAction <==> !author && TokenHeld(s.token) && enrolled) &&
        (r.screen.actions == EnrollAction <==> !author && TokenHeld(s.token) && !enrolled) &&
        (r.screen.actions == NoActions <==> !author && !TokenHeld(s.token)) &&
        (r.screen.lessonsOpen <==> author || enrolled) &&
        (r.navbar == MemberNav <==> TokenHeld(s.token))
  {
    var course := Classify(replies.course);
    var lessons := Classify(replies.lessons);
    if course.Fetched? && lessons.Fetched? && s.enrollments.List? {
      var author := IsCourseAuthor(s.token, parse, s.userId, AuthorOf(course.data));
      CourseViewGating(author, TokenHeld(s.token), IsEnrolled(s.enrollments.records, courseId));
    }
  }

  /** A course view offering Leave leads to a leave request: `leaveCourse`
      applies the same membership test to the course just shown, so it does
      not take its not-enrolled branch. */
  lemma LeaveOfferedMeansEnrolled(s: SessionState, parse: string -> Option<Claims>, courseId: JsId, replies: CourseReplies)
    requires Classify(replies.course).Fetched? && Classify(replies.lessons).Fetched? && s.enrollments.List?
    requires ShowCourseStep(s, parse, courseId, replies).screen.actions == LeaveAction
    ensures var r := ShowCourseStep(s, parse, courseId, replies);
      r.enrollments.List? && IsEnrolled(r.enrollments.records, r.currentCourseId)
  {
    CourseViewGated(s, parse, courseId, replies);
  }

  /** The lesson view appears only when both requests succeed; its author
      controls follow `userId === course.authorId` alone, token or not. A
      failure shows the message as it is and then prefixed, and keeps the
      screen. */
  lemma LessonViewGated(s: SessionState, lessonReply: Reply<Lesson>, courseReply: Reply<Course>)
    ensures var r := ShowLessonStep(s, lessonReply, courseReply);
      r.token == s.token && r.userId == s.userId && r.enrollments == s.enrollments && r.currentCourseId == s.currentCourseId
    ensures var r := ShowLessonStep(s, lessonReply, courseReply);
      Classify(lessonReply).Failed? ==>
        r == WithError(WithError(s, Classify(lessonReply).message), LoadLessonFailed + Classify(lessonReply).message)
    ensures var r := ShowLessonStep(s, lessonReply, courseReply);
      Classify(lessonReply).Fetched? && Classify(courseReply).Failed? ==>
        r == WithError(WithError(s, Classify(courseReply).message), LoadLessonFailed + Classify(courseReply).message)
    ensures var r := ShowLessonStep(s, lessonReply, courseReply);
      Classify(lessonReply).Fetched? && Classify(courseReply).Fetched? ==>
        r.screen == LessonScreen(LessonCourseOf(Classify(lessonReply).data), s.userId == AuthorOf(Classify(courseReply).data)) &&
        r.slot == s.slot
  {
  }

  /** Every view that renders the navbar leaves it matching the token held
      afterwards: the home and login screens, logout, and the course, lesson
      and profile views once shown. */
  lemma NavbarMatchesToken(s: SessionState, parse: string -> Option<Claims>, courseId: JsId, course: CourseReplies,
                           lessonReply: Reply<Lesson>, courseReply: Reply<Course>, p: ProfileReplies, logoutReply: Reply<Ignored>)
    ensures var r := ShowHomeStep(s); r.navbar == MemberNav <==> TokenHeld(r.token)
    ensures var r := ShowLoginStep(s); r.navbar == MemberNav <==> TokenHeld(r.token)
    ensures var r := LogoutStep(s, parse, logoutReply); r.navbar == GuestNav && !TokenHeld(r.token)
    ensures var r := ShowCourseStep(s, parse, courseId, course);
      Classify(course.course).Fetched? && Classify(course.lessons).Fetched? && s.enrollments.List? ==>
        (r.navbar == MemberNav <==> TokenHeld(r.token))
    ensures var r := ShowLessonStep(s, lessonReply, courseReply);
      Classify(lessonReply).Fetched? && Classify(courseReply).Fetched? ==> (r.navbar == MemberNav <==> TokenHeld(r.token))
    ensures var r := ShowProfileStep(s, parse, p);
      ProfileSucceeds(s, parse, p) ==> r.navbar == MemberNav && TokenHeld(r.token)
  {
  }

  /** The opposite case: a login whose reply carries a token but whose
      profile request fails never renders the navbar, so a held token sits
      beside the visitor navbar. */
  lemma LoginWithoutProfileKeepsGuestNav(s: SessionState, parse: string -> Option<Claims>, t: string,
                                         message: Option<string>, p: ProfileReplies)
    requires s.navbar == GuestNav && t != ""
    requires Classify(p.user).Failed?
    ensures var r := LoginStep(s, parse, HttpReply(200, None, Json(LoginData(Some(t)), message)), p);
      TokenHeld(r.token) && r.navbar == GuestNav
  {
  }

  /** A successful enroll request and refresh make `userEnrollments` the
      refreshed list and show the current course again from it. */
  lemma EnrollSucceeds(s: SessionState, parse: string -> Option<Claims>, enroll: Reply<Ignored>,
                       refresh: Reply<Enrollments>, retry: Reply<Enrollments>, view: CourseReplies)
    requires IdTruthy(s.currentCourseId) && Classify(enroll).Fetched? && Classify(refresh).Fetched?
    ensures EnrollStep(s, parse, enroll, refresh, retry, view) ==
      ShowCourseStep(s.(enrollments := EnrollmentsOf(Classify(refresh).data)), parse, s.currentCourseId, view)
  {
  }

  /** For an enrolled user, a successful leave request and refresh make
      `userEnrollments` the refreshed list and show the course again. */
  lemma LeaveSucceeds(s: SessionState, parse: string -> Option<Claims>, leave: Reply<Ignored>,
                      refresh: Reply<Enrollments>, retry: Reply<Enrollments>, view: CourseReplies)
    requires IdTruthy(s.currentCourseId) && s.enrollments.List?
    requires IsEnrolled(s.enrollments.records, s.currentCourseId)
    requires Classify(leave).Fetched? && Classify(refresh).Fetched?
    ensures LeaveStep(s, parse, leave, refresh, retry, view) ==
      ShowCourseStep(s.(enrollments := EnrollmentsOf(Classify(refresh).data)), parse, s.currentCourseId, view)
  {
  }

  /** When no record names the current course, leaving sends no request and
      only shows the course again. */
  lemma LeaveNotEnrolledReshows(s: SessionState, parse: string -> Option<Claims>, leave: Reply<Ignored>,
                                refresh: Reply<Enrollments>, retry: Reply<Enrollments>, view: CourseReplies)
    requires IdTruthy(s.currentCourseId) && s.enrollments.List?
    requires forall i :: 0 <= i < |s.enrollments.records| ==> !NamesCourse(s.enrollments.records[i], s.currentCourseId)
    ensures LeaveStep(s, parse, leave, refresh, retry, view) == ShowCourseStep(s, parse, s.currentCourseId, view)
  {
  }

  /** An HTTP 404 on the leave request never triggers the "404" recovery:
      the message it produces does not contain "404", so the error is shown
      prefixed and `userEnrollments` and the screen stay as they were. */
  lemma LeaveNotFoundIsReported(s: SessionState, parse: string -> Option<Claims>, contentLength: Option<string>,
                                body: JsonBody<Ignored>, refresh: Reply<Enrollments>, retry: Reply<Enrollments>, view: CourseReplies)
    requires IdTruthy(s.currentCourseId) && s.enrollments.List?
    requires IsEnrolled(s.enrollments.records, s.currentCourseId)
    ensures var r := LeaveStep(s, parse, HttpReply(404, contentLength, body), refresh, retry, view);
      r == WithError(WithError(s, NotFoundMessage), LeaveFailed + NotFoundMessage) &&
      r.enrollments == s.enrollments && r.screen == s.screen
  {
    NotFoundMessageHidesStatus();
  }

  /** An HTTP 409 on the enroll request whose body carries no message
      becomes "Error 409", which the catch recognises: enrollments are
      fetched again and the course is shown again. */
  lemma EnrollConflictRecovers(s: SessionState, parse: string -> Option<Claims>, contentLength: Option<string>,
                               body: JsonBody<Ignored>, refresh: Reply<Enrollments>, retry: Reply<Enrollments>, view: CourseReplies)
    requires IdTruthy(s.currentCourseId)
    requires !(body.Json? && body.message.Some? && body.message.value != "")
    requires Classify(retry).Fetched?
    ensures EnrollStep(s, parse, HttpReply(409, contentLength, body), refresh, retry, view) ==
      ShowCourseStep(WithError(s, "Error 409").(enrollments := EnrollmentsOf(Classify(retry).data)), parse, s.currentCourseId, view)
  {
    var enroll := HttpReply(409, contentLength, body);
    ConflictMessage(contentLength, body);
    EnrollFailureCaught(s, parse, enroll, refresh, retry, view);
    CatchRecovers(WithError(s, "Error 409"), parse, "Error 409", "409", EnrollFailed, retry, view);
  }

  /** A 409 without a message fails with "Error 409", which names 409. */
  lemma ConflictMessage(contentLength: Option<string>, body: JsonBody<Ignored>)
    requires !(body.Json? && body.message.Some? && body.message.value != "")
    ensures Classify(HttpReply(409, contentLength, body)) == Failed("Error 409")
    ensures Contains("Error 409", "409")
  {
    ConflictFallbackText(contentLength, body);
    ConflictDigits();
    ConflictTextNamesStatus();
  }

  lemma ConflictFallbackText(contentLength: Option<string>, body: JsonBody<Ignored>)
    requires !(body.Json? && body.message.Some? && body.message.value != "")
    ensures Classify(HttpReply(409, contentLength, body)) == Failed("Error " + DecimalString(409))
  {
    OtherStatusMessage(409, contentLength, body);
  }

  lemma ConflictDigits()
    ensures DecimalString(409) == "409"
  {
    assert DecimalString(4) == "4";
    assert DecimalString(40) == DecimalString(4) + "0";
    assert DecimalString(409) == DecimalString(40) + "9" == "409";
  }

  lemma ConflictTextNamesStatus()
    ensures Contains("Error 409", "409")
  {
    ContainsSelf("409");
    ContainsInContext("Error ", "409", "", "409");
    assert "Error " + "409" + "" == "Error 409";
  }

  /** A failed enroll request is shown and handed to the catch. */
  lemma EnrollFailureCaught(s: SessionState, parse: string -> Option<Claims>, enroll: Reply<Ignored>,
                            refresh: Reply<Enrollments>, retry: Reply<Enrollments>, view: CourseReplies)
    requires IdTruthy(s.currentCourseId) && Classify(enroll).Failed?
    ensures var m := Classify(enroll).message;
      EnrollStep(s, parse, enroll, refresh, retry, view) == CatchStep(WithError(s, m), parse, m, "409", EnrollFailed, retry, view)
  {
  }

  /** The catch, given a message naming its code and a successful refresh,
      replaces `userEnrollments` and shows the current course again. */
  lemma CatchRecovers(s: SessionState, parse: string -> Option<Claims>, message: string, code: string, prefix: string,
                      retry: Reply<Enrollments>, view: CourseReplies)
    requires Contains(message, code) && Classify(retry).Fetched?
    ensures CatchStep(s, parse, message, code, prefix, retry, view) ==
      ShowCourseStep(s.(enrollments := EnrollmentsOf(Classify(retry).data)), parse, s.currentCourseId, view)
  {
  }

  /** An HTTP 409 whose body carries a message without "409" is not
      recognised: the message is shown, then shown prefixed, and nothing
      else changes. */
  lemma EnrollConflictWithMessageReported(s: SessionState, parse: string -> Option<Claims>, contentLength: Option<string>,
                                          payload: Ignored, message: string,
                                          refresh: Reply<Enrollments>, retry: Reply<Enrollments>, view: CourseReplies)
    requires IdTruthy(s.currentCourseId)
    requires message != "" && !Contains(message, "409")
    ensures EnrollStep(s, parse, HttpReply(409, contentLength, Json(payload, Some(message))), refresh, retry, view) ==
      WithError(WithError(s, message), EnrollFailed + message)
  {
    OtherStatusMessage(409, contentLength, Json(payload, Some(message)));
  }

  /** Without a truthy current course id (null, undefined or 0), enrolling
      and leaving do nothing at all. */
  lemma NoCourseNoChange(s: SessionState, parse: string -> Option<Claims>, request: Reply<Ignored>,
                         refresh: Reply<Enrollments>, retry: Reply<Enrollments>, view: CourseReplies)
    requires s.currentCourseId == Null || s.currentCourseId == Undefined || s.currentCourseId == Num(0)
    ensures EnrollStep(s, parse, request, refresh, retry, view) == s
    ensures LeaveStep(s, parse, request, refresh, retry, view) == s
  {
  }

  /** `showProfile` without a token shows the login form with the visitor
      navbar and touches nothing else. */
  lemma ProfileGuardShowsLogin(s: SessionState, parse: string -> Option<Claims>, p: ProfileReplies)
    requires !TokenHeld(s.token)
    ensures ShowProfileStep(s, parse, p) == s.(screen := LoginScreen, navbar := GuestNav)
  {
  }

  /** `showCourses` without a token shows a notice, then the login form
      with the visitor navbar; the session variables are kept. */
  lemma CoursesGuardShowsLogin(s: SessionState)
    requires !TokenHeld(s.token)
    ensures var r := ShowCoursesStep(s);
      r.screen == LoginScreen && r.navbar == GuestNav &&
      r.slot.current == Some(Notice(s.slot.nextId, DisplayText(LoginRequired))) &&
      r.token == s.token && r.userId == s.userId && r.enrollments == s.enrollments
  {
  }

  /** Everything `showProfile` needs to reach its end: a held token that
      decodes, four successful requests, an array of records each with a
      nested `enrollmentId`, and successful course requests. */
  predicate ProfileSucceeds(s: SessionState, parse: string -> Option<Claims>, p: ProfileReplies) {
    TokenHeld(s.token) && DecodeJWT(s.token, parse).Some? &&
    Classify(p.user).Fetched? && Classify(p.createdCourses).Fetched? &&
    Classify(p.enrollments).Fetched? && Classify(p.enrollmentsAgain).Fetched? &&
    EnrollmentsOf(Classify(p.enrollmentsAgain).data).List? &&
    AllNested(EnrollmentsOf(Classify(p.enrollmentsAgain).data).records) &&
    AllFetched(p.courses)
  }

  /** A profile run that reaches its end shows the profile of the user
      returned, with the member navbar, sets `userId` to that user's id and
      `userEnrollments` to the first enrollment reply; the token is kept. */
  lemma ProfileShownSetsUser(s: SessionState, parse: string -> Option<Claims>, p: ProfileReplies)
    requires ProfileSucceeds(s, parse, p)
    ensures var r, id := ShowProfileStep(s, parse, p), UserIdOf(Classify(p.user).data);
      r.screen == ProfileScreen(id) && r.navbar == MemberNav && r.userId == id &&
      r.token == s.token && r.enrollments == EnrollmentsOf(Classify(p.enrollments).data)
  {
  }

  /** The profile handler never changes the token; it changes `userId` only
      when it shows the profile (and then, by `ProfileShownSetsUser`, to the
      user's id), and otherwise leaves it. */
  lemma ProfileSetsUserOnlyWhenShown(s: SessionState, parse: string -> Option<Claims>, p: ProfileReplies)
    ensures var r := ShowProfileStep(s, parse, p);
      r.token == s.token &&
      (r.userId == s.userId ||
       (r.screen == ProfileScreen(r.userId) && r.userId == UserIdOf(Classify(p.user).data) &&
        TokenHeld(s.token) && DecodeJWT(s.token, parse).Some? && AllFetched(p.courses)))
  {
  }

  /** Course requests that all succeed show nothing. */
  lemma {:induction false} NoFailuresNoNotice(slot: Slot, replies: seq<Reply<Ignored>>)
    requires AllFetched(replies)
    ensures ShowFailures(slot, replies) == slot
    decreases |replies|
  {
    if replies != [] {
      NoFailuresNoNotice(slot, replies[..|replies| - 1]);
    }
  }

  /** A failed login keeps the token and the screen and shows two notices,
      the second prefixed with "Login failed: "; a successful one takes the
      token from the reply and runs the profile handler with it. */
  lemma LoginOutcome(s: SessionState, parse: string -> Option<Claims>, reply: Reply<LoginData>, p: ProfileReplies)
    ensures var r := LoginStep(s, parse, reply, p);
      Classify(reply).Failed? ==>
        r.token == s.token && r.screen == s.screen &&
        r.slot == Slot(Some(Notice(s.slot.nextId + 1, DisplayText(LoginFailed + Classify(reply).message))), s.slot.nextId + 2)
    ensures var r := LoginStep(s, parse, reply, p);
      Classify(reply).Fetched? ==> r.token == TokenOf(Classify(reply).data)
  {
    var r := Classify(reply);
    if r.Fetched? {
      ProfileSetsUserOnlyWhenShown(s.(token := TokenOf(r.data)), parse, p);
    }
  }

  /** After the corrected logout there is no token, the home screen and the
      visitor navbar, whatever the token was; `userId` and `userEnrollments`
      are kept. */
  lemma LogoutAlwaysClears(s: SessionState, parse: string -> Option<Claims>, reply: Reply<Ignored>)
    ensures var r := LogoutStep(s, parse, reply);
      r.token == None && r.screen == HomeScreen && r.navbar == GuestNav &&
      r.userId == s.userId && r.enrollments == s.enrollments
  {
  }

  /** As written, logging out with a held token that does not decode (for
      instance the text "undefined") throws before clearing it: the token
      and the member navbar survive, where the corrected logout clears
      them. */
  lemma LogoutAsWrittenKeepsBadToken(s: SessionState, parse: string -> Option<Claims>, reply: Reply<Ignored>)
    requires s.token == Some("undefined")
    ensures LogoutAsWritten(s, parse, reply) == s
    ensures LogoutStep(s, parse, reply).token == None
  {
    UndefinedNeverDecodes(parse);
  }

  /** The text "undefined" has no dot, so it never decodes. */
  lemma UndefinedNeverDecodes(parse: string -> Option<Claims>)
    ensures DecodeJWT(Some("undefined"), parse) == None
  {
    assert forall i :: 0 <= i < |"undefined"| ==> "undefined"[i] != '.';
    DecodeUsesPayloadOnly("undefined", "undefined", parse);
  }

  /** A logout agrees with the corrected one whenever the token decodes or
      none is held. */
  lemma LogoutAsWrittenOtherwiseCorrect(s: SessionState, parse: string -> Option<Claims>, reply: Reply<Ignored>)
    requires !TokenHeld(s.token) || DecodeJWT(s.token, parse).Some?
    ensures LogoutAsWritten(s, parse, reply) == LogoutStep(s, parse, reply)
  {
  }

  /** The lesson view's author controls depend only on `userId`, which
      logout keeps: after logging out, the former author still gets the
      lesson controls, beside the visitor navbar. */
  lemma LessonControlsSurviveLogout(s: SessionState, parse: string -> Option<Claims>, logoutReply: Reply<Ignored>,
                                    lessonReply: Reply<Lesson>, author: JsId, lessonPayload: Lesson, message: Option<string>)
    requires s.userId == author
    requires Classify(lessonReply).Fetched?
    ensures var r := ShowLessonStep(LogoutStep(s, parse, logoutReply), lessonReply, HttpReply(200, None, Json(Course(author), message)));
      r.screen.LessonScreen? && r.screen.authorControls && r.navbar == GuestNav && r.token == None
  {
  }
}
