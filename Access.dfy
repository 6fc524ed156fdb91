/** Who may do what on the client (src/script.js): decoding the token's
    claims, the enrollment membership test, the actions a course view
    offers, whether its lessons open, and the navbar variant. */
module Access {
  import opened Wrappers
  import opened JsText
  import opened Api

  /** A JavaScript value compared with `===` where the code compares ids:
      `null`, `undefined` (a missing field) or a number. */
  datatype JsId = Null | Undefined | Num(n: int)

  /** The id as a JavaScript condition. */
  predicate IdTruthy(x: JsId) {
    x.Num? && x.n != 0
  }

  // ---------------------------------------------------------------------
  // decodeJWT

  /** The claims object of a token; only `sub` (the e-mail address) is used. */
  datatype Claims = Claims(sub: string)

  /** `decodeJWT(token)`. `parse` stands for `JSON.parse(atob(segment))` on
      the second dot-separated segment, `None` where either throws. A token
      without a second segment, or no token at all, decodes to `None`; the
      function never fails. */
  function DecodeJWT(token: Option<string>, parse: string -> Option<Claims>): Option<Claims> {
    if token.None? then None
    else
      var segments := Split(token.value, '.');
      if |segments| < 2 then None else parse(segments[1])
  }

  /** Decoding looks only at the payload segment: a token without a dot never
      decodes, and two tokens with the same payload segment decode alike. */
  lemma DecodeUsesPayloadOnly(t1: string, t2: string, parse: string -> Option<Claims>)
    ensures '.' !in t1 ==> DecodeJWT(Some(t1), parse) == None
    ensures |Split(t1, '.')| >= 2 && |Split(t2, '.')| >= 2 && Split(t1, '.')[1] == Split(t2, '.')[1] ==>
      DecodeJWT(Some(t1), parse) == DecodeJWT(Some(t2), parse)
  {
    SplitCount(t1, '.');
  }

  /** A token of the form `header.payload.signature` decodes to what its
      payload segment parses to. */
  lemma DecodeThreePartToken(header: string, payload: string, signature: string, parse: string -> Option<Claims>)
    requires '.' !in header && '.' !in payload
    ensures DecodeJWT(Some(header + "." + payload + "." + signature), parse) == parse(payload)
  {
    SplitAfterFirst(header, '.', payload + "." + signature);
    SplitAfterFirst(payload, '.', signature);
    assert header + "." + payload + "." + signature == header + ['.'] + (payload + ['.'] + signature);
  }

  // ---------------------------------------------------------------------
  // enrollment membership

  /** One record of the enrollment list: the nested `enrollmentId` object's
      `courseId` when `enrollmentId` is present, and the flat `courseId`. */
  datatype Enrollment = Enrollment(enrollmentId: Option<JsId>, courseId: JsId)

  /** `e.enrollmentId?.courseId`. */
  function NestedCourseId(e: Enrollment): JsId {
    if e.enrollmentId.Some? then e.enrollmentId.value else Undefined
  }

  /** The `.some` callback: either shape names the course. */
  predicate NamesCourse(e: Enrollment, course: JsId) {
    NestedCourseId(e) == course || e.courseId == course
  }

  /** `userEnrollments.some(...)` over a list of records. */
  function IsEnrolled(records: seq<Enrollment>, course: JsId): (b: bool)
    ensures b <==> exists i :: 0 <= i < |records| && NamesCourse(records[i], course)
  {
    if records == [] then false
    else if NamesCourse(records[0], course) then true
    else
      var rest := IsEnrolled(records[1..], course);
      assert forall i :: 1 <= i < |records| ==> records[i] == records[1..][i - 1];
      rest
  }

  /** Membership does not depend on the order or number of records. */
  lemma IsEnrolledAppend(a: seq<Enrollment>, b: seq<Enrollment>, course: JsId)
    ensures IsEnrolled(a + b, course) <==> IsEnrolled(a, course) || IsEnrolled(b, course)
  {
    if IsEnrolled(a + b, course) {
      var i :| 0 <= i < |a + b| && NamesCourse((a + b)[i], course);
      if i >= |a| {
        assert b[i - |a|] == (a + b)[i];
      }
    }
    if IsEnrolled(a, course) {
      var i :| 0 <= i < |a| && NamesCourse(a[i], course);
      assert (a + b)[i] == a[i];
    }
    if IsEnrolled(b, course) {
      var i :| 0 <= i < |b| && NamesCourse(b[i], course);
      assert (a + b)[|a| + i] == b[i];
    }
  }

  // ---------------------------------------------------------------------
  // course view and lessons

  /** The buttons a course view offers. */
  datatype CourseActions = AuthorActions | LeaveAction | EnrollAction | NoActions

  /** Edit/delete/add-lesson for the author; otherwise Leave or Enroll when
      logged in, as enrolled or not; nothing for a visitor. */
  function CourseActionsFor(isAuthor: bool, loggedIn: bool, enrolled: bool): CourseActions {
    if isAuthor then AuthorActions
    else if loggedIn then (if enrolled then LeaveAction else EnrollAction)
    else NoActions
  }

  /** `showCourse`'s author test: a decodable token and the signed-in user's
      id equal (`===`) to the course's author id. */
  predicate IsCourseAuthor(token: Option<string>, parse: string -> Option<Claims>, userId: JsId, authorId: JsId) {
    DecodeJWT(token, parse).Some? && userId == authorId
  }

  /** The gating, case by case: the author gets the author actions and never
      Enroll or Leave; another logged-in user gets exactly one of Leave
      (enrolled) and Enroll (not enrolled); a visitor gets neither. */
  lemma CourseViewGating(isAuthor: bool, loggedIn: bool, enrolled: bool)
    ensures CourseActionsFor(isAuthor, loggedIn, enrolled) == AuthorActions <==> isAuthor
    ensures CourseActionsFor(isAuthor, loggedIn, enrolled) == LeaveAction <==> !isAuthor && loggedIn && enrolled
    ensures CourseActionsFor(isAuthor, loggedIn, enrolled) == EnrollAction <==> !isAuthor && loggedIn && !enrolled
    ensures CourseActionsFor(isAuthor, loggedIn, enrolled) == NoActions <==> !isAuthor && !loggedIn
  {
  }

  /** A user without a decodable token is never the author, whatever the ids;
      a missing token and a token without a `.` are never decodable. */
  lemma NoClaimsNoAuthor(token: Option<string>, parse: string -> Option<Claims>, userId: JsId, authorId: JsId)
    ensures DecodeJWT(token, parse).None? ==> !IsCourseAuthor(token, parse, userId, authorId)
    ensures token.None? || '.' !in token.value ==> DecodeJWT(token, parse).None?
  {
    if token.Some? {
      SplitCount(token.value, '.');
    }
  }

  /** The navbar variant. */
  datatype Navbar = MemberNav | GuestNav

  /** `renderNavbar`: the member links exactly when a token is held. */
  function NavbarFor(token: Option<string>): Navbar
  {
    if TokenHeld(token) then MemberNav else GuestNav
  }
}
