# Sleepless School: static server and client session rules

This project models two pieces of decision logic and proves their properties.

- **The static file server** (`server.js`). It rewrites the URL path to a file path and picks a media type from a fixed extension table. It serves non-HTML files from an in-memory cache that only grows, and falls back to the index page for missing HTML documents. It also chooses the `Cache-Control` header.
  - The server is the class `StaticServer.Server`. Its field `staticCache` is a `map` that `Handle` extends.
  - The same handler is also the function `StaticServer.Serve` of the cache before the request. `Handle` is proved to agree with it.
  - The file system is a parameter: `fs(path)` is what `fs.readFile(path)` hands to its callback.
- **The client session** (`src/script.js`). It covers:
  - how `fetchWithAuth` builds headers and turns an HTTP reply into data or an error message (`Api`);
  - how `showError` rewrites a message, and its single notification slot with identity-checked timers (`Notification`);
  - `decodeJWT`, the two-shape enrollment test, the course-view gating and the navbar variant (`Access`);
  - the module-level variables `token`, `userId`, `userEnrollments`, `currentCourseId` and `currentErrorElement`, with the handlers that change them (`Session`).

  Each handler is a pure step function, for example `Session.EnrollStep`. It takes the state before the handler and the replies its requests receive. The class `Session.Session` holds the variables as fields, and each of its methods is proved to perform its step function. The properties are lemmas over the step functions (`SessionProperties`).
- **JavaScript string operations** (`JsText`). These are the built-ins the code relies on: `includes`, one-character `split`, `trim`, ASCII `toLowerCase`, and the decimal text of a number. `JsText` also holds `LastIndexOf`, a helper that `StaticServer.Extname` uses to specify Node's `path.extname` (server.js:22); the code itself never calls `lastIndexOf`. Each operation has its defining properties proved.

Every request the client sends carries `Content-Type: application/json`, whatever its body (`src/script.js:18-21`); `Api.AuthorizationIffToken` states it.

## Model

| member | source | states |
|---|---|---|
| StaticServer.Server.constructor | server.js:10 | The server starts with an empty cache, which holds no HTML. |
| StaticServer.Server.Handle | server.js:13-91 | One request gives exactly the response, the read sequence and the new cache that `Serve` prescribes for the old cache. No HTML path enters the cache, and every existing entry keeps its bytes. |
| StaticServer.Server.Answer | server.js:44-90 | Once the path and its lower-cased extension are known, the method answers and updates the cache as `Respond` prescribes. |
| StaticServer.ResolvedPathHasExtension | server.js:15-20 | The file path is the request's path or `./src/index.html`. It is the index path exactly for `./`, for a path without an extension, or for the index itself. The resolved path always has an extension. |
| StaticServer.IndexExtname | server.js:19 | The extension of `./src/index.html` is `.html`. |
| StaticServer.ExtnameShape | server.js:22 | A non-empty `path.extname` starts with its only `.` and contains no `/`. |
| StaticServer.SegmentExtShape | server.js:22 | The extension of a segment is empty, or it is the end of the segment, starting at the segment's only `.` in that part. |
| StaticServer.BasenameHasNoSlash | server.js:22 | The last path segment contains no `/`. |
| StaticServer.StripTrailingSlashes | server.js:22 | Trailing slashes are removed and nothing else: the result is a prefix of the path, the dropped part is all `/`, and the result does not end in `/`. |
| StaticServer.RequestExtNonEmpty | server.js:18-22 | The lower-cased extension the handler branches on is never empty, so its `extname === ''` test never succeeds. |
| StaticServer.ContentTypeTable | server.js:23-44 | The type is `text/html` exactly for `.html`. An extension outside the table, and only such an extension, gets `application/octet-stream`. |
| StaticServer.ServedContentType | server.js:44-88 | A cache hit or a successful read answers 200 with the table type of the lower-cased extension. |
| StaticServer.LongCacheControlText | server.js:50 | The long-lived policy is `public, max-age=86400`, the cache age in seconds. |
| StaticServer.CacheHit | server.js:47-53 | A cache hit for a non-HTML path answers 200 with the cached bytes and the long-lived policy. It reads no file and leaves the cache unchanged. |
| StaticServer.CacheOnlyGrows | server.js:47-82 | No entry is removed or replaced. The only entry ever added is a non-HTML path that was not cached and was read successfully, stored with the bytes read. |
| StaticServer.HtmlNeverCached | server.js:79-82 | A cache without HTML keys stays without HTML keys after any request. |
| StaticServer.UpperCaseHtmlIsHtml | server.js:22 | A path whose extension is `.HTML` or `.Html` is never cached and, when read, is served as `text/html` with `no-cache`. |
| StaticServer.CacheControlRule | server.js:48-87 | `Cache-Control` is set exactly on answers carrying the requested file's bytes. It is `no-cache` for `.html` and the long-lived policy otherwise. It is absent on the fallback and on errors. |
| StaticServer.MissingHtmlFallsBack | server.js:58-69 | A missing `.html` file reads the index next and answers 200 `text/html` with the index content. |
| StaticServer.MissingAssetNotFound | server.js:58-73 | For a request whose extension is not `.html`, a missing uncached file is a 404 `text/html` page naming the path. |
| StaticServer.MissingFileNotFound | server.js:70-73 | For a path and extension directly (not `.html`, not empty), a missing uncached file is the 404 page. |
| StaticServer.ReadErrorsAreServerErrors | server.js:56-77 | A read error other than `ENOENT` is a 500 naming its code. So is a failure to read the index during the fallback. |
| StaticServer.FailureKeepsCache | server.js:56-77 | An answer other than 200 leaves the cache unchanged, and every status is 200, 404 or 500. |
| Api.AuthorizationIffToken | src/script.js:18-21 | The `Authorization` header is present exactly when a token is held, and then it is `Bearer ` followed by that token. The content type is always JSON. |
| Api.Classify | src/script.js:22-62 | The call fails exactly on a network failure or a status outside 200-299. |
| Api.FixedStatusMessages | src/script.js:28-37 | 401, 404 and 500 have their fixed messages, whatever the body says. |
| Api.OtherStatusMessage | src/script.js:38-44 | Any other failing status reports the body's non-empty `message` field. Otherwise, including for an unparseable body, it reports `Error <status>`, which contains the status in decimal. |
| Api.NotFoundMessageHidesStatus | src/script.js:32-33 | The 404 message does not contain `404`. |
| Api.EmptySuccessIsEmptyObject | src/script.js:50-58 | A success with status 204, with `content-length: 0` or with an unparseable body gives `{}`, never an error. |
| Api.ParsedSuccess | src/script.js:54-55 | Any other success gives exactly the parsed body. |
| Notification.DisplayTextFromMessage | src/script.js:71-84 | The text shown is one of the two fixed texts or a part of the message itself. |
| Notification.FetchFailureShownAsNetworkError | src/script.js:80-81 | "Failed to fetch" anywhere in the message shows the network text. |
| Notification.ParseFailureShownAsServerError | src/script.js:82-83 | Otherwise, "Unexpected token" anywhere shows the server-error text. |
| Notification.MessageShownVerbatim | src/script.js:71-78 | A message without a failure mention, or without a colon, and without either override is shown unchanged. |
| Notification.FailureMessageKeepsSecondPart | src/script.js:73-83 | A message mentioning "Failed to" or "failed to" that has a colon is shown as its second colon-separated piece, trimmed, unless the message contains "Failed to fetch" or "Unexpected token". |
| Notification.PrefixedMessageKeepsSecondPart | src/script.js:73-83 | For `prefix + ":" + rest`, where the prefix mentions a failure and has no colon, only the trimmed text of `rest` before its first colon is shown, unless the message contains "Failed to fetch" or "Unexpected token". The prefix is never shown. |
| Notification.CutMessageHasNoColon | src/script.js:73-77 | A failure message that is cut at its colons never shows a colon. |
| Notification.ShowNotice | src/script.js:65-91 | The slot always holds a notice with an identity below the next one to be issued. |
| Notification.TimerFires | src/script.js:93-98 | A timer firing keeps that invariant. |
| Notification.ShowNoticeIsFresh | src/script.js:66-91 | Showing an error replaces the current notice with a new one of a different identity, carrying the rewritten text. |
| Notification.StaleTimerIgnored | src/script.js:93-98 | The timer of a notice that has since been replaced leaves the newer notice in place. |
| Notification.CurrentTimerClears | src/script.js:93-97 | The timer of the notice still shown empties the slot. |
| Access.DecodeUsesPayloadOnly | src/script.js:5-12 | A token without a dot never decodes. Two tokens with the same second segment decode alike. |
| Access.DecodeThreePartToken | src/script.js:7 | `header.payload.signature` decodes to what its payload segment parses to. |
| Access.IsEnrolled | src/script.js:437-440 | Membership holds exactly when some record names the course, by its nested `enrollmentId.courseId` or by its flat `courseId`. |
| Access.IsEnrolledAppend | src/script.js:437-440 | Membership in a concatenation of record lists is membership in either list. |
| Access.CourseViewGating | src/script.js:449-457 | The author gets the author actions and never Enroll or Leave. Another logged-in user gets Leave exactly when enrolled and Enroll exactly when not. A visitor gets neither. |
| Access.NoClaimsNoAuthor | src/script.js:434-435 | Whenever `decodeJWT` yields no claims, including for a dotted token whose payload fails to parse, the viewer is never the author, whatever the ids. A missing token and a token without a `.` never decode. |
| Session.Session.constructor | src/script.js:1-3 | Page load keeps the stored token (an empty one counts as none), with no user, no enrollments and no course, and shows the home screen. |
| Session.Session.ShowError | src/script.js:65-99 | The state becomes `WithError` of the old state: a fresh notice in the single slot. |
| Session.Session.TimerFires | src/script.js:93-98 | The slot is cleared only if it still holds that notice. |
| Session.Session.FetchWithAuth | src/script.js:17-63 | The request carries the headers for the token held at the call. The outcome is `Classify` of the reply, and a failure is shown. |
| Session.Session.RenderNavbar | src/script.js:117-131 | The navbar becomes the variant for the current token, and nothing else changes. |
| Session.Session.ShowHome | src/script.js:133-143 | Shows the home screen and renders the navbar. |
| Session.Session.ShowLogin | src/script.js:145-162 | Shows the login screen and renders the navbar. |
| Session.Session.ShowCourse | src/script.js:428-473 | The state becomes `ShowCourseStep` of the old state. |
| Session.Session.ShowLesson | src/script.js:401-426 | The state becomes `ShowLessonStep` of the old state. |
| Session.Session.FetchCourses | src/script.js:225-229 | Each per-enrollment course request's failure is shown in reply order. The result says whether all succeeded. |
| Session.Session.ShowProfile | src/script.js:213-272 | The state becomes `ShowProfileStep` of the old state. |
| Session.Session.ShowCourses | src/script.js:322-327 | The state becomes `ShowCoursesStep` of the old state. |
| Session.Session.Login | src/script.js:528-542 | The state becomes `LoginStep` of the old state. |
| Session.Session.Recover | src/script.js:864-870 | The shared catch performs `CatchStep`. |
| Session.Session.EnrollCourse | src/script.js:847-875 | The state becomes `EnrollStep` of the old state. |
| Session.Session.LeaveCourse | src/script.js:877-913 | The state becomes `LeaveStep` of the old state. |
| Session.Session.Logout | src/script.js:915-924 | The state becomes the corrected `LogoutStep`; see Findings. |
| SessionProperties.CourseViewGated | src/script.js:428-473 | Opening a course always makes it current and keeps the token, the user and the enrollments. The view appears only when both requests succeed and `userEnrollments` is an array. It then offers the author actions exactly to the author, Leave exactly to an enrolled non-author holding a token, Enroll exactly to a non-enrolled one, and nothing to a visitor. The lessons open exactly for the author or an enrolled user. |
| SessionProperties.LeaveOfferedMeansEnrolled | src/script.js:885-893 | Whenever the course view is shown offering Leave, the enrollments pass `leaveCourse`'s identical membership test for the current course. |
| SessionProperties.LessonViewGated | src/script.js:401-426 | The lesson view appears only when both requests succeed, and then it shows the author controls exactly when `userId` equals the course's author id, token or not. A failed request is shown as it is and then prefixed, and the screen is kept. The session variables never change. |
| SessionProperties.NavbarMatchesToken | src/script.js:117-131 | Home and login leave the member navbar exactly when a token is held, and so do the course and lesson views whenever their requests succeed. Logout always leaves the visitor navbar. A profile run that reaches its end leaves the member navbar beside the held token. |
| SessionProperties.LoginWithoutProfileKeepsGuestNav | src/script.js:528-538 | A login whose reply carries a token but whose profile request fails never renders the navbar, so a held token sits beside the visitor navbar. |
| SessionProperties.EnrollSucceeds | src/script.js:857-863 | A successful enroll request and refresh make `userEnrollments` the refreshed list and show the current course again from it. |
| SessionProperties.LeaveSucceeds | src/script.js:885-901 | For an enrolled user, a successful leave request and refresh make `userEnrollments` the refreshed list and show the course again from it. |
| SessionProperties.LeaveNotEnrolledReshows | src/script.js:885-893 | When no record names the current course, leaving sends no request and only shows the course again. |
| SessionProperties.LeaveNotFoundIsReported | src/script.js:895-908 | An HTTP 404 on the leave request never takes the "404" recovery. The message is shown as it is and then prefixed, and the enrollments and screen are unchanged. |
| SessionProperties.EnrollConflictRecovers | src/script.js:864-867 | A 409 without a body message becomes `Error 409`, which the catch recognises. The enrollments are fetched again and the course is shown again. |
| SessionProperties.ConflictMessage | src/script.js:41-43 | A 409 without a message fails with `Error 409`, which contains `409`. |
| SessionProperties.ConflictFallbackText | src/script.js:41-43 | A 409 without a message fails with `Error ` followed by the status in decimal. |
| SessionProperties.EnrollFailureCaught | src/script.js:857-865 | A failed enroll request is shown and handed to the catch. |
| SessionProperties.CatchRecovers | src/script.js:864-867 | The catch, given a message naming its code and a successful refresh, replaces the enrollments and shows the current course again. |
| SessionProperties.EnrollConflictWithMessageReported | src/script.js:864-869 | A 409 whose body message lacks `409` is shown as it is and then prefixed, and nothing else changes. |
| SessionProperties.NoCourseNoChange | src/script.js:850-878 | With a current course id of null, undefined or 0, enrolling and leaving change nothing. |
| SessionProperties.ProfileGuardShowsLogin | src/script.js:214-217 | Without a token, `showProfile` shows the login form with the visitor navbar and changes nothing else. |
| SessionProperties.CoursesGuardShowsLogin | src/script.js:322-327 | Without a token, `showCourses` shows the login-required notice and then the login form with the visitor navbar. It keeps the token, the user and the enrollments. |
| SessionProperties.ProfileSetsUserOnlyWhenShown | src/script.js:213-272 | The profile handler never changes the token. It changes `userId` only when the whole profile is shown, and then to the user's id. |
| SessionProperties.ProfileShownSetsUser | src/script.js:218-271 | A profile run that reaches its end shows the returned user's profile with the member navbar. It sets `userId` to that user's id and `userEnrollments` to the first enrollment reply, and keeps the token. |
| SessionProperties.NoFailuresNoNotice | src/script.js:225-229 | When all course requests succeed, nothing is shown. |
| SessionProperties.LoginOutcome | src/script.js:528-542 | A failed login keeps the token and screen and shows two notices, the second prefixed with `Login failed: `. A successful one takes the token from the reply. |
| SessionProperties.LogoutAlwaysClears | src/script.js:915-924 | After the corrected logout there is no token, and the home screen and visitor navbar are shown. `userId` and the enrollments are kept. |
| SessionProperties.LogoutAsWrittenKeepsBadToken | src/script.js:915-923 | With the token `undefined`, logout as written changes nothing, while the corrected logout clears the token. |
| SessionProperties.UndefinedNeverDecodes | src/script.js:5-12 | The token text `undefined` never decodes. |
| SessionProperties.LogoutAsWrittenOtherwiseCorrect | src/script.js:915-924 | Without a token, or with a decodable one, logout as written equals the corrected logout. |
| SessionProperties.LessonControlsSurviveLogout | src/script.js:401-422 | Logout keeps `userId`. The former author of a course still gets the lesson's author controls after logging out, beside the visitor navbar. |
| JsText.SplitJoin | src/script.js:74 | Joining the pieces of `split` with the separator gives back the text. |
| JsText.SplitCount | src/script.js:74-75 | There is more than one piece exactly when the separator occurs. |
| JsText.SplitAfterFirst | src/script.js:74-76 | The text before the first separator is the first piece, and the rest is split on its own. |
| JsText.SplitPiecesOccur | src/script.js:74-76 | Every piece occurs in the split text. |
| JsText.TrimSpec | src/script.js:76 | `trim` keeps one contiguous part of the text and drops only white space around it. |
| JsText.TrimIdempotent | src/script.js:76 | Trimming twice is trimming once. |
| JsText.AsciiLowerIdempotent | server.js:22 | Lower-casing twice is lower-casing once. |
| JsText.AsciiLowerNoUpper | server.js:22 | No upper-case ASCII letter is left after lower-casing. |
| JsText.TrimAddsNothing | src/script.js:76 | Trimming brings in no character that was not in the text. |
| JsText.PieceHasNoSeparator | src/script.js:74 | No piece of a split contains the separator. |
| JsText.LastIndexOf | server.js:22 | `lastIndexOf` is -1 or a position of the character, with none after it. |
| JsText.DecimalRoundTrip | src/script.js:41-43 | The decimal digits of a status read back as the status. |

## Left out

- Network transport, `fetch`, `localStorage`, `console.log` and the DOM (templates, `innerHTML`, modals, `alert`, `confirm`, the disabling of buttons) are not modelled. A request's reply is an input, and a screen is an abstract `Screen` value.
- `http.createServer`, `server.listen`, `url.parse` and `fs.readFile` are not modelled. The handler receives the URL's pathname, and the file system is a function argument.
- A URL without a pathname, for which `url.parse` yields `null`, is not modelled.
- The 5-second duration of the notification timer is not modelled. Only its identity-checked firing is.
- Asynchronous interleaving is not modelled. On the client, each handler runs to completion on the replies it receives, and a later request cannot overtake it.
- StaticServer.CacheOnlyGrows: requests are handled one at a time. In the server, two requests for the same uncached file can both miss the cache at server.js:47 and both write it at server.js:81, so a later read can replace an entry; the model does not capture that.
- Session.ProfileReplies: `courses` may hold any number of replies, while the source sends one request per record that has an `enrollmentId`; for a record without one, the template at src/script.js:227 throws before any request is sent.
- The per-enrollment requests that `Promise.all` runs in parallel are modelled in the order their replies arrive.
- `Promise.all` rejects on the first failure, while the other requests continue and show their own failures. The model shows every failure and then stops the handler.
- `atob` and `JSON.parse` inside `decodeJWT` are a function parameter that returns `None` where either throws.
- A payload that parses to a falsy value other than `null` (for example `0`) is treated like `null`.
- `toLowerCase` and `trim` are modelled on the code points listed in `JsText`. Unicode case mapping beyond ASCII and UTF-16 surrogates are not modelled.
- JSON bodies that are `null`, and `message` fields that are not strings, are not modelled. A body is either unparseable or a value with an optional string `message`.
- The text of the TypeError that a non-array `userEnrollments` raises is engine-specific. One fixed text stands for it.
- `searchCourses` and the other handlers of the client are not modelled: registration, profile editing, courses, lessons, assignments and submissions.
- Session.Session.ShowProfile: the fields of the displayed profile (e-mail, username, course lists) are not modelled; only the screen, the `userId` it sets and the notices are.
- StaticServer.Server.Handle: the read outcome is a read error carrying its code instead of a `NotFound | OtherError` pair. This keeps the source's test `code === 'ENOENT'` as written.

## Findings

| source | as written | input that shows it | evidently intended | confidence | as-written member | corrected member |
|---|---|---|---|---|---|---|
| src/script.js:915-923 | `logout` reads `payload.sub` of `decodeJWT(token)` before clearing the token. For a held token that does not decode, `payload` is `null`, the read throws, and the token, its stored copy and the member navbar survive. | The stored token is the text `undefined`, as `localStorage.setItem('token', undefined)` leaves after a login reply without a token. | Logging out always clears the token and shows the home screen. | not executed | Session.LogoutAsWritten, with SessionProperties.LogoutAsWrittenKeepsBadToken | Session.LogoutStep and Session.Session.Logout, with SessionProperties.LogoutAlwaysClears |
