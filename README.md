# Activity roster service and its browser client, modelled in Dafny

The system is a school's extracurricular-activities site. A FastAPI service
(`src/app.py`) keeps an in-memory roster: a dict from activity name to
description, schedule, capacity and participant emails. It serves the whole
roster on GET /activities and lets a teacher sign a student up or unregister
one. Both mutating endpoints first run `_require_teacher`, which needs a
`Bearer` JWT with the teacher role. POST /login issues that token against a
username→password table read from `teachers.json`. A browser script
(`src/static/app.js`) keeps the session token and a teacher flag. It renders
the roster as cards and fills the activity select. It shows one transient
message, posts signups and unregistrations, and re-fetches the roster after
each success.

The model has six modules, one file each:

- `Common` (common.dfy): `Option`.
- `ServerAuth` (server_auth.dfy): the header guard, the login check and the
  teachers comprehension, all as pure functions. JWT signing and verifying
  are function-typed parameters (`Encoder`, `Decoder`).
- `ServerActivities` (server_activities.dfy): the `activities` dict as the
  class `ActivityStore`. Its fields are the key order and a map of records.
  The two endpoints are methods on it. Pure guard functions give the
  refusals in their fixed order, and pure functions give the effect on the
  table (`Enrolled`, `Withdrawn`, `RemoveFirst` for `list.remove`).
- `ClientView` (client_view.dfy): the pure projection of a roster into
  cards, rows and select options.
- `ClientController` (client_controller.dfy): the script's state as the
  class `Controller`. Each async handler is split at its `await`. The second
  half is a method that receives the network outcome as a value:
  `Accepted(body)`, `Rejected(detail?)` or `TransportFault`. A started
  roster fetch is counted, and its result arrives through
  `OnActivitiesResponse`. Hide timers are kept as deadlines, and time is a
  parameter.
- `EndToEnd` (end_to_end.dfy): properties that span both programs.

Some behaviours are modelled as the code has them:

- The service demands a teacher token for signup as well as for unregister.
  A visitor who never logged in sends no header and gets 401 "Missing or
  invalid authorization" (`EndToEnd.AnonymousSignupScenario`).
- Nothing guards against a double submit or orders overlapping requests.
- No hide timer is ever cancelled. An older timer hides a newer message
  early (`EndToEnd.OlderTimerHidesNewerMessage`).
- A login error is shown with no hide timer at all.
- Login and logout never re-render the roster. After a logout, the delete
  buttons drawn for the teacher stay on the page. Their requests now go out
  without a header and are refused with 401.
- The select is never cleared, so each successful fetch appends another copy
  of every activity name.
- `result.detail || fallback` and `authToken ? … : {}` test JavaScript
  truthiness. An empty detail falls back to the fixed text, and an empty
  token sends no header.

## Model

| member | source | states |
|---|---|---|
| `ServerAuth.AfterFirstSpaceAt` | src/app.py:51 | `split(" ", 1)[1]` yields exactly the text after the first space |
| `ServerAuth.BearerTokenFollowsPrefix` | src/app.py:49-51 | when the header passes the case-insensitive `bearer ` check, the extracted token is everything after the 7-character prefix |
| `ServerAuth.Authorize` | src/app.py:48-58 | a missing, empty or non-Bearer header gives 401 "Missing or invalid authorization", whatever the token; a token the decoder rejects gives 401 "Invalid token"; decoded claims without role "teacher" give 403; otherwise the claims are returned; success iff all of these checks pass |
| `ServerAuth.BearerHeaderYieldsToken` | src/app.py:49-51 | the header `Bearer <token>` passes the prefix check and the guard reads back exactly `<token>` |
| `ServerAuth.TeacherMap` | src/app.py:38 | the keys are exactly the usernames in the file; where a username repeats, the last record's password wins |
| `ServerAuth.UsernamesOfSnoc` | src/app.py:38 | the usernames of a list are those before its last record plus the last record's |
| `ServerAuth.LastOfNameInPrefix` | src/app.py:38 | a record that no later record overrides is still not overridden before the final record, and the final record has another username |
| `ServerAuth.Login` | src/app.py:130-136 | login succeeds iff the username is known, its stored password is non-empty and equals the one given; the grant carries role "teacher", the username and the signed claims `{sub, role}`; every failure is 401 "Invalid credentials" |
| `ServerAuth.EmptyPasswordNeverLogsIn` | src/app.py:131-133 | a teacher whose stored password is empty can never log in |
| `ServerAuth.LoginGrantAuthorizes` | src/app.py:129-136 | if the JWT library decodes what it signed, the token from a successful login passes `_require_teacher` with the login's claims |
| `ServerActivities.Snapshot` | src/app.py:124-126 | the roster as served has one entry per key, in the dict's insertion order, each with that key's current record |
| `ServerActivities.FirstIndex` | src/app.py:181 | the index `list.remove` deletes holds the email, and no earlier index does |
| `ServerActivities.RemoveFirst` | src/app.py:181 | `list.remove` drops exactly one copy of the email (length minus one, multiset minus one), namely the first, and keeps the rest in order |
| `ServerActivities.RemoveFirstOfAppended` | src/app.py:158-181 | removing an email appended to a list that lacked it gives the list back |
| `ServerActivities.Enrolled` | src/app.py:158 | the named activity's participants become the old ones plus the email at the end; its other fields, the keys and every other activity are unchanged |
| `ServerActivities.Withdrawn` | src/app.py:181 | the named activity loses the first copy of the email, so its length drops by 1; the keys and every other activity are unchanged |
| `ServerActivities.SignupRefusal` | src/app.py:142-155 | signup is refused iff authorization fails, the activity is unknown (404 "Activity not found") or the email is already there (400 "Student is already signed up"); an authorization failure wins over a missing activity |
| `ServerActivities.UnregisterRefusal` | src/app.py:165-178 | unregister is refused iff authorization fails, the activity is unknown (404) or the email is absent (400 "Student is not signed up for this activity"), in that order |
| `ServerActivities.SignupIgnoresCapacity` | src/app.py:148-158 | an authorized signup of a new email is accepted even when the activity is full or over capacity, and leaves it over capacity |
| `ServerActivities.SignupThenUnregisterRestores` | src/app.py:150-181 | signing up an absent email and then unregistering it restores the whole table |
| `ServerActivities.ActivityStore.constructor` | src/app.py:61-116 | the store starts with the nine seeded activities, in order, with their descriptions, schedules, capacities and participants |
| `ServerActivities.ActivityStore.GetActivities` | src/app.py:124-126 | GET /activities serves the current table itself, in key order |
| `ServerActivities.ActivityStore.Signup` | src/app.py:139-159 | on a refusal the endpoint returns that error and changes nothing; otherwise it returns "Signed up {email} for {name}" and the table becomes `Enrolled` of the old one; the key order never changes |
| `ServerActivities.ActivityStore.Unregister` | src/app.py:162-182 | on a refusal the endpoint returns that error and changes nothing; otherwise it returns "Unregistered {email} from {name}" and the table becomes `Withdrawn` of the old one |
| `ClientView.Rows` | src/static/app.js:94-101 | one row per participant, in the given order, each with a delete button iff the teacher flag is set |
| `ClientView.ProjectCard` | src/static/app.js:81-116 | the card keeps name, description and schedule; spots left plus participant count equals capacity, with no clamping (negative when oversubscribed); the placeholder "No participants yet" shows iff there are no participants, and otherwise the rows list the participants in order |
| `ClientView.Project` | src/static/app.js:81-116 | one card per roster entry, in roster order, each the projection of its entry |
| `ClientView.Names` | src/static/app.js:119-122 | one select option per roster entry, in roster order |
| `ClientView.TeacherViewDiffersOnlyInButtons` | src/static/app.js:94-101 | projecting one roster as teacher and as visitor gives the same cards except that every teacher row has a delete button and no visitor row has one |
| `ClientView.FlattenOfSameNames` | src/static/app.js:119-122 | when k fetches deliver the same names, the appended options are k copies of them |
| `ClientController.DetailOr` | src/static/app.js:164 | the server's detail is shown unless it is missing or empty, in which case the fallback is; with a non-empty fallback the text is never blank |
| `ClientController.Pending` | src/static/app.js:171-173 | the hide timers left after time `now` are exactly those whose deadline is later |
| `ClientController.Controller.constructor` | src/static/app.js:15-16 | the page starts anonymous and not in teacher mode, with the message hidden, nothing rendered, and the initial fetch started |
| `ClientController.Controller.SetAdminUI` | src/static/app.js:18-29 | only the teacher flag is set; nothing is re-rendered or fetched |
| `ClientController.Controller.OnLoginResponse` | src/static/app.js:37-63 | a successful login stores the token, turns teacher mode on and leaves the message alone; a refusal keeps the session and shows the detail or "Login failed"; a fault keeps it and shows "Login error"; no path fetches or schedules a hide |
| `ClientController.Controller.Logout` | src/static/app.js:66-69 | the token is cleared and teacher mode is off; message, cards, select and timers are untouched |
| `ClientController.Controller.MutationRequest` | src/static/app.js:190-198 | the request names the activity and email and carries `Bearer <token>` iff the token is set and non-empty |
| `ClientController.Controller.ShowMutationOutcome` | src/static/app.js:157-179 | success shows the server's message and starts exactly one fetch; a refusal shows the detail or "An error occurred" and fetches nothing; both add a hide at now+5000 beside earlier ones; a fault shows its fixed text and schedules nothing |
| `ClientController.Controller.OnSignupResponse` | src/static/app.js:200-225 | the signup outcome rule, with "Failed to sign up. Please try again." on a fault |
| `ClientController.Controller.OnUnregisterResponse` | src/static/app.js:155-179 | the unregister outcome rule, with "Failed to unregister. Please try again." on a fault |
| `ClientController.Controller.FireDueHides` | src/static/app.js:217-219 | the due timers fire and each hides the current message, whichever message scheduled it; text and class stay; later timers stay pending |
| `ClientController.Controller.OnActivitiesResponse` | src/static/app.js:72-136 | a loaded roster replaces the cards with its projection under the current teacher flag and appends its names to the select; a failure shows the failure text and leaves the select |
| `ClientController.SelectAccumulates` | src/static/app.js:119-122 | after k fetches of the same roster the select holds k copies of its names |
| `EndToEnd.Deliver` | src/static/app.js:155-166 | a 2xx body reaches the handler as is, and a refusal reaches it as a non-2xx reply with the exception's detail |
| `EndToEnd.SignupLowersSpotsLeft` | src/app.py:124-158 | since GET /activities serves the table the signup changed, the next projection shows exactly one spot fewer for that activity and the same for all others, whatever the teacher flag |
| `EndToEnd.AnonymousRequestRefused` | src/app.py:139-145 | a page without a token sends no header, so both endpoints refuse with 401 before the activity is looked up |
| `EndToEnd.TokenReachesGuard` | src/static/app.js:194-197 | the header a page with a token sends passes the service's prefix check, and the service's split reads back exactly that token |
| `EndToEnd.LoggedInTeacherPassesGuards` | src/app.py:129-145 | a page holding a login's token passes both endpoints' guards for a valid signup or unregister |
| `EndToEnd.AnonymousSignupScenario` | src/app.py:142 | a visitor's signup against the seeded service is refused with 401, shown as an error, triggers no fetch and leaves the roster as seeded |
| `EndToEnd.OlderTimerHidesNewerMessage` | src/static/app.js:168-219 | with refusals shown at 0 ms and 2000 ms, the first timer hides the second message at 5000 ms and the second timer is still pending for 7000 ms |

## Left out

- The JWT library: signing, verifying, the secret from the environment, the 12-hour expiry and its clock. Tokens come from `Encoder` and `Decoder` parameters. Claims are strings only, so a non-string `role` is not modelled; it would be refused with 403 either way.
- Reading `teachers.json`: a missing file giving `{}`, the default `[]` for a missing "teachers" key, and malformed JSON or a record without "username"/"password" raising. `ServerAuth.TeacherMap` starts from the list of records.
- Lower-casing: only ASCII letters are lowered. Python's `str.lower` maps no other character to a letter of "bearer" or to a space, so the prefix test is the same.
- FastAPI routing, static mounting, the root redirect, the 422 that FastAPI gives when `email` is missing, and percent-encoding. Activity names and emails reach the handlers already decoded.
- `ServerActivities.RemoveFirst` requires the email to be present. Python's `ValueError` for a missing element never happens here because the endpoint checks membership first.
- The client's DOM: HTML text and escaping, CSS classes beyond the message's class and hidden flag, the login-form toggle, the "Logged in as" label, and the visibility of the signup and login panels set by `setAdminUI`. `signupForm.reset()` is left out too. The page's initial message text and class are not known, so they are taken as empty, plain and hidden. The select's static options from `index.html` are not counted.
- Which delete buttons get a click listener. Listeners are attached right after rendering, under the same teacher flag that drew the buttons, so a row's `removable` flag covers both.
- `fetch`, `response.json()` and their failures. A throw before or after the response, including a JSON parse error, is one `TransportFault`. A non-2xx or malformed GET /activities body is not modelled, nor is a throw partway through rendering. A fetch outcome is `Loaded` or `FetchFailed`.
- Async interleaving: the model has no record of which fetch or mutation is in flight. A handler's second half runs whenever the caller supplies its outcome.
- Time: `setTimeout` becomes a deadline in `hideDeadlines`, and `FireDueHides(now)` stands for the event loop running the due callbacks.
- Object key order: JavaScript's `Object.entries` puts integer-like keys first. The model keeps insertion order, which is the same for the seeded names.
- Aliasing of the Python dicts: GET /activities returns the live dict. The model returns the current value of the store, which is the same thing in a single-threaded service.
