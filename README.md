# Portfolio site with contact backend: a Dafny model

The system is a one-page portfolio site with a small contact backend. The
front end is a React component (`App.tsx`). Its parts modelled here are
`BlurText`, the contact form's status machine, the theme toggle and the
navigation menu. The backend is a Flask application that stores contact-form
submissions and serves an admin API behind a token guard.

The model follows the source file by file:

| file | module | what it holds |
|---|---|---|
| `wrappers.dfy` | `Wrappers` | `Option` |
| `json.dfy` | `Json` | JSON values, Python truthiness, `dict.get`, JSON replies |
| `strings.dfy` | `Strings` | Python's `str.strip`, `str.lower` and `str.capitalize` |
| `models.dfy` | `Models` | the `ContactSubmission` and `AdminUser` records, their defaults, `to_dict`, `set_password`/`check_password` |
| `auth.dfy` | `Auth` | `validate_admin_credentials`, the `admin_required` guard, `get_current_admin` |
| `routes.dfy` | `Routes` | the handlers; class `Api` holds both tables and the next id |
| `blur_text.dfy` | `BlurText` | segmentation, per-segment style, delay and suffix; class `BlurTextView` holds `inView` |
| `app_state.dfy` | `AppState` | form, theme and menu transition functions; class `App` holds the component state |

Anything the code cannot see becomes a parameter:

- **Request body.** A decoded `Json` value, or `None` when `request.get_json()` raises.
- **Email validator.** A function `string -> bool`.
- **Password library.** `PasswordScheme`, a pair of functions `hashpw` and `checkpw`. The one property relied on is `Sound`: a password checks against any hash made from it.
- **Token check.** `TokenCheck`: the token verifies and names an admin id, or verification raises.
- **Clock.** An integer timestamp.
- **Client address.** An optional string.
- **Database commit.** A flag `commitOk`. A failed commit is rolled back and falls into the handler's `except` branch.

On the front end, each browser callback becomes an event applied to the state:

- the fetch settling;
- the 5-second timer firing;
- the IntersectionObserver callback;
- a mouse press.

The form state also carries two counters that the runtime keeps, not the component:

- fetches not yet settled;
- reset timers not yet fired.

These counters let the model state that a stale reset timer can overwrite a newer submission's `loading` status.

Behaviours of the code that the model reproduces:

- **Exceptions inside a handler.** They reach that handler's own `except` clause:
  - a body that is not a JSON object, or a required field that is truthy but not a string, gives 500 in `submit_contact`;
  - a missing row gives 404 in `get_submission` and 500 in `delete_submission` and `mark_submission_read`.
- **Non-string password in `admin_login`.** If no active admin has that username, the reply is 401. Otherwise `check_password` raises and the reply is 500.
- **`get_current_admin`.** It does not look at `is_active`; only the guard does.
- **The `is_read` query parameter.** Flask's `type=bool` conversion turns any non-empty value into `True`, so `?is_read=false` selects the read submissions (`Routes.ReadFilter`).
- **The reset timer.** It is never cancelled and overwrites whatever status the form has when it fires.
- **The IntersectionObserver.** The code never disconnects it after the first intersection. Later callbacks leave `inView` true.

## Model

| member | source | states |
|---|---|---|
| Strings.SpaceCharacters | backend/routes.py:24 | `IsSpace` is Python's `isspace`: the ASCII whitespace characters are spaces, letters and digits never are, and every space is at most U+0020 or lies between NEL and the ideographic space |
| Json.Truthy | backend/routes.py:24 | Python truthiness of a decoded JSON value: falsy exactly for null, false, 0, the empty string, the empty list and the empty object |
| Strings.LeadingSpace | backend/routes.py:24 | The count of leading whitespace characters (Python's `isspace` set) and that the character after them is not whitespace |
| Strings.TrailingSpace | backend/routes.py:24 | The count of trailing whitespace characters and that the character before them is not whitespace |
| Strings.Strip | backend/routes.py:24 | `strip()` returns the slice between the leading and trailing whitespace; it neither starts nor ends with whitespace; it is empty exactly when the string is all whitespace |
| Strings.Lower | backend/routes.py:31 | `lower()` keeps the length, maps each character by itself and leaves no capital letter |
| Strings.LowerOfLower | backend/routes.py:31 | A string without capitals is left unchanged by `lower()` |
| Strings.Capitalize | backend/routes.py:27 | `capitalize()` upper-cases the first character and lower-cases the rest, so an already lower-case name only gains its capital |
| Models.NewContactSubmission | backend/models.py:11-18 | A new submission is unread, timestamped now and holds the given fields |
| Models.NewAdminUser | backend/models.py:40-46 | A new admin is active, has never logged in and is created now |
| Models.ContactToDict | backend/models.py:20-31 | The serialised submission has exactly the eight column keys, each with that column's value; `ip_address` is null exactly when unset and the address string otherwise |
| Models.AdminToDict | backend/models.py:56-65 | The serialised admin has exactly six keys and never `password_hash`, each with its column's value; `last_login` is null exactly when the admin never logged in |
| Models.WithPassword | backend/models.py:48-54 | `set_password` changes only the hash, and with a sound scheme `check_password` then accepts the same password |
| Models.CheckPassword | backend/models.py:52-54 | With a sound scheme, a password passes `check_password` whenever the stored hash was made from it |
| Auth.FindAdminById | backend/auth.py:15 | Lookup by primary key finds an admin with that id, or none exists |
| Auth.FirstActive | backend/auth.py:36 | The first active admin with the username: it matches, no earlier row matches, and none is found only if no row matches |
| Auth.ValidateAdminCredentials | backend/auth.py:34-39 | An admin is returned exactly when the first active admin with that username passes the password check, and it is that admin |
| Auth.AdminRequired | backend/auth.py:6-23 | The handler runs exactly when the token verifies and names an existing active admin; otherwise 401 "Authentication required" on a failed verification and "Invalid or inactive admin user" otherwise |
| Auth.GetCurrentAdmin | backend/auth.py:25-32 | None whenever verification raises; otherwise the admin with the token's id, if any |
| Auth.GuardedHasCurrentAdmin | backend/auth.py:25-32 | Behind the guard the current admin always exists and is active |
| Routes.RequiredMessage | backend/routes.py:27 | The missing-field message is the field name, first letter upper-cased and the rest lower-cased, followed by " is required" |
| Routes.CheckField | backend/routes.py:24 | A field is present exactly when it is a string with a non-whitespace character; a truthy non-string makes `.strip()` raise |
| Routes.FirstNotPresent | backend/routes.py:22-24 | The position of the first required field that is not present: all earlier ones are present |
| Routes.CheckRequiredFields | backend/routes.py:22-28 | The field loop reports all present exactly when all four are present; otherwise it reports the first one that is not, and whether it was absent or raised |
| Routes.DecideContact | backend/routes.py:16-45 | An accepted submission has all four fields present, a normalised email the validator accepts, a non-empty name and service, a stripped message of at least 10 characters, and fields stripped (email also lower-cased); a field refusal names a required field. The first field not present is reported as missing (400) or raising (500) by the two lemmas below |
| Routes.ContactErrorResponse | backend/routes.py:25-45 | Each refusal's reply: 400 for a missing field, a rejected email or a short message, 500 for a body or field that makes the handler raise; always `success` false with an `error`, the field's message for a missing field |
| Routes.DecideWhenPresent | backend/routes.py:30-45 | Once the fields are present, the email check comes before the length check, then acceptance |
| Routes.AcceptIff | backend/routes.py:22-45 | A submission is accepted exactly when the fields are present, the email is valid and the message is long enough |
| Routes.FirstAbsentFieldReported | backend/routes.py:22-28 | The first absent field in the order name, email, service, message is the one reported, whatever follows |
| Routes.FirstRaisingFieldReported | backend/routes.py:22-74 | When the first field not present is a truthy non-string, `.strip()` raises: it is reported as raising and answered 500, whatever follows |
| Routes.RequiredMessageSpelling | backend/routes.py:27 | The missing-field message is the name with only its first letter upper-cased, followed by " is required" |
| Routes.LaterChecksNeedFields | backend/routes.py:30-45 | An email or message-length refusal happens only once every field is present, and a length refusal only after the email passed |
| Routes.DecideLogin | backend/routes.py:80-97 | An accepted login names an active admin row; its refusals are stated by the three lemmas below |
| Routes.LoginInputsCheckedFirst | backend/routes.py:82-89 | A missing or blank stripped username, or a missing or falsy password, is refused with 400 before any credential check |
| Routes.LoginBadCredentials | backend/routes.py:92-97 | Credentials that pass the input check but do not validate are refused with 401 "Invalid username or password": a string password that fails validation, or a non-string password when no active admin has that username |
| Routes.LoginRaises | backend/routes.py:79-116 | The login answers 500 exactly when the body is not an object, the username is not a string, or a truthy non-string password reaches the password check of an existing active admin |
| Routes.LoginAcceptIff | backend/routes.py:82-97 | A login is accepted exactly for a string username that is non-blank after stripping and a non-empty string password that credential validation accepts, and for that admin's row |
| Routes.Lookup | backend/routes.py:168 | `get_or_404`: the row with that id, or a guarantee that none has it |
| Routes.CountUnread | backend/routes.py:237 | The unread count is at most the total |
| Routes.CountSince | backend/routes.py:241-244 | The recent count is at most the total |
| Routes.SubmittedSince | backend/routes.py:242-243 | The filtered list holds exactly the submissions made at or after the cut-off |
| Routes.RecentIsFilteredCount | backend/routes.py:242-244 | The recent count is the number of submissions made at or after the cut-off |
| Routes.AddOne | backend/routes.py:247-250 | Counting one more submission adds at most one breakdown row |
| Routes.AddOneSum | backend/routes.py:247-250 | Counting one more submission raises the breakdown's sum by one |
| Routes.AddOneCount | backend/routes.py:247-250 | Counting one more submission raises that service's count by one and no other |
| Routes.AddOneDistinct | backend/routes.py:247-250 | Counting one more submission keeps one row per service |
| Routes.CountServiceSnoc | backend/routes.py:247-250 | A service's count over a table is its count without the last row, plus one if that row names it |
| Routes.Breakdown | backend/routes.py:247-250 | The grouped rows are no more than the submissions, and empty exactly for an empty table; their counts are stated by the two lemmas below |
| Routes.BreakdownSum | backend/routes.py:247-252 | The per-service counts sum to the number of submissions |
| Routes.BreakdownCounts | backend/routes.py:247-252 | Each service's row counts exactly the submissions naming it, and no service appears twice |
| Routes.BreakdownPositive | backend/routes.py:247-250 | `count(id)` per group is never zero: every grouped row counts at least one submission, so only services that occur are listed |
| Routes.BreakdownCountsAll | backend/routes.py:247-252 | Every service's row counts exactly the submissions naming it, and no service appears twice |
| Routes.ComputeStats | backend/routes.py:236-252 | Total is the table size; unread is the size of the unread filter and recent the number of submissions of the last seven days, both at most the total; each service's row counts exactly its submissions, no service appears twice, every row counts at least one submission, and the rows sum to the total |
| Routes.BreakdownJson | backend/routes.py:252 | One JSON object per breakdown row, in order, holding that row's service and count |
| Routes.StatsJson | backend/routes.py:256-261 | The stats object has exactly the four keys, holding the total, unread and recent counts and the serialised breakdown rows, one entry per row |
| Routes.ReadFilter | backend/routes.py:125 | No parameter means no filter; a present one filters on `True` exactly when it is non-empty |
| Routes.FilterByRead | backend/routes.py:128-132 | The filtered list holds exactly the submissions with the requested read flag, or all without a filter |
| Routes.UnreadIsFilteredCount | backend/routes.py:131-132 | The unread count equals the size of the unread filter, and total minus unread the size of the read filter |
| Routes.AppendKeepsIds | backend/routes.py:60-61 | Inserting a row with the next id keeps ids increasing and below the new next id |
| Routes.RemoveKeepsIds | backend/routes.py:193-194 | Deleting a row keeps ids increasing and leaves no row with the deleted id |
| Routes.Api.SubmitContact | backend/routes.py:15-74 | A refusal answers its error and leaves the table alone; an accepted submission with a good commit appends exactly one unread row with the normalised fields and the next id and answers 201 with that id; a failed commit answers 500 and changes nothing |
| Routes.Api.AdminLogin | backend/routes.py:77-116 | A refusal answers its error and updates no `last_login`; an accepted login with a good commit sets only that admin's `last_login` and answers 200 with the token and the serialised admin |
| Routes.Api.GetSubmission | backend/routes.py:163-184 | Behind the guard: a missing row answers 404; an unread row is marked read and no other row changes; a read row changes nothing, so a second fetch is a no-op |
| Routes.Api.MarkSubmissionRead | backend/routes.py:208-229 | Behind the guard: the row's `is_read` becomes the body's boolean, true when absent; no other row changes; a missing row or failed commit answers 500 with nothing changed |
| Routes.Api.DeleteSubmission | backend/routes.py:186-206 | Behind the guard: exactly the row with that id is removed and every other row stays; a missing row or failed commit answers 500 with nothing changed |
| Routes.Api.SetAdminPassword | backend/models.py:48-50 | Only that admin's hash changes, and the new password then checks against it |
| Routes.Api.AdminStats | backend/routes.py:231-262 | The guard's reply when it denies; otherwise 200 with the dashboard numbers of the current table |
| Routes.Api.ProfileOf | backend/routes.py:275-285 | 200 with the serialised admin when one was found, 500 otherwise |
| Routes.Api.AdminProfile | backend/routes.py:270-285 | 200 exactly when the guard lets the request through, and then the `to_dict` of the admin the token names, without a password hash; otherwise the guard's reply |
| BlurText.Split | App.tsx:66-67 | Splitting yields at least one segment and no segment contains the separator |
| BlurText.JoinSplit | App.tsx:66-67 | Joining the split segments with another character replaces each separator by it |
| BlurText.SplitRoundTrip | App.tsx:66-67 | Word mode: joining the segments with a space restores the text |
| BlurText.LetterSegments | App.tsx:67 | Letter mode: one segment per character, in order |
| BlurText.DelayStaggered | App.tsx:80 | The first segment has delay 0; with a positive delay, later segments start strictly later, in steps of `delay` |
| BlurText.Suffix | App.tsx:84 | A no-break space follows a segment exactly in word mode and when it is not the last one |
| BlurText.Segments | App.tsx:66-68 | Word mode: at least one piece (the empty text gives one empty piece), none with a space, joining back to the text; letter mode: one piece per character, in order |
| BlurText.DelayMs | App.tsx:80 | The first segment has no delay, and no delay is negative when the step is not |
| BlurText.StyleOf | App.tsx:75-81 | Shown segments are sharp, opaque and at offset 0; hidden ones are blurred 10px, transparent and 20px above (top) or below (bottom); all take 500ms, with the segment's delay whatever the visibility |
| BlurText.Render | App.tsx:70-88 | One span per segment, in order; span i shows segment i with its suffix and has the style of segment i, delayed by i × delay |
| BlurText.ShownWords | App.tsx:83-84 | Word spans with their suffixes read as the segments joined by no-break spaces |
| BlurText.ShownLetters | App.tsx:83-84 | Letter spans read as the text |
| BlurText.RenderedText | App.tsx:66-86 | Rendered in word mode the text reads with every space turned into a no-break space; in letter mode it reads as itself |
| BlurText.RevealIsPermanent | App.tsx:47-51 | After any series of callbacks the text is revealed exactly when it was revealed before or some entry intersected |
| BlurText.BlurTextView.constructor | App.tsx:34-42 | The props are kept and the text starts hidden |
| BlurText.BlurTextView.WithDefaults | App.tsx:34-42 | The defaults are a 50ms delay, word mode and direction top, and the text starts hidden |
| BlurText.BlurTextView.OnIntersection | App.tsx:47-51 | An intersecting entry reveals the text, and nothing hides it again |
| BlurText.BlurTextView.Spans | App.tsx:70-88 | The spans read as the text, spaces shown as no-break spaces in word mode, and are opaque exactly once revealed |
| AppState.Step | App.tsx:142-179 | The form's transition keeps "loading means a fetch is pending" and "an error has a message"; the reset timer always leaves it idle; a transport failure gives error with the network-error text and one fetch fewer; an accepted submit event makes it loading with one more fetch pending |
| AppState.ResponseError | App.tsx:171-173 | The message is the response's error when it is a non-empty string, otherwise "Failed to send message"; it is never empty |
| AppState.SendStartsSubmission | App.tsx:142-145 | With the button enabled, the form's submit event gives loading, an empty message and one more pending fetch; while loading the button is disabled and nothing happens |
| AppState.ResponseOutcome | App.tsx:165-174 | A settled fetch ends in success with exactly one reset timer scheduled only for a successful response; otherwise in error with a non-empty message and no timer |
| AppState.ResetOverwrites | App.tsx:170 | The reset timer makes the status idle whatever it was |
| AppState.RunKeepsInv | App.tsx:142-179 | In every reachable state, loading implies a pending fetch and an error status has a message |
| AppState.StaleResetScenario | App.tsx:166-170 | Submit, succeed, submit again, then the first timer fires: the form shows idle with a fetch pending, and a third submission runs beside the second |
| AppState.RunFirst | App.tsx:142-179 | Running events is performing the first, then the rest |
| AppState.Toggled | App.tsx:132-140 | Toggling flips the theme flag and leaves the document class equal to it |
| AppState.ToggleTwice | App.tsx:132-140 | Toggling twice restores a theme whose class matches its flag |
| AppState.MenuAfter | App.tsx:115-125 | Only the button opens a closed menu; an item click closes it; a press outside both menu and button closes an open one |
| AppState.MenuTransitions | App.tsx:115-125 | Only a button click opens the closed menu; an open menu closes exactly on a button click, an item click or a press outside both menu and button |
| AppState.ButtonClickWhileOpen | App.tsx:208 | A click on the button of an open menu closes it, because the press on the button leaves it open first |
| AppState.App.constructor | App.tsx:104-113 | The app starts dark with the document class set, the menu closed and the form idle |
| AppState.App.ToggleTheme | App.tsx:132-140 | The theme becomes the toggled theme; menu and form are untouched |
| AppState.App.HandleSubmit | App.tsx:142-145 | The form becomes loading with no message and one more pending fetch |
| AppState.App.SubmitForm | App.tsx:538 | The form's submit event is the form's submit transition: nothing while the button is disabled for loading, the handler otherwise |
| AppState.App.OnResponse | App.tsx:165-174 | The form takes the response transition |
| AppState.App.OnFetchFailure | App.tsx:175-178 | The form shows the network-error message |
| AppState.App.OnResetTimer | App.tsx:170 | The form becomes idle and one timer fewer is pending |
| AppState.App.ClickMenuButton | App.tsx:208 | The menu flips |
| AppState.App.ClickMenuItem | App.tsx:239 | The menu closes |
| AppState.App.OnMouseDown | App.tsx:115-125 | A press outside both menu and button closes an open menu; any other press changes nothing |

## Left out

- The fetch call, Flask's request and response plumbing, JSON encoding, CORS and blueprint registration. Replies are a status code and a map of JSON values.
- `get_submissions`: ordering by `submitted_at` and pagination are not modelled. Its filter is modelled by `Routes.FilterByRead`.
- `EMAIL_REGEX` at `backend/routes.py:13` is compiled but never used, so it is not modelled.
- Datetimes are integer seconds. `isoformat()` is represented by the timestamp itself.
- Column length limits are not enforced, because the ORM does not check them before the database.
- `Strings.Lower` and `Strings.Capitalize` map only ASCII letters; Python's full Unicode case mapping is not modelled.
- Characters are Unicode scalar values. On the front end JavaScript splits text into UTF-16 code units, so letter mode is modelled only for text without characters outside the Basic Multilingual Plane. Every text the app animates is ASCII.
- `AppState.ResponseError`: a response's `error` is a string or absent. A truthy non-string `error` would be shown as it is; the backend always sends a string.
- `BlurText.DelayMs`: the `delay` prop is a JavaScript `number` and could be fractional; the model takes an integer, as do `SegmentStyle.delayMs` and `BlurTextView.delay`. Every use in `App.tsx` passes an integer.
- The remote address fallback for the client IP (`backend/routes.py:48`) is a parameter.
- `Routes.Api.SubmitContact`: ids come from a counter that never hands out a deleted id again, whereas SQLite without `AUTOINCREMENT` may reuse the largest id after it is deleted.
- `Routes.Api.MarkSubmissionRead`: a non-boolean `is_read` (null, a number, a string) is answered with 500; the ORM would store null, 0 and 1 as given and reject other values.
- `Routes.Api.AdminStats`: the handler's `except` branch is not modelled, because counting in the model cannot fail.
- Routes.Api.AdminStats: `service_breakdown` is listed in order of first appearance. The `GROUP BY` query has no `ORDER BY`, so the source promises only one row per service with its count (`Routes.BreakdownCounts`), in no particular order.
- `Routes.Api.constructor`: it stands for the admin rows `backend/app.py` creates; that file is not part of this model.
- `AppState.App.OnResponse`: clearing the form (`App.tsx:168`) uses `e.currentTarget` after the `await`. Under React that may be null, so the call could throw into the catch branch. The event's `formReset` flag covers both outcomes, and whether React nulls it here is left open.
- `AppState.App.SubmitForm`: the browser's own form validation is not modelled. The fields are `required`, the email field has `type="email"` and the message has `minLength={10}` (`App.tsx:545-581`). Until they pass, the browser does not fire the submit event, so this method stands for the event after validation.
- The success-reset timer and the in-flight fetch are not cancelled on unmount. Unmounting is not modelled.
- Image `onError` fallbacks, `SplineScene`, CSS transitions, the observer's 0.1 threshold and the document's `contains` checks are left out. The checks become the press target chosen by the caller.
- Hover colours on menu items are presentational and left out.
- `backend/app.py`, `backend/config.py` and `components/SplineScene.tsx` are not part of this model.
