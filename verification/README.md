# Learning platform rules in Dafny

This project models the small, deterministic rules inside a learning
platform: an Express/SQLite backend plus a React/Redux single-page client.
Learners browse courses, read lectures and submit answers to tasks. The
model leaves out the routing, persistence and rendering. It keeps the
decisions those layers make:

- the client's answer comparison `isAnswerCorrect` and its `normalize`;
- the server's `normalizeAnswer`;
- the `progress`, `solution` and `user` Redux slices, as state-transition
  functions;
- the sign-up and sign-in form validators;
- the server's sign-up, sign-in and create routes, over an abstract store;
- the client's task mapping, search filter and completion logic;
- related-lecture choice, verdict handling and submit rules on the solver
  page;
- the progress counters, the task view's threshold, the header's display
  name and the task card's route.

Every operation is a pure function over immutable datatypes. Several
JavaScript features are modelled explicitly:

- `null`, `undefined` and absent fields are `Option`.
- `.length` and `charAt` count UTF-16 code units: a character outside the
  Basic Multilingual Plane (an emoji, say) is two units (`Text.Utf16`).
- JavaScript truthiness (`x || default`, `!x`) is spelled out in the `Js`
  module.
- White space is JavaScript's `\s` class.
- `toLowerCase` and `toUpperCase` map between ASCII and basic Cyrillic
  upper- and lower-case letters and leave every other character alone.

Files (one module each):

| file | module | source |
|---|---|---|
| wrappers.dfy | Wrappers | `Option` |
| js.dfy | Js | JavaScript values, truthiness, `String(n)` |
| text.dfy | Text | `\s`, `trim`, `toLowerCase`, `toUpperCase`, `includes`, `split(sep)[0]`, UTF-16 units |
| answer_check.dfy | AnswerCheck | src/utils/api.ts |
| normalize_answer.dfy | NormalizeAnswer | server/utils/normalizeAnswer.js |
| progress_slice.dfy | ProgressSlice | src/store/progressSlice.ts |
| solution_slice.dfy | SolutionSlice | src/store/solutionSlice.ts |
| user_slice.dfy | UserSlice | src/store/userSlice.ts |
| sign_up_form.dfy | SignUpForm | src/Pages/SignUp/SignUp.tsx |
| sign_in_form.dfy | SignInForm | src/Pages/SignIn/SignIn.tsx |
| server_api.dfy | ServerApi | server/index.js |
| app_tasks.dfy | AppTasks | src/App.tsx |
| task_solver.dfy | TaskSolver | src/components/TaskSolverPage/TaskSolverPage.tsx |
| progress_panel.dfy | ProgressPanel | src/components/ProgressPanel/ProgressPanel.tsx |
| task_view.dfy | TaskView | src/components/TaskView/TaskView.tsx |
| header.dfy | Header | src/components/Header/Header.tsx |
| task_card.dfy | TaskCard | src/components/TaskCard/TaskCard.tsx |

One might expect an empty answer never to be accepted. In the code, an
answer that normalises to the empty string is contained in every string,
so `isAnswerCorrect("", "212")` is true (`AnswerCheck.EmptySideAccepts`).
The containment rule also accepts `"12"` for an expected `"2"`, and in
general any answer that ends with the expected one
(`AnswerCheck.ContainmentFalsePositive`); the model keeps that leniency as written.

The numeric branch of `isAnswerCorrect` evaluates both strings as JavaScript
and compares them within 0.0001. The model represents it as a parameter
`numEq: (string, string) -> bool`. Symmetry is assumed only where a lemma
says so (`AnswerCheck.SymmetricOracle`).

The server as written installs no body parser (server/index.js:9-17 use
only Swagger), so `req.body` is undefined on every request; see the
finding below. The routes take the body as an `Option`: `None` is the
as-written case and `Some` the parsed JSON a `express.json()` middleware
would supply.

Identifiers, tokens and timestamps (`uuidv4()`, `Date.now()`) enter the
server model as the `ServerApi.Fresh` parameter. Server replies from
`createSolution` enter the solver page as the `TaskSolver.Reply` parameter.

## Model

| member | source | states |
|---|---|---|
| AnswerCheck.Normalize | src/utils/api.ts:148-156 | the client normal form contains no white space, no upper-case letter and no caret |
| AnswerCheck.IsAnswerCorrect | src/utils/api.ts:158-190 | true exactly when the normal forms are equal, either contains the other, or both hold an arithmetic character and the numeric oracle judges them equal |
| AnswerCheck.NormalizeIgnoresTrim | src/utils/api.ts:150-152 | the `trim` step is subsumed: the normal form is lower, delete all white space, expand carets |
| AnswerCheck.NormalizeIdempotent | src/utils/api.ts:148-156 | normalising a normal form changes nothing |
| AnswerCheck.Reflexive | src/utils/api.ts:162 | every answer is judged correct against itself |
| AnswerCheck.Symmetric | src/utils/api.ts:162-184 | with a symmetric numeric oracle, swapping user and expected answer never changes the verdict |
| AnswerCheck.SpaceAndCaseInsensitive | src/utils/api.ts:150-162 | answers equal after lowering and deleting white space have equal normal forms and are judged correct |
| AnswerCheck.CaretMatchesDoubleStar | src/utils/api.ts:153-162 | in an answer otherwise in normal form, `a^b` and `a**b` both normalise to `a**b` and are judged correct by exact match (`x^2` against `x**2`, say) |
| AnswerCheck.ContainmentAccepts | src/utils/api.ts:165-170 | containment of either normal form in the other means acceptance |
| AnswerCheck.EmptySideAccepts | src/utils/api.ts:165-170 | a side that normalises to the empty string is accepted against anything |
| AnswerCheck.EmptyAnswerAgainst212 | src/utils/api.ts:165-170 | `isAnswerCorrect("", "212")` is true |
| AnswerCheck.ContainmentFalsePositive | src/utils/api.ts:165-170 | any answer already in normal form that ends with the expected answer is accepted, e.g. `"12"` for `"2"` |
| AnswerCheck.NoArithRejects | src/utils/api.ts:174-190 | when the string tests fail and one side has no character of `[\d+\-*/().]`, the verdict is false |
| AnswerCheck.AcceptedOnlyByRules | src/utils/api.ts:158-190 | a true verdict comes only from equality, containment, or the oracle on two strings that both hold an arithmetic character |
| NormalizeAnswer.Normalize | server/utils/normalizeAnswer.js:1-10 | a falsy input gives `""`; the output has no white space, no `·`, `−` or `,`, and no upper-case letter |
| NormalizeAnswer.FalsyIsEmpty | server/utils/normalizeAnswer.js:2 | undefined, null, false, 0 and `""` all normalise to `""` |
| NormalizeAnswer.NormalizeStrCanonical | server/utils/normalizeAnswer.js:4-9 | for any string, the output equals deleting spaces, lowering, then replacing glyphs (lowering and glyph replacement commute) |
| NormalizeAnswer.NormalizeIdempotent | server/utils/normalizeAnswer.js:4-9 | on strings the server normaliser is idempotent |
| NormalizeAnswer.DecimalComma | server/utils/normalizeAnswer.js:8 | `"0,5"` normalises to `"0.5"` |
| NormalizeAnswer.SpaceAndCaseInsensitive | server/utils/normalizeAnswer.js:5-9 | strings equal after lowering and deleting white space normalise to the same output |
| NormalizeAnswer.NumberPrintsDecimal | server/utils/normalizeAnswer.js:4 | a positive integer up to `Number.MAX_SAFE_INTEGER` is normalised to its decimal digits: a canonical numeral whose value is the integer |
| Js.ToJsString | server/utils/normalizeAnswer.js:4 | `String(v)` keeps a string unchanged; an integer is printed through `NatToDecimal`, after a `-` when negative |
| Js.ToJsStringDenotes | server/utils/normalizeAnswer.js:4 | for every integer, `String(n)` is the canonical numeral (no leading zero) whose value is the absolute value of `n`, preceded by `-` exactly when `n` is negative |
| Js.DecimalRoundTrip | server/utils/normalizeAnswer.js:4 | the digits printed for any natural number, read back as a decimal numeral, give that number |
| Js.CanonicalRoundTrip | server/utils/normalizeAnswer.js:4 | a canonical digit string is exactly the printing of the number it denotes, so the printed form is the only canonical spelling |
| ProgressSlice.FindIndex | src/store/progressSlice.ts:31-33 | the result is the first index holding the task id, or -1 when no record holds it |
| ProgressSlice.UpdateProgress | src/store/progressSlice.ts:30-39 | an existing task id: same length, first such index holds the payload; otherwise the payload is appended; every other index and the flags are unchanged |
| ProgressSlice.SetProgressRecords | src/store/progressSlice.ts:27-29 | the records are replaced wholesale, nothing else changes |
| ProgressSlice.SetLoading | src/store/progressSlice.ts:40-42 | only `loading` changes |
| ProgressSlice.SetError | src/store/progressSlice.ts:43-45 | only `error` changes |
| ProgressSlice.LookupAfterUpdate | src/store/progressSlice.ts:30-39 | after an upsert, looking up the payload's task id finds the payload |
| ProgressSlice.LookupOtherAfterUpdate | src/store/progressSlice.ts:30-39 | an upsert does not change the lookup of any other task id |
| ProgressSlice.UpdateIdempotent | src/store/progressSlice.ts:30-39 | upserting the same record twice equals upserting it once |
| ProgressSlice.UpdateKeepsUnique | src/store/progressSlice.ts:31-38 | unique task ids stay unique after an upsert |
| ProgressSlice.RunKeepsUnique | src/store/progressSlice.ts:26-46 | any action sequence that loads only unique lists keeps task ids unique |
| SolutionSlice.InitialIsEmpty | src/store/solutionSlice.ts:28-34 | empty list, no current solution, empty result map, not submitting, no error |
| SolutionSlice.SetSolutions | src/store/solutionSlice.ts:40-42 | only the list changes |
| SolutionSlice.SetCurrentSolution | src/store/solutionSlice.ts:43-45 | only the current solution changes |
| SolutionSlice.AddSolution | src/store/solutionSlice.ts:46-49 | length grows by one, earlier entries kept, the payload is last and current |
| SolutionSlice.SetCheckResults | src/store/solutionSlice.ts:50-55 | the key maps to the results, the key set gains only that key, other keys are untouched |
| SolutionSlice.SetSubmitting | src/store/solutionSlice.ts:56-58 | only `submitting` changes |
| SolutionSlice.SetError | src/store/solutionSlice.ts:59-61 | only `error` changes |
| SolutionSlice.ClearError | src/store/solutionSlice.ts:62-64 | `error` becomes null, nothing else changes |
| SolutionSlice.SetCheckResultsLastWins | src/store/solutionSlice.ts:54 | results overwrite rather than merge: two updates of one key equal the last |
| SolutionSlice.SetCheckResultsCommute | src/store/solutionSlice.ts:50-55 | updates of different keys commute |
| SolutionSlice.ClearErrorIsSetNull | src/store/solutionSlice.ts:59-64 | `clearError` is `setError(null)` and is idempotent |
| SolutionSlice.CurrentIsLastKept | src/store/solutionSlice.ts:46-64 | after `addSolution` the current solution is the last one, and the results, flag and error reducers keep that |
| UserSlice.InitialIsEmpty | src/store/userSlice.ts:19-23 | no profile, not loading, no error |
| UserSlice.OnPending | src/store/userSlice.ts:69-72 | loading on, error cleared, profile kept |
| UserSlice.OnFulfilled | src/store/userSlice.ts:73-80 | loading off, profile set, error untouched |
| UserSlice.OnRejected | src/store/userSlice.ts:81-84 | loading off, error set, profile kept |
| UserSlice.OnClearUserData | src/store/userSlice.ts:62-65 | profile and error nulled, loading untouched |
| UserSlice.LoadingIffLastPending | src/store/userSlice.ts:62-84 | from the initial state, loading holds exactly when the last lifecycle event was `pending` |
| UserSlice.ErrorComesFromRejection | src/store/userSlice.ts:62-84 | from the initial state, a present error is the message of some earlier rejection |
| SignUpForm.HandleSubmit | src/Pages/SignUp/SignUp.tsx:34-66 | required fields first, then `@`, then a password of at least 6 UTF-16 code units, then confirmation; the first failure picks the message |
| SignUpForm.DispatchIffValid | src/Pages/SignUp/SignUp.tsx:38-65 | dispatch happens exactly when all four checks pass (length in UTF-16 code units); the payload carries the typed fields without the confirmation |
| SignUpForm.DispatchedPayloadWellFormed | src/Pages/SignUp/SignUp.tsx:43-65 | a dispatched payload has an `@` email and a confirmed password of at least six UTF-16 code units |
| SignUpForm.BmpPasswordLength | src/Pages/SignUp/SignUp.tsx:38-50 | for a password inside the Basic Multilingual Plane the length message appears exactly when required fields and `@` pass and the password has fewer than 6 characters |
| SignUpForm.ThreeEmojiPasswordAccepted | src/Pages/SignUp/SignUp.tsx:48-50 | a password of three emoji (six code units) passes the length check and is dispatched |
| SignUpForm.LastNameIgnored | src/Pages/SignUp/SignUp.tsx:38-65 | the last name never affects validation |
| SignUpForm.HandleChange | src/Pages/SignUp/SignUp.tsx:25-32 | a change sets only its field, clears the local error, and dispatches `clearError` exactly when the slice holds a non-empty error |
| SignInForm.HandleSubmit | src/Pages/SignIn/SignIn.tsx:20-51 | loading ends false on every path; empty fields are reported before a missing `@` |
| SignInForm.DispatchIffValid | src/Pages/SignIn/SignIn.tsx:26-45 | dispatch happens exactly for non-empty fields with `@` in the email, with `passwordHash` the typed password and no error left |
| SignInForm.ErrorDependsOnlyOnFields | src/Pages/SignIn/SignIn.tsx:20-29 | a stale error or loading flag never affects the result of a submit |
| ServerApi.FindUser | server/db.js:184-189 | the user found has the email; none is found exactly when no row has it |
| ServerApi.BodyAsWritten | server/index.js:9-17 | as the app is set up, `req.body` is undefined whatever the client sent |
| ServerApi.BodyParsed | server/index.js:9-17 | with a JSON body parser, `req.body` is the JSON the client sent |
| ServerApi.FindUserAppendedAbsent | server/db.js:184-189 | appending a user with an email not yet stored makes that email found, as the new row |
| ServerApi.SignUp | server/index.js:118-150 | an undefined body throws (500) with the store unchanged; 400 for a missing email or password, 409 for a stored email, store unchanged on both; otherwise 201 and exactly one row appended with `passwordHash = password` and names defaulted to `""` |
| ServerApi.SignIn | server/index.js:101-116 | an undefined body throws (500); otherwise 200 exactly when the email is stored and the password equals the stored hash, answering with that email, and 401 `invalid_credentials` in every other case; no store in the result |
| ServerApi.SignUpKeepsUnique | server/index.js:125-139 | a sign-up keeps emails unique |
| ServerApi.SignUpAllKeepsUnique | server/db.js:57 | email uniqueness holds across every sequence of sign-ups |
| ServerApi.SignUpThenSignIn | server/index.js:101-150 | with a parsed body, after a successful sign-up, signing in with the same email and password succeeds and returns that email |
| ServerApi.SignUpTwiceConflicts | server/index.js:125-128 | with a parsed body, repeating a successful sign-up gives 409 `user_exists` |
| ServerApi.AsWrittenAuthCrashes | server/index.js:101-119 | as written, every sign-up and sign-in request throws and gets 500, the store unchanged |
| ServerApi.AsWrittenSignUpsLeaveStore | server/index.js:118-150 | as written, no sequence of sign-up requests changes the store |
| ServerApi.OrZero | server/index.js:72 | `ord \|\| 0`: a given order is kept, a missing one becomes 0 |
| ServerApi.CreateCourse | server/index.js:39-54 | an undefined body or no truthy title gives 400 with the store unchanged; otherwise description and category default to `""` and the course is appended |
| ServerApi.CreateTask | server/index.js:61-77 | an undefined body or no truthy title gives 400 with the store unchanged; otherwise description and meta default to `""`, ord to 0, and the task is appended under the course |
| ServerApi.CreateLecture | server/index.js:84-99 | an undefined body or no truthy title gives 400 with the store unchanged; otherwise content defaults to `""`, ord to 0, and the lecture is appended |
| ServerApi.CreateAddsOneRowOrNone | server/index.js:39-99 | each create route either refuses and leaves the store alone, or adds one titled row to its own table only |
| ServerApi.AsWrittenCreateRefused | server/index.js:39-99 | as written, every create request is refused with 400 and the store never changes |
| ServerApi.ParsedTitledCreates | server/index.js:39-54 | with a body parser, a request with a truthy title creates its course: 201 and one more row |
| AppTasks.DifficultyAsWritten | src/App.tsx:104-106 | a truthy `meta.difficulty` passes through unchecked, otherwise "Easy" |
| AppTasks.DifficultyAsWrittenEscapes | src/App.tsx:104-106 | as written, meta difficulty "hard" yields a difficulty outside Easy/Medium/Hard |
| AppTasks.ParseDifficulty | src/App.tsx:104-106 | corrected: always one of the three names, equal to the as-written value whenever that is valid, else Easy |
| AppTasks.CategoryOf | src/App.tsx:107-112 | "Mathematics" exactly when the course's lowered category contains "math" |
| AppTasks.TopicOf | src/App.tsx:113 | topic falls back from `meta.topic` to the course title to `""` |
| AppTasks.MapTask | src/App.tsx:89-116 | id kept; title defaults to "Без названия"; description to `""`; completed is `!!meta.completed`; category and topic by their rules; difficulty by the corrected rule of the finding below |
| AppTasks.MapTaskDefaults | src/App.tsx:100-115 | a bare row maps to the default title, Easy, Computer Science, empty topic, not completed |
| AppTasks.MapTaskRoundTrip | src/App.tsx:89-116 | a row spelling out every field of a task (non-empty title and topic, category implied by the course) maps back to exactly that task |
| AppTasks.FindCourse | src/App.tsx:89 | the course found has the id and no earlier course has it; none is found exactly when no course has it |
| AppTasks.FindCourseUniqueIds | src/App.tsx:89 | on a list with distinct ids, looking up a course's id finds that course |
| AppTasks.FindCourseAppend | src/App.tsx:89 | searching `a + b` finds the match in `a` if any, else the match in `b` |
| AppTasks.LoadTasks | src/App.tsx:73-127 | no selected course gives no tasks; otherwise each row is mapped against the selected course, in order |
| AppTasks.LoadedTasksFollowRows | src/App.tsx:86-120 | one task per row with the row's id; each task is Mathematics exactly when the first course with the selected id has a category containing "math" |
| AppTasks.SelectAfterLoad | src/App.tsx:63 | after courses load, the first course is selected when the list is non-empty |
| AppTasks.SelectedCourseIsFound | src/App.tsx:63-89 | the course selected after loading is the one the task loader finds: the first course |
| AppTasks.FilterTasks | src/App.tsx:129-134 | a task is kept exactly when the lowered query occurs in its lowered title, description or topic; every kept task keeps its multiplicity, others drop to zero; the result is an order-preserving subsequence |
| AppTasks.FilterEmptyQueryKeepsAll | src/App.tsx:129-134 | an empty query keeps every task |
| AppTasks.CompleteTask | src/App.tsx:144-147 | tasks with the id become completed, length and every other task unchanged |
| AppTasks.CompleteSelected | src/App.tsx:148-150 | the selected task is marked completed exactly when it has the id |
| AppTasks.CompleteIdempotent | src/App.tsx:144-151 | completing twice equals completing once |
| AppTasks.CompleteIsMonotone | src/App.tsx:145-147 | completing never un-completes a task |
| TaskSolver.FirstMatch | src/components/TaskSolverPage/TaskSolverPage.tsx:114-117 | the index of the first lecture matching by id or lowered title, or none when no lecture matches |
| TaskSolver.RelatedLecture | src/components/TaskSolverPage/TaskSolverPage.tsx:107-123 | none exactly for an empty list; the first lecture without a truthy topic or without a match |
| TaskSolver.RelatedIsFirstMatch | src/components/TaskSolverPage/TaskSolverPage.tsx:111-121 | with a matching lecture, the first match is chosen |
| TaskSolver.CheckFor | src/components/TaskSolverPage/TaskSolverPage.tsx:159-166 | passed exactly when `correct` is the boolean `true`; the message is chosen by that alone |
| TaskSolver.StatusFor | src/components/TaskSolverPage/TaskSolverPage.tsx:170 | "completed" exactly for a correct verdict, otherwise "in_progress" |
| TaskSolver.VerdictCorrect | src/components/TaskSolverPage/TaskSolverPage.tsx:159 | only the boolean `true` counts as correct, and a correct verdict is truthy |
| TaskSolver.TruthyIsNotCorrect | src/components/TaskSolverPage/TaskSolverPage.tsx:159 | truthy non-boolean verdicts such as 1 or "true" count as failures |
| TaskSolver.CanSubmit | src/components/TaskSolverPage/TaskSolverPage.tsx:141 | a submit proceeds exactly when a task is loaded and the answer has a non-space character |
| TaskSolver.SubmitDisabled | src/components/TaskSolverPage/TaskSolverPage.tsx:313-317 | the button is disabled exactly for an all-space answer, a submit in flight, or a submitted answer that passed |
| TaskSolver.HandleSubmit | src/components/TaskSolverPage/TaskSolverPage.tsx:140-190 | no task or a blank answer is a no-op; a reply appends the solution, stores its result, sets status and message; a thrown error is stored; submitting ends false |
| TaskSolver.DisabledAfterPass | src/components/TaskSolverPage/TaskSolverPage.tsx:313-317 | after a reply, the button is disabled exactly for a blank next answer or a passed verdict |
| TaskSolver.GuardAgreesWithButton | src/components/TaskSolverPage/TaskSolverPage.tsx:313-317 | with a loaded task, every answer the handler's guard ignores also disables the button |
| ProgressPanel.CountCompleted | src/components/ProgressPanel/ProgressPanel.tsx:11 | the completed count never exceeds the task count; it is 0 exactly when no task is completed and equals the task count exactly when every task is |
| ProgressPanel.CountCompletedAppend | src/components/ProgressPanel/ProgressPanel.tsx:11 | the count of a concatenation is the sum of the counts of its parts |
| ProgressPanel.OfCategory | src/components/ProgressPanel/ProgressPanel.tsx:16-17 | exactly the tasks of the category are kept, each with its multiplicity in the input |
| ProgressPanel.Percentage | src/components/ProgressPanel/ProgressPanel.tsx:13-14 | 0 for no tasks, otherwise within [0, 100], and 100 when all are completed |
| ProgressPanel.Compute | src/components/ProgressPanel/ProgressPanel.tsx:11-19 | completed is at most total and 0 exactly when no task is completed; the percentage is within [0, 100] and 100 when every one of a non-empty list is completed; each category's completed count is at most its size |
| ProgressPanel.CategorySizesAddUp | src/components/ProgressPanel/ProgressPanel.tsx:16-17 | the two category lists partition the tasks |
| ProgressPanel.CategoryCountsAddUp | src/components/ProgressPanel/ProgressPanel.tsx:18-19 | completed math plus completed CS equals completed total |
| ProgressPanel.StatsConsistent | src/components/ProgressPanel/ProgressPanel.tsx:11-19 | the panel's totals agree with its per-category figures |
| ProgressPanel.CompleteNeverLowersCount | src/components/ProgressPanel/ProgressPanel.tsx:11 | marking a task complete never lowers the completed count |
| TaskView.DetailsFor | src/components/TaskView/TaskView.tsx:17-52 | ids 1 to 3 get their fixed details, any other id the placeholder texts; no text is empty |
| TaskView.DefaultOnlyForUnknown | src/components/TaskView/TaskView.tsx:17-52 | the placeholder texts are shown exactly for ids outside the table |
| TaskView.Submit | src/components/TaskView/TaskView.tsx:54-59 | a submit always marks the view submitted and reports the task id exactly when the trimmed solution is longer than 10 UTF-16 code units |
| TaskView.TrimmedLength | src/components/TaskView/TaskView.tsx:56 | `solution.trim().length` is 0 exactly for an all-space solution and lies between one and two code units per trimmed character |
| TaskView.AstralAnswerCompletes | src/components/TaskView/TaskView.tsx:56-58 | six characters outside the Basic Multilingual Plane, such as six emoji, are twelve code units and complete the task |
| TaskView.SubmitDisabled | src/components/TaskView/TaskView.tsx:143 | the button is disabled exactly when the solution is all white space |
| TaskView.BadgeShown | src/components/TaskView/TaskView.tsx:123 | the badge shows only after a submit of a solution the button accepts, with more than 5 trimmed characters |
| TaskView.BadgeShownBmp | src/components/TaskView/TaskView.tsx:123 | inside the Basic Multilingual Plane the badge shows exactly after a submit of more than 10 trimmed characters |
| TaskView.BadgeIffCompleted | src/components/TaskView/TaskView.tsx:123 | after a submit, the "Отправлено" badge shows exactly when the task was reported complete |
| TaskView.ShortAnswerSubmitsButNeverCompletes | src/components/TaskView/TaskView.tsx:56-59 | trimmed answers of 1 to 10 UTF-16 code units enable the button but never complete the task |
| TaskView.ToggleHint | src/components/TaskView/TaskView.tsx:151 | the hint flag flips and nothing else changes |
| TaskView.ToggleTwice | src/components/TaskView/TaskView.tsx:151 | two toggles restore the view |
| TaskView.SubmitMarksTaskComplete | src/components/TaskView/TaskView.tsx:54-59 | a completing submit passed to the list's completion handler leaves that task completed |
| Header.DisplayName | src/components/Header/Header.tsx:26 | a non-empty first name wins, then the part of the username before its first `@` when non-empty, then "User"; never empty |
| Header.AvatarInitial | src/components/Header/Header.tsx:70 | the avatar shows the upper-cased first character of the display name, or the high surrogate of a character outside the Basic Multilingual Plane |
| Header.AvatarInitialIsFirstLetter | src/components/Header/Header.tsx:26-70 | the avatar letter is never lower-case, and it equals the display name's first character once both are lowered |
| Header.AvatarFromFirstName | src/components/Header/Header.tsx:26-70 | with a first name, the avatar shows its first letter upper-cased; an upper-case first letter is kept as is |
| Header.UsernameFallback | src/components/Header/Header.tsx:26 | a username with no `@` is shown whole; one starting with `@` falls back to "User" |
| Header.EmailExample | src/components/Header/Header.tsx:26 | username "ann@x" without a first name shows "ann" |
| TaskCard.HandleSolve | src/components/TaskCard/TaskCard.tsx:30-36 | with a non-empty course id the card navigates to `/course/<course>/task/<task>`; otherwise it selects the task |
| TaskCard.ParseTaskPath | src/App.tsx:236 | a pathname the exact, case-sensitive match of `/course/:courseId/task/:taskId` accepts has two segment parameters and is rebuilt from them |
| TaskCard.Pathname | src/components/TaskCard/TaskCard.tsx:32 | the pathname `navigate` takes is the longest prefix without `?` or `#`, cut at the first of them |
| TaskCard.TaskPathRoundTrip | src/components/TaskCard/TaskCard.tsx:32 | for ids without `/`, `?`, `#` or `%`, the built URL is its own pathname, matches the solver route and recovers both ids |
| TaskCard.ParsesBuiltPath | src/components/TaskCard/TaskCard.tsx:32 | any two segments are recovered from the path built from them |
| TaskCard.QueryInTaskIdTruncates | src/components/TaskCard/TaskCard.tsx:32 | a `?` in the task id starts the query: the route sees only the part of the id before it |
| TaskCard.MapsTotal | src/components/TaskCard/TaskCard.tsx:15-25 | the colour and label maps are defined on exactly Easy, Medium and Hard |
| TaskCard.DifficultyLabel | src/components/TaskCard/TaskCard.tsx:21-25 | Easy is labelled "Легко", Medium "Средне" and Hard "Сложно"; no label is empty |
| TaskCard.AsWrittenDifficultyHasNoLabel | src/components/TaskCard/TaskCard.tsx:64-66 | the as-written difficulty "hard" has neither colour nor label |
| TaskCard.ParsedDifficultyHasLabel | src/components/TaskCard/TaskCard.tsx:21-25 | the corrected difficulty always has a label |
| TaskCard.ButtonLabel | src/components/TaskCard/TaskCard.tsx:79 | "Повторить" exactly for a completed task, otherwise "Решить" |
| TaskCard.CompletedCardsOfferRetry | src/components/TaskCard/TaskCard.tsx:79 | after completing a task id its cards show "Повторить" and every other card keeps its label |

## Left out

- AnswerCheck.IsAnswerCorrect: the numeric branch (`Function(...)` evaluation and the 0.0001 floating-point compare) is the opaque oracle `numEq`, so no numeric equivalence such as `"4"` against `"4.0"` is proved.
- The `fetch` wrappers in src/utils/api.ts, the body of the `fetchUserProfile` thunk, and every `localStorage` read and write are left out. This includes the first- and last-name writes in the fulfilled case. All of these are network or browser storage.
- server/db.js is not part of this model beyond the `UNIQUE` email column and the email lookup; the store is abstract table rows.
- ServerApi.CreateTask, ServerApi.CreateLecture: the course id is not checked against the courses table; with db.js's `FOREIGN KEY(courseId) REFERENCES courses(id)` (server/db.js:36 and 49) an unknown id gives 500 in the source, while the model appends the row.
- Express itself is left out beyond `req.body`: Swagger, `app.listen` (called twice, at server/index.js:12 and 152) and the read-only GET routes carry no decision the model needs. The missing body parser does, and is modelled by `ServerApi.BodyAsWritten`.
- `JSON.parse` of a task's `meta` is left out: `meta` arrives already parsed, and `None` stands for absent or unparsable.
- Request body fields are modelled as optional strings (optional integers for `ord`). A body field of another JSON type is not modelled.
- ServerApi.SignIn: the email is a plain string, because what the SQLite driver does with an unbound `undefined` parameter is outside the model.
- NormalizeAnswer.Normalize: numbers are integers, so fractional numbers and NaN are not modelled.
- `toLowerCase` covers ASCII and basic Cyrillic only.
- Header.AvatarInitial: `toUpperCase` is modelled on ASCII and basic Cyrillic letters only; other scripts and multi-character upper cases such as "ß" to "SS" are left as the character itself.
- NormalizeAnswer.NumberPrintsDecimal: stated only up to `Number.MAX_SAFE_INTEGER`, because beyond it a JavaScript number is a rounded double and from 1e21 on `String` prints an exponent.
- Js.ToJsString: integers are exact; the rounding and exponent form JavaScript uses beyond `Number.MAX_SAFE_INTEGER` are not modelled.
- TaskCard.ParseTaskPath: react-router's matcher also ignores case in the literal segments, accepts a trailing slash and percent-decodes the parameters; the model matches exactly and does no decoding.
- TaskCard.TaskPathRoundTrip: stated for ids without `?`, `#` or `%`; an id with `?` or `#` is cut there (`TaskCard.QueryInTaskIdTruncates`), and one with `%` would be percent-decoded by the router.
- The progress percentage is a real number, not a floating-point value.
- TaskView.DetailsFor: ids that name `Object.prototype` properties (such as "toString") are not modelled; JavaScript would find a function there instead of the default.
- SignInForm.HandleSubmit: the `catch` branch is not modelled, because dispatching the sign-in action does not throw synchronously.
- The `signIn` and `signUp` slices are not part of this model; only the actions the forms dispatch are modelled.
- TaskSolver.HandleSubmit: a reply without a `solution` field, which throws inside the handler, is not modelled. The page's loading effect and lecture navigation are left out because they are network and routing.
- Pure UI without rules is left out: ProfilePage, LecturePage, Footer, Sidebar, main.tsx and the Vite proxy configuration.

## Findings

| source | as written | input that shows it | evidently intended | confidence | as-written member | corrected member |
|---|---|---|---|---|---|---|
| src/App.tsx:104-106 | any truthy `meta.difficulty` is copied into `Task.difficulty`, although the type allows only "Easy", "Medium" and "Hard" | a task whose meta holds `difficulty: "hard"` gets difficulty "hard", and TaskCard's colour and label maps have no entry for it (`AppTasks.DifficultyAsWrittenEscapes`, `TaskCard.AsWrittenDifficultyHasNoLabel`) | difficulty is one of the three declared values, defaulting to "Easy" (`TaskCard.ParsedDifficultyHasLabel`) | medium, not executed | AppTasks.DifficultyAsWritten | AppTasks.ParseDifficulty |
| server/index.js:9-17 | no body-parsing middleware is installed (the only `app.use` serves Swagger), so `req.body` is undefined on every request | any `POST /auth/sign-up` or `POST /auth/sign-in` destructures or reads `req.body` and throws, giving 500 (`ServerApi.AsWrittenAuthCrashes`); every create route sees no title and answers 400 (`ServerApi.AsWrittenCreateRefused`) | `app.use(express.json())`, so the routes see the JSON the client sends (`ServerApi.ParsedTitledCreates`, `ServerApi.SignUpThenSignIn`) | high, not executed | ServerApi.BodyAsWritten | ServerApi.BodyParsed |
