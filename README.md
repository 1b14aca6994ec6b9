# mockme-next quiz client: a Dafny model

mockme-next is a Next.js client for GMAT practice. A signed-in user creates a practice
session by choosing sections, topics, a question count and a time budget. The user then
answers its questions one at a time on the quiz screen, and reviews past sessions on a
dashboard. All of these pages call a remote API through one axios instance. Two
interceptors on that instance attach the stored JWT and sign the user out on a 401.

This project models the client's local logic and proves properties about it:

- `Quiz` (app/quiz/QuizApp.tsx) models the quiz screen.
  - The component is the class `Quiz.QuizApp`, with one method per handler.
  - Each method is specified by a pure transition on `QuizState`.
  - An awaited API call becomes a `Reply` argument: the delivered value or a network error.
  - Event sequences (`Run`) carry the lemmas about the whole screen: the error screen is
    terminal, a shown result is frozen until the next fetch, and ticks accumulate.
  - The module also covers the `mm:ss` timer text and the option-letter mapping.
- `DashboardPage` (app/dashboard/Dashboard.tsx) models the sessions list:
  - loading the list, and the redirect to the session form when there is none
  - the duration text, the percentage label, the Resume rule and the section/topic label
- `SessionSetup` and `Selection` (app/create-session/CreateSession.tsx) model the session
  form: toggling a section or a topic by id, and the request body that `handleStart` sends.
- `Api` (app/utils/api.tsx) models the URL builders and the two interceptors.
  - The browser's `localStorage` and `window.location` are the class `Api.Browser`.
  - The request config is the class `Api.RequestConfig`.
- `LineBreaks`, `QuestionView` and `ResultView` (app/quiz/Question.tsx, app/quiz/Result.tsx)
  model the `<br>` segmentation both panels use.
- `Js` and `Text` hold the JavaScript operations the source relies on:
  - `Math.floor` division, the truncating `%`, number-to-string, `padStart`, `join`,
    `String.fromCharCode` and `toLowerCase`
  - reference readers used as the partners of the text formatters

Several formatters have a reference reader, and their text is proved to read back as the value:
- the timer text, for a non-negative number of seconds
- the duration text, for a non-negative duration
- the question URL, the answer URL (for an option without `&`) and the search URLs

The other texts have no reader: the quiz path after creating a session, the `Bearer` header
value, the session label, and the timer text of a negative total time.

## Model

| member | source | states |
|---|---|---|
| Quiz.Fetched | app/quiz/QuizApp.tsx:43-60 | After a fetch, loading is always false and the request URL is recorded. On success: the question is stored, the selection and result are cleared and the question timer is 0. Session info and total time are replaced only when the response carries session info. On failure: the state is unchanged except that the fetch error is set, and the error screen is shown. An existing error is never cleared. |
| Quiz.Mounted | app/quiz/QuizApp.tsx:62-73 | The mount effect fetches by session id when one is given (even if a question id is also given), otherwise by question id. With neither, the only changes are the missing-id error and clearing loading (corrected, see Findings), so the message is shown and nothing is requested. |
| Quiz.MountedAsWritten | app/quiz/QuizApp.tsx:62-73 | The mount effect as written: the same dispatch, but with neither id only the error is set. Its consequences are stated by `MissingIdHidden` and `MissingIdStuck`. |
| Quiz.QuestionShown | app/quiz/QuizApp.tsx:47-55 | The success path of a fetch: the question is stored, session info and total time are taken when present, and loading, selection, result and question timer are reset. Its properties are stated by `Fetched`. |
| Quiz.PhaseOf | app/quiz/QuizApp.tsx:123-124 | What the screen shows: "Loading..." while loading, else the error, else the question awaiting a selection (no result, lines 175-182) or the question with its result (lines 183-189). |
| Quiz.CanTick | app/quiz/QuizApp.tsx:77 | The interval runs exactly with session info, not loading, and no result. |
| Quiz.Enabled | app/quiz/QuizApp.tsx:160 | An event can happen only when its control is on screen. Options can be picked and "Next" pressed only while awaiting a selection (lines 160, 175-182). "Next Question" is possible only with a result shown. A tick needs `CanTick`. |
| Quiz.Step | app/quiz/QuizApp.tsx:62-115 | An enabled event runs its handler: mount, option click, Next, Next Question or an interval tick. An event whose control is not on screen or whose guard fails (lines 77, 160 and 175-189) leaves the state unchanged. Its consequences over event sequences are stated by `ErrorIsTerminal`, `ResultFreezesScreen`, `TicksAccumulate` and `MissingIdStuck`. |
| Quiz.Ticked | app/quiz/QuizApp.tsx:78-83 | One tick adds exactly 1 to the question timer. It subtracts 1 from the total time only when one exists. Nothing else changes, so the phase and the tick guard are preserved. |
| Quiz.Confirmed | app/quiz/QuizApp.tsx:92-107 | An empty selection changes nothing. Otherwise the answer URL for the selection and question id is requested. On success the state is unchanged except that the result is stored and loading is cleared, and the result is shown. On a failed request the only changes are the request, the submit error and clearing loading. With no question the only changes are the submit error and clearing loading, and nothing is requested. Either way the error screen is shown. |
| Quiz.NextRequested | app/quiz/QuizApp.tsx:109-115 | In a session, the result is exactly a fetch by the session's id. Outside a session, the only change is one page reload. |
| Quiz.NextQuestionShowsQuestion | app/quiz/QuizApp.tsx:109-111 | From a shown result in a session, a delivered next question brings the screen back to awaiting a selection. The new question is shown with no selection and no result, the question timer is 0, and the request is by the session id. |
| Quiz.OptionLetter | app/quiz/QuizApp.tsx:143 | Row i's letter has code point 65 + i, so the first 26 rows get A to Z. |
| Quiz.CorrectRow | app/quiz/QuizApp.tsx:143-144 | Among the first 26 rows, a row is marked correct exactly when a result exists and its answer is that row's upper-case letter. At most one row is marked correct. |
| Quiz.SelectedRow | app/quiz/QuizApp.tsx:143-145 | Choosing row i checks row j (the lower-case letter comparison) exactly when i = j. So distinct rows have distinct letters. |
| Quiz.IsCorrect | app/quiz/QuizApp.tsx:144 | A row is marked correct exactly when a result exists and its answer is the row's upper-case letter. Its properties are stated by `CorrectRow`. |
| Quiz.IsSelected | app/quiz/QuizApp.tsx:145 | A row is checked exactly when the selection equals the row's letter in lower case. Its properties are stated by `SelectedRow`. |
| Quiz.ErrorIsTerminal | app/quiz/QuizApp.tsx:56-59 | From the error screen, every sequence of events keeps an error set and stays on the error screen. No handler resets the error. |
| Quiz.ResultFreezesScreen | app/quiz/QuizApp.tsx:160 | With a result shown, no sequence of events other than a fetch changes anything. The options are disabled, the Next button is hidden (lines 175-182) and the timer is stopped. |
| Quiz.TicksAccumulate | app/quiz/QuizApp.tsx:75-86 | n ticks of a running timer add n to the question timer and take n from the total time when it exists. Nothing else changes. |
| Quiz.FormatTime | app/quiz/QuizApp.tsx:117-121 | `formatTime`: floor of seconds/60 and the truncating remainder, each padded to two digits, joined by a colon. Its properties are stated by `FormatTimeWidth` and `FormatTimeReadBack`. |
| Quiz.TwoDigits | app/quiz/QuizApp.tsx:120 | `toString().padStart(2, '0')`. Its properties are stated by `TwoDigitsReadBack` and `TwoDigitsWidth`. |
| Quiz.TwoDigitsReadBack | app/quiz/QuizApp.tsx:120 | A non-negative number padded to two digits reads back as the number, and contains no colon. |
| Quiz.TwoDigitsWidth | app/quiz/QuizApp.tsx:120 | Below 100, the padded number is exactly two characters long. |
| Quiz.ReadTimeParts | app/quiz/QuizApp.tsx:117-121 | The `mm:ss` reader accepts two digit strings joined by a colon exactly when the seconds are below 60, and then reads minutes·60 + seconds. |
| Quiz.FormatTimeWidth | app/quiz/QuizApp.tsx:117-121 | Below 6000 seconds the timer text is five characters, with the colon at index 2. |
| Quiz.FormatTimeReadBack | app/quiz/QuizApp.tsx:117-121 | For s ≥ 0 the timer text reads back as minutes·60 + seconds = s, through a reader that refuses a seconds field of 60 or more. |
| Quiz.MissingIdHidden | app/quiz/QuizApp.tsx:70-72 | As written, mounting without either id sets the message but the screen stays in its Loading phase. |
| Quiz.MissingIdStuck | app/quiz/QuizApp.tsx:123 | A screen that is loading does not change under any sequence of events without a mount. So the hidden message is never shown. |
| Quiz.MissingIdShown | app/quiz/QuizApp.tsx:70-72 | With the correction, mounting without either id shows the missing-id message. |
| Quiz.QuizApp.constructor | app/quiz/QuizApp.tsx:32-39 | The initial state: no question, empty selection, no result, loading, no error, no session, question timer 0, no total time. |
| Quiz.QuizApp.FetchQuestion | app/quiz/QuizApp.tsx:43-60 | Updates the fields to `Fetched` of the old state. |
| Quiz.QuizApp.ShowQuestion | app/quiz/QuizApp.tsx:47-55 | The success path of `fetchQuestion`: updates the fields to `QuestionShown` of the old state. |
| Quiz.QuizApp.Mount | app/quiz/QuizApp.tsx:62-73 | Updates the fields to the mount step (the corrected `Mounted`). |
| Quiz.QuizApp.HandleOptionSelect | app/quiz/QuizApp.tsx:88-90 | The selection becomes the lower-case letter of the clicked row. The click is possible only while awaiting a selection (line 160). |
| Quiz.QuizApp.HandleConfirm | app/quiz/QuizApp.tsx:92-107 | Updates the fields to `Confirmed` of the old state. |
| Quiz.QuizApp.HandleNextQuestion | app/quiz/QuizApp.tsx:109-115 | Updates the fields to `NextRequested` of the old state. |
| Quiz.QuizApp.Tick | app/quiz/QuizApp.tsx:77-83 | Only under the interval's guard (session, not loading, no result), and updates the fields to `Ticked`. |
| DashboardPage.Hours | app/dashboard/Dashboard.tsx:62 | `Math.floor(duration / 3600)`. Its bounds are stated by `DurationBreakdown`. |
| DashboardPage.Minutes | app/dashboard/Dashboard.tsx:63 | `Math.floor((duration % 3600) / 60)`, with the truncating `%`. Its bounds are stated by `DurationBreakdown`. |
| DashboardPage.DurationBreakdown | app/dashboard/Dashboard.tsx:62-63 | For d ≥ 0: hours ≥ 0 and minutes < 60. Also 3600·h + 60·m ≤ d < 3600·h + 60·m + 60, so 60·h + m is d div 60. |
| DashboardPage.FormatDuration | app/dashboard/Dashboard.tsx:60-66 | The text is "Untimed" exactly for a missing duration. |
| DashboardPage.FormatDurationReadBack | app/dashboard/Dashboard.tsx:62-65 | For d ≥ 0 the text, `<m>mins` or `<h>h <m>mins`, reads back as d div 60 minutes. |
| DashboardPage.PercentCorrect | app/dashboard/Dashboard.tsx:68-71 | "Unlimited" exactly when nothing was attempted. Otherwise the percentage is of correct over a non-zero attempted count. |
| DashboardPage.ResumeHiddenWhenFinished | app/dashboard/Dashboard.tsx:119 | Resume is hidden exactly when attempted = question count ≠ 0. Such a session always shows a percentage. |
| DashboardPage.SessionLabel | app/dashboard/Dashboard.tsx:97-99 | Empty with neither list. With one list, that list joined by " / ". With both lists, the sections joined, " / ", then the topics joined, even when either list is empty. |
| DashboardPage.ShowResume | app/dashboard/Dashboard.tsx:119 | The Resume button is shown exactly when nothing was attempted or the attempted count differs from the question count. |
| DashboardPage.LabelIsOneList | app/dashboard/Dashboard.tsx:97-99 | With both lists non-empty, the label is the sections then the topics joined by " / " as one list. A present but empty section list still adds the separator. |
| DashboardPage.Redirected | app/dashboard/Dashboard.tsx:29-33 | Records a navigation to /create-session exactly when loading is over and the list is empty. Nothing else changes. |
| DashboardPage.SessionsFetched | app/dashboard/Dashboard.tsx:35-50 | Loading is false after every outcome. A list replaces the sessions. Anything else (a non-array body or a failure) keeps the sessions and sets the error. Then the redirect rule applies. |
| DashboardPage.FirstLoadRedirect | app/dashboard/Dashboard.tsx:25-50 | On the first load, the page goes to /create-session exactly when it did not receive a non-empty list, failures included. |
| DashboardPage.Dashboard.constructor | app/dashboard/Dashboard.tsx:20-22 | The page starts with no sessions, loading, and no error. |
| DashboardPage.Dashboard.RedirectIfEmpty | app/dashboard/Dashboard.tsx:29-33 | Updates the page to `Redirected` of the old state. |
| DashboardPage.Dashboard.FetchSessions | app/dashboard/Dashboard.tsx:35-50 | Updates the page to `SessionsFetched` of the old state. |
| Selection.HasKey | app/create-session/CreateSession.tsx:75 | True exactly when some entry has the key. |
| Selection.Without | app/create-session/CreateSession.tsx:77 | The `filter` at lines 77 and 86: no entry of the key remains, and the result is no longer than the selection. Counts, members and order are stated by `WithoutCounts`, `WithoutMembers` and `WithoutKeepsOrder`. |
| Selection.Toggle | app/create-session/CreateSession.tsx:74-81 | The key's presence flips. If the key was present, the result is the filter of the selection by that key: a subsequence that holds every entry of another key as often as before, and no entry of the key. If absent, the item is appended at the end. |
| Selection.WithoutCounts | app/create-session/CreateSession.tsx:77 | The filter keeps each entry of another key as many times as it occurs, and drops every entry of the key. |
| Selection.WithoutMembers | app/create-session/CreateSession.tsx:77 | The filter keeps exactly the entries whose key differs. |
| Selection.WithoutKeepsOrder | app/create-session/CreateSession.tsx:77 | The filter's result is a subsequence of the selection, so the order is kept. |
| Selection.ToggleTwice | app/create-session/CreateSession.tsx:74-81 | Toggling an absent item twice gives back the original selection. |
| Selection.ToggleKeepsKeysUnique | app/create-session/CreateSession.tsx:74-81 | A selection without duplicate ids has none after a toggle. |
| Selection.Keys | app/create-session/CreateSession.tsx:95-96 | The ids of the selection, in selection order, one per entry. |
| SessionSetup.BuildRequest | app/create-session/CreateSession.tsx:94-99 | topic_ids and section_ids list the selected ids in order. number_of_questions is present exactly for the manual option and is then the manual count. duration_seconds is present exactly for the manual duration and is then hours·3600 + minutes·60. |
| SessionSetup.DurationShownBack | app/create-session/CreateSession.tsx:98 | For hours ≥ 0 and 0 ≤ minutes ≤ 59, the duration sent breaks back down into those hours and minutes. An unlimited session shows as "Untimed" on the dashboard. |
| SessionSetup.CreateSession.constructor | app/create-session/CreateSession.tsx:22-28 | The form starts with empty selections, all questions, count 1, unlimited time, 1 hour and 0 minutes. |
| SessionSetup.CreateSession.HandleSectionSelect | app/create-session/CreateSession.tsx:74-81 | The section selection becomes its toggle by section id. |
| SessionSetup.CreateSession.HandleTopicSelect | app/create-session/CreateSession.tsx:83-90 | The topic selection becomes its toggle by topic id. |
| SessionSetup.CreateSession.SetQuestionOption | app/create-session/CreateSession.tsx:196 | The question-count option becomes the chosen radio value. Nothing else in the form changes. |
| SessionSetup.CreateSession.SetManualQuestionCount | app/create-session/CreateSession.tsx:227 | The manual question count becomes the parsed input. |
| SessionSetup.CreateSession.SetDurationOption | app/create-session/CreateSession.tsx:241 | The duration option becomes the chosen radio value. |
| SessionSetup.CreateSession.SetHours | app/create-session/CreateSession.tsx:263 | The hours become the parsed input. |
| SessionSetup.CreateSession.SetMinutes | app/create-session/CreateSession.tsx:272 | The minutes become the parsed input. |
| SessionSetup.QuizPath | app/create-session/CreateSession.tsx:102 | The page pushed after a session is created: `/quiz?session_id=` followed by the new id. |
| SessionSetup.CreateSession.HandleStart | app/create-session/CreateSession.tsx:92-106 | The request built from the form is sent. On success the app navigates to the new session's quiz. On failure it stays. |
| Api.QuestionUrl | app/utils/api.tsx:48-53 | `getQuestion`'s URL: the bare path, plus `?session_id=` or `?question_id=` by `Target`. It reads back by `QuestionUrlReadBack`. |
| Api.AnswerUrl | app/utils/api.tsx:64 | `submitAnswer`'s URL, with the option and question id pasted in unescaped. It reads back by `AnswerUrlReadBack`. |
| Api.SearchUrl | app/utils/api.tsx:108 | A catalogue path, followed by `?<key>=<term>` only for a non-empty term. It reads back by `SearchUrlReadBack`; line 119 uses it for topics. |
| Api.IsUnauthorized | app/utils/api.tsx:31 | The error has a response body whose `code` is the number 401. |
| Api.Target | app/utils/api.tsx:48-53 | A truthy session id wins over the question id. The question id is used only when it is the only one given. Otherwise the request has no query. |
| Api.HasToken | app/utils/api.tsx:12-14 | A window exists and a non-empty `jwt_token` is stored. It is the condition `Authorized` states its header for. |
| Api.QuestionUrlReadBack | app/utils/api.tsx:48-53 | The question URL reads back as the target it was built for. |
| Api.AnswerUrlReadBack | app/utils/api.tsx:64 | For an option without `&`, the answer URL reads back as the option and the question id. |
| Api.SearchUrlReadBack | app/utils/api.tsx:108 | A search URL reads back as its term, with no escaping. |
| Api.SectionsUrl | app/utils/api.tsx:108 | The bare sections path exactly for the empty term. Otherwise `?search_section=<term>`, which reads back as the term. |
| Api.TopicsUrl | app/utils/api.tsx:119 | The bare topics path exactly for the empty term. Otherwise `?search_topic=<term>`, which reads back as the term. |
| Api.Authorized | app/utils/api.tsx:12-18 | `Authorization` is set to "Bearer " + token exactly when a window exists, a non-empty token is stored under jwt_token and the config has headers. Every other header is kept. Otherwise the headers are unchanged. |
| Api.AuthorizedIdempotent | app/utils/api.tsx:10-19 | Running the request interceptor twice is the same as running it once. |
| Api.AfterError | app/utils/api.tsx:30-38 | With a window and a body whose code is 401, the token is removed, the location becomes "/", and the other stored keys are kept. Any other error leaves the browser unchanged. |
| Api.EvictionStopsAuthorization | app/utils/api.tsx:12-18 | After a 401 eviction, the request interceptor no longer adds an Authorization header. |
| Api.EvictionIdempotent | app/utils/api.tsx:30-38 | Handling the same error twice is the same as handling it once. |
| Api.Browser.InterceptError | app/utils/api.tsx:30-38 | The error is re-rejected unchanged, and the browser becomes `AfterError` of its old state. |
| Api.InterceptRequest | app/utils/api.tsx:10-19 | The same config object is returned, with its headers updated to `Authorized`. |
| LineBreaks.Split | app/quiz/Question.tsx:14 | The split always has at least one segment. |
| LineBreaks.SplitReassembles | app/quiz/Question.tsx:14 | There is one more segment than matched delimiters, and every delimiter is a `<br>` in some letter case. Interleaving the segments with the delimiters gives the text back exactly. |
| LineBreaks.SegmentsBreakFree | app/quiz/Question.tsx:14 | No segment contains a `<br>` in any letter case. |
| LineBreaks.SingleSegmentIffBreakFree | app/quiz/Question.tsx:14 | The split is the single segment [text] exactly when the text has no `<br>`. |
| LineBreaks.JoinRestoresText | app/quiz/Question.tsx:14-15 | Joining the segments with `<br>` gives the text up to the letter case of the delimiters. It gives the text exactly when every delimiter was lower case. |
| LineBreaks.RenderLines | app/quiz/Question.tsx:15-20 | One fragment per segment, with a line break after every segment but the last. Its shape is stated by `RenderLinesShape`. |
| LineBreaks.RenderLinesShape | app/quiz/Question.tsx:13-21 | One fragment per segment, in order. There is exactly one line break per `<br>` in the text, one fewer than the segments. A text with no `<br>` is one fragment with no break. |
| QuestionView.Render | app/quiz/Question.tsx:10-27 | Nothing for a missing question. Otherwise the question text's segments in order, with a break between consecutive segments only. |
| ResultView.Render | app/quiz/Result.tsx:19-39 | Nothing for a missing result. Otherwise the solution text's segments in order, with a break between consecutive segments only. |
| Js.FloorDiv | app/quiz/QuizApp.tsx:118 | `Math.floor(a / b)` for b > 0: the q with q·b ≤ a < q·b + b. |
| Js.Rem | app/quiz/QuizApp.tsx:119 | JavaScript's `%` for b > 0 truncates. The result is in [0, b) for a ≥ 0, where it is a − floor(a/b)·b. For a < 0 it is −((−a) − floor(−a/b)·b), the negative of the remainder of −a, in (−b, 0]. |
| Js.PadStart | app/quiz/QuizApp.tsx:120 | The text has at least the width, ends with the original, and is filled on the left with the fill character. |
| Js.NatToString | app/dashboard/Dashboard.tsx:64 | Decimal digits with no leading zero, one digit exactly below 10. |
| Js.IntToString | app/quiz/QuizApp.tsx:120 | An integer's `toString()`, also used by the template strings at Dashboard.tsx:64-65 and CreateSession.tsx:102. At least one character; only digits for a non-negative number; a minus sign then digits for a negative one, which is what the timer shows for a negative total. |
| Js.Join | app/dashboard/Dashboard.tsx:97-99 | `join`: the empty text for no entries, the entry itself for one. Longer lists are stated by `JoinAppend`. |
| Js.FromCharCode | app/quiz/QuizApp.tsx:143 | `String.fromCharCode` on an ASCII code gives the character with that code point. |
| Js.ToLower | app/quiz/QuizApp.tsx:145 | `toLowerCase` on an ASCII character maps an upper-case letter to the lower-case letter 32 code points above it and keeps every other character. |
| Js.JoinAppend | app/dashboard/Dashboard.tsx:97-99 | Joining two non-empty lists is joining each and putting the separator between them. |
| Text.ReadNatToString | app/dashboard/Dashboard.tsx:64-65 | A natural number's decimal text reads back as the number. |
| Text.ZeroPadding | app/quiz/QuizApp.tsx:120 | Left zero padding does not change the number a digit string reads as. |

## Left out

- Network I/O: the axios instance, the HTTP round-trips and the parsing of response bodies are not modelled. Every awaited call is a `Reply` argument, either the delivered value or a failure. The success side of the response interceptor is the identity, so it is not modelled.
- `console.error` logging is not modelled.
- `alert('Please select an option')` is not modelled; `Quiz.Confirmed` leaves the state as it is.
- Timing: the one-second `setInterval`, `clearInterval` and effect re-subscription are not modelled. The interval body is the discrete `Tick` event, possible only under the interval's guard.
- Time limits: the model lets the total time go below zero, because the source never stops a session when it runs out.
- Errors and ticks: the timer guard does not look at `error`. The model keeps that, so ticks go on behind the error screen.
- Quiz.OptionLetter: covers only rows 0 to 62, whose code points 65 to 127 are ASCII. Rows beyond that are not modelled, nor is `String.fromCharCode` wrapping at 2^16. Letter uniqueness is proved only for the first 26 rows.
- The page reload in `handleNextQuestion` is a counter, `reloads`. Losing the page state on reload is not modelled.
- Router navigation is a list of recorded target paths. `handleStartNewSession` and `handleResumeSession` are one-line navigations and are not modelled.
- DashboardPage.PercentCorrect: the two-decimal percentage text, `((correct / attempted) * 100).toFixed(2)`, is floating point and is not modelled. Only the "Unlimited" branch and its condition are.
- DashboardPage.FormatDuration: a negative duration is formatted as the source would, but the read-back is proved only for non-negative durations.
- The `createdAt` date, formatted with `moment`, is not modelled.
- MathJax typesetting, the JSX markup and the CSS classes are not modelled. A fragment keeps its segment's text.
- The session form's section and topic lists (`fetchSections`, `fetchTopics`), the search inputs, the dropdown visibility and the click-outside handler are not modelled. The URLs they request are `Api.SectionsUrl` and `Api.TopicsUrl`.
- `parseInt` on the number inputs, and its NaN cases, are not modelled. `SetManualQuestionCount`, `SetHours` and `SetMinutes` take values that are already parsed.
- SessionSetup.DurationShownBack: assumes the input bounds (hours from 0, minutes 0 to 59). The browser does not enforce these bounds on typed values, so the form can send other values.
- Api.AnswerUrlReadBack: assumes an option without `&`, since the URL is built without escaping. Options are the letters a to z in practice.
- `signUp`, `updateUserDetails`, `fetchUserData`, `createSession` and `getSessions` are single fixed-URL calls and are not modelled.
- The sign-in page (Google Identity script and button) and the profile modal are third-party and form glue, so they are not modelled.
- `app/layout.tsx`, `tailwind.config.ts` and `next.config.js` are static configuration and are not modelled.

## Findings

| source | as written | input that shows it | evidently intended | confidence | as-written member | corrected member |
|---|---|---|---|---|---|---|
| app/quiz/QuizApp.tsx:70-72 | With neither id in the URL, the effect sets the error but leaves `loading` at its initial `true`. The `if (loading)` early return at line 123 then keeps "Loading..." on screen, so the message is never shown. | Opening `/quiz` with no `session_id` and no `question_id` | Show "No session ID or question ID provided", i.e. also clear `loading` | not executed | Quiz.MissingIdHidden | Quiz.MissingIdShown |
