# Equipment-monitoring console front end: page logic in Dafny

This project models the logic of the administrative console's pages: login,
the notice board, the device list, device detail and registration, and the
user profile. The pages keep mock data in component state. Their only logic
is this:

- the notice board's four-part search filter, its ten-per-page pagination
  and its selection of a notice from the `id` URL parameter;
- the two-step device registration wizard, with its required-field checks
  and a per-field error map;
- the CSV text of the device-list export, and the status labels;
- the two on/off control switches of the device detail page;
- the profile and password forms, and the password confirmation check;
- the login form's "both fields filled in" check.

Each page is a Dafny module of immutable datatypes and pure functions. Event
handlers are step functions. They return the new state and the browser
effects the handler asks for, in order (`Ui.Effect`: `Navigate(path)` for
`router.push`, `Alert(message)` for `alert`, `Download(content)` for the
file the export hands to the browser). Two shared modules hold the
helpers:

- `Ui`: `Option`, `Effect`, and `NoNavigation` (no effect leaves the page);
- `Text`: JavaScript's `includes`, `trim`, `join`, `split` with a
  one-character separator, and printing an integer.

| file | module | page |
|---|---|---|
| ui.dfy | Ui | shared |
| text.dfy | Text | shared |
| notice_filter.dfy | NoticeFilter | notice/page.tsx, search filter |
| notice_pagination.dfy | NoticePagination | notice/page.tsx, pagination |
| notice_page.dfy | NoticePage | notice/page.tsx, page state and events |
| device_register.dfy | DeviceRegister | device/register/page.tsx |
| device_list.dfy | DeviceList | device/page.tsx |
| device_detail.dfy | DeviceDetail | device/detail/page.tsx |
| my_page.dfy | MyPage | mypage/page.tsx |
| login.dfy | Login | login/page.tsx |

Modelling choices:

- Browser functions become parameters of the notice page (`NoticePage.Env`):
  - `lower: string -> string` stands for `toLowerCase`.
  - `parseInt: string -> Option<int>` stands for `parseInt`. `None` is NaN.
- Dates are `Date(year, month, day)` triples, compared lexicographically.
  The page parses notice dates and date-input values to midnight UTC, so
  comparing the instants compares the days.
- An empty date input is `None`.
- The `id` URL parameter is an `Option<string>`. The empty string is falsy in
  JavaScript, so it clears the selection just as a missing parameter does.
- The page state holds only what user events can change. The notice list and
  the device list are fixed inputs.
- An event from a control that is not on screen cannot happen, and the step
  functions leave the state unchanged for it. Four examples:
  - the pagination is drawn only when there are two or more pages;
  - the search form and list are hidden while a notice is open;
  - the wizard's inputs exist only in step 1, and its submit button only in
    step 2;
  - the login form's two inputs are `required` and the form has no
    `novalidate`, so the browser submits it, and runs `handleSubmit`, only
    when both are non-empty (`Login.PressLogin`).
- The profile form's field type has the five fields that some input passes
  to `handleUserInfoChange`. The company code input is read-only and has no
  handler.

## Model

| member | source | states |
|---|---|---|
| Text.IncludesIffOccurs | frontend/src/app/notice/page.tsx:98-109 | `includes`, as used by the keyword and author tests, holds exactly when the needle occurs at some position of the haystack |
| Text.Trim | frontend/src/app/device/register/page.tsx:52-74 | the trimmed string is the block of the input left after a whitespace-only prefix and a whitespace-only suffix; it is empty exactly when every character is JavaScript whitespace, and otherwise starts and ends with a non-whitespace character |
| Text.TrimStart | frontend/src/app/device/register/page.tsx:52 | the result is the suffix of the input after its leading whitespace, and it does not start with whitespace |
| Text.TrimEnd | frontend/src/app/device/register/page.tsx:52 | the result is the prefix of the input before its trailing whitespace, and it does not end with whitespace |
| Text.BlankIffAllWhitespace | frontend/src/app/device/register/page.tsx:52-74 | `!s.trim()` holds exactly for all-whitespace strings, including the empty string; one visible character makes a field non-blank |
| Text.SplitJoin | frontend/src/app/device/page.tsx:85-88 | splitting at the separator recovers the joined parts when no part contains the separator |
| Text.JoinSplit | frontend/src/app/device/page.tsx:85-88 | joining the pieces of a split with the separator gives back the original string |
| Text.JoinPartWithSeparator | frontend/src/app/device/page.tsx:87 | a part containing the separator joins to the same text as its two halves given as separate parts |
| Text.JoinAvoids | frontend/src/app/device/page.tsx:85-88 | a character in neither the separator nor any part is not in the joined text |
| Text.DecimalRoundTrip | frontend/src/app/device/page.tsx:81 | the printed digits of the data count read back as the same number, so printing is injective |
| Text.IntToDecimal | frontend/src/app/device/page.tsx:81 | a printed count is a minus sign exactly for negative numbers, followed by decimal digits whose value is the count's magnitude, with no leading zero unless the magnitude is 0 |
| NoticeFilter.DateLeIsTotalOrder | frontend/src/app/notice/page.tsx:114-128 | the day order is reflexive, antisymmetric, transitive and total, so "between start and end" is an interval |
| NoticeFilter.MatchesDateRange | frontend/src/app/notice/page.tsx:111-130 | the date test is inclusive at both ends, a missing bound does not constrain, and no bounds admits every date |
| NoticeFilter.FilterNotices | frontend/src/app/notice/page.tsx:97-137 | the filtered list is no longer than the list, holds only notices that pass all four tests, and holds every notice that does |
| NoticeFilter.FilterCounts | frontend/src/app/notice/page.tsx:97-137 | a notice that passes appears in the filtered list exactly as many times as in the list; one that fails never appears |
| NoticeFilter.FilterAppend | frontend/src/app/notice/page.tsx:97-137 | filtering a concatenation is concatenating the filtered parts, so filtering works notice by notice |
| NoticeFilter.FilterIsSubsequence | frontend/src/app/notice/page.tsx:97-137 | the filtered list keeps the notices' original relative order |
| NoticeFilter.DefaultFiltersKeepAll | frontend/src/app/notice/page.tsx:88-137 | with the initial form (empty keyword, author and dates, important-only off) every notice is kept |
| NoticeFilter.KeptNoticeSatisfiesEveryTest | frontend/src/app/notice/page.tsx:98-135 | a kept notice contains the keyword case-insensitively in title or content, contains the author filter, lies within the given date bounds, and is important when important-only is on |
| NoticeFilter.FilterIdempotent | frontend/src/app/notice/page.tsx:97-137 | filtering the filtered list again with the same form changes nothing |
| NoticePagination.TotalPages | frontend/src/app/notice/page.tsx:146 | the page count is the ceiling of n/10: the fewest pages of ten that hold n notices, zero only for an empty list |
| NoticePagination.CurrentPage | frontend/src/app/notice/page.tsx:140-145 | page p (p >= 1) shows `filtered[(p-1)*10 .. min(p*10, n))`, nothing past the end, and never more than ten notices |
| NoticePagination.PagesUpToIsPrefix | frontend/src/app/notice/page.tsx:140-146 | pages 1 to k together are the first min(10k, n) filtered notices |
| NoticePagination.PagesCoverList | frontend/src/app/notice/page.tsx:140-146 | pages 1 to totalPages together are exactly the filtered list, in order |
| NoticePagination.NoticeOnItsPage | frontend/src/app/notice/page.tsx:140-146 | the i-th filtered notice appears on existing page i/10+1 at row i mod 10 |
| NoticePagination.PrevPage | frontend/src/app/notice/page.tsx:471-472 | "previous" never goes below 1, moves back at most one page, and does nothing only on page 1 |
| NoticePagination.NextPage | frontend/src/app/notice/page.tsx:495-498 | "next" never goes past totalPages, moves forward at most one page, and does nothing only on the last page |
| NoticePage.ApplyEdit | frontend/src/app/notice/page.tsx:201-207 | a filter change sets the named field and leaves the other four untouched |
| NoticePage.EditsCommuteOrOverwrite | frontend/src/app/notice/page.tsx:201-207 | changes to different filter fields commute; of two changes to one field the later wins |
| NoticePage.FindIndex | frontend/src/app/notice/page.tsx:168 | `find` returns the first notice with the id, and nothing exactly when no notice has it |
| NoticePage.SelectFromUrl | frontend/src/app/notice/page.tsx:165-176 | a missing or empty id clears the selection; a known id selects the first notice in the list with that id; an unknown or non-numeric id leaves the selection unchanged |
| NoticePage.Step | frontend/src/app/notice/page.tsx:148-223 | filter changes, search and reset return to page 1 and keep the selection; reset restores the initial form; "previous", "next" and a page button set the page (lines 467-498) and nothing else; opening a notice selects it and keeps page and form; only "back to list" navigates, to /notice, clearing the selection; an `id` change sets the selection as `SelectFromUrl` says; events of hidden controls change nothing |
| NoticePage.StepPreservesInvariant | frontend/src/app/notice/page.tsx:467-498 | every event keeps the page number between 1 and max(1, totalPages), and keeps the selected notice one of the notices |
| NoticePage.InitialSatisfiesInvariant | frontend/src/app/notice/page.tsx:83-94 | the page opens on page 1 with no selection and the initial form |
| NoticePage.RunPreservesInvariant | frontend/src/app/notice/page.tsx:467-498 | after any sequence of events the page number still names an existing page (or is 1) |
| NoticePage.ResetShowsAllNotices | frontend/src/app/notice/page.tsx:214-223 | after reset the list shows every notice again, from page 1 |
| DeviceRegister.RecordBlanksExact | frontend/src/app/device/register/page.tsx:50-75 | running the checks adds an entry, with the field's message, for exactly the checked fields that are blank |
| DeviceRegister.CheckOrderCoversEveryField | frontend/src/app/device/register/page.tsx:52-74 | the validation checks all six fields |
| DeviceRegister.ValidateStep1 | frontend/src/app/device/register/page.tsx:49-78 | the error map has an entry exactly for the blank fields, each with its own message; validation passes exactly when all six fields are non-blank |
| DeviceRegister.InputChange | frontend/src/app/device/register/page.tsx:33-46 | typing sets only the named field; that field's error, if showing, becomes "", and the other errors are untouched |
| DeviceRegister.Next | frontend/src/app/device/register/page.tsx:80-89 | from step 1 the wizard moves to step 2 exactly when validation passes, and records the new errors either way; at step 2 it is a no-op; the form never changes |
| DeviceRegister.Prev | frontend/src/app/device/register/page.tsx:91-95 | from step 2 the wizard returns to step 1; at step 1 it is a no-op; the form and errors never change |
| DeviceRegister.NextThenPrev | frontend/src/app/device/register/page.tsx:80-95 | going forward from a valid step 1 and back returns to step 1 with the same form and no errors; from an invalid step 1 the wizard stays at step 1, form unchanged, with errors showing |
| DeviceRegister.Submit | frontend/src/app/device/register/page.tsx:97-101 | submitting shows the success alert and then goes to /device |
| DeviceRegister.Step | frontend/src/app/device/register/page.tsx:33-105 | a submission can only come from step 2, the only step whose rendering has the submit button, and there gives the success alert and the device list without changing state; cancel from either step goes to the device list; no other event has an effect; an input at step 1 is `handleInputChange` and at step 2 (no inputs rendered, lines 507-508) changes nothing; "다음" is `handleNext` at step 1 and a no-op at step 2, "이전" is `handlePrev` at step 2 and a no-op at step 1 |
| DeviceRegister.StepPreservesInvariant | frontend/src/app/device/register/page.tsx:80-95 | every event keeps the step in {1, 2} and keeps the form valid while at step 2 |
| DeviceRegister.RunPreservesInvariant | frontend/src/app/device/register/page.tsx:80-95 | after any sequence of events the invariant still holds |
| DeviceRegister.RunAppend | frontend/src/app/device/register/page.tsx:33-105 | running two event sequences one after the other is running their concatenation |
| DeviceRegister.FillFieldsSetsForm | frontend/src/app/device/register/page.tsx:33-46 | at step 1, typing values into a list of inputs stays at step 1, sets each listed field to its value and leaves every other field as it was |
| DeviceRegister.FillAllFields | frontend/src/app/device/register/page.tsx:33-46 | typing a value into every input at step 1 gives exactly that form, still at step 1 |
| DeviceRegister.ValidatedFormReachesStepTwo | frontend/src/app/device/register/page.tsx:49-89 | "다음" on a step-1 form with no blank field moves to step 2, keeps the form and leaves no error showing |
| DeviceRegister.FillThenNext | frontend/src/app/device/register/page.tsx:33-89 | from step 1, typing non-blank values into every input and pressing "다음" reaches step 2 with exactly those values and no error |
| DeviceRegister.StepTwoReachable | frontend/src/app/device/register/page.tsx:20-89 | from the empty initial wizard, filling the six inputs with non-blank values and pressing "다음" reaches step 2 with exactly that form and no error, so the submit step is reachable |
| DeviceRegister.ReachableStatesAreValid | frontend/src/app/device/register/page.tsx:49-101 | every reachable state is at step 1 or 2, and every submitted form has six non-blank fields |
| DeviceList.StatusTextDistinguishesStatuses | frontend/src/app/device/page.tsx:147-158 | normal, warning and error get distinct labels (정상, 이상, 오류) from which the status is recovered; any other string gets 알 수 없음 |
| DeviceList.StatusColorMatchesText | frontend/src/app/device/page.tsx:134-158 | two statuses get the same badge classes exactly when they get the same label, so there are four distinct class strings |
| DeviceList.FilterChange | frontend/src/app/device/page.tsx:61-66 | a filter change sets only the named filter |
| DeviceList.ResetFilters | frontend/src/app/device/page.tsx:120-127 | reset sets all four filters to "" |
| DeviceList.FiltersDoNotChangeTable | frontend/src/app/device/page.tsx:306 | the table shows the whole device list, in order, whatever the filters hold |
| DeviceList.Step | frontend/src/app/device/page.tsx:61-132 | search and register leave the filters unchanged and show exactly one alert each, never navigating; export leaves the filters unchanged and hands over one download whose text is a byte-order mark followed by the CSV content; filter inputs and reset change the form without any effect |
| DeviceList.RunNeverNavigates | frontend/src/app/device/page.tsx:61-132 | no sequence of events on the device list leaves the page, and each event gives at most one effect |
| DeviceList.ButtonsKeepFilters | frontend/src/app/device/page.tsx:68-132 | any sequence of search, register and export presses leaves the filter form as it was, with one effect per press |
| DeviceList.RowCells | frontend/src/app/device/page.tsx:72-82 | a device yields eight cells, as many as there are column titles |
| DeviceList.RowLines | frontend/src/app/device/page.tsx:87 | there is one line per device, in list order, each its cells joined by commas |
| DeviceList.CsvStartsWithHeader | frontend/src/app/device/page.tsx:85-92 | the text begins with exactly one byte-order mark and then the header line, even for an empty list |
| DeviceList.PlainDecimal | frontend/src/app/device/page.tsx:81 | a printed data count never contains a comma or a line break |
| DeviceList.HeaderLineCells | frontend/src/app/device/page.tsx:72-86 | the header line splits back into the eight column titles and has no line break |
| DeviceList.PlainCellsLine | frontend/src/app/device/page.tsx:73-87 | one or more cells without commas or line breaks, joined by commas, split back into the same cells and the line has no line break |
| DeviceList.RowLineCells | frontend/src/app/device/page.tsx:73-87 | if no field has a comma or line break, the device's line splits back into its eight cells |
| DeviceList.CsvLines | frontend/src/app/device/page.tsx:85-88 | if no field has a comma or line break, the text has n+1 lines: the header, then device i's eight cells on line i+1 |
| DeviceList.CommaInLocationAddsCell | frontend/src/app/device/page.tsx:87 | fields are not quoted, so a location holding one comma splits into two cells and the line has nine cells instead of eight |
| DeviceDetail.Toggle | frontend/src/app/device/detail/page.tsx:81-86 | a toggle negates the named switch and leaves the other one unchanged |
| DeviceDetail.ToggleInvolutionAndCommute | frontend/src/app/device/detail/page.tsx:81-86 | toggling one switch twice restores the state, and toggles commute |
| DeviceDetail.ToggleAllParity | frontend/src/app/device/detail/page.tsx:81-86 | after any clicks, a switch is on exactly when its initial state and the parity of its clicks say so |
| DeviceDetail.SwitchLabel | frontend/src/app/device/detail/page.tsx:179-209 | a switch shows "ON" exactly when it is on, "OFF" otherwise |
| DeviceDetail.InitialSwitchLabels | frontend/src/app/device/detail/page.tsx:36-39 | the page opens with the nano-bubble switch showing ON and the ozone switch showing OFF |
| DeviceDetail.DeviceIdFromParam | frontend/src/app/device/detail/page.tsx:24 | the device id is the `id` parameter, or NB-001 when that is missing or empty |
| MyPage.ChangeUserInfo | frontend/src/app/mypage/page.tsx:26-31 | a profile change sets only the named field and never the company code |
| MyPage.UneditedFieldKept | frontend/src/app/mypage/page.tsx:10-31 | after any edits the company code keeps its value, and so does every field no edit names |
| MyPage.LastEditWins | frontend/src/app/mypage/page.tsx:26-31 | an edit that no later edit of the same field overrides decides that field's final value |
| MyPage.UserEditsOutcome | frontend/src/app/mypage/page.tsx:10-31 | after any edits the company code keeps its value; each edited field holds its last edit, and unedited fields keep theirs |
| MyPage.Step | frontend/src/app/mypage/page.tsx:26-53 | saving leaves both forms unchanged and shows exactly the saved alert; a password submission leaves both forms unchanged, password fields included, and shows the check's alert; inputs change their form and show nothing; no event navigates |
| MyPage.RunKeepsCompanyCodeAndOnlyAlerts | frontend/src/app/mypage/page.tsx:9-53 | after any events the company code is still NESICS_001, and every effect is an alert, so the page never navigates |
| MyPage.ButtonsKeepForms | frontend/src/app/mypage/page.tsx:41-53 | any sequence of save and password-change presses leaves both forms as they were, with one alert per press |
| MyPage.ChangePassword | frontend/src/app/mypage/page.tsx:33-38 | a password-form change sets only the named field |
| MyPage.SubmitPassword | frontend/src/app/mypage/page.tsx:46-53 | the mismatch alert is shown exactly when the new password differs from the confirmation; otherwise the success alert is shown |
| MyPage.CurrentPasswordIgnored | frontend/src/app/mypage/page.tsx:46-53 | the outcome ignores the current password, and the untouched form (all empty) is accepted |
| Login.Submit | frontend/src/app/login/page.tsx:12-22 | the form goes to /main exactly when both fields are non-empty; otherwise it alerts and does not navigate |
| Login.OnlyEmptinessMatters | frontend/src/app/login/page.tsx:16-18 | the outcome depends only on which fields are empty; no credential is compared |
| Login.WhitespaceIsAccepted | frontend/src/app/login/page.tsx:17 | an id and a password made only of spaces are accepted, since nothing is trimmed |
| Login.PressLogin | frontend/src/app/login/page.tsx:80-123 | with both inputs `required`, a press does nothing exactly when a field is empty, and otherwise runs the submit handler |
| Login.MissingAlertUnreachable | frontend/src/app/login/page.tsx:12-22 | on the rendered form the missing-field alert never appears: a press does nothing or goes to /main |

## Left out

- Rendering: JSX, Tailwind layout, and the icons and badges other than their
  class strings and labels.
- Routing plumbing: `useRouter`, `useSearchParams`, `window.history` and the
  `popstate` listener of the notice page. The notice page's `id` parameter
  is an input event (`UrlIdChanged`). Clicking a notice pushes a history
  entry; that push is not modelled.
- The download of the exported CSV: `Blob`, object URLs, the anchor click,
  and the date-stamped file name. These are browser I/O. The model stops at
  the text, carried by a `Download` effect.
- The browser's own message for an empty `required` login field, and the
  help-desk button, which only logs.
- The simulated real-time table of the detail page. It draws values with
  `Math.random`, rounds floats, re-runs on `setInterval`, and formats times
  with `toLocaleString`.
- The fixed sensor list of the detail page and its refresh and back
  buttons. They only log or call `history.back`.
- `console.log` calls. They appear in several handlers and have no effect
  on the page.
- JavaScript `Date` parsing. Notice dates and filter bounds are already
  day triples. A malformed date string, which parses to an Invalid Date,
  is not modelled.
- Unicode case mapping and `parseInt` parsing. They are parameters with no
  properties assumed.
- The device-list filters other than as form state. The page collects them
  but never applies them.
- Header, Footer and the main page. They render static content and links.
- Text.IntToDecimal: models JavaScript's printing of integers only. The
  data counts are small non-negative integers. Magnitudes from 10^21 up
  print in exponent form, and fractions are not modelled.
- The fixed mock data of each page is not included. This covers the six
  notices, the three devices and the initial sensor values. The properties
  hold for every list.
