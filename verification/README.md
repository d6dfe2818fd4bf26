# education-front: a verified model of the client's decision logic

education-front is the browser client of a learning-management system. Learners
follow training groups, modules and lessons, take exams and read their
results. Administrators manage users, groups and exam results, and run a
forum. Most of the client fetches data and renders it. This project models
the small rules and state updates that the client owns, and proves what
they promise:

- the exam-attempt wizard: what counts as answered, moving between
  questions, editing multi-choice and ordered-sequence answers, and the
  submitted payload;
- exam status and eligibility: the status dictionary, local statuses,
  attempts left, list ordering, and when the start button is offered or
  disabled;
- result arithmetic: rounded percentages, answer tallies, best-first and
  latest-first orderings, grouping by training group, and duration labels;
- forms and lists: forum tags and field checks, server validation errors,
  likes, replies and solutions, the notification counter, invitee selection,
  sorting and paging controls;
- routing: how the two dashboards turn route parameters and the path into a
  section and a view, and the learner's breadcrumb trail;
- payload normalisation in the services, the user mapping of the
  authentication context, the cookie lookup and request interceptors, and
  the query retry rule.

Each source file of that logic becomes one Dafny module of the same name.
Pure expressions are functions with lemmas. Components and contexts that
update state become classes whose methods change their fields. The shared
modules are:

- `Wrappers`: `Option`.
- `JsText`: the JavaScript string and number primitives the code relies on,
  such as `trim`, `toLowerCase`, `split`, `String(n)`, `parseInt`,
  `Number(s)`, `Math.round` of a percentage and the truncating `%`.
- `Json`: JSON values and the `unwrapResource` and `coerceToString` helpers,
  which several source files duplicate.
- `Backend`: the backend's record types.
- `Sorting`: the stable sort with numeric comparators.
- `Collections`: counting and removal on sequences.
- `Listing`: the sort toggle, the `-field` sort encoding and page clamping
  that several lists share.
- `Ui`: badge variants and sort icons.

Times are integers of milliseconds; `now` is a parameter. Server replies are
method parameters, with a failure given as `None` or as an outcome
constructor.

Some choices follow the code rather than its declared types:

- `services/exams.ts` evaluates `'data' in payload`, which raises a
  `TypeError` on `null` and on primitives. `ExamsService.UnwrapPaginated`
  returns that error; it does not return an empty list.
- `services/users.ts` reads `.data` of the unwrapped reply, which raises a
  `TypeError` on `null`. `UsersService.NormalizeUsers` returns it.
- Group names are optional in the dashboard views, as the code treats them
  (`groupName ?? …`), although the type says `string`.
- `AdminDashboard.tsx` defines `handleSectionChange` but never calls it. It
  is modelled as `AdminDashboard.Dashboard.SectionChange`, including its
  missing forum branch, which navigates nowhere.
- `MyExamResults.tsx` defines `GroupBlock` but never renders it. Its
  `calculatePercentage`, group average and highlighted badge are modelled
  as `MyExamResults.CalculatePercentage`, `MyExamResults.GroupAverage` and
  `MyExamResults.Highlighted` all the same.
- The learner dashboard's parameter effect never produces the exam-result
  or exam-details views. Their breadcrumbs and render fallbacks are still
  modelled.

## Model

| member | source | states |
|---|---|---|
| Api.GetCookie | src/lib/api.ts:16-21 | a value is found only when splitting `"; " + cookie` on `"; name="` gives exactly two parts, and a found value is never empty; which value is found is stated by `Api.GetCookieFinds` |
| Api.CookieHasNoSemicolon | src/lib/api.ts:19 | a cookie value stops before the next `;` |
| Api.GetCookieOfSingle | src/lib/api.ts:16-21 | a jar holding only `name=value` yields `value` |
| Api.GetCookieFinds | src/lib/api.ts:16-21 | in any jar where `; name=` occurs exactly once, a non-empty value free of `;` is found, and it is the text after `name=` up to the next `;` or the end |
| Api.RequestConfig.AddXsrfHeader | src/lib/api.ts:23-29 | with an `XSRF-TOKEN` cookie the `X-XSRF-TOKEN` header is set to its decoded value and nothing else changes; without one the headers are untouched |
| Api.RequestError.OnRejected | src/lib/api.ts:31-40 | every failure is rejected; a 401 gains the auth tag, other statuses keep the tag they had |
| QueryClient.Retry | src/lib/queryClient.ts:7-12 | a tagged error is never retried; anything else is retried while fewer than two failures have occurred |
| QueryClient.AtMostTwoRetries | src/lib/queryClient.ts:7-12 | a retry happens only below two failures and never for a tagged error |
| QueryClient.UnauthorizedNeverRetried | src/lib/queryClient.ts:7-10 | a request rejected with 401 passes through the interceptor's tag and is never retried |
| QueryClient.OtherFailuresRetriedTwice | src/lib/queryClient.ts:11 | an untagged failure with any other status is retried exactly on its first two failures |
| ErrorUtils.ExtractValidationErrors | src/lib/errorUtils.ts:36-54 | a non-object yields nothing; a 422 response carrying an error map yields that map; otherwise a `ValidationError`'s own map, else nothing |
| ErrorUtils.Lookup | src/lib/errorUtils.ts:63-76 | a field's messages are found exactly when the map has an entry for that field |
| ErrorUtils.GetFirstError | src/lib/errorUtils.ts:62-67 | no map, no entry or an empty list give no message |
| ErrorUtils.GetFieldErrors | src/lib/errorUtils.ts:75-80 | no map or no entry give `[]`, otherwise the field's whole list |
| ErrorUtils.FirstErrorIsHeadOfFieldErrors | src/lib/errorUtils.ts:62-80 | the first error exists exactly when the field's list is non-empty, and it is that list's head |
| ErrorUtils.AllMessagesMembers | src/lib/errorUtils.ts:92-97 | a message is collected exactly when some field carries it |
| ErrorUtils.FormatValidationErrors | src/lib/errorUtils.ts:87-100 | the nested loops collect every message, fields and messages in order, joined by spaces; no map gives "Validation failed" |
| ErrorUtils.HandleApiError | src/lib/errorUtils.ts:116-138 | a validation error is rethrown as one with the same map and a non-empty message; an object with a `response` key gives the response message or the default; an `Error` without one is rethrown as is; anything else gives the default message |
| ErrorUtils.RaisedValidationRoundTrip | src/lib/errorUtils.ts:21-122 | the `ValidationError` thrown is recognised again by `isValidationError` with the same map |
| NotificationContext.MarkRead | src/context/NotificationContext.tsx:92 | exactly the notifications with the id get the read time; the others are unchanged |
| NotificationContext.MarkAllRead | src/context/NotificationContext.tsx:102 | every notification gets the read time |
| NotificationContext.MarkReadKeepsRead | src/context/NotificationContext.tsx:92 | for every notification: read afterwards exactly when it was read before or carries the id, so no read notification becomes unread; an all-read list stays all read |
| NotificationContext.MarkAllThenOneIsAllRead | src/context/NotificationContext.tsx:92-102 | after marking all read, the list stays all read under a later single mark |
| NotificationContext.Decrement | src/context/NotificationContext.tsx:93 | the counter drops by one and never below zero |
| NotificationContext.NotificationStore.constructor | src/context/NotificationContext.tsx:33-35 | the store starts empty, with a zero count and not loading |
| NotificationContext.NotificationStore.MarkAsRead | src/context/NotificationContext.tsx:89-97 | on success the id is marked read and the count decremented; on failure nothing changes |
| NotificationContext.NotificationStore.MarkAllAsRead | src/context/NotificationContext.tsx:99-107 | on success everything is read and the count is zero; on failure nothing changes |
| NotificationContext.NotificationStore.OnPush | src/context/NotificationContext.tsx:61-73 | a pushed event raises the unread count by one |
| NotificationContext.NotificationStore.OnUserChange | src/context/NotificationContext.tsx:54-87 | with no user the list and the count are cleared; with a user they are kept until the fetch |
| NotificationContext.NotificationStore.FetchNotifications | src/context/NotificationContext.tsx:37-52 | without a user nothing happens; the list becomes the page's data or `[]`, the count the server's count; a failure keeps the old state; loading is off afterwards |
| AuthContext.HasAdminRole | src/context/AuthContext.tsx:65 | true exactly when some role's lower-cased name contains "admin" |
| AuthContext.MapBackendUser | src/context/AuthContext.tsx:63-81 | the role is admin iff some role name contains "admin"; the e-mail counts as verified iff it has a verification time; the organisation id is copied when there is an organisation, else null; the other fields are copied |
| AuthContext.NoRolesIsUser | src/context/AuthContext.tsx:64-67 | a missing or empty role list maps to an ordinary user |
| AuthContext.UnwrapUser | src/context/AuthContext.tsx:34-39 | a reply wrapped in `data` is unwrapped; a bare record is kept |
| AuthContext.AuthState.constructor | src/context/AuthContext.tsx:84-86 | no user, loading, restore not yet tried |
| AuthContext.AuthState.FetchCurrentUser | src/context/AuthContext.tsx:88-96 | a reply sets the mapped user; a failure clears the user and is passed on |
| AuthContext.AuthState.Restore | src/context/AuthContext.tsx:98-109 | the mount fetch swallows its failure and always ends with restore tried and loading off |
| AuthContext.AuthState.Login | src/context/AuthContext.tsx:111-115 | a reply sets the mapped user; a failure leaves the user and is passed on |
| AuthContext.AuthState.Logout | src/context/AuthContext.tsx:117-123 | the user is cleared whether or not the server call succeeds, and a failure is passed on |
| GroupsService.Page | src/services/groups.ts:30-44 | `{ data: items }` is a paginated response holding the items |
| GroupsService.UnwrapPaginated | src/services/groups.ts:26-45 | the result is always paginated: a bare list is wrapped, a paginated payload kept, a nested paginated `data` lifted, anything else becomes an empty page |
| GroupsService.UnwrapPaginatedIdempotent | src/services/groups.ts:26-45 | normalising a normalised response changes nothing |
| GroupsService.Items | src/services/groups.ts:106-165 | a list gives its items, a paginated object its `data`, a non-object nothing |
| ExamsService.UnwrapPaginated | src/services/exams.ts:10-18 | a list is returned as is; an object with a list under `data` gives that list; any other object gives `[]`; `null` or a primitive raises a TypeError |
| ExamsService.ReplyShapesAgree | src/services/exams.ts:10-18 | a paginated reply whose `data` is a list gives the same items as that list sent bare, whatever other keys the page has; normalising the result again changes nothing |
| Json.UnwrapResource | src/services/groups.ts:13-21 | an object with a `data` key yields that member; anything else is returned unchanged |
| Json.UnwrapResourceOfWrapped | src/services/users.ts:6-9 | wrapping a value in `{ data }` and unwrapping it gives the value back |
| Json.CoerceToString | src/components/user/GroupView.tsx:32-40 | a string is kept, `null`/`undefined` become "", a number is written in decimal, anything else as `String(value)` writes it |
| Json.ToNumber | src/components/user/MyExamResults.tsx:275 | `Number(v)`: `null`, `false` and `[]` give 0, `true` 1, a number itself, an object or `undefined` NaN |
| Json.NestedArrayNumbers | src/components/user/MyExamResults.tsx:275 | a one-element array is read through its text: `[[5]]` gives 5, `[[]]` 0, `[true]` NaN |
| Json.CoerceSingletonArray | src/components/user/ModuleView.tsx:42-50 | a one-element array of a string reads as that string, and `[null]` as "" |
| ResultsService.IfTruthy | src/services/results.ts:37-59 | a value is sent exactly when it is a non-empty string, and then unchanged |
| ResultsService.BuildQueryParams | src/services/results.ts:30-59 | page and page size are passed through; `all` is "true" exactly when requested; each filter and the sort are sent only when non-empty |
| ResultsService.NormalizeResults | src/services/results.ts:68-83 | a bare list gives its items and no meta; an object with a list under `data` gives that list and its `meta`; anything else gives no assignments |
| ResultsService.EnvelopeKeepsAssignments | src/services/results.ts:68-78 | a list and the same list in a paginated envelope give the same assignments |
| UsersService.BuildQueryParams | src/services/users.ts:33-49 | page and page size are passed through; the name and e-mail filters and the sort are sent exactly when non-empty |
| UsersService.NormalizeUsers | src/services/users.ts:51-65 | after unwrapping, a list is the users with no meta; `null` raises a TypeError; any other value gives its `data` (or `[]`) and its `meta` |
| UsersService.WrappedPageGivesUsers | src/services/users.ts:51-65 | a paginated reply wrapped in a resource gives its page of users and its meta |
| Listing.Flip | src/components/admin/UserManagement.tsx:126 | toggling always gives the other direction |
| Listing.SortParam | src/components/admin/UserManagement.tsx:69 | descending sends `-field`, ascending sends `field` |
| Listing.SortParamRoundTrip | src/components/admin/ExamResultsAdmin.tsx:36 | for a field not starting with `-`, the backend reads back the same field and direction |
| Listing.NameFilter | src/components/admin/UserManagement.tsx:68 | a filter is sent exactly when the trimmed search is not blank, and it is the trimmed search |
| Listing.NameFilterIsTrimmed | src/components/admin/ExamResultsAdmin.tsx:35 | the name sent is already trimmed |
| Listing.TotalPages | src/components/admin/UserManagement.tsx:104 | at least 1; the last page when it is 1 or more, else 1 |
| Listing.SortIconOf | src/components/admin/UserManagement.tsx:134-137 | a column other than the sorted one is neutral; the sorted one points up exactly when ascending |
| Listing.SortAfter | src/components/admin/UserManagement.tsx:124-132 | clicking selects the column; the same column flips direction, a new one starts ascending |
| Listing.SortTwice | src/components/admin/ExamResultsAdmin.tsx:103-111 | two clicks on the same header restore the direction; a new column is ascending, then descending |
| Listing.ListQuery.constructor | src/components/admin/UserManagement.tsx:34-38 | page 1, empty search, descending on the default column |
| Listing.ListQuery.HandleSort | src/components/admin/UserManagement.tsx:124-132 | the sort becomes `SortAfter` of the old sort and the page goes back to 1 |
| Listing.ListQuery.ApplySearchResettingPage | src/components/admin/UserManagement.tsx:47-54 | the user list applies the search and returns to page 1 |
| Listing.ListQuery.ApplySearchKeepingPage | src/components/admin/ExamResultsAdmin.tsx:46-52 | the results list applies the search and keeps the page |
| Listing.ListQuery.Previous | src/components/admin/UserManagement.tsx:369 | disabled on page 1, else one page back |
| Listing.ListQuery.Next | src/components/admin/UserManagement.tsx:375-376 | disabled without meta or on the last page, else one page on, never past the last |
| Listing.PagerStaysInRange | src/components/admin/ExamResultsAdmin.tsx:340-347 | from a page in range, either enabled button leads to a page in range |
| UserManagement.UsersRequest | src/components/admin/UserManagement.tsx:17-70 | ten per page, the trimmed non-blank name filter, and the encoded sort |
| UserManagement.RequestFiltersByTrimmedName | src/components/admin/UserManagement.tsx:68 | the name filter reaches the query exactly when the trimmed search is not blank, and carries it |
| UserManagement.PrimaryRole | src/components/admin/UserManagement.tsx:28 | the first role's title if non-empty, else its name if non-empty, else a dash; never empty |
| UserManagement.CreatePayload | src/components/admin/UserManagement.tsx:106-113 | name, e-mail and rank are trimmed; the password is sent as typed |
| UserManagement.CreatePayloadIdempotent | src/components/admin/UserManagement.tsx:106-113 | building the payload from its own result sends the same payload |
| DataTable.PreviousPage | src/components/common/DataTable.tsx:167-168 | disabled on page 1, else emits `max(page - 1, 1)` |
| DataTable.NextPage | src/components/common/DataTable.tsx:175-176 | disabled from the last page on, else emits the next page |
| DataTable.EmittedPagesInRange | src/components/common/DataTable.tsx:160-176 | from a page in range both buttons emit only pages in range, moving in their direction |
| DataTable.SortKeyOf | src/components/common/DataTable.tsx:120 | the sort key when non-empty, else the accessor key |
| DataTable.HeaderSort | src/components/common/DataTable.tsx:117-124 | a header sorts only for a sortable column of a table given `onSort`, and by `SortKeyOf` |
| DataTable.SortIconOf | src/components/common/DataTable.tsx:70-73 | a column other than the sorted one is neutral; otherwise up exactly when the direction is 'asc' |
| DataTable.BodyRows | src/components/common/DataTable.tsx:134-150 | one row per item in order, or the single placeholder row when there is no data |
| DataTable.BodyRowsNonEmpty | src/components/common/DataTable.tsx:134-150 | the body is never empty, and shows the placeholder exactly when there is no data |
| ExamResultsAdmin.ResultsRequest | src/components/admin/ExamResultsAdmin.tsx:18-38 | ten per page, every result, the trimmed non-blank name filter and the encoded sort |
| ExamResultsAdmin.Normalize | src/components/admin/ExamResultsAdmin.tsx:56-78 | each field falls back as written: user and exam to a dash, the course to the group name, then the course title, then a dash, the status slug to 'unknown' and its name to a dash |
| ExamResultsAdmin.Normalized | src/components/admin/ExamResultsAdmin.tsx:56-78 | one row per assignment, in order |
| ExamResultsAdmin.MapSet | src/components/admin/ExamResultsAdmin.tsx:83 | a known slug keeps its place and takes the new name; a new slug is appended |
| ExamResultsAdmin.StepSlugs | src/components/admin/ExamResultsAdmin.tsx:82-84 | one turn adds the row's slug when it is non-empty, and no other |
| ExamResultsAdmin.StepKeepsOrder | src/components/admin/ExamResultsAdmin.tsx:82-84 | one turn keeps every slug in place and appends only an unseen one |
| ExamResultsAdmin.AvailableStatuses | src/components/admin/ExamResultsAdmin.tsx:80-86 | the loop over the rows builds exactly `StatusesOf(rows)` |
| ExamResultsAdmin.StatusesDistinct | src/components/admin/ExamResultsAdmin.tsx:80-86 | no slug is offered twice |
| ExamResultsAdmin.StatusesCoverRows | src/components/admin/ExamResultsAdmin.tsx:80-86 | a slug is offered exactly when it is non-empty and some row carries it |
| ExamResultsAdmin.StatusNameFromLastRow | src/components/admin/ExamResultsAdmin.tsx:83 | each option is named after the last row with its slug, by status name or else slug |
| ExamResultsAdmin.StatusesInFirstAppearanceOrder | src/components/admin/ExamResultsAdmin.tsx:80-86 | options come in the order their slugs first appear among the rows |
| ExamResultsAdmin.FirstIndexSnoc | src/components/admin/ExamResultsAdmin.tsx:85 | appending a row does not move the first occurrence of a slug already seen |
| ExamResultsAdmin.Filtered | src/components/admin/ExamResultsAdmin.tsx:88-93 | 'all' keeps every row; otherwise a row is kept exactly when it has that slug |
| ExamResultsAdmin.FilteredOfOne | src/components/admin/ExamResultsAdmin.tsx:88-93 | one row is kept exactly when the filter is 'all' or the row's status slug |
| ExamResultsAdmin.FilteredAppend | src/components/admin/ExamResultsAdmin.tsx:88-93 | filtering a concatenation concatenates the filtered parts; with `FilteredOfOne`, the kept rows are the matching ones, each as often as it occurs, in their order |
| ExamResultsAdmin.StatsOf | src/components/admin/ExamResultsAdmin.tsx:121-125 | the total is the meta total when there is one, else the row count; passed and failed count the rows with those slugs |
| ExamResultsAdmin.PassedAndFailedWithinRows | src/components/admin/ExamResultsAdmin.tsx:123-124 | passed plus failed never exceeds the rows shown |
| ExamResultsAdmin.BadgeVariantOf | src/components/admin/ExamResultsAdmin.tsx:96-101 | the three slug groups give the default, destructive and secondary variants, anything else the outline |
| ExamResultsAdmin.BadgeLabel | src/components/admin/ExamResultsAdmin.tsx:95-96 | the name when non-empty, else the slug |
| TrainingGroupDetail.Toggled | src/components/TrainingGroupDetail.tsx:91-97 | a selected id is removed, an unselected one appended; membership flips |
| TrainingGroupDetail.ToggleTwice | src/components/TrainingGroupDetail.tsx:91-97 | toggling keeps the selection free of duplicates, and toggling twice restores membership |
| TrainingGroupDetail.HeaderCheckedIffAllSelected | src/components/TrainingGroupDetail.tsx:324 | for a duplicate-free selection of available users, the length test holds exactly when every available user is selected |
| TrainingGroupDetail.InviteBadge | src/components/TrainingGroupDetail.tsx:105-113 | 'approved' and 'pending' get their badges; anything else is shown as rejected |
| TrainingGroupDetail.InviteForm.constructor | src/components/TrainingGroupDetail.tsx:68-69 | nothing selected, no notice |
| TrainingGroupDetail.InviteForm.Toggle | src/components/TrainingGroupDetail.tsx:91-97 | the selection becomes `Toggled` of the old one and stays duplicate-free |
| TrainingGroupDetail.InviteForm.SetAll | src/components/TrainingGroupDetail.tsx:324-330 | checking selects every available user, unchecking clears the selection |
| TrainingGroupDetail.InviteForm.Submit | src/components/TrainingGroupDetail.tsx:99-103 | the loop sends one invite per selected user, in order; nothing when the button is disabled |
| TrainingGroupDetail.InviteForm.OnInviteSuccess | src/components/TrainingGroupDetail.tsx:73-79 | a successful invite clears the selection and shows the notice |
| MyTrainingGroups.StatusAt | src/components/user/MyTrainingGroups.tsx:43-53 | future exactly before the start, past exactly after the end (when not future), in progress within the window, ends included |
| MyTrainingGroups.CardOf | src/components/user/MyTrainingGroups.tsx:36-53 | progress and completed modules are 0, the module count comes from the course or is 0, the status is taken at `now` |
| MyTrainingGroups.Cards | src/components/user/MyTrainingGroups.tsx:36 | one card per group, in order |
| MyTrainingGroups.Badge | src/components/user/MyTrainingGroups.tsx:152-161 | future and past get their own badges; a running group reads 'Завершено' at 100% progress and 'В процесі' below |
| MyTrainingGroups.RunningGroupIsInProcess | src/components/user/MyTrainingGroups.tsx:152-161 | with progress fixed at 0, a running group always reads 'В процесі' |
| MyTrainingGroups.OnClick | src/components/user/MyTrainingGroups.tsx:139-143 | only a running group's card navigates, through `onNavigateToGroup` when given, else `onGroupClick` |
| GroupView.BadgeOf | src/components/user/GroupView.tsx:280-298 | passed, then failed, then active, then not yet started, otherwise missed |
| GroupView.BadgeLook | src/components/user/GroupView.tsx:284-297 | the destructive variant exactly for a failed or missed exam, secondary exactly for a scheduled one |
| GroupView.BadgeTextsDistinct | src/components/user/GroupView.tsx:284-297 | no two badges share a text |
| GroupView.BadgeLookOfExam | src/components/user/GroupView.tsx:280-297 | an exam's badge is destructive exactly when its result is a failure, or when it has no pass or failure, is not open and does not start later |
| GroupView.ActionOf | src/components/user/GroupView.tsx:358-395 | active gives the start button; else a passed result the results link; else a future start the opening date; otherwise expired |
| GroupView.BadgeMatchesAction | src/components/user/GroupView.tsx:284-395 | an available badge goes with the start button, a scheduled one with the opening date, a missed one with the expiry notice, and the results link only with a passed badge |
| GroupView.LastResult | src/components/user/GroupView.tsx:349-353 | a last result is shown exactly when there is an attempt with a score, and it is that score |
| GroupView.TimeLimitText | src/components/user/GroupView.tsx:340 | a non-zero limit is shown in minutes; otherwise 'Не обмежено' |
| ModuleView.Truncate | src/components/user/ModuleView.tsx:28-32 | an empty or missing text gives ""; a text within the limit is kept; a longer one is cut to the limit and gets `…` |
| ModuleView.TruncateBound | src/components/user/ModuleView.tsx:28-32 | the result is at most one character over the limit and over the text, and truncating it again with the ellipsis allowed changes nothing |
| ModuleView.LessonList | src/components/user/ModuleView.tsx:86-89 | the fetched lessons when there are any, else the module's own, else none |
| ModuleView.GroupCrumb | src/components/user/ModuleView.tsx:133-136 | the group's name, or `Група #<id>` while it is not loaded |
| LessonView.ViewerTypeOf | src/components/user/LessonView.tsx:254 | the pdf viewer exactly for `application/pdf`, the video viewer otherwise |
| LessonView.ViewableVideoIsVideo | src/components/user/LessonView.tsx:79-81 | a viewable file goes to the video viewer exactly when its type starts with `video/` |
| LessonView.Preview | src/components/user/LessonView.tsx:151-155 | a preview exactly for a non-empty material: the first 160 characters, plus `…` only when it is longer |
| LessonView.PreviewIsTruncate | src/components/user/LessonView.tsx:153 | the preview is the module page's `truncate` at its default length |
| LessonView.FileDialog.constructor | src/components/user/LessonView.tsx:73 | no file is open |
| LessonView.FileDialog.View | src/components/user/LessonView.tsx:75-77 | the button of a viewable file opens that file; others change nothing |
| LessonView.FileDialog.Close | src/components/user/LessonView.tsx:244 | closing the dialog clears the open file |
| ExamAttempt.QuestionKind | src/components/user/ExamAttempt.tsx:108 | a present, non-empty type slug is kept; a missing or empty one becomes the single-choice type |
| ExamAttempt.ToQuestion | src/components/user/ExamAttempt.tsx:90-112 | the shown id parses back to the backend id, the number is the position plus one, one option per delivered choice with the same id, correct exactly when its scoring is 1 |
| ExamAttempt.ToQuestions | src/components/user/ExamAttempt.tsx:75-115 | one shown question per delivered question, the i-th built from the i-th at position i |
| ExamAttempt.Lookup | src/components/user/ExamAttempt.tsx:110 | a question has a stored value exactly when its id is a key of the selections |
| ExamAttempt.AnsweredCount | src/components/user/ExamAttempt.tsx:118-124 | the number of positions whose question is answered (a sequence question by a full-length list, any other by a truthy value); so never more than the questions, and equal exactly when all are answered |
| ExamAttempt.Toggle | src/components/user/ExamAttempt.tsx:375-388 | the clicked option is chosen afterwards exactly when it was not before; every other option keeps its state; no duplicates are introduced |
| ExamAttempt.Unchosen | src/components/user/ExamAttempt.tsx:426-427 | exactly the ids not yet chosen |
| ExamAttempt.Offered | src/components/user/ExamAttempt.tsx:426-432 | the options still offered for a sequence question are exactly its options not yet picked |
| ExamAttempt.PickKeepsWellPicked | src/components/user/ExamAttempt.tsx:426-432 | appending an offered option keeps the picked order duplicate-free and drawn from the question's options |
| ExamAttempt.UnpickKeepsWellPicked | src/components/user/ExamAttempt.tsx:410-413 | removing a picked option keeps the picked order duplicate-free and drawn from the options |
| ExamAttempt.SequenceAnsweredIffAllPicked | src/components/user/ExamAttempt.tsx:119-169 | a well-picked list is never longer than the options, and with distinct option ids the question counts as answered exactly when every option has been picked |
| ExamAttempt.FindQuestion | src/components/user/ExamAttempt.tsx:182 | a found question is in the list with the searched id; not found means no question has that id |
| ExamAttempt.ParseAll | src/components/user/ExamAttempt.tsx:193 | each option id is parsed with parseInt, position by position |
| ExamAttempt.PayloadEntry | src/components/user/ExamAttempt.tsx:181-195 | the question id is the parsed key; the entry carries text exactly when the key names a written-answer question; otherwise the list's parsed ids, or the single parsed value |
| ExamAttempt.SubmitPayload | src/components/user/ExamAttempt.tsx:181-196 | one payload entry per stored selection, and nothing else |
| ExamAttempt.PayloadKeepsQuestionIds | src/components/user/ExamAttempt.tsx:182-195 | every answered question reaches the payload under its backend id |
| ExamAttempt.PayloadKeepsChoiceIds | src/components/user/ExamAttempt.tsx:193 | option ids written from numbers parse back to exactly those numbers |
| ExamAttempt.Percentage | src/components/user/ExamAttempt.tsx:213-219 | undefined (NaN) exactly for an empty total, otherwise `Math.round(correct / total * 100)` pinned by the half-up rounding inequality, and between 0 and 100 when correct does not exceed the total |
| ExamAttempt.CalculateResults | src/components/user/ExamAttempt.tsx:208-222 | after submission with graded answers: their count as total and the number of answers marked exactly `true` as correct; otherwise the questions as total and the number of questions with no stored value as correct; the percentage is `Percentage` of the two |
| ExamAttempt.LocalResultsOfCompleteAttempt | src/components/user/ExamAttempt.tsx:218-258 | without graded answers a fully answered attempt scores 0 correct and does not pass the 75% mark |
| ExamAttempt.Session.Current | src/components/user/ExamAttempt.tsx:117 | there is a current question exactly when the index is inside the list |
| ExamAttempt.Session.constructor | src/components/user/ExamAttempt.tsx:54-78 | accepts any delivered list, repeated ids included; starts at the first question with no selections, not submitted, over the delivered questions (none when the instance has none) |
| ExamAttempt.Session.Select | src/components/user/ExamAttempt.tsx:147-153 | stores the value under the current question's id, or changes nothing when there is no current question |
| ExamAttempt.Session.SelectText | src/components/user/ExamAttempt.tsx:147-153 | stores the typed text or the chosen option under the current question's id |
| ExamAttempt.Session.ToggleChoice | src/components/user/ExamAttempt.tsx:375-388 | stores the toggled list for the current multiple-choice question |
| ExamAttempt.Session.Pick | src/components/user/ExamAttempt.tsx:426-432 | appends the k-th offered option to the current sequence question's list, keeping every list well-picked |
| ExamAttempt.Session.Unpick | src/components/user/ExamAttempt.tsx:410-413 | removes the option from the current sequence question's list, keeping every list well-picked |
| ExamAttempt.Session.Next | src/components/user/ExamAttempt.tsx:155-169 | moves forward exactly when the current question is answered and not the last, else stays |
| ExamAttempt.Session.Previous | src/components/user/ExamAttempt.tsx:171-175 | moves back one, never below the first question |
| ExamAttempt.Session.GoTo | src/components/user/ExamAttempt.tsx:518-522 | jumps to any question of the grid |
| ExamAttempt.Session.CanSubmit | src/components/user/ExamAttempt.tsx:505 | the finish button is enabled exactly when every question is answered |
| ExamAttempt.Session.Submit | src/components/user/ExamAttempt.tsx:483-508 | a click on the finish button does nothing unless the button is on screen: the attempt is not yet submitted (line 256 shows the results card instead) and the current question is the last one (line 321 shows an alert when there is none, line 493 shows "next" before the last); otherwise it behaves as `Send` |
| ExamAttempt.Session.Send | src/components/user/ExamAttempt.tsx:177-206 | `handleSubmit`: sends the payload exactly when every question is answered (the button is disabled otherwise, line 505) and the attempt has an id, and marks the attempt submitted only when that send is accepted |
| ExamResultDetail.SortedInstances | src/components/user/ExamResultDetail.tsx:106-110 | the same attempts (as a multiset), ordered by score, highest first, a missing score counting as 0 |
| ExamResultDetail.FindIndex | src/components/user/ExamResultDetail.tsx:112 | the first position holding the id, or none when no attempt has it |
| ExamResultDetail.InitialIndex | src/components/user/ExamResultDetail.tsx:112-113 | 0 for a missing or zero id; with a truthy id that is present, the position of its first occurrence in the sorted list; a missing id falls back to 0 |
| ExamResultDetail.Shown | src/components/user/ExamResultDetail.tsx:143 | the corrected reading of this line (see Findings): the attempt at the selected position of the sorted list, none when the index is out of range |
| ExamResultDetail.FirstShownAsWrittenIsNotFirstBar | src/components/user/ExamResultDetail.tsx:106-227 | at position 0, where callers start (line 143 reads the unsorted list, lines 222-227 build the chart from the sorted one), the unsorted list shows the weaker of [score 1, score 5] while the chart's first bar and the sorted list hold the better one |
| ExamResultDetail.ShownAsWrittenIsAnotherAttempt | src/components/user/ExamResultDetail.tsx:106-143 | reading the sorted index in the unsorted list opens the other attempt when attempt 1 (score 1) is requested among [score 1, score 5] |
| ExamResultDetail.ShownIsRequestedAttempt | src/components/user/ExamResultDetail.tsx:106-143 | reading the sorted list at the initial index shows the requested attempt whenever it exists |
| ExamResultDetail.AttemptNavigator.constructor | src/components/user/ExamResultDetail.tsx:106-116 | starts at the initial index of the sorted attempts, computed from the loaded attempts; the component's `useState` keeps the first render's value instead (see Left out) |
| ExamResultDetail.AttemptNavigator.Current | src/components/user/ExamResultDetail.tsx:143-153 | the corrected reading of line 143 (see Findings): an attempt exactly when there is one, and it is the sorted attempt at the selected position |
| ExamResultDetail.AttemptNavigator.Previous | src/components/user/ExamResultDetail.tsx:168-172 | moves back one position, never below the first |
| ExamResultDetail.AttemptNavigator.Next | src/components/user/ExamResultDetail.tsx:174-178 | moves forward one position, never past the last |
| ExamResultDetail.TallyPartition | src/components/user/ExamResultDetail.tsx:180-183 | correct, incorrect and pending answers add up to the number of answers |
| ExamResultDetail.CountsPartition | src/components/user/ExamResultDetail.tsx:181-183 | the three `is_correct` filters split any answer list |
| ExamResultDetail.ScorePercentage | src/components/user/ExamResultDetail.tsx:184 | undefined exactly for zero answers, otherwise between 0 and 100 when the score is within the answer count |
| ExamResultDetail.FullScoreIsHundred | src/components/user/ExamResultDetail.tsx:184 | a full score reads as 100 percent |
| ExamResultDetail.PieData | src/components/user/ExamResultDetail.tsx:215-219 | correct and incorrect slices always come first; the pending slice is present exactly when some answer is pending |
| ExamResultDetail.PieCoversAllAnswers | src/components/user/ExamResultDetail.tsx:180-219 | the pie's slices add up to the number of answers |
| ExamResultDetail.Comparison | src/components/user/ExamResultDetail.tsx:222-227 | the bar's score is the attempt's score; with no answer list the total is 0 but the percentage divides by 1; otherwise it is the score over the answer count |
| ExamResultDetail.ComparisonData | src/components/user/ExamResultDetail.tsx:222-227 | one bar per attempt, each built from the attempt at the same position; when the attempts are ordered best first, the bars' scores never increase |
| ExamResultDetail.ComparisonBestFirst | src/components/user/ExamResultDetail.tsx:106-227 | the chart built from the sorted attempts has non-increasing scores |
| ExamResultView.CorrectIdList | src/components/user/ExamResultView.tsx:54-61 | exactly the ids of the choices flagged correct, as text |
| ExamResultView.CorrectIdListOfOne | src/components/user/ExamResultView.tsx:54-61 | one choice contributes its id exactly when it is correct |
| ExamResultView.CorrectIdListAppend | src/components/user/ExamResultView.tsx:54-61 | a concatenation contributes the ids of both parts in turn: choice order, one id per correct choice |
| ExamResultView.CollectCorrectIds | src/components/user/ExamResultView.tsx:54-61 | the loop pushes exactly the correct choices' ids, and nothing when the question has no choices |
| ExamResultView.SelectedIdList | src/components/user/ExamResultView.tsx:64-69 | the learner's picks as text, position by position |
| ExamResultView.CollectSelectedIds | src/components/user/ExamResultView.tsx:64-69 | the loop pushes every pick's id in order, and nothing when there are no picks |
| ExamResultView.JoinIds | src/components/user/ExamResultView.tsx:80-81 | the stored id list is undefined exactly when the list is empty |
| ExamResultView.ReadIds | src/components/user/ExamResultView.tsx:178-179 | an undefined list reads as empty, a stored one as at least one id |
| ExamResultView.IdListRoundTrip | src/components/user/ExamResultView.tsx:80-81 | numeric id lists read back exactly as stored, the empty list included |
| ExamResultView.FindAnswer | src/components/user/ExamResultView.tsx:51 | a found answer is for the question; none is found exactly when no answer has its id |
| ExamResultView.Review | src/components/user/ExamResultView.tsx:71-83 | numbered from 1, the id parses back to the question id; without an answer there are no options, picks, correct ids or verdict; with one, its verdict |
| ExamResultView.Questions | src/components/user/ExamResultView.tsx:46-85 | empty until the instance has questions, then one reviewed question per delivered one, in order |
| ExamResultView.CalculateResults | src/components/user/ExamResultView.tsx:89-93 | total is the question count; correct is the number of questions whose verdict is exactly `true`, equal to the total exactly when every verdict is; the percentage is `ExamAttempt.Percentage` of the two, undefined exactly for no questions |
| ExamResultView.UnansweredQuestionIsUnderReview | src/components/user/ExamResultView.tsx:82-124 | a question with no answer keeps the under-review notice on |
| ExamResultView.CheckingMeansNotAllCorrect | src/components/user/ExamResultView.tsx:90-124 | while some answer awaits checking, not every question counts as correct |
| ExamResults.ComputeStats | src/components/user/ExamResults.tsx:44-57 | nothing without attempts; otherwise the attempt count, the number of attempts with an end as the completed count, and a last attempt taken from the list that started no earlier than any other |
| ExamResults.SpentTime | src/components/user/ExamResults.tsx:196-210 | an end before the start is an invalid interval; otherwise the whole minutes elapsed when at least one, and "under a minute" exactly when less than a minute passed |
| ExamResults.SpentLabelOf | src/components/user/ExamResults.tsx:192-194 | the time-spent label is shown exactly for attempts with both a start and an end |
| ExamResults.StatusBadge | src/components/user/ExamResults.tsx:138-161 | an attempt reads 'Завершено' exactly when it has an end, 'В процесі' otherwise |
| ExamView.PassingScore | src/components/user/ExamView.tsx:70-81 | no score without a config; a numeric `passing_score` wins, then a numeric `passingScore` when the first is absent; neither present gives none |
| ExamView.PassingScoreFromText | src/components/user/ExamView.tsx:79-80 | a score stored as decimal text is read as that number |
| ExamView.CanShowStartButton | src/components/user/ExamView.tsx:83-90 | offered exactly for an assigned exam with no attempts, or an exam in work with attempts left; never while checking |
| ExamView.IsDisabled | src/components/user/ExamView.tsx:92-110 | disabled exactly when a start is pending, attempts are exhausted, `now` is outside the window, the exam is being checked, or it is in work and the last attempt has an empty answer list |
| ExamView.EnabledStartIsWithinLimits | src/components/user/ExamView.tsx:83-110 | an offered, enabled start button means an attempt is left and `now` lies inside the window |
| ExamView.InstanceButton | src/components/user/ExamView.tsx:227-231 | 'Продовжити' exactly for an unsubmitted attempt with no elapsed time, 'Переглянути результати' exactly for a submitted one, 'Переглянути' otherwise |
| ExamView.StartAreaOf | src/components/user/ExamView.tsx:178-201 | the start button appears exactly when it can be shown, disabled as computed; otherwise the checking notice exactly while checking, else the unfinished-attempt notice exactly when some attempt can be continued |
| MyExams.LastWithSlug | src/components/user/MyExams.tsx:75-76 | present exactly when some status carries the slug, and then a status with that slug from the list |
| MyExams.HasSlugSnoc | src/components/user/MyExams.tsx:75 | a slug is among the statuses exactly when it is among the earlier ones or is the last one's |
| MyExams.Record | src/components/user/MyExams.tsx:75-97 | one `forEach` step stores the status under its slug and fills only the named slot its slug matches |
| MyExams.FlattenBySlug | src/components/user/MyExams.tsx:65-100 | every slug the backend sent is a key, and only those, holding the last status with that slug |
| MyExams.FlattenSlots | src/components/user/MyExams.tsx:65-100 | each named slot holds its slug exactly when some status carries it |
| MyExams.FlattenStatuses | src/components/user/MyExams.tsx:65-100 | the loop over the statuses builds the dictionary described by the fold |
| MyExams.DetermineLocalStatus | src/components/user/MyExams.tsx:102-133 | no result slug means assigned; passed exactly when the slug equals the passed slot; checking only when it equals the checking slot |
| MyExams.LocalStatusOfStatuses | src/components/user/MyExams.tsx:65-133 | on a dictionary built from the backend's statuses, a sent known slug gives its own status and everything else gives assigned |
| MyExams.ResolveExamStatus | src/components/user/MyExams.tsx:135-194 | the local status is the determined one; a truthy result slug is kept; the label is the backend's name for the slug when it has one, else the fallback; the badge follows the local status; available implies actionable |
| MyExams.ResolvedKnownSlug | src/components/user/MyExams.tsx:135-194 | for a known slug the backend sent: its own status and label, available exactly when in work, actionable exactly when in work or assigned |
| MyExams.ResolvedWithoutResult | src/components/user/MyExams.tsx:153-184 | without a result: assigned, with the assigned slot's slug, actionable but not available |
| MyExams.FindGroup | src/components/user/MyExams.tsx:221-253 | a group is found exactly when some group has the id, and it is one of them |
| MyExams.AttemptsLeft | src/components/user/MyExams.tsx:257-258 | never below allowed minus used, never negative, and 0 exactly when the attempts are used up |
| MyExams.BuildView | src/components/user/MyExams.tsx:252-303 | a future assignment is neither actionable nor available; actionable exactly when started and resolved as actionable; available implies actionable; the passing score falls back to 0 |
| MyExams.Views | src/components/user/MyExams.tsx:251-305 | one view per assignment whose group is known, each built from its own assignment and group |
| MyExams.ViewsOfOne | src/components/user/MyExams.tsx:251-305 | one assignment gives its view when its group is known and none otherwise |
| MyExams.ViewsAppend | src/components/user/MyExams.tsx:251-305 | the views of a concatenation are those of both parts in turn: assignment order, one view each |
| MyExams.ViewExams | src/components/user/MyExams.tsx:247-306 | empty until assignments, groups and statuses all arrived; never more views than assignments; future exams cannot be acted on |
| MyExams.ViewExamsKeepsAssignmentsWithGroup | src/components/user/MyExams.tsx:247-306 | with statuses present, exactly the assignments with a known group appear |
| MyExams.Priority | src/components/user/MyExams.tsx:308-314 | priorities run from 0 to 4 |
| MyExams.PriorityInjective | src/components/user/MyExams.tsx:308-314 | two statuses share a priority exactly when they are the same |
| MyExams.OrderedExams | src/components/user/MyExams.tsx:316-328 | the same views, by non-decreasing priority, and within a status by start, undated ones last |
| MyExams.AvailableExamIsActionable | src/components/user/MyExams.tsx:295-330 | the "available exam" banner implies a started exam that can be acted on |
| MyExamResults.CalculatePercentage | src/components/user/MyExamResults.tsx:119-122 | 0 for an empty attempt; otherwise the score share rounded half up, within 0-100 when the score is within the total |
| MyExamResults.GroupAverage | src/components/user/MyExamResults.tsx:167-180 | 0 for an empty group; otherwise the sum of last-attempt percentages over the assignment count, rounded half up |
| MyExamResults.SumContributionsBounds | src/components/user/MyExamResults.tsx:168-179 | the sum of percentages lies between 0 and 100 per assignment |
| MyExamResults.GroupAverageIsPercentage | src/components/user/MyExamResults.tsx:167-180 | the group average is itself between 0 and 100 |
| MyExamResults.Bucket | src/components/user/MyExamResults.tsx:345-352 | a bucket only holds input assignments with its key |
| MyExamResults.BucketOfOne | src/components/user/MyExamResults.tsx:345-352 | a single assignment lands in the bucket of its own key and no other |
| MyExamResults.BucketAppend | src/components/user/MyExamResults.tsx:345-352 | the bucket of a concatenation is the concatenation of the buckets: input order within a bucket |
| MyExamResults.Keys | src/components/user/MyExamResults.tsx:345-351 | distinct keys, exactly those of the assignments |
| MyExamResults.PushKeepsGrouping | src/components/user/MyExamResults.tsx:344-354 | one `reduce` step keeps the accumulator equal to the grouping of the prefix |
| MyExamResults.GroupingIsGrouped | src/components/user/MyExamResults.tsx:344-354 | an accumulator matching the grouping is the grouping |
| MyExamResults.PushStep | src/components/user/MyExamResults.tsx:344-354 | the step lemma stated on prefixes |
| MyExamResults.GroupAssignments | src/components/user/MyExamResults.tsx:343-356 | the loop builds the grouping of all assignments |
| MyExamResults.BucketOfMissingKey | src/components/user/MyExamResults.tsx:345-352 | no bucket for a key no assignment has |
| MyExamResults.GroupingPlacesEachAssignment | src/components/user/MyExamResults.tsx:345-352 | each assignment sits in the bucket of its own key and in no other |
| MyExamResults.BucketKeepsMembers | src/components/user/MyExamResults.tsx:352 | each assignment is in its key's bucket |
| MyExamResults.SizeSumSnoc | src/components/user/MyExamResults.tsx:352 | appending one assignment adds one to the sizes over a key list exactly when its key is listed |
| MyExamResults.SizeSumAppendKey | src/components/user/MyExamResults.tsx:422 | listing one more key adds that bucket's size |
| MyExamResults.BucketSizesSum | src/components/user/MyExamResults.tsx:343-356 | the bucket sizes add up to the number of assignments: none is lost or counted twice |
| MyExamResults.SuccessRate | src/components/user/MyExamResults.tsx:414 | 0 without exams; otherwise `Math.round(passed / total * 100)` pinned by the half-up rounding inequality, a percentage when passed does not exceed the total |
| MyExamResults.SuccessRateOfPage | src/components/user/MyExamResults.tsx:392-414 | without pagination data the success rate is between 0 and 100 |
| MyExamResults.Highlighted | src/components/user/MyExamResults.tsx:275 | with no config, or a config whose passing_score is absent or null, highlighted exactly from 70%; with a configured number n, exactly from n% |
| MyExamResults.PrevPage | src/components/user/MyExamResults.tsx:539 | at least 1 and at least one below the page; exactly one below from page 2 on |
| MyExamResults.NextPage | src/components/user/MyExamResults.tsx:547 | at most the last page and at most one above the page; exactly one above below the last page |
| MyExamResults.PagerHiddenForSinglePage | src/components/user/MyExamResults.tsx:528 | without pagination data or with a single page the pager is not shown |
| MyExamResults.PagerStaysInRange | src/components/user/MyExamResults.tsx:528-548 | from the page the server reports, an enabled 'Попередня' moves back exactly one page and an enabled 'Наступна' forward exactly one, staying within 1..last page |
| MyExamResults.ResultsPager.constructor | src/components/user/MyExamResults.tsx:330 | starts on page 1 |
| MyExamResults.ResultsPager.Previous | src/components/user/MyExamResults.tsx:534-540 | only a shown button that is not disabled changes the page, to `Math.max(prev - 1, 1)`; otherwise the page is kept; the page stays at least 1 |
| MyExamResults.ResultsPager.Next | src/components/user/MyExamResults.tsx:542-548 | only a shown button that is not disabled changes the page, to `Math.min(prev + 1, last_page)`, never past the last page; otherwise the page is kept |
| Forum.StatusParam | src/components/admin/Forum.tsx:67 | no status filter exactly for the 'all' tab, otherwise the tab's own value |
| Forum.SumRepliesBounds | src/components/admin/Forum.tsx:79 | with non-negative reply counts the total is non-negative and at least every single count |
| Forum.ComputeStats | src/components/admin/Forum.tsx:77-82 | total topics from the server, replies summed over the page, resolved the number of resolved topics and active-today the number whose last activity is today; all resolved exactly when every topic is; none active exactly when no topic's last activity is today |
| Forum.CategoryColor | src/components/admin/Forum.tsx:91-94 | an unknown category gets the default grey; the first category with the name, wherever it sits, gives its colour unless that is empty; never an empty class |
| Forum.TopicList.constructor | src/components/admin/Forum.tsx:36-44 | no topics, zero statistics, loading |
| Forum.TopicList.LoadTopics | src/components/admin/Forum.tsx:64-89 | sends the current search, category, sort and status filter; a page replaces topics and statistics, a failure keeps them; loading ends either way |
| ForumNewTopic.Validate | src/components/admin/ForumNewTopic.tsx:72-89 | a title error exactly for a blank or under-10-character title (required before too short), a category error ("Оберіть категорію") exactly for no category, a content error exactly for blank or under-20-character content; each with its message; no other keys |
| ForumNewTopic.FirstMessages | src/components/admin/ForumNewTopic.tsx:113-118 | exactly the fields whose message list is a non-empty array, each with its first message |
| ForumNewTopic.CollectFirstMessages | src/components/admin/ForumNewTopic.tsx:113-118 | the loop over the fields builds exactly those first messages |
| ForumNewTopic.Unchosen | src/components/admin/ForumNewTopic.tsx:291-292 | exactly the options not yet chosen, never more than the options |
| ForumNewTopic.UnchosenOfOne | src/components/admin/ForumNewTopic.tsx:291-292 | one option stays exactly when it is not already chosen |
| ForumNewTopic.UnchosenAppend | src/components/admin/ForumNewTopic.tsx:291-292 | a concatenation filters part by part; with `UnchosenOfOne`, the suggestions are the unchosen options in the predefined order |
| ForumNewTopic.Chosen | src/components/admin/ForumNewTopic.tsx:291-292 | the chosen options, distinct when the options are; chosen and unchosen together account for every option |
| ForumNewTopic.SuggestedTags | src/components/admin/ForumNewTopic.tsx:291-293 | the first ten of the unchosen predefined tags, or all of them when fewer |
| ForumNewTopic.EnoughSuggestions | src/components/admin/ForumNewTopic.tsx:291-293 | with at most five distinct tags chosen, at least seven of the twelve suggestions remain |
| ForumNewTopic.PredefinedDistinct | src/components/admin/ForumNewTopic.tsx:20-33 | the predefined tags are distinct |
| ForumNewTopic.NewTopicForm.constructor | src/components/admin/ForumNewTopic.tsx:36-42 | every field empty, no tags and no errors |
| ForumNewTopic.NewTopicForm.AddTag | src/components/admin/ForumNewTopic.tsx:59-65 | appends the lower-cased, trimmed tag and clears the field when it is non-blank, new and fewer than five tags are chosen; otherwise changes nothing; the tags stay distinct, non-blank and at most five |
| ForumNewTopic.NewTopicForm.RemoveTag | src/components/admin/ForumNewTopic.tsx:67-69 | drops every copy of the tag and keeps the others in order |
| ForumNewTopic.NewTopicForm.Submit | src/components/admin/ForumNewTopic.tsx:71-127 | with field errors nothing is sent and they are shown; otherwise the errors are cleared and the topic sent; a created topic yields its id and the success toast; a rejection that carries validation errors shows each field's first message (the corrected reading, see Findings) with the "check the errors" toast; any other rejection keeps the errors cleared and toasts its message or the fallback |
| ForumNewTopic.RejectionMessage | src/components/admin/ForumNewTopic.tsx:123 | never empty; the error's own message when it has a non-empty one |
| ForumNewTopic.AsWrittenFieldErrors | src/components/admin/ForumNewTopic.tsx:112-120 | the form shows server field errors only when the rejection has a `validationErrors` property, which no rejection of `createTopic` has (src/services/forumService.ts:69-77, src/lib/api.ts:36) |
| ForumNewTopic.Strs | src/components/admin/ForumNewTopic.tsx:114 | each message as a JSON string, in order |
| ForumNewTopic.ErrorFields | src/lib/errorUtils.ts:6-8 | the validation map as the JSON object the server sends: exactly the fields `errors[field]` finds, each with its message list |
| ForumNewTopic.RejectionFieldErrors | src/components/admin/ForumNewTopic.tsx:112-120 | field errors exactly when `isValidationError` holds; then exactly the fields `getFirstError` finds a message for, each with that message |
| ForumNewTopic.FieldErrorsLostAsWritten | src/components/admin/ForumNewTopic.tsx:112-120 | a 422 reply with a title error: as written no field error is shown; corrected, the title shows its message |
| ForumNewTopic.AddThenRemove | src/components/admin/ForumNewTopic.tsx:59-69 | removing a tag just added restores the previous tags |
| ForumNewTopic.WithoutAppendAbsent | src/components/admin/ForumNewTopic.tsx:68 | removing an absent element just appended gives back the list |
| ForumTopicDetail.LikePost | src/components/admin/ForumTopicDetail.tsx:79-88 | same length; posts with the liked id take the server's flag and count, every other post is unchanged |
| ForumTopicDetail.MarkSolution | src/components/admin/ForumTopicDetail.tsx:115-118 | every post keeps its data and is the solution exactly when its id is the accepted one |
| ForumTopicDetail.OneSolution | src/components/admin/ForumTopicDetail.tsx:115-118 | with distinct post ids exactly one post is the solution when the post exists, none otherwise |
| ForumTopicDetail.CanMarkSolution | src/components/admin/ForumTopicDetail.tsx:316 | no current user may not mark; otherwise only the user whose id converts to the topic author's id |
| ForumTopicDetail.AuthorCanMarkSolution | src/components/admin/ForumTopicDetail.tsx:316 | the author's own id, as text, may mark a solution |
| ForumTopicDetail.TopicPage.constructor | src/components/admin/ForumTopicDetail.tsx:38-60 | holds the loaded topic and posts, or nothing when loading failed; the reply field is empty |
| ForumTopicDetail.TopicPage.LikeTopic | src/components/admin/ForumTopicDetail.tsx:62-74 | with a topic and an answer, only the topic's flag and count take the server's values; otherwise nothing changes |
| ForumTopicDetail.TopicPage.LikeReplyPost | src/components/admin/ForumTopicDetail.tsx:76-92 | only the liked post changes, and only when the server answers |
| ForumTopicDetail.TopicPage.SubmitReply | src/components/admin/ForumTopicDetail.tsx:94-108 | sends the reply exactly when it is not blank and a topic is loaded; an accepted reply is appended and the field cleared; otherwise nothing changes |
| ForumTopicDetail.TopicPage.MarkAsSolution | src/components/admin/ForumTopicDetail.tsx:110-128 | once accepted, the posts are re-marked with one solution and the topic is resolved; otherwise nothing changes |
| ElapsedTime.FormatElapsed | src/components/user/ExamResultDetail.tsx:199-211 | the "h год m хв s сек" label, hours and minutes written only while positive (the same function is src/components/user/ExamAttempt.tsx:133-144); every non-negative duration is recovered from it, so no two share a label |
| ElapsedTime.ReadHoursFormOf | src/components/user/ExamResultDetail.tsx:200-211 | a non-negative duration split into hours, minutes and seconds reads back from its label as the same duration |
| ElapsedTime.FormatMinutes | src/components/user/MyExamResults.tsx:137-142 | the "m хв s сек" label, minutes written unless they are zero; every non-negative duration is recovered from it |
| ElapsedTime.ReadMinutesFormOf | src/components/user/MyExamResults.tsx:137-142 | a non-negative duration split into minutes and seconds reads back from its label as the same duration |
| ElapsedTime.NegativeMinutesFormLabel | src/components/user/MyExamResults.tsx:138-141 | -30 seconds is written "-1 хв -30 сек": floor division and a truncating remainder, minutes shown because they are not zero |
| ElapsedTime.NegativeHoursFormLabel | src/components/user/ExamResultDetail.tsx:200-210 | -30 seconds is written "-30 сек": the hours form wants positive minutes |
| ElapsedTime.FormatClock | src/components/user/ExamAttempt.tsx:127-131 | the "m:ss" clock, seconds padded to two digits; every non-negative duration is recovered from it. `formatTime` is never called in the component: this models dead code |
| ElapsedTime.ReadClockOf | src/components/user/ExamAttempt.tsx:127-131 | a non-negative duration split into minutes and seconds reads back from its clock label |
| ElapsedTime.HourSplit | src/components/user/ExamResultDetail.tsx:201-203 | hours, minutes under 60 and seconds under 60 recombine to the duration |
| Sorting.SortBy | src/components/user/MyExams.tsx:317-327 | the sort returns a permutation of its input, ordered by the comparator's key |
| Sorting.InsertSorted | src/components/user/MyExams.tsx:317-327 | inserting into a sorted list keeps it sorted |
| Sorting.InsertPermutes | src/components/user/MyExams.tsx:317 | inserting adds exactly that element |
| UserDashboard.Route | src/components/UserDashboard.tsx:46-99 | the section always matches the view; a result id opens that result; an exam with an attempt opens the attempt, with the parsed attempt number as both attempt and instance; without parameters only the three list views are reachable |
| UserDashboard.RouteIgnoresPath | src/components/UserDashboard.tsx:50-86 | once any parameter is present the path plays no part |
| UserDashboard.SectionPath | src/components/UserDashboard.tsx:294-318 | each section button navigates to an absolute path |
| UserDashboard.RouteOfSectionPath | src/components/UserDashboard.tsx:87-98 | following a section button lands, once the route settles, in that section |
| UserDashboard.NumText | src/components/UserDashboard.tsx:248-260 | the text of a parsed parameter is never empty ("NaN" for a failed parse) |
| UserDashboard.AttemptInstance | src/components/UserDashboard.tsx:251 | the stored instance number when it is a non-zero number, otherwise 0 |
| UserDashboard.AttemptRouteOpensAttempt | src/components/UserDashboard.tsx:53-61 | an attempt route whose attempt number is a non-zero integer opens that exam instance |
| UserDashboard.ResultAttemptText | src/components/UserDashboard.tsx:260 | the stored attempt text when non-empty, otherwise the instance number as text |
| UserDashboard.ResultAttemptTextNonEmpty | src/components/UserDashboard.tsx:260 | the final `\|\| ''` fallback is never reached |
| UserDashboard.Trail | src/components/UserDashboard.tsx:102-139 | as many crumbs as the view is deep; the first links to '/', the last names the current page and has no link, the ones between link somewhere |
| UserDashboard.TrailOnlyForParamRoutes | src/components/UserDashboard.tsx:102-141 | a routed view has a breadcrumb trail exactly when some route parameter is present |
| UserDashboard.Dashboard.constructor | src/components/UserDashboard.tsx:42-43 | starts on the groups section and the groups view |
| UserDashboard.Dashboard.OnParams | src/components/UserDashboard.tsx:46-99 | the effect's if-chain sets the section and view the routing rules give, so the highlighted section matches the view |
| UserDashboard.Dashboard.OpenSection | src/components/UserDashboard.tsx:290-320 | highlights the section and navigates to its path; the view waits for the route |
| UserDashboard.Dashboard.Breadcrumbs | src/components/UserDashboard.tsx:102-139 | the pushes build the trail of the current view, well formed |
| AdminDashboard.MatchTopic | src/components/AdminDashboard.tsx:118-120 | a captured topic id is a non-empty run of digits |
| AdminDashboard.Route | src/components/AdminDashboard.tsx:56-133 | a result id opens that learner result; an exam with an attempt opens the attempt with the parsed attempt number and a stored instance of 0; with no result, exam or group id the path alone decides |
| AdminDashboard.RouteSectionAgrees | src/components/AdminDashboard.tsx:56-133 | the section the effect highlights is always the section of the view it sets |
| AdminDashboard.ParamSectionAgreesBy | src/components/AdminDashboard.tsx:56-133 | with a result, exam or group id present, the highlighted section matches the view however the ids are read as numbers |
| AdminDashboard.GroupRouteByPath | src/components/AdminDashboard.tsx:95-101 | a lone group id opens the managed group exactly under '/admins/groups/', otherwise the learner's own group |
| AdminDashboard.MyPathsOpenLearnerLists | src/components/AdminDashboard.tsx:103-111 | every '/admins/my-' path opens one of the three learner lists, the groups list exactly when it is neither the results nor the exams path |
| AdminDashboard.UnknownPathOpensUsers | src/components/AdminDashboard.tsx:128-131 | a path under none of the known prefixes falls back to user management |
| AdminDashboard.TopicPathOpensTopic | src/components/AdminDashboard.tsx:115-124 | a topic link opens exactly the topic its digits name, whatever follows them |
| AdminDashboard.DigitPrefixOfPrefix | src/components/AdminDashboard.tsx:118 | the `(\d+)` capture stops at the first non-digit |
| AdminDashboard.AttemptInstance | src/components/AdminDashboard.tsx:264 | the stored instance number when truthy, else the attempt number when truthy, else 0 |
| AdminDashboard.AttemptRouteOpensAttempt | src/components/AdminDashboard.tsx:63-71 | an attempt route with a non-zero integer attempt number opens that instance through the render fallback |
| AdminDashboard.SectionPath | src/components/AdminDashboard.tsx:298-349 | every sidebar path lies under '/admins/' |
| AdminDashboard.RouteOfSectionPath | src/components/AdminDashboard.tsx:102-132 | following a sidebar button lands, once the route settles, in that section |
| AdminDashboard.SectionPathSection | src/components/AdminDashboard.tsx:102-132 | the section the effect highlights for a sidebar path is that button's section |
| AdminDashboard.LearnerPathAgreesWithView | src/components/AdminDashboard.tsx:368-402 | each learner menu entry shows at once the view the route settles on after its navigation |
| AdminDashboard.Dashboard.constructor | src/components/AdminDashboard.tsx:49-53 | starts on the users section and view with the learner menu closed |
| AdminDashboard.Dashboard.OnParams | src/components/AdminDashboard.tsx:56-133 | the effect's if-chain sets the routed view and section, so the highlighted section matches the view; the learner menu is untouched |
| AdminDashboard.Dashboard.SectionChange | src/components/AdminDashboard.tsx:135-148 | highlights the section; navigates to the root for every section except the forum; opens the learner menu for the learner section |
| AdminDashboard.Dashboard.OpenSection | src/components/AdminDashboard.tsx:296-336 | highlights the section and navigates to its path; the view waits for the route |
| AdminDashboard.Dashboard.ToggleMyTrainings | src/components/AdminDashboard.tsx:344-351 | flips the learner menu; opening it highlights the learner section and goes to the learner's groups, closing it does nothing else |
| AdminDashboard.Dashboard.OpenLearnerPage | src/components/AdminDashboard.tsx:368-402 | highlights the learner section, shows the entry's list at once and navigates to its path |

## Left out

- HTTP I/O: the axios client, the endpoint calls and `forumService`. Replies are parameters of the methods that consume them.
- Query caching: TanStack Query caching, invalidation, placeholders and the mutation pending flags. The start button's pending flag is a parameter.
- The real-time channel: `src/lib/echo.ts`, the Echo/Pusher subscription, its connection handling and the toasts. Only a push's effect on the unread counter is modelled.
- Timers: the one-second elapsed-time ticker of the attempt screen, the 500 ms search debounces, the 3-second reset of the invite notice, and the concurrency of the invite requests fired in a loop. The loop's order of requests is modelled.
- Randomness: the `Math.random` shuffles of questions and answers. `ExamAttempt.ToQuestions` keeps the delivered order, so it states nothing about a shuffled order.
- Clock and locale: date parsing, `toLocaleString` and date-fns formatting, and `new Date()`. Timestamps and `now` are integers.
- The path and the cookie jar are string parameters. `decodeURIComponent` is a parameter of the XSRF rule.
- Route-parameter extraction is done by the router, which is not part of this model; the parameters are inputs.
- JsText.StringToNumber: models `Number(s)` only for blank text and optionally signed decimal integers. Fractions, exponents, hexadecimal and `Infinity` read as NaN here.
- Floating point: progress-bar fractions. `Math.round(a / b * 100)` is modelled by exact integer rounding, so binary-rounding edge cases are not reproduced. The NaN that a zero total produces is modelled as `None` where the screen shows it, and as 0 where the code guards the division.
- ExamAttempt.SubmitPayload: the payload is a map from question id to answer. The order in which `Object.entries` lists the answers is not modelled.
- ExamAttempt.Session.Submit: the refetch after a successful submission and the redirect of a completed attempt to the result screen (line 251) are not modelled; a session is taken to be over an attempt that is not yet completed.
- ExamResults.ComputeStats: returns the last attempt itself. Formatting its end date is left out with the rest of date formatting.
- ElapsedTime.FormatElapsed: the read-back is promised for non-negative durations only. That is an assumption: the running time on the attempt screen is the client clock minus the server's start time (src/components/user/ExamAttempt.tsx:66), which is negative while the client clock lags; `NegativeHoursFormLabel` shows such a label.
- ElapsedTime.FormatMinutes: the read-back is promised for non-negative durations only, on the same assumption; `NegativeMinutesFormLabel` shows what a negative duration prints.
- ElapsedTime.FormatClock: the read-back is promised for non-negative durations only, on the same assumption.
- JsText.ParseInt: `parseInt` is called without a radix, so JavaScript reads a `0x` prefix as hexadecimal; the model reads decimal digits only. The strings parsed are ids written out in decimal, which never carry that prefix.
- JsText.ToLower: `toLowerCase` is modelled for the Latin capitals A-Z and the Cyrillic capitals U+0400-U+042F and Ґ only; other scripts, special casings and locale rules are kept unchanged. This affects `AuthContext.HasAdminRole` and the tag normalisation of `ForumNewTopic`.
- ForumNewTopic.Validate: lengths count Unicode characters, where JavaScript's `.length` counts UTF-16 code units. Titles and contents with characters outside the Basic Multilingual Plane (emoji) can pass the 10- and 20-character minimums in JavaScript and not here.
- ModuleView.Truncate: `length` and `slice` count Unicode characters, not UTF-16 code units, so a cut through a surrogate pair is not reproduced.
- LessonView.Preview: the 160-character cut counts Unicode characters, not UTF-16 code units, as for `ModuleView.Truncate`.
- Sorting.SortBy: stable by construction, since an inserted element goes before the first element it does not exceed and elements are inserted back to front. Stability itself is not stated as a contract.
- ExamAttempt.Session: questions that share an id share one stored selection, as in the source. The well-formedness of an ordered-sequence answer is kept only for a question that owns its id.
- Rendering: JSX, styling, icons, charts, dialogs and popovers.
- Files without modellable logic are not part of this model: `src/App.tsx`, `src/main.tsx`, `SecureFileViewer.tsx`, `custom-dialog.tsx`, `LoginPage.tsx`, `EmailVerificationPage.tsx`, `NotificationBell.tsx`, `ExamCard.tsx`, `ModuleCard.tsx`, `GroupExams.tsx`, `GroupModules.tsx`, `MyTrainings.tsx` (mock data), `TrainingGroupsAdmin.tsx`, `ExamDetails.tsx`, `services/courses.ts`, `services/statuses.ts`, `vite-env.d.ts`.
- ExamResultDetail.AttemptNavigator.constructor: the model starts the navigator at the initial index of the loaded attempts. The component passes that index to `useState` (src/components/user/ExamResultDetail.tsx:116), which keeps the first render's value: while the query is loading the attempts are `[]` and the index is 0, so unless the result is already cached the navigator starts at 0 whatever id was asked for.
- MyExamResults.GroupAssignments: the grouping is a map from group id to its bucket; the order in which the screen lists the groups is not modelled. `Object.values` (src/components/user/MyExamResults.tsx:422) lists integer-like keys in ascending order, so groups appear by id, not by first appearance.

## Findings

| source | as written | input that shows it | evidently intended | confidence | as-written member | corrected member |
|---|---|---|---|---|---|---|
| src/components/user/ExamResultDetail.tsx:112,143 | the selected index is found in the best-first sorted attempts but read from the unsorted list | attempts [id 1 with score 1, id 2 with score 5]. The callers never open a given attempt (src/components/UserDashboard.tsx:270 passes id 0, src/components/AdminDashboard.tsx:273 none), so the navigator starts at 0 and shows attempt 1, the first of the unsorted list, while the chart (line 222) lists attempt 2 first; Previous/Next then page in server order. Opening attempt 1 by id would show attempt 2 (`ShownAsWrittenIsAnotherAttempt`) | show the attempts in the sorted order the chart uses, reading the sorted list | not executed | ExamResultDetail.FirstShownAsWrittenIsNotFirstBar | ExamResultDetail.ShownIsRequestedAttempt |
| src/components/admin/ForumNewTopic.tsx:112-120 | the catch branch reads `error.validationErrors`, but `createTopic` rejects with the Axios error itself (src/services/forumService.ts:69-77), the interceptor only adds `isAuthError` (src/lib/api.ts:36) and `ValidationError` stores its map as `errors`; the branch never runs | a 422 reply `{errors: {title: ["taken"]}}`: no field error is shown, only a toast of the Axios message | show each field's first server message, reading the map with `extractValidationErrors` | not executed | ForumNewTopic.FieldErrorsLostAsWritten | ForumNewTopic.RejectionFieldErrors |
