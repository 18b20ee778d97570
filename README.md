# CultureRadar client, modelled in Dafny

CultureRadar is an Angular web client for a cultural-events service. People use it to browse events, sign up for time slots (occurrences), keep a personal calendar and manage a profile. Organizers create and delete events, and administrators page through users and events. This project models the client's sequential logic: the session kept in `localStorage`, the rule by which the HTTP interceptor adds a bearer token, and the state machines and pure computations of the pages.

There is one Dafny module per source file. State the component mutates in place is a `class`: its handlers are methods with `modifies` clauses. An HTTP exchange is split into the method that issues the request and returns it as a value, and the methods that receive the answer or the failure. Pure computations are functions, and lemmas state the promises made about them. Loops in the source (the running minimum of `nextStart`, the folds of `computeRangeFromOccurrences`, `groupByYmd`, `buildMonthGroups`, the 42-cell loop of `buildCalendar`) are methods with loop invariants. Each of those methods is proved against a specification: equal to a specification function, or, for `nextStart`, characterised by the `Earliest` predicate, which at most one position satisfies.

Modules:

- `Session` models `auth.service.ts`.
- `Interceptor` models `auth.interceptor.ts`.
- `Participations` models `participations.service.ts`.
- `OrganizerService` models `organizer.service.ts`.
- `EventDetails` models the event page.
- `UserCalendar` models `dashboard-user`.
- `EventList` models the event list page.
- `Home` models the home page.
- `UserDashboard` models the profile page.
- `Register` models the sign-up page.
- `CreateEvent` models the event form.
- `OrganizerDashboard` models the organizer's dashboard.
- `AdminDashboard` models the administrator's dashboard.
- `Navbar` models the navigation bar.
- `Contact` models the contact page.

Shared vocabulary:

- `Common` holds options, `filter`, `find`, `splice`, a stable insertion `sort` and `Map` bucketing.
- `Text` holds trimming, `toLowerCase`, `includes`, decimal rendering, `padStart` and string order.
- `Json` holds the JSON values kept in `localStorage`: `JSON.stringify`, `JSON.parse`, a proved round trip, and the JavaScript conversions the code relies on (truthiness, `String(x)`, spread). `Session` holds `Number(x)`.
- `Civil` holds the proleptic Gregorian calendar on day numbers, with weekdays and `YYYY-MM-DD` keys.
- `Days` holds the available-days list that two forms edit through a `Set`.

Dates are modelled as follows:

- A parsed date is a `Moment`: its instant in milliseconds plus its local calendar day. Parsing (`new Date(text)`) is a parameter of the members that need it, and so is the time zone.
- An unparsable date is `None` (an Invalid Date). Each rule about it follows JavaScript's NaN comparisons: every comparison is false.
- `new Date(y, m, d)` maps years 0..99 to 1900 + y, and the calendar models this.

## Model

| member | source | states |
|---|---|---|
| Session.NonNull | src/app/shared/auth.service.ts:44 | `x ?? null`: a present non-null value passes unchanged; a missing property or `null` gives null |
| Session.NumberOfIntToString | src/app/shared/auth.service.ts:17-53 | `Number(String(n))` is `n` for every integer, so a stored numeric id reads back as itself |
| Session.NumberOfNonNumeric | src/app/shared/auth.service.ts:52 | `Number` of text whose first character cannot begin a numeric literal is NaN |
| Session.NumberOfUndefined | src/app/shared/auth.service.ts:17-52 | `Number("undefined")` is NaN |
| Session.TokenOf | src/app/shared/auth.service.ts:36-48 | a truthy `token` item is returned as is; with neither `token` nor `auth` the result is null; an `auth` item that does not parse, or parses to something other than an object (`null` included), gives null; the result is never JSON `null` |
| Session.UserIdOf | src/app/shared/auth.service.ts:50-53 | `getUserId` is `Number(v)` exactly when the `user_id` item is truthy, otherwise null; that number may be NaN, or text the model keeps unevaluated such as `"12abc"` |
| Session.UserOf | src/app/shared/auth.service.ts:55-66 | a user is returned only when a token is truthy, the `user` item parses to it and it has a truthy `id` |
| Session.AuthService.GetToken | src/app/shared/auth.service.ts:36-48 | `getToken`: the `token` item when truthy, else the `token` member of the parsed `auth` item, else null (no `ensures`; its properties are in `Session.TokenOf`, `Session.TokenAfterLogin` and `Session.TokenFromAuth`) |
| Session.AuthService.GetUserId | src/app/shared/auth.service.ts:50-53 | `getUserId` on the current storage (no `ensures`; stated by `Session.UserIdOf`) |
| Session.AuthService.GetUser | src/app/shared/auth.service.ts:55-66 | `getUser` on the current storage: null without a truthy token or a `user` item, or when the parsed user has no truthy `id` (no `ensures`; stated by `Session.UserOf`) |
| Session.AuthService.constructor | src/app/shared/auth.service.ts:6 | the logged-in flag starts true exactly when the `token` item is truthy; nothing emitted yet |
| Session.AuthService.Login | src/app/shared/auth.service.ts:12-23 | throws exactly when `user` is null (after the token is stored); otherwise writes the four keys and emits `true` |
| Session.AuthService.Logout | src/app/shared/auth.service.ts:27-33 | `token`, `user_id`, `user` and `auth` are all absent, every other key is kept, the flag is false and `false` is emitted |
| Session.GetWellFormed | src/app/shared/auth.service.ts:44 | a member read from a well-formed parsed value is well-formed |
| Session.LoggedInItems | src/app/shared/auth.service.ts:16-20 | after login the four items hold the token, `String(user.id)`, the user with the token spread in, and `{token, userId}` |
| Session.AuthRecordFacts | src/app/shared/auth.service.ts:20 | the stored `auth` record is well-formed and its `token` member is the token |
| Session.TokenFromAuth | src/app/shared/auth.service.ts:41-44 | with no truthy `token` item, the token is the `auth` record's `token` member, `?? null` |
| Session.StringifyNonEmpty | src/app/shared/auth.service.ts:19-20 | `JSON.stringify` of a value is never empty, so stored records are truthy items |
| Session.TokenAfterLogin | src/app/shared/auth.service.ts:16-39 | after `login(t, u)` with a non-null user, `getToken()` returns `t` |
| Session.SpreadWellFormed | src/app/shared/auth.service.ts:13 | `{ ...user, token }` of a well-formed user is well-formed |
| Session.SpreadId | src/app/shared/auth.service.ts:13 | spreading a user into a new object keeps its `id` member |
| Session.UserWithTokenFacts | src/app/shared/auth.service.ts:13 | `{ ...user, token }` is well-formed and has the user's `id` |
| Session.AssignWellFormed | src/app/shared/auth.service.ts:13 | setting a member of a well-formed object keeps it well-formed |
| Session.UserFromItem | src/app/shared/auth.service.ts:55-66 | with a stored token and user, `getUser` is the user exactly when the token is non-empty and the user is truthy with a truthy `id` |
| Session.UserAfterLogin | src/app/shared/auth.service.ts:12-66 | after login, `getUser` is the user with the token spread in exactly when the token is non-empty and the user's `id` is truthy |
| Session.UserIdAfterLogin | src/app/shared/auth.service.ts:17-53 | after login with a numeric `id`, `getUserId` is that number |
| Session.UserIdWithoutId | src/app/shared/auth.service.ts:17-53 | after login with a user lacking `id`, `user_id` is the text `undefined` and `getUserId` is NaN |
| Session.LoggedOutGetters | src/app/shared/auth.service.ts:27-66 | after logout `getToken`, `getUserId` and `getUser` are all null |
| Interceptor.InterceptorTokenAgrees | src/app/shared/auth.interceptor.ts:6-11 | the interceptor's own token lookup (`token` first, then `auth.token ?? null`, null on a parse failure) always agrees with the auth service's |
| Interceptor.Intercept | src/app/shared/auth.interceptor.ts:13-24 | verb, URL, body and every other header pass unchanged; a request that changes needs auth, had a truthy token, and gains `Authorization: Bearer <token>` |
| Interceptor.InterceptAdds | src/app/shared/auth.interceptor.ts:14-23 | an API request with a truthy token gets exactly the bearer header added |
| Interceptor.InterceptPasses | src/app/shared/auth.interceptor.ts:18-21 | a request that needs no auth, or finds no truthy token, is passed on unchanged |
| Interceptor.ApiRequestAfterLogin | src/app/shared/auth.interceptor.ts:20-23 | after a login with a non-empty token, an API request carries `Bearer <that token>` |
| Interceptor.RequestWithToken | src/app/shared/auth.interceptor.ts:20-23 | a stored non-empty token is the one put in the header |
| Interceptor.RequestAfterLogout | src/app/shared/auth.interceptor.ts:18-21 | after logout every request is passed on unchanged |
| Interceptor.NeedsAuthExamples | src/app/shared/auth.interceptor.ts:3-16 | absolute API URLs and `/me...` paths need auth (so does `/media`, which starts with `/me`); asset paths do not |
| Participations.MineUrl | src/app/shared/participations.service.ts:32-34 | the URL of `getMine(future)` lies under the API base, so the interceptor signs it |
| Participations.JoinUrl | src/app/shared/participations.service.ts:37-39 | the URL of `join` is signed by the interceptor |
| Participations.CancelUrl | src/app/shared/participations.service.ts:42-44 | the URL of `cancel(id)` is signed by the interceptor |
| Participations.MineUrlFlag | src/app/shared/participations.service.ts:33 | the `getMine` URL ends with `future=true` or `future=false` as the flag says, and the two URLs differ |
| Participations.CancelUrlInjective | src/app/shared/participations.service.ts:43 | distinct participation ids have distinct cancel URLs |
| Participations.OccurrenceMap | src/app/shared/participations.service.ts:47-50 | the keys of `getMyOccurrenceMap` are exactly the `occurrence_id`s of the list, whatever the status |
| Participations.OccurrenceMapAppend | src/app/shared/participations.service.ts:49 | the map of a list with one more row is the previous map with that row's occurrence bound to its id |
| Participations.OccurrenceMapLastWins | src/app/shared/participations.service.ts:49 | for a duplicated `occurrence_id`, the id of the last participation in the list is the one kept |
| Participations.OccurrenceMapSize | src/app/shared/participations.service.ts:49 | the map has no more entries than the list has rows |
| EventDetails.ByStartAsymmetric | src/app/features/event-details/event-details.component.ts:114 | the start comparator never says both `a` before `b` and `b` before `a`, so the sort is well defined |
| EventDetails.SortByStart | src/app/features/event-details/event-details.component.ts:112-114 | the sorted slots are a permutation of the input, and no slot starts later than the slot after it (adjacent pairs) |
| EventDetails.SortByStartChronological | src/app/features/event-details/event-details.component.ts:112-114 | when every start parses, the sorted slots are in non-decreasing start order, pair by pair |
| EventDetails.IndexOfKey | src/app/features/event-details/event-details.component.ts:362-366 | the index of the group with a key, or -1 exactly when no group has it |
| EventDetails.GroupByMonth | src/app/features/event-details/event-details.component.ts:357-369 | the groups have strictly ascending keys, there is one for each `YYYY-MM` of a slot and none other, and each holds exactly the slots of its month, in input order |
| EventDetails.GroupStep | src/app/features/event-details/event-details.component.ts:359-367 | one loop step keeps the loop's invariant: distinct keys, the months seen so far, each group the filtered slots seen so far |
| EventDetails.MonthsAppend | src/app/features/event-details/event-details.component.ts:359-361 | the months of the slots seen grow by the month of the new slot |
| EventDetails.GroupStepKeys | src/app/features/event-details/event-details.component.ts:362-364 | a new key is added only when absent, so keys stay distinct and gain the slot's month |
| EventDetails.GroupStepItems | src/app/features/event-details/event-details.component.ts:366 | the slot is pushed onto its own month's group and no other group changes |
| EventDetails.KeysComparable | src/app/features/event-details/event-details.component.ts:368 | any two distinct keys are ordered one way or the other |
| EventDetails.AscendingKeys | src/app/features/event-details/event-details.component.ts:368 | after the sort every earlier key is strictly below every later one |
| EventDetails.SlotInItsGroup | src/app/features/event-details/event-details.component.ts:357-369 | every slot lies in exactly one group: the one of its year-month |
| EventDetails.FirstAtLeast | src/app/features/event-details/event-details.component.ts:375 | `findIndex(g => g.key >= curKey)`: the first group whose key is at least the current month, or -1 when every key is below it |
| EventDetails.InitialMonthIndex | src/app/features/event-details/event-details.component.ts:371-377 | 0 with no groups; otherwise the first group at or after the current month, else the last group, always a valid index |
| EventDetails.GoingRowsMembers | src/app/features/event-details/event-details.component.ts:147-152 | the kept rows are exactly the present rows of this event with status `going` |
| EventDetails.GoingRowsStep | src/app/features/event-details/event-details.component.ts:147-152 | the kept rows of a longer prefix are those of the shorter one plus the new row when it is kept |
| EventDetails.CollectGoing | src/app/features/event-details/event-details.component.ts:143-152 | the `forEach` rebuilds the map as the participation map of the kept rows and the selection as its keys |
| EventDetails.EventDetailsComponent.constructor | src/app/features/event-details/event-details.component.ts:44-78 | the field initialisers: logged out, no event, nothing selected, cached or pending, no groups and index 0 |
| EventDetails.EventDetailsComponent.OnInit | src/app/features/event-details/event-details.component.ts:82-93 | `ngOnInit`: logged in when a token or a user is stored, then the replayed login status is handled: the flag equals the service's status; logged out, the selection and the cache are cleared and nothing is requested; logged in, they are kept and the participations request `MineRequest` under the stored token is returned exactly when an event is shown and the token is truthy |
| EventDetails.EventDetailsComponent.RequestMine | src/app/features/event-details/event-details.component.ts:133-139 | with a truthy stored token, the GET of `/me/participations?future=true` carrying `Authorization: Bearer <token>` (`MineRequest`); without one, no request |
| EventDetails.MineRequest | src/app/features/event-details/event-details.component.ts:133-139 | the GET of `/me/participations?future=true` with the bearer header of a token (no `ensures`; `EventDetails.MineRequestIntercepted` and the request-returning methods state it) |
| EventDetails.MineRequestIntercepted | src/app/features/event-details/event-details.component.ts:133-139 | the interceptor leaves the request unchanged: it would set the same bearer header from the same stored token |
| EventDetails.EventDetailsComponent.OnLoggedInChange | src/app/features/event-details/event-details.component.ts:85-93 | a logged-out signal clears the selection and the map and requests nothing; a logged-in signal keeps them and returns `MineRequest` under the stored token exactly when the event is loaded and the token is truthy |
| EventDetails.EventDetailsComponent.OnEventLoaded | src/app/features/event-details/event-details.component.ts:110-125 | the slots are sorted by start; the month groups and the index are rebuilt as in `buildMonthGroups` and `setInitialMonthIndex`; `MineRequest` under the stored token is returned exactly when logged in with a truthy token; the selection is untouched |
| EventDetails.EventDetailsComponent.ShowEvent | src/app/features/event-details/event-details.component.ts:111-118 | the event is shown with its slots sorted by start, the month groups rebuilt and the index set, as `OnEventLoaded` states |
| EventDetails.EventDetailsComponent.OnMineLoaded | src/app/features/event-details/event-details.component.ts:142-153 | the map is rebuilt from scratch from this event's `going` rows, the selection is exactly its keys, and pending marks are kept |
| EventDetails.EventDetailsComponent.OnOccClick | src/app/features/event-details/event-details.component.ts:165-237 | each outcome exactly: a slot before today's midnight is `PastSlot`; otherwise without a token it is `LoginFirst` with the current URL; otherwise a pending slot is `AlreadyPending`; for any other click an unselected slot sends the create to the join URL with the slot's id and the bearer header, a selected slot with a non-zero participation id sends the delete of that participation, and a selected slot without one is `NoParticipationId`; only a sent request marks the slot pending and in flight, and nothing else changes |
| EventDetails.EventDetailsComponent.OnDeleteSuccess | src/app/features/event-details/event-details.component.ts:194-198 | the slot leaves the selection, the map and the pending set |
| EventDetails.EventDetailsComponent.OnCreateSuccess | src/app/features/event-details/event-details.component.ts:219-222 | the slot joins the selection, its id is cached only when the response has a truthy id, and it is no longer pending |
| EventDetails.EventDetailsComponent.OnRequestFailure | src/app/features/event-details/event-details.component.ts:202-233 | the slot is no longer pending, the selection and the map are unchanged, and a 401 leads to the login page with the current URL as redirect |
| EventDetails.EventDetailsComponent.IsBeforeToday | src/app/features/event-details/event-details.component.ts:239-245 | `isBeforeToday`: the start parses and is before today's local midnight (no `ensures`; it is the guard `OnOccClick` states its refusal by) |
| EventDetails.EventDetailsComponent.PrevMonth | src/app/features/event-details/event-details.component.ts:379-381 | the index goes down by one exactly when it is above 0, and stays valid |
| EventDetails.EventDetailsComponent.NextMonth | src/app/features/event-details/event-details.component.ts:380-382 | the index goes up by one exactly when it is below the last group, and stays valid |
| EventDetails.EventDetailsComponent.CurrentGroup | src/app/features/event-details/event-details.component.ts:383-385 | a group exactly when there are groups, and then the one at the index |
| EventDetails.EventDetailsComponent.CanPrev | src/app/features/event-details/event-details.component.ts:381 | `canPrev`: the month index is above 0 (no `ensures`; `PrevMonth` states its effect by it) |
| EventDetails.EventDetailsComponent.CanNext | src/app/features/event-details/event-details.component.ts:382 | `canNext`: the month index is below the last group (no `ensures`; `NextMonth` states its effect by it) |
| Civil.DaysInMonth | src/app/features/dashboard-user/dashboard-user.component.ts:146 | a month has 28 to 31 days |
| Civil.NextDayNumber | src/app/features/dashboard-user/dashboard-user.component.ts:146 | `setDate(getDate() + 1)`: the next calendar day is valid and one day number later |
| Civil.PrevDayNumber | src/app/features/dashboard-user/dashboard-user.component.ts:140 | the previous calendar day is valid and one day number earlier |
| Civil.AddDays | src/app/features/dashboard-user/dashboard-user.component.ts:145-146 | moving `n` days forward gives a valid date `n` day numbers later |
| Civil.SubDays | src/app/features/dashboard-user/dashboard-user.component.ts:140 | `new Date(year, month, 1 - shift)`: moving `n` days back gives a valid date `n` day numbers earlier |
| Civil.JsGetDay | src/app/features/dashboard-user/dashboard-user.component.ts:139 | `getDay()` (0 = Sunday) shifted by six is the Monday-based weekday |
| Civil.WeekdayAnchors | src/app/features/dashboard-user/dashboard-user.component.ts:139 | the weekday numbering agrees with the calendar: 2024-01-01 was a Monday, 2026-10-14 a Wednesday |
| Civil.NextDayWeekday | src/app/features/dashboard-user/dashboard-user.component.ts:144-146 | consecutive days have consecutive weekdays, modulo 7 |
| Civil.JsYear | src/app/features/dashboard-user/dashboard-user.component.ts:138-140 | `new Date(y, m, d)` reads years 0 to 99 as 1900 + y and keeps every other year |
| Civil.DayNumberOrder | src/app/features/dashboard-user/dashboard-user.component.ts:149 | day numbers order dates as the calendar does |
| Civil.DayNumberInjective | src/app/features/dashboard-user/dashboard-user.component.ts:147 | distinct valid dates have distinct day numbers |
| Civil.YmdShape | src/app/features/dashboard-user/dashboard-user.component.ts:125-130 | `dateToYmd` is the year, a dash, the two-digit zero-padded month, a dash and the two-digit zero-padded day |
| Civil.YmdInjective | src/app/features/dashboard-user/dashboard-user.component.ts:125-130 | distinct valid dates have distinct `YYYY-MM-DD` keys |
| Civil.YmdNotInvalid | src/app/features/dashboard-user/dashboard-user.component.ts:117-118 | no valid date has the key of an invalid date |
| Civil.YmdOrder | src/app/features/dashboard-user/dashboard-user.component.ts:149 | for four-digit years, comparing keys as strings is comparing the dates |
| UserCalendar.DayKey | src/app/features/dashboard-user/dashboard-user.component.ts:117-118 | the day key of a participation is `dateToYmd` of its start, or the invalid-date key when the start is missing or does not parse |
| UserCalendar.DayKeySeparatesDays | src/app/features/dashboard-user/dashboard-user.component.ts:117-118 | participations starting on different days get different keys |
| UserCalendar.GroupByYmd | src/app/features/dashboard-user/dashboard-user.component.ts:114-123 | the map's keys are exactly the day keys of the list, and each entry is the list's participations of that day, in list order |
| UserCalendar.FirstOfMonth | src/app/features/dashboard-user/dashboard-user.component.ts:138 | `new Date(year, month, 1)`: the 1st of the month, with the 0-99 year rule |
| UserCalendar.Shift | src/app/features/dashboard-user/dashboard-user.component.ts:139 | the number of days before the 1st in its week, Monday first, below 7 |
| UserCalendar.GridStart | src/app/features/dashboard-user/dashboard-user.component.ts:140 | the first day of the grid is a valid date |
| UserCalendar.GridCells | src/app/features/dashboard-user/dashboard-user.component.ts:143-153 | the loop builds exactly the 42 cells of the month, cell `i` being day `i` of the grid |
| UserCalendar.GridShape | src/app/features/dashboard-user/dashboard-user.component.ts:138-153 | the cells run over 42 consecutive days starting on the Monday on or before the 1st |
| UserCalendar.GridStartMonday | src/app/features/dashboard-user/dashboard-user.component.ts:139-140 | the grid starts on a Monday |
| UserCalendar.RoundDownToWeek | src/app/features/dashboard-user/dashboard-user.component.ts:139-140 | removing the weekday index from a day number gives a multiple of 7 |
| UserCalendar.SameMonth | src/app/features/dashboard-user/dashboard-user.component.ts:146 | within a month, day numbers step with the day of the month |
| UserCalendar.GridDate | src/app/features/dashboard-user/dashboard-user.component.ts:140-148 | cell `i` is day `i - shift + 1` of the month exactly when it lies in the month's span, and is in the month only then |
| UserCalendar.DayOfMonthAt | src/app/features/dashboard-user/dashboard-user.component.ts:146 | `k` days after the 1st, within the month, is day `k + 1` |
| UserCalendar.BeforeMonth | src/app/features/dashboard-user/dashboard-user.component.ts:148 | the days shown before the 1st belong to another month |
| UserCalendar.AfterMonth | src/app/features/dashboard-user/dashboard-user.component.ts:148 | the days shown after the month's last day belong to another month |
| UserCalendar.CurrentMonthCells | src/app/features/dashboard-user/dashboard-user.component.ts:148 | `isCurrentMonth` holds exactly for the cells of the displayed month, which carry their day of the month |
| UserCalendar.MonthFullyShown | src/app/features/dashboard-user/dashboard-user.component.ts:144-148 | every day of the month has its cell in the grid, marked in the month |
| UserCalendar.TodayAndPast | src/app/features/dashboard-user/dashboard-user.component.ts:149-150 | `isToday` holds exactly on today's date; for four-digit years `isPast` holds exactly before today |
| UserCalendar.OneToday | src/app/features/dashboard-user/dashboard-user.component.ts:150 | at most one cell is today |
| UserCalendar.CellEvents | src/app/features/dashboard-user/dashboard-user.component.ts:151 | a cell's events are the participations of its day, or none |
| UserCalendar.DefaultIsToday | src/app/features/dashboard-user/dashboard-user.component.ts:157-159 | when today falls in the displayed month, today is selected |
| UserCalendar.DefaultElsewhere | src/app/features/dashboard-user/dashboard-user.component.ts:157-161 | otherwise the first cell of the month with events is selected, and the 1st of the month when there is none |
| UserCalendar.DefaultWithoutToday | src/app/features/dashboard-user/dashboard-user.component.ts:158-161 | when no cell is today in the month, the first day of the month with participations is selected, or the 1st when there is none |
| UserCalendar.Previous | src/app/features/dashboard-user/dashboard-user.component.ts:81-83 | the month before, the year decreasing on a January, the month staying in 0..11 |
| UserCalendar.Following | src/app/features/dashboard-user/dashboard-user.component.ts:87-89 | the month after, the year increasing on a December, the month staying in 0..11 |
| UserCalendar.StepsInverse | src/app/features/dashboard-user/dashboard-user.component.ts:81-91 | a step back and a step forward undo one another |
| UserCalendar.WithoutInCells | src/app/features/dashboard-user/dashboard-user.component.ts:104-108 | the cells keep their number; the cell of the cancelled day loses that participation, the others are unchanged |
| UserCalendar.CancelledGone | src/app/features/dashboard-user/dashboard-user.component.ts:104-108 | in the cancelled day's cell the participation is gone and every other one kept; other cells are untouched |
| UserCalendar.DashboardUserComponent.constructor | src/app/features/dashboard-user/dashboard-user.component.ts:27-35 | the view starts on today's month, with no cells, no selection, an empty map, loading |
| UserCalendar.DashboardUserComponent.BuildCalendar | src/app/features/dashboard-user/dashboard-user.component.ts:132-162 | the cells are the month's grid over the current map and the selection is the default one |
| UserCalendar.DashboardUserComponent.OnLoaded | src/app/features/dashboard-user/dashboard-user.component.ts:66-71 | the map groups future and past participations by day, the month's grid and default selection are built, loading ends |
| UserCalendar.DashboardUserComponent.OnLoadFailed | src/app/features/dashboard-user/dashboard-user.component.ts:72-76 | the map is empty, the grid is built over it, loading ends |
| UserCalendar.DashboardUserComponent.PrevMonth | src/app/features/dashboard-user/dashboard-user.component.ts:81-85 | the view steps to the previous month and the grid is rebuilt over the same map |
| UserCalendar.DashboardUserComponent.NextMonth | src/app/features/dashboard-user/dashboard-user.component.ts:87-91 | the view steps to the next month and the grid is rebuilt over the same map |
| UserCalendar.DashboardUserComponent.SelectDay | src/app/features/dashboard-user/dashboard-user.component.ts:93-95 | the selection is the cell's key |
| UserCalendar.DashboardUserComponent.SelectedEvents | src/app/features/dashboard-user/dashboard-user.component.ts:38-40 | empty with no (or an empty) selection or no entry for it; otherwise the participations of the selected day |
| UserCalendar.DashboardUserComponent.OnCancelled | src/app/features/dashboard-user/dashboard-user.component.ts:97-110 | the participation with that id leaves its day's entry and cell; every other day and cell is unchanged |
| UserCalendar.IsFuture | src/app/features/dashboard-user/dashboard-user.component.ts:164-166 | `isFuture`: the start (or the empty text when missing) parses and is not before now; an Invalid Date is never in the future (no `ensures`) |
| EventList.StripPlain | src/app/features/event-list/event-list.component.ts:111-112 | after removing the diacritics no combining or spacing accent is left |
| EventList.PlainBase | src/app/features/event-list/event-list.component.ts:111-112 | the base letter of an accented Latin-1 letter carries no accent |
| EventList.LowerPlain | src/app/features/event-list/event-list.component.ts:113 | lower-casing an accent-free character keeps it accent-free and folds it |
| EventList.NormalizedFolded | src/app/features/event-list/event-list.component.ts:108-115 | a normalized keyword is lower-case, accent-free and trimmed |
| EventList.StripFolded | src/app/features/event-list/event-list.component.ts:111-112 | removing diacritics from accent-free text changes nothing |
| EventList.NormalizeKw | src/app/features/event-list/event-list.component.ts:108-115 | `normalizeKw`: diacritics stripped, lower-cased, trimmed (no `ensures`; stated by `EventList.NormalizedFolded` and `EventList.NormalizeIdempotent`) |
| EventList.NormalizeIdempotent | src/app/features/event-list/event-list.component.ts:108-115 | normalizing a keyword twice is normalizing it once |
| EventList.NormalizeAll | src/app/features/event-list/event-list.component.ts:276-277 | one normalized keyword per keyword, in order |
| EventList.SentAsStored | src/app/features/event-list/event-list.component.ts:126-277 | keywords stored by `addKeyword` go out on the wire unchanged |
| EventList.Timestamp | src/app/features/event-list/event-list.component.ts:99 | a timestamp only for a present non-empty start that `Date.parse` accepts |
| EventList.EarliestUnique | src/app/features/event-list/event-list.component.ts:100 | the first earliest upcoming start is unique, so ties go to the first |
| EventList.NextStart | src/app/features/event-list/event-list.component.ts:92-106 | null for a non-array input or when no start is at or after now; otherwise the start of the first occurrence with the earliest upcoming timestamp |
| EventList.Round | src/app/features/event-list/event-list.component.ts:342 | `Math.round`: the nearest integer, halves rounding up |
| EventList.FullCount | src/app/features/event-list/event-list.component.ts:342-343 | between 0 and 5 stars are full |
| EventList.MakeStars | src/app/features/event-list/event-list.component.ts:340-344 | always 5 entries; all empty for a null average; otherwise star `i` is full exactly when `i < round(avg)` |
| EventList.StarsFullFirst | src/app/features/event-list/event-list.component.ts:343 | the full stars come first, then the empty ones |
| EventList.FilterQueryUnique | src/app/features/event-list/event-list.component.ts:252-278 | the filtered query is determined by the form and the page |
| EventList.HasFilters | src/app/features/event-list/event-list.component.ts:232-245 | `hasFilters`: a non-blank search text or city, a date, an hour, an age bound, a keyword, a coordinate or a radius (no `ensures`; `EventList.EventListComponent.Load` states its choice by it) |
| EventList.FilterQuery | src/app/features/event-list/event-list.component.ts:252-277 | the parameters `loadWithFilters` sends for a form and a page (no `ensures`; stated by `EventList.FilterParams`, `EventList.FilterQueryUnique` and the lemmas after it) |
| EventList.FilterQueryCentre | src/app/features/event-list/event-list.component.ts:267-270 | `lat`/`lon` go out only as a pair and only when both are set, and `radius_km` only with them |
| EventList.FilterQueryText | src/app/features/event-list/event-list.component.ts:251-260 | `q` is sent trimmed and only when non-blank; the page is sent; `limit`/`offset` are not |
| EventList.FilterQueryKeywords | src/app/features/event-list/event-list.component.ts:276-277 | one `kw_any` per include keyword and one `kw_none` per exclude keyword, in order |
| EventList.RankAt | src/app/features/event-list/event-list.component.ts:254-277 | the builder's steps take the parameters in a fixed order |
| EventList.BuiltPut | src/app/features/event-list/event-list.component.ts:254-277 | a step that sets a parameter to its expected values extends the built prefix by one |
| EventList.PrefixBuilt | src/app/features/event-list/event-list.component.ts:254-277 | the parameters after `n` steps carry exactly the first `n` parameters' expected values |
| EventList.CentreSkipped | src/app/features/event-list/event-list.component.ts:268-271 | without both coordinates the centre steps add nothing |
| EventList.SingleValued | src/app/features/event-list/event-list.component.ts:255-274 | every `set` parameter carries at most one value |
| EventList.PrefixAppend | src/app/features/event-list/event-list.component.ts:254-277 | each step extends the previous parameters by that step's values |
| EventList.BuiltAll | src/app/features/event-list/event-list.component.ts:254-277 | after every step each parameter carries exactly its expected values |
| EventList.UpdateTwice | src/app/features/event-list/event-list.component.ts:276-277 | writing a parameter twice keeps the second value |
| EventList.AppendAll | src/app/features/event-list/event-list.component.ts:276-277 | `forEach(... append ...)` adds the values after any already there, and nothing for no values |
| EventList.FilterParams | src/app/features/event-list/event-list.component.ts:252-278 | the parameters `loadWithFilters` builds are the filtered query of the form and the page |
| EventList.SetStep | src/app/features/event-list/event-list.component.ts:255-274 | one `set` step of the builder |
| EventList.AppendStep | src/app/features/event-list/event-list.component.ts:276-277 | one keyword `append` step of the builder |
| EventList.DefaultQuery | src/app/features/event-list/event-list.component.ts:286-300 | the recommendation feed with its own bearer header exactly when logged in with a truthy token, the home feed otherwise; `limit = per_page` and `offset = (page - 1) * per_page` |
| EventList.DefaultPaging | src/app/features/event-list/event-list.component.ts:292-294 | the first page starts at offset 0, page `p + 1` at `p * per_page`, and the limit reads back as `per_page` |
| EventList.RecoHeaderAgrees | src/app/features/event-list/event-list.component.ts:287-300 | the header the page sets equals the one the interceptor would add, so the request goes out unchanged |
| EventList.RetryOnError | src/app/features/event-list/event-list.component.ts:304-311 | a recommendation request refused with 401 or 403 is retried on the home feed with the same paging and no header; nothing else is retried |
| EventList.RetryOnce | src/app/features/event-list/event-list.component.ts:305-308 | a retried request is never retried again |
| EventList.EventListComponent.constructor | src/app/features/event-list/event-list.component.ts:31-68 | no filters, empty input, page 1, logged out |
| EventList.EventListComponent.Load | src/app/features/event-list/event-list.component.ts:229-249 | the filtered search when a filter is set, the default feed otherwise |
| EventList.EventListComponent.OnInit | src/app/features/event-list/event-list.component.ts:75-85 | the flag ends as the service's, the page is 1, and the same request is sent twice |
| EventList.EventListComponent.OnLoggedInChange | src/app/features/event-list/event-list.component.ts:78-82 | the flag is taken, the page reset to 1 and the matching request sent |
| EventList.EventListComponent.AddKeyword | src/app/features/event-list/event-list.component.ts:123-136 | a blank input, or one that normalizes to nothing, changes nothing; otherwise the normalized keyword joins its list only when absent, the input is cleared and the search restarts at page 1 |
| EventList.EventListComponent.RemoveInclude | src/app/features/event-list/event-list.component.ts:138-141 | every copy of the keyword leaves the include list, the rest keep their order, page 1 |
| EventList.EventListComponent.RemoveExclude | src/app/features/event-list/event-list.component.ts:142-145 | every copy of the keyword leaves the exclude list, the rest keep their order, page 1 |
| EventList.EventListComponent.UsePresetLocation | src/app/features/event-list/event-list.component.ts:182-188 | the centre is Paris, the radius defaults to 30 when unset, page 1 |
| EventList.EventListComponent.ResetAndSearch | src/app/features/event-list/event-list.component.ts:190-193 | page 1 and the matching request |
| EventList.EventListComponent.NextPage | src/app/features/event-list/event-list.component.ts:194-197 | the page goes up by one and the matching request is sent |
| EventList.EventListComponent.PrevPage | src/app/features/event-list/event-list.component.ts:198-203 | above page 1 the page goes down by one and a request is sent; on page 1 nothing happens |
| EventList.EventListComponent.ClearFilters | src/app/features/event-list/event-list.component.ts:205-226 | every filter is empty or null, so `hasFilters` is false and the default feed for page 1 is requested |
| EventList.KeywordsFilter | src/app/features/event-list/event-list.component.ts:139-143 | filtering a keyword list keeps it normalized and free of duplicates |
| Home.EarliestLeast | src/app/features/home/home.component.ts:175 | the fold over the starts keeps one of them that is not after any other |
| Home.LatestGreatest | src/app/features/home/home.component.ts:176 | the fold over the ends keeps one of them that is not before any other |
| Home.RangeOf | src/app/features/home/home.component.ts:165-183 | what `computeRangeFromOccurrences` settles on before rendering (no `ensures`; stated by `Home.RangeBounds`, and `Home.ComputeRange` is the loop proved equal to it) |
| Home.RangeBounds | src/app/features/home/home.component.ts:165-177 | no occurrences give a null start and end; otherwise the start is the earliest `debut` and the end the latest `fin`, or `debut` where `fin` is missing |
| Home.FoldStep | src/app/features/home/home.component.ts:171-177 | one more occurrence advances both folds by one strict comparison |
| Home.ComputeRange | src/app/features/home/home.component.ts:165-183 | the loop computes exactly that range |
| Home.ImageOfShape | src/app/features/home/home.component.ts:148-150 | a truthy image name is served from the image host under its own name; anything else gets the stock picture |
| Home.CardsStep | src/app/features/home/home.component.ts:141-159 | mapping one more event appends its card, or throws when its range holds an Invalid Date |
| Home.CardsAbort | src/app/features/home/home.component.ts:141 | once one event throws, the whole mapping throws |
| Home.CardsThrow | src/app/features/home/home.component.ts:141-181 | the mapping throws exactly when some event's range holds an Invalid Date |
| Home.CardsEach | src/app/features/home/home.component.ts:141-159 | otherwise there is one card per event, in order, each built from its own range |
| Home.CardRange | src/app/features/home/home.component.ts:142-158 | a card has a range start and end exactly when its event has occurrences, and keeps the event's id, title and commune |
| Home.Cards | src/app/features/home/home.component.ts:140-159 | the cards `handleEvents` builds, or none when `toISOString` throws for some event (no `ensures`; stated by `Home.CardsStep`, `Home.CardsAbort`, `Home.CardsThrow` and `Home.CardsEach`) |
| Home.FormatDateRange | src/app/features/home/home.component.ts:186-189 | `''` without a start; one day label when the end is missing |
| Home.FormatBothEnds | src/app/features/home/home.component.ts:191-209 | one label for the same day, `d1–d2 <month year>` within one month and year, the two labels joined by an arrow otherwise |
| Home.FormatDaysOnly | src/app/features/home/home.component.ts:185-210 | the text depends only on the calendar days of the ends, never on the time |
| Home.FormatSameMonthDays | src/app/features/home/home.component.ts:199-205 | two different days of one month give the day numbers joined by a dash, then the month and year |
| Home.FilterAsWritten | src/app/features/home/home.component.ts:225 | the filter as written: with a blank trimmed term every event is kept |
| Home.Filtered | src/app/features/home/home.component.ts:224-228 | with a blank trimmed term every event is kept, and never more events than given |
| Home.TrimPaddedJazz | src/app/features/home/home.component.ts:225 | `"jazz ".trim()` is `"jazz"` |
| Home.LowerJazz | src/app/features/home/home.component.ts:226 | `"Jazz".toLowerCase()` is `"jazz"` |
| Home.PaddedTermHidesMatch | src/app/features/home/home.component.ts:225-227 | the term `"jazz "` hides the event titled `Jazz` as written, and the corrected filter keeps it |
| Home.FilteredPadding | src/app/features/home/home.component.ts:225-226 | the corrected filter ignores white space around the term |
| Home.FilteredMembers | src/app/features/home/home.component.ts:226-227 | with a non-blank term, an event is kept exactly when its lower-cased title contains the lower-cased trimmed term |
| Home.FilteredOrder | src/app/features/home/home.component.ts:227 | filtering keeps the events' order: it distributes over concatenation |
| Home.FilterAsWrittenMembers | src/app/features/home/home.component.ts:226-227 | with a non-blank trimmed term, an event is kept exactly when its lower-cased title contains the lower-cased untrimmed term |
| Home.FilterAsWrittenExactly | src/app/features/home/home.component.ts:226-227 | the same, for every event at once |
| Home.FilterAsWrittenOrder | src/app/features/home/home.component.ts:227 | the filter as written keeps the events' order: it distributes over concatenation |
| Home.UrlsDiffer | src/app/features/home/home.component.ts:87-109 | the search, recommendation and home URLs are three different URLs |
| Home.HomeQueryFiltered | src/app/features/home/home.component.ts:79-94 | the search endpoint is used exactly when the trimmed term or location is non-blank, and `q`/`city` go out trimmed and non-empty |
| Home.HomeQuery | src/app/features/home/home.component.ts:76-121 | the request of `loadEvents`: the filtered search with the trimmed term and place when either is non-blank, else the recommendations with a bearer header when logged in with a truthy token, else the home feed; twenty items (no `ensures`; stated by `Home.HomeQueryFiltered`, `Home.HomeQueryPadding` and `Home.LoggedOutNoReco`) |
| Home.HomeQueryPadding | src/app/features/home/home.component.ts:79-94 | padding the term or the location changes nothing in the request |
| Home.HomeRetry | src/app/features/home/home.component.ts:125-136 | a retry on the home feed happens exactly for a default request in a logged-in session with a token refused with 401 or 403 |
| Home.LoggedOutNoReco | src/app/features/home/home.component.ts:104-121 | logged out, the recommendation feed is never asked and no header is set |
| Home.HomeComponent.constructor | src/app/features/home/home.component.ts:18-30 | no events, logged out, no user id, empty term and location, not loading |
| Home.HomeComponent.ShowHero | src/app/features/home/home.component.ts:68-70 | the hero shows exactly when logged out and the trimmed term is empty |
| Home.HomeComponent.SectionTitle | src/app/features/home/home.component.ts:72-74 | the personal title exactly when logged in, the plain title exactly when logged out |
| Home.HomeComponent.FilteredEvents | src/app/features/home/home.component.ts:224-228 | the getter as written: every event for a blank trimmed term; otherwise exactly the events whose lower-cased title contains the lower-cased untrimmed term |
| Home.SearchParams | src/app/features/home/home.component.ts:88-94 | the search request carries `limit=20`, `future_only=true`, `order=date_asc`, and `q` and `city` exactly when the trimmed term and place are non-empty, with those values |
| Home.HomeComponent.LoadEvents | src/app/features/home/home.component.ts:76-138 | loading starts and the request matches the term, the location and the session |
| Home.HomeComponent.HandleEvents | src/app/features/home/home.component.ts:140-162 | the events become the cards of the response and loading ends, unless a card throws, which leaves both untouched |
| Home.HomeComponent.HandleError | src/app/features/home/home.component.ts:218-222 | no events, loading ends |
| Home.HomeComponent.OnLoadError | src/app/features/home/home.component.ts:125-136 | a refused recommendation request is retried on the home feed with the state kept; any other error clears the events and ends loading |
| Home.HomeComponent.OnLoggedIn | src/app/features/home/home.component.ts:44-47 | the flag is taken and the matching request is sent |
| Home.HomeComponent.OnSearchTerm | src/app/features/home/home.component.ts:51-54 | the term is taken and the matching request is sent |
| Home.HomeComponent.OnLocation | src/app/features/home/home.component.ts:55-58 | the location is taken and the matching request is sent |
| Home.HomeComponent.OnInit | src/app/features/home/home.component.ts:38-62 | the flag and the user id come from the stored user, then the four loads see the session, the term and the location in turn |
| Days.Dedup | src/app/features/user-dashboard/user-dashboard.component.ts:118-120 | `Array.from(new Set(days))`: no day twice, and exactly the days of the list |
| Days.DedupAppend | src/app/features/user-dashboard/user-dashboard.component.ts:118-120 | one more day is placed last when new and dropped when already listed, so each day stands at its first occurrence |
| Days.DedupDistinct | src/app/features/user-dashboard/user-dashboard.component.ts:118-120 | a list without repeats comes back unchanged |
| Days.DedupPrefix | src/app/features/user-dashboard/user-dashboard.component.ts:118-120 | the days of a prefix come first in the deduplicated list, in the same order |
| Days.DedupFilter | src/app/features/user-dashboard/user-dashboard.component.ts:118-120 | removing a day and deduplicating commute |
| Days.DistinctOnce | src/app/features/user-dashboard/user-dashboard.component.ts:118-120 | a day of a duplicate-free list occurs in it exactly once |
| Days.ToggleDaysSpec | src/app/features/user-dashboard/user-dashboard.component.ts:117-121 | checking a day leaves it present exactly once, unchecking leaves it absent, every other day is kept, and no day is listed twice |
| Days.ToggleDaysOrder | src/app/features/user-dashboard/user-dashboard.component.ts:117-121 | checking a day gives the deduplicated list with the day appended; unchecking gives the deduplicated list without it, so the days keep the order of their first occurrences |
| UserDashboard.StrLessAsym | src/app/features/user-dashboard/user-dashboard.component.ts:132-139 | the string order `sort()` uses is asymmetric |
| UserDashboard.FirstIsLeast | src/app/features/user-dashboard/user-dashboard.component.ts:132 | the first day of a sorted list is not above any other |
| UserDashboard.OrderedTail | src/app/features/user-dashboard/user-dashboard.component.ts:132 | the rest of a sorted list is sorted |
| UserDashboard.SameHead | src/app/features/user-dashboard/user-dashboard.component.ts:132-139 | two sorted lists with the same days start with the same day |
| UserDashboard.TailMultiset | src/app/features/user-dashboard/user-dashboard.component.ts:132 | dropping the first day removes one copy of it |
| UserDashboard.OrderedUnique | src/app/features/user-dashboard/user-dashboard.component.ts:132-139 | two sorted lists with the same days are equal |
| UserDashboard.SortDaysEqual | src/app/features/user-dashboard/user-dashboard.component.ts:132-142 | the sorted day lists compare equal exactly when the lists hold the same days the same number of times, whatever their order |
| UserDashboard.SortDays | src/app/features/user-dashboard/user-dashboard.component.ts:132 | `[...days].sort()` (no `ensures`; stated by `UserDashboard.SortDaysEqual` and `Common.SortBy`) |
| UserDashboard.FormOf | src/app/features/user-dashboard/user-dashboard.component.ts:103-107 | the form filled from a profile: the trimmed name, each field or null, a copy of the days (no `ensures`; `UserDashboard.UserDashboardComponent.OnMe` and `UserDashboard.UserDashboardComponent.OnSaved` state the form by it) |
| UserDashboard.RealignNoPending | src/app/features/user-dashboard/user-dashboard.component.ts:103-170 | a form filled from a profile has nothing pending against that profile |
| UserDashboard.PendingIgnoresLayout | src/app/features/user-dashboard/user-dashboard.component.ts:128-142 | forms that differ only in padding of the name or the order of the days compare the same against a profile |
| UserDashboard.DayItems | src/app/features/user-dashboard/user-dashboard.component.ts:155 | the days go out as a JSON array of their codes, in order |
| UserDashboard.Payload | src/app/features/user-dashboard/user-dashboard.component.ts:151-157 | the body of the save: the trimmed name and each set field, with no empty day list (no `ensures`; stated by `UserDashboard.PayloadGet`, `UserDashboard.PayloadFields`, `UserDashboard.PayloadRequired` and `UserDashboard.PayloadOptional`) |
| UserDashboard.PayloadGet | src/app/features/user-dashboard/user-dashboard.component.ts:151-157 | a member of the body holds what the form gives for it, or is absent |
| UserDashboard.PayloadFields | src/app/features/user-dashboard/user-dashboard.component.ts:151-157 | `nom` is trimmed; `age`, `preferred_slot` and `mobility` are sent only when set, `available_days` only when non-empty |
| UserDashboard.PayloadRequired | src/app/features/user-dashboard/user-dashboard.component.ts:152-153 | `nom` trimmed, `age` only when set |
| UserDashboard.PayloadOptional | src/app/features/user-dashboard/user-dashboard.component.ts:154-156 | `preferred_slot` and `mobility` only when set, `available_days` only when non-empty |
| UserDashboard.RoleLabel | src/app/features/user-dashboard/user-dashboard.component.ts:181-185 | `Administrateur` exactly for `admin`, `Organisateur` exactly for `organizer`, `Utilisateur` for every other role and for no profile |
| UserDashboard.UserDashboardComponent.constructor | src/app/features/user-dashboard/user-dashboard.component.ts:36-51 | no profile, an empty form, nothing loading or saving, no message |
| UserDashboard.UserDashboardComponent.DisabledSave | src/app/features/user-dashboard/user-dashboard.component.ts:123-143 | disabled with no profile or while saving; otherwise disabled exactly when the normalized form equals the normalized profile |
| UserDashboard.UserDashboardComponent.OnInit | src/app/features/user-dashboard/user-dashboard.component.ts:82-98 | with no truthy token the page goes to `/login` and fetches nothing; otherwise loading starts and `GET /utilisateurs/me` is sent with the bearer header |
| UserDashboard.UserDashboardComponent.OnMe | src/app/features/user-dashboard/user-dashboard.component.ts:100-108 | the profile is stored, the form filled from it, loading ends, and nothing is pending |
| UserDashboard.UserDashboardComponent.OnMeError | src/app/features/user-dashboard/user-dashboard.component.ts:110-113 | loading ends, and only a 401 goes to `/login` |
| UserDashboard.UserDashboardComponent.ToggleDay | src/app/features/user-dashboard/user-dashboard.component.ts:117-121 | the days become the set with the code added or removed |
| UserDashboard.UserDashboardComponent.Save | src/app/features/user-dashboard/user-dashboard.component.ts:145-159 | nothing without a profile; otherwise saving starts, the flags reset, and `PUT /utilisateurs/me` carries the body of the form |
| UserDashboard.UserDashboardComponent.OnSaved | src/app/features/user-dashboard/user-dashboard.component.ts:161-170 | the profile is replaced, the form realigned, saving ends with success, and nothing is pending |
| UserDashboard.UserDashboardComponent.OnSaveOkTimeout | src/app/features/user-dashboard/user-dashboard.component.ts:171 | the success mark is cleared |
| UserDashboard.UserDashboardComponent.OnSaveError | src/app/features/user-dashboard/user-dashboard.component.ts:173-176 | saving ends; the message is the server's truthy `detail`, else the stock message |
| Register.EmailOkShape | src/app/features/register/register.component.ts:82-95 | an accepted email has no white space and exactly one `@`, neither first nor last |
| Register.EmailOk | src/app/features/register/register.component.ts:82 | the e-mail pattern: a word, `@`, a word, a dot, a word (no `ensures`; stated by `Register.EmailOkShape` and `Register.EmailOkExamples`) |
| Register.PasswordOk | src/app/features/register/register.component.ts:96-97 | an upper-case letter and a JavaScript length of at least 8 (no `ensures`; `Register.RegisterComponent.OnSubmit` states its refusal by it) |
| Register.PasswordOkEmoji | src/app/features/register/register.component.ts:97 | `Abcdef😀` passes: seven characters, eight UTF-16 units |
| Register.EmailOkExamples | src/app/features/register/register.component.ts:82-95 | `a@b.c` is accepted; `a@b` (no dot after the `@`) and `a b@c.d` (a space) are refused |
| Register.EmailOkLower | src/app/features/register/register.component.ts:95-106 | lower-casing an accepted email keeps it accepted |
| Register.WordAtLower | src/app/features/register/register.component.ts:82 | lower-casing keeps a run of characters free of spaces and `@` |
| Register.Strings | src/app/features/register/register.component.ts:113 | the days go out as a JSON array of their codes, in order |
| Register.SignUpPayload | src/app/features/register/register.component.ts:104-114 | the sign-up body: the required members, then each optional field that is set (no `ensures`; stated by `Register.SignUpGet`, `Register.SignUpRequired`, `Register.SignUpOptional` and the lemmas after them) |
| Register.RequiredGet | src/app/features/register/register.component.ts:104-108 | the three required members: `nom` trimmed, `email` trimmed and lower-cased, `mot_de_passe` as typed |
| Register.SignUpGet | src/app/features/register/register.component.ts:104-114 | a member of the payload holds what the form gives for it, or is absent |
| Register.SignUpRequired | src/app/features/register/register.component.ts:104-108 | `nom` is trimmed, `email` trimmed and lower-cased, `mot_de_passe` unchanged |
| Register.SignUpOptional | src/app/features/register/register.component.ts:109-114 | `age`, `preferred_slot` and `mobility` only when set (a slot or mobility also non-empty), `available_days` only when non-empty |
| Register.SignUpAgeSlot | src/app/features/register/register.component.ts:109-112 | `age` only when set, `preferred_slot` only when non-empty |
| Register.SignUpDaysMobility | src/app/features/register/register.component.ts:113-114 | `available_days` only when non-empty, `mobility` only when non-empty |
| Register.LoginFor | src/app/features/register/register.component.ts:124-127 | the automatic login sends the very email and password of the sign-up payload |
| Register.AutoLoginAsWrittenLosesId | src/app/features/register/register.component.ts:129 | as written, `login(token, resp.user.id)` stores `user_id` as `undefined`, so `getUserId` is NaN instead of the new id |
| Register.AutoLoginKeepsId | src/app/features/register/register.component.ts:129-130 | with the user object handed to `login`, `getUserId` is the new account's id |
| Register.ErrorMessage | src/app/features/register/register.component.ts:147 | `detail || message || 'Erreur inconnue'`: always truthy, a truthy `detail` winning |
| Register.RegisterComponent.constructor | src/app/features/register/register.component.ts:23-45 | an empty form and every flag false |
| Register.RegisterComponent.CanSubmit | src/app/features/register/register.component.ts:80-88 | true exactly when not loading, the trimmed name is non-empty, the trimmed email has the `local@domain.tld` shape and the password has an upper-case letter and a JavaScript length (UTF-16 units) of at least 8 |
| Register.RegisterComponent.ToggleDay | src/app/features/register/register.component.ts:74-78 | the days become the set with the code added or removed |
| Register.RegisterComponent.OnSubmit | src/app/features/register/register.component.ts:90-119 | the error flags say exactly which check failed and then nothing is sent; otherwise loading starts and `POST /utilisateurs` carries the payload; a submittable form is always sent |
| Register.RegisterComponent.OnCreated | src/app/features/register/register.component.ts:120-127 | the created user is stored under `user` and the login request carries the sign-up's email and password |
| Register.RegisterComponent.OnLoginAsWritten | src/app/features/register/register.component.ts:128-133 | as written: a null user stores nothing; a user without `id` stores only the token before `login` throws, and the flag, the signal, loading and navigation are unchanged; otherwise the store is the as-written one, the flag is on, `true` is emitted, loading ends and the page goes to `/` |
| Register.RegisterComponent.OnLogin | src/app/features/register/register.component.ts:128-133 | with the user object handed to `login`: a null user stores only the token and changes nothing else; otherwise the session is stored, the flag is on, `true` is emitted, loading ends and the page goes to `/` |
| Register.RegisterComponent.OnLoginError | src/app/features/register/register.component.ts:135-139 | loading ends and the page goes to `/login` |
| Register.RegisterComponent.OnCreateError | src/app/features/register/register.component.ts:142-150 | loading ends; a 409 sets `emailExists` and shows nothing; any other error shows the server-error alert |
| Register.SentEmailAccepted | src/app/features/register/register.component.ts:95-106 | the email sent is the trimmed lower-cased input, and it passes the same check |
| OrganizerService.BodyDefaults | src/app/shared/organizer.service.ts:49-71 | the title passes unchanged; descriptions default to `''`, keywords and occurrences to `[]`, the other members to null; an empty or missing image URL becomes null and a set one passes unchanged |
| OrganizerService.CreateBody | src/app/shared/organizer.service.ts:50-69 | the body of `createEvent`: `??` defaults, `||` for the image URL and the keywords, the occurrences only when there are some (no `ensures`; stated by `OrganizerService.BodyDefaults`, `OrganizerService.BodyIdempotent` and `OrganizerService.BodyIgnoresFile`) |
| OrganizerService.BodyIdempotent | src/app/shared/organizer.service.ts:49-71 | applying the defaults to a body handed back as a payload changes nothing |
| OrganizerService.BodyIgnoresFile | src/app/shared/organizer.service.ts:50-69 | the body does not depend on the image file, which is never sent |
| OrganizerService.MyEvents | src/app/shared/organizer.service.ts:45-47 | `getMyEvents` is `GET /organizer/events` with no body |
| OrganizerService.CreateEvent | src/app/shared/organizer.service.ts:49-71 | `createEvent` is `POST /organizer/events` with the defaulted body |
| OrganizerService.DeleteEvent | src/app/shared/organizer.service.ts:75-77 | `deleteEvent(id)` is `DELETE /organizer/events/<id>` with no body |
| OrganizerService.DeleteUrlInjective | src/app/shared/organizer.service.ts:75-77 | distinct events have distinct delete URLs |
| OrganizerService.StartsWithAppend | src/app/shared/organizer.service.ts:75-77 | a URL built on a prefix starts with it |
| OrganizerService.DeleteUrlSigned | src/app/shared/organizer.service.ts:75-77 | the delete URL lies under the API base, so the interceptor signs it |
| CreateEvent.AddKeywordTo | src/app/features/create-event/create-event.component.ts:46-55 | the keywords are kept, or the trimmed draft is appended to them |
| CreateEvent.AddKeywordResult | src/app/features/create-event/create-event.component.ts:47-53 | after a non-blank draft the keyword is present ignoring case; the list changes exactly when the trimmed draft is non-blank and no keyword matches it ignoring case |
| CreateEvent.AddKeywordDistinct | src/app/features/create-event/create-event.component.ts:50-53 | adding a keyword keeps the list free of case-insensitive duplicates |
| CreateEvent.RemoveKeywordDistinct | src/app/features/create-event/create-event.component.ts:57-59 | removing a keyword keeps the list free of case-insensitive duplicates |
| CreateEvent.ToIsoFromLocal | src/app/features/create-event/create-event.component.ts:85-96 | null exactly for a missing or empty input; an all-day slot never throws and gives midnight UTC of its UTC day |
| CreateEvent.MidnightIso | src/app/features/create-event/create-event.component.ts:90-93 | the all-day text, midnight UTC of the UTC day (no `ensures`; stated by `CreateEvent.MidnightIsoShape` and `CreateEvent.MidnightIsoInjective`) |
| CreateEvent.OccOf | src/app/features/create-event/create-event.component.ts:126-130 | the occurrence a slot becomes, or none when one of its times throws; an all-day slot has no end (no `ensures`; stated by `CreateEvent.Occurrences` and `CreateEvent.OccurrencesMapping`) |
| CreateEvent.MidnightIsoShape | src/app/features/create-event/create-event.component.ts:90-93 | for four-digit years: `YYYY-MM-DDT00:00:00Z`, 20 characters, month and day zero-padded |
| CreateEvent.MidnightIsoInjective | src/app/features/create-event/create-event.component.ts:90-93 | distinct days give distinct midnight texts |
| CreateEvent.Occurrences | src/app/features/create-event/create-event.component.ts:126-130 | one occurrence per slot, in order, each mapped from its own slot |
| CreateEvent.OccurrencesMapping | src/app/features/create-event/create-event.component.ts:126-130 | each occurrence keeps its slot's all-day flag, an all-day one has `fin = null` and a midnight start, and the start is null exactly for an empty slot start |
| CreateEvent.ImageUrlOf | src/app/features/create-event/create-event.component.ts:115-123 | a non-blank trimmed typed URL wins; with no typed URL and no file the URL is `''` |
| CreateEvent.TypedUrlWins | src/app/features/create-event/create-event.component.ts:115-116 | when no upload is wanted, the upload's answer does not matter |
| CreateEvent.SubmitPayload | src/app/features/create-event/create-event.component.ts:133-138 | the form spread with the image URL, the occurrences and no file |
| CreateEvent.NoImageIsNull | src/app/features/create-event/create-event.component.ts:115-138 | an empty image URL reaches the body as null |
| CreateEvent.SlotsReachBody | src/app/features/create-event/create-event.component.ts:126-138 | the mapped slots reach the body unchanged |
| CreateEvent.CreateEventComponent.constructor | src/app/features/create-event/create-event.component.ts:16-42 | an empty form, no draft, no preview, no slots, not submitting, no error |
| CreateEvent.CreateEventComponent.AddKeyword | src/app/features/create-event/create-event.component.ts:46-55 | a blank draft changes nothing; otherwise the keyword is added unless a case-insensitive match exists, and the draft is cleared |
| CreateEvent.CreateEventComponent.RemoveKeyword | src/app/features/create-event/create-event.component.ts:57-59 | `splice(i, 1)` on the keywords, nothing when there is no list |
| CreateEvent.CreateEventComponent.OnFile | src/app/features/create-event/create-event.component.ts:62-73 | the file is stored; with no file the preview is cleared |
| CreateEvent.CreateEventComponent.AddOcc | src/app/features/create-event/create-event.component.ts:76-81 | one non-all-day slot is appended, from now to two hours later |
| CreateEvent.CreateEventComponent.RemoveOcc | src/app/features/create-event/create-event.component.ts:82 | `splice(i, 1)` on the slots |
| CreateEvent.CreateEventComponent.Submit | src/app/features/create-event/create-event.component.ts:109-140 | an empty title or no slot sets the error and does nothing else; otherwise submitting starts, an upload is wanted only with no typed URL and a file, and the create call carries the form with the image URL and the mapped slots |
| CreateEvent.CreateEventComponent.OnCreated | src/app/features/create-event/create-event.component.ts:141 | submitting ends and the page goes to `/organizer` |
| CreateEvent.CreateEventComponent.OnCreateError | src/app/features/create-event/create-event.component.ts:142 | submitting ends and the error is set |
| OrganizerDashboard.OrderedHead | src/app/features/dashboard-organizer/dashboard-organizer.component.ts:73 | after sorting by start, the first occurrence starts no later than any other |
| OrganizerDashboard.NextOccurrence | src/app/features/dashboard-organizer/dashboard-organizer.component.ts:70-75 | `nextOccurrence`: the start text of the earliest upcoming occurrence, or null (no `ensures`; stated by `OrganizerDashboard.NextOccurrenceNone`, `OrganizerDashboard.NextOccurrenceLeast` and `OrganizerDashboard.NoOccurrencesNoNext`) |
| OrganizerDashboard.NextOccurrenceNone | src/app/features/dashboard-organizer/dashboard-organizer.component.ts:70-72 | null exactly when no occurrence starts at or after now |
| OrganizerDashboard.NextOccurrenceLeast | src/app/features/dashboard-organizer/dashboard-organizer.component.ts:70-74 | the answer is the start of an upcoming occurrence, and no upcoming occurrence starts earlier |
| OrganizerDashboard.NextOccurrenceFirst | src/app/features/dashboard-organizer/dashboard-organizer.component.ts:70-74 | among upcoming occurrences with the same least start the stable sort keeps the first in list order: every upcoming one before the answer's starts strictly later, none after it starts earlier |
| OrganizerDashboard.NoOccurrencesNoNext | src/app/features/dashboard-organizer/dashboard-organizer.component.ts:71-72 | with no occurrence list, or an empty one, the answer is null |
| OrganizerDashboard.QuickBody | src/app/features/dashboard-organizer/dashboard-organizer.component.ts:46-49 | the quick form, through the service's defaults, posts its title, description and town; the body has no image, no keywords and no occurrences |
| OrganizerDashboard.OrganizerDashboardComponent.constructor | src/app/features/dashboard-organizer/dashboard-organizer.component.ts:15-30 | no events, not loading, no error, a blank quick form |
| OrganizerDashboard.OrganizerDashboardComponent.LoadEvents | src/app/features/dashboard-organizer/dashboard-organizer.component.ts:38-40 | loading starts and `GET /organizer/events` is sent |
| OrganizerDashboard.OrganizerDashboardComponent.OnEvents | src/app/features/dashboard-organizer/dashboard-organizer.component.ts:41 | the events are the answer and loading ends |
| OrganizerDashboard.OrganizerDashboardComponent.OnEventsError | src/app/features/dashboard-organizer/dashboard-organizer.component.ts:42 | the load error is set and loading ends |
| OrganizerDashboard.OrganizerDashboardComponent.CreateEvent | src/app/features/dashboard-organizer/dashboard-organizer.component.ts:46-49 | a request is sent exactly when the title, the type and the start date are all non-empty; it is the service's create call on the quick form |
| OrganizerDashboard.OrganizerDashboardComponent.OnCreated | src/app/features/dashboard-organizer/dashboard-organizer.component.ts:50-55 | the new event is put first and the quick form is reset |
| OrganizerDashboard.OrganizerDashboardComponent.OnCreateError | src/app/features/dashboard-organizer/dashboard-organizer.component.ts:57 | the creation error is set |
| OrganizerDashboard.OrganizerDashboardComponent.DeleteEvent | src/app/features/dashboard-organizer/dashboard-organizer.component.ts:61-63 | a request is sent exactly when the user confirms; it is `DELETE` of that event |
| OrganizerDashboard.OrganizerDashboardComponent.OnDeleted | src/app/features/dashboard-organizer/dashboard-organizer.component.ts:64 | the events keep their order and are exactly the old ones whose id differs |
| OrganizerDashboard.OrganizerDashboardComponent.OnDeleteError | src/app/features/dashboard-organizer/dashboard-organizer.component.ts:65 | the deletion error is set |
| AdminDashboard.Round | src/app/features/dashboard-admin/dashboard-admin.component.ts:49 | `Math.round`: the nearest integer, a half rounding up |
| AdminDashboard.BarWidth | src/app/features/dashboard-admin/dashboard-admin.component.ts:49 | 0 when the maximum is 0; otherwise the percentage `n/max*100` rounded to the nearest integer |
| AdminDashboard.BarWidthBounds | src/app/features/dashboard-admin/dashboard-admin.component.ts:49 | for `0 <= n <= max` the width lies in 0..100, and the maximum itself gets 100 |
| AdminDashboard.BarWidthMonotonic | src/app/features/dashboard-admin/dashboard-admin.component.ts:49 | a larger count never gets a narrower bar |
| AdminDashboard.DashboardAdminComponent.constructor | src/app/features/dashboard-admin/dashboard-admin.component.ts:15-25 | loading the overview, no error, no stats, on the overview tab; both lists empty on page 1 of 20 rows with no query |
| AdminDashboard.DashboardAdminComponent.OnInit | src/app/features/dashboard-admin/dashboard-admin.component.ts:29-34 | the four stats requests, the series over 30 days |
| AdminDashboard.DashboardAdminComponent.OnStats | src/app/features/dashboard-admin/dashboard-admin.component.ts:35-36 | the four answers are stored and loading ends |
| AdminDashboard.DashboardAdminComponent.OnStatsError | src/app/features/dashboard-admin/dashboard-admin.component.ts:37 | the dashboard error is set and loading ends |
| AdminDashboard.DashboardAdminComponent.SetTab | src/app/features/dashboard-admin/dashboard-admin.component.ts:41-45 | the tab is set; the users or events page is requested exactly when that tab opens on an empty list |
| AdminDashboard.DashboardAdminComponent.LoadUsers | src/app/features/dashboard-admin/dashboard-admin.component.ts:52-54 | user loading starts, its error is cleared, and the current page with its size and query is requested |
| AdminDashboard.DashboardAdminComponent.OnUsers | src/app/features/dashboard-admin/dashboard-admin.component.ts:55 | the users are the rows, `[]` for a null answer, and loading ends |
| AdminDashboard.DashboardAdminComponent.OnUsersError | src/app/features/dashboard-admin/dashboard-admin.component.ts:56 | the users error is set and loading ends |
| AdminDashboard.DashboardAdminComponent.USearch | src/app/features/dashboard-admin/dashboard-admin.component.ts:59 | back to page 1, which is requested |
| AdminDashboard.DashboardAdminComponent.UPrev | src/app/features/dashboard-admin/dashboard-admin.component.ts:60 | above page 1 the previous page is requested; on page 1 nothing changes; the page stays at least 1 |
| AdminDashboard.DashboardAdminComponent.UNext | src/app/features/dashboard-admin/dashboard-admin.component.ts:61 | the next page is requested |
| AdminDashboard.DashboardAdminComponent.DeleteUser | src/app/features/dashboard-admin/dashboard-admin.component.ts:62-64 | the delete call is sent exactly when the user confirms |
| AdminDashboard.DashboardAdminComponent.OnUserDeleted | src/app/features/dashboard-admin/dashboard-admin.component.ts:65 | the users keep their order and are exactly the old ones whose id differs |
| AdminDashboard.DashboardAdminComponent.LoadEvents | src/app/features/dashboard-admin/dashboard-admin.component.ts:71-73 | event loading starts, its error is cleared, and the current page with its size and query is requested |
| AdminDashboard.DashboardAdminComponent.OnEvents | src/app/features/dashboard-admin/dashboard-admin.component.ts:74 | the events are the rows, `[]` for a null answer, and loading ends |
| AdminDashboard.DashboardAdminComponent.OnEventsError | src/app/features/dashboard-admin/dashboard-admin.component.ts:75 | the events error is set and loading ends |
| AdminDashboard.DashboardAdminComponent.ESearch | src/app/features/dashboard-admin/dashboard-admin.component.ts:78 | back to page 1, which is requested |
| AdminDashboard.DashboardAdminComponent.EPrev | src/app/features/dashboard-admin/dashboard-admin.component.ts:79 | above page 1 the previous page is requested; on page 1 nothing changes; the page stays at least 1 |
| AdminDashboard.DashboardAdminComponent.ENext | src/app/features/dashboard-admin/dashboard-admin.component.ts:80 | the next page is requested |
| AdminDashboard.DashboardAdminComponent.DeleteEvent | src/app/features/dashboard-admin/dashboard-admin.component.ts:81-83 | the delete call is sent exactly when the user confirms |
| AdminDashboard.DashboardAdminComponent.OnEventDeleted | src/app/features/dashboard-admin/dashboard-admin.component.ts:84 | the events keep their order and are exactly the old ones whose id differs |
| AdminDashboard.DashboardAdminComponent.OnDeleteError | src/app/features/dashboard-admin/dashboard-admin.component.ts:66-85 | the alert says the deletion failed |
| Navbar.RoleOf | src/app/shared/navbar/navbar.component.ts:83 | the kept role is always truthy, and it is the profile's role whenever that is truthy |
| Navbar.RoleDefault | src/app/shared/navbar/navbar.component.ts:83 | a profile with no role, or an empty one, gives the role `user` |
| Navbar.Subscribed | src/app/shared/navbar/navbar.component.ts:82 | `!!me?.is_abonne` (no `ensures`; `Navbar.NavbarComponent.OnMe` states the flag by it) |
| Navbar.MeRequestIntercepted | src/app/shared/navbar/navbar.component.ts:79-80 | the API interceptor adds nothing to `loadMe`'s request: it finds the same stored token and the same bearer header |
| Navbar.NavbarComponent.constructor | src/app/shared/navbar/navbar.component.ts:18-27 | logged out, not on the home page or the event list, the centre button shown, no role, not a subscriber, not an organizer |
| Navbar.NavbarComponent.Reset | src/app/shared/navbar/navbar.component.ts:43-45 | not a subscriber, no role, not an organizer |
| Navbar.NavbarComponent.ShowRoute | src/app/shared/navbar/navbar.component.ts:59-62 | on the home page exactly for `/`, on the event list exactly for URLs starting with `/event-list`, the centre button exactly off the event list |
| Navbar.NavbarComponent.OnNavigationEnd | src/app/shared/navbar/navbar.component.ts:49-56 | the same flags for `urlAfterRedirects`, or for `url` when that is empty |
| Navbar.NavbarComponent.LoadMe | src/app/shared/navbar/navbar.component.ts:71-80 | with no truthy token nothing is sent and the state is anonymous; otherwise the profile GET with the bearer header is sent and the state is unchanged until the answer |
| Navbar.NavbarComponent.OnMe | src/app/shared/navbar/navbar.component.ts:81-86 | a subscriber exactly when `is_abonne` is truthy; the role, `user` by default; an organizer exactly for the role `organizer` |
| Navbar.NavbarComponent.OnMeError | src/app/shared/navbar/navbar.component.ts:87-91 | the state is anonymous |
| Navbar.NavbarComponent.OnLoginStatus | src/app/shared/navbar/navbar.component.ts:38-47 | the logged-in flag follows the value; logged out the state is anonymous and nothing is sent; logged in the profile is requested when a token is stored |
| Navbar.NavbarComponent.OnInit | src/app/shared/navbar/navbar.component.ts:37-68 | the route flags come from the router's URL; logged in exactly when the session says so or a user is stored; with no token nothing is sent, otherwise one profile request per reason to load it, in order |
| Navbar.NavbarComponent.Guarded | src/app/shared/navbar/navbar.component.ts:95-112 | logged out: to `/login` with the target as `returnUrl`; logged in: to the target |
| Navbar.NavbarComponent.GoAgenda | src/app/shared/navbar/navbar.component.ts:95-101 | the guarded navigation to `/mes-participations` |
| Navbar.NavbarComponent.GoBecomeOrganizer | src/app/shared/navbar/navbar.component.ts:106-112 | the guarded navigation to `/devenir-organisateur` |
| Navbar.NavbarComponent.GoHome | src/app/shared/navbar/navbar.component.ts:103 | to `/` |
| Navbar.NavbarComponent.GoOrganize | src/app/shared/navbar/navbar.component.ts:114-116 | to `/organizer` |
| Navbar.NavbarComponent.Logout | src/app/shared/navbar/navbar.component.ts:119-125 | the session is logged out (the four keys `token`, `user_id`, `user` and `auth` removed, `false` emitted), the emitted `false` sets `isLoggedIn` to false, the state is anonymous, and the page goes to `/` |
| Contact.MessageShape | src/app/features/contact/contact.component.ts:35-40 | the sent texts carry no surrounding white space, the subject is never blank (`(Sans objet)` when it is), and the trap field is sent as typed |
| Contact.MessageStable | src/app/features/contact/contact.component.ts:35-40 | trimming the sent message again changes nothing |
| Contact.ContactComponent.constructor | src/app/features/contact/contact.component.ts:17-25 | every field empty, not loading, not sent, no error |
| Contact.MessageJson | src/app/features/contact/contact.component.ts:35-40 | the body object literal with its five members in source order (no `ensures`; stated by `Contact.MessageJsonReadsBack`) |
| Contact.ContactRequest | src/app/features/contact/contact.component.ts:35-40 | the POST to `/utils/contact` with the message as its body (no `ensures`; `Submit` states it) |
| Contact.MessagePairs | src/app/features/contact/contact.component.ts:35-40 | each of the five keys reads back its own text from the body |
| Contact.MessageWellFormed | src/app/features/contact/contact.component.ts:35-40 | the body is a well-formed JSON value |
| Contact.MessageJsonReadsBack | src/app/features/contact/contact.component.ts:35-40 | the body is well-formed and reads back as `name`, `email`, `subject`, `message` and `website` of the message |
| Contact.ContactComponent.Submit | src/app/features/contact/contact.component.ts:29-41 | a blank name, email or message sets the error and sends nothing; otherwise loading starts, the error and success are cleared, and the returned request is the POST to `/utils/contact` whose body is the trimmed message (`ContactRequest`) |
| Contact.ContactComponent.OnSent | src/app/features/contact/contact.component.ts:42-49 | loading ends, success is set, every field is cleared |
| Contact.ContactComponent.OnSendError | src/app/features/contact/contact.component.ts:43 | loading ends and the sending error is set |
| Common.Filter | src/app/features/dashboard-organizer/dashboard-organizer.component.ts:64 | `Array.filter`: no longer than the list, and every kept element is in the list and passes |
| Common.FilterExactly | src/app/features/dashboard-organizer/dashboard-organizer.component.ts:64 | an element is kept exactly when it is in the list and passes |
| Common.FilterAppend | src/app/features/home/home.component.ts:227 | filtering distributes over concatenation |
| Common.FilterDistinct | src/app/features/dashboard-organizer/dashboard-organizer.component.ts:64 | filtering a list without duplicates gives one without duplicates |
| Common.AddOnce | src/app/features/event-list/event-list.component.ts:130 | `includes` then `push`: the element is present, nothing is lost, nothing else is added, and a list without duplicates stays so |
| Common.BucketBy | src/app/features/dashboard-user/dashboard-user.component.ts:118-125 | the map's keys are exactly the keys of the list's elements, and each bucket is the list filtered to its key, in order |
| Common.Find | src/app/features/dashboard-user/dashboard-user.component.ts:157-158 | `Array.find`: the first index that passes, or none when no element passes |
| Common.SpliceOne | src/app/features/create-event/create-event.component.ts:82 | `splice(i, 1)`: removes the element at `i`, counting from the end for a negative `i`, and nothing at or past the end |
| Common.SortBy | src/app/features/event-details/event-details.component.ts:114 | `sort` returns a permutation of the list |
| Common.SortByOrdered | src/app/features/event-details/event-details.component.ts:114 | with an asymmetric comparison the result is ordered: no element is less than one before it |
| Common.SortByFilterHead | src/app/features/dashboard-organizer/dashboard-organizer.component.ts:70-74 | sorting the kept elements by a key puts first the earliest kept element of least key |
| Common.SortByStable | src/app/features/dashboard-organizer/dashboard-organizer.component.ts:73 | the sort is stable for a comparator by key: for every key, the elements with that key keep their relative order |
| Common.SortByStrict | src/app/features/event-details/event-details.component.ts:368 | when any two elements are comparable, the result is strictly increasing |
| Text.TrimShape | src/app/features/contact/contact.component.ts:36-39 | `trim` leaves no white space at either end |
| Text.TrimIsInfix | src/app/features/contact/contact.component.ts:36-39 | the trimmed text is a slice of the text with only white space cut on both sides |
| Text.TrimEmptyIff | src/app/features/contact/contact.component.ts:30 | the trimmed text is empty exactly when the text is all white space |
| Text.TrimIdempotent | src/app/features/contact/contact.component.ts:36-39 | trimming twice is trimming once |
| Text.ToLower | src/app/features/create-event/create-event.component.ts:51 | `toLowerCase`, character by character, over the letters `LowerChar` covers |
| Text.ToLowerAppend | src/app/features/home/home.component.ts:227 | lowering distributes over concatenation |
| Text.LowerChar | src/app/features/home/home.component.ts:227 | A to Z gain 32; every letter `HasLower` names (Latin-1, Latin Extended-A, the basic Cyrillic capitals) becomes a different letter that is itself lower case; every other character is kept |
| Text.LowerCharIdempotent | src/app/features/home/home.component.ts:227 | lowering a lowered character changes nothing |
| Text.LowerOeuvre | src/app/features/home/home.component.ts:227 | `Œ` lowers to `œ` and `Ÿ` to `ÿ` |
| Text.JsLength | src/app/features/register/register.component.ts:84 | the JavaScript `length`: between the number of characters and twice that, and equal to it exactly when no character is above U+FFFF |
| Text.JsLengthEmoji | src/app/features/register/register.component.ts:97 | `Abcdef😀` has seven characters and a JavaScript length of 8 |
| Text.IntToString | src/app/shared/organizer.service.ts:76 | the decimal text of an integer: digits, with a leading minus for a negative one |
| Text.IntToStringValue | src/app/shared/organizer.service.ts:76 | the decimal text reads back as the integer |
| Text.IntToStringInjective | src/app/shared/organizer.service.ts:76 | distinct integers have distinct texts |
| Text.Pad2 | src/app/features/create-event/create-event.component.ts:91-92 | `padStart(2, '0')` of a number below 100: two digits with that value |
| Text.StrLessIrreflexive | src/app/features/event-details/event-details.component.ts:368 | string order is irreflexive |
| Text.StrLessTransitive | src/app/features/event-details/event-details.component.ts:368 | string order is transitive |
| Text.StrLessTotal | src/app/features/event-details/event-details.component.ts:368 | any two distinct strings are ordered one way |
| Text.StrLessAsymmetric | src/app/features/event-details/event-details.component.ts:368 | string order is asymmetric |
| Json.ParseStringify | src/app/shared/auth.service.ts:19-61 | `JSON.parse` reads back what `JSON.stringify` wrote, for every value whose numbers are JSON number literals (fractions and exponents included) |
| Json.RoundTripValue | src/app/shared/auth.service.ts:19-61 | a written value followed by a delimiter parses back to the value and the rest |
| Json.GetMember | src/app/shared/auth.service.ts:44 | a member read is the value of a member with that key, and missing exactly when the value is no object or no member has that key |
| Json.Assign | src/app/shared/auth.service.ts:12 | spreading in a member gives that key the new value and keeps every other key's value |
| Json.AssignFrom | src/app/shared/auth.service.ts:12 | after the assignment every member is the new one or one of the old ones |
| Json.SpreadMembers | src/app/shared/auth.service.ts:12 | `{...v}`: an object gives its members, an array its items under their decimal indices, a string its characters under their indices, and null, a boolean or a number nothing |

## Left out

- HTTP, rxjs and the router: each request is returned as a value, each answer or failure is a method argument, and each navigation, `alert` or `confirm` is a return value or an argument. Observables, subscription order and `setTimeout` are not modelled. Handlers are called one after another, in the order the subscriptions deliver.
- Locale formatting (`toLocaleDateString`, `Intl.DateTimeFormat`, the month labels of the event page) is an uninterpreted function parameter.
- Date parsing and time zones are parameters. The model does not derive the local day of an instant; each `Moment` carries both.
- `toISOString` is a parameter. Its failure on an Invalid Date is modelled: `Converted.Throws` in the event form, and `Some(None)` in the home page's span.
- `CreateEvent.ToIsoFromLocal`: for a slot that is not all-day, the conversion through the time-zone offset is the parameter `localIso`. Only the all-day branch is computed.
- `normalize('NFD')` in the event list's keyword normalization is modelled for the letters of Latin-1 and Latin Extended-A and the combining diacritical marks. Other characters pass unchanged, so decomposable letters of other scripts (such as Cyrillic `й`) keep their accents.
- `Text.ToLower`: lowering covers ASCII, Latin-1, Latin Extended-A and the basic Cyrillic capitals. Greek is not lowered, because the final sigma depends on context. `İ` (U+0130) is kept, where JavaScript writes two UTF-16 units. Other scripts are kept. So the model's `toLowerCase` always keeps the length, which JavaScript's does not for `İ`.
- `CreateEvent.CreateEventComponent.Submit`: the form and the slots are read when the button is pressed. The source reads them after awaiting the image upload, so edits made during the upload would be sent there and are not here.
- Leaflet maps, `haversineKm`, the travel-time estimates, `useMyLocation` and geocoding are left out. They are floating point, a foreign library, or browser and network APIs.
- The image upload and the `FileReader` preview are left out. The URL an upload returns is a method argument.
- `pct` and `toFixed` are left out (floating-point formatting). So are the `gtag` analytics and console logging.
- `AdminDashboard.BarWidth` divides exact reals, so double rounding of `n/max*100` is not modelled.
- The services' query wrappers are not modelled (`admin.service.ts` is not part of this model). The admin dashboard's requests are abstract values naming the call and its arguments.
- HTTP query parameters are a map from name to values, so the order across different names is not modelled.
- `OrganizerDashboard.QuickBody`: the quick form's type, place and dates are not sent. The payload type has no member for them, and this lemma states what the body does hold.
- The JSON codec covers objects, arrays, strings, booleans, null and numbers. A number keeps its literal text, fractions and exponents included, so canonicalisation is not modelled: `1.50`, `1e2` and `-0` are written back as they were read, where JavaScript writes `1.5`, `100` and `0`, and integers above 2^53 are not rounded. `\u` escapes in the surrogate range are refused.
- The event list's mapping of raw events to cards (`handle`) is not modelled. The page is modelled from its filter form, paging and requests.
- `Json.SpreadMembers`: a string spreads per code point, where JavaScript spreads per UTF-16 code unit. The two differ for characters above U+FFFF, which JavaScript splits into two units under two indices.
- `Text.StrLess`: strings compare by code point. JavaScript's `<` and `sort()` compare UTF-16 code units, which orders a character above U+FFFF before one in U+E000..U+FFFF where the model orders it after.
- `UserDashboard.Payload`, `UserDashboard.FormOf`: the profile's `age` is an integer, sent as a JSON integer. The source's `age` is a JavaScript number bound to a number input, so a fractional age such as `30.5` is not represented.
- The rating dialog of the calendar page (`openRating`, `closeRating`, `fetchRatings`) is left out. It only opens and resets a dialog and fetches a public average and the user's own rating, which no other part of the page reads.
- `OrganizerDashboard.NextOccurrenceLeast`: an occurrence whose `debut` is null is not covered. Such occurrences are modelled as texts, so `new Date(null)` (the epoch) does not arise.
- `Register`: the age field is an optional integer, so the source's guard against an empty-string age does not arise.
- The guards, the login, subscribe, email-verification and promotion pages, the search relay, the routes, the application shell and the footer are not part of this model. They have no logic beyond one request or flag.

## Findings

| source | as written | input that shows it | evidently intended | confidence | as-written member | corrected member |
|---|---|---|---|---|---|---|
| src/app/features/home/home.component.ts:225-227 | the emptiness test trims the search term, but the title is matched against the lowercased untrimmed term | the term `"jazz "` and an event titled `Jazz`: the event is hidden | match against the trimmed term, as the emptiness test and the feed request (`q` sent trimmed) do | not executed | Home.FilterAsWritten, Home.PaddedTermHidesMatch | Home.Filtered, Home.FilteredMembers |
| src/app/features/register/register.component.ts:129 | the automatic login after sign-up calls `login(resp.access_token, resp.user.id)`, passing the id where the user object is expected | a created user with id 7: `login` stores `user_id` as `"undefined"`, so `getUserId()` is NaN | `login(resp.access_token, resp.user)` | not executed | Register.RegisterComponent.OnLoginAsWritten, Register.AutoLoginAsWrittenLosesId | Register.RegisterComponent.OnLogin, Register.AutoLoginKeepsId |
