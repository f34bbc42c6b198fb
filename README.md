# Activity tracker core, modelled in Dafny

The backend of a habit tracker. Users log in with a one-time password (OTP)
sent to their mobile number. They create *challenges*: a title, a start and
an end date, and a frequency (daily, weekly or monthly). For each challenge,
the system writes one *activity* row per scheduled date, and the user later
marks each row completed or missed.

This project models the four PHP classes that do this work and the two form
requests in front of the login:

- `ChallengeActivityController`. It expands a challenge's dates with Carbon
  and regenerates its activity rows inside a transaction. It also handles
  status updates and five read-only endpoints: a listing and four reports.
- `ChallengeController`. It validates and inserts a challenge, lists the
  caller's challenges with an optional frequency filter, and soft-deletes
  a challenge.
- `RegisterController`. `sendOtp` and `verifyOtp`.
- `ApiResponseTrait`. The message catalog and the JSON envelopes.
- The form requests `SendOtpRequest` and `VerifyOtpRequest`.

Files and modules:

| file | module | what it holds |
|---|---|---|
| common.dfy | `Common` | option type, request field shape, PHP `empty()` and falsiness, `Filter`/`Count` (SQL `where` and `COUNT`), decimal text |
| calendar.dfy | `Calendar` | Gregorian day numbers and month indices; Carbon's `startOfMonth`, `endOfMonth` and one-month step |
| records.dfy | `Records` | rows of `challenges`, `challenge_activities`, `users`, `otp_trails`, `user_profiles` |
| api_response.dfy | `ApiResponse` | message catalog, `getMessage`, the three envelopes |
| auth_requests.dfy | `AuthRequests` | `authorize` and `rules` of the two form requests |
| schedule.dfy | `Schedule` | the CarbonPeriod expansion for each frequency |
| activities.dfy | `ChallengeActivities` | the activity table (a class), regeneration, status update, the reports |
| challenges.dfy | `Challenges` | the challenge table (a class), validation, listings, soft delete |
| register.dfy | `Register` | the user, OTP-trail and profile tables (one class), `sendOtp`, `verifyOtp` |

Each table the controllers write to is a class. Its rows are a `seq` field
and its auto-increment counter is a field; a `Valid()` invariant says the keys
increase and stay below the counter. Each write is a method with
`modifies this` that states the whole new table. Read-only endpoints are
functions of the table contents. Dates are day numbers (days since
1970-01-01). Times are seconds. "Now" and "today" are parameters.

### How the model follows the code

- The monthly case calls `startOfMonth()` and `endOfMonth()` on the same Carbon
  objects that the loop's guard compares against afterwards, so the guard
  never drops a date. The expansion is therefore the 1st of every month
  from the start's month through the end's month.
  - Those dates are not confined to `[start_date, end_date]`: a challenge
    that starts on the 15th gets an activity on the 1st of that month
    (`Schedule.MonthlyCanPrecedeStart`).
  - A start and an end inside the same month give one date even when the
    start is after the end (`Schedule.MonthlySameMonthOneDate`).
  - The guard at `ChallengeActivityController.php:117` compares each date
    with `$startDate` and `$endDate`, which reads as a filter to
    `[start_date, end_date]`. Because `startOfMonth()` and `endOfMonth()`
    have already moved those two objects, the guard filters nothing. The
    model follows the code.
- Regeneration deletes only the rows dated today or later, but it inserts
  rows for the challenge's whole range. A second run on the same day
  therefore adds one more duplicate row for every scheduled date before today
  (`ChallengeActivities.RegenerationDuplicatesPast`). Only the rows from
  today on are idempotent (`ChallengeActivities.UpcomingRowsIdempotent`).
  A second run is therefore not idempotent: the comment at
  `ChallengeActivityController.php:50` describes the delete as removing the
  future activities, and the past ones are inserted again.
- `sendOtp` passes an `email` attribute to `User::firstOrCreate`, but
  `email` is not in `User::$fillable`, so it is never stored. The modelled
  user row has no e-mail.
- `successResponse` uses `?:`, so a message of `"0"` is replaced by the
  general success text, exactly as an empty message is.
- `validationErrorResponse` falls back to the key `validation_error`. That
  key is not in the catalog, so the text is the general error message.
- `getActivitiesPendingCount` does not check that the challenge is active,
  but `getListPendingActivities` does. In general the count is at least the
  list length, and it equals the list length when every challenge is active
  (`ChallengeActivities.PendingCountCoversList`).

Two definitions carry no contract of their own and so have no row below;
the lemmas in the table characterise them:

- `Schedule.Expand` is what the switch on the frequency at
  `ChallengeActivityController.php:96-122` computes. It is described by
  `Schedule.DailyExpansion`, `Schedule.WeeklyExpansion` and
  `Schedule.MonthlyExpansion`.
- `ChallengeActivities.Regenerated` is the table after the delete and the
  inserts at `ChallengeActivityController.php:50-56`. It is described by
  `ChallengeActivities.OtherChallengesUntouched`,
  `ChallengeActivities.PastRowsKept`, `ChallengeActivities.UpcomingRowsRebuilt`
  and the other regeneration lemmas, and `GenerateActivities` ends in it.

## Model

| member | source | states |
|---|---|---|
| Calendar.MonthOf | app/Http/Controllers/API/ChallengeActivityController.php:111-115 | the calendar month of a month index is always 1..12 |
| Calendar.NextMonthOf | app/Http/Controllers/API/ChallengeActivityController.php:113 | a one-month step advances the calendar month, and wraps December to January of the next year |
| Calendar.MonthIndexOfCivil | app/Http/Controllers/API/ChallengeActivityController.php:90-91 | month m of year y (from 1970) has month index (y - 1970) * 12 + m - 1 |
| Calendar.DaysInMonth | app/Http/Controllers/API/ChallengeActivityController.php:114 | every Gregorian month has 28 to 31 days |
| Calendar.MonthLength | app/Http/Controllers/API/ChallengeActivityController.php:113-114 | every month index has a length of 28 to 31 days |
| Calendar.MonthLengthCivil | app/Http/Controllers/API/ChallengeActivityController.php:113-114 | the length of month index k is the Gregorian length of its civil year and month, leap years included |
| Calendar.NextFirstDayCivil | app/Http/Controllers/API/ChallengeActivityController.php:113 | the first day of the next month is the first day of this month plus the civil calendar's number of days in this month (28 to 31 by year and month) |
| Calendar.LeapStep | app/Http/Controllers/API/ChallengeActivityController.php:114 | the leap-year count up to y grows by one exactly when y is a leap year under the 4/100/400 rule |
| Calendar.FirstDayClosedFormAgrees | app/Http/Controllers/API/ChallengeActivityController.php:90-91 | summing month lengths gives the same first day as the closed formula from the year's and the month's offsets |
| Calendar.FirstDayOrder | app/Http/Controllers/API/ChallengeActivityController.php:111-115 | first days of months are in the same order as the months |
| Calendar.MonthIndexOf | app/Http/Controllers/API/ChallengeActivityController.php:112 | the month found for day d is one whose first day is at or before d and whose successor's first day is after d |
| Calendar.MonthIndexUnique | app/Http/Controllers/API/ChallengeActivityController.php:112 | a day lies in exactly one month: any month bracketing d is the month found |
| Calendar.MonthIndexOfFirstDay | app/Http/Controllers/API/ChallengeActivityController.php:112 | the first day of month k lies in month k |
| Calendar.StartOfMonth | app/Http/Controllers/API/ChallengeActivityController.php:112 | `startOfMonth` is at or before d, fewer than 31 days earlier, and in d's month |
| Calendar.EndOfMonth | app/Http/Controllers/API/ChallengeActivityController.php:114 | `endOfMonth` is at or after d |
| Calendar.LastDayInMonth | app/Http/Controllers/API/ChallengeActivityController.php:114 | the day before the next month's first day lies in month k |
| Calendar.EndOfMonthInMonth | app/Http/Controllers/API/ChallengeActivityController.php:114 | `endOfMonth` stays in d's month, and the day after it opens the next month |
| Calendar.DayNumberInMonth | app/Http/Controllers/API/ChallengeActivityController.php:90-91 | the day number of a parsed date y-m-dd is the first day of its month plus dd - 1 |
| Schedule.DayStepsShape | app/Http/Controllers/API/ChallengeActivityController.php:97-104 | a day-stepped period is empty exactly when from is after to; its i-th date is from + step * i; its last date is at most to and one more step would pass to |
| Schedule.DailyExpansion | app/Http/Controllers/API/ChallengeActivityController.php:96-101 | daily gives every day from start to end, one each, in ascending order, and nothing when start is after end |
| Schedule.WeeklyExpansion | app/Http/Controllers/API/ChallengeActivityController.php:103-108 | weekly starts at start_date, steps seven days, never passes end_date, and one more week would pass it; empty exactly when start is after end |
| Schedule.MonthStepsThrough | app/Http/Controllers/API/ChallengeActivityController.php:111-115 | month steps from month k up to the last day of month ke are the first of each month k..ke |
| Schedule.MonthStepsBounds | app/Http/Controllers/API/ChallengeActivityController.php:111-115 | every month step lies between the first of the start month and the period's end |
| Schedule.MonthlyFilterKeepsAll | app/Http/Controllers/API/ChallengeActivityController.php:110-121 | with the bounds that `startOfMonth`/`endOfMonth` already moved, the guard of the loop drops no date |
| Schedule.MonthlyDatesAll | app/Http/Controllers/API/ChallengeActivityController.php:116-120 | from the first of a month, the range guard keeps every month step |
| Schedule.MonthlyExpansion | app/Http/Controllers/API/ChallengeActivityController.php:110-121 | monthly gives exactly the first of each month from start_date's month through end_date's month, one per month |
| Schedule.MonthlyStepIsOneMonth | app/Http/Controllers/API/ChallengeActivityController.php:113 | consecutive monthly dates are exactly the civil calendar's number of days of the earlier date's month apart |
| Schedule.MonthlyCanPrecedeStart | app/Http/Controllers/API/ChallengeActivityController.php:110-121 | when start_date is not the 1st, the first monthly date is before start_date |
| Schedule.MonthlySameMonthOneDate | app/Http/Controllers/API/ChallengeActivityController.php:110-121 | start and end in the same month give exactly one date, the 1st, whatever their order |
| Schedule.SingleDayOneDate | app/Http/Controllers/API/ChallengeActivityController.php:95-121 | a one-day range gives exactly one date for each of the three frequencies |
| Schedule.ExpansionWithinMonths | app/Http/Controllers/API/ChallengeActivityController.php:95-121 | every produced date lies between the start of start_date's month and the end of end_date's month |
| Schedule.WeeklyJanuary2024 | app/Http/Controllers/API/ChallengeActivityController.php:103-108 | weekly from 2024-01-01 to 2024-01-22 gives the 1st, 8th, 15th and 22nd |
| ChallengeActivities.NewRows | app/Http/Controllers/API/ChallengeActivityController.php:131-139 | one inserted row per date |
| ChallengeActivities.UnnumberedNewRows | app/Http/Controllers/API/ChallengeActivityController.php:131-139 | ignoring keys, the inserted rows are the pending rows of the challenge's user and id for those dates |
| ChallengeActivities.UnnumberedFilter | app/Http/Controllers/API/ChallengeActivityController.php:51-53 | a `where` that does not look at the key commutes with erasing keys |
| ChallengeActivities.PendingForFilter | app/Http/Controllers/API/ChallengeActivityController.php:51-53 | filtering pending rows by a date condition is filtering their dates |
| ChallengeActivities.OtherChallengesUntouched | app/Http/Controllers/API/ChallengeActivityController.php:48-59 | regeneration leaves every other challenge's rows exactly as they were, in order and with their keys |
| ChallengeActivities.PastRowsKept | app/Http/Controllers/API/ChallengeActivityController.php:50-56 | the challenge's rows before today survive; the inserted past rows are the pending rows of the past scheduled dates |
| ChallengeActivities.UpcomingRowsRebuilt | app/Http/Controllers/API/ChallengeActivityController.php:50-56 | after regeneration, the challenge's rows from today on are, up to keys, one pending row per scheduled date from today on, whatever was there before |
| ChallengeActivities.UpcomingRowsIdempotent | app/Http/Controllers/API/ChallengeActivityController.php:48-59 | a second regeneration on the same day leaves the rows from today on as the first one did |
| ChallengeActivities.KeptNewRowsCount | app/Http/Controllers/API/ChallengeActivityController.php:51-56 | of the rows a regeneration inserts, the next delete keeps as many as there are scheduled dates before today |
| ChallengeActivities.RegenerationDuplicatesPast | app/Http/Controllers/API/ChallengeActivityController.php:48-59 | a second regeneration on the same day grows the table by the number of scheduled dates before today |
| ChallengeActivities.UnknownFrequencyInsertsNothing | app/Http/Controllers/API/ChallengeActivityController.php:95-122 | a frequency outside the three cases only deletes |
| ChallengeActivities.ActivityTable.constructor | app/Http/Controllers/API/ChallengeActivityController.php:133 | an empty table whose first key is 1 |
| ChallengeActivities.ActivityTable.CreateActivity | app/Http/Controllers/API/ChallengeActivityController.php:131-139 | appends one pending row with the challenge's user and id, the date, and the next key; keys stay increasing |
| ChallengeActivities.ActivityTable.CreateEach | app/Http/Controllers/API/ChallengeActivityController.php:98-100 | the foreach creates one row per date of the period in order, all appended to the table |
| ChallengeActivities.ActivityTable.CreateInRange | app/Http/Controllers/API/ChallengeActivityController.php:116-120 | the guarded foreach creates one row per date of the period that lies between the two bounds, in order |
| ChallengeActivities.ActivityTable.CreateActivitiesBasedOnFrequency | app/Http/Controllers/API/ChallengeActivityController.php:87-126 | creates the rows of exactly the dates the frequency schedules, and returns them |
| ChallengeActivities.ActivityTable.GenerateActivities | app/Http/Controllers/API/ChallengeActivityController.php:34-81 | 403 for another user's challenge, 422 for an inactive one, 500 with the fault text and the table restored on a storage fault; otherwise the delete from today on plus the full schedule, with the created rows returned |
| ChallengeActivities.ActivityTable.UpdateStatus | app/Http/Controllers/API/ChallengeActivityController.php:183-221 | 403 and no change for another user's row; 422 with the `status` error and no change unless the status is completed or missed; otherwise only that row's status changes and the updated row is returned |
| ChallengeActivities.IndexOfId | app/Http/Controllers/API/ChallengeActivityController.php:183 | route binding finds the first row with that key |
| ChallengeActivities.ParseStatus | app/Http/Controllers/API/ChallengeActivityController.php:192-194 | the rule `required\|in:completed,missed` accepts exactly those two texts, and never sets pending |
| ChallengeActivities.UpdateTouchesOneRow | app/Http/Controllers/API/ChallengeActivityController.php:202 | an accepted update changes only the status of that one row |
| ChallengeActivities.InsertByDate | app/Http/Controllers/API/ChallengeActivityController.php:156 | inserting into a date-sorted list keeps it sorted and adds exactly that row |
| ChallengeActivities.SortByDate | app/Http/Controllers/API/ChallengeActivityController.php:156 | `orderBy('activity_date')` returns a date-sorted permutation of its input |
| ChallengeActivities.GetActivities | app/Http/Controllers/API/ChallengeActivityController.php:146-176 | 403 for another user's challenge; otherwise the challenge's rows, sorted by date, as a permutation of the matching rows |
| ChallengeActivities.GetActivitiesMembers | app/Http/Controllers/API/ChallengeActivityController.php:155-157 | a row is returned exactly when it is in the table and belongs to the challenge |
| ChallengeActivities.TallyOf | app/Http/Controllers/API/ChallengeActivityController.php:235-242 | COUNT and the three SUM(CASE) values are the counts of all rows and of each status, and the three add up to the total |
| ChallengeActivities.CompletionRate | app/Http/Controllers/API/ChallengeActivityController.php:249-251 | 0 for no rows; otherwise completed / total * 100, rounded half-up to hundredths |
| ChallengeActivities.CompletionRateBounds | app/Http/Controllers/API/ChallengeActivityController.php:249-251 | the rate is at most 100.00, and exactly 100.00 when every row is completed |
| ChallengeActivities.CompletionRateExample | app/Http/Controllers/API/ChallengeActivityController.php:249-251 | 2 of 5 is 40.00, 1 of 3 is 33.33, and 2 of 3 is 66.67 |
| ChallengeActivities.GetProgress | app/Http/Controllers/API/ChallengeActivityController.php:226-271 | 403 for another user's challenge; otherwise the total, completed and missed counts of the challenge's rows and the completion rate, at most 100.00 |
| ChallengeActivities.ChallengeById | app/Http/Controllers/API/ChallengeActivityController.php:284-289 | finds the related challenge of that key when there is one, and reports none otherwise |
| ChallengeActivities.GetListPendingActivities | app/Http/Controllers/API/ChallengeActivityController.php:277-327 | lists the caller's pending rows dated today whose challenge is active, in table order; the total equals the list length |
| ChallengeActivities.PendingListMembers | app/Http/Controllers/API/ChallengeActivityController.php:284-293 | a row is listed exactly when it is the caller's, dated today, pending, and its challenge is active |
| ChallengeActivities.GetActivitiesPendingCount | app/Http/Controllers/API/ChallengeActivityController.php:391-429 | the count of the caller's pending rows dated today, with no active-challenge condition |
| ChallengeActivities.PendingCountCoversList | app/Http/Controllers/API/ChallengeActivityController.php:284-293 | the pending count is at least the pending list's total, and equal when every challenge is active |
| ChallengeActivities.GetActivityStats | app/Http/Controllers/API/ChallengeActivityController.php:330-386 | the number of the caller's active challenges, and the total, pending and completed counts of the caller's rows on active challenges over every date, with their completion rate |
| Challenges.ChallengeErrors | app/Http/Controllers/API/ChallengeController.php:68-74 | each field is in the error bag exactly when its rule fails, and no other key appears; `required` refuses a text that `trim()` empties; end_date's `after:start_date` compares with the start as Carbon parses it, and passes for any end but the epoch's first day when the start gives no date |
| Challenges.ChallengeAccepted | app/Http/Controllers/API/ChallengeController.php:68-79 | a request passes exactly when it has a title of at most 255 characters that is not all whitespace, a description that is not all whitespace, a start no earlier than today, an end strictly after the start, and one of the three frequencies |
| Challenges.BlankTitleRejected | app/Http/Controllers/API/ChallengeController.php:69-70 | a title and a description of one space each are both in the error bag |
| Challenges.MissingStartBlamesStartOnly | app/Http/Controllers/API/ChallengeController.php:71-72 | with no start date, start_date is in the error bag and a valid end date is not |
| Challenges.UnparsedStartStillBounds | app/Http/Controllers/API/ChallengeController.php:71-72 | a start the `date` rule refuses but Carbon parses still bounds the end date: an end on that day is refused |
| Challenges.SingleDayRejected | app/Http/Controllers/API/ChallengeController.php:72 | a challenge that ends on its start day is rejected on end_date |
| Challenges.ChallengesList | app/Http/Controllers/API/ChallengeController.php:34-58 | lists only the caller's active challenges |
| Challenges.ChallengesListMembers | app/Http/Controllers/API/ChallengeController.php:38-43 | a challenge is listed exactly when it is one of the caller's active challenges |
| Challenges.ChallengesListNewestFirst | app/Http/Controllers/API/ChallengeController.php:42 | `latest()` lists the newest first: keys strictly decrease along the list |
| Challenges.ChallengesListFilter | app/Http/Controllers/API/ChallengeController.php:115-147 | lists only the caller's active challenges of the given frequency |
| Challenges.ChallengesListFilterMembers | app/Http/Controllers/API/ChallengeController.php:119-125 | a challenge is listed exactly when it is one of the caller's active challenges of that frequency |
| Challenges.UnknownFilterEmpty | app/Http/Controllers/API/ChallengeController.php:119-125 | a filter outside the three frequencies lists nothing |
| Challenges.IndexOfOwned | app/Http/Controllers/API/ChallengeController.php:157 | finds the caller's challenge with that key, active or not, and reports none when there is no such challenge |
| Challenges.SoftDeleted | app/Http/Controllers/API/ChallengeController.php:160-162 | only that challenge's is_active changes, to false |
| Challenges.SoftDeleteIdempotent | app/Http/Controllers/API/ChallengeController.php:160-162 | deleting twice is the same as deleting once |
| Challenges.DeletedNotListed | app/Http/Controllers/API/ChallengeController.php:153-168 | after the delete the challenge is no longer listed, and every other challenge is listed exactly as before |
| Challenges.ChallengeTable.constructor | app/Http/Controllers/API/ChallengeController.php:82 | an empty table whose first key is 1 |
| Challenges.ChallengeTable.ChallangeAdd | app/Http/Controllers/API/ChallengeController.php:64-109 | 422 with the failing fields and no change, or 201 with the new active row owned by the caller, appended with the next key |
| Challenges.ChallengeTable.ChallengeDelete | app/Http/Controllers/API/ChallengeController.php:153-184 | 404 and no change unless the caller owns a challenge with that key; otherwise only its is_active becomes false |
| ApiResponse.GetMessage | app/Traits/ApiResponseTrait.php:51-54 | the catalog text of a known key and the general error text otherwise; never a falsy text |
| ApiResponse.SuccessResponse | app/Traits/ApiResponseTrait.php:61-68 | success true, the status, the data and no errors; a falsy message is replaced by the general success text |
| ApiResponse.ErrorResponse | app/Traits/ApiResponseTrait.php:75-87 | success false, no data, the message and status; an `errors` key exactly when the bag is not empty |
| ApiResponse.ValidationErrorResponse | app/Traits/ApiResponseTrait.php:93-100 | always 422 with the bag; with no message of its own the text is the general error |
| ApiResponse.CatalogMessageKept | app/Traits/ApiResponseTrait.php:13-44 | every catalog text reaches a success envelope unchanged |
| AuthRequests.SendOtpAuthorize | app/Http/Requests/Auth/SendOtpRequest.php:11-14 | anyone may send the request |
| AuthRequests.SendOtpRules | app/Http/Requests/Auth/SendOtpRequest.php:18-25 | passes exactly when mobile is a text of 10 to 15 characters that is not all whitespace |
| AuthRequests.SendOtpIgnoresNameAndEmail | app/Http/Requests/Auth/SendOtpRequest.php:22-23 | name and email never affect validity, because their rules are commented out |
| AuthRequests.VerifyOtpAuthorize | app/Http/Requests/Auth/VerifyOtpRequest.php:11-14 | anyone may send the request |
| AuthRequests.VerifyOtpRules | app/Http/Requests/Auth/VerifyOtpRequest.php:18-24 | passes exactly when user_id names an existing user and otp is a six-character text that is not all whitespace |
| AuthRequests.BlankMobileRejected | app/Http/Requests/Auth/SendOtpRequest.php:21 | a mobile of ten spaces fails the rules, whatever name and email are sent |
| AuthRequests.DecimalUserIdAccepted | app/Http/Requests/Auth/VerifyOtpRequest.php:21 | a user id sent as decimal text is read as that id |
| Common.DecimalRoundTrip | app/Http/Requests/Auth/VerifyOtpRequest.php:21 | reading back the decimal text of a number gives the number |
| Register.IntText | app/Http/Controllers/API/RegisterController.php:55 | PHP's text of an integer is never empty |
| Register.NameFor | app/Http/Controllers/API/RegisterController.php:55 | the request's name unless it is empty in PHP's sense, and otherwise the mobile number |
| Register.UserByMobile | app/Http/Controllers/API/RegisterController.php:52-53 | finds a user with that mobile, or reports that there is none |
| Register.IndexOfUser | app/Http/Controllers/API/RegisterController.php:109 | `findOrFail` finds the user with that key |
| Register.LatestMatch | app/Http/Controllers/API/RegisterController.php:112-118 | the newest trail that matches the user, mobile and OTP, is unverified and unexpired; none exactly when no trail matches |
| Register.ProfileOf | app/Http/Controllers/API/RegisterController.php:137-138 | finds the user's profile, or reports that there is none |
| Register.Verified | app/Http/Controllers/API/RegisterController.php:127 | only that trail changes, and only its is_verified, to true |
| Register.SentOtpVerifies | app/Http/Controllers/API/RegisterController.php:48-68 | the OTP just sent is the one a verification picks at any time before it expires |
| Register.ExpiredAtDeadline | app/Http/Controllers/API/RegisterController.php:116 | at the exact expiry time the trail no longer matches, because the comparison is strict |
| Register.OtherTrailsStayUsable | app/Http/Controllers/API/RegisterController.php:112-127 | consuming one trail leaves every other matching trail usable; the consumed one never matches again |
| Register.StampKeepsUsers | app/Http/Controllers/API/RegisterController.php:131-134 | stamping a user keeps keys increasing and mobiles unique |
| Register.VerifyKeepsTrails | app/Http/Controllers/API/RegisterController.php:127 | marking a trail verified keeps trail keys increasing |
| Register.AddProfileKeepsProfiles | app/Http/Controllers/API/RegisterController.php:137-144 | adding a profile for a user who has none keeps one profile per user |
| Register.AddUserKeepsUsers | app/Http/Controllers/API/RegisterController.php:52-59 | adding a user for an unused mobile keeps mobiles unique and keys increasing |
| Register.AddTrailKeepsTrails | app/Http/Controllers/API/RegisterController.php:62-68 | appending a trail with the next key keeps trail keys increasing |
| Register.AuthStore.constructor | app/Http/Controllers/API/RegisterController.php:52-68 | empty tables, and each of the three key counters is 1 |
| Register.AuthStore.UserFirstOrCreate | app/Http/Controllers/API/RegisterController.php:52-59 | the id of the user with that mobile; otherwise appends a new active user, named as the request says, with the next key |
| Register.AuthStore.RecordOtp | app/Http/Controllers/API/RegisterController.php:62-68 | appends an unverified trail with the fixed OTP, expiring 600 seconds after now |
| Register.AuthStore.SendOtp | app/Http/Controllers/API/RegisterController.php:31-91 | finds or creates the user, records the trail, and returns the user id, the OTP and its expiry; profiles are unchanged |
| Register.AuthStore.ConsumeOtp | app/Http/Controllers/API/RegisterController.php:127-134 | marks that trail verified and sets both timestamps of the user to now; nothing else changes |
| Register.AuthStore.ProfileFirstOrCreate | app/Http/Controllers/API/RegisterController.php:137-144 | the user's existing profile; otherwise appends one with the picture, the default bio and now |
| Register.AuthStore.VerifyOtp | app/Http/Controllers/API/RegisterController.php:98-169 | 422 and no change when no trail matches; otherwise consumes the newest matching trail, stamps the user, ensures a profile, and returns the stamped user and the profile fields |

## Left out

- HTTP routing, middleware and `auth:sanctum`. The caller's id is a parameter.
- Issuing the access token in `verifyOtp` (`createToken`). There is no token in the login payload.
- Logging (`Log::error`) and the error traces.
- The image URL built from `url('/')` and an environment variable. It is the parameter `picture` of `verifyOtp`.
- Clocks and time zones. `now` and `today` are parameters. Times of day are not modelled.
- Concurrency and isolation between requests.
- The payload keys that wrap each result (`['activities' => ...]` and the like). The data is the wrapped value itself.
- Dates before 1970-01-01 and the text format of dates.
- Booleans and arrays as request values. A field is missing, a text or a number.
- The validator's per-field message texts. The error bag is the set of failing field names.
- Eager-loaded relations (`with('user')`, `with('activities')`) in the challenge listings.
- The `LogoutController`, because it is not part of this model.
- ChallengeActivities.ActivityTable.GenerateActivities: a storage fault is modelled only as one exception at the end of the transaction, which rolls everything back. The auto-increment counter is restored too, although MySQL would not reuse the burnt keys.
- ChallengeActivities.ActivityTable.UpdateStatus: requires the activity to exist. Route-model binding answers 404 before the controller runs. The 500 branch for a failed save is not modelled.
- ChallengeActivities.GetActivities: the 500 branch for a failing query is not modelled. The same holds for GetProgress, GetListPendingActivities, GetActivityStats and GetActivitiesPendingCount.
- ChallengeActivities.CompletionRate: PHP's floating-point division and `round(..., 2)` are modelled as exact integer hundredths rounded half up. Float error is not modelled.
- ChallengeActivities.GetListPendingActivities: the entries' challenge title and description come from the related challenge, but the contract does not state them.
- ChallengeActivities.ActivityTable.CreateActivitiesBasedOnFrequency: the dates are Carbon objects at midnight. Their time of day is not modelled, and `endOfMonth`'s 23:59:59 is taken as that day.
- Challenges.ChallengesList: `latest()` orders by `created_at`. The model orders by key, which matches insertion order. `created_at` has one-second resolution, so two challenges created in the same second may come back in either order; ties within one second are broken by key in the model only. The 500 `challenges_list_error` branch for a failing query is not modelled.
- Challenges.ChallengeTable.ChallangeAdd: the 500 branch for a failed insert is not modelled. A date that Laravel's `date` rule rejects is the `NotADate` input, which carries the day Carbon reads from it, if any.
- Challenges.ChallengeTable.ChallengeDelete: any exception, not only a missing row, answers 404. Only the missing-row case is modelled.
- Register.AuthStore.SendOtp: the 500 `otp_failed_to_sent` branch after a storage fault is not modelled. The commented-out `already_registered_mobile` check has no effect on behaviour.
- Register.AuthStore.VerifyOtp: the 500 `otp_verification_failed` branch after a storage fault is not modelled. `latest()` is modelled as insertion order. Two OTP trails created in the same second tie on `created_at`; ties within one second are broken by key in the model only.
- Register.NameFor: a numeric name is stored as its decimal text.
- The `TrimStrings` and `ConvertEmptyStringsToNull` middleware. Request texts reach validation and storage as sent; `required` alone applies PHP's `trim()` set (space, tab, newline, carriage return, NUL, vertical tab).
- Challenges.SingleDayRejected: holds for day-only dates. An end date with a time of day on the start day (`2030-01-05 12:00` after `2030-01-05`) passes `after:start_date` and is stored as a same-day challenge; times of day are not modelled.
- Challenges.ChallengeErrors: `after_or_equal:today` and `after:start_date` compare timestamps; the model compares day numbers, so a start later today or an end later on the start day is not modelled.
- Challenges.ChallengesListFilter: the catch branch for a failing query is not modelled. It answers any exception with 404 `challenges_not_found`, so a storage failure looks like "not found". Query comparisons are modelled as exact binary equality. MySQL's default collation is case-insensitive and ignores trailing spaces, so a filter of `Daily` or `daily ` also lists the daily challenges. The same holds for Challenges.UnknownFilterEmpty, which is stated for exact comparison only, and for the mobile and otp lookups of Register.AuthStore.SendOtp and Register.AuthStore.VerifyOtp.
- AuthRequests.VerifyOtpRules: a user id is read as a number only when it is a non-negative number or a text of decimal digits (AuthRequests.AsId). MySQL's looser conversion of other texts (`12.0`, `1e1`, ` 12`, `12abc`) when compared with the integer key is not modelled, so such requests are refused by the model and fall outside the precondition of Register.AuthStore.VerifyOtp.
- Record fields that no core operation reads or writes (timestamps other than the ones modelled, hidden attributes).
