# ttinterview-be, modelled in Dafny

ttinterview-be is a small Express back end for booking medical appointments.
Accounts, doctor profiles and appointments live in three document collections.
The model covers the request handlers and the helpers they share:

- `/signup` and `/signin` (accounts, hashed passwords, signed tokens);
- `GET /doctors/all` (the doctor directory, patients only);
- `GET /appointments/all` and `POST /appointments/create` (listing and booking);
- the fixture generators `POST /mocks/add/doctor` and `POST /mocks/add/appointments`;
- the shared helpers of `src/utils.js`: the response envelope, bearer-token
  extraction, the authentication and role middleware, weekday and hour of a
  date, and the random date on a given weekday.

Modules, in dependency order:

| file | module | what it holds |
|---|---|---|
| `js.dfy` | `Js` | the JavaScript behaviour the handlers rely on: `undefined`, `split(" ")`, ASCII `toUpperCase`, number-to-text, `Number(...)` and the default string ordering of `sort()` |
| `types.dfy` | `Types` | roles, statuses, weekdays, opening hours, specialties, qualifications and the message texts |
| `calendar.dfy` | `Calendar` | local dates, the Gregorian weekday, chronological order, `toISOString()` |
| `tokens.dfy` | `Tokens` | token claims and the JWT and bcrypt services, kept abstract with the laws the handlers rely on |
| `store.dfy` | `Store` | the stored records, the equality queries (`where(...).get()`, `docs[0]`) and the `Database` class whose collections the handlers append to |
| `utils.dfy` | `Utils` | `generateResponse`, the error handler's reply, the middleware, `getDayName`, `getHour`, `generateRandomDateByDay` |
| `auth.dfy` | `Auth` | `/signup`, `/signin` |
| `doctors.dfy` | `Doctors` | `/doctors/all` |
| `appointments.dfy` | `Appointments` | `/appointments/all`, `/appointments/create` |
| `mocks.dfy` | `Mocks` | `/mocks/add/doctor`, `/mocks/add/appointments` |

The following are parameters of the model:

- the database, a `Store.Database` object whose three `seq` fields the handlers append to;
- the JWT and bcrypt services, as records of functions. `JwtSound` and
  `BcryptSound` state the laws the handlers rely on (a signed token verifies
  and decodes to its claims; a password matches its own hash);
- validator.js's `isEmail` and `isStrongPassword`;
- the date parser behind `new Date(string)`;
- the current time;
- fresh ids;
- faker's free-text draws, in `Mocks.TextDraws`.

Bounded random draws are nondeterministic choices inside the methods: counts,
list elements, ratings, hours and shuffles. Every property about them holds
for every possible draw.

Each handler is a function from the request and the stored collections to a
reply (`Utils.Reply`: the HTTP status and the JSON envelope) or, where it
writes, a method on the `Database` that appends and returns the reply. A
rejected request (`throw` or `next(err)`) goes through the error handler of
`src/app.js`, which answers with the error's own status, or 500 when it has
none (`Utils.ErrorReply`).

## Model

| member | source | states |
|---|---|---|
| Js.Split | src/utils.js:29 | `split(" ")` yields at least one field, none containing the separator, and exactly one when the text has no separator |
| Js.JoinSplit | src/utils.js:29 | joining the fields of a split with the separator gives back the original text |
| Js.SplitJoin | src/utils.js:29 | splitting a join of separator-free fields gives back exactly those fields |
| Js.ToUpper | src/functions/auth.js:55 | `toUpperCase` keeps the length, leaves no lower-case letter and changes nothing in text without one |
| Js.ToUpperIdempotent | src/functions/auth.js:106 | upper-casing an already upper-cased role changes nothing |
| Js.NatToString | src/functions/mocks.js:80 | a number's decimal text is non-empty, all digits, with no leading zero |
| Js.DigitsRoundTrip | src/functions/mocks.js:80 | reading a number's decimal text back gives the number |
| Js.IntToString | src/functions/mocks.js:102 | the text `sort()` compares: the decimal text for non-negative numbers, a leading minus sign otherwise |
| Js.ToNumber | src/functions/mocks.js:188 | converting text to a number: any text containing ':' (an ISO date string) is NaN |
| Calendar.DaysInMonth | src/utils.js:121-127 | a month has 28 to 31 days, and 29 exactly in February of a leap year |
| Calendar.LocalDate | src/utils.js:123-126 | `new Date(y, m, d)` stays in month m of year y exactly when d is at most the month's length, and is then that day's midnight |
| Calendar.DayOfWeek | src/utils.js:127 | `getDay()` is a number from 0 (Sunday) to 6; the four lemmas below pin it to the real calendar |
| Calendar.EpochWasThursday | src/utils.js:127 | 1 January 1970 is a Thursday (4), as `getDay()` reports it |
| Calendar.DaysInYear | src/utils.js:121-127 | the twelve months of a year add up to 366 days in a leap year and 365 otherwise |
| Calendar.NewYearAdvances | src/utils.js:121-131 | the weekday of 1 January of the next year is this year's, moved on by the days of this year |
| Calendar.NextDayIsNextWeekday | src/utils.js:121-131 | the day after any valid date, within a month, across a month end or across New Year, falls on the next weekday |
| Calendar.WeekdayIndex | src/utils.js:108-119 | the `daysOfWeek` lookup: a weekday name maps to its number; any other string maps to nothing |
| Calendar.WeekdayName | src/utils.js:96-100 | a date's English weekday name is one of the seven, and its number is the date's `getDay()` |
| Calendar.FirstWeekHasEveryWeekday | src/utils.js:121-131 | every weekday falls on some day of the first week of January, so a weekday name always has dates in a year |
| Calendar.EarlierIsStrictTotalOrder | src/functions/appointments.js:54 | the order `>` compares dates by is irreflexive, total, asymmetric and transitive |
| Calendar.ToIsoString | src/utils.js:138 | `toISOString()` text contains ':' and ends in 'Z' |
| Store.Filter | src/functions/appointments.js:29 | an equality query returns exactly the matching documents, each as often as stored, in the order they were inserted (a subsequence of the collection) |
| Store.First | src/functions/auth.js:91-97 | `docs[0]` of a query is absent exactly when nothing matches, and is otherwise the first match in insertion order |
| Store.FilterAppend | src/functions/appointments.js:29-35 | querying a collection that grew by appends gives the old matches followed by the new ones |
| Store.FirstIsHeadOfFilter | src/functions/appointments.js:78-83 | `docs[0]` is the head of the query result |
| Store.AppendFreeSlot | src/functions/appointments.js:94-117 | adding an appointment for a (doctor, date) pair that is not yet taken keeps every pair booked at most once |
| Store.Database.AddUser | src/functions/auth.js:68 | adding an account appends it and leaves the other collections unchanged |
| Store.Database.AddDoctor | src/functions/mocks.js:122 | adding a doctor appends it and leaves the other collections unchanged |
| Store.Database.AddAppointment | src/functions/appointments.js:117 | adding an appointment appends it and leaves the other collections unchanged |
| Utils.Check | src/functions/auth.js:20-47 | one validator of a chain adds one field error exactly when its check fails |
| Utils.GenerateResponse | src/utils.js:7-16 | the envelope's status is the given one, or 500 when missing or zero; its message is the given one, or an empty list |
| Utils.ErrorReply | src/app.js:26-32 | a rejected request is answered with the error's own status and the error as body |
| Utils.ExtractToken | src/utils.js:28-29 | the token is the second space-separated field: absent without a header or without a space; the empty header gives the empty token; a token never contains a space |
| Utils.BearerTokenRoundTrip | src/utils.js:28-29 | for a header made of space-free fields, the token is its second field |
| Utils.BearerHeader | src/utils.js:28-29 | `"Bearer " + token` yields `token` |
| Utils.ValidateAuthentication | src/utils.js:27-44 | no token: 401 Unauthorized; an expired token: 401 Token expired; any other verification failure: 403; otherwise the verified claims |
| Utils.SignedTokenAuthenticates | src/utils.js:24-44 | a token the server signed, sent as a bearer token, authenticates as exactly its claims |
| Utils.RoleGate | src/utils.js:46-94 | passes exactly when the decoded token has the required role and its user id is stored; no token or the wrong role gives 401; an unknown user gives 401 USER_NOT_FOUND; an undecodable token gives 500 |
| Utils.ValidatePatient | src/utils.js:46-69 | only a stored PATIENT passes, with the decoded claims; a failure is 401 or 500 |
| Utils.ValidateDoctor | src/utils.js:71-94 | only a stored DOCTOR passes, with the decoded claims; a failure is 401 or 500 |
| Utils.DayName | src/utils.js:96-100 | a parsed date's name is the weekday of its `getDay()`; an invalid date's name is no weekday |
| Utils.Hour | src/utils.js:102-105 | `getHours()` of a parsed date is its hour, 0 to 23; an invalid date has none |
| Utils.SameYearEarlier | src/utils.js:121-131 | in one year, a later (month, day) position is a later date |
| Utils.InYearOrderIsChronological | src/utils.js:121-131 | dates collected month by month and day by day are in chronological order |
| Utils.MatchingDaysOfMonth | src/utils.js:122-131 | the inner loop collects every existing day of the month with the target weekday, each at midnight, in increasing order, and nothing for an unknown weekday |
| Utils.AppendMonth | src/utils.js:121-132 | appending one month's matching days keeps the list complete up to that month, made of matching midnights, and in calendar order |
| Utils.CandidateDates | src/utils.js:118-132 | the `dates` list holds exactly the dates of the year on the weekday, chronologically; empty for an unknown name, non-empty otherwise |
| Utils.RandomDateByDay | src/utils.js:107-139 | the result is a date of the current year on the named weekday, at the given hour on the hour; there is no result exactly when the name is not a weekday |
| Auth.SignupErrors | src/functions/auth.js:20-47 | no error exactly when the full name is present, the role is PATIENT or DOCTOR, the e-mail is well formed and unused, and the password is present and strong; each failed check contributes its own field error |
| Auth.RolesAreUpperCase | src/functions/auth.js:55 | upper-casing an accepted role leaves it unchanged |
| Auth.SignupRecord | src/functions/auth.js:49-59 | a stored account has the given e-mail and name, the password's hash, the given role, a user id starting with the role and "_", and an e-mail not used before |
| Auth.Signup | src/functions/auth.js:17-75 | an invalid signup answers 400 with the errors and stores nothing; a valid one appends exactly the new account and answers 201 with a token for its claims; unique e-mails stay unique |
| Auth.AccountFor | src/functions/auth.js:90-97 | the account found for an e-mail is a stored account with that e-mail, and exists exactly when one is stored |
| Auth.SigninErrors | src/functions/auth.js:79-86 | no error exactly when the e-mail is present and well formed and the password is present |
| Auth.Signin | src/functions/auth.js:77-115 | invalid input gives 400 with the errors; an unknown e-mail gives 400 EMAIL_NOT_FOUND; a wrong password gives 400 PASSWORD_NOT_MATCH; otherwise 200 with a token for the stored account, role upper-cased |
| Auth.SigninAfterSignup | src/functions/auth.js:17-115 | signing in with the credentials of a successful signup returns a token carrying exactly the new account's claims |
| Auth.SecondSignupRejected | src/functions/auth.js:27-34 | a second signup with the same e-mail fails with EMAIL_ALREADY_IN_USE |
| Doctors.ListDoctors | src/functions/doctors.js:11-28 | authentication and patient errors pass through; 200 exactly for an authenticated stored patient when some doctor is stored, with every doctor in store order; 404 DOCTOR_NOT_FOUND when none is |
| Doctors.SignedInPatientSeesDirectory | src/functions/doctors.js:11-28 | a stored patient with a server-signed token gets the whole directory |
| Appointments.ListAppointments | src/functions/appointments.js:24-40 | authentication errors pass through; a doctor gets the appointments naming them as doctor and anyone else those naming them as patient, each exactly as often as stored; 404 APPOINTMENTS_NOT_FOUND when there are none |
| Appointments.ParseDate | src/functions/appointments.js:51 | the empty date string parses to no date |
| Appointments.BookingErrors | src/functions/appointments.js:48-69 | no error exactly when a date is present and not in the past and a doctor id is present; each failed check contributes its own field error |
| Appointments.Available | src/functions/appointments.js:74-92 | a slot is offered exactly when the date parses and some availability entry has the date's weekday and lists its hour |
| Appointments.DoctorFor | src/functions/appointments.js:77-83 | the doctor found for a user id is a stored doctor with that id, and exists exactly when one is stored |
| Appointments.Book | src/functions/appointments.js:42-116 | errors are checked in order (authentication, patient, field errors, unknown doctor 404, slot not offered 400, slot taken 400); a past date is always refused; once authentication, the patient and the fields pass: an unknown doctor gives exactly 404 DOCTOR_NOT_FOUND, a date outside the doctor's slots exactly 400 DOCTOR_NOT_AVAILABLE, a slot already booked exactly 400 APPOINTMENT_ALREADY_TAKEN; a booking succeeds exactly when every check passes, and is then UPCOMING, for the requesting patient and the named doctor, at a free, offered, not-past slot |
| Appointments.CreateAppointment | src/functions/appointments.js:42-123 | a refused booking answers the error and changes nothing; an accepted one appends exactly the new appointment, answers with it, and keeps every (doctor, date) pair booked at most once |
| Appointments.RebookingRefused | src/functions/appointments.js:94-102 | once a booking is stored, booking the same doctor at the same date again is refused, and by any authenticated patient exactly with 400 APPOINTMENT_ALREADY_TAKEN |
| Appointments.BookingIsListed | src/functions/appointments.js:24-117 | a stored booking appears in the listing of the patient who made it and in that of the doctor it names |
| Mocks.DoctorAccount | src/functions/mocks.js:41-51 | the account found for an e-mail is a stored DOCTOR account with that e-mail, and exists exactly when one is stored |
| Mocks.AddDoctorErrors | src/functions/mocks.js:29-61 | no e-mail passes; an e-mail already on a doctor gives EMAIL_ALREADY_IN_USE; an e-mail of no DOCTOR account gives DOCTOR_NOT_FOUND; otherwise no error |
| Mocks.HoursInTextOrderSorted | src/functions/mocks.js:102 | the opening hours in the order `sort()` puts them (10 to 19, then 9) are sorted by their text |
| Mocks.SelectInTextOrder | src/functions/mocks.js:102 | keeping the drawn hours of a text-sorted list of all hours sorts the drawn hours |
| Mocks.SortHours | src/functions/mocks.js:102 | the sorted hours are the drawn hours (same multiset), distinct and ordered by their text |
| Mocks.SortPutsTenBeforeNine | src/functions/mocks.js:102 | `[9, 10].sort()` is `[10, 9]` |
| Mocks.UnusedHourExists | src/functions/mocks.js:95-101 | while fewer hours are picked than there are, an unused hour exists, so the redraw loop can end |
| Mocks.DrawHours | src/functions/mocks.js:87-102 | a day's hours are between 1 and 11 distinct opening hours in text order |
| Mocks.DrawAvailability | src/functions/mocks.js:86-104 | one entry per weekday, Monday to Sunday, each with such hours |
| Mocks.DrawQualifications | src/functions/mocks.js:106-109 | 1 to 5 qualifications, each from the fixed list |
| Mocks.DrawReviews | src/functions/mocks.js:111-120 | 5 to 20 reviews, each rated 1 to 5, the texts of the i-th review being the i-th text draws |
| Mocks.DrawDoctor | src/functions/mocks.js:74-120 | the profile has the given name, id and e-mail, an avatar, a listed specialty, 1 to 40 years of experience, and the drawn qualifications, reviews and availability |
| Mocks.AppendGeneratedDoctor | src/functions/mocks.js:86-122 | adding a generated profile keeps every stored availability hour within the day |
| Mocks.AddDoctor | src/functions/mocks.js:26-129 | a rejected request answers 400 and stores nothing; otherwise one generated doctor is appended and returned with 201, taking the e-mail, user id and name of the DOCTOR account when an e-mail is given, and fresh ones otherwise |
| Mocks.SecondDoctorWithEmailRefused | src/functions/mocks.js:29-39 | once a doctor has an e-mail, adding another with it is refused with EMAIL_ALREADY_IN_USE |
| Mocks.FixtureErrors | src/functions/mocks.js:133-140 | no error exactly when both user ids are present |
| Mocks.HourSlotsMembership | src/functions/mocks.js:171-177 | a day's slots are exactly its hours |
| Mocks.DaySlotsMembership | src/functions/mocks.js:170-178 | a doctor's slots are exactly the (day, hour) pairs of its availability |
| Mocks.SlotsOfMembership | src/functions/mocks.js:169-180 | the slot list holds exactly the (doctor, day, hour) triples of the doctors' availability |
| Mocks.CollectHourSlots | src/functions/mocks.js:171-177 | the innermost loop builds exactly one slot per hour of an entry, in order |
| Mocks.CollectDaySlots | src/functions/mocks.js:170-178 | the middle loop builds exactly a doctor's slots, entry by entry |
| Mocks.FlattenSlots | src/functions/mocks.js:166-180 | the outer loop builds exactly the slot list of all the doctors, in order |
| Mocks.ChooseSlots | src/functions/mocks.js:182 | shuffling and keeping the first five picks min(5, n) of the slots, each at most as often as it occurs |
| Mocks.IsoDateAfterNowAsWritten | src/functions/mocks.js:187-188 | comparing an ISO date string with `new Date()` by `>` is always false |
| Mocks.FixtureStatusAsWritten | src/functions/mocks.js:185-188 | the status as written is always the randomly drawn one |
| Mocks.FutureFixtureNotUpcomingAsWritten | src/functions/mocks.js:187-188 | a Monday 09:00 slot drawn as 2026-12-28T09:00 (a date `generateRandomDateByDay` can return), with now 2026-10-15 and the draw COMPLETED, is not UPCOMING |
| Mocks.StatusFor | src/functions/mocks.js:185-188 | a fixture after now is UPCOMING; any other keeps the drawn status |
| Mocks.FutureFixtureIsUpcoming | src/functions/mocks.js:187-188 | under the corrected comparison, a fixture dated after now is UPCOMING whatever status was drawn |
| Mocks.BuildFixture | src/functions/mocks.js:183-199 | a slot on a weekday gives an appointment for that doctor and patient, dated on that weekday at that hour of the current year, with a fresh "APPOINTMENT_" id and a status that is UPCOMING unless its status date is not after now; a slot on another day gives none |
| Mocks.BuildFixtures | src/functions/mocks.js:183-200 | the fixtures are built one per chosen slot, in order; the request fails with a 500 exactly when some slot's day is not a weekday name |
| Mocks.DoctorsWithId | src/functions/mocks.js:144-153 | the doctors queried are exactly the stored doctors with the id, and none exactly when no stored doctor has it |
| Mocks.PatientFor | src/functions/mocks.js:155-164 | the patient found is a stored account with the id, and exists exactly when one is stored |
| Mocks.GeneratedSlotsHaveWeekdays | src/functions/mocks.js:169-184 | every slot of doctors with weekly availability is on a weekday name |
| Mocks.SlotsInDay | src/functions/mocks.js:169-184 | every slot's hour is within the day when the doctors' hours are |
| Mocks.FixturesOfPair | src/functions/mocks.js:183-200 | every fixture names the requested doctor and patient and the patient's name |
| Mocks.AppendAll | src/functions/mocks.js:202-204 | the loop appends the fixtures in order and leaves the other collections unchanged |
| Mocks.StoreFixtures | src/functions/mocks.js:166-206 | once doctor and patient are found: when every slot is on a weekday name, min(5, slots) fixtures are appended after the stored appointments and returned with 201, each the fixture of its own chosen slot (that doctor's name and id, a date on the slot's weekday and hour this year, the patient, an APPOINTMENT_ id), the chosen slots a sub-multiset of the doctor's slots; otherwise a 500 and nothing stored |
| Mocks.AddAppointments | src/functions/mocks.js:131-211 | a missing id gives 400, an unknown doctor 404 DOCTOR_NOT_FOUND, an unknown patient 404 PATIENT_NOT_FOUND, all without change; otherwise min(5, slots) appointments are appended and returned with 201, each the fixture of its own chosen slot of that doctor, for that patient |

## Left out

- The Express plumbing: the router wiring, the CORS and body-parser set-up and the port are not modelled; neither is `generatePort` (src/utils.js:18-20). `src/firebaseConfig.js` is not part of this model.
- Firestore itself: the model has one in-memory copy per collection, with no concurrency. A booking's "slot taken" check and its insert are one step here. Two concurrent requests could both pass the check in the real store.
- Signing, verification and hashing: `jsonwebtoken` and `bcrypt` are abstract function records. Their laws are stated as `JwtSound` and `BcryptSound`. The one-hour token expiry of `generateToken` (src/utils.js:24-25) appears only as the `Expired` verification outcome.
- validator.js's `isEmail` and `isStrongPassword`: both are abstract predicates.
- Date parsing and time zones: `new Date(string)` is the parameter `parse`. The server's local time is taken as UTC, so `toISOString()` prints the local fields. Years outside 0–9999 and the years 0–99 quirk of `new Date(y, m, d)` are not modelled.
- Utils.RandomDateByDay: requires an hour of 0–23, because `setHours` with a larger value rolls into the next day and that is not modelled. The current year is a parameter.
- Mocks.AddAppointments: requires every stored doctor's hours to be 0–23 (`HoursInDay`), for the same reason. The handlers that store doctors keep this, which `Mocks.AppendGeneratedDoctor` shows.
- Utils.CandidateDates: states non-empty for a weekday name, not the exact count of 52 or 53.
- Js.ToUpper: only ASCII letters are upper-cased. Other Unicode case mappings are not modelled.
- Js.ToNumber: only digit strings and strings with ':' are classified. The rest of JavaScript's numeric-literal grammar is not modelled.
- Utils.RoleGate: an undecodable token makes the source read `.role` of `null`, and the async middleware rejects. Express 5 passes that rejection to the error handler, which answers 500; Express 4 leaves the request unanswered. The model takes the 500 reply. The `throw` after `next(...)` on USER_NOT_FOUND is modelled as the single 401 reply it sends.
- Utils.GenerateResponse: the "Invalid message format" branch is not modelled. It is dead code: the default parameter `message = []` replaces an explicit `undefined` too, so `message` is never `undefined` at the test.
- Auth.SignupErrors: the source runs the e-mail-in-use query even for a missing e-mail. The model looks up the empty e-mail; Firestore's rejection of an `undefined` filter value is not modelled.
- Auth.SigninAfterSignup: requires that `isEmail` rejects the empty string, as validator.js does.
- Mocks.AddAppointments: the "all doctors" branch of mocks.js:144-149 is not modelled. The model's body fields are strings, which rules out a non-string falsy id such as `0` or `false`; express-validator's `notEmpty()` accepts those once converted to text, and the source would then query every doctor.
- Mocks.AddAppointments: inserts the fixtures without checking for taken slots (mocks.js:202-204), so it does not keep `Store.SlotsUnique`; only `Appointments.CreateAppointment` does.
- Store.Filter: query results are taken in insertion order. Firestore's `add()` gives random document ids and a `where().get()` without `orderBy` returns documents by id, so which of several matches `docs[0]` picks (auth.js:97, appointments.js:83, mocks.js:164) and the order of listings (doctors.js:22, appointments.js:35) are not modelled.
- Mocks.DrawHours: the do-while redraw is modelled as one draw among the unused hours. The set of possible results is the same; the retry count is not modelled.
- Mocks.ChooseSlots: faker's `shuffle` is modelled as a Fisher–Yates loop with nondeterministic indices. Only the kept multiset and its size are stated, not a distribution.
- Mocks.SortHours: the in-place `sort()` of a day's hours is modelled as a function on a sequence, a selection from the hours listed in text order, not as an in-place array sort.
- Mocks.BuildFixtures: each `generateDate()` call is the single parameter `createdAt`, and each `nanoid()` call is a draw from `TextDraws.nanoid`.
- Free-text faker draws (names, e-mails, avatars, review texts and dates) are parameters. Their content is not constrained.
- Mocks.BuildFixture: uses the corrected status rule `StatusFor`, not the comparison as written (see Findings).

## Findings

| source | as written | input that shows it | evidently intended | confidence | as-written member | corrected member |
|---|---|---|---|---|---|---|
| src/functions/mocks.js:187-188 | `date > new Date()` compares the ISO string from `generateRandomDateByDay` with a `Date`. Both sides become numbers, and the string becomes NaN, so the test is always false and every fixture keeps its random status | a Monday 09:00 slot drawn as 2026-12-28T09:00, with the current time 2026-10-15 and the drawn status COMPLETED: the fixture is stored as COMPLETED though it lies in the future | a fixture dated after now is UPCOMING | not executed | Mocks.FutureFixtureNotUpcomingAsWritten | Mocks.FutureFixtureIsUpcoming |

Even corrected, the status is decided on one draw of `generateRandomDateByDay` (mocks.js:184). The stored `date` is a second, independent draw (mocks.js:198). `Mocks.BuildFixture` keeps both draws apart, so an UPCOMING fixture can carry a past date.
