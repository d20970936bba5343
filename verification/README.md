# Sleep tracker: a Dafny model of its decision logic

This project models the core logic of a small sleep-logging web application. Users register and log in. Each night they record when they went to bed and when they woke. The server works out how many hours that was and stores the record under the user's id. The browser then shows statistics and advice based on the stored records.

The model covers four pieces of pure logic:

- **Server** (`backend/server.js`):
  - the sleep-duration formula shared by the create and update routes;
  - the `sleep_records` table as an owner-scoped store (`Records`);
  - the error mapping of registration, login and the bearer-token middleware (`Accounts`);
  - the protected routes, which run the token check before the store (`Routes`).
- **Per-record advice** (`frontend/src/components/sleeplist.jsx`, `Advice`). There are three independent rule families: duration band, quality lookup and bedtime band. The module also covers the fallbacks of the quality colour and emoji.
- **Dashboard** (`frontend/src/components/dashboard.jsx`, `Dashboard`):
  - the average card, which shows the mean hours;
  - the best-sleep card, which shows the longest night;
  - the three-way verdict, taken on the average after one-decimal rounding.
- **Daylight tips** (`frontend/src/components/weather.jsx`, `Daylight`). The sunrise hour and the day length in seconds are inputs.

Modules: `Common` (Option, Result, HTTP errors), `Clock`, `Records`, `Accounts`, `Routes`, `Advice`, `Dashboard`, `Daylight`.

Modelling choices:

- A clock time is an hour `0..23` and a minute `0..59`. Hours are Dafny `real`, so every duration and mean is exact.
- A calendar date is an integer that sorts the way the ISO `YYYY-MM-DD` text does.
- Quality is `Excellent | Good | Fair | Poor | Unrated`. `Unrated` stands for an absent value, an empty one, and any other text that is not a property name of every JavaScript object (such as `constructor` or `toString`).
- A store write is either applied to the record store or refused. The record store is a map from row id to record, plus the AUTOINCREMENT counter.
- The record store keeps one invariant (`Records.Valid`). Each key is its row's id and ids are below the counter; SQLite's primary key and AUTOINCREMENT guarantee that part. Each stored `hours` is the duration of its row's times; that part holds because both write routes recompute `hours` from the submitted times (backend/server.js:145-149, 195-199). Create and list require it. Update and delete keep it whenever it held before.
- The users table is a sequence in insertion order, because the login lookup returns the first matching row.
- Password hashing, hash comparison, token signing and token verification are library calls. They are function parameters of the model (`hashed`, `matches`, `sign`, `verify`), not definitions.
- Each advice message is identified by the rule that fired and its severity (`Success`, `Info`, `Warning`). Its text is not modelled.

Behaviour of the code worth knowing:

- **Best sleep.** Best sleep is a plain maximum of `hours` (dashboard.jsx:68-70); quality plays no part in it. `Dashboard.BestSleep` is that maximum.
- **Bedtimes from 23:31 to 23:59.** The first bedtime branch (sleeplist.jsx:79) already takes every hour from 21 to 23. So the `sleepHour === 23 && sleepMinute > 30` disjunct at sleeplist.jsx:91 is unreachable, and 23:45 is classed as optimal. `Advice.BedtimeMessage` keeps that dead disjunct, and `Advice.LateElevenIsOptimal` states its effect.
- **Duplicate email.** A duplicate email answers 400 (server.js:88-89), the same status as a missing field. `Common.ApiError.Status` maps both to 400.
- **Token scheme.** The middleware takes the piece after the first space and never checks the word before it, so `Basic <token>` is accepted like `Bearer <token>`. `Accounts.TokenAfterFirstSpace` states this.

## Model

| member | source | states |
|---|---|---|
| Clock.MinuteOfDay | backend/server.js:145-146 | a clock time parsed on the nominal day is a minute in 0..1439 whose hour and minute are recovered by division and remainder |
| Clock.Duration | backend/server.js:145-149 | the computed hours lie in [0, 24); equal times give 0, not 24; without a midnight crossing it is wake minus sleep, with one it is wake plus a day minus sleep |
| Clock.DurationIsModularDifference | backend/server.js:145-149 | for every pair of times, hours times 60 equals (wake - sleep) mod 1440 minutes |
| Clock.DurationReachesWakeTime | backend/server.js:148-149 | the duration is a whole number of minutes, and moving forward from the sleep time by it lands on the wake time |
| Clock.DurationExamples | backend/server.js:145-149 | 22:00 to 07:00 is 9 hours, 23:45 to 00:15 is 0.5 hours, 07:00 to 22:00 is 15 hours |
| Records.Empty | backend/server.js:37-50 | the fresh table has no rows and satisfies the store invariant |
| Records.MakeRecord | backend/server.js:151-154 | a written row carries the caller as owner, the submitted fields, and hours in [0, 24) derived from its own times |
| Records.Create | backend/server.js:140-171 | create adds exactly one row under a fresh id, owned by the caller, holding the submitted times, quality, notes and date, with hours = duration(sleep, wake), leaves every other row as it was, and keeps the invariant |
| Records.Update | backend/server.js:190-216 | update succeeds iff a row has that id and the caller's user id; then only that row changes, to the new fields with hours recomputed; otherwise 404 and the store is unchanged |
| Records.Delete | backend/server.js:219-236 | delete succeeds iff a row has that id and the caller's user id; then only that row is removed; otherwise 404 and nothing is removed |
| Records.WritesIsolateOwners | backend/server.js:201-232 | no update or delete by one user changes or removes a row owned by another user (for create, `Records.Create` states that every existing row is kept) |
| Records.DeleteUndoesCreate | backend/server.js:223-233 | deleting the row just created, as its owner, succeeds and restores the previous rows |
| Records.UpdateIdempotent | backend/server.js:201-213 | repeating the same update leaves the store as the first one left it, with the same answer |
| Records.Step | backend/server.js:140-236 | every write request keeps the store invariant: keys are ids below the counter and each stored hours is derived |
| Records.HoursAlwaysDerived | backend/server.js:145-205 | after any sequence of creates, updates and deletes, every stored hours equals the duration of its row's own times and lies in [0, 24) |
| Records.InsertByDate | backend/server.js:177-178 | inserting into the listed rows adds exactly that row, keeping the rest as a multiset |
| Records.InsertMembers | backend/server.js:177-178 | the list after an insertion holds exactly the inserted row and the rows it held before |
| Records.InsertKeepsOrder | backend/server.js:177-178 | inserting into a newest-first list keeps it newest first |
| Records.InsertKeepsIdsDistinct | backend/server.js:177-178 | inserting a row whose id is new keeps ids distinct |
| Records.List | backend/server.js:174-187 | list returns every row of the caller and only those rows, each once and unmodified, ordered by date descending |
| Accounts.FindByEmail | backend/server.js:114-121 | the lookup finds nothing iff no user has that email, and otherwise returns a stored user with that email |
| Accounts.Register | backend/server.js:73-104 | a missing or empty field gives 400 with no change; a known email gives 400 with no change; succeeds iff all fields are given and the email is new, and then one user is appended under the next id and a token is issued for it; unique emails are preserved |
| Accounts.Login | backend/server.js:107-135 | a missing field gives 400; an unknown email or a password that does not match the stored hash gives 401; succeeds iff the fields are given, the email is found and the password matches its stored hash, and then returns a token and the details of the row the lookup found |
| Accounts.RegisterThenLogin | backend/server.js:81-133 | after a successful registration, logging in with the same email and password returns that user's id, when the hash comparison accepts the password against its own hash |
| Accounts.FindAppended | backend/server.js:83-114 | a user appended with a new email is the one the email lookup then finds |
| Accounts.DuplicateRegistrationRefused | backend/server.js:83-90 | registering an email a second time gives the duplicate error and leaves the users table as it was |
| Accounts.Split | backend/server.js:55 | `split(' ')` yields at least one piece, more than one iff the text has a space, and no piece contains a space |
| Accounts.SplitJoin | backend/server.js:55 | joining the pieces of a split with the separator gives back the header |
| Accounts.SplitWhole | backend/server.js:55 | text without a space is a single piece |
| Accounts.SplitAtFirst | backend/server.js:55 | the first piece of text with a space is everything before that space |
| Accounts.BearerToken | backend/server.js:55 | there is a token iff a header was sent and it has a space; the token is a single piece with no space in it |
| Accounts.TokenAfterFirstSpace | backend/server.js:55 | the token is the text after the first space up to the next one, whatever word precedes it |
| Accounts.Authenticate | backend/server.js:54-68 | no token, or an empty one, gives 401; a token that does not verify gives 403; a non-empty token the verifier accepts always succeeds, and the caller is the verified payload |
| Accounts.SignedTokenAuthenticates | backend/server.js:55-66 | a header `Bearer <token>` carrying a token the verifier accepts authenticates as the signed user |
| Accounts.MissingTokenCases | backend/server.js:55-59 | no header, a header without a space, and `Bearer ` with nothing after it all give the missing-token error |
| Common.ApiError.Status | backend/server.js:57-232 | missing fields and duplicate email are 400, bad credentials and missing token are 401, invalid token is 403, not found is 404 |
| Routes.CreateRoute | backend/server.js:140-168 | without valid authentication the store is unchanged and the auth error is returned; with it a new row under a fresh id is stored and returned, owned by the token's user id and holding the submitted times, quality, notes and date with hours recomputed |
| Routes.UpdateRoute | backend/server.js:190-193 | update succeeds iff authenticated and the row is owned by the token's user; 404 iff authenticated but not owned; every error leaves the store unchanged; on success that row is replaced by the entry owned by the token's user, with hours recomputed |
| Routes.DeleteRoute | backend/server.js:219-221 | delete succeeds iff authenticated and the row is owned by the token's user; 404 iff authenticated but not owned; every error leaves the store unchanged; on success exactly that row is removed |
| Routes.ListRoute | backend/server.js:174-175 | an unauthenticated list returns the auth error; otherwise exactly the token user's rows, each once, newest date first |
| Routes.NoTokenNoWrite | backend/server.js:54-59 | without a header, create, update and delete all answer missing-token and leave the store as it was |
| Advice.DurationMessage | frontend/src/components/sleeplist.jsx:28-52 | exactly one duration message: below 6 too short (warning), [6, 7) borderline (info), [7, 9] ideal (success), above 9 long (info) |
| Advice.QualityMessage | frontend/src/components/sleeplist.jsx:55-73 | poor gives a warning, fair an info, excellent a success; good or any other value gives no message |
| Advice.BedtimeMessage | frontend/src/components/sleeplist.jsx:76-109 | there is a bedtime message iff the hour is in 0..23, and it is the band of the hour (21-23 optimal, 19-20 early, 0-1 past midnight, 2-5 very late, 6-18 unusual) whatever the minute |
| Advice.LateElevenIsOptimal | frontend/src/components/sleeplist.jsx:79-91 | 23:mm is classed optimal for every minute, so the late branch's `23 && minute > 30` case never fires |
| Advice.PersonalRecommendations | frontend/src/components/sleeplist.jsx:23-111 | the list has 2 or 3 messages, 3 exactly when quality is poor, fair or excellent; it is ordered duration, quality, bedtime, and each severity matches its rule |
| Advice.ShortLateNightExample | frontend/src/components/sleeplist.jsx:23-111 | a 23:45 to 00:15 night with good quality gives a too-short warning and an optimal-bedtime success |
| Advice.QualityColor | frontend/src/components/sleeplist.jsx:2-10 | the colour is the grey fallback `#999` exactly for an absent quality or an unknown one that is not an object property name |
| Advice.QualityEmoji | frontend/src/components/sleeplist.jsx:12-20 | an absent quality or an unknown one that is not an object property name shows the default emoji, the same one as excellent, and no other quality does |
| Dashboard.HoursOf | frontend/src/components/dashboard.jsx:65 | the hours column has one entry per record, in order |
| Dashboard.Mean | frontend/src/components/dashboard.jsx:64-66 | the average is 0 for no records; otherwise it times the count equals the sum of hours |
| Dashboard.Max | frontend/src/components/dashboard.jsx:69 | the maximum is one of the hours and no hours exceed it |
| Dashboard.Tenths | frontend/src/components/dashboard.jsx:65 | the shown tenths are the integer nearest to ten times the value, with halves going away from zero |
| Dashboard.TenthsHalfUp | frontend/src/components/dashboard.jsx:65 | for a non-negative value the shown tenths are the nearest integer to ten times it, with halves going up |
| Dashboard.Round1 | frontend/src/components/dashboard.jsx:65 | `toFixed(1)` read back is a whole number of tenths within 0.05 of the value, with halves rounded away from zero |
| Dashboard.Round1Monotone | frontend/src/components/dashboard.jsx:64-70 | rounding to one decimal preserves order |
| Dashboard.AverageHours | frontend/src/components/dashboard.jsx:64-66 | the average card is 0 for no records, and otherwise the one-decimal rounding of the sum over the count |
| Dashboard.BestSleep | frontend/src/components/dashboard.jsx:68-70 | best sleep is 0 for no records; otherwise it is the rounded hours of some record and at least the rounded hours of every record |
| Dashboard.RoundedAtMost | frontend/src/components/dashboard.jsx:68-70 | hours bounded by m round to at most the rounding of m |
| Dashboard.Classify | frontend/src/components/dashboard.jsx:73-81 | exactly one verdict: good iff 7 <= avg <= 9, low iff avg < 7, high iff avg > 9 |
| Dashboard.Recommendation | frontend/src/components/dashboard.jsx:122-125 | the recommendation is shown iff there is a record, and it is the verdict on the rounded average |
| Dashboard.SumAtMost | frontend/src/components/dashboard.jsx:65 | a sum of hours each at most m is at most count times m |
| Dashboard.MeanAtMost | frontend/src/components/dashboard.jsx:64-70 | the mean of a non-empty list is at most any bound on its elements |
| Dashboard.AverageAtMostBest | frontend/src/components/dashboard.jsx:64-70 | for a non-empty list the mean is at most the maximum, and the average card never exceeds the best-sleep card |
| Dashboard.RoundedMeanDecides | frontend/src/components/dashboard.jsx:65-74 | a raw mean in [6.95, 7) shows as 7.0 and is judged good, though the raw value would be low |
| Daylight.DayLengthHours | frontend/src/components/weather.jsx:74 | the day length is under 10 hours iff it is under 36000 s, and over 14 hours iff it is over 50400 s |
| Daylight.Tips | frontend/src/components/weather.jsx:69-108 | no sun data gives no tips; otherwise the first tip is early sunrise iff the hour is at most 6, else late sunrise; the second is the sunset tip; a short-day tip appears iff the day is under 36000 s, a long-day tip iff it is over 50400 s, never both; there are 2 or 3 tips |

## Left out

- HTTP routing, Express middleware, CORS, the `/api/test` route, and the server start-up (backend/server.js:1-24, 238-246). The routes are modelled as functions from request data to answers.
- SQLite persistence and schema creation (backend/server.js:26-51). The tables are a map and a sequence, and `created_at` timestamps are not modelled.
- Every 500 answer: storage errors on insert, select, update and delete, and a failure of the password hasher. These depend on the database and the library, not on the logic.
- The foreign key from records to users. SQLite does not enforce it unless foreign keys are switched on, and the code does not switch them on.
- bcrypt hashing and comparison, and JWT signing and verification. They are foreign library calls, so they are parameters. `hashed` is the hasher's output for the submitted password, and the random salt lives inside it.
- Malformed clock strings. An unparsable time gives an invalid `Date` and a NaN duration on the server. The model's times are always valid hours and minutes.
- JavaScript truthiness of non-string body fields, such as a number or a boolean sent as `email`. A field is either absent, empty or a string.
- IEEE double arithmetic. Durations, means and rounding are exact reals. `toFixed(1)` is modelled on the exact mean, so a mean whose double lies on the other side of a .x5 boundary can round differently in the browser.
- Records.List: rows with equal dates come back in scan order. The query leaves that order unspecified, so the contract leaves it open too.
- The weather widget's geocoding and sunrise-sunset network calls, and `convertToLocalTime` with its `Date` and locale handling (frontend/src/components/weather.jsx:10-67). The local sunrise hour and the day length in seconds are inputs.
- Message text, icons, translation lookup, `{hours}`/`{time}` substitution and string formatting. Only the one-decimal rounding, which decides the dashboard verdict, is modelled.
- frontend/src/components/sleepform.jsx, frontend/src/components/login.jsx and frontend/src/App.jsx. They hold React state, form plumbing, local storage and route guards, with no decision logic.
- Style objects and JSX rendering.
- Advice.QualityColor, Advice.QualityEmoji: a quality text naming a property every JavaScript object inherits (`constructor`, `toString` and the like) makes `colors[quality]` and `emojis[quality]` (sleeplist.jsx:9, 19) return a function, not the fallback. The server stores such text unchecked (backend/server.js:141, 152-154). The model has no value for it, so neither contract covers it.
