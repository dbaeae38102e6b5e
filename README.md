# Lunar missions, space flights and accounts: a Dafny model

This project models the request logic of a Django "polls" application that keeps three kinds of records:

- lunar missions, each a composite of two sites with coordinates and dates, a spacecraft and its crew;
- a flight booking ledger, with a finite seat count per flight;
- user accounts, with their validation rules.

The HTTP wrapping is left aside. Each handler becomes an operation on an in-memory store. Properties of those operations are proved with Dafny.

Modules:

- `Common`: `Option`, `Outcome`, `Result` and calendar `Date`.
- `Text`: ASCII case folding and substring search. This is the `name__icontains` filter of the mission search.
- `Accounts`:
  - the password rule `User.validate_password`;
  - the capital-initial rule `User.clean`;
  - the display name `full_name`;
  - `User.set_password`, in a `User` class;
  - the guards of `UserManager.create_user`, in a `UserManager` class holding the saved users.
- `Registration`: the `registration` handler, with its loop over the required fields.
- `Watermark`: the message length rule of `WatermarkedImage.clean`, and the checks of `lunar_watermark`.
- `Flights`: the ledger as a value. It holds booking, flight creation and listing. It also holds the conservation invariant and lemmas over whole sequences of bookings.
- `FlightDesk`: the class `SpaceFlights`, whose methods change the ledger in place. Each method is proved against `Flights`.
- `Missions`: the mission aggregate as a value. It defines the writes that a mission's create and update make, and proves what they leave behind.
- `MissionDesk`: the class `MissionStore`, with create, list, update, delete and search. It writes one row at a time, as the handlers do, and each method is proved against `Missions`.
- `Handlers`: how a failed lookup is answered. See `## Findings`.

Choices the model makes:

- **Mission shape.** Two source files describe the mission differently:
  - mysite/polls/models.py puts `launch_date`, `launch_site`, `landing_date` and `landing_site` directly on `LunarMission`;
  - mysite/polls/views.py reads and writes them through separate `launch_details` and `landing_details` rows, created after the mission row.

  The model follows views.py. A `Mission` is one record with a name, a spacecraft and two optional parts (`launch`, `landing`). Each part is a date and a site. A part is absent only when a create request failed after the mission row was written.
- **No transactions.** Neither create nor update runs in a transaction. A request that fails part-way keeps what it already wrote. The model reproduces this:
  - `CreateEffectOf`, `PatchEffectOf` and the store methods stop at the first missing field. They keep what the earlier steps wrote.
  - The store keeps the rows that no mission reaches in `orphans`. These are rows left by a failed create, and the spacecraft and sites of a deleted mission. Deleting a mission removes only the rows that point at it.
- **Requests.** A request is given leaf by leaf as `Option` values. `None` stands for three cases: a missing key, a missing enclosing object, or a value that does not parse (a date not in `YYYY-MM-DD` form, a non-numeric coordinate). Python evaluates the right-hand side of an assignment before its target. So on update, a missing value is reported before a missing launch or landing part.
- **Values.** Coordinates are integers in units of 10^-7 degree, because the columns hold seven decimal places. Dates are `Date` values. A stored password is `Hashed(raw)`, standing for `make_password(raw)`.
- **Outside inputs.** I/O and foreign calls are parameters of the model:
  - `parseDate` in `Registration.Register` stands for `datetime.strptime`;
  - the booking user is a number, standing for the authenticated `request.user`;
  - `hasImage` stands for the uploaded file.

Where the source and the behaviour its documentation describes disagree, the model follows the code, with one exception:

- create and update are not atomic;
- a mission is addressed by its numeric id, not by its name;
- deleting a mission does not delete its spacecraft, crew or sites;
- `space_flights` checks neither past launch dates nor negative seat counts;
- `search` matches mission names only, not crew names.

The exception: as written, an unknown mission id or flight number is answered 422, not 404. This is a defect (see `## Findings`). `Handlers.MissingRowAnsweredAsValidationError` models the code as written. The replies `Handlers.DetailReply` and `Handlers.BookReply` use the intended dispatch and answer 404.

## Model

| member | source | states |
|---|---|---|
| Text.ContainsIff | mysite/polls/views.py:525 | the scan used for `icontains` succeeds exactly when the query occurs at some position of the name |
| Text.ContainsIgnoringCaseRespectsFolding | mysite/polls/views.py:525 | lower-casing the query or the name never changes whether a mission matches |
| Text.CaseNeverChangesTheMatch | mysite/polls/views.py:525 | changing the case of any ASCII letters, in the query and in the name, never changes whether a mission matches |
| Text.ContainsEmpty | mysite/polls/views.py:520-525 | the empty query occurs in every name, which is why the handler answers it separately |
| Accounts.Search | mysite/polls/models.py:92-96 | `re.search` with a one-class pattern finds a match exactly when some character of the password is in that class |
| Accounts.ValidatePassword | mysite/polls/models.py:84-98 | a password is accepted iff it is given, has at least 3 characters and holds a small letter, a capital and a digit |
| Accounts.ThreeClassesNeedThreeCharacters | mysite/polls/models.py:90-97 | any string holding a small letter, a capital and a digit has at least 3 characters |
| Accounts.LengthCheckIsImplied | mysite/polls/models.py:88-97 | the emptiness and length tests never decide: a string is accepted iff the three searches succeed |
| Accounts.CleanNames | mysite/polls/models.py:53-60 | passes iff all three names start with a capital; on failure it names a field whose name does not, reports an empty name as such, and every field checked earlier was fine |
| Accounts.FullNameSplitsBack | mysite/polls/models.py:50-51 | the display name of three space-free names splits at its single spaces back into surname, given name and patronymic |
| Accounts.User.constructor | mysite/polls/models.py:19 | a new user holds the given fields and no password yet |
| Accounts.User.SetPassword | mysite/polls/models.py:62-71 | `None` makes the password unusable; a refused password fails and leaves the stored one unchanged; an accepted one is stored hashed |
| Accounts.UserManager.constructor | mysite/polls/models.py:9 | the user table starts empty, with unique emails |
| Accounts.UserManager.CreateUser | mysite/polls/models.py:10-23 | an empty email, then a refused password, and then an email already taken each fail with nothing saved; otherwise exactly one new user with the hashed password is appended and emails stay unique |
| Registration.BlankFields | mysite/polls/views.py:32-35 | a field is reported iff it is required and is missing or empty in the request |
| Registration.BlankFieldErrors | mysite/polls/views.py:30-35 | the loop yields one error per blank required field, in order, with the message `field <name> can not be blank` |
| Registration.NoBlankFieldsIff | mysite/polls/views.py:32-44 | no error is reported exactly when all six required fields are given |
| Registration.Register | mysite/polls/views.py:26-104 | the checks run in the source's order, each with its own answer and nothing saved: blank fields give one entry per blank required field, in order, with its message; then a taken email, a refused password, a bad date; otherwise the user is saved, and the answer is the display name and email, or the `clean` error when a name lacks its capital (the user stays saved) |
| Watermark.CleanMessage | mysite/polls/models.py:182-184 | a message is accepted iff it has 10 to 20 characters |
| Watermark.CheckRequest | mysite/polls/views.py:357-378 | a request without an image is refused for the image; a request is accepted iff it has an image and a message of 10 to 20 characters (a missing message counts as empty) |
| Watermark.HandlerAgreesWithModel | mysite/polls/views.py:368-369 | with an image attached, the handler's guard accepts exactly the messages `WatermarkedImage.clean` accepts |
| Flights.SeatsNeverNegative | mysite/polls/views.py:459-490 | under the ledger invariant, a flight whose seats started non-negative has non-negative seats and never more bookings than its starting seats |
| Flights.Book | mysite/polls/views.py:457-490 | unknown flight, no seat left, and repeat booking by the same user are each refused (iff their condition holds, in that order) with the ledger unchanged; the booking succeeds exactly when none of them applies, and a success appends exactly that booking and takes exactly one seat of that flight, leaving every other flight and the order as they were |
| Flights.BookKeepsInvariant | mysite/polls/models.py:169-170 | booking preserves the invariant: unique flight numbers, one booking per (flight, user), bookings name existing flights, seats plus bookings equals the starting seats |
| Flights.RunKeepsInvariant | mysite/polls/views.py:457-490 | the invariant holds after any sequence of booking requests |
| Flights.RunConservesSeats | mysite/polls/views.py:483-490 | over any sequence of booking requests and on any ledger, seats left plus bookings of each flight is constant and no flight appears or disappears |
| Flights.SeatsGoToFirstComers | mysite/polls/views.py:459-468 | N different unbooked users asking for a flight with K >= 0 seats: the first min(K, N) succeed, the rest are refused for lack of seats, and exactly min(K, N) seats are taken |
| Flights.SecondBookingBySameUserRefused | mysite/polls/views.py:471-480 | a second identical request is refused (as a duplicate, or for lack of seats if the first took the last one) and the ledger is as after the first |
| Flights.AddFlight | mysite/polls/views.py:429-450 | the first missing or unparsable field in the order number, destination, date, seats is reported; a complete request with a taken number is refused; otherwise exactly that flight is added at the end, bookings untouched |
| Flights.AddFlightKeepsInvariant | mysite/polls/models.py:155 | adding a flight preserves the invariant, with the new flight's starting seats set to its given count |
| Flights.ListFlights | mysite/polls/views.py:413-425 | a flight number is listed exactly when it is in the creation order, no number twice when the order repeats none, and each row shows that flight's destination, date and seats |
| Flights.ListingShowsEachFlightOnce | mysite/polls/views.py:413-425 | on a well-formed ledger every flight is listed, exactly once, and nothing else is, each row with that flight's own data |
| Flights.ListingAfterBooking | mysite/polls/views.py:413-490 | after a successful booking the listing differs only in the booked flight's row, by one seat |
| FlightDesk.SpaceFlights.constructor | mysite/polls/models.py:154-170 | the ledger starts empty and satisfies its invariant |
| FlightDesk.SpaceFlights.CreateFlight | mysite/polls/views.py:427-450 | the new state is `AddFlight` of the old one, or unchanged with its error; the invariant is kept |
| FlightDesk.SpaceFlights.BookFlight | mysite/polls/views.py:455-510 | a request without a flight number fails with nothing changed; otherwise outcome and new state are `Book` of the old state; the invariant is kept |
| Missions.CrewPrefix | mysite/polls/views.py:227-232 | the crew loop creates one member per entry, in order, up to the first entry lacking its name or role |
| Missions.CrewPrefixOfDescribedCrew | mysite/polls/views.py:227-232 | reading back the entries that describe a crew gives that crew |
| Missions.CreateSucceedsIff | mysite/polls/views.py:193-270 | a create request succeeds exactly when every leaf of the request is present |
| Missions.CreateStoresTheRequest | mysite/polls/views.py:197-252 | a successful create leaves no loose rows and stores one complete mission whose description is exactly the request, crew in order |
| Missions.CreateFromDescription | mysite/polls/views.py:197-252 | creating from a complete mission's own description stores that mission and nothing else |
| Missions.CreateKeepsEarlierWrites | mysite/polls/views.py:193-270 | a failed create with launch coordinates leaves rows behind; a mission row is written iff every field up to the name is present; it then lacks a part exactly when a date was missing |
| Missions.PatchKeepsParts | mysite/polls/views.py:286-326 | an update never attaches or removes a launch or landing part |
| Missions.PatchSucceedsIff | mysite/polls/views.py:286-326 | an update succeeds exactly when every leaf is present and the mission has both parts |
| Missions.PatchReplacesEverything | mysite/polls/views.py:286-326 | after a successful update the mission is the one a create with the same request stores; its description is exactly the request and its crew exactly the new entries, in order, the old ones removed |
| Missions.PatchIdempotent | mysite/polls/views.py:286-326 | repeating a successful update changes nothing further |
| Missions.PatchKeepsEarlierSaves | mysite/polls/views.py:323-326 | an update lacking only the name fails after all other saves were made, leaving the mission as if the old name had been sent |
| Missions.PatchWithoutCrewListLeavesNoCrew | mysite/polls/views.py:315-317 | an update lacking the crew list fails after the crew was emptied, and the mission keeps no crew |
| Missions.Without | mysite/polls/views.py:279-281 | removing an id keeps every other id, in order, and drops that one |
| Missions.Matching | mysite/polls/views.py:525 | an id is selected iff it is among the given ones and its mission's name contains the query ignoring case; store order is kept |
| Missions.IncreasingDeterminedByElements | mysite/polls/views.py:525-542 | two increasing id sequences with the same members are equal |
| Missions.MatchingIsTheOrderedMatches | mysite/polls/views.py:525-542 | the selection is the only increasing sequence holding exactly the matching missions |
| MissionDesk.AppendKeepsIncreasing | mysite/polls/views.py:235-238 | a new mission's id, above all stored ones, keeps the store order increasing |
| MissionDesk.MissionStore.constructor | mysite/polls/models.py:142-151 | the store starts empty and valid |
| MissionDesk.MissionStore.Create | mysite/polls/views.py:191-270 | the store changes exactly as `CreateEffectOf` says: loose rows appended to the orphans, the mission row (if reached) stored under the next id, and the result reports the missing field or the new id |
| MissionDesk.MissionStore.WriteSites | mysite/polls/views.py:197-219 | the steps up to both sites change the store as `CreateEffectOf` says |
| MissionDesk.MissionStore.WriteSpacecraft | mysite/polls/views.py:221-232 | the spacecraft and crew steps change the store as `CreateFromSpacecraft` says |
| MissionDesk.MissionStore.WriteMission | mysite/polls/views.py:234-252 | the mission row and its parts change the store as `CreateFromMission` says |
| MissionDesk.MissionStore.List | mysite/polls/views.py:148-190 | succeeds iff every mission has both parts, then lists each mission's view in store order; otherwise reports the first mission, in store order, lacking a part |
| MissionDesk.MissionStore.Patch | mysite/polls/views.py:275-341 | an unknown id is answered `NotFound` with nothing changed; otherwise only that mission changes, exactly as `PatchEffectOf` says, and the result reports the failure |
| MissionDesk.MissionStore.SaveLaunchSite | mysite/polls/views.py:286-293 | the launch site saves change the mission as `PatchEffectOf` says |
| MissionDesk.MissionStore.SaveLandingSite | mysite/polls/views.py:295-302 | the landing site saves change the mission as `PatchFromLanding` says |
| MissionDesk.MissionStore.SaveDates | mysite/polls/views.py:304-308 | the date saves change the mission as `PatchFromDates` says |
| MissionDesk.MissionStore.SaveModules | mysite/polls/views.py:310-313 | the module save changes the mission as `PatchFromModules` says |
| MissionDesk.MissionStore.SaveCrew | mysite/polls/views.py:315-326 | emptying, refilling the crew and renaming change the mission as `PatchFromCrew` says |
| MissionDesk.MissionStore.Delete | mysite/polls/views.py:277-281 | an unknown id is answered `NotFound` with nothing changed; otherwise exactly that mission is removed, the others are untouched, and its spacecraft and sites are kept as orphans |
| MissionDesk.MissionStore.Search | mysite/polls/views.py:518-546 | an absent or empty query gives no result; otherwise the items of the matching missions in store order, or the first matching mission lacking a part |
| Handlers.GetObjectOr404 | mysite/polls/views.py:277 | the lookup yields the row if there is one, and otherwise raises `Http404` |
| Handlers.MissingRowAnsweredAsValidationError | mysite/polls/views.py:335-350 | as written, a lookup that finds nothing is answered 422, never 404 |
| Handlers.MissingRowAnsweredNotFound | mysite/polls/views.py:499-503 | with the intended dispatch, a lookup is answered 404 exactly when it finds nothing, and the dispatches agree on every other exception |
| Handlers.DetailReply | mysite/polls/views.py:335-350 | with the intended dispatch (see `## Findings`), a mission update or deletion is answered 404 exactly when the id is unknown, and 422 for every failure part-way |
| Handlers.BookReply | mysite/polls/views.py:499-510 | with the intended dispatch (see `## Findings`), a booking is answered 404 exactly when the flight number is unknown, and 422 for a missing key and both refusals |

## Left out

- Accounts.ValidatePassword: `\d` on a Python `str` also matches non-ASCII decimal digits (Arabic-Indic and others). The model accepts only `0`..`9`, so it refuses some passwords the source accepts.
- Accounts.IsCapital: `str.isupper` is modelled for the Latin capitals `A`..`Z` and the Cyrillic capitals U+0400..U+042F. Other scripts' capitals are not recognised.
- Accounts.UserManager.CreateUser: `normalize_email` is treated as the identity. It lower-cases the domain, so two emails differing only in the case of the domain are distinct in the model.
- Password hashing (`make_password`, `check_password`) is symbolic: `Hashed(raw)` records the raw password. `User.check_password` and its rehash-on-login setter are not modelled.
- `UserManager.create_superuser` only sets two flags and calls `create_user`; staff and superuser flags are not modelled.
- `authorization`: `authenticate()` and the JWT token pair are foreign calls and are not modelled.
- Registration.Register: `datetime.strptime` is the parameter `parseDate`. Its result is used by `create_user` only.
- The length limits of the text columns (`max_length`) are not enforced on SQLite and are not modelled.
- Missions.CreateEffectOf and Missions.PatchEffectOf: a coordinate leaf is the request's value already rounded to 7 decimal places, as `DecimalField(max_digits=10, decimal_places=7)` stores it (mysite/polls/models.py:102-103). So `Missions.CreateStoresTheRequest` and `Missions.PatchReplacesEverything` speak of the rounded request. A coordinate of magnitude 1000 or more needs 11 digits. The source fails on it (on save in Django up to 4.2, and on every read-back on SQLite, so `lunar_missions` GET answers a server error). The model stores and lists any integer.
- Watermark: opening, drawing on and saving the image (PIL) and storing the upload are not modelled; `hasImage` stands for the uploaded file.
- Flights: `booking_date` is a clock reading and is not modelled.
- FlightDesk.SpaceFlights.BookFlight: requests are served one at a time. The check and decrement in `book_flight` are an unlocked read-modify-write, so concurrent requests can oversell. The model does not capture this race.
- Missions.CreateEffectOf and Missions.PatchEffectOf: a coordinate that does not parse is a `None` leaf, reported when it is read. The source parses a `DecimalField` only when the row is saved (mysite/polls/views.py:197-200, 289, 298). By then the next key has been read and, on update, the part has been looked up. A request with an unparsable latitude and a missing longitude or part therefore fails at the later step in the source. The store ends the same. Only the reported `Field` or `PatchFailure` differs.
- Flights.AddFlight: the seat count is whatever `int()` gives. `IntegerField` truncates a fractional number such as 5.7 to 5 instead of refusing it. `None` stands only for a value `int()` refuses.
- Missions: a request that does not parse as JSON, or a crew list that is not a list, is outside the model. Values of the wrong shape are `None` leaves.
- MissionDesk.MissionStore.List and MissionDesk.MissionStore.Search: the order of `LunarMission.objects.all()` (mysite/polls/views.py:151) and of `LunarMission.objects.filter(name__icontains=query)` (mysite/polls/views.py:525) is the creation order of the ids, which is what the source's database gives without an explicit ordering.
- Flights.ListFlights, MissionDesk.MissionStore.List and MissionDesk.MissionStore.Search: `SpaceFlight.objects.all()` (mysite/polls/views.py:414) and `mission.spacecraft.crew.all()` (mysite/polls/views.py:184, 538) have no `order_by` either. The model lists flights and crew members in insertion order. A database may return another order.
- MissionDesk.MissionStore.List and Search: a mission lacking a part makes the handler raise outside its `try`, which the framework answers with a server error. The model reports that mission's id.
- Text.ContainsIgnoringCase: `icontains` on SQLite folds only ASCII letters, which is what the model does. Other databases fold more.
- MissionDesk.MissionStore.Delete: the crew members of a deleted mission's spacecraft stay with that spacecraft in `orphans`. Their many-to-many links are not modelled separately.
- HTTP status codes and JSON bodies are reduced to the outcome kind. `Handlers` picks the 404 or 422 answer.
- mysite/polls/authentication.py, mysite/polls/urls.py and mysite/polls/admin.py hold no logic of their own and are not part of this model.

## Findings

| source | as written | input that shows it | evidently intended | confidence | as-written member | corrected member |
|---|---|---|---|---|---|---|
| mysite/polls/views.py:277, 335-339, 457, 499-503 | `get_object_or_404` raises `Http404`, which does not derive from `LunarMission.DoesNotExist` or `SpaceFlight.DoesNotExist`; the `except Exception` clause catches it and answers 422 "Validation error" | PATCH or DELETE `lunar-missions/999` with no mission 999; `book_flight` with an unknown `flight_number` | a missing mission or flight is answered 404 "Not found" | not executed | Handlers.MissingRowAnsweredAsValidationError | Handlers.MissingRowAnsweredNotFound |
