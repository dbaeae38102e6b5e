/** The flight booking ledger as values: the `SpaceFlight` and `FlightBooking` tables of
    mysite/polls/models.py and the decisions `space_flights` (POST) and `book_flight` in
    mysite/polls/views.py make on them. */
module Flights {
  import opened Common

  type FlightNumber = string
  type UserId = nat

  datatype Flight = Flight(destination: string, launchDate: Date, seatsAvailable: int)

  /** A `FlightBooking` row; its `booking_date` is a clock reading and is not modelled. */
  datatype Booking = Booking(flightNumber: FlightNumber, user: UserId)

  /** The flights by their unique number, the numbers in insertion (primary-key) order, and the
      booking rows in insertion order. */
  datatype Ledger = Ledger(flights: map<FlightNumber, Flight>, order: seq<FlightNumber>, bookings: seq<Booking>)

  predicate Distinct<T(==)>(s: seq<T>)
  {
    forall i, j :: 0 <= i < j < |s| ==> s[i] != s[j]
  }

  /** The number of bookings of flight `f`. */
  function Count(bookings: seq<Booking>, f: FlightNumber): (n: nat)
    ensures n <= |bookings|
  {
    if bookings == [] then 0
    else Count(bookings[..|bookings| - 1], f) + (if bookings[|bookings| - 1].flightNumber == f then 1 else 0)
  }

  lemma CountAppend(bookings: seq<Booking>, b: Booking, f: FlightNumber)
    ensures Count(bookings + [b], f) == Count(bookings, f) + (if b.flightNumber == f then 1 else 0)
  {
    assert (bookings + [b])[..|bookings|] == bookings;
  }

  /** The ledger is well formed, and each flight's counter started at `initial`:
      - flight numbers are unique and `order` lists each of them once;
      - no (flight, user) pair is booked twice (`unique_together`);
      - every booking names an existing flight;
      - seats left plus bookings made is the starting seat count;
      - a flight that has been booked at all has no negative counter. */
  ghost predicate Invariant(l: Ledger, initial: map<FlightNumber, int>)
  {
    && Distinct(l.order)
    && (forall f :: f in l.flights <==> f in l.order)
    && l.flights.Keys == initial.Keys
    && Distinct(l.bookings)
    && (forall i :: 0 <= i < |l.bookings| ==> l.bookings[i].flightNumber in l.flights)
    && (forall f :: f in l.flights ==> l.flights[f].seatsAvailable + Count(l.bookings, f) == initial[f])
    && (forall f :: f in l.flights && Count(l.bookings, f) > 0 ==> l.flights[f].seatsAvailable >= 0)
  }

  /** A flight whose counter started non-negative never goes below zero, and never has more
      bookings than it started with seats. */
  lemma SeatsNeverNegative(l: Ledger, initial: map<FlightNumber, int>, f: FlightNumber)
    requires Invariant(l, initial) && f in l.flights && initial[f] >= 0
    ensures l.flights[f].seatsAvailable >= 0
    ensures Count(l.bookings, f) <= initial[f]
  {
  }

  // ---------------------------------------------------------------------------------------
  // Booking

  /** `MissingFlightNumber` is the `KeyError` of a request without `flight_number`. */
  datatype BookError = MissingFlightNumber | NotFound | NoSeatsAvailable | AlreadyBooked

  datatype BookStep = BookStep(outcome: Outcome<BookError>, after: Ledger)

  /** `book_flight` for user `u`: look the flight up, refuse when no seat is left, refuse a
      second booking by the same user, otherwise record the booking and take one seat. */
  function Book(l: Ledger, f: FlightNumber, u: UserId): (r: BookStep)
    ensures r.outcome.Fail? ==> r.after == l
    ensures r.outcome.Pass? <==> f in l.flights && l.flights[f].seatsAvailable > 0 && Booking(f, u) !in l.bookings
    ensures r.outcome == Fail(NotFound) <==> f !in l.flights
    ensures r.outcome == Fail(NoSeatsAvailable) <==> f in l.flights && l.flights[f].seatsAvailable <= 0
    ensures r.outcome == Fail(AlreadyBooked) <==>
              f in l.flights && l.flights[f].seatsAvailable > 0 && Booking(f, u) in l.bookings
    ensures r.outcome.Pass? ==>
              && f in l.flights
              && r.after.bookings == l.bookings + [Booking(f, u)]
              && r.after.order == l.order
              && r.after.flights.Keys == l.flights.Keys
              && r.after.flights[f].seatsAvailable == l.flights[f].seatsAvailable - 1
              && r.after.flights[f].destination == l.flights[f].destination
              && r.after.flights[f].launchDate == l.flights[f].launchDate
              && forall g :: g in l.flights && g != f ==> r.after.flights[g] == l.flights[g]
  {
    if f !in l.flights then BookStep(Fail(NotFound), l)
    else
      var flight := l.flights[f];
      if flight.seatsAvailable <= 0 then BookStep(Fail(NoSeatsAvailable), l)
      else if Booking(f, u) in l.bookings then BookStep(Fail(AlreadyBooked), l)
      else
        var booked := Ledger(l.flights[f := flight.(seatsAvailable := flight.seatsAvailable - 1)],
                             l.order, l.bookings + [Booking(f, u)]);
        BookStep(Pass, booked)
  }

  /** Booking keeps every part of the invariant. */
  lemma BookKeepsInvariant(l: Ledger, initial: map<FlightNumber, int>, f: FlightNumber, u: UserId)
    requires Invariant(l, initial)
    ensures Invariant(Book(l, f, u).after, initial)
  {
    var r := Book(l, f, u);
    if r.outcome.Pass? {
      var b := Booking(f, u);
      forall g | g in l.flights
        ensures Count(r.after.bookings, g) == Count(l.bookings, g) + (if g == f then 1 else 0)
      {
        CountAppend(l.bookings, b, g);
      }
      assert Distinct(r.after.bookings) by {
        forall i, j | 0 <= i < j < |r.after.bookings| ensures r.after.bookings[i] != r.after.bookings[j] {
          if j == |l.bookings| {
            assert r.after.bookings[i] == l.bookings[i];
          }
        }
      }
    }
  }

  datatype Request = Request(flightNumber: FlightNumber, user: UserId)

  datatype Run = Run(outcomes: seq<Outcome<BookError>>, final: Ledger)

  /** Serves booking requests one after another. */
  function RunRequests(l: Ledger, requests: seq<Request>): (r: Run)
    ensures |r.outcomes| == |requests|
    decreases |requests|
  {
    if requests == [] then Run([], l)
    else
      var step := Book(l, requests[0].flightNumber, requests[0].user);
      var rest := RunRequests(step.after, requests[1..]);
      Run([step.outcome] + rest.outcomes, rest.final)
  }

  /** The invariant holds after any sequence of booking requests. */
  lemma {:induction false} RunKeepsInvariant(l: Ledger, initial: map<FlightNumber, int>, requests: seq<Request>)
    requires Invariant(l, initial)
    ensures Invariant(RunRequests(l, requests).final, initial)
    decreases |requests|
  {
    if requests != [] {
      BookKeepsInvariant(l, initial, requests[0].flightNumber, requests[0].user);
      RunKeepsInvariant(Book(l, requests[0].flightNumber, requests[0].user).after, initial, requests[1..]);
    }
  }

  /** Over any sequence of booking requests, on any ledger, each flight's seats left plus its
      bookings is constant, and no flight appears or disappears. */
  lemma {:induction false} RunConservesSeats(l: Ledger, requests: seq<Request>, f: FlightNumber)
    requires f in l.flights
    ensures var final := RunRequests(l, requests).final;
              && final.flights.Keys == l.flights.Keys
              && final.flights[f].seatsAvailable + Count(final.bookings, f)
                 == l.flights[f].seatsAvailable + Count(l.bookings, f)
    decreases |requests|
  {
    if requests != [] {
      var step := Book(l, requests[0].flightNumber, requests[0].user);
      if step.outcome.Pass? {
        CountAppend(l.bookings, Booking(requests[0].flightNumber, requests[0].user), f);
      }
      RunConservesSeats(step.after, requests[1..], f);
    }
  }

  /** Requests by `users`, in order, all for flight `f`. */
  function SameFlight(f: FlightNumber, users: seq<UserId>): seq<Request>
  {
    seq(|users|, i requires 0 <= i < |users| => Request(f, users[i]))
  }

  function Min(a: int, b: int): int { if a <= b then a else b }

  /** N different users, none of whom holds a booking, try to book a flight with K >= 0 seats
      left: the first min(K, N) succeed, every later one is refused for lack of seats, the
      flight ends with K - min(K, N) seats and exactly min(K, N) new bookings. */
  lemma {:induction false} SeatsGoToFirstComers(l: Ledger, f: FlightNumber, users: seq<UserId>)
    requires f in l.flights && l.flights[f].seatsAvailable >= 0
    requires Distinct(users)
    requires forall u :: u in users ==> Booking(f, u) !in l.bookings
    ensures var run := RunRequests(l, SameFlight(f, users));
            var k := l.flights[f].seatsAvailable;
              && (forall i :: 0 <= i < |users| ==> run.outcomes[i] == if i < k then Pass else Fail(NoSeatsAvailable))
              && f in run.final.flights
              && run.final.flights[f].seatsAvailable == k - Min(k, |users|)
              && Count(run.final.bookings, f) == Count(l.bookings, f) + Min(k, |users|)
    decreases |users|
  {
    if users != [] {
      var step := Book(l, f, users[0]);
      FirstComerServed(l, f, users);
      SeatsGoToFirstComers(step.after, f, users[1..]);
      var k := l.flights[f].seatsAvailable;
      var tail := RunRequests(step.after, SameFlight(f, users[1..]));
      var run := RunRequests(l, SameFlight(f, users));
      SameFlightUnfolds(l, f, users);
      forall i | 0 <= i < |users| ensures run.outcomes[i] == if i < k then Pass else Fail(NoSeatsAvailable) {
        if i > 0 {
          assert run.outcomes[i] == tail.outcomes[i - 1];
        }
      }
    }
  }

  /** Serving requests for one flight is serving the first, then the rest. */
  lemma SameFlightUnfolds(l: Ledger, f: FlightNumber, users: seq<UserId>)
    requires users != []
    ensures var step := Book(l, f, users[0]);
            var tail := RunRequests(step.after, SameFlight(f, users[1..]));
              RunRequests(l, SameFlight(f, users)) == Run([step.outcome] + tail.outcomes, tail.final)
  {
    assert SameFlight(f, users)[1..] == SameFlight(f, users[1..]);
  }

  /** The first of the users in `SeatsGoToFirstComers` books when a seat is left and is
      refused otherwise, and the rest still meet that lemma's requirements afterwards. */
  lemma FirstComerServed(l: Ledger, f: FlightNumber, users: seq<UserId>)
    requires f in l.flights && l.flights[f].seatsAvailable >= 0
    requires Distinct(users) && users != []
    requires forall u :: u in users ==> Booking(f, u) !in l.bookings
    ensures var step := Book(l, f, users[0]);
            var k := l.flights[f].seatsAvailable;
              && step.outcome == (if k > 0 then Pass else Fail(NoSeatsAvailable))
              && f in step.after.flights
              && step.after.flights[f].seatsAvailable == (if k > 0 then k - 1 else k)
              && Count(step.after.bookings, f) == Count(l.bookings, f) + (if k > 0 then 1 else 0)
              && Distinct(users[1..])
              && forall v :: v in users[1..] ==> Booking(f, v) !in step.after.bookings
  {
    var u := users[0];
    var step := Book(l, f, u);
    assert Distinct(users[1..]) by {
      forall i, j | 0 <= i < j < |users[1..]| ensures users[1..][i] != users[1..][j] {
        assert users[1..][i] == users[i + 1] && users[1..][j] == users[j + 1];
      }
    }
    if l.flights[f].seatsAvailable > 0 {
      CountAppend(l.bookings, Booking(f, u), f);
      forall v | v in users[1..] ensures Booking(f, v) !in step.after.bookings {
        var j :| 0 <= j < |users[1..]| && users[1..][j] == v;
        assert users[j + 1] == v;
        assert v != u;
      }
    }
  }

  /** The same user asks for the same flight twice: the first request books, the second is
      refused (for the duplicate, or for lack of seats if the first took the last one), and the
      seat counter moves exactly once. */
  lemma SecondBookingBySameUserRefused(l: Ledger, f: FlightNumber, u: UserId)
    requires Book(l, f, u).outcome.Pass?
    ensures var run := RunRequests(l, [Request(f, u), Request(f, u)]);
              && run.outcomes[1] == (if l.flights[f].seatsAvailable >= 2 then Fail(AlreadyBooked) else Fail(NoSeatsAvailable))
              && run.final == Book(l, f, u).after
              && run.final.flights[f].seatsAvailable == l.flights[f].seatsAvailable - 1
  {
    var first := Book(l, f, u);
    assert [Request(f, u), Request(f, u)][1..] == [Request(f, u)];
    assert Booking(f, u) in first.after.bookings by {
      assert first.after.bookings[|l.bookings|] == Booking(f, u);
    }
    var second := Book(first.after, f, u);
    assert second.after == first.after;
    assert RunRequests(first.after, [Request(f, u)]) == Run([second.outcome], first.after) by {
      assert [Request(f, u)][1..] == [];
    }
  }

  // ---------------------------------------------------------------------------------------
  // Creating and listing flights

  datatype FlightField = FlightNumberField | DestinationField | LaunchDateField | SeatsField

  /** The request's fields; `None` is a missing key or a value that does not parse (a date not
      in `YYYY-MM-DD` form, a seat count `int()` refuses). A seat count `int()` accepts, such
      as a fractional number it truncates, is given here as the resulting integer. */
  datatype FlightInput = FlightInput(flightNumber: Option<FlightNumber>, destination: Option<string>,
                                     launchDate: Option<Date>, seatsAvailable: Option<int>)

  datatype CreateFlightError = MissingOrInvalid(field: FlightField) | DuplicateFlightNumber

  /** `space_flights` POST: the fields are read in order and the first bad one is reported;
      a complete request whose number is taken is refused by the unique index; otherwise the
      flight is appended with the given seat count (any integer: the code checks neither its
      sign nor the date). */
  function AddFlight(l: Ledger, input: FlightInput): (r: Result<Ledger, CreateFlightError>)
    ensures r == Err(MissingOrInvalid(FlightNumberField)) <==> input.flightNumber.None?
    ensures r == Err(MissingOrInvalid(DestinationField)) <==> input.flightNumber.Some? && input.destination.None?
    ensures r == Err(MissingOrInvalid(LaunchDateField)) <==>
              input.flightNumber.Some? && input.destination.Some? && input.launchDate.None?
    ensures r == Err(MissingOrInvalid(SeatsField)) <==>
              input.flightNumber.Some? && input.destination.Some? && input.launchDate.Some? && input.seatsAvailable.None?
    ensures r == Err(DuplicateFlightNumber) <==>
              && input.flightNumber.Some? && input.destination.Some? && input.launchDate.Some? && input.seatsAvailable.Some?
              && input.flightNumber.value in l.flights
    ensures r.Ok? ==>
              var n := input.flightNumber.value;
              && n !in l.flights
              && r.value.flights == l.flights[n := Flight(input.destination.value, input.launchDate.value, input.seatsAvailable.value)]
              && r.value.order == l.order + [n]
              && r.value.bookings == l.bookings
  {
    match input
    case FlightInput(None, _, _, _) => Err(MissingOrInvalid(FlightNumberField))
    case FlightInput(_, None, _, _) => Err(MissingOrInvalid(DestinationField))
    case FlightInput(_, _, None, _) => Err(MissingOrInvalid(LaunchDateField))
    case FlightInput(_, _, _, None) => Err(MissingOrInvalid(SeatsField))
    case FlightInput(Some(n), Some(destination), Some(date), Some(seats)) =>
      if n in l.flights then Err(DuplicateFlightNumber)
      else Ok(Ledger(l.flights[n := Flight(destination, date, seats)], l.order + [n], l.bookings))
  }

  /** Adding a flight keeps the invariant, with the new flight's counter starting at the given
      seat count; a refused request leaves the ledger as it was. */
  lemma AddFlightKeepsInvariant(l: Ledger, initial: map<FlightNumber, int>, input: FlightInput)
    requires Invariant(l, initial)
    requires AddFlight(l, input).Ok?
    ensures Invariant(AddFlight(l, input).value, initial[input.flightNumber.value := input.seatsAvailable.value])
  {
    var n := input.flightNumber.value;
    var l' := AddFlight(l, input).value;
    assert Distinct(l'.order) by {
      forall i, j | 0 <= i < j < |l'.order| ensures l'.order[i] != l'.order[j] {
        if j == |l.order| {
          assert l'.order[i] == l.order[i] && l.order[i] in l.flights;
        }
      }
    }
    forall f | f in l'.order ensures f in l'.flights {
      if f != n {
        var i :| 0 <= i < |l'.order| && l'.order[i] == f;
        assert i < |l.order| && l.order[i] == f;
      }
    }
    assert Count(l.bookings, n) == 0 by {
      CountIsZero(l.bookings, n);
    }
  }

  /** No booking names a flight that is not in the ledger. */
  lemma {:induction false} CountIsZero(bookings: seq<Booking>, f: FlightNumber)
    requires forall i :: 0 <= i < |bookings| ==> bookings[i].flightNumber != f
    ensures Count(bookings, f) == 0
    decreases |bookings|
  {
    if bookings != [] {
      CountIsZero(bookings[..|bookings| - 1], f);
    }
  }

  /** One entry of the `space_flights` GET response. */
  datatype FlightRow = FlightRow(flightNumber: FlightNumber, destination: string, launchDate: Date, seatsAvailable: int)

  /** `space_flights` GET: every flight, in primary-key order. */
  function ListFlights(l: Ledger): (rows: seq<FlightRow>)
    requires forall f :: f in l.order ==> f in l.flights
    ensures |rows| == |l.order|
    ensures forall f :: f in l.order <==> exists i :: 0 <= i < |rows| && rows[i].flightNumber == f
    ensures Distinct(l.order) ==> forall i, j :: 0 <= i < j < |rows| ==> rows[i].flightNumber != rows[j].flightNumber
    ensures forall i :: 0 <= i < |rows| ==>
              var n := l.order[i];
              rows[i] == FlightRow(n, l.flights[n].destination, l.flights[n].launchDate, l.flights[n].seatsAvailable)
  {
    var rows := seq(|l.order|, i requires 0 <= i < |l.order| =>
      var n := l.order[i];
      FlightRow(n, l.flights[n].destination, l.flights[n].launchDate, l.flights[n].seatsAvailable));
    assert forall i :: 0 <= i < |l.order| ==> rows[i].flightNumber == l.order[i];
    rows
  }

  /** Under the invariant the listing shows every flight of the ledger, each exactly once,
      with that flight's own destination, date and seats. */
  lemma ListingShowsEachFlightOnce(l: Ledger, initial: map<FlightNumber, int>)
    requires Invariant(l, initial)
    ensures var rows := ListFlights(l);
              && (forall f :: f in l.flights <==> exists i :: 0 <= i < |rows| && rows[i].flightNumber == f)
              && (forall i, j :: 0 <= i < j < |rows| ==> rows[i].flightNumber != rows[j].flightNumber)
              && (forall i :: 0 <= i < |rows| ==>
                    var f := rows[i].flightNumber;
                    && f in l.flights
                    && rows[i] == FlightRow(f, l.flights[f].destination, l.flights[f].launchDate, l.flights[f].seatsAvailable))
  {
  }

  /** After a successful booking the listing differs from the one before in exactly one place:
      the booked flight shows one seat fewer. */
  lemma ListingAfterBooking(l: Ledger, initial: map<FlightNumber, int>, f: FlightNumber, u: UserId)
    requires Invariant(l, initial)
    requires Book(l, f, u).outcome.Pass?
    ensures var before := ListFlights(l);
            var after := ListFlights(Book(l, f, u).after);
              && |after| == |before|
              && forall i :: 0 <= i < |before| ==>
                   after[i] == if before[i].flightNumber == f
                               then before[i].(seatsAvailable := before[i].seatsAvailable - 1)
                               else before[i]
  {
  }
}
