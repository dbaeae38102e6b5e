/** The flight ledger as the handlers `space_flights` and `book_flight` of
    mysite/polls/views.py update it: one object whose tables the methods change in place. */
module FlightDesk {
  import opened Common
  import opened Flights

  class SpaceFlights {
    var flights: map<FlightNumber, Flight>
    var order: seq<FlightNumber>
    var bookings: seq<Booking>
    /** Each flight's seat count when it was created. */
    ghost var initialSeats: map<FlightNumber, int>

    function State(): Ledger
      reads this
    {
      Ledger(flights, order, bookings)
    }

    ghost predicate Valid()
      reads this
    {
      Invariant(State(), initialSeats)
    }

    constructor ()
      ensures Valid() && State() == Ledger(map[], [], [])
    {
      flights, order, bookings := map[], [], [];
      initialSeats := map[];
    }

    /** `space_flights` POST. A refused request changes nothing; an existing flight with the
        same number keeps its seat count. */
    method CreateFlight(input: FlightInput) returns (r: Outcome<CreateFlightError>)
      requires Valid()
      modifies this
      ensures Valid()
      ensures var added := AddFlight(old(State()), input);
                && (added.Ok? ==> r == Pass && State() == added.value
                                   && initialSeats == old(initialSeats)[input.flightNumber.value := input.seatsAvailable.value])
                && (added.Err? ==> r == Fail(added.error) && State() == old(State()) && initialSeats == old(initialSeats))
    {
      if input.flightNumber.None? { return Fail(MissingOrInvalid(FlightNumberField)); }
      if input.destination.None? { return Fail(MissingOrInvalid(DestinationField)); }
      if input.launchDate.None? { return Fail(MissingOrInvalid(LaunchDateField)); }
      if input.seatsAvailable.None? { return Fail(MissingOrInvalid(SeatsField)); }
      var n := input.flightNumber.value;
      if n in flights { return Fail(DuplicateFlightNumber); }
      AddFlightKeepsInvariant(State(), initialSeats, input);
      flights := flights[n := Flight(input.destination.value, input.launchDate.value, input.seatsAvailable.value)];
      order := order + [n];
      initialSeats := initialSeats[n := input.seatsAvailable.value];
      return Pass;
    }

    /** `book_flight` for the authenticated `user`: the look-up, the seat check and the
        duplicate check in that order, then the booking row is inserted and the counter
        decremented. */
    method BookFlight(flightNumber: Option<FlightNumber>, user: UserId) returns (outcome: Outcome<BookError>)
      requires Valid()
      modifies this
      ensures Valid() && initialSeats == old(initialSeats)
      ensures flightNumber.None? ==> outcome == Fail(MissingFlightNumber) && State() == old(State())
      ensures flightNumber.Some? ==>
                var step := Book(old(State()), flightNumber.value, user);
                outcome == step.outcome && State() == step.after
    {
      if flightNumber.None? {
        return Fail(MissingFlightNumber);
      }
      var f := flightNumber.value;
      if f !in flights {
        return Fail(NotFound);
      }
      var flight := flights[f];
      if flight.seatsAvailable <= 0 {
        return Fail(NoSeatsAvailable);
      }
      if Booking(f, user) in bookings {
        return Fail(AlreadyBooked);
      }
      ghost var before := State();
      BookKeepsInvariant(before, initialSeats, f, user);
      bookings := bookings + [Booking(f, user)];
      flights := flights[f := flight.(seatsAvailable := flight.seatsAvailable - 1)];
      assert State() == Book(before, f, user).after;
      return Pass;
    }
  }
}
