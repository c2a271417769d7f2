/** The ticket booking core of bookMyShow.js: cinemas and their screens, shows
    with their map from seat to booking, bookings with their status, and the
    services that create, confirm and cancel bookings and list shows. Ids that
    the source draws at random, and the payment's transaction id, are
    parameters. */
module Tickets {
  import opened Common

  type UserId = string
  type ShowId = string
  type SeatId = string
  type BookingId = string
  type CinemaId = string

  datatype BookingStatus = Pending | Confirmed | Cancelled
  datatype PaymentStatus = PaymentPending | Completed | Failed

  datatype Payment = Payment(id: string, bookingId: BookingId, amount: int, paymentMethod: string,
                             status: PaymentStatus, transactionId: Option<string>)

  datatype Screen = Screen(id: string, name: string, totalSeats: int, cinemaId: CinemaId)

  /** The fixed price of one seat. */
  const SeatPrice := 10

  /** Payment.processPayment: the payment completes with the gateway's transaction id. */
  function ProcessPayment(p: Payment, transactionId: string): (r: Payment)
    ensures r.status == Completed && r.transactionId == Some(transactionId)
    ensures r.(status := p.status, transactionId := p.transactionId) == p
  {
    p.(status := Completed, transactionId := Some(transactionId))
  }

  // ---------------------------------------------------------------------
  // Seat maps

  /** Marking the requested seats one by one, each only if it is still free. */
  function Reserve(booked: map<SeatId, BookingId>, seats: seq<SeatId>, bookingId: BookingId): map<SeatId, BookingId> {
    if seats == [] then booked
    else
      var before := Reserve(booked, seats[..|seats| - 1], bookingId);
      var seat := seats[|seats| - 1];
      if seat in before then before else before[seat := bookingId]
  }

  /** The first requested seat that is already booked. */
  function FirstTaken(seats: seq<SeatId>, booked: map<SeatId, BookingId>): (r: Option<SeatId>)
    ensures r.None? <==> forall i | 0 <= i < |seats| :: seats[i] !in booked
    ensures r.Some? ==> exists i | 0 <= i < |seats| :: seats[i] == r.value && seats[i] in booked &&
                          forall j | 0 <= j < i :: seats[j] !in booked
    decreases |seats|
  {
    if seats == [] then None
    else if seats[0] in booked then Some(seats[0])
    else
      var rest := FirstTaken(seats[1..], booked);
      assert forall i | 1 <= i < |seats| :: seats[i] == seats[1..][i - 1];
      if rest.Some? then
        var i :| 0 <= i < |seats[1..]| && seats[1..][i] == rest.value && seats[1..][i] in booked &&
                 forall j | 0 <= j < i :: seats[1..][j] !in booked;
        assert seats[i + 1] == rest.value;
        rest
      else rest
  }

  /** BookingService.cancelBooking as written: every seat of the booking is
      deleted from the show's map, whoever holds it now. */
  function ReleaseAsWritten(booked: map<SeatId, BookingId>, seats: seq<SeatId>): map<SeatId, BookingId> {
    map k | k in booked && k !in seats :: booked[k]
  }

  /** The corrected release: only the seats this booking still holds are freed. */
  function Release(booked: map<SeatId, BookingId>, seats: seq<SeatId>, bookingId: BookingId): (r: map<SeatId, BookingId>)
    ensures forall k | k in r :: k in booked && r[k] == booked[k]
  {
    map k | k in booked && (k !in seats || booked[k] != bookingId) :: booked[k]
  }

  /** Booking.cancelBooking on a status: the new status and the result. */
  function CancelOutcome(status: BookingStatus): (r: (BookingStatus, bool))
    ensures r.1 <==> status != Confirmed
    ensures r.0 == if r.1 then Cancelled else status
  {
    if status != Confirmed then (Cancelled, true) else (status, false)
  }

  // ---------------------------------------------------------------------
  // Entities

  class User {
    const id: UserId
    const name: string
    var bookingHistory: seq<Booking>

    constructor(id: UserId, name: string)
      ensures this.id == id && this.name == name && bookingHistory == []
    {
      this.id := id;
      this.name := name;
      bookingHistory := [];
    }

    method AddBooking(booking: Booking)
      modifies this
      ensures bookingHistory == old(bookingHistory) + [booking]
    {
      bookingHistory := bookingHistory + [booking];
    }
  }

  class Cinema {
    const id: CinemaId
    const name: string
    const location: string
    const totalScreens: int
    var screens: seq<Screen>

    /** A cinema never has more screens than it was built for. */
    ghost predicate Valid()
      reads this
    {
      screens == [] || |screens| <= totalScreens
    }

    constructor(id: CinemaId, name: string, location: string, totalScreens: int)
      ensures Valid() && this.id == id && this.totalScreens == totalScreens && screens == []
    {
      this.id := id;
      this.name := name;
      this.location := location;
      this.totalScreens := totalScreens;
      screens := [];
    }

    /** Adds a screen while there is room for it. */
    method AddScreen(screen: Screen) returns (ok: bool)
      requires Valid()
      modifies this
      ensures Valid()
      ensures ok <==> |old(screens)| < totalScreens
      ensures screens == if ok then old(screens) + [screen] else old(screens)
    {
      if |screens| < totalScreens {
        screens := screens + [screen];
        return true;
      }
      return false;
    }
  }

  class Show {
    const id: ShowId
    const movieId: string
    const screenId: string
    const date: string
    const startTime: string
    /** Which booking holds each booked seat. */
    var bookedSeats: map<SeatId, BookingId>

    constructor(id: ShowId, movieId: string, screenId: string, date: string, startTime: string)
      ensures this.id == id && this.movieId == movieId && this.screenId == screenId && this.date == date
      ensures bookedSeats == map[]
    {
      this.id := id;
      this.movieId := movieId;
      this.screenId := screenId;
      this.date := date;
      this.startTime := startTime;
      bookedSeats := map[];
    }

    predicate IsSeatAvailable(seatId: SeatId)
      reads this
    {
      seatId !in bookedSeats
    }

    /** Gives a free seat to a booking; a taken seat keeps its holder. */
    method BookSeat(seatId: SeatId, bookingId: BookingId) returns (ok: bool)
      modifies this
      ensures ok <==> old(IsSeatAvailable(seatId))
      ensures bookedSeats == if ok then old(bookedSeats)[seatId := bookingId] else old(bookedSeats)
    {
      if IsSeatAvailable(seatId) {
        bookedSeats := bookedSeats[seatId := bookingId];
        return true;
      }
      return false;
    }
  }

  class Booking {
    const id: BookingId
    const userId: UserId
    const showId: ShowId
    const seats: seq<SeatId>
    const totalAmount: int
    var status: BookingStatus
    var paymentInfo: Option<Payment>

    constructor(id: BookingId, userId: UserId, showId: ShowId, seats: seq<SeatId>, totalAmount: int, status: BookingStatus)
      ensures this.id == id && this.userId == userId && this.showId == showId && this.seats == seats
      ensures this.totalAmount == totalAmount && this.status == status && paymentInfo.None?
    {
      this.id := id;
      this.userId := userId;
      this.showId := showId;
      this.seats := seats;
      this.totalAmount := totalAmount;
      this.status := status;
      paymentInfo := None;
    }

    /** Records the payment; only a completed payment confirms the booking. */
    method AddPayment(payment: Payment)
      modifies this
      ensures paymentInfo == Some(payment)
      ensures status == if payment.status == Completed then Confirmed else old(status)
    {
      paymentInfo := Some(payment);
      if payment.status == Completed {
        status := Confirmed;
      }
    }

    /** A confirmed booking cannot be cancelled; any other becomes cancelled. */
    method CancelBooking() returns (cancelled: bool)
      modifies this
      ensures (status, cancelled) == CancelOutcome(old(status))
      ensures paymentInfo == old(paymentInfo)
    {
      if status != Confirmed {
        status := Cancelled;
        return true;
      }
      return false;
    }
  }

  // ---------------------------------------------------------------------
  // Services

  /** The first show with an id (the service's map of shows, in insertion order). */
  function FindShow(shows: seq<Show>, showId: ShowId): (r: Option<Show>)
    ensures r.Some? ==> r.value in shows && r.value.id == showId
    ensures r.None? ==> forall i | 0 <= i < |shows| :: shows[i].id != showId
  {
    if shows == [] then None
    else if shows[0].id == showId then Some(shows[0])
    else
      var r := FindShow(shows[1..], showId);
      assert forall i | 1 <= i < |shows| :: shows[i] == shows[1..][i - 1];
      r
  }

  function ShowObjects(shows: seq<Show>, showId: ShowId): set<Show> {
    match FindShow(shows, showId)
    case Some(show) => {show}
    case None => {}
  }

  /** The shows of a movie on a date, in order. */
  function ShowsOfMovie(shows: seq<Show>, movieId: string, date: string): seq<Show> {
    if shows == [] then []
    else
      var rest := ShowsOfMovie(shows[1..], movieId, date);
      if shows[0].movieId == movieId && shows[0].date == date then [shows[0]] + rest else rest
  }

  /** The shows on one screen on a date, in order. */
  function ShowsOnScreen(shows: seq<Show>, screenId: string, date: string): seq<Show> {
    if shows == [] then []
    else
      var rest := ShowsOnScreen(shows[1..], screenId, date);
      if shows[0].screenId == screenId && shows[0].date == date then [shows[0]] + rest else rest
  }

  /** The shows on a cinema's screens on a date, screen by screen. */
  function ShowsOnScreens(screens: seq<Screen>, shows: seq<Show>, date: string): seq<Show> {
    if screens == [] then []
    else ShowsOnScreens(screens[..|screens| - 1], shows, date) + ShowsOnScreen(shows, screens[|screens| - 1].id, date)
  }

  class UserService {
    var users: map<UserId, User>

    constructor(users: map<UserId, User>)
      ensures this.users == users
    {
      this.users := users;
    }
  }

  class CinemaService {
    var cinemas: map<CinemaId, Cinema>

    constructor(cinemas: map<CinemaId, Cinema>)
      ensures this.cinemas == cinemas
    {
      this.cinemas := cinemas;
    }
  }

  class ShowService {
    var shows: seq<Show>
    const cinemaService: CinemaService

    constructor(shows: seq<Show>, cinemaService: CinemaService)
      ensures this.shows == shows && this.cinemaService == cinemaService
    {
      this.shows := shows;
      this.cinemaService := cinemaService;
    }

    method GetShowsForMovie(movieId: string, date: string) returns (results: seq<Show>)
      ensures results == ShowsOfMovie(shows, movieId, date)
    {
      results := [];
      var i := |shows|;
      while i > 0
        invariant 0 <= i <= |shows|
        invariant results == ShowsOfMovie(shows[i..], movieId, date)
      {
        i := i - 1;
        assert shows[i..][1..] == shows[i + 1..];
        if shows[i].movieId == movieId && shows[i].date == date {
          results := [shows[i]] + results;
        }
      }
    }

    method GetShowsForCinema(cinemaId: CinemaId, date: string) returns (results: seq<Show>)
      ensures cinemaId !in cinemaService.cinemas ==> results == []
      ensures cinemaId in cinemaService.cinemas ==>
        results == ShowsOnScreens(cinemaService.cinemas[cinemaId].screens, shows, date)
    {
      results := [];
      if cinemaId !in cinemaService.cinemas {
        return;
      }
      var screens := cinemaService.cinemas[cinemaId].screens;
      for s := 0 to |screens|
        invariant results == ShowsOnScreens(screens[..s], shows, date)
      {
        var k := 0;
        var found := [];
        while k < |shows|
          invariant 0 <= k <= |shows|
          invariant results + found == ShowsOnScreens(screens[..s], shows, date) + found
          invariant found + ShowsOnScreen(shows[k..], screens[s].id, date) == ShowsOnScreen(shows, screens[s].id, date)
        {
          assert shows[k..][1..] == shows[k + 1..];
          if shows[k].screenId == screens[s].id && shows[k].date == date {
            found := found + [shows[k]];
          }
          k := k + 1;
        }
        assert screens[..s + 1][..s] == screens[..s];
        results := results + found;
      }
      assert screens[..|screens|] == screens;
    }
  }

  datatype BookingError = UserOrShowNotFound | SeatNotAvailable(seatId: SeatId) | BookingNotFound | ShowNotFound

  class BookingService {
    var bookings: map<BookingId, Booking>
    const userService: UserService
    const showService: ShowService

    constructor(userService: UserService, showService: ShowService)
      ensures bookings == map[] && this.userService == userService && this.showService == showService
    {
      bookings := map[];
      this.userService := userService;
      this.showService := showService;
    }

    function UserObjects(userId: UserId): set<User>
      reads userService
    {
      if userId in userService.users then {userService.users[userId]} else {}
    }

    function BookingObjects(bookingId: BookingId): set<Booking>
      reads this
    {
      if bookingId in bookings then {bookings[bookingId]} else {}
    }

    function BookingShows(bookingId: BookingId): set<Show>
      reads this, showService
    {
      if bookingId in bookings then ShowObjects(showService.shows, bookings[bookingId].showId) else {}
    }

    /** Books seats for a user at a show: nothing happens unless the user and the
        show exist and every seat is free; then a PENDING booking at the fixed
        price per seat holds all the seats and joins the user's history. */
    method CreateBooking(userId: UserId, showId: ShowId, seats: seq<SeatId>, id: BookingId)
      returns (result: Result<Booking, BookingError>)
      modifies this, UserObjects(userId), ShowObjects(showService.shows, showId)
      ensures userId !in userService.users || FindShow(showService.shows, showId).None? ==>
        result == Err(UserOrShowNotFound) && bookings == old(bookings) &&
        unchanged(UserObjects(userId)) && unchanged(ShowObjects(showService.shows, showId))
      ensures userId in userService.users && FindShow(showService.shows, showId).Some? ==>
        var show := FindShow(showService.shows, showId).value;
        var user := userService.users[userId];
        match FirstTaken(seats, old(show.bookedSeats))
        case Some(seat) =>
          result == Err(SeatNotAvailable(seat)) && bookings == old(bookings) && unchanged(user, show)
        case None =>
          result.Ok? && fresh(result.value) && bookings == old(bookings)[id := result.value] &&
          result.value.id == id && result.value.userId == userId && result.value.showId == showId &&
          result.value.seats == seats && result.value.totalAmount == SeatPrice * |seats| &&
          result.value.status == Pending && result.value.paymentInfo.None? &&
          show.bookedSeats == Reserve(old(show.bookedSeats), seats, id) &&
          user.bookingHistory == old(user.bookingHistory) + [result.value]
    {
      var found := FindShow(showService.shows, showId);
      if userId !in userService.users || found.None? {
        return Err(UserOrShowNotFound);
      }
      var user := userService.users[userId];
      var show := found.value;
      var taken := CheckSeats(show, seats);
      if taken.Some? {
        return Err(SeatNotAvailable(taken.value));
      }
      var booking := new Booking(id, userId, showId, seats, SeatPrice * |seats|, Pending);
      MarkSeats(show, seats, id);
      bookings := bookings[id := booking];
      user.AddBooking(booking);
      result := Ok(booking);
    }

    /** Pays a booking's total and records the completed payment, which confirms it. */
    method ConfirmBooking(bookingId: BookingId, paymentMethod: string, paymentId: string, transactionId: string)
      returns (result: Result<Booking, BookingError>)
      modifies BookingObjects(bookingId)
      ensures bookingId !in bookings ==> result == Err(BookingNotFound)
      ensures bookingId in bookings ==>
        var booking := bookings[bookingId];
        result == Ok(booking) && booking.status == Confirmed &&
        booking.paymentInfo == Some(Payment(paymentId, bookingId, booking.totalAmount, paymentMethod, Completed, Some(transactionId)))
    {
      if bookingId !in bookings {
        return Err(BookingNotFound);
      }
      var booking := bookings[bookingId];
      var payment := Payment(paymentId, bookingId, booking.totalAmount, paymentMethod, PaymentPending, None);
      payment := ProcessPayment(payment, transactionId);
      booking.AddPayment(payment);
      result := Ok(booking);
    }

    /** Cancels a booking that is not confirmed and frees the seats it still
        holds in its show. A booking whose show cannot be found is still marked
        cancelled; releasing its seats then fails, unless it has none. */
    method CancelBooking(bookingId: BookingId) returns (result: Result<bool, BookingError>)
      modifies BookingObjects(bookingId), BookingShows(bookingId)
      ensures bookingId !in bookings ==> result == Err(BookingNotFound)
      ensures bookingId in bookings ==>
        var booking := bookings[bookingId];
        booking.status == CancelOutcome(old(booking.status)).0 &&
        booking.paymentInfo == old(booking.paymentInfo) &&
        (old(booking.status) == Confirmed ==> result == Ok(false) && unchanged(BookingShows(bookingId))) &&
        (old(booking.status) != Confirmed && FindShow(showService.shows, booking.showId).None? ==>
          result == (if |booking.seats| > 0 then Err(ShowNotFound) else Ok(true))) &&
        (old(booking.status) != Confirmed && FindShow(showService.shows, booking.showId).Some? ==>
          var show := FindShow(showService.shows, booking.showId).value;
          result == Ok(true) && show.bookedSeats == Release(old(show.bookedSeats), booking.seats, booking.id))
    {
      if bookingId !in bookings {
        return Err(BookingNotFound);
      }
      var booking := bookings[bookingId];
      var cancelled := booking.CancelBooking();
      if !cancelled {
        return Ok(false);
      }
      var found := FindShow(showService.shows, booking.showId);
      if found.None? {
        if |booking.seats| > 0 {
          return Err(ShowNotFound);
        }
        return Ok(true);
      }
      FreeSeats(found.value, booking.seats, booking.id);
      result := Ok(true);
    }
  }

  /** The availability check of createBooking: the first requested seat already booked, if any. */
  method CheckSeats(show: Show, seats: seq<SeatId>) returns (taken: Option<SeatId>)
    ensures taken == FirstTaken(seats, show.bookedSeats)
  {
    for i := 0 to |seats|
      invariant forall j | 0 <= j < i :: seats[j] !in show.bookedSeats
    {
      if !show.IsSeatAvailable(seats[i]) {
        FirstTakenAt(seats, show.bookedSeats, i);
        return Some(seats[i]);
      }
    }
    return None;
  }

  /** The marking loop of createBooking: each requested seat is offered to the booking in turn. */
  method MarkSeats(show: Show, seats: seq<SeatId>, bookingId: BookingId)
    modifies show
    ensures show.bookedSeats == Reserve(old(show.bookedSeats), seats, bookingId)
  {
    for i := 0 to |seats|
      invariant show.bookedSeats == Reserve(old(show.bookedSeats), seats[..i], bookingId)
    {
      assert seats[..i + 1][..i] == seats[..i];
      var _ := show.BookSeat(seats[i], bookingId);
    }
    assert seats[..|seats|] == seats;
  }

  /** The release loop of cancelBooking, freeing only the seats the booking still holds. */
  method FreeSeats(show: Show, seats: seq<SeatId>, bookingId: BookingId)
    modifies show
    ensures show.bookedSeats == Release(old(show.bookedSeats), seats, bookingId)
  {
    for i := 0 to |seats|
      invariant show.bookedSeats == Release(old(show.bookedSeats), seats[..i], bookingId)
    {
      var seat := seats[i];
      ReleaseStep(old(show.bookedSeats), seats, bookingId, i);
      if seat in show.bookedSeats && show.bookedSeats[seat] == bookingId {
        show.bookedSeats := show.bookedSeats - {seat};
      }
    }
    assert seats[..|seats|] == seats;
  }

  lemma FirstTakenAt(seats: seq<SeatId>, booked: map<SeatId, BookingId>, i: nat)
    requires i < |seats| && seats[i] in booked && forall j | 0 <= j < i :: seats[j] !in booked
    ensures FirstTaken(seats, booked) == Some(seats[i])
  {
    if i > 0 {
      assert forall j | 0 <= j < i - 1 :: seats[1..][j] == seats[j + 1];
      FirstTakenAt(seats[1..], booked, i - 1);
    }
  }

  // ---------------------------------------------------------------------
  // Properties

  lemma ReleaseStep(booked: map<SeatId, BookingId>, seats: seq<SeatId>, bookingId: BookingId, i: nat)
    requires i < |seats|
    ensures var r := Release(booked, seats[..i], bookingId);
      Release(booked, seats[..i + 1], bookingId) ==
        if seats[i] in r && r[seats[i]] == bookingId then r - {seats[i]} else r
  {
    assert seats[..i + 1] == seats[..i] + [seats[i]];
  }

  /** When every requested seat is free, booking them maps each of them to the
      new booking and keeps every other entry. */
  lemma {:induction false} ReserveFree(booked: map<SeatId, BookingId>, seats: seq<SeatId>, bookingId: BookingId)
    requires forall i | 0 <= i < |seats| :: seats[i] !in booked
    ensures var r := Reserve(booked, seats, bookingId);
      (forall k :: k in r <==> k in booked || k in seats) &&
      (forall k | k in r :: r[k] == if k in seats then bookingId else booked[k])
    decreases |seats|
  {
    if seats != [] {
      var init := seats[..|seats| - 1];
      ReserveFree(booked, init, bookingId);
      assert forall k :: k in seats <==> k in init || k == seats[|seats| - 1] by {
        assert seats == init + [seats[|seats| - 1]];
      }
    }
  }

  /** Booking seats that are already taken changes nothing. */
  lemma {:induction false} ReserveTaken(booked: map<SeatId, BookingId>, seats: seq<SeatId>, bookingId: BookingId)
    requires forall i | 0 <= i < |seats| :: seats[i] in booked
    ensures Reserve(booked, seats, bookingId) == booked
    decreases |seats|
  {
    if seats != [] {
      ReserveTaken(booked, seats[..|seats| - 1], bookingId);
    }
  }

  /** The corrected release frees exactly the requested seats this booking
      holds: another booking's seats stay, and releasing twice is releasing once. */
  lemma ReleaseExactly(booked: map<SeatId, BookingId>, seats: seq<SeatId>, bookingId: BookingId)
    ensures var r := Release(booked, seats, bookingId);
      (forall k | k in booked && booked[k] != bookingId :: k in r && r[k] == booked[k]) &&
      (forall k | k in seats :: k !in r || r[k] != bookingId) &&
      (forall k | k in booked && k !in seats :: k in r) &&
      Release(r, seats, bookingId) == r
  {
  }

  /** The counterexample for the release as written: booking b1 takes A1 and is
      cancelled, b2 then takes A1, and b1 is cancelled again. A cancelled
      booking is not confirmed, so the second cancellation succeeds, and the
      release as written frees A1 although b2 holds it; the corrected release
      leaves it to b2. */
  lemma ReleaseAsWrittenFreesOthersSeats()
    ensures var afterB1 := Reserve(map[], ["A1"], "b1");
      afterB1 == map["A1" := "b1"] &&
      CancelOutcome(Pending) == (Cancelled, true) &&
      ReleaseAsWritten(afterB1, ["A1"]) == map[] &&
      Reserve(map[], ["A1"], "b2") == map["A1" := "b2"] &&
      CancelOutcome(Cancelled) == (Cancelled, true) &&
      ReleaseAsWritten(map["A1" := "b2"], ["A1"]) == map[] &&
      Release(map["A1" := "b2"], ["A1"], "b1") == map["A1" := "b2"]
  {
    assert ["A1"][..0] == [];
    var m: map<SeatId, BookingId> := map["A1" := "b2"];
    assert "A1" in ReleaseAsWritten(m, ["A1"]) ==> false;
    assert Release(m, ["A1"], "b1").Keys == {"A1"};
  }

  /** The listing of a movie's shows holds exactly its shows on that date, and
      the listing for a cinema exactly the shows on one of its screens on that date. */
  lemma {:induction false} ShowsOfMovieExactly(shows: seq<Show>, movieId: string, date: string)
    ensures forall s :: s in ShowsOfMovie(shows, movieId, date) <==> s in shows && s.movieId == movieId && s.date == date
    decreases |shows|
  {
    if shows != [] {
      ShowsOfMovieExactly(shows[1..], movieId, date);
      assert forall s :: s in shows <==> s == shows[0] || s in shows[1..] by {
        assert shows == [shows[0]] + shows[1..];
      }
    }
  }

  lemma {:induction false} ShowsOnScreenExactly(shows: seq<Show>, screenId: string, date: string)
    ensures forall s :: s in ShowsOnScreen(shows, screenId, date) <==> s in shows && s.screenId == screenId && s.date == date
    decreases |shows|
  {
    if shows != [] {
      ShowsOnScreenExactly(shows[1..], screenId, date);
      assert forall s :: s in shows <==> s == shows[0] || s in shows[1..] by {
        assert shows == [shows[0]] + shows[1..];
      }
    }
  }

  lemma {:induction false} ShowsOnScreensExactly(screens: seq<Screen>, shows: seq<Show>, date: string)
    ensures forall s :: s in ShowsOnScreens(screens, shows, date) <==>
      s in shows && s.date == date && exists i | 0 <= i < |screens| :: screens[i].id == s.screenId
    decreases |screens|
  {
    if screens != [] {
      var init := screens[..|screens| - 1];
      var last := screens[|screens| - 1];
      ShowsOnScreensExactly(init, shows, date);
      ShowsOnScreenExactly(shows, last.id, date);
      forall s: Show ensures (exists i | 0 <= i < |screens| :: screens[i].id == s.screenId) <==>
        (exists i | 0 <= i < |init| :: init[i].id == s.screenId) || last.id == s.screenId
      {
        if exists i | 0 <= i < |screens| :: screens[i].id == s.screenId {
          var i :| 0 <= i < |screens| && screens[i].id == s.screenId;
          if i < |init| {
            assert init[i] == screens[i];
          }
        }
        if exists i | 0 <= i < |init| :: init[i].id == s.screenId {
          var i :| 0 <= i < |init| && init[i].id == s.screenId;
          assert screens[i] == init[i];
        }
      }
    }
  }
}
