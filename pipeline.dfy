/** The pure part of the `/overbooking` handler: parse the Booking feed, then
    the Airbnb feed, run the detector over `booking + airbnb`, and decide the
    `overbooking` flag. Downloading the feeds and shaping the JSON answer are
    not part of this model. */
module Pipeline {
  import opened Dates
  import opened Feed
  import opened Sorting
  import opened Detector

  /** What the handler answers on success: the flag, the conflicts it found,
      and each channel's reservations as parsed. */
  datatype Report = Report(
    overbooking: bool,
    conflicts: seq<Conflict>,
    booking: seq<Interval>,
    airbnb: seq<Interval>)

  /** The `/overbooking` handler once both feeds have been fetched and read
      into their component walks. Either feed failing fails the whole request
      (Booking is parsed first, so its error wins); there is no partial
      answer. On success the flag is raised exactly when the detector found a
      conflict, which for bookings that end after they start is exactly when
      two of them overlap. */
  method OverbookingRoute(bookingFeed: seq<Component>, airbnbFeed: seq<Component>)
    returns (r: Result<Report>)
    ensures ParseFeed(bookingFeed, "Booking").Failure? ==> r == Failure(ParseFeed(bookingFeed, "Booking").error)
    ensures ParseFeed(bookingFeed, "Booking").Success? && ParseFeed(airbnbFeed, "Airbnb").Failure? ==>
      r == Failure(ParseFeed(airbnbFeed, "Airbnb").error)
    ensures r.Success? <==> ParseFeed(bookingFeed, "Booking").Success? && ParseFeed(airbnbFeed, "Airbnb").Success?
    ensures r.Success? ==>
      r.value.booking == ParseFeed(bookingFeed, "Booking").value
      && r.value.airbnb == ParseFeed(airbnbFeed, "Airbnb").value
      && r.value.conflicts == Conflicts(SortByStart(r.value.booking + r.value.airbnb))
      && (r.value.overbooking <==> r.value.conflicts != [])
    ensures r.Success? && SomeOverlap(r.value.booking + r.value.airbnb) ==> r.value.overbooking
    ensures r.Success? && (forall e :: e in r.value.booking + r.value.airbnb ==> WellFormed(e)) ==>
      (r.value.overbooking <==> SomeOverlap(r.value.booking + r.value.airbnb))
  {
    var bookingEvents := ParseIcal(bookingFeed, "Booking");
    if bookingEvents.Failure? {
      return Failure(bookingEvents.error);
    }
    var airbnbEvents := ParseIcal(airbnbFeed, "Airbnb");
    if airbnbEvents.Failure? {
      return Failure(airbnbEvents.error);
    }
    var allEvents := bookingEvents.value + airbnbEvents.value;
    var conflicts := CheckOverbooking(allEvents);
    if SomeOverlap(allEvents) {
      OverlapAlwaysFlagged(allEvents);
    }
    if forall e :: e in allEvents ==> WellFormed(e) {
      FlagIffOverlap(allEvents);
    }
    r := Success(Report(conflicts != [], conflicts, bookingEvents.value, airbnbEvents.value));
  }

  /** The reservations of the `/mock/overbooking` answer. */
  const MockAirbnb: seq<Interval> := [
    Interval(Date(2025, 11, 19), Date(2025, 11, 24), "Airbnb"),
    Interval(Date(2025, 11, 26), Date(2025, 11, 30), "Airbnb")]
  const MockBooking: seq<Interval> := [
    Interval(Date(2025, 11, 22), Date(2025, 11, 25), "Booking"),
    Interval(Date(2026, 6, 1), Date(2027, 5, 21), "Booking")]

  /** Sorting `booking + airbnb` of the mock puts the two November Airbnb
      stays around the first Booking stay, and the 2026 Booking block last. */
  lemma MockSortOrder()
    ensures SortByStart(MockBooking + MockAirbnb)
      == [MockAirbnb[0], MockBooking[0], MockAirbnb[1], MockBooking[1]]
  {
    var a1, a2 := MockAirbnb[0], MockAirbnb[1];
    var b1, b2 := MockBooking[0], MockBooking[1];
    var all := MockBooking + MockAirbnb;
    assert all == [b1, b2, a1, a2];
    assert all[1..] == [b2, a1, a2];
    MockSortTail(a1, a2, b2);
    MockInsertFirstBooking(a1, a2, b1, b2);
    assert SortByStart(all) == Insert(b1, SortByStart(all[1..]));
  }

  lemma MockInsertFirstBooking(a1: Interval, a2: Interval, b1: Interval, b2: Interval)
    requires a1 == MockAirbnb[0] && a2 == MockAirbnb[1]
    requires b1 == MockBooking[0] && b2 == MockBooking[1]
    ensures Insert(b1, [a1, a2, b2]) == [a1, b1, a2, b2]
  {
    assert [a1, a2, b2][1..] == [a2, b2];
    assert Insert(b1, [a2, b2]) == [b1, a2, b2];
  }

  lemma MockSortTail(a1: Interval, a2: Interval, b2: Interval)
    requires a1 == MockAirbnb[0] && a2 == MockAirbnb[1] && b2 == MockBooking[1]
    ensures SortByStart([b2, a1, a2]) == [a1, a2, b2]
  {
    assert [b2, a1, a2][1..] == [a1, a2];
    assert [a1, a2][1..] == [a2];
    assert SortByStart([a2]) == [a2];
    assert SortByStart([a1, a2]) == [a1, a2];
    assert Insert(b2, [a2]) == [a2, b2];
    assert Insert(b2, [a1, a2]) == [a1, a2, b2];
  }

  /** The canned `/mock/overbooking` answer is what the detector itself says
      about the mock reservations: over `booking + airbnb`, exactly one
      conflict, the Airbnb stay of 19-24 November 2025 followed by the
      Booking stay of 22-25 November 2025; the flag is therefore raised. */
  lemma MockFixtureHasOneConflict()
    ensures Conflicts(SortByStart(MockBooking + MockAirbnb)) == [(MockAirbnb[0], MockBooking[0])]
  {
    MockSortOrder();
    var sorted := [MockAirbnb[0], MockBooking[0], MockAirbnb[1], MockBooking[1]];
    assert ConflictsUpTo(sorted, 1) == [(MockAirbnb[0], MockBooking[0])];
    assert ConflictsUpTo(sorted, 2) == [(MockAirbnb[0], MockBooking[0])];
    assert ConflictsUpTo(sorted, 3) == [(MockAirbnb[0], MockBooking[0])];
  }
}
