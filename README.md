# Overbooking detector — a verified Dafny model

This project models the core of a small overbooking detector for one rental
unit. Two booking channels, Booking and Airbnb, export their reservations as
iCalendar feeds (RFC 5545). The detector reads each event (VEVENT, section
3.6.1) by its DTSTART and DTEND (sections 3.8.2.4 and 3.8.2.2), and does
three things:

- it reads each feed into `{start, end, source}` intervals. Date-times are cut
  down to their date, with no time-zone conversion (`parse_ical`);
- it runs one check over `booking + airbnb`. The check stably sorts by start
  date and reports each neighbouring pair in which the later interval starts
  strictly before the earlier one ends (`check_overbooking`);
- the `/overbooking` handler raises its `overbooking` flag exactly when that
  list is non-empty.

`app.py` and `main.py` hold identical copies of `parse_ical` and
`check_overbooking`. One model covers both, and the table below cites
whichever copy states the point better (`main.py` carries the doc-comments).

Modules, one per component:

- `Dates` (dates.dfy): calendar dates and their order (Python `date` comparison,
  lexicographic on year, month, day), date-or-date-time values, and their
  normalisation to a date.
- `Feed` (feed.dfy): the walked calendar components, the `Interval` record,
  `parse_ical` as the method `ParseIcal`, and its specification `ParseFeed`.
- `Sorting` (sorting.dfy): Python's stable `sorted(..., key=start)` as
  `SortByStart`. It is proved sorted, a permutation and stable, and it is the
  only arrangement with those properties.
- `Detector` (detector.dfy): `check_overbooking` as the method
  `CheckOverbooking`, its specification `Conflicts`, and what the adjacent scan
  does and does not catch.
- `Pipeline` (pipeline.dfy): the pure part of the `/overbooking` handler and
  the mock fixture of `/mock/overbooking`.

Three points where the code's behaviour is easy to misread:

- `cal.walk()` visits every component at any depth, not only top-level ones.
  The model therefore takes the whole walk, in walk order, as its input.
- A missing DTSTART or DTEND makes the code raise on `None.dt`. DTSTART is
  read first. The model returns `Failure(MalformedEvent(DtStart))` or
  `Failure(MalformedEvent(DtEnd))` for the first such event, and no intervals.
  In RFC 5545 DTEND is optional: an event may carry DURATION instead, or
  neither. The code raises on such a valid event, and the model reports it as
  `MalformedEvent(DtEnd)`.
- The code does not check that an event ends after it starts. The model
  accepts any dates too. Only the soundness half of the flag theorem assumes
  `start < end`, and it needs that assumption. A timed event within one day
  normalises to an interval whose end equals its start. If it starts on the
  same day as an earlier stay, it is reported although it overlaps nothing
  as a half-open range (`Detector.SameDayEventReportedWithoutOverlap`).

## Model

| member | source | states |
|---|---|---|
| `Dates.ToDate` | app.py:33-37 | a date-time becomes its own date part, with no time-zone conversion, and a bare date is left unchanged; `DateTimeNormalisesToItsDate` and `ToDateIdempotent` state the consequences |
| `Dates.DateTimeNormalisesToItsDate` | app.py:33-37 | a date-time start or end becomes the date it falls on, whatever its time of day or UTC offset: the same date a bare date value would give |
| `Dates.ToDateIdempotent` | main.py:36-40 | normalising leaves a bare date unchanged, so normalising twice is normalising once |
| `Feed.ReadEvent` | app.py:30-37 | an event is readable exactly when DTSTART and DTEND are both present; a missing DTSTART is reported before a missing DTEND; otherwise the interval holds both normalised dates and the caller's label |
| `Feed.ParseIcal` | app.py:24-44 | the loop over the walked components returns exactly `ParseFeed` of the walk: the intervals, or the error of the first unreadable event (`FirstUnreadableEventFails`) |
| `Feed.FailureIsFinal` | main.py:31-34 | once an event of the walk cannot be read, the whole feed fails with that error; no partial list is returned |
| `Feed.ParseFeedSucceedsIff` | main.py:31-34 | a feed parses without error if and only if every VEVENT in it has both DTSTART and DTEND |
| `Feed.FirstUnreadableEventFails` | app.py:28-31 | if every VEVENT before position j is readable and the one at j is not, the whole feed fails with the error of the event at j |
| `Feed.ParseFeedIntervals` | main.py:20-48 | on success there is one interval per VEVENT, in walk order; the k-th holds the k-th event's normalised start and end and the feed's label; other components contribute nothing |
| `Feed.ParseFeedLabels` | app.py:39-43 | every interval of a parsed feed carries that feed's source label |
| `Feed.ParseFeedAppend` | app.py:28-43 | parsing a walk in two stretches gives the first stretch's intervals followed by the second's, and an error in the first stretch is the error of the whole |
| `Feed.NoEventsNoIntervals` | app.py:28-29 | a walk with no VEVENT gives the empty list, not an error |
| `Sorting.Insert` | app.py:49 | inserting an interval adds exactly that interval and keeps a start-sorted list sorted |
| `Sorting.SortByStart` | app.py:49 | the sorted list is non-decreasing by start date and is a permutation of the input (same multiset, same length) |
| `Sorting.SortByStartStable` | main.py:54 | the sort is stable: for every date, the intervals starting that day keep their input order |
| `Sorting.StableSortUnique` | app.py:49 | two lists that are both sorted by start and agree day by day on the order of equal starts are equal |
| `Sorting.SortByStartIsTheStableSort` | main.py:54 | any stable sort by start of the input equals `SortByStart` of it, so the model's sort is Python's `sorted` |
| `Detector.CheckOverbooking` | app.py:47-57 | the scan over `range(len - 1)` returns exactly `Conflicts(SortByStart(events))` |
| `Detector.ScanPairs` | app.py:51-55 | the k-th conflict found is `(sorted[i], sorted[i+1])` for the k-th recorded position `i` |
| `Detector.ScanInOrder` | main.py:56-62 | recorded positions are below the scanned bound and strictly increase, so conflicts come in scan order and each neighbouring pair at most once |
| `Detector.ScanExact` | main.py:60-62 | position `i` is recorded if and only if `sorted[i+1].start < sorted[i].end` |
| `Detector.ConflictsCharacterised` | app.py:51-55 | for the whole scan: every conflict is a neighbouring pair that passes the strict test, every such pair is reported, and they are reported in increasing position order |
| `Detector.ConflictsBound` | main.py:56 | zero or one interval gives no conflict, and n intervals give at most n - 1 |
| `Detector.BackToBackNotReported` | app.py:54 | a neighbour that starts on or after the day the previous interval ends is never reported, because the test is a strict `<` |
| `Detector.ReportedPairsStrictlyOverlap` | main.py:60-62 | in every reported pair the second interval starts strictly before the first one ends, and never on the first one's end day |
| `Detector.SortedFromInput` | main.py:54 | every entry of the sorted list is an entry of the input |
| `Detector.ConflictMembersFromInput` | main.py:54-62 | both intervals of every conflict are intervals of the input, unaltered |
| `Detector.LaterOverlapReachesNeighbour` | app.py:51-55 | in a sorted list, if an interval starts before an earlier one ends, the earlier one's immediate successor does too, and the scan reports that position |
| `Detector.OverlapAlwaysFlagged` | app.py:148-150 | if any two entries of the list overlap as half-open day ranges, the conflict list is non-empty, although only neighbours are compared |
| `Detector.FlaggedMeansOverlap` | app.py:148-150 | when every interval ends after it starts, a non-empty conflict list means two entries genuinely overlap |
| `Detector.FlagIffOverlap` | app.py:163-168 | when every interval ends after it starts, the conflict list is non-empty if and only if two entries overlap |
| `Detector.NonAdjacentOverlapMissed` | app.py:51-55 | the list is not exhaustive: for one long stay containing two disjoint short ones, only the pair with its sorted neighbour is reported, and the overlap with the other short stay is not |
| `Detector.SameDayEventReportedWithoutOverlap` | app.py:51-55 | a stay followed by a same-day interval whose end equals its start is reported, although the two do not overlap as half-open ranges |
| `Pipeline.OverbookingRoute` | app.py:141-168 | Booking is parsed before Airbnb and either failure fails the request; on success the detector runs over `booking + airbnb`; the flag is true exactly when the conflict list is non-empty; every overlap raises it; and for well-formed stays it is raised only by a genuine overlap |
| `Pipeline.MockSortOrder` | app.py:99-107 | sorting the mock `booking + airbnb` gives Airbnb 19 Nov, Booking 22 Nov, Airbnb 26 Nov, Booking 1 Jun 2026 |
| `Pipeline.MockFixtureHasOneConflict` | app.py:99-133 | on the mock reservations the detector reports exactly one conflict: Airbnb 2025-11-19 to 2025-11-24 followed by Booking 2025-11-22 to 2025-11-25, which is the canned answer |

## Left out

- `download_ical` (app.py:18-21, main.py:13-17): fetching over HTTP is network I/O. The model starts from feeds that have already been fetched.
- `Calendar.from_ical` and `cal.walk()`: text parsing is done by the icalendar library. The model takes the walked components as its input, so a feed that is not valid calendar syntax is not modelled.
- Property values other than a date or a date-time: for unusual input the library's `.dt` can also be a time or a duration. They are not modelled.
- Calendar validity of dates (month and day ranges): the library only builds valid dates, and comparisons do not depend on it.
- The sorting algorithm itself: `sorted` is a library call. `SortByStart` computes the same result by insertion. `SortByStartIsTheStableSort` shows that any stable sort by start gives that result.
- Flask routes `/`, `/reservas` and `/mock/overbooking`: they are web glue. `jsonify` shaping, `str(date)` ISO formatting and the `details` message strings are left out too. From them the model keeps only the `/overbooking` decision and the mock fixture.
- The `except Exception` handlers that turn any failure into a 500 response: the model returns the failure as a `Result` instead.
- Environment and `.env` configuration, and the hard-coded feed URLs (app.py:10-15, main.py:9-10).
- The console script of main.py (lines 70-101): printing and the agenda display order.
- Python lists are mutable, but the model works on sequence values. That `sorted` builds a new list and never changes the caller's list holds in the model by construction, so no lemma states it.
- The model has only the code's adjacent-pair scan.
