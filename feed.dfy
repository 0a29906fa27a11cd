/** The feed parser (`parse_ical`): walks the components of an already-parsed
    calendar, keeps the VEVENT components, normalises their DTSTART and DTEND
    to bare dates and stamps each resulting interval with the caller's source
    label. Text parsing of the calendar is done by a library and is not part
    of this model: the input is the sequence of components in walk order. */
module Feed {
  import opened Dates

  /** One component met while walking the calendar, with the two properties
      the parser reads; a property the component does not carry is None. */
  datatype Component = Component(name: string, dtstart: Option<Moment>, dtend: Option<Moment>)

  /** A reservation or blocked range, as the detector sees it. */
  datatype Interval = Interval(start: Date, end: Date, source: string)

  /** The property whose absence made an event unreadable. */
  datatype Property = DtStart | DtEnd

  /** Parsing fails as a whole on the first event that lacks DTSTART or DTEND. */
  datatype FeedError = MalformedEvent(missing: Property)

  datatype Result<T> = Success(value: T) | Failure(error: FeedError)

  predicate IsEvent(c: Component) {
    c.name == "VEVENT"
  }

  /** An event the parser can read: both properties are present. */
  predicate Readable(c: Component) {
    c.dtstart.Some? && c.dtend.Some?
  }

  /** The event components of a walk, in walk order. */
  function Events(cs: seq<Component>): (es: seq<Component>)
    decreases |cs|
  {
    if cs == [] then []
    else Events(cs[..|cs| - 1]) + (if IsEvent(cs[|cs| - 1]) then [cs[|cs| - 1]] else [])
  }

  /** Reads one event: DTSTART is looked up first, then DTEND, and each is
      normalised to its date. */
  function ReadEvent(c: Component, sourceName: string): (r: Result<Interval>)
    ensures r.Success? <==> Readable(c)
    ensures r.Failure? ==> r.error == MalformedEvent(if c.dtstart.None? then DtStart else DtEnd)
    ensures r.Success? ==> r.value == Interval(ToDate(c.dtstart.value), ToDate(c.dtend.value), sourceName)
  {
    if c.dtstart.None? then Failure(MalformedEvent(DtStart))
    else if c.dtend.None? then Failure(MalformedEvent(DtEnd))
    else Success(Interval(ToDate(c.dtstart.value), ToDate(c.dtend.value), sourceName))
  }

  /** What `parse_ical` returns (or raises) for the given walk: defined
      component by component from the front, as the loop runs. */
  function ParseFeed(cs: seq<Component>, sourceName: string): (r: Result<seq<Interval>>)
    decreases |cs|
  {
    if cs == [] then Success([])
    else
      var last := cs[|cs| - 1];
      match ParseFeed(cs[..|cs| - 1], sourceName)
      case Failure(e) => Failure(e)
      case Success(done) =>
        if !IsEvent(last) then Success(done)
        else match ReadEvent(last, sourceName)
          case Failure(e) => Failure(e)
          case Success(iv) => Success(done + [iv])
  }

  /** `parse_ical`: one pass over the components, appending an interval per
      VEVENT; the first unreadable event aborts the whole feed. */
  method ParseIcal(cs: seq<Component>, sourceName: string) returns (r: Result<seq<Interval>>)
    ensures r == ParseFeed(cs, sourceName)
  {
    var events: seq<Interval> := [];
    var i := 0;
    while i < |cs|
      invariant 0 <= i <= |cs|
      invariant ParseFeed(cs[..i], sourceName) == Success(events)
    {
      var component := cs[i];
      assert cs[..i + 1][..i] == cs[..i];
      if component.name == "VEVENT" {
        if component.dtstart.None? {
          r := Failure(MalformedEvent(DtStart));
          FailureIsFinal(cs, i + 1, sourceName);
          assert cs[..|cs|] == cs;
          return;
        }
        if component.dtend.None? {
          r := Failure(MalformedEvent(DtEnd));
          FailureIsFinal(cs, i + 1, sourceName);
          assert cs[..|cs|] == cs;
          return;
        }
        var start := ToDate(component.dtstart.value);
        var end := ToDate(component.dtend.value);
        events := events + [Interval(start, end, sourceName)];
      }
      i := i + 1;
    }
    assert cs[..i] == cs;
    r := Success(events);
  }

  /** Once a prefix of the walk fails, the whole walk fails with the same error. */
  lemma {:induction false} FailureIsFinal(cs: seq<Component>, n: nat, sourceName: string)
    requires n <= |cs|
    requires ParseFeed(cs[..n], sourceName).Failure?
    ensures ParseFeed(cs, sourceName) == ParseFeed(cs[..n], sourceName)
    decreases |cs| - n
  {
    if n < |cs| {
      assert cs[..n + 1][..n] == cs[..n];
      FailureIsFinal(cs, n + 1, sourceName);
    } else {
      assert cs[..n] == cs;
    }
  }

  /** The feed is parsed without error exactly when every VEVENT carries both
      DTSTART and DTEND; otherwise nothing but the error is returned. */
  lemma {:induction false} ParseFeedSucceedsIff(cs: seq<Component>, sourceName: string)
    ensures ParseFeed(cs, sourceName).Success?
            <==> forall i :: 0 <= i < |cs| && IsEvent(cs[i]) ==> Readable(cs[i])
    decreases |cs|
  {
    if cs != [] {
      var front := cs[..|cs| - 1];
      ParseFeedSucceedsIff(front, sourceName);
      assert forall i :: 0 <= i < |front| ==> front[i] == cs[i];
    }
  }

  /** When every VEVENT before position `j` is readable and the one at `j`
      is not, the whole feed fails with the error of the event at `j`. */
  lemma FirstUnreadableEventFails(cs: seq<Component>, j: nat, sourceName: string)
    requires j < |cs| && IsEvent(cs[j]) && !Readable(cs[j])
    requires forall i :: 0 <= i < j && IsEvent(cs[i]) ==> Readable(cs[i])
    ensures ParseFeed(cs, sourceName) == Failure(ReadEvent(cs[j], sourceName).error)
  {
    ParseFeedSucceedsIff(cs[..j], sourceName);
    assert cs[..j + 1][..j] == cs[..j];
    FailureIsFinal(cs, j + 1, sourceName);
  }

  /** On success there is one interval per VEVENT, in walk order: the k-th
      interval holds the normalised dates of the k-th event and the caller's
      label. Components that are not VEVENTs contribute nothing. */
  lemma {:induction false} ParseFeedIntervals(cs: seq<Component>, sourceName: string)
    requires ParseFeed(cs, sourceName).Success?
    ensures var ivs := ParseFeed(cs, sourceName).value;
      var es := Events(cs);
      |ivs| == |es|
      && forall k :: 0 <= k < |ivs| ==>
           Readable(es[k])
           && ivs[k] == Interval(ToDate(es[k].dtstart.value), ToDate(es[k].dtend.value), sourceName)
    decreases |cs|
  {
    if cs != [] {
      ParseFeedIntervals(cs[..|cs| - 1], sourceName);
    }
  }

  /** Every interval produced for a feed carries that feed's label. */
  lemma ParseFeedLabels(cs: seq<Component>, sourceName: string)
    requires ParseFeed(cs, sourceName).Success?
    ensures forall iv :: iv in ParseFeed(cs, sourceName).value ==> iv.source == sourceName
  {
    ParseFeedIntervals(cs, sourceName);
  }

  /** Parsing two stretches of a walk one after the other is parsing their
      concatenation: the intervals of the first come first, and an error in
      the first stretch is the error of the whole. */
  lemma {:induction false} ParseFeedAppend(xs: seq<Component>, ys: seq<Component>, sourceName: string)
    ensures ParseFeed(xs + ys, sourceName) ==
      match ParseFeed(xs, sourceName)
      case Failure(e) => Failure(e)
      case Success(a) =>
        match ParseFeed(ys, sourceName)
        case Failure(e) => Failure(e)
        case Success(b) => Success(a + b)
    decreases |ys|
  {
    if ys == [] {
      assert xs + ys == xs;
      match ParseFeed(xs, sourceName)
      case Failure(e) =>
      case Success(a) => assert a + [] == a;
    } else {
      var ys' := ys[..|ys| - 1];
      assert (xs + ys)[..|xs + ys| - 1] == xs + ys';
      ParseFeedAppend(xs, ys', sourceName);
      match ParseFeed(xs, sourceName)
      case Failure(e) =>
      case Success(a) =>
        match ParseFeed(ys', sourceName)
        case Failure(e) =>
        case Success(b) =>
          var last := ys[|ys| - 1];
          if IsEvent(last) && Readable(last) {
            var iv := ReadEvent(last, sourceName).value;
            assert a + b + [iv] == a + (b + [iv]);
          }
    }
  }

  /** A walk with no VEVENT at all (only a calendar and, say, time-zone
      definitions) parses to the empty list, not to an error. */
  lemma {:induction false} NoEventsNoIntervals(cs: seq<Component>, sourceName: string)
    requires forall i :: 0 <= i < |cs| ==> !IsEvent(cs[i])
    ensures ParseFeed(cs, sourceName) == Success([])
    decreases |cs|
  {
    if cs != [] {
      NoEventsNoIntervals(cs[..|cs| - 1], sourceName);
    }
  }
}
