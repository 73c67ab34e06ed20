/**
 * The events calendar of the dashboard (src/components/dashboard/EventsCalendar.tsx):
 * the events of the displayed month, the events of the selected day, the dots
 * drawn under each calendar day and the colour of an event type. Dates are
 * already-normalised (year, month, day) triples; `getFullYear`, `getMonth` and
 * `getDate` read their components.
 */
module EventsCalendar {
  import opened Lists
  import opened Palette
  import opened Wrappers

  datatype Date = Date(year: int, month: int, day: int)

  datatype EventType = Birthday | Activity | Holiday | Meeting

  datatype Event = Event(id: string, title: string, date: Date, kind: EventType, description: string)

  /** Same month of the same year. */
  predicate InMonth(e: Event, month: Date) {
    e.date.month == month.month && e.date.year == month.year
  }

  /** Same day, month and year. */
  predicate OnDay(e: Event, day: Date) {
    e.date.day == day.day && e.date.month == day.month && e.date.year == day.year
  }

  /** `eventsInSelectedMonth` */
  function EventsInMonth(events: seq<Event>, selectedMonth: Date): (r: seq<Event>)
    ensures IsSubsequence(r, events)
    ensures forall e :: e in r <==> e in events && e.date.month == selectedMonth.month && e.date.year == selectedMonth.year
    ensures forall e :: e in events && InMonth(e, selectedMonth) ==> multiset(r)[e] == multiset(events)[e]
  {
    Filter(events, e => InMonth(e, selectedMonth))
  }

  /** The events of one day, in input order (the filter shared by the day list and the day dots). */
  function EventsOnDay(events: seq<Event>, day: Date): (r: seq<Event>)
    ensures IsSubsequence(r, events)
    ensures forall e :: e in r <==> e in events && e.date == day
    ensures forall e :: e in events && e.date == day ==> multiset(r)[e] == multiset(events)[e]
  {
    Filter(events, e => OnDay(e, day))
  }

  /** `eventsOnSelectedDate`: nothing while no date is selected. */
  function EventsOnSelectedDate(events: seq<Event>, selectedDate: Option<Date>): (r: seq<Event>)
    ensures selectedDate.None? ==> r == []
    ensures selectedDate.Some? ==> r == EventsOnDay(events, selectedDate.value)
  {
    match selectedDate
    case None => []
    case Some(d) => EventsOnDay(events, d)
  }

  /** The events of a day are the events of its month narrowed to that day, in the same order. */
  lemma DayWithinMonth(events: seq<Event>, day: Date)
    ensures EventsOnDay(events, day) == Filter(EventsInMonth(events, day), e => OnDay(e, day))
    ensures IsSubsequence(EventsOnDay(events, day), EventsInMonth(events, day))
  {
    FilterFilter(events, e => InMonth(e, day), e => OnDay(e, day), e => OnDay(e, day));
  }

  /** `getEventTypeClass` */
  function EventTypeTone(kind: EventType): (r: Tone)
    ensures kind == Birthday ==> r == Pink
    ensures kind == Activity ==> r == Green
    ensures kind == Holiday ==> r == Red
    ensures kind == Meeting ==> r == Blue
  {
    match kind
    case Birthday => Pink
    case Activity => Green
    case Holiday => Red
    case Meeting => Blue
  }

  /** Each event type has its own colour, so a dot identifies its type. */
  lemma EventTypeToneInjective(a: EventType, b: EventType)
    ensures EventTypeTone(a) == EventTypeTone(b) <==> a == b
  {
  }

  /** The dots under a calendar day: typed dots for the first three events, and a grey overflow dot. */
  datatype Indicator = Indicator(dots: seq<Tone>, overflow: bool)

  /** `renderEventIndicator`: nothing on a day without events. */
  function DayIndicator(events: seq<Event>, day: Date): (r: Option<Indicator>)
    ensures r.None? <==> EventsOnDay(events, day) == []
    ensures r.Some? ==>
      var k := |EventsOnDay(events, day)|;
      && |r.value.dots| == (if k < 3 then k else 3)
      && (forall i :: 0 <= i < |r.value.dots| ==> r.value.dots[i] == EventTypeTone(EventsOnDay(events, day)[i].kind))
      && (r.value.overflow <==> k > 3)
  {
    var dayEvents := EventsOnDay(events, day);
    if |dayEvents| == 0 then None
    else
      var shown := dayEvents[..if |dayEvents| < 3 then |dayEvents| else 3];
      Some(Indicator(seq(|shown|, i requires 0 <= i < |shown| => EventTypeTone(shown[i].kind)), |dayEvents| > 3))
  }

  /** At most four dots are ever drawn under a day. */
  lemma IndicatorAtMostFourDots(events: seq<Event>, day: Date)
    ensures DayIndicator(events, day).Some? ==>
      |DayIndicator(events, day).value.dots| + (if DayIndicator(events, day).value.overflow then 1 else 0) <= 4
  {
  }

  /** One event on 15 June 2024 is listed for that day and not for the next. */
  lemma SelectedDateExample(e: Event)
    requires e.date == Date(2024, 6, 15)
    ensures EventsOnSelectedDate([e], Some(Date(2024, 6, 15))) == [e]
    ensures EventsOnSelectedDate([e], Some(Date(2024, 6, 16))) == []
  {
    FilterNone([e], e' => OnDay(e', Date(2024, 6, 16)));
  }
}
