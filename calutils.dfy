/**
 * The calendar rules of the assistant (backend/cal_utils.py): the availability test,
 * the record a booking inserts, the upcoming-schedule listing and cancellation by time.
 *
 * The remote calendar is modelled as an in-memory `Calendar` holding its events in
 * start order, which is the order the listing query asks the service for. Times are
 * whole seconds on one time basis; the service's window query returns the events
 * that overlap the window.
 */
module CalUtils {
  import opened Wrappers
  import opened Time

  const DEFAULT_SUMMARY := "Meeting"
  const TIME_ZONE := "Asia/Kolkata"
  const DAY: int := 86400
  /** The listing looks this far ahead of now: three days. */
  const LOOKAHEAD: int := 3 * DAY
  /** The listing asks for at most this many events. */
  const MAX_RESULTS: nat := 10
  /** A cancellation matches an event starting strictly less than this many seconds away. */
  const TOLERANCE: int := 60

  const NO_EVENTS := "📭 No upcoming events found."
  const SCHEDULE_HEADER := "📅 Here are your upcoming meetings:\n"
  const NO_MATCH := "❌ No meeting found at that time to cancel."

  /** An event starts either at a time of day (`dateTime`) or on a whole day (`date`,
      held as the instant at which that day begins). */
  datatype EventStart = Timed(dateTime: Instant) | AllDay(date: Instant)
  {
    /** The instant the event begins, whichever form its start has. */
    function Begin(): Instant
    {
      match this
      case Timed(t) => t
      case AllDay(d) => d
    }
  }

  datatype Event = Event(id: nat, summary: string, start: EventStart, end: Instant)

  /** The service's window query: an event is returned when it overlaps [lo, hi). */
  predicate Overlaps(e: Event, lo: Instant, hi: Instant)
  {
    e.start.Begin() < hi && lo < e.end
  }

  predicate Sorted(evs: seq<Event>)
  {
    forall i, j :: 0 <= i < j < |evs| ==> evs[i].start.Begin() <= evs[j].start.Begin()
  }

  predicate UniqueIds(evs: seq<Event>)
  {
    forall i, j :: 0 <= i < j < |evs| ==> evs[i].id != evs[j].id
  }

  /** Every event of `evs` begins at or after `t`. */
  predicate AllFrom(t: Instant, evs: seq<Event>)
  {
    forall e :: e in evs ==> t <= e.start.Begin()
  }

  lemma SortedCons(x: Event, rest: seq<Event>)
    requires Sorted(rest) && AllFrom(x.start.Begin(), rest)
    ensures Sorted([x] + rest)
  {
    var s := [x] + rest;
    forall i, j | 0 <= i < j < |s| ensures s[i].start.Begin() <= s[j].start.Begin() {
      if i == 0 {
        assert s[j] in rest;
      } else {
        assert s[i] == rest[i - 1] && s[j] == rest[j - 1];
      }
    }
  }

  lemma SortedTail(evs: seq<Event>)
    requires Sorted(evs) && evs != []
    ensures Sorted(evs[1..]) && AllFrom(evs[0].start.Begin(), evs[1..])
  {
    forall e | e in evs[1..] ensures evs[0].start.Begin() <= e.start.Begin() {
      var k :| 0 <= k < |evs[1..]| && evs[1..][k] == e;
      assert evs[k + 1] == e;
    }
  }

  // ---------------------------------------------------------------------------
  // check_availability

  /** The window query: the events of `evs` that overlap [lo, hi), in calendar order. */
  function Query(evs: seq<Event>, lo: Instant, hi: Instant): (r: seq<Event>)
    ensures |r| <= |evs|
    ensures forall e :: e in r <==> e in evs && Overlaps(e, lo, hi)
  {
    if evs == [] then []
    else (if Overlaps(evs[0], lo, hi) then [evs[0]] else []) + Query(evs[1..], lo, hi)
  }

  /** The window query keeps the calendar's start order. */
  lemma {:induction false} QueryKeepsOrder(evs: seq<Event>, lo: Instant, hi: Instant)
    requires Sorted(evs)
    ensures Sorted(Query(evs, lo, hi))
    decreases |evs|
  {
    if evs != [] {
      SortedTail(evs);
      QueryKeepsOrder(evs[1..], lo, hi);
      var rest := Query(evs[1..], lo, hi);
      if Overlaps(evs[0], lo, hi) {
        SortedCons(evs[0], rest);
      } else {
        assert Query(evs, lo, hi) == rest;
      }
    }
  }

  /** `check_availability`: the slot is free exactly when no event overlaps it. */
  function CheckAvailability(evs: seq<Event>, start: Instant, end: Instant): (free: bool)
    ensures free <==> forall e :: e in evs ==> !Overlaps(e, start, end)
  {
    var found := Query(evs, start, end);
    assert found != [] ==> found[0] in found;
    |found| == 0
  }

  // ---------------------------------------------------------------------------
  // create_event

  datatype TimedField = TimedField(dateTime: Instant, timeZone: string)

  /** The body `create_event` sends to the service. */
  datatype EventBody = EventBody(summary: string, start: TimedField, end: TimedField)

  /** `create_event`'s record: the summary (by default "Meeting") and the two given
      times, both tagged with the Asia/Kolkata zone. */
  function EventRecord(start: Instant, end: Instant, summary: string := DEFAULT_SUMMARY): (b: EventBody)
    ensures b.summary == summary
    ensures b.start.dateTime == start && b.end.dateTime == end
    ensures b.start.timeZone == TIME_ZONE && b.end.timeZone == TIME_ZONE
  {
    EventBody(summary, TimedField(start, TIME_ZONE), TimedField(end, TIME_ZONE))
  }

  /** The event the service stores for an inserted body, under the identifier it assigns. */
  function Stored(id: nat, b: EventBody): Event
  {
    Event(id, b.summary, Timed(b.start.dateTime), b.end.dateTime)
  }

  /** Where an event beginning at `t` goes in a start-ordered calendar: after every
      event that begins no later than it. */
  function InsertionIndex(evs: seq<Event>, t: Instant): (k: nat)
    ensures k <= |evs|
    ensures forall i :: 0 <= i < k ==> evs[i].start.Begin() <= t
    ensures k < |evs| ==> t < evs[k].start.Begin()
  {
    if evs == [] || t < evs[0].start.Begin() then 0 else 1 + InsertionIndex(evs[1..], t)
  }

  /** The calendar after inserting `e`: `e` is added once, and the start order is kept. */
  function InsertByStart(evs: seq<Event>, e: Event): (r: seq<Event>)
    ensures multiset(r) == multiset(evs) + multiset{e}
    ensures exists k :: 0 <= k <= |evs| && r == evs[..k] + [e] + evs[k..]
  {
    var k := InsertionIndex(evs, e.start.Begin());
    assert evs == evs[..k] + evs[k..];
    evs[..k] + [e] + evs[k..]
  }

  /** Where each element of a splice comes from. */
  lemma SpliceIndices(evs: seq<Event>, k: nat, e: Event)
    requires k <= |evs|
    ensures var r := evs[..k] + [e] + evs[k..];
      && |r| == |evs| + 1 && r[k] == e
      && (forall i :: 0 <= i < k ==> r[i] == evs[i])
      && (forall i :: k < i < |r| ==> r[i] == evs[i - 1])
  {
  }

  /** Inserting keeps the calendar in start order. */
  lemma InsertKeepsOrder(evs: seq<Event>, e: Event)
    requires Sorted(evs)
    ensures Sorted(InsertByStart(evs, e))
  {
    var k := InsertionIndex(evs, e.start.Begin());
    var r := InsertByStart(evs, e);
    assert r == evs[..k] + [e] + evs[k..];
    SpliceIndices(evs, k, e);
    forall i, j | 0 <= i < j < |r| ensures r[i].start.Begin() <= r[j].start.Begin() {
      if j < k {
        assert r[i] == evs[i] && r[j] == evs[j];
      } else if j == k {
        assert r[i] == evs[i];
      } else if i < k {
        assert r[i] == evs[i] && r[j] == evs[j - 1];
      } else if i == k {
        assert r[j] == evs[j - 1];
      } else {
        assert r[i] == evs[i - 1] && r[j] == evs[j - 1];
      }
    }
  }

  /** Inserting an event whose identifier is above every present one keeps the
      identifiers distinct and below the next one. */
  lemma InsertKeepsIds(evs: seq<Event>, e: Event, next: nat)
    requires UniqueIds(evs) && (forall x :: x in evs ==> x.id < next) && e.id == next
    ensures UniqueIds(InsertByStart(evs, e))
    ensures forall x :: x in InsertByStart(evs, e) ==> x.id < next + 1
  {
    var k := InsertionIndex(evs, e.start.Begin());
    var r := InsertByStart(evs, e);
    assert r == evs[..k] + [e] + evs[k..];
    SpliceIndices(evs, k, e);
    forall i, j | 0 <= i < j < |r| ensures r[i].id != r[j].id {
      if i != k && j != k {
        var i', j' := if i < k then i else i - 1, if j < k then j else j - 1;
        assert r[i] == evs[i'] && r[j] == evs[j'];
      } else if i == k {
        assert r[j] == evs[j - 1] && evs[j - 1] in evs;
      } else {
        assert r[i] == evs[i] && evs[i] in evs;
      }
    }
    forall x | x in r ensures x.id < next + 1 {
      var i :| 0 <= i < |r| && r[i] == x;
      if i < k {
        assert evs[i] in evs;
      } else if i > k {
        assert evs[i - 1] in evs;
      }
    }
  }

  // ---------------------------------------------------------------------------
  // list_events

  /** The listing query: events overlapping the next three days, in start order, at most ten. */
  function Upcoming(evs: seq<Event>, now: Instant): (r: seq<Event>)
    ensures |r| <= MAX_RESULTS
    ensures forall e :: e in r ==> e in evs && Overlaps(e, now, now + LOOKAHEAD)
    ensures |Query(evs, now, now + LOOKAHEAD)| <= MAX_RESULTS ==> r == Query(evs, now, now + LOOKAHEAD)
    ensures r <= Query(evs, now, now + LOOKAHEAD)
    ensures |r| == if |Query(evs, now, now + LOOKAHEAD)| <= MAX_RESULTS then |Query(evs, now, now + LOOKAHEAD)| else MAX_RESULTS
  {
    var found := Query(evs, now, now + LOOKAHEAD);
    if |found| <= MAX_RESULTS then found
    else
      var r := found[..MAX_RESULTS];
      assert forall e :: e in r ==> e in found;
      r
  }

  /** The listing shows events in start order. */
  lemma UpcomingInStartOrder(evs: seq<Event>, now: Instant)
    requires Sorted(evs)
    ensures Sorted(Upcoming(evs, now))
  {
    QueryKeepsOrder(evs, now, now + LOOKAHEAD);
  }

  /** The listing shows the earliest of the overlapping events: none it leaves out
      begins before one it shows. */
  lemma UpcomingAreEarliest(evs: seq<Event>, now: Instant)
    requires Sorted(evs)
    ensures var found, listed := Query(evs, now, now + LOOKAHEAD), Upcoming(evs, now);
      forall i, j :: 0 <= i < |listed| <= j < |found| ==> listed[i].start.Begin() <= found[j].start.Begin()
  {
    var found, listed := Query(evs, now, now + LOOKAHEAD), Upcoming(evs, now);
    QueryKeepsOrder(evs, now, now + LOOKAHEAD);
    forall i, j | 0 <= i < |listed| <= j < |found| ensures listed[i].start.Begin() <= found[j].start.Begin() {
      assert listed[i] == found[i];
    }
  }

  /** One line of the listing: summary, then the start as date 'at' 12-hour clock
      (for an all-day event, the beginning of its day). */
  function EventLine(fmt: Formats, e: Event): string
  {
    "- " + e.summary + " on " + fmt.date(e.start.Begin()) + " at " + fmt.clock(e.start.Begin()) + "\n"
  }

  /** The lines for `evs`, in order. */
  function Lines(fmt: Formats, evs: seq<Event>): string
  {
    if evs == [] then "" else Lines(fmt, evs[..|evs| - 1]) + EventLine(fmt, evs[|evs| - 1])
  }

  /** The text `list_events` returns for the events the query gave it. */
  function ScheduleText(fmt: Formats, evs: seq<Event>): string
  {
    if evs == [] then NO_EVENTS else SCHEDULE_HEADER + Lines(fmt, evs)
  }

  function CountChar(s: string, c: char): nat
  {
    if s == [] then 0 else CountChar(s[..|s| - 1], c) + (if s[|s| - 1] == c then 1 else 0)
  }

  lemma {:induction false} CountCharAppend(a: string, b: string, c: char)
    ensures CountChar(a + b, c) == CountChar(a, c) + CountChar(b, c)
    decreases |b|
  {
    if b == [] {
      assert a + b == a;
    } else {
      assert (a + b)[..|a + b| - 1] == a + b[..|b| - 1];
      CountCharAppend(a, b[..|b| - 1], c);
    }
  }

  lemma {:induction false} CountCharAbsent(s: string, c: char)
    requires c !in s
    ensures CountChar(s, c) == 0
    decreases |s|
  {
    if s != [] {
      assert s[..|s| - 1] <= s;
      CountCharAbsent(s[..|s| - 1], c);
    }
  }

  /** The renderings and the summaries put no line break of their own into the listing. */
  ghost predicate SingleLine(fmt: Formats, evs: seq<Event>)
  {
    && (forall t :: '\n' !in fmt.date(t) && '\n' !in fmt.clock(t))
    && (forall e :: e in evs ==> '\n' !in e.summary)
  }

  /** Each event contributes exactly one line break to the listing. */
  lemma {:induction false} LinesCount(fmt: Formats, evs: seq<Event>)
    requires SingleLine(fmt, evs)
    ensures CountChar(Lines(fmt, evs), '\n') == |evs|
    decreases |evs|
  {
    if evs != [] {
      var init, last := evs[..|evs| - 1], evs[|evs| - 1];
      assert forall e :: e in init ==> e in evs;
      LinesCount(fmt, init);
      var b := last.start.Begin();
      var body := "- " + last.summary + " on " + fmt.date(b) + " at " + fmt.clock(b);
      assert EventLine(fmt, last) == body + "\n";
      CountCharAbsent("- ", '\n');
      CountCharAbsent(" on ", '\n');
      CountCharAbsent(" at ", '\n');
      CountCharAbsent(last.summary, '\n');
      CountCharAbsent(fmt.date(b), '\n');
      CountCharAbsent(fmt.clock(b), '\n');
      CountCharAppend("- ", last.summary, '\n');
      CountCharAppend("- " + last.summary, " on ", '\n');
      CountCharAppend("- " + last.summary + " on ", fmt.date(b), '\n');
      CountCharAppend("- " + last.summary + " on " + fmt.date(b), " at ", '\n');
      CountCharAppend("- " + last.summary + " on " + fmt.date(b) + " at ", fmt.clock(b), '\n');
      CountCharAppend(body, "\n", '\n');
      CountCharAppend(Lines(fmt, init), EventLine(fmt, last), '\n');
    }
  }

  /** The listing has one line per listed event after the header line, and none at
      all when nothing is listed; so it never shows more than ten events. */
  lemma ScheduleLineCount(fmt: Formats, evs: seq<Event>, now: Instant)
    requires SingleLine(fmt, evs)
    ensures var listed := Upcoming(evs, now);
      && CountChar(ScheduleText(fmt, listed), '\n') == (if listed == [] then 0 else |listed| + 1)
      && CountChar(ScheduleText(fmt, listed), '\n') <= MAX_RESULTS + 1
  {
    var listed := Upcoming(evs, now);
    if listed == [] {
      CountCharAbsent(NO_EVENTS, '\n');
    } else {
      LinesCount(fmt, listed);
      HeaderIsOneLine();
      CountCharAppend(SCHEDULE_HEADER, Lines(fmt, listed), '\n');
    }
  }

  /** The header of the listing is one line. */
  lemma HeaderIsOneLine()
    ensures CountChar(SCHEDULE_HEADER, '\n') == 1
  {
    assert SCHEDULE_HEADER == "📅 Here are your upcoming meetings:" + "\n";
    CountCharAbsent("📅 Here are your upcoming meetings:", '\n');
    CountCharAppend("📅 Here are your upcoming meetings:", "\n", '\n');
  }

  // ---------------------------------------------------------------------------
  // cancel_event_by_time

  /** The cancellation test: a timed event starting strictly less than a minute away
      from `t`. All-day events never match. */
  predicate Matches(e: Event, t: Instant)
  {
    e.start.Timed? && -TOLERANCE < e.start.dateTime - t < TOLERANCE
  }

  /** `evs[k]` matches and no earlier event does. */
  predicate IsFirstMatch(evs: seq<Event>, t: Instant, k: int)
  {
    0 <= k < |evs| && Matches(evs[k], t) && forall i :: 0 <= i < k ==> !Matches(evs[i], t)
  }

  /** The first event of `evs`, in order, that matches `t`. */
  function FirstMatch(evs: seq<Event>, t: Instant): (r: Option<Event>)
    ensures r.None? <==> forall e :: e in evs ==> !Matches(e, t)
    ensures r.Some? ==> exists k :: IsFirstMatch(evs, t, k) && evs[k] == r.value
  {
    if evs == [] then None
    else if Matches(evs[0], t) then
      assert IsFirstMatch(evs, t, 0);
      Some(evs[0])
    else
      var r := FirstMatch(evs[1..], t);
      if r.Some? then
        var k :| IsFirstMatch(evs[1..], t, k) && evs[1..][k] == r.value;
        assert IsFirstMatch(evs, t, k + 1);
        r
      else
        r
  }

  lemma FirstMatchStep(evs: seq<Event>, i: nat, t: Instant)
    requires i < |evs|
    ensures FirstMatch(evs[i..], t) == if Matches(evs[i], t) then Some(evs[i]) else FirstMatch(evs[i + 1..], t)
  {
    assert evs[i..][0] == evs[i] && evs[i..][1..] == evs[i + 1..];
  }

  /** The event a cancellation at [start, end) deletes, if any: the first match among
      the events the window query returns. */
  function Cancellation(evs: seq<Event>, start: Instant, end: Instant): Option<Event>
  {
    FirstMatch(Query(evs, start, end), start)
  }

  /** The reply naming the deleted event and its start time. */
  function CancelReply(fmt: Formats, e: Event): string
    requires e.start.Timed?
  {
    "🗑️ Event '" + e.summary + "' at " + fmt.clock(e.start.dateTime) + " cancelled."
  }

  /** The text `cancel_event_by_time` returns. */
  function CancelText(fmt: Formats, evs: seq<Event>, start: Instant, end: Instant): (r: string)
    ensures r != ""
  {
    match Cancellation(evs, start, end)
    case None => NO_MATCH
    case Some(e) => CancelReply(fmt, e)
  }

  /** A cancellation deletes only a timed event that overlaps the window and starts
      strictly within a minute of the requested start, and it is the first such event
      in the order the query returns them. */
  lemma CancellationIsFirstMatch(evs: seq<Event>, start: Instant, end: Instant)
    ensures match Cancellation(evs, start, end)
      case None => forall e :: e in evs && Overlaps(e, start, end) ==> !Matches(e, start)
      case Some(e) =>
        && e in evs && Overlaps(e, start, end)
        && e.start.Timed? && -TOLERANCE < e.start.dateTime - start < TOLERANCE
        && exists k :: IsFirstMatch(Query(evs, start, end), start, k) && Query(evs, start, end)[k] == e
  {
  }

  /** The events left after deleting the one with identifier `id`. */
  function RemoveId(evs: seq<Event>, id: nat): (r: seq<Event>)
    ensures forall e :: e in r <==> e in evs && e.id != id
  {
    if evs == [] then []
    else (if evs[0].id == id then [] else [evs[0]]) + RemoveId(evs[1..], id)
  }

  /** Deleting keeps the calendar in start order and its identifiers distinct. */
  lemma {:induction false} RemoveIdKeepsValid(evs: seq<Event>, id: nat)
    ensures Sorted(evs) ==> Sorted(RemoveId(evs, id))
    ensures UniqueIds(evs) ==> UniqueIds(RemoveId(evs, id))
    decreases |evs|
  {
    if evs != [] {
      var rest := RemoveId(evs[1..], id);
      RemoveIdKeepsValid(evs[1..], id);
      if evs[0].id == id {
        assert RemoveId(evs, id) == rest;
        if Sorted(evs) { SortedTail(evs); }
        if UniqueIds(evs) { UniqueTail(evs); }
      } else {
        if Sorted(evs) { SortedTail(evs); SortedCons(evs[0], rest); }
        if UniqueIds(evs) { UniqueTail(evs); UniqueCons(evs[0], rest); }
      }
    }
  }

  lemma UniqueTail(evs: seq<Event>)
    requires UniqueIds(evs) && evs != []
    ensures UniqueIds(evs[1..]) && forall e :: e in evs[1..] ==> e.id != evs[0].id
  {
    forall e | e in evs[1..] ensures e.id != evs[0].id {
      var k :| 0 <= k < |evs[1..]| && evs[1..][k] == e;
      assert evs[k + 1] == e;
    }
  }

  lemma UniqueCons(x: Event, rest: seq<Event>)
    requires UniqueIds(rest) && forall e :: e in rest ==> e.id != x.id
    ensures UniqueIds([x] + rest)
  {
    var s := [x] + rest;
    forall i, j | 0 <= i < j < |s| ensures s[i].id != s[j].id {
      if i == 0 {
        assert s[j] in rest;
      } else {
        assert s[i] == rest[i - 1] && s[j] == rest[j - 1];
      }
    }
  }

  /** With unique identifiers, deleting by the identifier of `evs[k]` removes exactly
      that one event and keeps the others in order. */
  lemma {:induction false} RemoveIdSplice(evs: seq<Event>, k: nat)
    requires UniqueIds(evs) && k < |evs|
    ensures RemoveId(evs, evs[k].id) == evs[..k] + evs[k + 1..]
    decreases |evs|
  {
    var id := evs[k].id;
    var rest := evs[1..];
    UniqueTail(evs);
    if k == 0 {
      RemoveIdAbsent(rest, id);
    } else {
      assert evs[0].id != id;
      assert rest[k - 1] == evs[k];
      RemoveIdSplice(rest, k - 1);
      DropAfterHead(evs, k);
    }
  }

  /** Dropping `evs[k]`, for `k > 0`, keeps the head in front. */
  lemma DropAfterHead(evs: seq<Event>, k: nat)
    requires 0 < k < |evs|
    ensures evs[..k] + evs[k + 1..] == [evs[0]] + (evs[1..][..k - 1] + evs[1..][k..])
  {
    assert evs[..k] == [evs[0]] + evs[1..][..k - 1];
  }

  lemma {:induction false} RemoveIdAbsent(evs: seq<Event>, id: nat)
    requires forall e :: e in evs ==> e.id != id
    ensures RemoveId(evs, id) == evs
    decreases |evs|
  {
    if evs != [] {
      assert forall e :: e in evs[1..] ==> e in evs;
      RemoveIdAbsent(evs[1..], id);
    }
  }

  // ---------------------------------------------------------------------------
  // The calendar service

  /** The calendar the assistant reads and writes. Events are kept in start order with
      distinct identifiers; `nextId` is the identifier the next insertion receives. */
  class Calendar {
    var events: seq<Event>
    var nextId: nat

    ghost predicate Valid()
      reads this
    {
      && Sorted(events)
      && UniqueIds(events)
      && forall e :: e in events ==> e.id < nextId
    }

    constructor ()
      ensures Valid() && events == [] && nextId == 0
    {
      events := [];
      nextId := 0;
    }

    /** `create_event`: build the record and insert it; the calendar gains exactly
        that event, at its place in start order, and nothing else changes. */
    method CreateEvent(start: Instant, end: Instant, summary: string := DEFAULT_SUMMARY) returns (created: Event)
      requires Valid()
      modifies this
      ensures Valid()
      ensures created == Stored(old(nextId), EventRecord(start, end, summary))
      ensures created !in old(events)
      ensures events == InsertByStart(old(events), created)
      ensures nextId == old(nextId) + 1
    {
      var body := EventRecord(start, end, summary);
      created := Stored(nextId, body);
      var r := InsertByStart(events, created);
      InsertKeepsOrder(events, created);
      InsertKeepsIds(events, created, nextId);
      events := r;
      nextId := nextId + 1;
    }

    /** The service's delete by identifier. */
    method Delete(id: nat)
      requires Valid()
      modifies this
      ensures Valid()
      ensures events == RemoveId(old(events), id) && nextId == old(nextId)
    {
      RemoveIdKeepsValid(events, id);
      events := RemoveId(events, id);
    }

    /** `list_events`: the fixed message when nothing is coming up in the next three
        days, otherwise the header and one line per listed event, in start order. */
    method ListEvents(fmt: Formats, now: Instant) returns (msg: string)
      ensures msg == ScheduleText(fmt, Upcoming(events, now))
    {
      var listed := Upcoming(events, now);
      if listed == [] {
        return NO_EVENTS;
      }
      msg := SCHEDULE_HEADER;
      for i := 0 to |listed|
        invariant msg == SCHEDULE_HEADER + Lines(fmt, listed[..i])
      {
        assert listed[..i + 1][..i] == listed[..i];
        msg := msg + EventLine(fmt, listed[i]);
      }
      assert listed[..|listed|] == listed;
    }

    /** `cancel_event_by_time`: walk the events the window query returns, skip all-day
        ones, and delete the first whose start is strictly within a minute of `start`,
        naming it in the reply; if none matches, nothing changes. */
    method CancelEventByTime(fmt: Formats, start: Instant, end: Instant) returns (reply: string)
      requires Valid()
      modifies this
      ensures Valid() && nextId == old(nextId)
      ensures reply == CancelText(fmt, old(events), start, end)
      ensures events == match Cancellation(old(events), start, end)
        case None => old(events)
        case Some(e) => RemoveId(old(events), e.id)
    {
      var found := Query(events, start, end);
      for i := 0 to |found|
        invariant events == old(events) && nextId == old(nextId)
        invariant FirstMatch(found, start) == FirstMatch(found[i..], start)
      {
        var e := found[i];
        FirstMatchStep(found, i, start);
        if !e.start.Timed? {
          continue;
        }
        if -TOLERANCE < e.start.dateTime - start < TOLERANCE {
          Delete(e.id);
          return CancelReply(fmt, e);
        }
      }
      assert found[|found|..] == [];
      reply := NO_MATCH;
    }
  }
}
