/**
 * The chat endpoint (backend/main.py, `chat`): the greeting short-cut, then the
 * classification, the time extraction, the availability test and the decision table
 * over the intent, which picks at most one calendar write and the reply.
 *
 * `Respond` is the specification of one request as a value: the response and the one
 * write it asks of the calendar. `Chat` runs the request against a `Calendar` in the
 * order the source does and is proved to agree with `Respond`.
 */
module Main {
  import opened Wrappers
  import opened PyStr
  import opened Time
  import opened Agent
  import opened CalUtils

  const GREETINGS := ["hi", "hello", "heyy", "hey", "hai"]
  const WELCOME := "👋 Hello! I'm your AI meeting assistant. You can ask me to *book*, *check*, *cancel* or *reschedule* meetings!"
  const GREET: Json := JStr("greet")
  const NOT_UNDERSTOOD := "❌ Couldn't understand your request."
  const NEED_BOOK_TIME := "❌ Please specify a valid time to book the meeting."
  const NEED_CANCEL_TIME := "❌ Please specify the time of the meeting to cancel."
  const CANCELLED := "✅ Meeting cancelled."
  const NOT_IMPLEMENTED := "🔁 Rescheduling not implemented yet."

  /** The collaborators of one request: the language model (message to raw reply),
      the JSON decoder, the date parser and the two time renderings. */
  datatype Services = Services(classify: string -> string, decode: Decoder, parseDate: DateParser, fmt: Formats)

  /** What the endpoint answers: the reply, the intent and the decoded data, echoed back. */
  datatype Response = Response(reply: string, intent: Json, data: map<string, Json>)

  /** The intents the dispatcher acts on; every other intent value is `Unrecognised`. */
  datatype Intent = Book | Availability | Schedule | Cancel | Reschedule | Unrecognised

  /** The intent names the dispatcher compares against. */
  const INTENT_NAMES: set<string> :=
    {"book_meeting", "check_availability", "check_schedule", "cancel_meeting", "reschedule_meeting"}

  /** The `intent == "..."` tests of the dispatcher: only the five exact strings select
      a branch; "unknown", "greet", other strings and non-strings select none. */
  function IntentOf(v: Json): (i: Intent)
    ensures i == Unrecognised <==> !(v.JStr? && v.s in INTENT_NAMES)
    ensures i == Book <==> v == JStr("book_meeting")
    ensures i == Availability <==> v == JStr("check_availability")
    ensures i == Schedule <==> v == JStr("check_schedule")
    ensures i == Cancel <==> v == JStr("cancel_meeting")
    ensures i == Reschedule <==> v == JStr("reschedule_meeting")
  {
    if v == JStr("book_meeting") then Book
    else if v == JStr("check_availability") then Availability
    else if v == JStr("check_schedule") then Schedule
    else if v == JStr("cancel_meeting") then Cancel
    else if v == JStr("reschedule_meeting") then Reschedule
    else Unrecognised
  }

  /** The greeting short-cut: the lower-cased, stripped message is one of the greetings. */
  predicate IsGreeting(message: string)
  {
    Strip(Lower(message)) in GREETINGS
  }

  /** The reply to a booking that went through. */
  function BookedReply(fmt: Formats, start: Instant, end: Instant): string
  {
    "📅 Meeting booked on " + fmt.date(start) + " from " + fmt.clock(start) + " to " + fmt.clock(end) + "."
  }

  /** The branch the decision table picks: a fixed reply, a booking, a cancellation or
      the schedule listing. */
  datatype Action = Say(text: string) | Create(start: Instant, end: Instant) | Remove(start: Instant, end: Instant) | List

  /** The decision table over the intent, whether both times resolved and whether the slot is free. */
  function Decide(fmt: Formats, intent: Intent, slots: Slots, free: bool): (a: Action)
    ensures a.Create? <==> intent == Book && slots.Resolved() && free
    ensures a.Remove? <==> intent == Cancel && slots.Resolved()
    ensures a.List? <==> intent == Schedule
    ensures (a.Create? || a.Remove?) ==> slots.start == Some(a.start) && slots.end == Some(a.end)
    ensures intent == Book && !slots.Resolved() ==> a == Say(NEED_BOOK_TIME)
    ensures intent == Book && slots.Resolved() && !free ==> a == Say(SLOT_TAKEN)
    ensures intent == Availability ==> a == Say(ReplyAvailability(fmt, free, slots))
    ensures intent == Cancel && !slots.Resolved() ==> a == Say(NEED_CANCEL_TIME)
    ensures intent == Reschedule ==> a == Say(NOT_IMPLEMENTED)
    ensures intent == Unrecognised ==> a == Say(NOT_UNDERSTOOD)
  {
    match intent
    case Book =>
      if !slots.Resolved() then Say(NEED_BOOK_TIME)
      else if free then Create(slots.start.value, slots.end.value)
      else Say(ReplyUnavailable(slots))
    case Availability => Say(ReplyAvailability(fmt, free, slots))
    case Schedule => List
    case Cancel =>
      if slots.Resolved() then Remove(slots.start.value, slots.end.value) else Say(NEED_CANCEL_TIME)
    case Reschedule => Say(NOT_IMPLEMENTED)
    case Unrecognised => Say(NOT_UNDERSTOOD)
  }

  /** The one calendar write a request may make. */
  datatype Write = NoWrite | Insert(body: EventBody) | DeleteId(id: nat)

  datatype Outcome = Outcome(response: Response, write: Write)

  /** The free flag of `chat`: the availability query is asked only when both times resolved. */
  function FreeFlag(evs: seq<Event>, slots: Slots): (free: bool)
    ensures free <==> slots.Resolved() && forall e :: e in evs ==> !Overlaps(e, slots.start.value, slots.end.value)
  {
    if slots.Resolved() then CheckAvailability(evs, slots.start.value, slots.end.value) else false
  }

  /** One chat request against a calendar holding `evs`, at time `now`. */
  function Respond(svc: Services, evs: seq<Event>, now: Instant, message: string): (o: Outcome)
    ensures IsGreeting(message) ==> o == Outcome(Response(WELCOME, GREET, map[]), NoWrite)
    ensures !IsGreeting(message) ==>
      var c := ParseIntent(svc.decode, svc.classify(message));
      o.response.intent == c.intent && o.response.data == c.data
  {
    if IsGreeting(message) then
      Outcome(Response(WELCOME, GREET, map[]), NoWrite)
    else
      Dispatch(svc, evs, now, ParseIntent(svc.decode, svc.classify(message)))
  }

  /** A classified request: extract the times, test the slot, decide and carry out the action. */
  function Dispatch(svc: Services, evs: seq<Event>, now: Instant, c: Classified): (o: Outcome)
    ensures o.response.intent == c.intent && o.response.data == c.data
  {
    var slots := ExtractTimeSlots(svc.parseDate, c.data);
    var step := Perform(svc.fmt, evs, now, Decide(svc.fmt, IntentOf(c.intent), slots, FreeFlag(evs, slots)));
    Outcome(Response(step.reply, c.intent, c.data), step.write)
  }

  datatype Step = Step(reply: string, write: Write)

  /** What carrying out an action answers and writes: a booking inserts the default
      "Meeting" record; a cancellation deletes the first match, if any, and answers
      by the truth value of the text the cancellation returned. */
  function Perform(fmt: Formats, evs: seq<Event>, now: Instant, a: Action): Step
  {
    match a
    case Say(text) => Step(text, NoWrite)
    case Create(start, end) => Step(BookedReply(fmt, start, end), Insert(EventRecord(start, end)))
    case List => Step(ScheduleText(fmt, Upcoming(evs, now)), NoWrite)
    case Remove(start, end) =>
      var cancelled := CancelText(fmt, evs, start, end);
      var write := match Cancellation(evs, start, end)
        case None => NoWrite
        case Some(e) => DeleteId(e.id);
      Step(if cancelled != "" then CANCELLED else NO_MATCH, write)
  }

  /** The calendar after a write; an inserted event gets the identifier `next`. */
  function Apply(write: Write, evs: seq<Event>, next: nat): seq<Event>
  {
    match write
    case NoWrite => evs
    case Insert(body) => InsertByStart(evs, Stored(next, body))
    case DeleteId(id) => RemoveId(evs, id)
  }

  // ---------------------------------------------------------------------------
  // Properties of one request

  /** The parts of a non-greeting request the dispatcher decides on. */
  function Classify(svc: Services, message: string): Classified
  {
    ParseIntent(svc.decode, svc.classify(message))
  }

  function SlotsOf(svc: Services, message: string): Slots
  {
    ExtractTimeSlots(svc.parseDate, Classify(svc, message).data)
  }

  /** A booking inserts an event exactly when both times resolved and no event overlaps
      them; the event is a "Meeting" over exactly those times. An occupied slot gets
      the "not available" reply and an unresolved one the "specify a valid time" reply,
      both without a write. */
  lemma BookingRule(svc: Services, evs: seq<Event>, now: Instant, message: string)
    requires !IsGreeting(message) && IntentOf(Classify(svc, message).intent) == Book
    ensures var o := Respond(svc, evs, now, message);
      var w := SlotsOf(svc, message);
      && (o.write.Insert? <==> w.Resolved() && forall e :: e in evs ==> !Overlaps(e, w.start.value, w.end.value))
      && (o.write.Insert? ==>
            && o.write.body == EventRecord(w.start.value, w.end.value, DEFAULT_SUMMARY)
            && o.response.reply == BookedReply(svc.fmt, w.start.value, w.end.value))
      && (!w.Resolved() ==> o.response.reply == NEED_BOOK_TIME && o.write == NoWrite)
      && (w.Resolved() && !o.write.Insert? ==> o.response.reply == SLOT_TAKEN && o.write == NoWrite)
  {
    var w := SlotsOf(svc, message);
    var free := FreeFlag(evs, w);
    var a := Decide(svc.fmt, Book, w, free);
  }

  /** A cancellation with both times resolved always answers "✅ Meeting cancelled.",
      whether or not an event was deleted: both texts the cancellation can return are
      non-empty, so the "no meeting found" branch of the dispatcher is never taken.
      The write deletes the first matching event, or nothing when none matches. */
  lemma CancelAlwaysConfirms(svc: Services, evs: seq<Event>, now: Instant, message: string)
    requires !IsGreeting(message) && IntentOf(Classify(svc, message).intent) == Cancel
    requires SlotsOf(svc, message).Resolved()
    ensures var o := Respond(svc, evs, now, message);
      var w := SlotsOf(svc, message);
      && o.response.reply == CANCELLED
      && (match Cancellation(evs, w.start.value, w.end.value)
          case None => o.write == NoWrite
          case Some(e) => o.write == DeleteId(e.id))
  {
    var w := SlotsOf(svc, message);
    assert CancelText(svc.fmt, evs, w.start.value, w.end.value) != "";
  }

  /** A cancellation whose time did not resolve asks for the time and writes nothing. */
  lemma CancelNeedsTime(svc: Services, evs: seq<Event>, now: Instant, message: string)
    requires !IsGreeting(message) && IntentOf(Classify(svc, message).intent) == Cancel
    requires !SlotsOf(svc, message).Resolved()
    ensures Respond(svc, evs, now, message) == Outcome(Response(NEED_CANCEL_TIME, Classify(svc, message).intent, Classify(svc, message).data), NoWrite)
  {
    var w := SlotsOf(svc, message);
    assert Decide(svc.fmt, Cancel, w, FreeFlag(evs, w)) == Say(NEED_CANCEL_TIME);
  }

  /** Only a booking or a cancellation writes; the schedule request answers with the
      listing, and every other intent, "unknown" included, keeps its fixed reply. */
  lemma ReadOnlyIntents(svc: Services, evs: seq<Event>, now: Instant, message: string)
    requires !IsGreeting(message)
    ensures var o := Respond(svc, evs, now, message);
      var i := IntentOf(Classify(svc, message).intent);
      var w := SlotsOf(svc, message);
      && (o.write != NoWrite ==> i == Book || i == Cancel)
      && (i == Schedule ==> o.response.reply == ScheduleText(svc.fmt, Upcoming(evs, now)))
      && (i == Reschedule ==> o.response.reply == NOT_IMPLEMENTED)
      && (i == Availability ==> o.response.reply == ReplyAvailability(svc.fmt, FreeFlag(evs, w), w))
      && (i == Unrecognised ==> o.response.reply == NOT_UNDERSTOOD)
  {
    var c := Classify(svc, message);
    var w := SlotsOf(svc, message);
    var a := Decide(svc.fmt, IntentOf(c.intent), w, FreeFlag(evs, w));
  }

  /** The fallback classification, intent "unknown" with no data, gets the generic reply. */
  lemma UnknownIsNotUnderstood(svc: Services, evs: seq<Event>, now: Instant)
    ensures Dispatch(svc, evs, now, Classified(UNKNOWN, map[])) == Outcome(Response(NOT_UNDERSTOOD, UNKNOWN, map[]), NoWrite)
  {
    assert IntentOf(UNKNOWN) == Unrecognised;
    var w := ExtractTimeSlots(svc.parseDate, map[]);
    assert Decide(svc.fmt, Unrecognised, w, FreeFlag(evs, w)) == Say(NOT_UNDERSTOOD);
  }

  /** A classifier reply that does not decode to an object with an "intent" entry ends
      in the generic "couldn't understand your request" reply, with intent "unknown",
      empty data and no write. */
  lemma GarbageIsNotUnderstood(svc: Services, evs: seq<Event>, now: Instant, message: string)
    requires !IsGreeting(message) && !CarriesIntent(svc.decode(Requote(svc.classify(message))))
    ensures Respond(svc, evs, now, message) == Outcome(Response(NOT_UNDERSTOOD, UNKNOWN, map[]), NoWrite)
  {
    assert Classify(svc, message) == Classified(UNKNOWN, map[]);
    UnknownIsNotUnderstood(svc, evs, now);
  }

  /** Any single write changes a calendar with distinct identifiers by at most one
      event: nothing, one event inserted, or one event removed. */
  lemma WriteShape(write: Write, evs: seq<Event>, next: nat)
    requires UniqueIds(evs)
    ensures var after := Apply(write, evs, next);
      || after == evs
      || (exists k, e :: 0 <= k <= |evs| && after == evs[..k] + [e] + evs[k..])
      || (exists k :: 0 <= k < |evs| && after == evs[..k] + evs[k + 1..])
  {
    match write
    case NoWrite =>
    case Insert(body) =>
      var e := Stored(next, body);
      var k :| 0 <= k <= |evs| && InsertByStart(evs, e) == evs[..k] + [e] + evs[k..];
    case DeleteId(id) =>
      if k :| 0 <= k < |evs| && evs[k].id == id {
        RemoveIdSplice(evs, k);
      } else {
        RemoveIdAbsent(evs, id);
      }
  }

  /** A request changes the calendar by at most one event: nothing, one event inserted,
      or one event removed. */
  lemma AtMostOneWrite(svc: Services, evs: seq<Event>, now: Instant, message: string, next: nat)
    requires UniqueIds(evs)
    ensures var after := Apply(Respond(svc, evs, now, message).write, evs, next);
      || after == evs
      || (exists k, e :: 0 <= k <= |evs| && after == evs[..k] + [e] + evs[k..])
      || (exists k :: 0 <= k < |evs| && after == evs[..k] + evs[k + 1..])
  {
    WriteShape(Respond(svc, evs, now, message).write, evs, next);
  }

  // ---------------------------------------------------------------------------
  // The endpoint

  /** The booking branch of `chat`: book the slot if it resolved and is free. */
  method ActBook(cal: Calendar, fmt: Formats, slots: Slots, isFree: bool) returns (reply: string)
    requires cal.Valid()
    modifies cal
    ensures cal.Valid()
    ensures var step := Perform(fmt, old(cal.events), 0, Decide(fmt, Book, slots, isFree));
      reply == step.reply && cal.events == Apply(step.write, old(cal.events), old(cal.nextId))
  {
    if slots.Resolved() {
      if isFree {
        var _ := cal.CreateEvent(slots.start.value, slots.end.value);
        reply := BookedReply(fmt, slots.start.value, slots.end.value);
      } else {
        reply := ReplyUnavailable(slots);
      }
    } else {
      reply := NEED_BOOK_TIME;
    }
  }

  /** The cancel branch of `chat`: cancel at the slot if it resolved, and answer by the
      truth value of the text the cancellation returned. */
  method ActCancel(cal: Calendar, fmt: Formats, slots: Slots, isFree: bool) returns (reply: string)
    requires cal.Valid()
    modifies cal
    ensures cal.Valid()
    ensures var step := Perform(fmt, old(cal.events), 0, Decide(fmt, Cancel, slots, isFree));
      reply == step.reply && cal.events == Apply(step.write, old(cal.events), old(cal.nextId))
  {
    if slots.Resolved() {
      var cancelled := cal.CancelEventByTime(fmt, slots.start.value, slots.end.value);
      reply := if cancelled != "" then CANCELLED else NO_MATCH;
    } else {
      reply := NEED_CANCEL_TIME;
    }
  }

  /** The intent branches of `chat`, run against the calendar: the reply starts as
      "couldn't understand your request" and each branch replaces it. */
  method Act(cal: Calendar, fmt: Formats, now: Instant, intent: Intent, slots: Slots, isFree: bool)
    returns (reply: string)
    requires cal.Valid()
    modifies cal
    ensures cal.Valid()
    ensures var step := Perform(fmt, old(cal.events), now, Decide(fmt, intent, slots, isFree));
      reply == step.reply && cal.events == Apply(step.write, old(cal.events), old(cal.nextId))
  {
    reply := NOT_UNDERSTOOD;
    if intent == Book {
      reply := ActBook(cal, fmt, slots, isFree);
    } else if intent == Availability {
      reply := ReplyAvailability(fmt, isFree, slots);
    } else if intent == Schedule {
      reply := cal.ListEvents(fmt, now);
    } else if intent == Cancel {
      reply := ActCancel(cal, fmt, slots, isFree);
    } else if intent == Reschedule {
      reply := NOT_IMPLEMENTED;
    }
  }

  /** `chat`: answer one message, updating the calendar as the decision table says.
      The context the caller sends is not used. */
  method Chat(cal: Calendar, svc: Services, now: Instant, message: string, context: map<string, Json>)
    returns (resp: Response)
    requires cal.Valid()
    modifies cal
    ensures cal.Valid()
    ensures resp == Respond(svc, old(cal.events), now, message).response
    ensures cal.events == Apply(Respond(svc, old(cal.events), now, message).write, old(cal.events), old(cal.nextId))
  {
    if Strip(Lower(message)) in GREETINGS {
      return Response(WELCOME, GREET, map[]);
    }

    var c := ParseIntent(svc.decode, svc.classify(message));
    var slots := ExtractTimeSlots(svc.parseDate, c.data);

    var isFree: bool;
    if slots.Resolved() {
      isFree := CheckAvailability(cal.events, slots.start.value, slots.end.value);
    } else {
      isFree := false;
    }

    var reply := Act(cal, svc.fmt, now, IntentOf(c.intent), slots, isFree);
    resp := Response(reply, c.intent, c.data);
  }
}
