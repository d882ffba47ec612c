# Booking agent: a Dafny model of its decision and matching core

The booking agent is a chat backend for scheduling. A message goes to a language model, which
classifies it into an intent with a raw start and end. The backend decodes that reply
defensively and turns the raw times into instants with a date parser. It then asks a calendar
whether the slot is free and dispatches on the intent: book, check availability, list the
schedule, cancel, or reschedule (not implemented). Greetings are answered before any of this.

This project models that core in Dafny 4:

- `wrappers.dfy`: `Option`.
- `pystr.dfy` (module `PyStr`): the Python string operations the core relies on:
  `str.lower`, `str.strip` and `p in s`.
- `time.dfy` (module `Time`): the single time basis. An instant is whole seconds.
  `Formats` holds the two `strftime` renderings. `Slots` is the resolved start and end.
- `agent.dfy` (module `Agent`, `backend/langgraph_agent.py`): the defensive decode of the
  classifier's reply, `clean`, `extract_time_slots` and the two availability replies.
  Everything here is a pure function.
- `calutils.dfy` (module `CalUtils`, `backend/cal_utils.py`):
  - the availability test, the window query and the record `create_event` builds, as pure functions;
  - a `Calendar` class whose `events` sequence is the remote calendar, held in start order;
  - `CreateEvent`, `ListEvents` (a loop that builds the listing) and `CancelEventByTime`
    (a loop with `continue` and an early return that deletes), as methods.
- `main.dfy` (module `Main`, `backend/main.py`, `chat`):
  - `Decide` is the decision table.
  - `Respond` is the whole request as a value: the response plus at most one write.
  - `Chat` and `Act` run the request against a `Calendar` in the source's order. They are
    proved to agree with `Respond`.

The language model, `json.loads`, `dateparser.parse` and `strftime` are not part of this
model. They are function-valued parameters: the model's reply is `string -> string`, the
decoder is `string -> Option<Json>`, the date parser is `string -> Option<Instant>` and the
renderings are `Instant -> string`. The current time is a parameter `now`.

Two behaviours of the code are worth spelling out:

- `extract_time_slots` makes no start < end check. The model keeps both parsed times
  whatever their order.
- `chat` tests only whether the text `cancel_event_by_time` returned is truthy, and both
  texts it can return are non-empty. So the reply to a resolved cancel request is always
  "✅ Meeting cancelled.", even when nothing was deleted. `CancelAlwaysConfirms` states this.

## Model

| member | source | states |
|---|---|---|
| `Agent.ParseIntent` | backend/langgraph_agent.py:38-43 | Never fails. The data is empty exactly when the quote-normalised reply does not decode to an object with an "intent" key: a decode failure, a non-object or a missing key. Then the intent is "unknown". Otherwise the data is the whole decoded object and the intent is its "intent" entry. |
| `Agent.CleanText` | backend/langgraph_agent.py:49-52 | The result is lower-case, stripped and free of "next tomorrow". It is "day after tomorrow" exactly when the lower-cased, stripped text mentions "next tomorrow", and that lower-cased, stripped text otherwise. |
| `Agent.DayAfterTomorrowIsClean` | backend/langgraph_agent.py:50-51 | The replacement text is lower-case, stripped and does not contain "next tomorrow". |
| `Agent.Clean` | backend/langgraph_agent.py:46-52 | A value that is not a string, None included, is returned unchanged. A string comes back as the cleaned text, which is lower-case and stripped. |
| `Agent.CleanIdempotent` | backend/langgraph_agent.py:46-52 | Cleaning twice gives the same value as cleaning once. |
| `Agent.ParseSlot` | backend/langgraph_agent.py:57-58 | A null, missing or non-string raw value gives no instant. A string is parsed only after cleaning. |
| `Agent.CompleteSlots` | backend/langgraph_agent.py:60-66 | The start is kept. Both ends are resolved exactly when the start is. A start without an end gets an end 3600 s later. Otherwise the end is kept as parsed. |
| `Agent.ExtractTimeSlots` | backend/langgraph_agent.py:54-66 | The start is always the parsed start and is never derived from the end. A parsed end is kept as it is, with no order check against the start. When only the start parses, the end is exactly one hour (3600 s) after it. Both ends are resolved exactly when the start is. |
| `Agent.MissingStartUnresolved` | backend/langgraph_agent.py:54-58 | A missing, null or non-string start leaves the request unresolved, and the end is only the parsed end. |
| `Agent.ReplyAvailability` | backend/langgraph_agent.py:68-77 | With either end absent, the reply is the fixed "Couldn't understand the time" text, whatever the flag. With both present, the reply opens with "✅ You are free" or "❌ You are not available" as the flag says. |
| `Agent.AvailabilityRepliesDistinct` | backend/langgraph_agent.py:70-77 | For a resolved window, the free reply, the not-available reply and the "couldn't understand" reply are pairwise different. |
| `Agent.ReplyUnavailable` | backend/langgraph_agent.py:79-80 | The fixed "That slot is not available" text, whatever slots are passed. |
| `PyStr.Strip` | backend/langgraph_agent.py:49 | The result is the input with only leading and trailing whitespace cut off, and it has no whitespace at either end. It has no upper-case letter if the input had none. An already-stripped string is returned unchanged. |
| `PyStr.ContainsIff` | backend/langgraph_agent.py:50 | The substring test holds exactly when the phrase occurs at some position of the text. |
| `CalUtils.Query` | backend/cal_utils.py:15-20 | The window query returns exactly the calendar's events that overlap [start, end). |
| `CalUtils.CheckAvailability` | backend/cal_utils.py:14-21 | The slot is free exactly when no event of the calendar overlaps it. |
| `CalUtils.EventRecord` | backend/cal_utils.py:23-28 | The record carries the given summary ("Meeting" by default) and the given start and end, both tagged "Asia/Kolkata". |
| `CalUtils.InsertByStart` | backend/cal_utils.py:29 | The insert adds exactly the new event, once: the multiset of events grows by it, and the old events keep their order on either side of it. |
| `CalUtils.InsertKeepsOrder` | backend/cal_utils.py:29 | The insert keeps the calendar in start order. |
| `CalUtils.Calendar.CreateEvent` | backend/cal_utils.py:23-29 | The calendar gains exactly the built record, under a fresh identifier, at its place in start order. Nothing else changes. |
| `CalUtils.Upcoming` | backend/cal_utils.py:32-38 | The listing query returns the first 10 of the events overlapping the next three days, in query order, or all of them when at most 10 overlap. |
| `CalUtils.UpcomingAreEarliest` | backend/cal_utils.py:34-36 | No overlapping event left out of the listing begins before a listed one: the listing shows the earliest ten. |
| `CalUtils.UpcomingInStartOrder` | backend/cal_utils.py:34-36 | The listed events come in start order. |
| `CalUtils.ScheduleLineCount` | backend/cal_utils.py:40-48 | Line breaks in the listing: none when nothing is listed, which is the fixed "📭 No upcoming events found." text. Otherwise one for the header plus exactly one per listed event, so never more than 11. This holds when summaries and renderings are single-line. |
| `CalUtils.LinesCount` | backend/cal_utils.py:44-47 | Each listed event contributes exactly one line. |
| `CalUtils.Calendar.ListEvents` | backend/cal_utils.py:31-48 | Its loop builds exactly the listing text for the upcoming events: the empty message, or the header followed by one "- summary on date at time" line per event, in order. |
| `CalUtils.FirstMatch` | backend/cal_utils.py:65-71 | The first event, in order, that is timed and starts strictly less than 60 s from the requested start. There is none exactly when no event matches. Every earlier event fails to match. |
| `CalUtils.CancellationIsFirstMatch` | backend/cal_utils.py:58-73 | A cancellation only ever picks a timed event that overlaps the window, starts strictly within 60 s and is the first such event in the query's order. All-day events and an event exactly 60 s away are never picked. |
| `CalUtils.CancelText` | backend/cal_utils.py:65-75 | Both texts a cancellation can return, the "🗑️ Event … cancelled." reply and "❌ No meeting found…", are non-empty. |
| `CalUtils.RemoveId` | backend/cal_utils.py:72 | Deleting by identifier keeps exactly the events with other identifiers. |
| `CalUtils.RemoveIdKeepsValid` | backend/cal_utils.py:72 | Deleting keeps the start order and the identifiers distinct. |
| `CalUtils.RemoveIdSplice` | backend/cal_utils.py:72 | With distinct identifiers, deleting the identifier of the k-th event removes exactly that event and keeps the rest in order. |
| `CalUtils.Calendar.Delete` | backend/cal_utils.py:72 | The calendar loses the events with that identifier and keeps its invariant. |
| `CalUtils.Calendar.CancelEventByTime` | backend/cal_utils.py:53-75 | The loop skips all-day events and returns at the first match. It deletes exactly that event and replies with its name and time. With no match, nothing changes and the "No meeting found" text is returned. |
| `Main.IntentOf` | backend/main.py:59-82 | Each of the five exact intent strings selects its own branch, and only it does. "unknown", "greet", any other string and any non-string select none. |
| `Main.Decide` | backend/main.py:51-83 | The decision table. Book exactly for a resolved, free booking request; delete exactly for a resolved cancel request; list exactly for a schedule request. The fixed replies: unresolved booking, occupied slot, unresolved cancel, reschedule and unrecognised intent. The availability reply for an availability request. |
| `Main.FreeFlag` | backend/main.py:53-56 | The free flag holds exactly when both times resolved and no event overlaps them. An unresolved request is never "free". |
| `Main.Respond` | backend/main.py:34-85 | A greeting gets the fixed welcome reply, intent "greet", empty data and no write. Any other message echoes the classifier's intent and data unchanged. |
| `Main.Dispatch` | backend/main.py:46-85 | A classified request echoes its intent and data unchanged in the response, whatever the branch. |
| `Main.BookingRule` | backend/main.py:59-67 | A booking request creates an event exactly when both times resolved and the slot is free. The event is a "Meeting" over those times, and the reply is the booking confirmation. An occupied slot gets the unavailable reply and an unresolved time gets "Please specify a valid time…". Neither writes. |
| `Main.CancelAlwaysConfirms` | backend/main.py:75-78 | A resolved cancel request always replies "✅ Meeting cancelled.". The write deletes the first matching event, or nothing when none matches. |
| `Main.CancelNeedsTime` | backend/main.py:79-80 | An unresolved cancel request replies "Please specify the time…" and writes nothing. |
| `Main.ReadOnlyIntents` | backend/main.py:69-83 | Only booking and cancel requests write. The schedule request answers with the listing. Reschedule answers the placeholder. Availability answers the availability reply. Any other intent keeps "❌ Couldn't understand your request.". |
| `Main.ActBook` | backend/main.py:59-67 | The booking branch run against the calendar gives exactly the reply and the write the decision table prescribes for a booking. |
| `Main.ActCancel` | backend/main.py:75-80 | The cancel branch run against the calendar gives exactly the reply and the write the decision table prescribes for a cancellation. |
| `Main.UnknownIsNotUnderstood` | backend/main.py:51 | The fallback classification, intent "unknown" with no data, gets "❌ Couldn't understand your request." and no write. |
| `Main.GarbageIsNotUnderstood` | backend/main.py:46-51 | A classifier reply that does not decode to an object with an "intent" key ends in "❌ Couldn't understand your request.", with intent "unknown", empty data and no write. |
| `Main.AtMostOneWrite` | backend/main.py:58-83 | A request leaves the calendar unchanged, inserts exactly one event or removes exactly one event. |
| `Main.WriteShape` | backend/cal_utils.py:29 | On a calendar with distinct identifiers, any single write leaves it unchanged, inserts one event or removes exactly one event. |
| `Main.Act` | backend/main.py:51-83 | The intent branches, run against the calendar, give exactly the reply and the write that the decision table prescribes. |
| `Main.Chat` | backend/main.py:34-85 | The endpoint's response and the calendar afterwards agree with `Respond`. The caller's context is not used. |

## Left out

- The language-model call and its prompt (backend/langgraph_agent.py:12-17, 21-37). Its reply is the `classify` parameter. A failing call raises outside the `try` and surfaces as a transport error; this is not modelled.
- `json.loads` and `dateparser.parse` are parameters. JSON numbers are held as integers because the core never reads them. The date parser's notion of "now" lives inside the parameter.
- `strftime` is a parameter (`Formats`); calendar arithmetic on weekday and month names is not modelled.
- Time zones are not modelled. `check_availability` sends naive local times with a `Z` suffix, so it queries them as UTC. `list_events` sends `datetime.utcnow()` with a `Z` suffix, which is UTC. `cancel_event_by_time` localises naive times to Asia/Kolkata, and `create_event` tags them Asia/Kolkata. The model uses one time basis for all of them, so it does not capture the offset between these calls. `datetime.utcnow()` is the parameter `now`.
- `Agent.ExtractTimeSlots`: times are unbounded integers, so the model has no counterpart of `datetime`'s bounded range. In the source, `parsed_start + timedelta(hours=1)` (backend/langgraph_agent.py:61) raises OverflowError for a start within an hour of `datetime.max`. The model always gives the one-hour end.
- `total_seconds()` is fractional in the source. The model counts whole seconds.
- `PyStr.Lower` lowercases the ASCII letters only; Python's `str.lower` also lowercases other alphabets. `PyStr.Strip` removes exactly the characters for which Python's `str.isspace` holds.
- Event identifiers are natural numbers from a counter, not the service's strings.
- Events without a summary are not modelled: every event has one. In the source such an event makes `list_events` raise, and it makes `cancel_event_by_time` raise after the delete.
- Service behaviour beyond the window query is not modelled: paging (the availability and cancel queries set no page size), expansion of recurring events, and the service rejecting a window whose end is before its start. Network and credential failures (backend/cal_utils.py:1-12) are left out too. The availability and cancel queries set no order. The model returns their events in the calendar's start order.
- FastAPI response validation of a non-string intent (`intent: str`) is not modelled: the model echoes the decoded JSON value.
- The FastAPI app, CORS, the request and response classes, the health route (backend/main.py:1-32), the frontend and `print` logging are not modelled.
