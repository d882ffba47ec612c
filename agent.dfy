/**
 * The language side of the assistant (backend/langgraph_agent.py): turning the
 * classifier's raw reply into an intent and its data, turning the raw start and end
 * strings into instants, and the two availability replies.
 *
 * The language model itself, `json.loads` and `dateparser.parse` are not modelled:
 * the model's reply is an input string, and the decoder and the date parser are
 * partial functions passed in as parameters.
 */
module Agent {
  import opened Wrappers
  import opened PyStr
  import opened Time

  /** A decoded JSON value. Numbers are kept as integers; the core never inspects them. */
  datatype Json =
    | JNull
    | JBool(b: bool)
    | JNum(n: int)
    | JStr(s: string)
    | JArr(items: seq<Json>)
    | JObj(fields: map<string, Json>)

  /** `json.loads`: `None` wherever it raises. */
  type Decoder = string -> Option<Json>

  /** `dateparser.parse`: `None` wherever it cannot read a time. */
  type DateParser = string -> Option<Instant>

  /** What `parse_intent` returns: the intent value and the decoded data. */
  datatype Classified = Classified(intent: Json, data: map<string, Json>)

  const UNKNOWN: Json := JStr("unknown")

  // ---------------------------------------------------------------------------
  // parse_intent: the defensive decode of the classifier's reply

  /** The quote normalisation done before decoding: every `'` becomes `"`. */
  function Requote(text: string): (r: string)
    ensures |r| == |text|
    ensures forall i :: 0 <= i < |r| ==> r[i] != '\''
    ensures forall i :: 0 <= i < |r| && text[i] != '\'' ==> r[i] == text[i]
  {
    seq(|text|, i requires 0 <= i < |text| => if text[i] == '\'' then '"' else text[i])
  }

  /** The decode produced an object that has an "intent" key; anything else
      (a decode failure, a non-object, a missing key) makes the source raise. */
  predicate CarriesIntent(decoded: Option<Json>)
  {
    decoded.Some? && decoded.value.JObj? && "intent" in decoded.value.fields
  }

  /** `Agent.parse_intent` after the model has replied with `reply`. It never fails:
      either the whole decoded object comes back with its "intent" entry, or the
      fallback `("unknown", {})`. */
  function ParseIntent(decode: Decoder, reply: string): (c: Classified)
    ensures c.data == map[] <==> !CarriesIntent(decode(Requote(reply)))
    ensures c.data == map[] ==> c.intent == UNKNOWN
    ensures c.data != map[] ==>
      && decode(Requote(reply)) == Some(JObj(c.data))
      && "intent" in c.data && c.intent == c.data["intent"]
  {
    var decoded := decode(Requote(reply));
    if CarriesIntent(decoded) then
      assert "intent" in decoded.value.fields.Keys;
      Classified(decoded.value.fields["intent"], decoded.value.fields)
    else
      Classified(UNKNOWN, map[])
  }

  // ---------------------------------------------------------------------------
  // extract_time_slots and its inner clean

  const NEXT_TOMORROW := "next tomorrow"
  const DAY_AFTER_TOMORROW := "day after tomorrow"

  /** `clean` on a string: lower-case it, strip it, and replace the whole text by
      "day after tomorrow" if it mentions "next tomorrow". The result is always in
      normal form: lower-case, stripped, free of "next tomorrow". */
  function CleanText(text: string): (r: string)
    ensures NoUpper(r) && Stripped(r) && !Contains(r, NEXT_TOMORROW)
    ensures r == DAY_AFTER_TOMORROW || r == Strip(Lower(text))
    ensures Contains(Strip(Lower(text)), NEXT_TOMORROW) ==> r == DAY_AFTER_TOMORROW
    ensures !Contains(Strip(Lower(text)), NEXT_TOMORROW) ==> r == Strip(Lower(text))
  {
    var t := Strip(Lower(text));
    if Contains(t, NEXT_TOMORROW) then
      DayAfterTomorrowIsClean();
      DAY_AFTER_TOMORROW
    else
      t
  }

  /** The replacement text is itself in normal form. */
  lemma DayAfterTomorrowIsClean()
    ensures NoUpper(DAY_AFTER_TOMORROW) && Stripped(DAY_AFTER_TOMORROW)
    ensures !Contains(DAY_AFTER_TOMORROW, NEXT_TOMORROW)
  {
    assert NoUpper(DAY_AFTER_TOMORROW);
    assert Stripped(DAY_AFTER_TOMORROW);
    MissingFirstNotContained(DAY_AFTER_TOMORROW, NEXT_TOMORROW);
  }

  /** `clean`: strings are normalised, every other value (None included) is returned as it is. */
  function Clean(v: Json): (r: Json)
    ensures !v.JStr? ==> r == v
    ensures v.JStr? ==> r == JStr(CleanText(v.s)) && NoUpper(r.s) && Stripped(r.s)
  {
    match v
    case JStr(text) => JStr(CleanText(text))
    case _ => v
  }

  /** Cleaning twice is cleaning once. */
  lemma CleanIdempotent(v: Json)
    ensures Clean(Clean(v)) == Clean(v)
  {
    if v.JStr? {
      var r := CleanText(v.s);
      assert Lower(r) == r;
      assert Strip(r) == r;
    }
  }

  /** `dict.get`: a missing key reads as None. */
  function Field(entities: map<string, Json>, key: string): Json
  {
    if key in entities then entities[key] else JNull
  }

  /** One slot: clean the raw value, then hand it to the date parser only if it is a string. */
  function ParseSlot(parse: DateParser, raw: Json): (t: Option<Instant>)
    ensures !raw.JStr? ==> t.None?
    ensures raw.JStr? ==> t == parse(CleanText(raw.s))
  {
    match Clean(raw)
    case JStr(text) => parse(text)
    case _ => None
  }

  /** The defaulting step of `extract_time_slots`: a start that resolved alone gets an
      end one hour later; otherwise both parsed values are kept as they are. */
  function CompleteSlots(start: Option<Instant>, end: Option<Instant>): (w: Slots)
    ensures w.start == start
    ensures w.Resolved() <==> start.Some?
    ensures end.Some? || start.None? ==> w.end == end
    ensures start.Some? && end.None? ==> w.end.Some? && w.end.value == start.value + HOUR
  {
    if start.Some? && end.None? then Slots(start, Some(start.value + HOUR)) else Slots(start, end)
  }

  /** `Agent.extract_time_slots`, on unbounded times. The start is only ever the parsed
      start, and the end is the parsed end unless the start resolved alone, in which
      case it is one hour after the start. No order between start and end is checked. */
  function ExtractTimeSlots(parse: DateParser, entities: map<string, Json>): (w: Slots)
    ensures w.start == ParseSlot(parse, Field(entities, "start"))
    ensures w.Resolved() <==> w.start.Some?
    ensures var end := ParseSlot(parse, Field(entities, "end"));
      && (end.Some? || w.start.None? ==> w.end == end)
      && (w.start.Some? && end.None? ==> w.end.Some? && w.end.value == w.start.value + HOUR)
  {
    var start := ParseSlot(parse, Field(entities, "start"));
    var end := ParseSlot(parse, Field(entities, "end"));
    CompleteSlots(start, end)
  }

  /** A start that is missing, null or not a string leaves the request unresolved,
      whatever the end says. */
  lemma MissingStartUnresolved(parse: DateParser, entities: map<string, Json>)
    requires !Field(entities, "start").JStr?
    ensures !ExtractTimeSlots(parse, entities).Resolved()
    ensures ExtractTimeSlots(parse, entities).end == ParseSlot(parse, Field(entities, "end"))
  {
  }

  // ---------------------------------------------------------------------------
  // reply_availability and reply_unavailable

  const FREE_PHRASE := "✅ You are free"
  const BUSY_PHRASE := "❌ You are not available"
  // Written in two parts so that the proof below can read its third character.
  const TIME_NOT_UNDERSTOOD := "❌ Couldn't understand the time." + " Please try again."
  const SLOT_TAKEN := "That slot is not available. Please choose another time."

  predicate StartsWith(s: string, prefix: string)
  {
    |prefix| <= |s| && s[..|prefix|] == prefix
  }

  /** `Agent.reply_availability`: with both ends resolved the reply opens with the
      phrase the flag selects; otherwise it is the fixed "couldn't understand the time"
      text, whatever the flag. */
  function ReplyAvailability(fmt: Formats, free: bool, slots: Slots): (r: string)
    ensures !slots.Resolved() ==> r == TIME_NOT_UNDERSTOOD
    ensures slots.Resolved() ==> StartsWith(r, if free then FREE_PHRASE else BUSY_PHRASE)
  {
    if slots.Resolved() then
      (if free then FREE_PHRASE else BUSY_PHRASE) + " on " + fmt.date(slots.start.value)
      + " from " + fmt.clock(slots.start.value) + " to " + fmt.clock(slots.end.value) + "."
    else
      TIME_NOT_UNDERSTOOD
  }

  /** The three possible availability replies can be told apart. */
  lemma AvailabilityRepliesDistinct(fmt: Formats, slots: Slots)
    requires slots.Resolved()
    ensures ReplyAvailability(fmt, true, slots) != ReplyAvailability(fmt, false, slots)
    ensures ReplyAvailability(fmt, true, slots) != TIME_NOT_UNDERSTOOD
    ensures ReplyAvailability(fmt, false, slots) != TIME_NOT_UNDERSTOOD
  {
    var yes := ReplyAvailability(fmt, true, slots);
    var no := ReplyAvailability(fmt, false, slots);
    assert yes[0] == FREE_PHRASE[0] != BUSY_PHRASE[0] == no[0];
    assert no[2] == BUSY_PHRASE[2] == 'Y';
  }

  /** `Agent.reply_unavailable`: the fixed "slot not available" text; the slots are ignored. */
  function ReplyUnavailable(slots: Slots): (r: string)
    ensures r == SLOT_TAKEN
  {
    SLOT_TAKEN
  }
}
