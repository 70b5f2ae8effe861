/** The rule-based query interpreter: lower-cased free text becomes a
    structured query (intent, device slug, time window) by scanning ordered
    keyword tables, first match wins. */
module Nlp {
  import opened Wrappers
  import opened Seqs
  import opened Text
  import opened Instants

  /** The two answers the interpreter can ask for. */
  datatype Intent = TotalUsage | TopDevices

  /** A canonical device slug with the surface forms that name it. */
  datatype DeviceEntry = DeviceEntry(slug: string, variants: seq<string>)

  /** The known devices, in the order they are tried. */
  const DEVICE_KEYWORDS: seq<DeviceEntry> := [
    DeviceEntry("ac", ["ac", "a/c", "air conditioner"]),
    DeviceEntry("fridge", ["fridge", "refrigerator"]),
    DeviceEntry("tv", ["tv", "television"]),
    DeviceEntry("heater", ["heater"]),
    DeviceEntry("washing-machine", ["washing machine", "washer"]),
    DeviceEntry("router", ["router", "wifi router"]),
    DeviceEntry("pump", ["pump", "water pump"])
  ]

  /** How a relative time phrase turns the current instant into a window. */
  datatype Resolver = Yesterday | Today | LastSevenDays | Last24Hours

  /** A relative time phrase and its resolver. */
  datatype TimeEntry = TimeEntry(phrase: string, resolver: Resolver)

  /** The relative time phrases, in the order they are tried. */
  const RELATIVE_KEYWORDS: seq<TimeEntry> := [
    TimeEntry("yesterday", Yesterday),
    TimeEntry("today", Today),
    TimeEntry("last week", LastSevenDays),
    TimeEntry("past week", LastSevenDays),
    TimeEntry("last 7 days", LastSevenDays),
    TimeEntry("last 24 hours", Last24Hours)
  ]

  /** The structured query handed to the aggregation. */
  datatype ParsedQuery = ParsedQuery(intent: Intent, deviceSlug: Option<string>, window: Window)

  /** Some surface form of the device occurs in `t`. */
  predicate Mentions(e: DeviceEntry, t: string) {
    exists i :: 0 <= i < |e.variants| && Occurs(e.variants[i], t)
  }

  function MentionsIn(t: string): DeviceEntry -> bool {
    (e: DeviceEntry) => Mentions(e, t)
  }

  function PhraseIn(t: string): TimeEntry -> bool {
    (e: TimeEntry) => Occurs(e.phrase, t)
  }

  /** `slug` is one of the canonical slugs of the device table. */
  predicate IsDeviceSlug(slug: string) {
    exists k :: 0 <= k < |DEVICE_KEYWORDS| && DEVICE_KEYWORDS[k].slug == slug
  }

  /** The slug of the first device, in table order, one of whose surface
      forms occurs in the lower-cased text; `None` when no device is named. */
  function ExtractDeviceSlug(text: string): (r: Option<string>)
    ensures r.None? <==> forall k :: 0 <= k < |DEVICE_KEYWORDS| ==> !Mentions(DEVICE_KEYWORDS[k], Lower(text))
    ensures r.Some? ==> exists k :: 0 <= k < |DEVICE_KEYWORDS| && DEVICE_KEYWORDS[k].slug == r.value
                         && Mentions(DEVICE_KEYWORDS[k], Lower(text))
                         && forall j :: 0 <= j < k ==> !Mentions(DEVICE_KEYWORDS[j], Lower(text))
    ensures r.Some? ==> IsDeviceSlug(r.value)
  {
    var t := Lower(text);
    var k := FirstIndex(DEVICE_KEYWORDS, MentionsIn(t));
    if k < |DEVICE_KEYWORDS| then Some(DEVICE_KEYWORDS[k].slug) else None
  }

  /** The window a resolver gives for the current instant `now`: it never
      reaches past `now` and never ends before it starts. */
  function Resolve(r: Resolver, now: Instant): (w: (Instant, Instant))
    ensures w.0 <= w.1 <= now
    ensures r == Yesterday ==> w.0 % DAY == 0 && w.1 == Midnight(now) && w.1 - w.0 == DAY
    ensures r == Today ==> w.0 == Midnight(now) && w.1 == now
    ensures r == LastSevenDays ==> w.1 == now && w.1 - w.0 == WEEK
    ensures r == Last24Hours ==> w.1 == now && w.1 - w.0 == 24 * HOUR
  {
    match r
    case Yesterday =>
      MidnightDayBefore(now);
      var s := Midnight(now - DAY);
      (s, s + DAY)
    case Today => (Midnight(now), now)
    case LastSevenDays => (now - WEEK, now)
    case Last24Hours => (now - 24 * HOUR, now)
  }

  /** The window of the first relative time phrase, in table order, that
      occurs in the lower-cased text; the unbounded window when none does. */
  function ExtractTimeRange(text: string, now: Instant): (w: Window)
    ensures w.start.Some? <==> w.end.Some?
    ensures w.start.None? <==> forall k :: 0 <= k < |RELATIVE_KEYWORDS| ==> !Occurs(RELATIVE_KEYWORDS[k].phrase, Lower(text))
    ensures w.start.Some? ==> w.start.value <= w.end.value <= now
    ensures w.start.Some? ==> exists k :: 0 <= k < |RELATIVE_KEYWORDS|
                               && Occurs(RELATIVE_KEYWORDS[k].phrase, Lower(text))
                               && (forall j :: 0 <= j < k ==> !Occurs(RELATIVE_KEYWORDS[j].phrase, Lower(text)))
                               && (w.start.value, w.end.value) == Resolve(RELATIVE_KEYWORDS[k].resolver, now)
  {
    var t := Lower(text);
    var k := FirstIndex(RELATIVE_KEYWORDS, PhraseIn(t));
    if k < |RELATIVE_KEYWORDS| then
      var (s, e) := Resolve(RELATIVE_KEYWORDS[k].resolver, now);
      Window(Some(s), Some(e))
    else
      Unbounded
  }

  /** The text asks for a ranking: it says "top", says "device", and says
      one of "most", "highest" or "consum". */
  predicate AsksForRanking(t: string) {
    Occurs("top", t) && Occurs("device", t)
    && (Occurs("most", t) || Occurs("highest", t) || Occurs("consum", t))
  }

  /** The intent of the text: a device ranking when it asks for one, the
      usage total of one device otherwise. Every text has an intent. */
  function DetectIntent(text: string): (r: Intent)
    ensures r == TopDevices <==> AsksForRanking(Lower(text))
    ensures r == TotalUsage <==> !AsksForRanking(Lower(text))
  {
    var t := Lower(text);
    assert Occurs("devices", t) ==> Occurs("device", t) by {
      if Occurs("devices", t) { OccursPrefix("device", "devices", t); }
    }
    if Occurs("top", t) && (Occurs("device", t) || Occurs("devices", t))
       && (Occurs("most", t) || Occurs("highest", t) || Occurs("consum", t))
    then TopDevices
    else TotalUsage
  }

  /** The structured query for `text` at the current instant `now`: the
      three extractors side by side, with no validation of their
      combination (a usage question without a device is passed on). */
  function ParseQuery(text: string, now: Instant): (q: ParsedQuery)
    ensures q.intent == TopDevices <==> AsksForRanking(Lower(text))
    ensures q.deviceSlug.Some? ==> IsDeviceSlug(q.deviceSlug.value)
    ensures q.deviceSlug.None? <==> forall k :: 0 <= k < |DEVICE_KEYWORDS| ==> !Mentions(DEVICE_KEYWORDS[k], Lower(text))
    ensures q.window.start.Some? <==> q.window.end.Some?
    ensures q.window.start.Some? ==> q.window.start.value <= q.window.end.value <= now
  {
    var intent := DetectIntent(text);
    var window := ExtractTimeRange(text, now);
    var deviceSlug := ExtractDeviceSlug(text);
    ParsedQuery(intent, deviceSlug, window)
  }

  /** Case does not matter to the interpreter: a text and its lower-cased
      form give the same query. */
  lemma ParseQueryIgnoresCase(text: string, now: Instant)
    ensures ParseQuery(Lower(text), now) == ParseQuery(text, now)
  {
    LowerIdempotent(text);
  }

  /** "ac" occurs inside "machine". */
  lemma MachineContainsAc(t: string)
    requires Occurs("machine", t)
    ensures Occurs("ac", t)
  {
    var i :| 0 <= i <= |t| && "machine" <= t[i..];
    var m := "machine";
    assert m[1] == 'a' && m[2] == 'c' && |m| == 7;
    assert t[i..][1] == 'a' && t[i..][2] == 'c';
    assert t[i + 1..i + 3] == [t[i..][1], t[i..][2]] == "ac";
    OccursAt("ac", t, i + 1);
  }

  /** First-match order in action: "machine" contains "ac", and the air
      conditioner is tried before the washing machine, so any text that
      mentions a washing machine is read as the air conditioner. */
  lemma WashingMachineReadsAsAc(text: string)
    requires Occurs("machine", Lower(text))
    ensures ExtractDeviceSlug(text) == Some("ac")
  {
    var t := Lower(text);
    MachineContainsAc(t);
    assert DEVICE_KEYWORDS[0].variants[0] == "ac";
    assert Mentions(DEVICE_KEYWORDS[0], t);
    FirstIndexUnique(DEVICE_KEYWORDS, MentionsIn(t), 0);
  }

  /** Without the letter "a" no surface form of the air conditioner occurs. */
  lemma NoAirConditioner(t: string)
    requires forall i :: 0 <= i < |t| ==> t[i] != 'a'
    ensures !Mentions(DEVICE_KEYWORDS[0], t)
  {
    var ac := DEVICE_KEYWORDS[0];
    assert ac.variants == ["ac", "a/c", "air conditioner"];
    AbsentFirstChar("ac", t);
    AbsentFirstChar("a/c", t);
    AbsentFirstChar("air conditioner", t);
  }

  /** A text that names the fridge and has no letter "a" (so no air
      conditioner) is about the fridge. */
  lemma FridgeWithoutA(text: string)
    requires Occurs("fridge", Lower(text))
    requires forall i :: 0 <= i < |text| ==> Lower(text)[i] != 'a'
    ensures ExtractDeviceSlug(text) == Some("fridge")
  {
    var t := Lower(text);
    NoAirConditioner(t);
    var fridge := DEVICE_KEYWORDS[1];
    assert fridge == DeviceEntry("fridge", ["fridge", "refrigerator"]);
    assert Occurs(fridge.variants[0], t);
    FirstIndexUnique(DEVICE_KEYWORDS, MentionsIn(t), 1);
  }

  lemma LowerFridgeSpellings()
    ensures Lower("FRIDGE") == "fridge"
    ensures Lower("My Fridge") == "my fridge"
  {
    assert LowerChar('F') == 'f' && LowerChar('R') == 'r' && LowerChar('I') == 'i';
    assert LowerChar('D') == 'd' && LowerChar('G') == 'g' && LowerChar('E') == 'e';
    assert LowerChar('M') == 'm';
  }

  /** A device is recognised whatever the case of its name. */
  lemma FridgeInAnyCase(text: string)
    requires text == "My Fridge" || text == "my fridge" || text == "FRIDGE"
    ensures ExtractDeviceSlug(text) == Some("fridge")
  {
    LowerFridgeSpellings();
    var t := Lower(text);
    assert t == "fridge" || t == "my fridge";
    OccursAt("fridge", t, |t| - 6);
    FridgeWithoutA(text);
  }

  /** "yesterday" is tried first, so any text that says it asks about the
      whole previous UTC day, which ends at the midnight of `now`'s day. */
  lemma YesterdayWins(text: string, now: Instant)
    requires Occurs("yesterday", Lower(text))
    ensures ExtractTimeRange(text, now) == Window(Some(Midnight(now) - DAY), Some(Midnight(now)))
  {
    var t := Lower(text);
    assert RELATIVE_KEYWORDS[0] == TimeEntry("yesterday", Yesterday);
    FirstIndexUnique(RELATIVE_KEYWORDS, PhraseIn(t), 0);
    var w := Resolve(Yesterday, now);
    assert w == (Midnight(now) - DAY, Midnight(now));
  }

  /** The appliance names the older entity extractor looks for, in order. */
  const DEVICES: seq<string> := ["fridge", "ac", "tv", "heater", "fan", "washing machine", "lights"]

  /** No appliance name is listed twice. */
  lemma DevicesDistinct()
    ensures Distinct(DEVICES)
  {
  }

  /** Devices and a calendar-date range found in a question. Dates are day
      numbers; the current date is a parameter. */
  datatype Entities = Entities(devices: seq<string>, startDate: Option<int>, endDate: Option<int>)

  function OccursIn(t: string): string -> bool {
    p => Occurs(p, t)
  }

  /** The older, separate extractor: every name of `DEVICES` that occurs in
      the lower-cased question, in `DEVICES` order and without repeats, and a
      date range that is never missing and never reversed. */
  method ExtractEntities(question: string, today: int) returns (entities: Entities)
    ensures entities.devices == Filter(DEVICES, OccursIn(Lower(question)))
    ensures Distinct(entities.devices)
    ensures entities.startDate.Some? && entities.endDate.Some?
    ensures entities.startDate.value <= entities.endDate.value <= today
    ensures var q := Lower(question);
      entities.startDate.value ==
        if Occurs("today", q) then today
        else if Occurs("yesterday", q) then today - 1
        else if Occurs("last week", q) then today - 7
        else if Occurs("last month", q) then today - 30
        else today
    ensures var q := Lower(question);
      entities.endDate.value == if !Occurs("today", q) && Occurs("yesterday", q) then today - 1 else today
    ensures var q := Lower(question);
      !Occurs("today", q) && !Occurs("yesterday", q) && !Occurs("last week", q) && !Occurs("last month", q)
      ==> entities.startDate == entities.endDate == Some(today)
  {
    entities := Entities([], None, None);
    var q := Lower(question);

    for i := 0 to |DEVICES|
      invariant entities.devices == Filter(DEVICES[..i], OccursIn(q))
      invariant entities.startDate == None && entities.endDate == None
    {
      FilterSnoc(DEVICES[..i], DEVICES[i], OccursIn(q));
      assert DEVICES[..i + 1] == DEVICES[..i] + [DEVICES[i]];
      if Occurs(DEVICES[i], q) {
        entities := entities.(devices := entities.devices + [DEVICES[i]]);
      }
    }
    assert DEVICES[..|DEVICES|] == DEVICES;

    if Occurs("today", q) {
      entities := entities.(startDate := Some(today), endDate := Some(today));
    } else if Occurs("yesterday", q) {
      var yesterday := today - 1;
      entities := entities.(startDate := Some(yesterday), endDate := Some(yesterday));
    } else if Occurs("last week", q) {
      var start := today - 7;
      entities := entities.(startDate := Some(start), endDate := Some(today));
    } else if Occurs("last month", q) {
      var start := today - 30;
      entities := entities.(startDate := Some(start), endDate := Some(today));
    }

    if entities.startDate.None? {
      entities := entities.(startDate := Some(today), endDate := Some(today));
    }

    DevicesDistinct();
    FilterDistinct(DEVICES, OccursIn(q));
  }
}
