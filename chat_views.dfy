/** The question endpoint: validates the question, interprets it, lets
    explicit query parameters override the inferred window, and answers
    with a usage total and hourly series or with a device ranking. */
module ChatViews {
  import opened Wrappers
  import opened Seqs
  import opened Instants
  import opened Nlp
  import opened Models
  import opened Aggregation

  /** The error responses of the endpoint. */
  datatype QueryError = MissingQuestion | MissingDevice | DeviceNotFound(slug: string)

  /** The HTTP status of an error response. */
  function Status(e: QueryError): (code: int)
    ensures code == 404 <==> e.DeviceNotFound?
    ensures code == 400 <==> !e.DeviceNotFound?
  {
    match e
    case MissingQuestion => 400
    case MissingDevice => 400
    case DeviceNotFound(_) => 404
  }

  /** The identity of a device as the reply shows it. */
  datatype DeviceInfo = DeviceInfo(id: nat, name: string, slug: string)

  /** A successful reply: the usage of one device, or the device ranking.
      Both echo the window that was applied. */
  datatype Reply =
    | UsageReply(device: DeviceInfo, window: Window, totalKwh: nat, series: seq<Point>)
    | RankingReply(window: Window, devices: seq<DeviceTotal>)

  /** `_parse_bounds`: a query parameter that is missing or empty gives no
      bound, and so does one that is not a date-time (`parse` stands for
      `parse_datetime`, which answers `None` then). */
  function ParseBounds(start: Option<string>, end: Option<string>, parse: string -> Option<Instant>): (b: Window)
    ensures b.start.Some? <==> start.Some? && start.value != "" && parse(start.value).Some?
    ensures b.end.Some? <==> end.Some? && end.value != "" && parse(end.value).Some?
    ensures b.start.Some? ==> b.start == parse(start.value)
    ensures b.end.Some? ==> b.end == parse(end.value)
  {
    Window(if start.Some? && start.value != "" then parse(start.value) else None,
           if end.Some? && end.value != "" then parse(end.value) else None)
  }

  /** The readings a usage answer adds up: those of device `d` in window `w`. */
  function UsageReadings(readings: seq<Reading>, d: Device, w: Window): seq<Reading> {
    Filter(Filter(readings, OfDevice(d.id)), Within(w))
  }

  /** The readings a ranking groups: those of the user's devices in window `w`. */
  function RankedReadings(devices: seq<Device>, readings: seq<Reading>, user: UserId, w: Window): seq<Reading> {
    Filter(Filter(readings, OfUser(devices, user)), Within(w))
  }

  /** `QueryView.post` for the requesting user. `now` is the current
      instant, `startParam` and `endParam` the raw `start` and `end` query
      parameters. An empty or missing question is refused before anything
      is parsed; each explicit bound replaces the inferred one on its own;
      a usage question needs a device slug and a device of the requesting
      user with that slug. */
  method Post(db: Store, user: UserId, question: Option<string>,
              startParam: Option<string>, endParam: Option<string>,
              parse: string -> Option<Instant>, now: Instant)
    returns (r: Result<Reply, QueryError>)
    requires db.Valid()
    ensures question.GetOr("") == "" ==> r == Failure(MissingQuestion)
    ensures r.Success? ==> question.GetOr("") != ""
    ensures var p := ParseQuery(question.GetOr(""), now);
      var b := ParseBounds(startParam, endParam, parse);
      r.Success? ==>
        && r.value.window.start == (if b.start.Some? then b.start else p.window.start)
        && r.value.window.end == (if b.end.Some? then b.end else p.window.end)
    ensures var p := ParseQuery(question.GetOr(""), now);
      question.GetOr("") != "" && p.intent == TotalUsage ==>
        if p.deviceSlug.None? then r == Failure(MissingDevice)
        else if FindDevice(db.devices, user, p.deviceSlug.value).None? then r == Failure(DeviceNotFound(p.deviceSlug.value))
        else
          var d := FindDevice(db.devices, user, p.deviceSlug.value).value;
          && r.Success? && r.value.UsageReply?
          && r.value.device == DeviceInfo(d.id, d.name, d.slug)
          && r.value.totalKwh == Total(UsageReadings(db.readings, d, r.value.window))
          && r.value.series == HourlySeries(UsageReadings(db.readings, d, r.value.window))
          && SeriesTotal(r.value.series) == r.value.totalKwh
          && OnlyDeviceWithSlug(db.devices, user, p.deviceSlug.value, d)
    ensures var p := ParseQuery(question.GetOr(""), now);
      question.GetOr("") != "" && p.intent == TopDevices ==>
        && r.Success? && r.value.RankingReply?
        && r.value.devices == RankDevices(VisibleDevices(db.devices, user),
                                          RankedReadings(db.devices, db.readings, user, r.value.window))
        && |r.value.devices| <= TOP_DEVICES
        && OneRowPerDevice(r.value.devices)
  {
    var q := question.GetOr("");
    if q == "" {
      return Failure(MissingQuestion);
    }

    var parsed := ParseQuery(q, now);
    var bounds := ParseBounds(startParam, endParam, parse);
    if bounds.start.Some? || bounds.end.Some? {
      parsed := parsed.(window := Window(
        if bounds.start.Some? then bounds.start else parsed.window.start,
        if bounds.end.Some? then bounds.end else parsed.window.end));
    }

    var intent, window, deviceSlug := parsed.intent, parsed.window, parsed.deviceSlug;

    if intent == TotalUsage {
      if deviceSlug.None? {
        return Failure(MissingDevice);
      }
      var found := FindDevice(db.devices, user, deviceSlug.value);
      if found.None? {
        return Failure(DeviceNotFound(deviceSlug.value));
      }
      FoundDeviceIsUnique(db.devices, user, deviceSlug.value);
      var reply := UsageAnswer(db, found.value, window);
      return Success(reply);
    }

    var reply := RankingAnswer(db, user, window);
    return Success(reply);
  }

  /** The usage branch: the device's readings narrowed to the window, their
      total and their hourly series, which adds up to the total. */
  method UsageAnswer(db: Store, device: Device, window: Window) returns (reply: Reply)
    ensures reply.UsageReply? && reply.window == window
    ensures reply.device == DeviceInfo(device.id, device.name, device.slug)
    ensures reply.totalKwh == Total(UsageReadings(db.readings, device, window))
    ensures reply.series == HourlySeries(UsageReadings(db.readings, device, window))
    ensures SeriesTotal(reply.series) == reply.totalKwh
  {
    var telemetry := Filter(db.readings, OfDevice(device.id));
    telemetry := FilterWindow(telemetry, window);
    var total := Total(telemetry);
    var series := HourlySeries(telemetry);
    HourlySeriesCorrect(telemetry);
    return UsageReply(DeviceInfo(device.id, device.name, device.slug), window, total, series);
  }

  /** The ranking branch: the user's readings narrowed to the window,
      grouped by the user's devices and ranked, one row per device. */
  method RankingAnswer(db: Store, user: UserId, window: Window) returns (reply: Reply)
    requires UniqueIds(db.devices)
    ensures reply.RankingReply? && reply.window == window
    ensures reply.devices == RankDevices(VisibleDevices(db.devices, user),
                                         RankedReadings(db.devices, db.readings, user, window))
    ensures |reply.devices| <= TOP_DEVICES
    ensures OneRowPerDevice(reply.devices)
  {
    var telemetry := Filter(db.readings, OfUser(db.devices, user));
    telemetry := FilterWindow(telemetry, window);
    var rows := RankDevices(VisibleDevices(db.devices, user), telemetry);
    RankingRowsDistinct(db.devices, telemetry, user);
    return RankingReply(window, rows);
  }

  /** `d` is the only device of `user` with slug `slug`. */
  predicate OnlyDeviceWithSlug(devices: seq<Device>, user: UserId, slug: string, d: Device) {
    forall e :: e in devices && e.user == user && e.slug == slug ==> e == d
  }

  /** With slugs unique per user, the device the lookup finds is the only
      one of that user with that slug. */
  lemma FoundDeviceIsUnique(devices: seq<Device>, user: UserId, slug: string)
    requires UniqueSlugs(devices)
    requires FindDevice(devices, user, slug).Some?
    ensures OnlyDeviceWithSlug(devices, user, slug, FindDevice(devices, user, slug).value)
  {
    forall e | e in devices && e.user == user && e.slug == slug
      ensures e == FindDevice(devices, user, slug).value
    {
      FindDeviceIsTheDevice(devices, user, slug, e);
    }
  }

  /** With device keys unique, the ranking of a user's devices names each
      device at most once. */
  lemma RankingRowsDistinct(devices: seq<Device>, readings: seq<Reading>, user: UserId)
    requires UniqueIds(devices)
    ensures OneRowPerDevice(RankDevices(VisibleDevices(devices, user), readings))
  {
    VisibleDevicesUniqueIds(devices, user);
    RankDevicesOneRowPerDevice(VisibleDevices(devices, user), readings);
  }

  /** Readings of devices the user does not own never reach a ranking:
      adding any number of them changes none of the readings it groups. */
  lemma RankedReadingsIgnoreOthers(devices: seq<Device>, readings: seq<Reading>, others: seq<Reading>,
                                   user: UserId, w: Window)
    requires forall i :: 0 <= i < |others| ==> !OwnedDevice(devices, user, others[i].device)
    ensures RankedReadings(devices, readings + others, user, w) == RankedReadings(devices, readings, user, w)
  {
    FilterConcat(readings, others, OfUser(devices, user));
    FilterKeepsNone(others, OfUser(devices, user));
    assert Filter(readings + others, OfUser(devices, user)) == Filter(readings, OfUser(devices, user));
  }

  /** Other users' devices change neither the devices a ranking lists nor
      the readings it groups. */
  lemma RankingIgnoresOtherUsersDevices(devices: seq<Device>, others: seq<Device>, readings: seq<Reading>,
                                        user: UserId, w: Window)
    requires forall i :: 0 <= i < |others| ==> others[i].user != user
    ensures VisibleDevices(devices + others, user) == VisibleDevices(devices, user)
    ensures RankedReadings(devices + others, readings, user, w) == RankedReadings(devices, readings, user, w)
  {
    FilterConcat(devices, others, OwnedBy(user));
    FilterKeepsNone(others, OwnedBy(user));
    forall i | 0 <= i < |readings|
      ensures OfUser(devices + others, user)(readings[i]) == OfUser(devices, user)(readings[i])
    {
      if OwnedDevice(devices + others, user, readings[i].device) {
        var j :| 0 <= j < |devices + others| && (devices + others)[j].id == readings[i].device
                 && (devices + others)[j].user == user;
        assert j < |devices|;
        assert devices[j] == (devices + others)[j];
      }
      if OwnedDevice(devices, user, readings[i].device) {
        var j :| 0 <= j < |devices| && devices[j].id == readings[i].device && devices[j].user == user;
        assert (devices + others)[j] == devices[j];
      }
    }
    FilterAgree(readings, OfUser(devices + others, user), OfUser(devices, user));
  }
}
