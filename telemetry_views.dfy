/** The device REST endpoints: registering a device, posting and listing
    a device's readings, and a device's energy summary, all scoped to the
    requesting user. */
module TelemetryViews {
  import opened Wrappers
  import opened Seqs
  import opened Ranking
  import opened Text
  import opened Instants
  import opened Models
  import opened Aggregation

  /** The error responses: no such device for this user, a payload that
      fails validation, and an exception escaping the view. */
  datatype ApiError = NotFound | BadRequest | ServerError

  function Status(e: ApiError): (code: int)
    ensures 400 <= code < 600
    ensures code == 404 <==> e.NotFound?
    ensures code == 400 <==> e.BadRequest?
  {
    match e
    case NotFound => 404
    case BadRequest => 400
    case ServerError => 500
  }

  /** At most this many readings are listed. */
  const LISTING_CAP: nat := 1000
  const NAME_MAX_LENGTH: nat := 100
  const SLUG_MAX_LENGTH: nat := 120

  /** A character a slug may hold: an ASCII letter, a digit, `-` or `_`. */
  predicate SlugChar(c: char) {
    ('a' <= c <= 'z') || ('A' <= c <= 'Z') || ('0' <= c <= '9') || c == '-' || c == '_'
  }

  /** A device name the serializer accepts: not blank, at most 100
      characters, and no null character. */
  predicate ValidName(name: string) {
    0 < |name| <= NAME_MAX_LENGTH && forall i :: 0 <= i < |name| ==> name[i] != '\0'
  }

  /** A slug the serializer accepts: 1 to 120 slug characters. */
  predicate ValidSlug(slug: string) {
    0 < |slug| <= SLUG_MAX_LENGTH && forall i :: 0 <= i < |slug| ==> SlugChar(slug[i])
  }

  /** `perform_create`: the serializer strips surrounding whitespace from
      the name and the slug and validates what is left; a valid device is
      stored, stripped, with the requesting user as its owner and the next
      primary key. The serializer has no `user` field, so a second device
      of the same user with the same slug is refused only by the database
      constraint, which surfaces as an unhandled integrity error. */
  method PerformCreate(db: Store, user: UserId, name: string, slug: string)
    returns (r: Result<Device, ApiError>)
    requires db.Valid()
    modifies db
    ensures db.Valid()
    ensures db.readings == old(db.readings) && db.nextReadingId == old(db.nextReadingId)
    ensures !(ValidName(Strip(name)) && ValidSlug(Strip(slug))) ==> r == Failure(BadRequest)
    ensures ValidName(Strip(name)) && ValidSlug(Strip(slug)) && FindDevice(old(db.devices), user, Strip(slug)).Some?
      ==> r == Failure(ServerError)
    ensures r.Failure? ==> db.devices == old(db.devices) && db.nextDeviceId == old(db.nextDeviceId)
    ensures ValidName(Strip(name)) && ValidSlug(Strip(slug)) && FindDevice(old(db.devices), user, Strip(slug)).None?
      ==> && r == Success(Device(old(db.nextDeviceId), user, Strip(name), Strip(slug)))
          && db.devices == old(db.devices) + [r.value]
          && db.nextDeviceId == old(db.nextDeviceId) + 1
          && FindDevice(db.devices, user, Strip(slug)) == Some(r.value)
  {
    var name, slug := Strip(name), Strip(slug);
    if !(ValidName(name) && ValidSlug(slug)) {
      return Failure(BadRequest);
    }
    if FindDevice(db.devices, user, slug).Some? {
      return Failure(ServerError);
    }
    var device := Device(db.nextDeviceId, user, name, slug);
    FindDeviceAppend(db.devices, user, slug, device);
    AppendDeviceKeepsConstraints(db.devices, db.readings, db.nextDeviceId, device);
    db.devices := db.devices + [device];
    db.nextDeviceId := db.nextDeviceId + 1;
    return Success(device);
  }

  /** A valid slug padded with whitespace is accepted and stored without
      the padding, so it clashes with the unpadded slug. */
  lemma PaddedSlugIsStripped(pre: string, slug: string, post: string)
    requires ValidSlug(slug)
    requires forall i :: 0 <= i < |pre| ==> IsSpace(pre[i])
    requires forall i :: 0 <= i < |post| ==> IsSpace(post[i])
    ensures Strip(pre + slug + post) == slug && ValidSlug(Strip(pre + slug + post))
  {
    assert !IsSpace(slug[0]) && !IsSpace(slug[|slug| - 1]) by {
      assert SlugChar(slug[0]) && SlugChar(slug[|slug| - 1]);
    }
    StripPadding(pre, slug, post);
  }

  /** Appending a device under the next key, with a slug its owner does
      not have yet, keeps the device table's constraints, and every reading
      still has its device. */
  lemma AppendDeviceKeepsConstraints(devices: seq<Device>, readings: seq<Reading>, nextId: nat, d: Device)
    requires UniqueIds(devices) && UniqueSlugs(devices)
    requires forall i :: 0 <= i < |devices| ==> devices[i].id < nextId
    requires forall i :: 0 <= i < |readings| ==> HasDevice(devices, readings[i].device)
    requires d.id == nextId && FindDevice(devices, d.user, d.slug).None?
    ensures UniqueIds(devices + [d]) && UniqueSlugs(devices + [d])
    ensures forall i :: 0 <= i < |devices + [d]| ==> (devices + [d])[i].id < nextId + 1
    ensures forall i :: 0 <= i < |readings| ==> HasDevice(devices + [d], readings[i].device)
  {
    var all := devices + [d];
    forall i, j | 0 <= i < j < |all| && all[i].user == all[j].user ensures all[i].slug != all[j].slug {
      if j == |devices| {
        assert all[i] in devices;
      }
    }
    forall i | 0 <= i < |readings| ensures HasDevice(all, readings[i].device) {
      var j :| 0 <= j < |devices| && devices[j].id == readings[i].device;
      assert all[j] == devices[j];
    }
  }

  /** Appending a device of the user with a slug the user does not have yet
      makes the lookup by that slug find it. */
  lemma {:induction false} FindDeviceAppend(devices: seq<Device>, user: UserId, slug: string, d: Device)
    requires FindDevice(devices, user, slug).None?
    requires d.user == user && d.slug == slug
    ensures FindDevice(devices + [d], user, slug) == Some(d)
  {
    if devices == [] {
      assert devices + [d] == [d];
    } else {
      assert (devices + [d])[1..] == devices[1..] + [d];
      FindDeviceAppend(devices[1..], user, slug, d);
    }
  }

  /** A posted reading: its timestamp and energy, `None` where the field is
      missing or does not parse. The payload's own `device` field is never
      used. */
  datatype Payload = Payload(device: Option<nat>, timestamp: Option<Instant>, energy: Option<nat>)

  /** A POST to a device's `telemetry` action: the device must be one of
      the requesting user's, the payload must carry a timestamp and an
      energy, and the stored reading belongs to the device named in the
      URL whatever device the payload names. */
  method PostTelemetry(db: Store, user: UserId, pk: nat, payload: Payload)
    returns (r: Result<Reading, ApiError>)
    requires db.Valid()
    modifies db
    ensures db.Valid()
    ensures db.devices == old(db.devices) && db.nextDeviceId == old(db.nextDeviceId)
    ensures FindOwned(db.devices, user, pk).None? ==> r == Failure(NotFound)
    ensures FindOwned(db.devices, user, pk).Some? && (payload.timestamp.None? || payload.energy.None?)
      ==> r == Failure(BadRequest)
    ensures r.Failure? ==> db.readings == old(db.readings) && db.nextReadingId == old(db.nextReadingId)
    ensures FindOwned(db.devices, user, pk).Some? && payload.timestamp.Some? && payload.energy.Some?
      ==> && r == Success(Reading(old(db.nextReadingId), pk, payload.timestamp.value, payload.energy.value))
          && db.readings == old(db.readings) + [r.value]
          && db.nextReadingId == old(db.nextReadingId) + 1
  {
    var found := FindOwned(db.devices, user, pk);
    if found.None? {
      return Failure(NotFound);
    }
    var device := found.value;
    if payload.timestamp.None? || payload.energy.None? {
      return Failure(BadRequest);
    }
    var reading := Reading(db.nextReadingId, device.id, payload.timestamp.value, payload.energy.value);
    assert HasDevice(db.devices, device.id) by {
      var j :| 0 <= j < |db.devices| && db.devices[j] == device;
    }
    db.readings := db.readings + [reading];
    db.nextReadingId := db.nextReadingId + 1;
    return Success(reading);
  }

  /** One `start`/`end` query parameter of the device actions. A missing
      or empty one sets no bound; a non-empty one that does not parse
      reaches the queryset filter as `None`, which raises. */
  function Bound(param: Option<string>, parse: string -> Option<Instant>): (b: Result<Option<Instant>, ApiError>)
    ensures b.Failure? <==> param.Some? && param.value != "" && parse(param.value).None?
    ensures b.Failure? ==> b.error == ServerError
    ensures b.Success? && b.value.Some? ==> param.Some? && b.value == parse(param.value)
    ensures b.Success? && b.value.None? ==> param.None? || param.value == ""
  {
    if param.None? || param.value == "" then Success(None)
    else if parse(param.value).None? then Failure(ServerError)
    else Success(parse(param.value))
  }

  /** The window the two parameters select, or the error one of them raises. */
  function QueryWindow(start: Option<string>, end: Option<string>, parse: string -> Option<Instant>): (w: Result<Window, ApiError>)
    ensures w.Failure? <==> Bound(start, parse).Failure? || Bound(end, parse).Failure?
    ensures w.Success? ==> w.value == Window(Bound(start, parse).value, Bound(end, parse).value)
  {
    match (Bound(start, parse), Bound(end, parse))
    case (Success(s), Success(e)) => Success(Window(s, e))
    case (Failure(err), _) => Failure(err)
    case (_, Failure(err)) => Failure(err)
  }

  /** The readings of device `id` inside window `w`. */
  function DeviceWindow(readings: seq<Reading>, id: nat, w: Window): seq<Reading> {
    Filter(Filter(readings, OfDevice(id)), Within(w))
  }

  function Timestamp(r: Reading): int {
    r.timestamp
  }

  /** The listed readings: the device's readings in the window, newest
      first (the model's default ordering), cut at `LISTING_CAP`. */
  function Listing(readings: seq<Reading>, id: nat, w: Window): (l: seq<Reading>)
    ensures |l| == if |DeviceWindow(readings, id, w)| <= LISTING_CAP then |DeviceWindow(readings, id, w)| else LISTING_CAP
    ensures NonIncreasing(l, Timestamp)
    ensures forall i :: 0 <= i < |l| ==> l[i] in readings && l[i].device == id && InWindow(l[i].timestamp, w)
    ensures multiset(l) <= multiset(DeviceWindow(readings, id, w))
  {
    var rs := DeviceWindow(readings, id, w);
    var l := Top(rs, Timestamp, LISTING_CAP);
    assert forall i :: 0 <= i < |l| ==> l[i] in rs by {
      forall i | 0 <= i < |l| ensures l[i] in rs {
        assert l[i] in multiset(l);
      }
    }
    l
  }

  /** A reading of the device inside the window that the listing leaves
      out is no newer than any reading listed: the cut drops the oldest. */
  lemma ListingDropsOldest(readings: seq<Reading>, id: nat, w: Window, x: Reading)
    requires x in readings && x.device == id && InWindow(x.timestamp, w)
    ensures var l := Listing(readings, id, w);
      x in l || forall i :: 0 <= i < |l| ==> x.timestamp <= l[i].timestamp
  {
    var rs := DeviceWindow(readings, id, w);
    assert x in Filter(readings, OfDevice(id));
    assert x in rs;
    TopIsTop(rs, Timestamp, LISTING_CAP, x);
  }

  /** Below the cap, the listing holds every reading of the device in the
      window, each as often as it is stored. */
  lemma ListingCompleteBelowCap(readings: seq<Reading>, id: nat, w: Window)
    requires |DeviceWindow(readings, id, w)| <= LISTING_CAP
    ensures multiset(Listing(readings, id, w)) == multiset(DeviceWindow(readings, id, w))
  {
  }

  /** A GET on a device's `telemetry` action: the device's readings, filtered
      by the optional `start` and `end` parameters (both inclusive), newest
      first and at most `LISTING_CAP` of them. Nothing is changed. */
  method ListTelemetry(db: Store, user: UserId, pk: nat,
                       startParam: Option<string>, endParam: Option<string>,
                       parse: string -> Option<Instant>)
    returns (r: Result<seq<Reading>, ApiError>)
    ensures FindOwned(db.devices, user, pk).None? ==> r == Failure(NotFound)
    ensures FindOwned(db.devices, user, pk).Some? && QueryWindow(startParam, endParam, parse).Failure?
      ==> r == Failure(ServerError)
    ensures FindOwned(db.devices, user, pk).Some? && QueryWindow(startParam, endParam, parse).Success?
      ==> r == Success(Listing(db.readings, pk, QueryWindow(startParam, endParam, parse).value))
  {
    var found := FindOwned(db.devices, user, pk);
    if found.None? {
      return Failure(NotFound);
    }
    var device := found.value;
    var qs := Filter(db.readings, OfDevice(device.id));
    var start := Bound(startParam, parse);
    if start.Failure? {
      return Failure(start.error);
    }
    var end := Bound(endParam, parse);
    if end.Failure? {
      return Failure(end.error);
    }
    qs := FilterWindow(qs, Window(start.value, end.value));
    return Success(Top(qs, Timestamp, LISTING_CAP));
  }

  /** A reading posted to a device adds its energy to that device's
      summary over every window that contains its timestamp, and leaves
      the summary over any other window alone. */
  lemma PostedReadingCounted(readings: seq<Reading>, id: nat, w: Window, r: Reading)
    requires r.device == id
    ensures Total(DeviceWindow(readings + [r], id, w))
      == Total(DeviceWindow(readings, id, w)) + (if InWindow(r.timestamp, w) then r.energy else 0)
  {
    FilterSnoc(readings, r, OfDevice(id));
    FilterSnoc(Filter(readings, OfDevice(id)), r, Within(w));
    TotalConcat(DeviceWindow(readings, id, w), if InWindow(r.timestamp, w) then [r] else []);
  }

  /** A reading posted to another device changes no summary of this one. */
  lemma OtherDeviceNotCounted(readings: seq<Reading>, id: nat, w: Window, r: Reading)
    requires r.device != id
    ensures DeviceWindow(readings + [r], id, w) == DeviceWindow(readings, id, w)
  {
    FilterSnoc(readings, r, OfDevice(id));
    assert Filter(readings, OfDevice(id)) + [] == Filter(readings, OfDevice(id));
  }

  /** The reply of the `summary` action. */
  datatype SummaryReply = SummaryReply(deviceId: nat, totalKwh: nat)

  /** The `summary` action: the device's total energy inside the window,
      0 when no reading falls in it. Nothing is changed. */
  method Summary(db: Store, user: UserId, pk: nat,
                 startParam: Option<string>, endParam: Option<string>,
                 parse: string -> Option<Instant>)
    returns (r: Result<SummaryReply, ApiError>)
    ensures FindOwned(db.devices, user, pk).None? ==> r == Failure(NotFound)
    ensures FindOwned(db.devices, user, pk).Some? && QueryWindow(startParam, endParam, parse).Failure?
      ==> r == Failure(ServerError)
    ensures FindOwned(db.devices, user, pk).Some? && QueryWindow(startParam, endParam, parse).Success?
      ==> r == Success(SummaryReply(pk, Total(DeviceWindow(db.readings, pk, QueryWindow(startParam, endParam, parse).value))))
  {
    var found := FindOwned(db.devices, user, pk);
    if found.None? {
      return Failure(NotFound);
    }
    var device := found.value;
    var start := Bound(startParam, parse);
    var end := Bound(endParam, parse);
    var qs := Filter(db.readings, OfDevice(device.id));
    if start.Failure? || end.Failure? {
      return Failure(ServerError);
    }
    qs := FilterWindow(qs, Window(start.value, end.value));
    var total := Total(qs);
    return Success(SummaryReply(device.id, total));
  }

  /** Below the cap, the summary's total is the sum over the listed
      readings: the two actions agree on the same window. */
  lemma SummaryAgreesWithListing(readings: seq<Reading>, id: nat, w: Window)
    requires |DeviceWindow(readings, id, w)| <= LISTING_CAP
    ensures Total(Listing(readings, id, w)) == Total(DeviceWindow(readings, id, w))
  {
    ListingCompleteBelowCap(readings, id, w);
    TotalPermutation(Listing(readings, id, w), DeviceWindow(readings, id, w));
  }

  /** The total does not depend on the order of the readings. */
  lemma {:induction false} TotalPermutation(a: seq<Reading>, b: seq<Reading>)
    requires multiset(a) == multiset(b)
    ensures Total(a) == Total(b)
    decreases |a|
  {
    if a == [] {
      assert |b| == |multiset(b)| == 0;
    } else {
      var i, rest := MatchHead(a, b);
      TotalRemoveAt(b, i);
      TotalPermutation(a[1..], rest);
    }
  }

  /** Where two permutations of each other hold the first reading of one, and what is left of the other. */
  lemma MatchHead(a: seq<Reading>, b: seq<Reading>) returns (i: nat, rest: seq<Reading>)
    requires a != [] && multiset(a) == multiset(b)
    ensures i < |b| && b[i] == a[0] && rest == b[..i] + b[i+1..]
    ensures multiset(a[1..]) == multiset(rest)
  {
    assert a[0] in multiset(b);
    i :| 0 <= i < |b| && b[i] == a[0];
    rest := b[..i] + b[i+1..];
    MultisetRemoveAt(b, i);
    assert a == [a[0]] + a[1..];
    assert multiset(a[1..]) == multiset(a) - multiset{a[0]};
  }

  /** Taking out the reading at index `i` takes its energy out of the total. */
  lemma {:induction false} TotalRemoveAt(b: seq<Reading>, i: nat)
    requires i < |b|
    ensures Total(b) == b[i].energy + Total(b[..i] + b[i+1..])
  {
    if i == 0 {
      assert b[..0] + b[1..] == b[1..];
    } else {
      var tail := b[1..];
      TotalRemoveAt(tail, i - 1);
      assert tail[i - 1] == b[i];
      var rest := tail[..i - 1] + tail[i..];
      assert b[..i] + b[i+1..] == [b[0]] + rest;
      assert ([b[0]] + rest)[1..] == rest;
    }
  }

  /** Taking out the reading at index `i` takes one copy of it out of the multiset. */
  lemma MultisetRemoveAt(b: seq<Reading>, i: nat)
    requires i < |b|
    ensures multiset(b[..i] + b[i+1..]) == multiset(b) - multiset{b[i]}
  {
    assert b == b[..i] + [b[i]] + b[i+1..];
    assert multiset(b) == multiset(b[..i]) + multiset{b[i]} + multiset(b[i+1..]);
  }

  /** The total of two runs of readings is the sum of their totals. */
  lemma {:induction false} TotalConcat(a: seq<Reading>, b: seq<Reading>)
    ensures Total(a + b) == Total(a) + Total(b)
  {
    if a == [] {
      assert a + b == b;
    } else {
      assert (a + b)[1..] == a[1..] + b;
      TotalConcat(a[1..], b);
    }
  }
}
