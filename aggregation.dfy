/** The aggregation that answers a structured query over telemetry: the
    window filter, the usage total, the sparse hourly series and the
    per-device ranking. */
module Aggregation {
  import opened Wrappers
  import opened Seqs
  import opened Ranking
  import opened Instants
  import opened Models

  function Within(w: Window): Reading -> bool {
    (r: Reading) => InWindow(r.timestamp, w)
  }

  function NotBefore(start: Instant): Reading -> bool {
    (r: Reading) => start <= r.timestamp
  }

  function NotAfter(end: Instant): Reading -> bool {
    (r: Reading) => r.timestamp <= end
  }

  function OfDevice(id: nat): Reading -> bool {
    (r: Reading) => r.device == id
  }

  /** The device with primary key `id` is one of `user`'s. */
  predicate OwnedDevice(devices: seq<Device>, user: UserId, id: nat) {
    exists i :: 0 <= i < |devices| && devices[i].id == id && devices[i].user == user
  }

  /** A reading of one of the user's devices (`device__user=request.user`). */
  function OfUser(devices: seq<Device>, user: UserId): Reading -> bool {
    (r: Reading) => OwnedDevice(devices, user, r.device)
  }

  /** Narrows a telemetry query to a window one bound at a time, as the
      views do: a start keeps readings at or after it, an end keeps readings
      at or before it, and an absent bound keeps everything. The result is
      the single filter by `InWindow`, inclusive at both ends. */
  method FilterWindow(telemetry0: seq<Reading>, w: Window) returns (telemetry: seq<Reading>)
    ensures telemetry == Filter(telemetry0, Within(w))
  {
    telemetry := telemetry0;
    if w.start.Some? {
      telemetry := Filter(telemetry, NotBefore(w.start.value));
    }
    if w.end.Some? {
      telemetry := Filter(telemetry, NotAfter(w.end.value));
    }

    if w.start.Some? && w.end.Some? {
      FilterFilter(telemetry0, NotBefore(w.start.value), NotAfter(w.end.value), Within(w));
    } else if w.start.Some? {
      FilterAgree(telemetry0, NotBefore(w.start.value), Within(w));
    } else if w.end.Some? {
      FilterAgree(telemetry0, NotAfter(w.end.value), Within(w));
    } else {
      FilterKeepsAll(telemetry0, Within(w));
    }
  }

  /** The sum of the energy of the readings (`Sum(...) or 0`): no reading
      exceeds it, and it is 0 exactly when every reading, if any, has none. */
  function Total(rs: seq<Reading>): (t: nat)
    ensures forall i :: 0 <= i < |rs| ==> rs[i].energy <= t
    ensures t == 0 <==> forall i :: 0 <= i < |rs| ==> rs[i].energy == 0
  {
    if rs == [] then 0
    else
      var rest := Total(rs[1..]);
      assert forall i :: 1 <= i < |rs| ==> rs[i] == rs[1..][i - 1];
      rs[0].energy + rest
  }

  /** Narrowing a query never raises its total. */
  lemma {:induction false} TotalOfFilterAtMost(rs: seq<Reading>, p: Reading -> bool)
    ensures Total(Filter(rs, p)) <= Total(rs)
  {
    if rs != [] {
      TotalOfFilterAtMost(rs[1..], p);
      var f := Filter(rs, p);
      if p(rs[0]) {
        assert f[0] == rs[0] && f[1..] == Filter(rs[1..], p);
      } else {
        assert f == Filter(rs[1..], p);
      }
    }
  }

  // ---------------------------------------------------------------------
  // The hourly series

  /** One entry of the series: the start of an hour and the energy of the
      readings in that hour. */
  datatype Point = Point(hour: Instant, kwh: nat)

  predicate StrictlyAscending(s: seq<Point>) {
    forall i, j :: 0 <= i < j < |s| ==> s[i].hour < s[j].hour
  }

  /** The hours that have an entry. */
  function Hours(s: seq<Point>): set<Instant> {
    set i | 0 <= i < |s| :: s[i].hour
  }

  /** The hours that contain at least one reading. */
  function ReadingHours(rs: seq<Reading>): set<Instant> {
    set i | 0 <= i < |rs| :: HourOf(rs[i].timestamp)
  }

  /** The energy of the readings whose hour starts at `h`. */
  function HourTotal(rs: seq<Reading>, h: Instant): nat {
    if rs == [] then 0
    else (if HourOf(rs[0].timestamp) == h then rs[0].energy else 0) + HourTotal(rs[1..], h)
  }

  /** The energy the series records for hour `h`. */
  function KwhAt(s: seq<Point>, h: Instant): nat {
    if s == [] then 0
    else (if s[0].hour == h then s[0].kwh else 0) + KwhAt(s[1..], h)
  }

  /** The energy of the whole series. */
  function SeriesTotal(s: seq<Point>): nat {
    if s == [] then 0 else s[0].kwh + SeriesTotal(s[1..])
  }

  /** Adds `e` to hour `h` of an ascending series, opening an entry for `h`
      at its place when there is none. */
  function AddToSeries(s: seq<Point>, h: Instant, e: nat): (r: seq<Point>)
    ensures r != []
    ensures r[0].hour == h || (s != [] && r[0].hour == s[0].hour)
    ensures |s| <= |r| <= |s| + 1
  {
    if s == [] then [Point(h, e)]
    else if h < s[0].hour then [Point(h, e)] + s
    else if h == s[0].hour then [Point(h, s[0].kwh + e)] + s[1..]
    else [s[0]] + AddToSeries(s[1..], h, e)
  }

  /** Grouping by hour (`TruncHour`, `values("h").order_by("h")`,
      `annotate(kwh=Sum(...))`): the readings folded into an ascending
      series, one entry per hour that has a reading. */
  function HourlySeries(rs: seq<Reading>): (s: seq<Point>)
    ensures |s| <= |rs|
    ensures s == [] <==> rs == []
  {
    if rs == [] then []
    else AddToSeries(HourlySeries(rs[1..]), HourOf(rs[0].timestamp), rs[0].energy)
  }

  lemma {:induction false} AddToSeriesAscending(s: seq<Point>, h: Instant, e: nat)
    requires StrictlyAscending(s)
    ensures StrictlyAscending(AddToSeries(s, h, e))
  {
    var r := AddToSeries(s, h, e);
    if s != [] && h > s[0].hour {
      var tail := s[1..];
      AddToSeriesAscending(tail, h, e);
      var rest := AddToSeries(tail, h, e);
      assert s[0].hour < rest[0].hour by {
        if tail != [] { assert tail[0] == s[1]; }
      }
      forall i, j | 0 <= i < j < |r| ensures r[i].hour < r[j].hour {
        if i == 0 {
          if j > 1 { assert rest[0].hour < rest[j - 1].hour; }
        } else {
          assert r[i] == rest[i - 1] && r[j] == rest[j - 1];
        }
      }
    } else if s != [] && h < s[0].hour {
      forall i, j | 0 <= i < j < |r| ensures r[i].hour < r[j].hour {
        if i == 0 {
          assert j == 1 || s[0].hour < s[j - 1].hour;
        } else {
          assert r[i] == s[i - 1] && r[j] == s[j - 1];
        }
      }
    } else if s != [] {
      forall i, j | 0 <= i < j < |r| ensures r[i].hour < r[j].hour {
        assert r[i].hour == s[i].hour && r[j].hour == s[j].hour;
      }
    }
  }

  lemma {:induction false} AddToSeriesContents(s: seq<Point>, h: Instant, e: nat)
    ensures Hours(AddToSeries(s, h, e)) == Hours(s) + {h}
    ensures forall g :: KwhAt(AddToSeries(s, h, e), g) == KwhAt(s, g) + (if g == h then e else 0)
    ensures SeriesTotal(AddToSeries(s, h, e)) == SeriesTotal(s) + e
  {
    var r := AddToSeries(s, h, e);
    if s == [] {
    } else if h < s[0].hour {
      assert r[1..] == s;
      assert Hours(r) == {h} + Hours(s) by {
        forall g | g in Hours(r) ensures g in {h} + Hours(s) {
          var i :| 0 <= i < |r| && r[i].hour == g;
          if i > 0 { assert s[i - 1].hour == g; }
        }
        forall g | g in Hours(s) ensures g in Hours(r) {
          var i :| 0 <= i < |s| && s[i].hour == g;
          assert r[i + 1].hour == g;
        }
      }
    } else if h == s[0].hour {
      assert r[1..] == s[1..];
      assert Hours(r) == Hours(s) by {
        forall g | g in Hours(r) ensures g in Hours(s) {
          var i :| 0 <= i < |r| && r[i].hour == g;
          assert s[i].hour == g;
        }
        forall g | g in Hours(s) ensures g in Hours(r) {
          var i :| 0 <= i < |s| && s[i].hour == g;
          assert r[i].hour == g;
        }
      }
    } else {
      var tail := s[1..];
      AddToSeriesContents(tail, h, e);
      var rest := AddToSeries(tail, h, e);
      assert r[0] == s[0] && r[1..] == rest;
      assert Hours(r) == {s[0].hour} + Hours(rest) by {
        forall g | g in Hours(r) ensures g in {s[0].hour} + Hours(rest) {
          var i :| 0 <= i < |r| && r[i].hour == g;
          if i > 0 { assert rest[i - 1].hour == g; }
        }
        forall g | g in Hours(rest) ensures g in Hours(r) {
          var i :| 0 <= i < |rest| && rest[i].hour == g;
          assert r[i + 1].hour == g;
        }
      }
      assert Hours(s) == {s[0].hour} + Hours(tail) by {
        forall g | g in Hours(s) ensures g in {s[0].hour} + Hours(tail) {
          var i :| 0 <= i < |s| && s[i].hour == g;
          if i > 0 { assert tail[i - 1].hour == g; }
        }
        forall g | g in Hours(tail) ensures g in Hours(s) {
          var i :| 0 <= i < |tail| && tail[i].hour == g;
          assert s[i + 1].hour == g;
        }
      }
    }
  }

  /** In an ascending series each entry holds all the energy recorded for
      its hour. */
  lemma {:induction false} KwhAtEntry(s: seq<Point>, i: nat)
    requires StrictlyAscending(s) && i < |s|
    ensures KwhAt(s, s[i].hour) == s[i].kwh
  {
    if i == 0 {
      KwhAtAbsent(s[1..], s[0].hour);
    } else {
      assert s[1..][i - 1] == s[i];
      KwhAtEntry(s[1..], i - 1);
    }
  }

  /** An ascending series records nothing for an hour before its first. */
  lemma {:induction false} KwhAtAbsent(s: seq<Point>, h: Instant)
    requires StrictlyAscending(s)
    requires forall i :: 0 <= i < |s| ==> h < s[i].hour
    ensures KwhAt(s, h) == 0
  {
    if s != [] { KwhAtAbsent(s[1..], h); }
  }

  lemma {:induction false} HourlySeriesAscending(rs: seq<Reading>)
    ensures StrictlyAscending(HourlySeries(rs))
  {
    if rs != [] {
      HourlySeriesAscending(rs[1..]);
      AddToSeriesAscending(HourlySeries(rs[1..]), HourOf(rs[0].timestamp), rs[0].energy);
    }
  }

  lemma {:induction false} HourlySeriesSums(rs: seq<Reading>)
    ensures Hours(HourlySeries(rs)) == ReadingHours(rs)
    ensures forall g :: KwhAt(HourlySeries(rs), g) == HourTotal(rs, g)
    ensures SeriesTotal(HourlySeries(rs)) == Total(rs)
  {
    if rs != [] {
      var tail := rs[1..];
      var h := HourOf(rs[0].timestamp);
      HourlySeriesSums(tail);
      AddToSeriesContents(HourlySeries(tail), h, rs[0].energy);
      assert ReadingHours(rs) == {h} + ReadingHours(tail) by {
        forall g | g in ReadingHours(rs) ensures g in {h} + ReadingHours(tail) {
          var i :| 0 <= i < |rs| && HourOf(rs[i].timestamp) == g;
          if i > 0 { assert tail[i - 1] == rs[i]; }
        }
        forall g | g in ReadingHours(tail) ensures g in ReadingHours(rs) {
          var i :| 0 <= i < |tail| && HourOf(tail[i].timestamp) == g;
          assert rs[i + 1] == tail[i];
        }
      }
    }
  }

  /** The hourly series is sparse and ordered: strictly ascending hours,
      one entry for exactly those hours that contain a reading, each hour's
      energy that of its readings, and the entries add up to the total. */
  lemma HourlySeriesCorrect(rs: seq<Reading>)
    ensures StrictlyAscending(HourlySeries(rs))
    ensures Hours(HourlySeries(rs)) == ReadingHours(rs)
    ensures forall g :: KwhAt(HourlySeries(rs), g) == HourTotal(rs, g)
    ensures SeriesTotal(HourlySeries(rs)) == Total(rs)
  {
    HourlySeriesAscending(rs);
    HourlySeriesSums(rs);
  }

  /** Each entry of the series holds exactly the energy of its hour, and
      every hour of the series starts on the hour. */
  lemma SeriesEntries(rs: seq<Reading>)
    ensures forall i :: 0 <= i < |HourlySeries(rs)| ==>
      HourlySeries(rs)[i].kwh == HourTotal(rs, HourlySeries(rs)[i].hour)
      && HourlySeries(rs)[i].hour % HOUR == 0
  {
    var s := HourlySeries(rs);
    HourlySeriesCorrect(rs);
    forall i | 0 <= i < |s| ensures s[i].kwh == HourTotal(rs, s[i].hour) && s[i].hour % HOUR == 0 {
      KwhAtEntry(s, i);
      assert s[i].hour in Hours(s);
      var j :| 0 <= j < |rs| && HourOf(rs[j].timestamp) == s[i].hour;
    }
  }

  // ---------------------------------------------------------------------
  // The device ranking

  /** Two readings half an hour and an hour and ten minutes after the
      epoch fall in the first two hours, one entry each, in order. */
  lemma TwoHoursTwoEntries(id: nat, e1: nat, e2: nat)
    ensures var rs := [Reading(1, id, 1800, e1), Reading(2, id, 4200, e2)];
      HourlySeries(rs) == [Point(0, e1), Point(HOUR, e2)] && Total(rs) == e1 + e2
  {
    var rs := [Reading(1, id, 1800, e1), Reading(2, id, 4200, e2)];
    assert HourOf(4200) == HOUR && HourOf(1800) == 0;
    assert rs[1..] == [Reading(2, id, 4200, e2)];
    assert rs[1..][1..] == [];
    assert HourlySeries(rs[1..]) == AddToSeries([], HOUR, e2) == [Point(HOUR, e2)];
    assert AddToSeries([Point(HOUR, e2)], 0, e1) == [Point(0, e1)] + [Point(HOUR, e2)];
    assert Total(rs[1..]) == e2 + Total(rs[1..][1..]);
  }

  /** One row of the ranking: a device's identity and its energy total. */
  datatype DeviceTotal = DeviceTotal(id: nat, name: string, slug: string, totalKwh: nat)

  /** Some reading in `rs` belongs to device `id`. */
  predicate HasReadings(rs: seq<Reading>, id: nat) {
    exists i :: 0 <= i < |rs| && rs[i].device == id
  }

  /** The row for device `d`: the energy of its readings in `rs`. */
  function RowOf(d: Device, rs: seq<Reading>): DeviceTotal {
    DeviceTotal(d.id, d.name, d.slug, Total(Filter(rs, OfDevice(d.id))))
  }

  /** Grouping by device (`values("device__id", "device__name",
      "device__slug").annotate(total_kwh=Sum(...))`), one row per listed
      device that has a reading in `rs`. */
  function Groups(owned: seq<Device>, rs: seq<Reading>): (g: seq<DeviceTotal>)
    ensures |g| <= |owned|
    ensures forall i :: 0 <= i < |g| ==> HasReadings(rs, g[i].id)
  {
    if owned == [] then []
    else (if HasReadings(rs, owned[0].id) then [RowOf(owned[0], rs)] else []) + Groups(owned[1..], rs)
  }

  /** Every row is that of a listed device with a reading. */
  lemma {:induction false} GroupsSound(owned: seq<Device>, rs: seq<Reading>, row: DeviceTotal)
    requires row in Groups(owned, rs)
    ensures exists d :: d in owned && HasReadings(rs, d.id) && row == RowOf(d, rs)
  {
    var first := if HasReadings(rs, owned[0].id) then [RowOf(owned[0], rs)] else [];
    if row in first {
      assert owned[0] in owned;
    } else {
      assert row in Groups(owned[1..], rs);
      GroupsSound(owned[1..], rs, row);
      var d :| d in owned[1..] && HasReadings(rs, d.id) && row == RowOf(d, rs);
      assert d in owned;
    }
  }

  /** Every listed device with a reading has its row. */
  lemma {:induction false} GroupsComplete(owned: seq<Device>, rs: seq<Reading>, d: Device)
    requires d in owned && HasReadings(rs, d.id)
    ensures RowOf(d, rs) in Groups(owned, rs)
  {
    if d != owned[0] {
      assert d in owned[1..];
      GroupsComplete(owned[1..], rs, d);
    }
  }

  function RowTotal(row: DeviceTotal): int {
    row.totalKwh
  }

  /** The ranking is capped at five rows. */
  const TOP_DEVICES: nat := 5

  /** `order_by("-total_kwh")[:5]` over the rows: at most five, largest total
      first, every row that of a listed device with a reading in `rs`. */
  function RankDevices(owned: seq<Device>, rs: seq<Reading>): (rows: seq<DeviceTotal>)
    ensures |rows| == if |Groups(owned, rs)| <= TOP_DEVICES then |Groups(owned, rs)| else TOP_DEVICES
    ensures NonIncreasing(rows, RowTotal)
    ensures forall i :: 0 <= i < |rows| ==> exists d :: d in owned && HasReadings(rs, d.id) && rows[i] == RowOf(d, rs)
  {
    var groups := Groups(owned, rs);
    var rows := Top(groups, RowTotal, TOP_DEVICES);
    assert forall i :: 0 <= i < |rows| ==> exists d :: d in owned && HasReadings(rs, d.id) && rows[i] == RowOf(d, rs) by {
      forall i | 0 <= i < |rows| ensures exists d :: d in owned && HasReadings(rs, d.id) && rows[i] == RowOf(d, rs) {
        TopMember(groups, RowTotal, TOP_DEVICES, rows[i]);
        GroupsSound(owned, rs, rows[i]);
      }
    }
    rows
  }

  /** No device left out of the ranking used more energy than a device in
      it. */
  lemma RankDevicesIsTop(owned: seq<Device>, rs: seq<Reading>, d: Device)
    requires d in owned && HasReadings(rs, d.id)
    ensures var rows := RankDevices(owned, rs);
      RowOf(d, rs) in rows || forall i :: 0 <= i < |rows| ==> rows[i].totalKwh >= RowOf(d, rs).totalKwh
  {
    GroupsComplete(owned, rs, d);
    TopIsTop(Groups(owned, rs), RowTotal, TOP_DEVICES, RowOf(d, rs));
  }

  /** When at most five devices have readings, all of them are ranked. */
  lemma RankDevicesAllWhenFew(owned: seq<Device>, rs: seq<Reading>, d: Device)
    requires d in owned && HasReadings(rs, d.id)
    requires |Groups(owned, rs)| <= TOP_DEVICES
    ensures RowOf(d, rs) in RankDevices(owned, rs)
  {
    var groups := Groups(owned, rs);
    var row := RowOf(d, rs);
    GroupsComplete(owned, rs, d);
    assert row in multiset(groups);
    assert multiset(Top(groups, RowTotal, TOP_DEVICES)) == multiset(groups);
  }

  /** Devices with distinct keys get rows with distinct keys. */
  lemma {:induction false} GroupsDistinctIds(owned: seq<Device>, rs: seq<Reading>)
    requires UniqueIds(owned)
    ensures OneRowPerDevice(Groups(owned, rs))
  {
    if owned != [] {
      var tail := owned[1..];
      assert UniqueIds(tail) by {
        forall i, j | 0 <= i < j < |tail| ensures tail[i].id != tail[j].id {
          assert tail[i] == owned[i + 1] && tail[j] == owned[j + 1];
        }
      }
      GroupsDistinctIds(tail, rs);
      if HasReadings(rs, owned[0].id) {
        HeadNotInGroups(owned, rs);
        ConsOneRow(RowOf(owned[0], rs), Groups(tail, rs));
      }
    }
  }

  /** No row built from the later devices has the first device's key. */
  lemma HeadNotInGroups(owned: seq<Device>, rs: seq<Reading>)
    requires owned != [] && UniqueIds(owned)
    ensures forall j :: 0 <= j < |Groups(owned[1..], rs)| ==> Groups(owned[1..], rs)[j].id != owned[0].id
  {
    var tail := owned[1..];
    var rest := Groups(tail, rs);
    forall j | 0 <= j < |rest| ensures rest[j].id != owned[0].id {
      GroupsSound(tail, rs, rest[j]);
      var d :| d in tail && HasReadings(rs, d.id) && rest[j] == RowOf(d, rs);
      var k :| 0 <= k < |tail| && tail[k] == d;
      assert tail[k] == owned[k + 1];
    }
  }

  /** A row whose key none of the others has keeps the keys distinct. */
  lemma ConsOneRow(row: DeviceTotal, rest: seq<DeviceTotal>)
    requires OneRowPerDevice(rest)
    requires forall j :: 0 <= j < |rest| ==> rest[j].id != row.id
    ensures OneRowPerDevice([row] + rest)
  {
    var g := [row] + rest;
    forall i, j | 0 <= i < j < |g| ensures g[i].id != g[j].id {
      if i == 0 { assert g[j] == rest[j - 1]; }
      else { assert g[i] == rest[i - 1] && g[j] == rest[j - 1]; }
    }
  }

  /** No two rows are for the same device. */
  predicate OneRowPerDevice(rows: seq<DeviceTotal>) {
    forall i, j :: 0 <= i < j < |rows| ==> rows[i].id != rows[j].id
  }

  /** With device keys unique, the ranking has at most one row per device. */
  lemma RankDevicesOneRowPerDevice(owned: seq<Device>, rs: seq<Reading>)
    requires UniqueIds(owned)
    ensures OneRowPerDevice(RankDevices(owned, rs))
  {
    var groups := Groups(owned, rs);
    var rows := RankDevices(owned, rs);
    GroupsDistinctIds(owned, rs);
    assert Distinct(groups);
    SubMultisetDistinct(rows, groups);
    forall i, j | 0 <= i < j < |rows| ensures rows[i].id != rows[j].id {
      TopMember(groups, RowTotal, TOP_DEVICES, rows[i]);
      TopMember(groups, RowTotal, TOP_DEVICES, rows[j]);
      var a :| 0 <= a < |groups| && groups[a] == rows[i];
      var b :| 0 <= b < |groups| && groups[b] == rows[j];
      assert a == b || rows[i].id != rows[j].id;
    }
  }
}
