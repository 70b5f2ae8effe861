/** The two stored entities, devices and telemetry readings, the tables
    that hold them, and the user-scoped lookups the views make. */
module Models {
  import opened Wrappers
  import opened Seqs
  import opened Instants

  type UserId = nat

  /** A registered device: its primary key, its owner, a display name and a
      slug unique among its owner's devices. */
  datatype Device = Device(id: nat, user: UserId, name: string, slug: string)

  /** One telemetry reading of one device. Energy is a non-negative count
      of a fixed-point energy unit. */
  datatype Reading = Reading(id: nat, device: nat, timestamp: Instant, energy: nat)

  /** No two devices share a primary key. */
  predicate UniqueIds(devices: seq<Device>) {
    forall i, j :: 0 <= i < j < |devices| ==> devices[i].id != devices[j].id
  }

  /** No user has two devices with the same slug (`unique_together`). */
  predicate UniqueSlugs(devices: seq<Device>) {
    forall i, j :: 0 <= i < j < |devices| && devices[i].user == devices[j].user
      ==> devices[i].slug != devices[j].slug
  }

  /** Some device with primary key `id` exists. */
  predicate HasDevice(devices: seq<Device>, id: nat) {
    exists i :: 0 <= i < |devices| && devices[i].id == id
  }

  function OwnedBy(user: UserId): Device -> bool {
    (d: Device) => d.user == user
  }

  /** The devices a request may see: exactly those of the requesting user,
      in table order (`Device.objects.filter(user=request.user)`). */
  function VisibleDevices(devices: seq<Device>, user: UserId): (r: seq<Device>)
    ensures forall i :: 0 <= i < |r| ==> r[i] in devices && r[i].user == user
    ensures forall i :: 0 <= i < |devices| && devices[i].user == user ==> devices[i] in r
  {
    Filter(devices, OwnedBy(user))
  }

  /** The requesting user's device with the given slug
      (`Device.objects.get(user=..., slug=...)`); `None` when that user has
      none, whoever else has such a slug. */
  function FindDevice(devices: seq<Device>, user: UserId, slug: string): (r: Option<Device>)
    ensures r.Some? ==> r.value in devices && r.value.user == user && r.value.slug == slug
    ensures r.None? <==> forall d :: d in devices && d.user == user ==> d.slug != slug
  {
    if devices == [] then None
    else if devices[0].user == user && devices[0].slug == slug then Some(devices[0])
    else FindDevice(devices[1..], user, slug)
  }

  /** The requesting user's device with primary key `pk` (a viewset's
      `get_object()` over the user-scoped queryset); `None` is a 404. */
  function FindOwned(devices: seq<Device>, user: UserId, pk: nat): (r: Option<Device>)
    ensures r.Some? ==> r.value in devices && r.value.user == user && r.value.id == pk
    ensures r.None? <==> forall d :: d in devices && d.user == user ==> d.id != pk
  {
    if devices == [] then None
    else if devices[0].user == user && devices[0].id == pk then Some(devices[0])
    else FindOwned(devices[1..], user, pk)
  }

  /** With slugs unique per user, the device found is the only one of that
      user with that slug. */
  lemma FindDeviceIsTheDevice(devices: seq<Device>, user: UserId, slug: string, d: Device)
    requires UniqueSlugs(devices)
    requires d in devices && d.user == user && d.slug == slug
    ensures FindDevice(devices, user, slug) == Some(d)
  {
    var r := FindDevice(devices, user, slug);
    var i :| 0 <= i < |devices| && devices[i] == r.value;
    var j :| 0 <= j < |devices| && devices[j] == d;
    assert !(i < j) && !(j < i);
  }

  /** The lookup only ever consults the requesting user's devices: other
      users' devices cannot change its answer. */
  lemma {:induction false} FindDeviceSeesOnlyOwner(devices: seq<Device>, user: UserId, slug: string)
    ensures FindDevice(devices, user, slug) == FindDevice(VisibleDevices(devices, user), user, slug)
  {
    if devices != [] {
      FindDeviceSeesOnlyOwner(devices[1..], user, slug);
      var v := Filter(devices, OwnedBy(user));
      var rest := Filter(devices[1..], OwnedBy(user));
      if devices[0].user == user {
        assert v == [devices[0]] + rest;
        assert v[0] == devices[0] && v[1..] == rest;
      } else {
        assert v == rest;
      }
    }
  }

  function DeviceId(d: Device): int {
    d.id
  }

  /** Scoping the devices to one user keeps primary keys unique. */
  lemma VisibleDevicesUniqueIds(devices: seq<Device>, user: UserId)
    requires UniqueIds(devices)
    ensures UniqueIds(VisibleDevices(devices, user))
  {
    assert KeysDistinct(devices, DeviceId);
    FilterKeysDistinct(devices, OwnedBy(user), DeviceId);
    var v := VisibleDevices(devices, user);
    assert KeysDistinct(v, DeviceId);
    forall i, j | 0 <= i < j < |v| ensures v[i].id != v[j].id {
      assert DeviceId(v[i]) != DeviceId(v[j]);
    }
  }

  /** The database: the device and telemetry tables and the next primary
      keys they will hand out. */
  class Store {
    var devices: seq<Device>
    var readings: seq<Reading>
    var nextDeviceId: nat
    var nextReadingId: nat

    /** The database's constraints: primary keys are unique and below the
        next key, `(user, slug)` is unique, and every reading belongs to an
        existing device. */
    ghost predicate Valid()
      reads this
    {
      && UniqueIds(devices)
      && UniqueSlugs(devices)
      && (forall i :: 0 <= i < |devices| ==> devices[i].id < nextDeviceId)
      && (forall i, j :: 0 <= i < j < |readings| ==> readings[i].id != readings[j].id)
      && (forall i :: 0 <= i < |readings| ==> readings[i].id < nextReadingId)
      && (forall i :: 0 <= i < |readings| ==> HasDevice(devices, readings[i].device))
    }

    constructor ()
      ensures Valid()
      ensures devices == [] && readings == []
    {
      devices, readings := [], [];
      nextDeviceId, nextReadingId := 1, 1;
    }
  }
}
