/** Discovery of siren entities: for each device id, in order, the descriptions
    of the device's category whose key the device's status holds, in table order. */
module SirenDiscovery {
  import opened SirenTypes
  import opened SirenTable
  import opened DeviceManagers
  import opened SirenEntities

  /** The entities `device` contributes for descriptions `ds`: one per description
      whose key the device's status holds, in the order of `ds`. */
  function EntitiesOf(device: Device, manager: DeviceManager, ds: seq<Description>, baseId: string): (r: seq<SirenEntity>)
    ensures |r| <= |ds|
    ensures forall e <- r ::
      e.device == device && e.manager == manager && e.description in ds &&
      Code(e.description.key) in device.status && e.uniqueId == UniqueId(baseId, e.description.key)
    decreases |ds|
  {
    if ds == [] then []
    else
      (if Code(ds[0].key) in device.status then [NewEntity(device, manager, ds[0], baseId)] else [])
      + EntitiesOf(device, manager, ds[1..], baseId)
  }

  /** The entities discovered for `ids` on registry `devices`; `baseId` gives the
      unique id the base entity assigns to a device. */
  function Entities(devices: map<string, Device>, manager: DeviceManager, ids: seq<string>, baseId: Device -> string): (r: seq<SirenEntity>)
    requires forall id <- ids :: id in devices
    ensures forall e <- r ::
      e.manager == manager && Code(e.description.key) in e.device.status &&
      e.uniqueId == UniqueId(baseId(e.device), e.description.key)
    decreases |ids|
  {
    if ids == [] then []
    else
      var device := devices[ids[0]];
      EntitiesOf(device, manager, DescriptionsFor(device.category), baseId(device))
      + Entities(devices, manager, ids[1..], baseId)
  }

  /** Splitting the descriptions splits the entities: each description's entity
      stands at the description's place. */
  lemma {:induction false} EntitiesOfAppend(device: Device, manager: DeviceManager, a: seq<Description>, b: seq<Description>, baseId: string)
    ensures EntitiesOf(device, manager, a + b, baseId) == EntitiesOf(device, manager, a, baseId) + EntitiesOf(device, manager, b, baseId)
    decreases |a|
  {
    if a != [] {
      assert (a + b)[1..] == a[1..] + b;
      EntitiesOfAppend(device, manager, a[1..], b, baseId);
    } else {
      assert a + b == b;
    }
  }

  /** Splitting the device ids splits the entities: devices contribute in id order. */
  lemma {:induction false} EntitiesAppend(devices: map<string, Device>, manager: DeviceManager, a: seq<string>, b: seq<string>, baseId: Device -> string)
    requires forall id <- a :: id in devices
    requires forall id <- b :: id in devices
    ensures Entities(devices, manager, a + b, baseId) == Entities(devices, manager, a, baseId) + Entities(devices, manager, b, baseId)
    decreases |a|
  {
    if a != [] {
      var device := devices[a[0]];
      var own := EntitiesOf(device, manager, DescriptionsFor(device.category), baseId(device));
      calc {
        Entities(devices, manager, a + b, baseId);
      == { assert (a + b)[0] == a[0]; assert (a + b)[1..] == a[1..] + b; }
        own + Entities(devices, manager, a[1..] + b, baseId);
      == { EntitiesAppend(devices, manager, a[1..], b, baseId); }
        own + (Entities(devices, manager, a[1..], baseId) + Entities(devices, manager, b, baseId));
      ==
        Entities(devices, manager, a, baseId) + Entities(devices, manager, b, baseId);
      }
    } else {
      assert a + b == b;
    }
  }

  /** One more description adds at most its own entity at the end. */
  lemma EntitiesOfStep(device: Device, manager: DeviceManager, ds: seq<Description>, k: nat, baseId: string)
    requires k < |ds|
    ensures EntitiesOf(device, manager, ds[..k + 1], baseId) ==
      EntitiesOf(device, manager, ds[..k], baseId) +
      (if Code(ds[k].key) in device.status then [NewEntity(device, manager, ds[k], baseId)] else [])
  {
    assert ds[..k + 1] == ds[..k] + [ds[k]];
    EntitiesOfAppend(device, manager, ds[..k], [ds[k]], baseId);
    assert [ds[k]][1..] == [];
  }

  /** One more device id adds that device's entities at the end. */
  lemma EntitiesStep(devices: map<string, Device>, manager: DeviceManager, ids: seq<string>, i: nat, baseId: Device -> string)
    requires i < |ids| && forall j :: 0 <= j <= i ==> ids[j] in devices
    ensures forall id <- ids[..i + 1] :: id in devices
    ensures Entities(devices, manager, ids[..i + 1], baseId) ==
      Entities(devices, manager, ids[..i], baseId) +
      EntitiesOf(devices[ids[i]], manager, DescriptionsFor(devices[ids[i]].category), baseId(devices[ids[i]]))
  {
    assert ids[..i + 1] == ids[..i] + [ids[i]];
    EntitiesAppend(devices, manager, ids[..i], [ids[i]], baseId);
    assert [ids[i]][1..] == [];
  }

  /** A device contributes an entity exactly for each description whose key its status holds. */
  lemma {:induction false} EntitiesOfMembership(device: Device, manager: DeviceManager, ds: seq<Description>, baseId: string, e: SirenEntity)
    ensures e in EntitiesOf(device, manager, ds, baseId) <==>
      exists d :: d in ds && Code(d.key) in device.status && e == NewEntity(device, manager, d, baseId)
    decreases |ds|
  {
    if ds != [] {
      EntitiesOfMembership(device, manager, ds[1..], baseId, e);
      if exists d :: d in ds && Code(d.key) in device.status && e == NewEntity(device, manager, d, baseId) {
        var d :| d in ds && Code(d.key) in device.status && e == NewEntity(device, manager, d, baseId);
        if d != ds[0] {
          assert d in ds[1..];
        }
      }
    }
  }

  /** Discovery yields exactly the (device, description) pairs whose key is in
      the device's status, over the devices named by `ids`. */
  lemma {:induction false} EntitiesMembership(devices: map<string, Device>, manager: DeviceManager, ids: seq<string>, baseId: Device -> string, e: SirenEntity)
    requires forall id <- ids :: id in devices
    ensures e in Entities(devices, manager, ids, baseId) <==>
      exists id, d :: id in ids && d in DescriptionsFor(devices[id].category) && Code(d.key) in devices[id].status &&
        e == NewEntity(devices[id], manager, d, baseId(devices[id]))
    decreases |ids|
  {
    if ids != [] {
      var device := devices[ids[0]];
      EntitiesOfMembership(device, manager, DescriptionsFor(device.category), baseId(device), e);
      EntitiesMembership(devices, manager, ids[1..], baseId, e);
      if exists id, d :: id in ids && d in DescriptionsFor(devices[id].category) && Code(d.key) in devices[id].status &&
          e == NewEntity(devices[id], manager, d, baseId(devices[id])) {
        var id, d :| id in ids && d in DescriptionsFor(devices[id].category) && Code(d.key) in devices[id].status &&
          e == NewEntity(devices[id], manager, d, baseId(devices[id]));
        if id != ids[0] {
          assert id in ids[1..];
        }
      }
    }
  }

  /** A device whose category has no descriptions contributes no entities. */
  lemma NoDescriptionsNoEntities(device: Device, manager: DeviceManager, baseId: string)
    requires device.category !in Sirens || Sirens[device.category] == []
    ensures EntitiesOf(device, manager, DescriptionsFor(device.category), baseId) == []
  {
  }

  /** No two entities share a unique id. */
  predicate UniqueIdsDistinct(es: seq<SirenEntity>)
  {
    forall i, j :: 0 <= i < j < |es| ==> es[i].uniqueId != es[j].uniqueId
  }

  /** In descriptions with distinct keys, no later description shares the first one's key. */
  lemma TailKeysDiffer(ds: seq<Description>, d: Description)
    requires KeysDistinct(ds)
    requires |ds| > 0 && d in ds[1..]
    ensures d.key != ds[0].key
  {
  }

  /** Prepending an entity whose unique id is new keeps unique ids distinct. */
  lemma ConsDistinct(head: SirenEntity, rest: seq<SirenEntity>)
    requires UniqueIdsDistinct(rest)
    requires forall e <- rest :: e.uniqueId != head.uniqueId
    ensures UniqueIdsDistinct([head] + rest)
  {
  }

  /** Descriptions with distinct keys, as every category of the table has, give
      entities with pairwise distinct unique ids. */
  lemma {:induction false} EntitiesOfDistinctIds(device: Device, manager: DeviceManager, ds: seq<Description>, baseId: string)
    requires KeysDistinct(ds)
    ensures UniqueIdsDistinct(EntitiesOf(device, manager, ds, baseId))
    decreases |ds|
  {
    if ds != [] {
      var tail := ds[1..];
      assert KeysDistinct(tail) by {
        forall i, j | 0 <= i < j < |tail|
          ensures tail[i].key != tail[j].key
        {
          assert tail[i] == ds[i + 1] && tail[j] == ds[j + 1];
        }
      }
      EntitiesOfDistinctIds(device, manager, tail, baseId);
      var rest := EntitiesOf(device, manager, tail, baseId);
      var r := EntitiesOf(device, manager, ds, baseId);
      if Code(ds[0].key) !in device.status {
        assert r == rest;
      } else {
        var head := NewEntity(device, manager, ds[0], baseId);
        assert r == [head] + rest;
        forall e | e in rest
          ensures e.uniqueId != head.uniqueId
        {
          TailKeysDiffer(ds, e.description);
          UniqueIdInjective(baseId, e.description.key, ds[0].key);
        }
        ConsDistinct(head, rest);
      }
    }
  }

  /** A smart camera whose status holds the siren switch, followed by a device of
      an unknown category, yields exactly one entity: the camera's siren. */
  lemma CameraThenUnknownCategory(camera: Device, other: Device, manager: DeviceManager, baseId: Device -> string)
    requires camera.category == "sp" && Code(SirenSwitch) in camera.status
    requires other.category !in Sirens
    ensures var devices := map["a" := camera, "b" := other];
      Entities(devices, manager, ["a", "b"], baseId) ==
        [SirenEntity(camera, manager, Description(SirenSwitch, "Siren", None), baseId(camera) + "siren_switch")]
  {
  }

  /** A siren alarm whose status holds both of its keys yields two entities, the
      alarm state first and the alert state second, with different unique ids. */
  lemma SirenAlarmBothKeys(alarm: Device, manager: DeviceManager, baseId: string)
    requires alarm.category == "sgbj"
    requires Code(AlarmState) in alarm.status && Code(AlertState) in alarm.status
    ensures var r := EntitiesOf(alarm, manager, DescriptionsFor(alarm.category), baseId);
      |r| == 2 && r[0].description.key == AlarmState && r[1].description.key == AlertState &&
      r[0].uniqueId != r[1].uniqueId
  {
    var ds := DescriptionsFor(alarm.category);
    assert ds[1..][1..] == [];
    TableKeysDistinct(alarm.category);
    EntitiesOfDistinctIds(alarm, manager, ds, baseId);
  }

  /** A discovered entity keyed by a boolean data point reports the stored value:
      discovery only builds entities whose key the status holds, so the `False`
      default is never what a freshly discovered entity reports. */
  lemma DiscoveredBooleanEntitiesReport(devices: map<string, Device>, manager: DeviceManager, ids: seq<string>, baseId: Device -> string, e: SirenEntity)
    requires forall id <- ids :: id in devices
    requires e in Entities(devices, manager, ids, baseId)
    requires e.description.key == AlertState || e.description.key == AlarmSwitch
    ensures e.IsOn() == Some(e.device.status[Code(e.description.key)])
  {
  }

  /** The inner loop of `async_discover_device`: for one device whose category
      has descriptions, one entity per description whose key the status holds,
      in table order; none for a category that is unknown or has no descriptions. */
  method DeviceEntities(manager: DeviceManager, device: Device, baseId: string) returns (found: seq<SirenEntity>)
    ensures found == EntitiesOf(device, manager, DescriptionsFor(device.category), baseId)
  {
    found := [];
    if device.category in Sirens && Sirens[device.category] != [] {
      var descriptions := Sirens[device.category];
      for k := 0 to |descriptions|
        invariant found == EntitiesOf(device, manager, descriptions[..k], baseId)
      {
        EntitiesOfStep(device, manager, descriptions, k, baseId);
        if Code(descriptions[k].key) in device.status {
          found := found + [NewEntity(device, manager, descriptions[k], baseId)];
        }
      }
      assert descriptions[..|descriptions|] == descriptions;
    }
  }

  /** `async_discover_device`: builds the entity list device by device, description
      by description. A device id missing from the registry stops discovery with
      that id (the registry lookup raises), and nothing is returned for the batch. */
  method Discover(manager: DeviceManager, ids: seq<string>, baseId: Device -> string) returns (r: Result<seq<SirenEntity>, string>)
    ensures r.Ok? <==> forall id <- ids :: id in manager.deviceMap
    ensures r.Err? ==>
      exists i :: 0 <= i < |ids| && ids[i] == r.error && ids[i] !in manager.deviceMap &&
        forall j :: 0 <= j < i ==> ids[j] in manager.deviceMap
    ensures r.Ok? ==> r.value == Entities(manager.deviceMap, manager, ids, baseId)
  {
    var entities: seq<SirenEntity> := [];
    for i := 0 to |ids|
      invariant forall j :: 0 <= j < i ==> ids[j] in manager.deviceMap
      invariant entities == Entities(manager.deviceMap, manager, ids[..i], baseId)
    {
      if ids[i] !in manager.deviceMap {
        return Err(ids[i]);
      }
      var device := manager.deviceMap[ids[i]];
      var found := DeviceEntities(manager, device, baseId(device));
      entities := entities + found;
      EntitiesStep(manager.deviceMap, manager, ids, i, baseId);
    }
    assert ids[..|ids|] == ids;
    return Ok(entities);
  }

  /** The eager discovery at setup, over every id of the registry in the
      registry's own order: it always succeeds, and which entities it yields does
      not depend on that order. */
  method DiscoverAll(manager: DeviceManager, order: seq<string>, baseId: Device -> string) returns (entities: seq<SirenEntity>)
    requires forall id <- order :: id in manager.deviceMap
    requires forall id <- manager.deviceMap :: id in order
    ensures entities == Entities(manager.deviceMap, manager, order, baseId)
    ensures forall e :: e in entities <==>
      exists id, d :: id in manager.deviceMap && d in DescriptionsFor(manager.deviceMap[id].category) &&
        Code(d.key) in manager.deviceMap[id].status &&
        e == NewEntity(manager.deviceMap[id], manager, d, baseId(manager.deviceMap[id]))
  {
    var r := Discover(manager, order, baseId);
    entities := r.value;
    forall e
      ensures e in entities <==>
        exists id, d :: id in manager.deviceMap && d in DescriptionsFor(manager.deviceMap[id].category) &&
          Code(d.key) in manager.deviceMap[id].status &&
          e == NewEntity(manager.deviceMap[id], manager, d, baseId(manager.deviceMap[id]))
    {
      EntitiesMembership(manager.deviceMap, manager, order, baseId, e);
    }
  }
}
