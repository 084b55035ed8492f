/** One siren entity: a (device, description) pair with a unique id, the reading
    it reports and the commands it sends. */
module SirenEntities {
  import opened SirenTypes
  import opened SirenTable
  import opened DeviceManagers

  /** Features every siren entity declares: on, off, volume and duration.
      Only on and off have any handling. */
  datatype SirenFeature = OnFeature | OffFeature | VolumeSetFeature | DurationFeature

  const SupportedFeatures: set<SirenFeature> := {OnFeature, OffFeature, VolumeSetFeature, DurationFeature}

  /** The entity's unique id: the base entity's unique id followed by the data-point string. */
  function UniqueId(baseId: string, key: DPCode): string
  {
    baseId + Code(key)
  }

  /** On one base id, the unique id determines the key, so two descriptions of
      one device never share a unique id. */
  lemma UniqueIdInjective(baseId: string, k1: DPCode, k2: DPCode)
    ensures UniqueId(baseId, k1) == UniqueId(baseId, k2) <==> k1 == k2
  {
    if UniqueId(baseId, k1) == UniqueId(baseId, k2) {
      assert UniqueId(baseId, k1)[|baseId|..] == Code(k1);
      assert UniqueId(baseId, k2)[|baseId|..] == Code(k2);
      CodeInjective(k1, k2);
    }
  }

  /** What `is_on` reports for an entity keyed by `key` on a device with status
      `status`. `None` is the Python `None` of a path that returns nothing. */
  function IsOnFor(key: DPCode, status: map<string, Value>): (r: Option<Value>)
    // a reading exists unless the key is the siren switch, or the alarm state
    // holds neither "normal" nor "alarm_sound" (or is absent)
    ensures r.None? <==>
      key == SirenSwitch ||
      (key == AlarmState && StatusGet(status, key) != Some(VStr("normal"))
                         && StatusGet(status, key) != Some(VStr("alarm_sound")))
    // the two boolean keys report the stored value, false when it is absent
    ensures key == AlertState || key == AlarmSwitch ==>
      r == Some(if Code(key) in status then status[Code(key)] else VBool(false))
    // the alarm state is on exactly at "alarm_sound" and off exactly at "normal"
    ensures key == AlarmState ==>
      (r == Some(VBool(true)) <==> StatusGet(status, key) == Some(VStr("alarm_sound"))) &&
      (r == Some(VBool(false)) <==> StatusGet(status, key) == Some(VStr("normal")))
  {
    if key.AlertState? then
      Some(if Code(key) in status then status[Code(key)] else VBool(false))
    else if key.AlarmState? && StatusGet(status, key) == Some(VStr("normal")) then
      Some(VBool(false))
    else if key.AlarmState? && StatusGet(status, key) == Some(VStr("alarm_sound")) then
      Some(VBool(true))
    else if key.AlarmSwitch? then
      Some(if Code(key) in status then status[Code(key)] else VBool(false))
    else
      // only the siren switch, or an alarm state holding any other value, gets here
      None
  }

  /** The value `turn_on` sends for `key`. */
  function OnValue(key: DPCode): Value
  {
    if key == AlarmState then VStr("alarm_sound") else VBool(true)
  }

  /** The value `turn_off` sends for `key`. */
  function OffValue(key: DPCode): Value
  {
    if key == AlarmState then VStr("normal") else VBool(false)
  }

  /** Round trip: once the device's status holds the value `turn_on` sent, every
      key that `is_on` handles reads as on; once it holds the value `turn_off`
      sent, as off. The siren switch never reads back. */
  lemma CommandReadBack(key: DPCode, status: map<string, Value>)
    ensures key != SirenSwitch ==>
      IsOnFor(key, status[Code(key) := OnValue(key)]) == Some(VBool(true)) &&
      IsOnFor(key, status[Code(key) := OffValue(key)]) == Some(VBool(false))
    ensures key == SirenSwitch ==>
      IsOnFor(key, status[Code(key) := OnValue(key)]) == None &&
      IsOnFor(key, status[Code(key) := OffValue(key)]) == None
  {
  }

  /** A siren entity: the device it was discovered on, the device manager it
      sends through, its description and its unique id. */
  datatype SirenEntity = SirenEntity(device: Device, manager: DeviceManager, description: Description, uniqueId: string)
  {
    /** `is_on`, read from the device's status. */
    function IsOn(): (r: Option<Value>)
      ensures r == IsOnFor(description.key, device.status)
    {
      IsOnFor(description.key, device.status)
    }

    /** `turn_on`: sends one batch of one command keyed by the entity's data point. */
    method TurnOn()
      modifies manager
      ensures manager.sent == old(manager.sent) + [Batch(device.id, [Command(description.key, OnValue(description.key))])]
      ensures manager.deviceMap == old(manager.deviceMap)
    {
      if description.key == AlarmState {
        manager.SendCommands(device.id, [Command(description.key, VStr("alarm_sound"))]);
      } else {
        manager.SendCommands(device.id, [Command(description.key, VBool(true))]);
      }
    }

    /** `turn_off`: sends one batch of one command keyed by the entity's data point. */
    method TurnOff()
      modifies manager
      ensures manager.sent == old(manager.sent) + [Batch(device.id, [Command(description.key, OffValue(description.key))])]
      ensures manager.deviceMap == old(manager.deviceMap)
    {
      if description.key == AlarmState {
        manager.SendCommands(device.id, [Command(description.key, VStr("normal"))]);
      } else {
        manager.SendCommands(device.id, [Command(description.key, VBool(false))]);
      }
    }
  }

  /** `TuyaSirenEntity(device, device_manager, description)`, given the unique id
      the base entity assigns to the device. */
  function NewEntity(device: Device, manager: DeviceManager, description: Description, baseId: string): (e: SirenEntity)
    ensures e.device == device && e.manager == manager && e.description == description
    // the unique id is the base id followed by the key's data-point string
    ensures e.uniqueId == UniqueId(baseId, description.key)
  {
    SirenEntity(device, manager, description, UniqueId(baseId, description.key))
  }

  /** Turning on and off always send different values, and the alarm state is
      the only key that is commanded with a string. */
  lemma OnOffDistinct(key: DPCode)
    ensures OnValue(key) != OffValue(key)
    ensures OnValue(key).VStr? <==> key == AlarmState
    ensures OffValue(key).VStr? <==> key == AlarmState
  {
  }
}
