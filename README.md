# Tuya siren platform: a Dafny model

This project models the siren platform of the Home Assistant Tuya integration
(`homeassistant/components/tuya/siren.py`). The platform does four things:

- It holds a static capability table `SIRENS`. The table maps a Tuya product
  category to an ordered list of siren descriptions:
  - "dgnbj" (multi-functional sensor) → `alarm_switch`;
  - "sgbj" (siren alarm) → `alarm_state`, then `alert_state`;
  - "sp" (smart camera) → `siren_switch`.
- It discovers entities. For each device id in turn, it takes the device from
  the device manager's registry. It then builds one siren entity for each
  description of the device's category whose data-point code is a key of the
  device's status.
- It reads `is_on` from the device status. The reading depends on which data
  point the entity is keyed by.
- It sends `turn_on` / `turn_off` commands. Each call sends one batch holding
  one `{code, value}` command.

Modules:

- `SirenTypes` (`siren_types.dfy`): data-point codes (`DPCode`) and their
  vendor strings, raw status values (`Value`: null, boolean, integer or string),
  devices, commands and command batches.
- `DeviceManagers` (`device_manager.dfy`): the vendor device manager as a class.
  It holds the device registry `deviceMap` and the log `sent` of every command
  batch handed to the transport.
- `SirenTable` (`siren_table.dfy`): the `SIRENS` table and its lookup.
- `SirenEntities` (`siren_entity.dfy`): unique ids, `is_on` as the function
  `IsOnFor`, the command values, and the `SirenEntity` datatype with its
  `TurnOn` / `TurnOff` methods.
- `SirenDiscovery` (`siren_discovery.dfy`): the specification functions
  `EntitiesOf` / `Entities`, the lemmas about them, and the imperative
  `Discover` method, proved equal to them. The two nested loops of
  `async_discover_device` are the loop of `Discover` and the loop of
  `DeviceEntities`, which `Discover` calls once per device.

## Where the code and its annotations differ

`is_on` is annotated `-> bool` and documented "Return true if siren is on."
(`homeassistant/components/tuya/siren.py` lines 108-109). Its body does not
always return a boolean. The model follows the body in each case below.

- For `siren_switch`, `is_on` matches no branch, so it returns nothing (Python
  `None`), although the annotation promises a boolean. The
  ensures of `IsOnFor` and the second half of `CommandReadBack` state this.
  A smart camera's siren therefore never reports a state, even though
  `turn_on` / `turn_off` send `True` / `False` for it.
- For `alarm_state`, any value other than "normal" or "alarm_sound" returns
  nothing, and so does a missing key.
- For `alert_state` and `alarm_switch`, `is_on` returns whatever value is
  stored, not only booleans. A stored JSON null is returned as `VNull`, which
  Python also sees as `None`. The model keeps `Some(VNull)` (a stored null)
  apart from `None` (no branch returned).

## Model

| member | source | states |
|---|---|---|
| `SirenTable.DescriptionsFor` | homeassistant/components/tuya/siren.py:26-58 | An unknown category has no descriptions. |
| `SirenTable.TableKeysDistinct` | homeassistant/components/tuya/siren.py:26-58 | Within every category, no two descriptions share a key. |
| `SirenTable.TableContents` | homeassistant/components/tuya/siren.py:26-58 | Each known category yields exactly its declared keys in declared order ("dgnbj": alarm switch; "sgbj": alarm state, then alert state; "sp": siren switch). Any other category yields none. |
| `SirenEntities.UniqueIdInjective` | homeassistant/components/tuya/siren.py:105 | The unique id is the base unique id followed by the data-point string. On one base id, two unique ids are equal exactly when the keys are equal. |
| `SirenEntities.IsOnFor` | homeassistant/components/tuya/siren.py:107-121 | `is_on` yields nothing exactly for the siren switch, and for an alarm state that is absent or holds neither "normal" nor "alarm_sound". Alert state and alarm switch yield the stored value, or false when it is absent. Alarm state is true exactly at "alarm_sound" and false exactly at "normal". |
| `SirenEntities.NewEntity` | homeassistant/components/tuya/siren.py:96-105 | The new entity keeps the device, the manager and the description it was built with. Its unique id is `UniqueId(baseId, description.key)`: the base entity's unique id followed by the key's data-point string. |
| `SirenEntities.SirenEntity.IsOn` | homeassistant/components/tuya/siren.py:107-108 | The entity's `is_on` is `IsOnFor` applied to the entity's key and the status of the device the entity holds (the status it was discovered with). |
| `SirenEntities.CommandReadBack` | homeassistant/components/tuya/siren.py:110-138 | Round trip: a status holding the value `turn_on` sends reads as true, and one holding the value `turn_off` sends reads as false, for alarm state, alert state and alarm switch. For the siren switch both read as nothing. |
| `SirenEntities.OnOffDistinct` | homeassistant/components/tuya/siren.py:127-138 | On and off always send different values. Only the alarm state is commanded with a string. |
| `SirenEntities.SirenEntity.TurnOn` | homeassistant/components/tuya/siren.py:124-130 | Appends exactly one batch to the command log: the device's id and one command with the entity's key. Its value is "alarm_sound" for alarm state and true otherwise. The registry is unchanged. |
| `SirenEntities.SirenEntity.TurnOff` | homeassistant/components/tuya/siren.py:132-138 | Appends exactly one batch to the command log: the device's id and one command with the entity's key. Its value is "normal" for alarm state and false otherwise. The registry is unchanged. |
| `SirenDiscovery.EntitiesOf` | homeassistant/components/tuya/siren.py:73-80 | A device yields at most one entity per description. Every entity is on that device and manager, has a description from the list whose key the status holds, and has unique id = base id + code. |
| `SirenDiscovery.Entities` | homeassistant/components/tuya/siren.py:70-82 | Every discovered entity's key was present in its device's status when it was built. Its unique id is the device's base id followed by the key's code. |
| `SirenDiscovery.EntitiesOfAppend` | homeassistant/components/tuya/siren.py:74-80 | The descriptions contribute in their own order: the entities for a + b are the entities for a followed by those for b. |
| `SirenDiscovery.EntitiesAppend` | homeassistant/components/tuya/siren.py:71-80 | Devices contribute in the order of the ids: the entities for a + b are the entities for a followed by those for b. |
| `SirenDiscovery.EntitiesOfMembership` | homeassistant/components/tuya/siren.py:74-80 | An entity is built for a device if and only if it is the entity of some description whose key the device's status holds. |
| `SirenDiscovery.EntitiesMembership` | homeassistant/components/tuya/siren.py:70-82 | An entity is discovered if and only if it belongs to some listed device and to a description of that device's category whose key the device's status holds. |
| `SirenDiscovery.NoDescriptionsNoEntities` | homeassistant/components/tuya/siren.py:73 | A device whose category is not in the table, or maps to an empty list, contributes no entities. |
| `SirenDiscovery.EntitiesOfDistinctIds` | homeassistant/components/tuya/siren.py:96-105 | Descriptions with distinct keys, as every category has, give entities with pairwise distinct unique ids. |
| `SirenDiscovery.CameraThenUnknownCategory` | homeassistant/components/tuya/siren.py:68-82 | Take a smart camera whose status holds the siren switch, followed by a device of an unknown category. Discovery yields exactly one entity, the camera's siren, with unique id = base id + "siren_switch". |
| `SirenDiscovery.SirenAlarmBothKeys` | homeassistant/components/tuya/siren.py:37-49 | A siren alarm whose status holds both keys yields two entities: alarm state first, then alert state. Their unique ids differ. |
| `SirenDiscovery.DiscoveredBooleanEntitiesReport` | homeassistant/components/tuya/siren.py:108-121 | A discovered alert-state or alarm-switch entity reports the stored status value, never the absent-key default. |
| `SirenDiscovery.DeviceEntities` | homeassistant/components/tuya/siren.py:73-80 | The inner loop over one device's descriptions yields exactly `EntitiesOf` for the device's category: one entity per description whose key the status holds, in table order, and none for an unknown or empty category. |
| `SirenDiscovery.Discover` | homeassistant/components/tuya/siren.py:68-82 | The outer loop over the ids, calling `DeviceEntities` for the inner loop, yields exactly `Entities` over the ids when every id is in the registry. Otherwise the result is an error naming the first id that is missing. |
| `SirenDiscovery.DiscoverAll` | homeassistant/components/tuya/siren.py:84 | Eager discovery over every registry id always succeeds. An entity is in the result if and only if it belongs to some registered device and a supported description of it, whatever the registry's iteration order. |

## Left out

- Setup wiring is not modelled: `async_setup_entry`'s access to `hass.data`, the dispatcher subscription to new-device events, its cancellation on unload, and `async_add_entities`. They belong to the host framework's lifecycle. Discovery is modelled as a method that returns the entity list. The eager run at setup is `DiscoverAll`.
- The command transport is not modelled. `_send_command` and the vendor device manager live in `homeassistant/components/tuya/base.py` and the vendor library, and neither is part of this model. Sending is modelled as appending one batch (device id, commands) to `DeviceManager.sent`.
- The base entity's unique id (`super().unique_id`) comes from `base.py`, which is not part of this model. Discovery takes it as a parameter `baseId: Device -> string`.
- The data-point strings ("alarm_switch", "alarm_state", "alert_state", "siren_switch") come from `homeassistant/components/tuya/const.py`, which is not part of this model. They are the vendor's standard codes.
- Status refreshes after discovery are not modelled. An entity holds the device value it was discovered with. In the source, the entity and the registry share one device object, and the vendor library updates it in place. `IsOnFor` is stated for every status map, so it covers any refreshed status.
- Registry iteration order (`[*device_map]`) is not modelled. Dafny maps have no order, so `DiscoverAll` takes the order as a parameter that lists the registry's ids.
- A missing registry id raises `KeyError` in the source. `Discover` returns `Err(id)` instead, and the entities built before the error are dropped, as they are in the source.
- Status values are limited to null, booleans, integers and strings. Floats and structured JSON values are left out, because no branch of the platform inspects them.
- Declared features: on, off, volume set and duration are kept as the constant `SupportedFeatures`. Volume and duration have no handling in the source, and the keyword arguments of `turn_on` / `turn_off` are ignored, so the model's methods take none.
- Names and icons are carried as strings in `Description` and have no behaviour.
