/** Values exchanged between the Tuya siren platform and the Tuya device manager:
    data-point codes, raw status values, devices and command batches. */
module SirenTypes {

  datatype Option<+T> = None | Some(value: T)

  datatype Result<+T, +E> = Ok(value: T) | Err(error: E)

  /** The data-point codes ("DPCodes") that a siren description can be keyed by. */
  datatype DPCode = AlarmSwitch | AlarmState | AlertState | SirenSwitch

  /** The vendor's string for a data-point code; device status maps are keyed by it. */
  function Code(k: DPCode): string
  {
    match k
    case AlarmSwitch => "alarm_switch"
    case AlarmState => "alarm_state"
    case AlertState => "alert_state"
    case SirenSwitch => "siren_switch"
  }

  /** Distinct data-point codes have distinct strings. */
  lemma CodeInjective(a: DPCode, b: DPCode)
    ensures Code(a) == Code(b) <==> a == b
  {
  }

  /** A raw status value as the device reports it: JSON null, a boolean,
      an integer or an enumeration string. */
  datatype Value = VNull | VBool(b: bool) | VInt(i: int) | VStr(s: string)

  /** A device as the device manager holds it: its id, its product category
      and its current status snapshot, keyed by data-point string. */
  datatype Device = Device(id: string, category: string, status: map<string, Value>)

  /** `status.get(code)`: the stored value, or nothing when the key is absent. */
  function StatusGet(status: map<string, Value>, k: DPCode): Option<Value>
  {
    if Code(k) in status then Some(status[Code(k)]) else None
  }

  /** One `{"code": ..., "value": ...}` command. */
  datatype Command = Command(code: DPCode, value: Value)

  /** One call of the device manager's send-commands interface: a device id and its commands. */
  datatype Batch = Batch(deviceId: string, commands: seq<Command>)
}
