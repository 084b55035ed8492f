/** The part of the vendor's device manager that the siren platform uses: the
    registry of known devices and the command channel, which is modelled as an
    append-only log of the batches sent. */
module DeviceManagers {
  import opened SirenTypes

  class DeviceManager {
    /** Device registry, from device id to device. */
    var deviceMap: map<string, Device>
    /** Every batch handed to the command channel, oldest first. */
    var sent: seq<Batch>

    constructor (devices: map<string, Device>)
      ensures deviceMap == devices && sent == []
    {
      deviceMap := devices;
      sent := [];
    }

    /** Hands one batch of commands for one device to the transport. */
    method SendCommands(deviceId: string, commands: seq<Command>)
      modifies this`sent
      ensures sent == old(sent) + [Batch(deviceId, commands)]
    {
      sent := sent + [Batch(deviceId, commands)];
    }
  }
}
