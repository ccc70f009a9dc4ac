/** DataMgr of the client samples: it keeps the latest local and remote
    data messages and hands subscribers their combination, local entries
    first. Actuator states and sensor readings are opaque values here. In
    the STM32 client the notification signal may not exist; in the
    system-architecture client it always does (an empty multicast delegate
    calls nobody), which `hasSignal` captures. `notified` logs what
    subscribers were sent. */
module DataManager {
  type ActuatorState = int
  type SensorData = int

  datatype DataMsg = DataMsg(actuators: seq<ActuatorState>, sensors: seq<SensorData>)

  const EMPTY_MSG := DataMsg([], [])

  class DataMgr {
    var local: DataMsg
    var remote: DataMsg
    const hasSignal: bool
    var notified: seq<DataMsg>

    constructor (hasSignal: bool)
      ensures local == EMPTY_MSG && remote == EMPTY_MSG && notified == [] && this.hasSignal == hasSignal
    {
      local, remote, notified := EMPTY_MSG, EMPTY_MSG, [];
      this.hasSignal := hasSignal;
    }

    /** GetCombindedDataMsg (and GetDataMsg, which returns it): local
        actuators then remote ones, local sensors then remote ones. Nothing
        stored changes. */
    method GetCombinedDataMsg() returns (total: DataMsg)
      ensures total.actuators == local.actuators + remote.actuators
      ensures total.sensors == local.sensors + remote.sensors
    {
      total := EMPTY_MSG;
      total := total.(actuators := total.actuators + local.actuators);
      total := total.(sensors := total.sensors + local.sensors);
      total := total.(actuators := total.actuators + remote.actuators);
      total := total.(sensors := total.sensors + remote.sensors);
    }

    /** SetDataMsg, that is LocalDataMsgUpdate: only the local message is
        replaced, then subscribers get the combination. */
    method SetDataMsg(data: DataMsg)
      modifies this`local, this`notified
      ensures local == data && remote == old(remote)
      ensures notified == old(notified)
                          + (if hasSignal then [DataMsg(data.actuators + remote.actuators, data.sensors + remote.sensors)]
                             else [])
    {
      local := data;
      var msg := GetCombinedDataMsg();
      if hasSignal {
        notified := notified + [msg];
      }
    }

    /** RemoteDataMsgUpdate: only the remote message is replaced, then
        subscribers get the combination. */
    method RemoteDataMsgUpdate(data: DataMsg)
      modifies this`remote, this`notified
      ensures remote == data && local == old(local)
      ensures notified == old(notified)
                          + (if hasSignal then [DataMsg(local.actuators + data.actuators, local.sensors + data.sensors)]
                             else [])
    {
      remote := data;
      var msg := GetCombinedDataMsg();
      if hasSignal {
        notified := notified + [msg];
      }
    }
  }
}
