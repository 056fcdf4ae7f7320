/** Enumerations of the protocol shared by the servo and the port state machine. */
module Types {

  datatype PortState =
    | Initializing | Faulty | Disabled | Listening | PreMaster | Master | Passive | Uncalibrated | Slave

  datatype DelayMechanism = E2E | P2P | DelayDisabled

  datatype Event = StateDecision | SynchronizationFault | MasterClockSelected | MasterClockChanged

  datatype Option<+T> = None | Some(value: T)
}
