/** The vocabulary of include/robot_base.h: modes, faults, interaction requests. */
module RobotBase {
  datatype Option<+T> = None | Some(value: T)

  /** Policy and action names; the empty name means "none". */
  type Name = string

  datatype Mode = PowerOff | Damp | Home | Zero | Rl | Safety | Trajectory

  datatype FaultSource =
    | NoSource | Transport | Driver | WholeBody | Motor | Imu | Control | Policy | SafetyMonitor

  datatype FaultCode =
    | NoCode | StateTimeout | FeedbackTimeout | DeviceError | CommandRejected | CommandTimeout
    | InferenceTimeout | InvalidData | LimitExceeded | InternalError

  /** `active` is the present condition; `latched` waits for an acknowledgement. */
  datatype FaultStatus = FaultStatus(
    active: bool, latched: bool, source: FaultSource, code: FaultCode, native: int, sequence: nat)

  const NO_FAULT := FaultStatus(false, false, NoSource, NoCode, 0, 0)

  datatype Operation = NoOperation | Start | Cancel

  datatype Interaction = Interaction(sequence: nat, operation: Operation, action: Name)

  const NO_INTERACTION := Interaction(0, NoOperation, "")

  datatype Phase = Idle | BlendIn | Playing | Holding | BlendOut | Finished | Rejected

  datatype InteractionStatus = InteractionStatus(
    sequence: nat, accepted: bool, phase: Phase, progress: real, action: Name)

  const NO_STATUS := InteractionStatus(0, false, Idle, 0.0, "")

  datatype Twist = Twist(vx: real, vy: real, wz: real)

  const STANDSTILL := Twist(0.0, 0.0, 0.0)

  function Abs(x: real): real { if x < 0.0 then -x else x }

  function Min(x: real, y: real): real { if x <= y then x else y }

  function Max(x: real, y: real): real { if x >= y then x else y }

  function Clamp(x: real, low: real, high: real): (r: real)
    requires low <= high
    ensures low <= r <= high
    ensures low <= x <= high ==> r == x
  {
    if x < low then low else if high < x then high else x
  }
}
