/** The events that ISRs, timers and the sensor thread post to the node's queue. */
module Events {
  import opened Base

  datatype Kind =
    | PressureBreach | MotionDetected | DualBreach | SensorTrigger | TamperDetected | Wakeup | RtcWakeup
    | BatteryLow | BatteryCritical | BatteryRestored
    | InitComplete | BaselineReady | PollTick | GotoSleep | GotoDeepSleep | SleepTimerExpiry
    | CooldownExpired | Timeout | ArmedTimeout | InactivityTimeout
    | SigningComplete | TxComplete | TxTimeout | TxFailed
    | SensorFault | BleFault | RecoverySuccess | RecoveryFailed | Error

  function Code(k: Kind): byte {
    match k
    case PressureBreach => 0x01   case MotionDetected => 0x02   case DualBreach => 0x03
    case SensorTrigger => 0x04    case TamperDetected => 0x05   case Wakeup => 0x06
    case RtcWakeup => 0x07        case BatteryLow => 0x08       case BatteryCritical => 0x09
    case BatteryRestored => 0x0A  case InitComplete => 0x10     case BaselineReady => 0x11
    case PollTick => 0x12         case GotoSleep => 0x13        case GotoDeepSleep => 0x14
    case SleepTimerExpiry => 0x15 case CooldownExpired => 0x16  case Timeout => 0x17
    case ArmedTimeout => 0x18     case InactivityTimeout => 0x19
    case SigningComplete => 0x20  case TxComplete => 0x21       case TxTimeout => 0x22
    case TxFailed => 0x23         case SensorFault => 0x30      case BleFault => 0x31
    case RecoverySuccess => 0x32  case RecoveryFailed => 0x33   case Error => 0x3F
  }

  /** The payload union: eight bytes, of which the first four hold the sensor's main float. */
  type Payload = s: seq<byte> | |s| == 8 witness [0, 0, 0, 0, 0, 0, 0, 0]

  datatype Event = Event(kind: Kind, timestampMs: u32, data: Payload)

  /** An event the firmware itself makes, stamped with the 32-bit uptime. */
  function Internal(k: Kind, uptime: nat): Event {
    Event(k, uptime % WORD, [0, 0, 0, 0, 0, 0, 0, 0])
  }

  predicate IsBreach(k: Kind) {
    k == PressureBreach || k == MotionDetected || k == DualBreach || k == TamperDetected
  }

  predicate IsBatteryDown(k: Kind) { k == BatteryLow || k == BatteryCritical }

  /** What may arrive from outside the state machine, its timers and its callbacks. */
  predicate FromEnvironment(k: Kind) {
    IsBreach(k) || IsBatteryDown(k) || k == BatteryRestored || k == PollTick
  }
}
