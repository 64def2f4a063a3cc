/** The enumerations of libupower-glib/up-types.h and the state strings of up-types.c. */
module UpTypes {

  datatype DeviceState =
    | Unknown
    | Charging
    | Discharging
    | Empty
    | FullyCharged
    | PendingCharge
    | PendingDischarge

  datatype DeviceKind =
    | KindUnknown
    | LinePower
    | Battery
    | Ups
    | Monitor
    | Mouse
    | Keyboard
    | Pda
    | Phone
    | MediaPlayer
    | Tablet
    | Computer
    | GamingInput

  datatype DeviceLevel =
    | LevelUnknown
    | LevelNone
    | LevelDischarging
    | LevelLow
    | LevelCritical
    | LevelAction
    | LevelNormal
    | LevelHigh
    | LevelFull
  {
    /** The numeric value of the enumerator, which the daemon compares with `>=`. */
    function Rank(): nat {
      match this
      case LevelUnknown => 0
      case LevelNone => 1
      case LevelDischarging => 2
      case LevelLow => 3
      case LevelCritical => 4
      case LevelAction => 5
      case LevelNormal => 6
      case LevelHigh => 7
      case LevelFull => 8
    }
  }

  function StateToString(state: DeviceState): string {
    match state
    case Charging => "charging"
    case Discharging => "discharging"
    case Empty => "empty"
    case FullyCharged => "fully-charged"
    case PendingCharge => "pending-charge"
    case PendingDischarge => "pending-discharge"
    case Unknown => "unknown"
  }

  function StateFromString(text: string): DeviceState {
    if text == "charging" then Charging
    else if text == "discharging" then Discharging
    else if text == "empty" then Empty
    else if text == "fully-charged" then FullyCharged
    else if text == "pending-charge" then PendingCharge
    else if text == "pending-discharge" then PendingDischarge
    else Unknown
  }

  /** Printing then parsing is the identity, and a text parses to a known state exactly when it is
      that state's name. */
  lemma StateRoundTrip(state: DeviceState, text: string)
    ensures StateFromString(StateToString(state)) == state
    ensures state != Unknown ==> (StateFromString(text) == state <==> text == StateToString(state))
  {
    match state {
      case Charging =>
      case Discharging => assert "discharging"[0] != "charging"[0];
      case Empty => assert "empty"[0] == 'e';
      case FullyCharged => assert "fully-charged"[0] == 'f';
      case PendingCharge => assert |"pending-charge"| == 14;
      case PendingDischarge => assert |"pending-discharge"| == 17;
      case Unknown => assert "unknown"[0] == 'u';
    }
  }

  lemma NamesOfStates()
    ensures StateToString(Charging) == "charging" && StateToString(Discharging) == "discharging"
    ensures StateToString(Empty) == "empty" && StateToString(FullyCharged) == "fully-charged"
    ensures StateToString(PendingCharge) == "pending-charge" && StateToString(PendingDischarge) == "pending-discharge"
    ensures StateToString(Unknown) == "unknown"
  {
  }
}
