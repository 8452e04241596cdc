/** What the pilot measurement reports (`pilot_status_t`, include/pilot.h). */
module PilotLevel {
  datatype Status = StatusA | StatusB | StatusC | StatusD | StatusE | StatusF | StatusUnknown

  /** The enumerator's value, by which `on_timeout` tells rising from falling. */
  function Volts(s: Status): int {
    match s
    case StatusA => 12
    case StatusB => 9
    case StatusC => 6
    case StatusD => 3
    case StatusE => 0
    case StatusF => -12
    case StatusUnknown => 0xff
  }
}
