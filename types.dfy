/** The records shared by the dashboard and its panels (types.ts). */
module Types {
  import opened Wrappers

  /** One octet of a Bluetooth notification or command. */
  type byte = bv8

  /**
   * One breaker slot. `reading1` and `reading2` are the two measurement
   * fields: App.tsx calls them `voltage1`/`voltage2` (with labels
   * `voltage1Label`/`voltage2Label`), types.ts calls them `current1`/`current2`.
   * The optional fields are `undefined` in every slot App.tsx builds.
   */
  datatype Breaker = Breaker(
    id: string,
    name: string,
    isOn: bool,
    label1: string,
    label2: string,
    reading1: real,
    reading2: real,
    isOverall: bool,
    maxCurrent: Option<real>,
    minCurrent: Option<real>,
    gracePeriodMs: Option<real>,
    lastTripReason: Option<string>)

  /** The direction of a logged transition. */
  datatype LogType = Activated | Deactivated

  /** One entry of the activation history; `timestamp` is an ISO-8601 text. */
  datatype HistoryLog = HistoryLog(
    breakerName: string,
    timestamp: string,
    logType: LogType,
    reason: string)

  /**
   * Everything about a slot except its live state (on/off and the two
   * readings): identity, labels, role, thresholds and trip reason.
   */
  function Layout(b: Breaker): Breaker
  {
    b.(isOn := false, reading1 := 0.0, reading2 := 0.0)
  }
}
