/** The traffic records and the calls a tracker makes on its persister.

    The traffic persister is an external store; the model records the calls
    made on it, in order, and takes the answer of `getSizeAndClear` as an input. */
module TrafficLog {

  /** `NetworkTrafficLog`: one request or response of `size` bytes for a
      category. `count` and `date` are carried but not read by the core. */
  datatype NetworkTrafficLog = NetworkTrafficLog(
    isRequest: bool,
    endpoint: string,
    endpointType: string,
    size: int,
    count: int,
    date: int)

  /** `TrafficLogSummary`: requests and bytes in the trailing window. */
  datatype TrafficLogSummary = TrafficLogSummary(count: int, size: int)

  /** One call on `NetworkTrafficLogPersister`. */
  datatype PersisterCall =
    | AddLog(log: NetworkTrafficLog)
    | GetSizeAndClear(windowLength: int, endpoint: string)
    | Clear(windowLength: int, endpoint: string)

  /** The number of requests in a run of logs (responses are not counted). */
  function Requests(logs: seq<NetworkTrafficLog>): nat
    decreases |logs|
  {
    if logs == [] then 0
    else Requests(logs[..|logs| - 1]) + (if logs[|logs| - 1].isRequest then 1 else 0)
  }

  /** The bytes in a run of logs, requests and responses alike. */
  function Bytes(logs: seq<NetworkTrafficLog>): int
    decreases |logs|
  {
    if logs == [] then 0 else Bytes(logs[..|logs| - 1]) + logs[|logs| - 1].size
  }
}
