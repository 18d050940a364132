/** The persisted record of one category's shutoff state, and the in-memory
    persister that stores one such record per endpoint key. */
module ShutoffLog {
  import opened Wrappers

  /** `NetworkShutoffLog`: the state is kept as its label string. */
  datatype NetworkShutoffLog = NetworkShutoffLog(
    state: string,
    backoffSize: int,
    shutOffUntil: int,
    endpoint: string)

  /** The in-memory persister: a map from endpoint key to its latest record. */
  datatype Persister = Persister(logs: map<string, NetworkShutoffLog>)

  const Empty: Persister := Persister(map[])

  /** The record a persister hands out for a key it has never stored. */
  function DefaultLog(endpoint: string): NetworkShutoffLog {
    NetworkShutoffLog("SENDING", 1, 0, endpoint)
  }

  /** Every stored record sits under its own endpoint. */
  ghost predicate WellKeyed(p: Persister) {
    forall k | k in p.logs :: p.logs[k].endpoint == k
  }

  /** `getAll`: the keys stored so far. */
  function GetAll(p: Persister): set<string> {
    p.logs.Keys
  }

  /** `getLog`: the stored record, or the default record for an absent key. */
  function GetLog(p: Persister, endpoint: string): (r: NetworkShutoffLog)
    ensures WellKeyed(p) ==> r.endpoint == endpoint
    ensures endpoint !in GetAll(p) ==> r == DefaultLog(endpoint)
  {
    if endpoint in p.logs then p.logs[endpoint] else DefaultLog(endpoint)
  }

  /** `addAndUpdateLog`: an upsert keyed by the record's own endpoint. */
  function AddAndUpdateLog(p: Persister, log: NetworkShutoffLog): (r: Persister)
    ensures GetLog(r, log.endpoint) == log
    ensures forall e | e != log.endpoint :: GetLog(r, e) == GetLog(p, e)
    ensures GetAll(r) == GetAll(p) + {log.endpoint}
    ensures WellKeyed(p) ==> WellKeyed(r)
  {
    Persister(p.logs[log.endpoint := log])
  }

  /** `clear`: the in-memory persister ignores it. */
  function Clear(p: Persister, endpoint: string): (r: Persister)
    ensures forall e :: GetLog(r, e) == GetLog(p, e)
    ensures GetAll(r) == GetAll(p)
  {
    p
  }

  /** Applies an optional write, as a state machine's step produces it. */
  function Save(p: Persister, saved: Option<NetworkShutoffLog>): Persister {
    match saved
    case None => p
    case Some(log) => AddAndUpdateLog(p, log)
  }

  /** A run of writes, oldest first. */
  function WriteAll(p: Persister, logs: seq<NetworkShutoffLog>): Persister
    decreases |logs|
  {
    if logs == [] then p else AddAndUpdateLog(WriteAll(p, logs[..|logs| - 1]), logs[|logs| - 1])
  }

  /** The endpoints named by a run of writes. */
  function Endpoints(logs: seq<NetworkShutoffLog>): set<string> {
    set i | 0 <= i < |logs| :: logs[i].endpoint
  }

  /** `getAll` after a run of writes into an empty persister is exactly the
      set of keys written; `getLog` of each key returns the last record
      written under it, and the store stays keyed by endpoint. */
  lemma {:induction false} WrittenKeys(logs: seq<NetworkShutoffLog>)
    ensures GetAll(WriteAll(Empty, logs)) == Endpoints(logs)
    ensures WellKeyed(WriteAll(Empty, logs))
    ensures |logs| > 0 ==> GetLog(WriteAll(Empty, logs), logs[|logs| - 1].endpoint) == logs[|logs| - 1]
    decreases |logs|
  {
    if logs != [] {
      var front := logs[..|logs| - 1];
      WrittenKeys(front);
      assert Endpoints(logs) == Endpoints(front) + {logs[|logs| - 1].endpoint} by {
        forall e | e in Endpoints(logs) ensures e in Endpoints(front) + {logs[|logs| - 1].endpoint} {
          var i :| 0 <= i < |logs| && logs[i].endpoint == e;
          if i < |logs| - 1 {
            assert front[i] == logs[i];
          }
        }
        forall e | e in Endpoints(front) ensures e in Endpoints(logs) {
          var i :| 0 <= i < |front| && front[i].endpoint == e;
          assert logs[i] == front[i];
        }
      }
    }
  }
}
