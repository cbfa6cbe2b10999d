/** The records that the log, the state machine, transactions and recovery share. */
module Models {
  import opened Wrappers

  /** A stored value.  `Numeric` stands for a non-integer that Python's `int()` converts (a numeral, a float, a flag). */
  datatype Value = Null | Int(n: int) | Numeric(repr: string, n: int) | Opaque(repr: string)

  /** Python's `int(v)`: `None` where it raises. */
  function ToInt(v: Value): Option<int> {
    match v
    case Int(n) => Some(n)
    case Numeric(_, n) => Some(n)
    case Null => None
    case Opaque(_) => None
  }

  /** Python's `s or default` on an optional string: the empty string counts as absent. */
  function OrElse(s: Option<string>, default: string): string {
    if s == None || s == Some("") then default else s.value
  }

  /** Python's `a or b` on optional tokens: zero counts as absent. */
  function TokenOr(a: Option<int>, b: Option<int>): Option<int> {
    if a == None || a == Some(0) then b else a
  }

  function Lookup(m: map<string, Value>, key: string, default: Value): Value {
    if key in m then m[key] else default
  }

  datatype JobSpec = JobSpec(idInExtra: string, payload: string, priority: int, timeout: real, maxRetries: int)

  datatype Command =
    | Set(value: Value)
    | Get
    | Delete
    | Cas(expected: Value, value: Value)
    | Increment(delta: int)
    | LockAcquire(ttl: real)
    | LockRelease(tokenInExtra: Option<int>)
    | Batch(operations: seq<LogEntry>)
    | JobSubmit(spec: JobSpec)
    | JobAssign(idInExtra: string, worker: string)
    | JobComplete(idInExtra: string, tokenInExtra: Option<int>, result: Option<string>)
    | JobFail(idInExtra: string, error: Option<string>)
    | JobCancel(idInExtra: string)
    | MembershipChange(action: string)
    | Noop
    | Unhandled

  /** A log entry; `timestamp` is the time the command is judged at. */
  datatype LogEntry = LogEntry(
    index: int,
    term: int,
    timestamp: real,
    key: Option<string>,
    clientId: Option<string>,
    fencingToken: Option<int>,
    command: Command)

  datatype Lock = Lock(holder: string, token: int, acquiredAt: real, ttl: real)

  predicate Expired(l: Lock, now: real) {
    now > l.acquiredAt + l.ttl
  }

  datatype JobStatus = Submitted | Assigned | Completed | Failed | Cancelled

  datatype Job = Job(
    payload: string,
    priority: int,
    status: JobStatus,
    submittedBy: string,
    assignedTo: Option<string>,
    assignedAt: Option<real>,
    timeout: real,
    retryCount: int,
    maxRetries: int,
    token: Option<int>,
    result: Option<string>,
    error: Option<string>,
    createdAt: real,
    completedAt: Option<real>)
}
