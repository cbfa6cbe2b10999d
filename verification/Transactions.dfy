/** The transaction coordinator: buffered operations, key locks, version checks and commit. */
module Transactions {
  import opened Wrappers
  import opened Models

  datatype TxOp =
    | SetOp(key: string, value: Value, expected: Option<int>)
    | IncrementOp(key: string, delta: int, expected: Option<int>)
    | DeleteOp(key: string, expected: Option<int>)

  // ----- The client's context -----

  datatype Context = Context(ops: seq<TxOp>, readValues: map<string, Value>, writes: map<string, Value>)

  const NEW_CONTEXT := Context([], map[], map[])

  /** The buffered value an increment starts from. */
  function BufferedStart(c: Context, key: string): Value {
    Lookup(c.writes, key, Lookup(c.readValues, key, Int(0)))
  }

  /** `int(v) + delta`, falling back to `delta` where `int(v)` raises. */
  function Incremented(v: Value, delta: int): Value {
    match ToInt(v)
    case Some(n) => Int(n + delta)
    case None => Int(delta)
  }

  function Buffer(c: Context, op: TxOp): Context {
    Context(c.ops + [op], c.readValues,
      match op
      case SetOp(k, v, _) => c.writes[k := v]
      case IncrementOp(k, d, _) => c.writes[k := Incremented(BufferedStart(c, k), d)]
      case DeleteOp(k, _) => c.writes[k := Null])
  }

  /** A read that misses the buffer records what the store holds. */
  function BufferRead(c: Context, key: string, stored: Value): Context {
    if key in c.writes then c else c.(readValues := c.readValues[key := stored])
  }

  // ----- The coordinator -----

  datatype TxStatus = Active | Prepared | Committed | Aborted | TimedOut

  datatype TxRecord = TxRecord(
    status: TxStatus, ops: seq<TxOp>, writes: map<string, Value>, createdAt: real, timeout: real)

  datatype Coordinator = Coordinator(
    txs: map<string, TxRecord>,
    locks: map<string, string>,
    versions: map<string, int>,
    kv: map<string, Value>)

  const NEW_COORDINATOR := Coordinator(map[], map[], map[], map[])

  function Version(versions: map<string, int>, key: string): int {
    if key in versions then versions[key] else 0
  }

  function Begin(c: Coordinator, id: string, now: real, timeout: real): Coordinator {
    c.(txs := c.txs[id := TxRecord(Active, [], map[], now, timeout)])
  }

  predicate TxExpired(tx: TxRecord, now: real) {
    tx.status != Committed && tx.status != Aborted && now > tx.createdAt + tx.timeout
  }

  /** The record as the prepare phase sees it: the context's operations and writes, when one is given. */
  function Loaded(tx: TxRecord, context: Option<Context>): TxRecord {
    match context
    case Some(x) => tx.(ops := x.ops, writes := x.writes)
    case None => tx
  }

  predicate NoConflict(c: Coordinator, id: string, writes: map<string, Value>) {
    forall k :: k in writes && k in c.locks ==> c.locks[k] == id
  }

  predicate VersionsCurrent(versions: map<string, int>, ops: seq<TxOp>) {
    forall op :: op in ops && op.expected.Some? ==> op.expected.value == Version(versions, op.key)
  }

  predicate VotesYes(c: Coordinator, id: string, context: Option<Context>, now: real) {
    && id in c.txs
    && var tx := Loaded(c.txs[id], context);
    !TxExpired(tx, now) && NoConflict(c, id, tx.writes) && VersionsCurrent(c.versions, tx.ops)
  }

  function LockAll(locks: map<string, string>, keys: set<string>, id: string): map<string, string> {
    locks + map k | k in keys :: id
  }

  lemma LockOneMore(locks: map<string, string>, keys: set<string>, k: string, id: string)
    ensures LockAll(locks, keys, id)[k := id] == LockAll(locks, keys + {k}, id)
  {
  }

  function Prepare(c: Coordinator, id: string, context: Option<Context>, now: real): Coordinator {
    if id !in c.txs then c
    else
      var tx := Loaded(c.txs[id], context);
      if TxExpired(tx, now) then c.(txs := c.txs[id := tx.(status := TimedOut)])
      else if VotesYes(c, id, context, now) then
        c.(txs := c.txs[id := tx.(status := Prepared)], locks := LockAll(c.locks, tx.writes.Keys, id))
      else c.(txs := c.txs[id := tx])
  }

  function ApplyOp(kv: map<string, Value>, op: TxOp): map<string, Value> {
    match op
    case SetOp(k, v, _) => kv[k := v]
    case IncrementOp(k, d, _) => kv[k := Incremented(Lookup(kv, k, Int(0)), d)]
    case DeleteOp(k, _) => kv - {k}
  }

  function ApplyOps(kv: map<string, Value>, ops: seq<TxOp>): map<string, Value> {
    if ops == [] then kv else ApplyOp(ApplyOps(kv, ops[..|ops| - 1]), ops[|ops| - 1])
  }

  function BumpAll(versions: map<string, int>, ops: seq<TxOp>): map<string, int> {
    if ops == [] then versions
    else
      var front := BumpAll(versions, ops[..|ops| - 1]);
      var k := ops[|ops| - 1].key;
      front[k := Version(front, k) + 1]
  }

  function Unlock(locks: map<string, string>, keys: set<string>, id: string): map<string, string> {
    map k | k in locks && !(k in keys && locks[k] == id) :: locks[k]
  }

  /** The second critical section of a commit: apply, bump versions, release, close. */
  function ApplyCommit(c: Coordinator, id: string): Coordinator
    requires id in c.txs
  {
    var tx := c.txs[id];
    Coordinator(c.txs[id := tx.(status := Committed)], Unlock(c.locks, tx.writes.Keys, id),
                BumpAll(c.versions, tx.ops), ApplyOps(c.kv, tx.ops))
  }

  function Rollback(c: Coordinator, id: string): Coordinator {
    if id !in c.txs then c
    else
      var tx := c.txs[id];
      c.(txs := c.txs[id := tx.(status := Aborted)], locks := Unlock(c.locks, tx.writes.Keys, id))
  }

  /** Commit with nothing interleaved between its critical sections. */
  function CommitAtOnce(c: Coordinator, id: string, context: Option<Context>, now: real): (Coordinator, bool) {
    if id !in c.txs then (c, false)
    else if c.txs[id].status == Prepared then (ApplyCommit(c, id), true)
    else if VotesYes(c, id, context, now) then (ApplyCommit(Prepare(c, id, context, now), id), true)
    else (Rollback(Prepare(c, id, context, now), id), false)
  }

  /** A client session; `ok` is false where the source raises because the transaction is closed. */
  class TransactionContext {
    var operations: seq<TxOp>
    var readSet: map<string, Value>
    var writeSet: map<string, Value>
    var closed: bool

    function View(): Context
      reads this
    {
      Context(operations, readSet, writeSet)
    }

    constructor ()
      ensures View() == NEW_CONTEXT && !closed
    {
      operations, readSet, writeSet, closed := [], map[], map[], false;
    }

    method Set(key: string, value: Value, expected: Option<int>) returns (ok: bool)
      modifies this
      ensures ok == !old(closed) && closed == old(closed)
      ensures View() == if ok then Buffer(old(View()), SetOp(key, value, expected)) else old(View())
    {
      if closed { return false; }
      operations := operations + [SetOp(key, value, expected)];
      writeSet := writeSet[key := value];
      ok := true;
    }

    method Increment(key: string, delta: int, expected: Option<int>) returns (ok: bool)
      modifies this
      ensures ok == !old(closed) && closed == old(closed)
      ensures View() == if ok then Buffer(old(View()), IncrementOp(key, delta, expected)) else old(View())
    {
      if closed { return false; }
      operations := operations + [IncrementOp(key, delta, expected)];
      var curr := if key in writeSet then writeSet[key] else if key in readSet then readSet[key] else Int(0);
      match ToInt(curr) {
        case Some(n) => writeSet := writeSet[key := Int(n + delta)];
        case None => writeSet := writeSet[key := Int(delta)];
      }
      ok := true;
    }

    method Delete(key: string, expected: Option<int>) returns (ok: bool)
      modifies this
      ensures ok == !old(closed) && closed == old(closed)
      ensures View() == if ok then Buffer(old(View()), DeleteOp(key, expected)) else old(View())
    {
      if closed { return false; }
      operations := operations + [DeleteOp(key, expected)];
      writeSet := writeSet[key := Null];
      ok := true;
    }

    method Get(key: string, coordinator: TransactionCoordinator) returns (v: Option<Value>)
      modifies this
      ensures closed == old(closed)
      ensures old(closed) ==> v == None && View() == old(View())
      ensures !old(closed) ==>
        && View() == BufferRead(old(View()), key, Lookup(coordinator.kv, key, Null))
        && v == Some(if key in old(writeSet) then old(writeSet)[key] else Lookup(coordinator.kv, key, Null))
    {
      if closed { return None; }
      if key in writeSet { return Some(writeSet[key]); }
      var stored := Lookup(coordinator.kv, key, Null);
      readSet := readSet[key := stored];
      v := Some(stored);
    }

    /** Closing happens once: a second commit raises (`None`) and a second rollback answers false. */
    method Commit(coordinator: TransactionCoordinator, id: string, now: real) returns (r: Option<bool>)
      modifies this, coordinator
      ensures closed
      ensures old(closed) ==> r == None && coordinator.View() == old(coordinator.View())
      ensures !old(closed) ==>
        r.Some? && (coordinator.View(), r.value) == CommitAtOnce(old(coordinator.View()), id, Some(old(View())), now)
    {
      if closed { return None; }
      closed := true;
      var done := coordinator.CommitTransaction(id, Some(View()), now);
      r := Some(done);
    }

    method RollbackOnce(coordinator: TransactionCoordinator, id: string) returns (r: bool)
      modifies this, coordinator
      ensures closed
      ensures old(closed) ==> !r && coordinator.View() == old(coordinator.View())
      ensures !old(closed) ==> coordinator.View() == Rollback(old(coordinator.View()), id)
      ensures !old(closed) ==> r == (id in old(coordinator.activeTxs))
    {
      if closed { return false; }
      closed := true;
      r := coordinator.RollbackTransaction(id);
    }
  }

  class TransactionCoordinator {
    var activeTxs: map<string, TxRecord>
    var keyLocks: map<string, string>
    var keyVersions: map<string, int>
    var kv: map<string, Value>

    function View(): Coordinator
      reads this
    {
      Coordinator(activeTxs, keyLocks, keyVersions, kv)
    }

    constructor ()
      ensures View() == NEW_COORDINATOR
    {
      activeTxs, keyLocks, keyVersions, kv := map[], map[], map[], map[];
    }

    method BeginTransaction(id: string, now: real, timeout: real)
      modifies this
      ensures View() == Begin(old(View()), id, now, timeout)
    {
      activeTxs := activeTxs[id := TxRecord(Active, [], map[], now, timeout)];
    }

    /** Whether every expected version is the current one. */
    method CheckVersions(ops: seq<TxOp>) returns (ok: bool)
      ensures ok == VersionsCurrent(keyVersions, ops)
    {
      for i := 0 to |ops|
        invariant VersionsCurrent(keyVersions, ops[..i])
      {
        assert ops[..i + 1] == ops[..i] + [ops[i]];
        if ops[i].expected.Some? && ops[i].expected.value != Version(keyVersions, ops[i].key) {
          assert ops[i] in ops;
          return false;
        }
      }
      assert ops[..|ops|] == ops;
      ok := true;
    }

    /** Whether no other transaction holds a key to be written. */
    method CheckLocks(id: string, writes: map<string, Value>) returns (free: bool)
      ensures free == NoConflict(View(), id, writes)
    {
      var keys := writes.Keys;
      while keys != {}
        invariant keys <= writes.Keys
        invariant forall k :: k in writes && k !in keys && k in keyLocks ==> keyLocks[k] == id
        decreases keys
      {
        var k :| k in keys;
        if k in keyLocks && keyLocks[k] != id { return false; }
        keys := keys - {k};
      }
      free := true;
    }

    method GrantLocks(keys: set<string>, id: string)
      modifies this`keyLocks
      ensures keyLocks == LockAll(old(keyLocks), keys, id)
    {
      var rest := keys;
      ghost var before, done: set<string> := keyLocks, {};
      while rest != {}
        invariant done + rest == keys
        invariant keyLocks == LockAll(before, done, id)
        decreases rest
      {
        var k :| k in rest;
        LockOneMore(before, done, k, id);
        keyLocks := keyLocks[k := id];
        rest := rest - {k};
        done := done + {k};
      }
    }

    method PrepareTransaction(id: string, context: Option<Context>, now: real) returns (vote: bool)
      modifies this
      ensures View() == Prepare(old(View()), id, context, now)
      ensures vote == VotesYes(old(View()), id, context, now)
    {
      if id !in activeTxs { return false; }
      var tx := Loaded(activeTxs[id], context);
      activeTxs := activeTxs[id := tx];
      if TxExpired(tx, now) {
        activeTxs := activeTxs[id := tx.(status := TimedOut)];
        return false;
      }
      var free := CheckLocks(id, tx.writes);
      if !free { return false; }
      var current := CheckVersions(tx.ops);
      if !current { return false; }
      GrantLocks(tx.writes.Keys, id);
      activeTxs := activeTxs[id := tx.(status := Prepared)];
      vote := true;
    }

    method ReleaseLocks(keys: set<string>, id: string)
      modifies this`keyLocks
      ensures keyLocks == Unlock(old(keyLocks), keys, id)
    {
      var rest := keys;
      while rest != {}
        invariant rest <= keys
        invariant keyLocks == Unlock(old(keyLocks), keys - rest, id)
        decreases rest
      {
        var k :| k in rest;
        if k in keyLocks && keyLocks[k] == id { keyLocks := keyLocks - {k}; }
        rest := rest - {k};
      }
    }

    method ApplyOperation(op: TxOp)
      modifies this`kv, this`keyVersions
      ensures kv == ApplyOp(old(kv), op)
      ensures keyVersions == old(keyVersions)[op.key := Version(old(keyVersions), op.key) + 1]
    {
      match op {
        case SetOp(k, v, _) => kv := kv[k := v];
        case IncrementOp(k, d, _) =>
          match ToInt(Lookup(kv, k, Int(0))) {
            case Some(n) => kv := kv[k := Int(n + d)];
            case None => kv := kv[k := Int(d)];
          }
        case DeleteOp(k, _) => kv := kv - {k};
      }
      keyVersions := keyVersions[op.key := Version(keyVersions, op.key) + 1];
    }

    method ApplyOperations(id: string)
      requires id in activeTxs
      modifies this
      ensures View() == ApplyCommit(old(View()), id)
    {
      var tx := activeTxs[id];
      for i := 0 to |tx.ops|
        invariant kv == ApplyOps(old(kv), tx.ops[..i]) && keyVersions == BumpAll(old(keyVersions), tx.ops[..i])
        invariant activeTxs == old(activeTxs) && keyLocks == old(keyLocks)
      {
        assert tx.ops[..i + 1][..i] == tx.ops[..i];
        ApplyOperation(tx.ops[i]);
      }
      assert tx.ops[..|tx.ops|] == tx.ops;
      ReleaseLocks(tx.writes.Keys, id);
      activeTxs := activeTxs[id := tx.(status := Committed)];
    }

    method RollbackTransaction(id: string) returns (r: bool)
      modifies this
      ensures View() == Rollback(old(View()), id) && r == (id in old(activeTxs))
    {
      if id !in activeTxs { return false; }
      var tx := activeTxs[id];
      ReleaseLocks(tx.writes.Keys, id);
      activeTxs := activeTxs[id := tx.(status := Aborted)];
      r := true;
    }

    method CommitTransaction(id: string, context: Option<Context>, now: real) returns (done: bool)
      modifies this
      ensures (View(), done) == CommitAtOnce(old(View()), id, context, now)
    {
      if id !in activeTxs { return false; }
      if activeTxs[id].status != Prepared {
        var vote := PrepareTransaction(id, context, now);
        if !vote {
          var _ := RollbackTransaction(id);
          return false;
        }
      }
      ApplyOperations(id);
      done := true;
    }
  }
}
