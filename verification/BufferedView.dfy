/** When a transaction's buffered view of a key is exactly what its commit stores. */
module BufferedView {
  import opened Wrappers
  import opened Models
  import opened Transactions

  /** What a client does in a session; a read carries the value the store held at that moment. */
  datatype Action = Do(op: TxOp) | ReadAs(key: string, value: Value)

  function Session(acts: seq<Action>): Context {
    if acts == [] then NEW_CONTEXT
    else
      var c := Session(acts[..|acts| - 1]);
      match acts[|acts| - 1]
      case Do(op) => Buffer(c, op)
      case ReadAs(k, v) => BufferRead(c, k, v)
  }

  /** The values the session read from the store are still there in `kv`, the store at commit. */
  ghost predicate ReadsUnchanged(acts: seq<Action>, kv: map<string, Value>) {
    acts != [] ==>
      && ReadsUnchanged(acts[..|acts| - 1], kv)
      && match acts[|acts| - 1]
         case Do(_) => true
         case ReadAs(k, v) => k in Session(acts[..|acts| - 1]).writes || v == Lookup(kv, k, Null)
  }

  /** Some action on the key so far: a read, set, delete or increment. */
  predicate Touched(acts: seq<Action>, key: string) {
    exists a :: a in acts && match a case Do(op) => op.key == key case ReadAs(k, _) => k == key
  }

  /** The key was incremented blindly (with no earlier action on it) and not set or deleted since. */
  predicate Blind(acts: seq<Action>, key: string) {
    acts != [] &&
    var front := acts[..|acts| - 1];
    match acts[|acts| - 1]
    case Do(SetOp(k, _, _)) => k != key && Blind(front, key)
    case Do(DeleteOp(k, _)) => k != key && Blind(front, key)
    case Do(IncrementOp(k, _, _)) => Blind(front, key) || (k == key && !Touched(front, key))
    case ReadAs(_, _) => Blind(front, key)
  }

  /** What the store's value contributes to a blind increment: nothing if it is absent, zero or not a number. */
  function Offset(kv: map<string, Value>, key: string): int {
    ToInt(Lookup(kv, key, Int(0))).GetOr(0)
  }

  /** What a session `c` and its commit result `stored` know of a key. */
  ghost predicate KeyOk(c: Context, stored: map<string, Value>, kv: map<string, Value>, key: string, touched: bool, blind: bool) {
    && (touched <==> key in c.writes || key in c.readValues)
    && (key !in c.writes ==>
         && !blind
         && (key in stored <==> key in kv) && Lookup(stored, key, Null) == Lookup(kv, key, Null)
         && (key in c.readValues ==> c.readValues[key] == Lookup(kv, key, Null)))
    && (key in c.writes && !blind ==> Lookup(stored, key, Null) == c.writes[key])
    && (key in c.writes && blind ==>
         && c.writes[key].Int? && key in stored
         && stored[key] == Int(c.writes[key].n + Offset(kv, key)))
  }

  /** Whether the key is blind after one more operation. */
  function BlindAfter(op: TxOp, key: string, touched: bool, blind: bool): bool {
    if op.key != key then blind else op.IncrementOp? && (blind || !touched)
  }

  lemma OpKeeps(c: Context, stored: map<string, Value>, kv: map<string, Value>, key: string, touched: bool, blind: bool, op: TxOp)
    requires KeyOk(c, stored, kv, key, touched, blind)
    ensures KeyOk(Buffer(c, op), ApplyOp(stored, op), kv, key, touched || op.key == key, BlindAfter(op, key, touched, blind))
  {
  }

  ghost predicate KeyState(acts: seq<Action>, kv: map<string, Value>, key: string) {
    KeyOk(Session(acts), ApplyOps(kv, Session(acts).ops), kv, key, Touched(acts, key), Blind(acts, key))
  }

  lemma TouchedNext(acts: seq<Action>, key: string)
    requires acts != []
    ensures
      var last := acts[|acts| - 1];
      Touched(acts, key) <==>
        Touched(acts[..|acts| - 1], key) || (match last case Do(op) => op.key == key case ReadAs(k, _) => k == key)
  {
    var front, last := acts[..|acts| - 1], acts[|acts| - 1];
    assert acts == front + [last];
    assert last in acts;
    if Touched(front, key) {
      var a :| a in front && match a case Do(op) => op.key == key case ReadAs(k, _) => k == key;
      assert a in acts;
    }
  }

  lemma DoNext(c: Context, op: TxOp, kv: map<string, Value>)
    ensures ApplyOps(kv, Buffer(c, op).ops) == ApplyOp(ApplyOps(kv, c.ops), op)
  {
    assert (c.ops + [op])[..|c.ops|] == c.ops;
  }

  lemma {:induction false} KeyStateHolds(acts: seq<Action>, kv: map<string, Value>, key: string)
    requires ReadsUnchanged(acts, kv)
    ensures KeyState(acts, kv, key)
    decreases |acts|
  {
    if acts != [] {
      var front, last := acts[..|acts| - 1], acts[|acts| - 1];
      KeyStateHolds(front, kv, key);
      TouchedNext(acts, key);
      match last {
        case Do(op) =>
          DoNext(Session(front), op, kv);
          OpKeeps(Session(front), ApplyOps(kv, Session(front).ops), kv, key, Touched(front, key), Blind(front, key), op);
        case ReadAs(_, _) =>
      }
    }
  }

  /**
   For every key a session writes, what the commit stores equals what the session sees, exactly unless
   the key was incremented blindly and the store held a number other than zero for it.
   */
  lemma BufferedViewExactly(acts: seq<Action>, kv: map<string, Value>, key: string)
    requires ReadsUnchanged(acts, kv) && key in Session(acts).writes
    ensures Lookup(ApplyOps(kv, Session(acts).ops), key, Null) == Session(acts).writes[key]
            <==> !Blind(acts, key) || Offset(kv, key) == 0
  {
    KeyStateHolds(acts, kv, key);
  }

  /** Every increment of the key comes after a set, delete or read of it. */
  ghost predicate Guarded(acts: seq<Action>, key: string) {
    forall i :: 0 <= i < |acts| && acts[i].Do? && acts[i].op.IncrementOp? && acts[i].op.key == key ==>
      exists j :: 0 <= j < i &&
        match acts[j]
        case Do(SetOp(k, _, _)) => k == key
        case Do(DeleteOp(k, _)) => k == key
        case Do(IncrementOp(_, _, _)) => false
        case ReadAs(k, _) => k == key
  }

  lemma {:induction false} GuardedIsNotBlind(acts: seq<Action>, key: string)
    requires Guarded(acts, key)
    ensures !Blind(acts, key)
    decreases |acts|
  {
    if acts != [] {
      var front, last := acts[..|acts| - 1], acts[|acts| - 1];
      GuardedIsNotBlind(front, key);
      if last.Do? && last.op.IncrementOp? && last.op.key == key {
        var j :| 0 <= j < |acts| - 1 && match acts[j]
          case Do(SetOp(k, _, _)) => k == key
          case Do(DeleteOp(k, _)) => k == key
          case Do(IncrementOp(_, _, _)) => false
          case ReadAs(k, _) => k == key;
        assert front[j] == acts[j] && front[j] in front;
      }
    }
  }

  /** With every increment guarded, the committed value of each written key is its buffered value. */
  lemma BufferedViewEqualsCommit(acts: seq<Action>, kv: map<string, Value>, key: string)
    requires ReadsUnchanged(acts, kv) && Guarded(acts, key) && key in Session(acts).writes
    ensures Lookup(ApplyOps(kv, Session(acts).ops), key, Null) == Session(acts).writes[key]
  {
    GuardedIsNotBlind(acts, key);
    BufferedViewExactly(acts, kv, key);
  }
}
