/**
 When a batch that raises leaves no trace.  A batch runs its commands in order and stops where one
 raises, keeping what the earlier ones did.  `Clean` decides from the entry alone, without a machine,
 whether that can ever leave a trace.
 */
module Batches {
  import opened Wrappers
  import opened Models
  import opened StateMachine
  import opened KeyFates
  import opened Effects

  // ----- A batch is its commands, run until one raises -----

  /** The commands of an entry, batches expanded. */
  function Parts(e: LogEntry): (r: seq<LogEntry>)
    ensures forall l :: l in r ==> !l.command.Batch?
    decreases e, 0
  {
    if e.command.Batch? then PartsOf(e.command.operations) else [e]
  }

  function PartsOf(ops: seq<LogEntry>): (r: seq<LogEntry>)
    ensures forall l :: l in r ==> !l.command.Batch?
    decreases ops
  {
    if ops == [] then [] else Parts(ops[0]) + PartsOf(ops[1..])
  }

  /** The machine where the run ends, and whether it ran to the end. */
  function RunUntil(m: Machine, ls: seq<LogEntry>): (Machine, bool)
    requires Flat(ls)
    decreases |ls|
  {
    if ls == [] then (m, true)
    else
      var (m', o) := Step(m, ls[0]);
      if o.Raised? then (m', false) else RunUntil(m', ls[1..])
  }

  lemma {:induction false} RunUntilConcat(m: Machine, a: seq<LogEntry>, b: seq<LogEntry>)
    requires Flat(a) && Flat(b)
    ensures Flat(a + b)
    ensures RunUntil(m, a + b) == if RunUntil(m, a).1 then RunUntil(RunUntil(m, a).0, b) else RunUntil(m, a)
    decreases |a|
  {
    if a == [] {
      assert a + b == b;
    } else {
      assert (a + b)[0] == a[0] && (a + b)[1..] == a[1..] + b;
      if Step(m, a[0]).1.Ok? { RunUntilConcat(Step(m, a[0]).0, a[1..], b); }
    }
  }

  lemma {:induction false} ApplyIsParts(m: Machine, e: LogEntry)
    ensures Apply(m, e).0 == RunUntil(m, Parts(e)).0 && (Apply(m, e).1.Ok? <==> RunUntil(m, Parts(e)).1)
    decreases e, 0
  {
    if e.command.Batch? {
      BatchIsParts(m, e.command.operations);
    } else {
      assert [e][1..] == [];
    }
  }

  lemma {:induction false} BatchIsParts(m: Machine, ops: seq<LogEntry>)
    ensures ApplyBatch(m, ops).0 == RunUntil(m, PartsOf(ops)).0
    ensures ApplyBatch(m, ops).1.Some? <==> RunUntil(m, PartsOf(ops)).1
    decreases ops
  {
    if ops != [] {
      ApplyIsParts(m, ops[0]);
      RunUntilConcat(m, Parts(ops[0]), PartsOf(ops[1..]));
      BatchIsParts(Apply(m, ops[0]).0, ops[1..]);
    }
  }

  // ----- One key at a time -----

  function At(kv: map<string, Value>, k: string): Option<Value> {
    if k in kv then Some(kv[k]) else None
  }

  lemma KvStepKey(m: Machine, l: LogEntry, k: string)
    requires IsKv(l)
    ensures StepKv(m, l).1.Raised? <==> l.key.Some? && KeyStep(l, l.key.value, At(m.kv, l.key.value)).Fails?
    ensures StepKv(m, l).1.Ok? ==> KeyStep(l, k, At(m.kv, k)) == Holds(At(StepKv(m, l).0.kv, k))
    ensures Rest(StepKv(m, l).0) == Rest(m)
  {
  }

  lemma OtherStepKey(m: Machine, l: LogEntry)
    requires !l.command.Batch? && !IsKv(l)
    ensures Step(m, l).1.Ok? && Step(m, l).0.kv == m.kv
  {
  }

  lemma StepKey(m: Machine, l: LogEntry, k: string)
    requires !l.command.Batch?
    ensures Step(m, l).1.Raised? <==> l.key.Some? && KeyStep(l, l.key.value, At(m.kv, l.key.value)).Fails?
    ensures Step(m, l).1.Ok? ==> KeyStep(l, k, At(m.kv, k)) == Holds(At(Step(m, l).0.kv, k))
  {
    if IsKv(l) { KvStepKey(m, l, k); } else { OtherStepKey(m, l); }
  }

  lemma {:induction false} RunKey(m: Machine, ls: seq<LogEntry>, k: string)
    requires Flat(ls) && RunUntil(m, ls).1
    ensures KeyRun(ls, k, At(m.kv, k)) == Holds(At(RunUntil(m, ls).0.kv, k))
    decreases |ls|
  {
    if ls != [] {
      StepKey(m, ls[0], k);
      RunKey(Step(m, ls[0]).0, ls[1..], k);
    }
  }

  /** A run completes when no key fails. */
  lemma {:induction false} RunCompletes(m: Machine, ls: seq<LogEntry>)
    requires Flat(ls) && forall k :: k in Keys(ls) ==> KeyRun(ls, k, At(m.kv, k)).Holds?
    ensures RunUntil(m, ls).1
    decreases |ls|
  {
    if ls != [] {
      StepKey(m, ls[0], "");
      if ls[0].key.Some? { assert ls[0].key.value in Keys(ls); }
      var m' := Step(m, ls[0]).0;
      forall k | k in Keys(ls[1..]) ensures KeyRun(ls[1..], k, At(m'.kv, k)).Holds? {
        KeysTail(ls, k);
        StepKey(m, ls[0], k);
      }
      RunCompletes(m', ls[1..]);
    }
  }

  function Keys(ls: seq<LogEntry>): set<string> {
    set l | l in ls && l.key.Some? :: l.key.value
  }

  lemma KeysTail(ls: seq<LogEntry>, k: string)
    requires ls != [] && k in Keys(ls[1..])
    ensures k in Keys(ls)
  {
    var l :| l in ls[1..] && l.key == Some(k);
    assert l in ls;
  }

  // ----- The parts of the machine besides the key-values -----

  lemma StepRest(m: Machine, l: LogEntry)
    requires !l.command.Batch?
    ensures Rest(Step(m, l).0) == if IsKv(l) then Rest(m) else Step(Rest(m), l).0
  {
    if IsKv(l) {
      KvStepKey(m, l, "");
    } else if IsJobCommand(l) {
      JobRest(m, l);
    }
  }

  lemma JobRest(m: Machine, l: LogEntry)
    requires IsJobCommand(l)
    ensures Rest(StepJob(m, l).0) == StepJob(Rest(m), l).0
  {
  }

  lemma {:induction false} RunRest(m: Machine, ls: seq<LogEntry>)
    requires Flat(ls) && RunUntil(m, ls).1
    ensures Rest(RunUntil(m, ls).0) == RestRun(Rest(m), ls)
    decreases |ls|
  {
    if ls != [] {
      StepRest(m, ls[0]);
      RunRest(Step(m, ls[0]).0, ls[1..]);
    }
  }

  lemma SameMachine(m: Machine, n: Machine)
    requires Rest(m) == Rest(n) && forall k :: At(m.kv, k) == At(n.kv, k)
    ensures m == n
  {
    forall k | k in m.kv || k in n.kv ensures k in m.kv && k in n.kv && m.kv[k] == n.kv[k] {
      assert At(m.kv, k) == At(n.kv, k);
    }
    assert m.kv == n.kv;
  }

  // ----- Where a run stops -----

  predicate IsOdd(v: Option<Value>) { v.Some? && ToInt(v.value) == None }

  /** A run that raises stops before an increment of a key whose value is not a number. */
  lemma {:induction false} StopFound(m: Machine, ls: seq<LogEntry>) returns (j: nat)
    requires Flat(ls) && !RunUntil(m, ls).1
    ensures j < |ls| && Flat(ls[..j]) && RunUntil(m, ls[..j]) == (RunUntil(m, ls).0, true)
    ensures ls[j].command.Increment? && ls[j].key.Some? && IsOdd(At(RunUntil(m, ls).0.kv, ls[j].key.value))
    decreases |ls|
  {
    assert ls[0] in ls;
    StepRaisesCleanly(m, ls[0]);
    if Step(m, ls[0]).1.Raised? {
      j := 0;
    } else {
      var i := StopFound(Step(m, ls[0]).0, ls[1..]);
      j := i + 1;
      assert ls[..j][0] == ls[0] && ls[..j][1..] == ls[1..][..i];
    }
  }

  lemma StopsThere(m: Machine, ls: seq<LogEntry>, j: nat)
    requires Flat(ls) && j < |ls| && Flat(ls[..j]) && RunUntil(m, ls[..j]).1
    requires ls[j].command.Increment? && ls[j].key.Some? && IsOdd(At(RunUntil(m, ls[..j]).0.kv, ls[j].key.value))
    ensures RunUntil(m, ls) == (RunUntil(m, ls[..j]).0, false)
  {
    assert ls == ls[..j] + ls[j..] && Flat(ls[j..]);
    RunUntilConcat(m, ls[..j], ls[j..]);
  }

  // ----- The exact condition -----

  /** Something other than key k can change. */
  predicate Disturbs(ls: seq<LogEntry>, k: string) {
    (exists l :: l in ls && Effective(l)) || (exists x :: x in Keys(ls) && x != k && Moves(ls, x))
  }

  /** The commands can all succeed, leave key k on a value that is not a number, and change something. */
  predicate Upsets(ls: seq<LogEntry>, k: string) {
    && (forall x :: x in Keys(ls) && x != k ==> Passes(ls, x))
    && (MovesOdd(ls, k) || (EndsOdd(ls, k) && Disturbs(ls, k)))
  }

  /** No increment of the entry can meet a value it cannot read after the entry has changed something. */
  predicate Clean(e: LogEntry) {
    var ls := Parts(e);
    forall j :: 0 <= j < |ls| && ls[j].command.Increment? && ls[j].key.Some? ==> !Upsets(ls[..j], ls[j].key.value)
  }

  /** The commands run from m to the end, leave key k on a value that is not a number, and have changed m. */
  ghost predicate UpsetBy(m: Machine, ls: seq<LogEntry>, k: string)
    requires Flat(ls)
  {
    var (m', done) := RunUntil(m, ls);
    done && IsOdd(At(m'.kv, k)) && m' != m
  }

  lemma UntouchedStays(ls: seq<LogEntry>, k: string, u: Option<Value>)
    requires k !in Keys(ls)
    ensures KeyRun(ls, k, u) == Holds(u)
  {
    forall l | l in ls ensures !Changes(l, k) {}
    NoChange(ls, k, u);
  }

  lemma UpsetMeansUpsets(m: Machine, ls: seq<LogEntry>, k: string)
    requires Flat(ls) && UpsetBy(m, ls, k)
    ensures Upsets(ls, k)
  {
    var m' := RunUntil(m, ls).0;
    forall x ensures KeyRun(ls, x, At(m.kv, x)) == Holds(At(m'.kv, x)) { RunKey(m, ls, x); }
    forall x | x in Keys(ls) && x != k ensures Passes(ls, x) {
      PassesExactly(ls, x);
      assert KeyRun(ls, x, At(m.kv, x)).Holds?;
    }
    EndsOddFrom(ls, k, At(m.kv, k));
    if At(m'.kv, k) != At(m.kv, k) {
      assert OddFrom(ls, k, At(m.kv, k));
      MovesOddExactly(ls, k);
    } else if x :| At(m'.kv, x) != At(m.kv, x) {
      if x !in Keys(ls) { UntouchedStays(ls, x, At(m.kv, x)); }
      assert MovesFrom(ls, x, At(m.kv, x));
      MovesExactly(ls, x);
    } else {
      if Rest(m') == Rest(m) { SameMachine(m', m); }
      RunRest(m, ls);
      if forall l :: l in ls ==> !Effective(l) { NoEffect(Rest(m), ls); }
    }
  }

  /** A start for each key: for k the given one, for x the given one, and for the others one that succeeds. */
  ghost function Start(ls: seq<LogEntry>, k: string, u: Option<Value>, x: string, w: Option<Value>, y: string): (r: Option<Value>)
    requires y in Keys(ls) && y != k ==> Passes(ls, y)
    ensures y == k ==> r == u
    ensures y != k && y == x ==> r == w
    ensures y != k && y != x && y in Keys(ls) ==> KeyRun(ls, y, r).Holds?
  {
    if y == k then u
    else if y == x then w
    else if y !in Keys(ls) then None
    else
      PassesExactly(ls, y);
      var r :| KeyRun(ls, y, r).Holds?;
      r
  }

  ghost function StartKv(ls: seq<LogEntry>, k: string, u: Option<Value>, x: string, w: Option<Value>): map<string, Value>
    requires forall y :: y in Keys(ls) && y != k ==> Passes(ls, y)
  {
    map y | y in Keys(ls) + {k, x} && Start(ls, k, u, x, w, y).Some? :: Start(ls, k, u, x, w, y).value
  }

  lemma StartRuns(ls: seq<LogEntry>, k: string, u: Option<Value>, x: string, w: Option<Value>, rest: Machine) returns (m: Machine)
    requires Flat(ls) && (forall y :: y in Keys(ls) && y != k ==> Passes(ls, y))
    requires KeyRun(ls, k, u).Holds? && (x != k ==> KeyRun(ls, x, w).Holds?)
    ensures RunUntil(m, ls).1 && Rest(m) == Rest(rest)
    ensures At(m.kv, k) == u && (x != k ==> At(m.kv, x) == w)
  {
    m := rest.(kv := StartKv(ls, k, u, x, w));
    forall y | y in Keys(ls) ensures KeyRun(ls, y, At(m.kv, y)).Holds? {
      assert At(m.kv, y) == Start(ls, k, u, x, w, y);
    }
    RunCompletes(m, ls);
  }

  lemma UpsetsMeansUpset(ls: seq<LogEntry>, k: string) returns (m: Machine)
    requires Flat(ls) && Upsets(ls, k)
    ensures UpsetBy(m, ls, k)
  {
    if MovesOdd(ls, k) {
      MovesOddExactly(ls, k);
      var u :| OddFrom(ls, k, u);
      m := StartRuns(ls, k, u, k, u, EMPTY);
      RunKey(m, ls, k);
    } else {
      var u := OddWitness(ls, k);
      if l :| l in ls && Effective(l) {
        var rest := EffectWitness(ls);
        m := StartRuns(ls, k, u, k, u, rest);
        RunRest(m, ls);
      } else {
        var x :| x in Keys(ls) && x != k && Moves(ls, x);
        var w := MoveWitness(ls, x);
        m := StartRuns(ls, k, u, x, w, EMPTY);
        RunKey(m, ls, x);
      }
      RunKey(m, ls, k);
    }
  }

  /** An entry that raises leaves no trace, on whatever machine, exactly when it is clean. */
  lemma CleanExactly(e: LogEntry)
    ensures Clean(e) <==> forall m :: Apply(m, e).1.Raised? ==> Apply(m, e).0 == m
  {
    var ls := Parts(e);
    if Clean(e) {
      forall m | Apply(m, e).1.Raised? ensures Apply(m, e).0 == m { CleanRaises(m, e); }
    } else {
      var j :| 0 <= j < |ls| && ls[j].command.Increment? && ls[j].key.Some? && Upsets(ls[..j], ls[j].key.value);
      var m := UpsetsMeansUpset(ls[..j], ls[j].key.value);
      StopsThere(m, ls, j);
      ApplyIsParts(m, e);
    }
  }

  lemma CleanRaises(m: Machine, e: LogEntry)
    requires Clean(e) && Apply(m, e).1.Raised?
    ensures Apply(m, e).0 == m
  {
    var ls := Parts(e);
    ApplyIsParts(m, e);
    var j := StopFound(m, ls);
    if RunUntil(m, ls).0 != m { UpsetMeansUpsets(m, ls[..j], ls[j].key.value); }
  }

  /** A command outside a batch is clean. */
  lemma SingleIsClean(e: LogEntry)
    requires !e.command.Batch?
    ensures Clean(e)
  {
    var ls := Parts(e);
    forall j | 0 <= j < |ls| && ls[j].command.Increment? && ls[j].key.Some?
      ensures !Upsets(ls[..j], ls[j].key.value)
    {
      assert ls[..j] == [];
    }
  }
}
