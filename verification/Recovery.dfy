/**
 Crash recovery.  Replay of the write-ahead log, and the runs in which transactions are the only
 writers: critical sections of transactions, segment rotations, and crashes that may lose the end
 of the log and restart the node from what is left.
 */
module Recovery {
  import opened Wrappers
  import opened Models
  import RaftLog
  import opened StateMachine
  import opened Engine
  import opened Transactions
  import opened TxSafety
  import Wal

  // ----- Replay -----

  function ReplayOp(kv: map<string, Value>, d: Wal.OpDict): map<string, Value> {
    if d.key == None then kv
    else
      var k := d.key.value;
      if d.opType == "SET" then kv[k := d.value]
      else if d.opType == "INCREMENT" then
        (match ToInt(Lookup(kv, k, Int(0)))
         case Some(n) => kv[k := Int(n + d.delta)]
         case None => kv[k := Int(d.delta)])
      else if d.opType == "DELETE" then kv - {k}
      else kv
  }

  function ReplayOps(kv: map<string, Value>, ds: seq<Wal.OpDict>): map<string, Value> {
    if ds == [] then kv else ReplayOp(ReplayOps(kv, ds[..|ds| - 1]), ds[|ds| - 1])
  }

  predicate SaysCommitted(p: Wal.Payload) {
    p.TxMarker? && (p.action == "COMMIT" || p.status == Some("COMMITTED"))
  }

  /** One record of replay; the flag is false where it raised, which replay counts and survives. */
  function RecoverOne(n: Node, p: Wal.Payload): (Node, bool) {
    match p
    case Entry(e, committed) =>
      var log := if e.index > RaftLog.LastIndex(n.log) then RaftLog.Append(n.log, e) else Some(n.log);
      if log == None then (n, false)
      else if !committed then (n.(log := log.value), true)
      else
        var marked := RaftLog.MarkApplied(RaftLog.AdvanceCommit(log.value, e.index), e.index);
        (Node(marked, Apply(n.machine, e).0), Apply(n.machine, e).1.Ok?)
    case CommitMarker(index) => (n.(log := RaftLog.AdvanceCommit(n.log, index)), true)
    case TxMarker(_, _, operations) =>
      (if SaysCommitted(p) then n.(machine := n.machine.(kv := ReplayOps(n.machine.kv, operations))) else n, true)
    case Checkpoint => (n, true)
    case SnapshotPointer => (n, true)
  }

  function RecoverAll(n: Node, ps: seq<Wal.Payload>): Node {
    if ps == [] then n else RecoverOne(RecoverAll(n, ps[..|ps| - 1]), ps[|ps| - 1]).0
  }

  function Errors(n: Node, ps: seq<Wal.Payload>): nat {
    if ps == [] then 0
    else
      var front := ps[..|ps| - 1];
      Errors(n, front) + if RecoverOne(RecoverAll(n, front), ps[|ps| - 1]).1 then 0 else 1
  }

  function Payloads(rs: seq<Wal.Record>): seq<Wal.Payload> {
    seq(|rs|, i requires 0 <= i < |rs| => rs[i].payload)
  }

  function Pointers(rs: seq<Wal.Record>): nat {
    if rs == [] then 0 else Pointers(rs[..|rs| - 1]) + if rs[|rs| - 1].payload.SnapshotPointer? then 1 else 0
  }

  function MaxSeq(rs: seq<Wal.Record>): int {
    if rs == [] then 0
    else
      var front, last := MaxSeq(rs[..|rs| - 1]), rs[|rs| - 1].seqNo;
      if last > front then last else front
  }

  /** The highest sequence number of the records, 0 if none is higher. */
  lemma {:induction false} MaxSeqIsHighest(rs: seq<Wal.Record>)
    ensures MaxSeq(rs) == 0 || exists i :: 0 <= i < |rs| && rs[i].seqNo == MaxSeq(rs)
    ensures MaxSeq(rs) >= 0 && forall i :: 0 <= i < |rs| ==> rs[i].seqNo <= MaxSeq(rs)
    decreases |rs|
  {
    if rs != [] {
      var front := rs[..|rs| - 1];
      MaxSeqIsHighest(front);
      assert forall i :: 0 <= i < |front| ==> front[i] == rs[i];
    }
  }

  /** How many of the records are pointers. */
  lemma {:induction false} PointersAreCounted(rs: seq<Wal.Record>)
    ensures Pointers(rs) == |set i | 0 <= i < |rs| && rs[i].payload.SnapshotPointer?|
    decreases |rs|
  {
    if rs != [] {
      var n := |rs| - 1;
      var front := rs[..n];
      PointersAreCounted(front);
      var small, big := set i | 0 <= i < n && front[i].payload.SnapshotPointer?, set i | 0 <= i < |rs| && rs[i].payload.SnapshotPointer?;
      assert big == small + if rs[n].payload.SnapshotPointer? then {n} else {};
    }
  }

  class CrashRecoveryManager {
    static method ReplayTransaction(operations: seq<Wal.OpDict>, machine: ReplicatedStateMachine)
      modifies machine`kv
      ensures machine.kv == ReplayOps(old(machine.kv), operations)
    {
      for i := 0 to |operations|
        invariant machine.kv == ReplayOps(old(machine.kv), operations[..i])
      {
        assert operations[..i + 1][..i] == operations[..i];
        var d := operations[i];
        if d.opType == "SET" && d.key.Some? {
          machine.kv := machine.kv[d.key.value := d.value];
        } else if d.opType == "INCREMENT" && d.key.Some? {
          match ToInt(Lookup(machine.kv, d.key.value, Int(0))) {
            case Some(n) => machine.kv := machine.kv[d.key.value := Int(n + d.delta)];
            case None => machine.kv := machine.kv[d.key.value := Int(d.delta)];
          }
        } else if d.opType == "DELETE" && d.key.Some? {
          machine.kv := machine.kv - {d.key.value};
        }
      }
      assert operations[..|operations|] == operations;
    }

    static method ReplayRecord(p: Wal.Payload, log: RaftLog.RaftLogStore, machine: ReplicatedStateMachine)
      returns (ok: bool)
      requires RaftLog.Indexed(log.View())
      modifies log, machine
      ensures RaftLog.Indexed(log.View())
      ensures (Node(log.View(), machine.View()), ok) == RecoverOne(old(Node(log.View(), machine.View())), p)
    {
      ok := true;
      match p {
        case Entry(e, committed) =>
          if e.index > RaftLog.LastIndex(log.View()) {
            var appended, _ := log.AppendEntry(e);
            if !appended { return false; }
          }
          if committed {
            var _ := log.AdvanceCommitIndex(e.index);
            log.DoMarkApplied(e.index);
            var o := machine.ApplyCommand(e);
            ok := o.Ok?;
          }
        case CommitMarker(index) => var _ := log.AdvanceCommitIndex(index);
        case TxMarker(_, _, operations) =>
          if SaysCommitted(p) { ReplayTransaction(operations, machine); }
        case Checkpoint =>
        case SnapshotPointer =>
      }
    }

    /** Every record is replayed, counted as an error, or a pointer that replay passes over. */
    static method Recover(records: seq<Wal.Record>, log: RaftLog.RaftLogStore, machine: ReplicatedStateMachine)
      returns (replayed: int, errors: int, lastSeq: int)
      requires RaftLog.Indexed(log.View())
      modifies log, machine
      ensures Node(log.View(), machine.View()) == RecoverAll(old(Node(log.View(), machine.View())), Payloads(records))
      ensures errors == Errors(old(Node(log.View(), machine.View())), Payloads(records))
      ensures replayed + errors + Pointers(records) == |records|
      ensures lastSeq == MaxSeq(records)
    {
      ghost var n := Node(log.View(), machine.View());
      ghost var ps := Payloads(records);
      replayed, errors, lastSeq := 0, 0, 0;
      for i := 0 to |records|
        invariant RaftLog.Indexed(log.View())
        invariant Node(log.View(), machine.View()) == RecoverAll(n, ps[..i]) && errors == Errors(n, ps[..i])
        invariant replayed + errors + Pointers(records[..i]) == i
        invariant lastSeq == MaxSeq(records[..i])
      {
        assert ps[..i + 1][..i] == ps[..i] && records[..i + 1][..i] == records[..i];
        if records[i].seqNo > lastSeq { lastSeq := records[i].seqNo; }
        var ok := ReplayRecord(records[i].payload, log, machine);
        if !ok {
          errors := errors + 1;
        } else if !records[i].payload.SnapshotPointer? {
          replayed := replayed + 1;
        }
      }
      assert ps[..|records|] == ps && records[..|records|] == records;
    }
  }

  // ----- Replaying what transactions logged -----

  function ToDict(op: TxOp): Wal.OpDict {
    match op
    case SetOp(k, v, _) => Wal.OpDict("SET", Some(k), v, 1)
    case IncrementOp(k, d, _) => Wal.OpDict("INCREMENT", Some(k), Null, d)
    case DeleteOp(k, _) => Wal.OpDict("DELETE", Some(k), Null, 1)
  }

  function ToDicts(ops: seq<TxOp>): seq<Wal.OpDict> {
    seq(|ops|, i requires 0 <= i < |ops| => ToDict(ops[i]))
  }

  function ToPayload(m: Marker): Wal.Payload {
    match m
    case BeginMark(_) => Wal.TxMarker("BEGIN", None, [])
    case PrepareMark(_) => Wal.TxMarker("PREPARE", Some("PREPARED"), [])
    case CommitMark(_, ops) => Wal.TxMarker("COMMIT", Some("COMMITTED"), ToDicts(ops))
    case AbortMark(_) => Wal.TxMarker("ABORT", Some("ABORTED"), [])
  }

  function History(markers: seq<Marker>): seq<Wal.Payload> {
    seq(|markers|, i requires 0 <= i < |markers| => ToPayload(markers[i]))
  }

  function CommitsOf(markers: seq<Marker>): seq<Record> {
    if markers == [] then []
    else
      var last := markers[|markers| - 1];
      CommitsOf(markers[..|markers| - 1]) + if last.CommitMark? then [Record(last.id, last.ops)] else []
  }

  /** The key-values after the given commits, in order, from an empty store. */
  function KvAfter(commits: seq<Record>): map<string, Value> {
    if commits == [] then map[] else ApplyOps(KvAfter(commits[..|commits| - 1]), commits[|commits| - 1].ops)
  }

  /** A logged operation replays to what its commit applied. */
  lemma {:induction false} ReplayIsApply(kv: map<string, Value>, ops: seq<TxOp>)
    ensures ReplayOps(kv, ToDicts(ops)) == ApplyOps(kv, ops)
    decreases |ops|
  {
    if ops != [] {
      var front := ops[..|ops| - 1];
      assert ToDicts(ops)[..|ops| - 1] == ToDicts(front);
      ReplayIsApply(kv, front);
      assert ToDicts(ops)[|ops| - 1] == ToDict(ops[|ops| - 1]);
    }
  }

  lemma MarkerReplays(n: Node, m: Marker)
    ensures RecoverOne(n, ToPayload(m)) ==
            (if m.CommitMark? then n.(machine := n.machine.(kv := ApplyOps(n.machine.kv, m.ops))) else n, true)
  {
    if m.CommitMark? {
      ReplayIsApply(n.machine.kv, m.ops);
    } else {
      assert |"COMMIT"| == 6 && |"BEGIN"| == 5 && |"PREPARE"| == 7 && |"ABORT"| == 5;
      assert |"COMMITTED"| == 9 && |"PREPARED"| == 8 && |"ABORTED"| == 7;
    }
  }

  /** A marker whose action or whose status alone says so is replayed like one that says both; any other is passed over. */
  lemma EitherSaysCommitted(n: Node, action: string, status: Option<string>, ops: seq<TxOp>)
    ensures
      var committed := action == "COMMIT" || status == Some("COMMITTED");
      RecoverOne(n, Wal.TxMarker(action, status, ToDicts(ops))) ==
        (if committed then n.(machine := n.machine.(kv := ApplyOps(n.machine.kv, ops))) else n, true)
  {
    ReplayIsApply(n.machine.kv, ops);
  }

  const BLANK := Node(RaftLog.EMPTY, EMPTY)

  /** Replaying transaction markers executes the commits, in order, and nothing else. */
  lemma {:induction false} ReplayIsCommits(markers: seq<Marker>)
    ensures RecoverAll(BLANK, History(markers)) == BLANK.(machine := EMPTY.(kv := KvAfter(CommitsOf(markers))))
    ensures Errors(BLANK, History(markers)) == 0
    decreases |markers|
  {
    if markers != [] {
      var front, last := markers[..|markers| - 1], markers[|markers| - 1];
      assert History(markers)[..|markers| - 1] == History(front);
      assert History(markers)[|markers| - 1] == ToPayload(last);
      ReplayIsCommits(front);
      MarkerReplays(RecoverAll(BLANK, History(front)), last);
      var before := CommitsOf(front);
      if last.CommitMark? {
        assert (before + [Record(last.id, last.ops)])[..|before|] == before;
      } else {
        assert before + [] == before;
      }
    }
  }

  lemma {:induction false} CommitsOfPrefix(markers: seq<Marker>, p: nat)
    requires p <= |markers|
    ensures CommitsOf(markers[..p]) <= CommitsOf(markers)
    decreases |markers|
  {
    if p == |markers| {
      assert markers[..p] == markers;
    } else {
      CommitsOfPrefix(markers[..|markers| - 1], p);
      assert markers[..|markers| - 1][..p] == markers[..p];
    }
  }

  lemma {:induction false} CommitsOfHas(markers: seq<Marker>, j: nat)
    requires j < |markers| && markers[j].CommitMark?
    ensures Record(markers[j].id, markers[j].ops) in CommitsOf(markers)
    decreases |markers|
  {
    if j < |markers| - 1 { CommitsOfHas(markers[..|markers| - 1], j); }
  }

  // ----- Durable runs -----

  /** `restarts` are the numbers of commits at which the node restarted, `base` the last of them. */
  datatype Durable = Durable(sys: Sys, wal: Wal.Log, base: nat, restarts: set<nat>)

  /** `Crash` loses the lines of the last segment from `keep` on and restarts over the files found. */
  datatype Event = Tx(step: Step, full: bool) | RotateNow | Crash(keep: nat, found: seq<Wal.Segment>)

  ghost predicate CanCrash(w: Wal.Log, keep: nat, found: seq<Wal.Segment>) {
    && w.segments != [] && |w.segments| < 1000000 && keep <= |w.segments[|w.segments| - 1].lines|
    && Wal.Discovered(Wal.TailDamaged(w.segments, keep, []), found)
  }

  ghost predicate Possible(d: Durable, e: Event) {
    match e
    case Tx(step, _) => Enabled(d.sys, step)
    case RotateNow => true
    case Crash(keep, found) => CanCrash(d.wal, keep, found) && 0 <= Wal.Kept(d.wal, keep) <= |d.sys.markers|
  }

  ghost function Happens(d: Durable, e: Event): Durable
    requires Possible(d, e)
  {
    match e
    case Tx(step, full) =>
      var sys := Do(d.sys, step);
      var n := |sys.markers|;
      d.(sys := sys, wal := if n > |d.sys.markers| then Wal.Append(d.wal, ToPayload(sys.markers[n - 1]), full) else d.wal)
    case RotateNow => d.(wal := Wal.Rotate(d.wal))
    case Crash(keep, found) =>
      var left := d.sys.markers[..Wal.Kept(d.wal, keep)];
      var kv := RecoverAll(BLANK, Payloads(Wal.AllRecords(found))).machine.kv;
      var commits := CommitsOf(left);
      Durable(Sys(NEW_COORDINATOR.(kv := kv), map[], map[], commits, left), Wal.Start(found), |commits|,
              (set p | p in d.restarts && p <= |commits|) + {|commits|})
  }

  /** The log holds the markers in order, the markers name the commits, and the store is the commits' result. */
  ghost predicate Durably(d: Durable) {
    && Wal.Holds(d.wal, History(d.sys.markers))
    && CommitsOf(d.sys.markers) == d.sys.commits
    && d.sys.coord.kv == KvAfter(d.sys.commits)
  }

  /** A step logs at most one marker, and the store changes exactly with a commit marker. */
  lemma StepLogs(s: Sys, step: Step)
    requires Enabled(s, step)
    ensures
      var t := Do(s, step);
      || (t.markers == s.markers && t.commits == s.commits && t.coord.kv == s.coord.kv)
      || (|t.markers| == |s.markers| + 1 && t.markers[..|s.markers|] == s.markers
          && var m := t.markers[|s.markers|];
             if m.CommitMark? then t.commits == s.commits + [Record(m.id, m.ops)] && t.coord.kv == ApplyOps(s.coord.kv, m.ops)
             else t.commits == s.commits && t.coord.kv == s.coord.kv)
  {
  }

  lemma TxKeeps(d: Durable, step: Step, full: bool)
    requires Durably(d) && Enabled(d.sys, step)
    ensures Durably(Happens(d, Tx(step, full)))
  {
    StepLogs(d.sys, step);
    var s, t := d.sys, Do(d.sys, step);
    if |t.markers| > |s.markers| {
      var m := t.markers[|s.markers|];
      assert t.markers == s.markers + [m];
      assert History(t.markers) == History(s.markers) + [ToPayload(m)];
      Wal.AppendKeeps(d.wal, History(s.markers), ToPayload(m), full);
      if m.CommitMark? { assert t.commits[..|s.commits|] == s.commits; }
    }
  }

  lemma {:induction false} PayloadsOf(history: seq<Wal.Payload>)
    ensures Payloads(Wal.Numbered(history)) == history
  {
  }

  lemma CrashKeeps(d: Durable, keep: nat, found: seq<Wal.Segment>)
    requires Durably(d) && CanCrash(d.wal, keep, found)
    ensures Possible(d, Crash(keep, found)) && Durably(Happens(d, Crash(keep, found)))
  {
    var history, p := History(d.sys.markers), Wal.Kept(d.wal, keep);
    Wal.TailLost(d.wal, history, keep);
    var left := d.sys.markers[..p];
    assert history[..p] == History(left);
    var w := Wal.Log(Wal.TailDamaged(d.wal.segments, keep, []), p);
    Wal.RestartKeeps(w, history[..p], found);
    Wal.AllRead(found, history[..p]);
    PayloadsOf(history[..p]);
    ReplayIsCommits(left);
  }

  lemma EventKeeps(d: Durable, e: Event)
    requires Durably(d) && Possible(d, e)
    ensures Durably(Happens(d, e))
  {
    match e {
      case Tx(step, full) => TxKeeps(d, step, full);
      case RotateNow => Wal.RotateKeeps(d.wal, History(d.sys.markers));
      case Crash(keep, found) => CrashKeeps(d, keep, found);
    }
  }

  ghost predicate Follows(d: Durable, after: Durable) {
    exists e :: Possible(d, e) && after == Happens(d, e)
  }

  const NEW_NODE := Durable(INITIAL, Wal.NEW, 0, {})

  ghost predicate IsDurableRun(run: seq<Durable>) {
    && 0 < |run| && run[0] == NEW_NODE
    && forall i :: 0 <= i < |run| - 1 ==> Follows(run[i], run[i + 1])
  }

  lemma {:induction false} DurableRunKeeps(run: seq<Durable>, i: nat)
    requires IsDurableRun(run) && i < |run|
    ensures Durably(run[i])
    decreases i
  {
    if i == 0 {
      assert Wal.Flatten(Wal.NEW.segments) == Wal.Flatten([]) + [];
      assert Wal.Lines(History([])) == [];
    } else {
      DurableRunKeeps(run, i - 1);
      assert Follows(run[i - 1], run[i]);
      var e :| Possible(run[i - 1], e) && run[i] == Happens(run[i - 1], e);
      EventKeeps(run[i - 1], e);
    }
  }

  lemma {:induction false} MaxSeqNumbered(history: seq<Wal.Payload>)
    ensures MaxSeq(Wal.Numbered(history)) == |history|
    decreases |history|
  {
    if history != [] {
      var n := |history| - 1;
      assert Wal.Numbered(history)[..n] == Wal.Numbered(history[..n]);
      MaxSeqNumbered(history[..n]);
    }
  }

  /** In every reachable state the segments read back as the markers in order, numbered from 1 without a gap. */
  lemma LogIsAppendHistory(run: seq<Durable>, i: nat)
    requires IsDurableRun(run) && i < |run|
    ensures Wal.AllRecords(run[i].wal.segments) == Wal.Numbered(History(run[i].sys.markers))
    ensures run[i].wal.currentSeq == |run[i].sys.markers| == MaxSeq(Wal.AllRecords(run[i].wal.segments))
  {
    DurableRunKeeps(run, i);
    MaxSeqNumbered(History(run[i].sys.markers));
    Wal.AllRead(run[i].wal.segments, History(run[i].sys.markers));
  }

  /** What replay makes of the files when damage begins at line `keep` of the last segment. */
  function RecoveredAfter(w: Wal.Log, keep: nat, junk: seq<Wal.Line>): Node
    requires w.segments != [] && keep <= |w.segments[|w.segments| - 1].lines|
  {
    RecoverAll(BLANK, Payloads(Wal.AllRecords(Wal.TailDamaged(w.segments, keep, junk))))
  }

  /** The commits among the first p markers: a prefix of commit order with every commit marker there. */
  ghost predicate CommitPrefix(sys: Sys, p: int, survived: seq<Record>) {
    && 0 <= p <= |sys.markers| && survived == CommitsOf(sys.markers[..p]) && survived <= sys.commits
    && forall j :: 0 <= j < p && sys.markers[j].CommitMark? ==> Record(sys.markers[j].id, sys.markers[j].ops) in survived
  }

  /**
   Whatever damage begins at line `keep` of the last segment, recovery yields the key-values of a
   prefix of commit order: the commits among the markers before the damage, all of them and nothing more.
   */
  lemma RecoveryIsCommitPrefix(run: seq<Durable>, i: nat, keep: nat, junk: seq<Wal.Line>) returns (survived: seq<Record>)
    requires IsDurableRun(run) && i < |run|
    requires run[i].wal.segments != [] && keep <= |run[i].wal.segments[|run[i].wal.segments| - 1].lines|
    requires junk != [] ==> Wal.Damage(junk[0])
    ensures CommitPrefix(run[i].sys, Wal.Kept(run[i].wal, keep), survived)
    ensures RecoveredAfter(run[i].wal, keep, junk) == BLANK.(machine := EMPTY.(kv := KvAfter(survived)))
  {
    DurableRunKeeps(run, i);
    var d := run[i];
    var history, p := History(d.sys.markers), Wal.Kept(d.wal, keep);
    Wal.TailDamageReadsPrefix(d.wal, history, keep, junk);
    assert history[..p] == History(d.sys.markers[..p]);
    PayloadsOf(history[..p]);
    ReplayIsCommits(d.sys.markers[..p]);
    survived := CommitsOf(d.sys.markers[..p]);
    MarkersMakePrefix(d.sys, p);
  }

  lemma MarkersMakePrefix(sys: Sys, p: nat)
    requires p <= |sys.markers| && CommitsOf(sys.markers) == sys.commits
    ensures CommitPrefix(sys, p, CommitsOf(sys.markers[..p]))
  {
    CommitsOfPrefix(sys.markers, p);
    forall j | 0 <= j < p && sys.markers[j].CommitMark?
      ensures Record(sys.markers[j].id, sys.markers[j].ops) in CommitsOf(sys.markers[..p])
    {
      CommitsOfHas(sys.markers[..p], j);
    }
  }

  /** Undamaged, recovery yields exactly the live key-values. */
  lemma RecoveryIsLive(run: seq<Durable>, i: nat)
    requires IsDurableRun(run) && i < |run|
    ensures RecoverAll(BLANK, Payloads(Wal.AllRecords(run[i].wal.segments))).machine.kv == run[i].sys.coord.kv
  {
    DurableRunKeeps(run, i);
    LogIsAppendHistory(run, i);
    PayloadsOf(History(run[i].sys.markers));
    ReplayIsCommits(run[i].sys.markers);
  }

  // ----- Versions count the commits since the last restart -----

  /** The transactions of the running process, with its own commits only. */
  function Since(d: Durable): Sys
    requires d.base <= |d.sys.commits|
  {
    d.sys.(commits := d.sys.commits[d.base..])
  }

  /** The last restart at or before commit j, or 0. */
  function Epoch(restarts: set<nat>, j: nat): (p: nat)
    ensures p <= j && (p == 0 || p in restarts) && forall q :: q in restarts && q <= j ==> q <= p
  {
    if j == 0 || j in restarts then j else Epoch(restarts, j - 1)
  }

  /** Every commit found the versions it expected, counted from the restart before it. */
  ghost predicate EpochsOk(commits: seq<Record>, restarts: set<nat>, n: nat)
    requires n <= |commits|
  {
    forall j, op :: 0 <= j < n && op in commits[j].ops && op.expected.Some? ==>
      op.expected.value == CommittedOn(commits[Epoch(restarts, j)..j], op.key)
  }

  ghost predicate Counted(d: Durable) {
    && d.base <= |d.sys.commits| && (forall p :: p in d.restarts ==> p <= d.base) && (d.base == 0 || d.base in d.restarts)
    && TxSafety.Inv(Since(d))
    && EpochsOk(d.sys.commits, d.restarts, d.base)
  }

  /** A critical section works on the commits of its own process. */
  lemma SinceSteps(d: Durable, step: Step, full: bool)
    requires d.base <= |d.sys.commits| && Enabled(d.sys, step)
    ensures Enabled(Since(d), step)
    ensures d.sys.commits <= Do(d.sys, step).commits
    ensures
      var after := Happens(d, Tx(step, full));
      Since(after) == Do(Since(d), step).(markers := after.sys.markers)
  {
    if step.ApplyInCommit? {
      var c := Record(step.id, d.sys.coord.txs[step.id].ops);
      assert (d.sys.commits + [c])[d.base..] == d.sys.commits[d.base..] + [c];
    }
  }

  lemma CountedTx(d: Durable, step: Step, full: bool)
    requires Counted(d) && Enabled(d.sys, step)
    ensures Counted(Happens(d, Tx(step, full)))
  {
    SinceSteps(d, step, full);
    TxSafety.StepKeeps(Since(d), step);
    var after := Happens(d, Tx(step, full));
    assert TxSafety.Inv(Since(after));
    PrefixEpochs(d.sys.commits, after.sys.commits, d.restarts, d.base);
  }

  lemma PrefixEpochs(before: seq<Record>, after: seq<Record>, restarts: set<nat>, n: nat)
    requires n <= |before| && before <= after && EpochsOk(before, restarts, n)
    ensures EpochsOk(after, restarts, n)
  {
    forall j, op | 0 <= j < n && op in after[j].ops && op.expected.Some?
      ensures op.expected.value == CommittedOn(after[Epoch(restarts, j)..j], op.key)
    {
      assert after[Epoch(restarts, j)..j] == before[Epoch(restarts, j)..j];
    }
  }

  /** The commits of the running process found the versions they expected too. */
  lemma AllEpochs(d: Durable)
    requires Counted(d)
    ensures EpochsOk(d.sys.commits, d.restarts, |d.sys.commits|)
  {
    var commits := d.sys.commits;
    forall j, op | 0 <= j < |commits| && op in commits[j].ops && op.expected.Some?
      ensures op.expected.value == CommittedOn(commits[Epoch(d.restarts, j)..j], op.key)
    {
      if j >= d.base {
        assert Epoch(d.restarts, j) == d.base;
        var own := commits[d.base..];
        assert own[j - d.base] == commits[j] && own[..j - d.base] == commits[d.base..j];
      }
    }
  }

  /** What is left of the commits after a crash is judged by the same restarts. */
  lemma CutEpochs(commits: seq<Record>, restarts: set<nat>, n: nat)
    requires n <= |commits| && EpochsOk(commits, restarts, |commits|)
    ensures EpochsOk(commits[..n], (set p | p in restarts && p <= n) + {n}, n)
  {
    var after := (set p | p in restarts && p <= n) + {n};
    forall j, op | 0 <= j < n && op in commits[..n][j].ops && op.expected.Some?
      ensures op.expected.value == CommittedOn(commits[..n][Epoch(after, j)..j], op.key)
    {
      SameEpoch(restarts, after, j, n);
      assert commits[..n][Epoch(restarts, j)..j] == commits[Epoch(restarts, j)..j];
    }
  }

  lemma CountedCrash(d: Durable, keep: nat, found: seq<Wal.Segment>)
    requires Counted(d) && Durably(d) && Possible(d, Crash(keep, found))
    ensures Counted(Happens(d, Crash(keep, found)))
  {
    var after := Happens(d, Crash(keep, found));
    CommitsOfPrefix(d.sys.markers, Wal.Kept(d.wal, keep));
    AllEpochs(d);
    var n := |after.sys.commits|;
    assert after.sys.commits == d.sys.commits[..n];
    CutEpochs(d.sys.commits, d.restarts, n);
    assert Since(after).commits == [];
    FreshInv(Since(after));
  }

  lemma {:induction false} SameEpoch(before: set<nat>, after: set<nat>, j: nat, n: nat)
    requires j < n && after == (set p | p in before && p <= n) + {n}
    ensures Epoch(before, j) == Epoch(after, j)
    decreases j
  {
    if j > 0 && j !in before { SameEpoch(before, after, j - 1, n); }
  }

  lemma FreshInv(s: Sys)
    requires s.coord.txs == map[] && s.coord.locks == map[] && s.coord.versions == map[]
    requires s.contexts == map[] && s.stages == map[] && s.commits == []
    ensures TxSafety.Inv(s)
  {
  }

  lemma {:induction false} RunCounts(run: seq<Durable>, i: nat)
    requires IsDurableRun(run) && i < |run|
    ensures Counted(run[i])
    decreases i
  {
    if i == 0 {
      FreshInv(Since(run[0]));
    } else {
      var h := i - 1;
      RunCounts(run, h);
      DurableRunKeeps(run, h);
      assert Follows(run[h], run[h + 1]);
      var e :| Possible(run[h], e) && run[i] == Happens(run[h], e);
      match e {
        case Tx(step, full) => CountedTx(run[h], step, full);
        case RotateNow =>
        case Crash(keep, found) => CountedCrash(run[h], keep, found);
      }
    }
  }

  /** In every durable run, restarts included, a key is locked by t exactly when t is prepared and writes it. */
  lemma DurableLocksAreExact(run: seq<Durable>, i: nat)
    requires IsDurableRun(run) && i < |run|
    ensures
      var c := run[i].sys.coord;
      forall k, t :: (k in c.locks && c.locks[k] == t) <==>
                     (t in c.txs && c.txs[t].status == Prepared && k in c.txs[t].writes)
  {
    RunCounts(run, i);
  }

  lemma {:induction false} CommittedSplit(commits: seq<Record>, p: nat, key: string)
    requires p <= |commits|
    ensures CommittedOn(commits, key) == CommittedOn(commits[..p], key) + CommittedOn(commits[p..], key)
    decreases |commits|
  {
    if p == |commits| {
      assert commits[..p] == commits && commits[p..] == [];
    } else {
      var n := |commits| - 1;
      CommittedSplit(commits[..n], p, key);
      assert commits[..n][..p] == commits[..p] && commits[p..][..n - p] == commits[..n][p..];
    }
  }

  /** A version counts the commits since the last restart, so it counts them all exactly when none came before. */
  lemma VersionCountsSinceRestart(run: seq<Durable>, i: nat, key: string)
    requires IsDurableRun(run) && i < |run|
    ensures run[i].base <= |run[i].sys.commits|
    ensures
      var d := run[i];
      && Version(d.sys.coord.versions, key) == CommittedOn(d.sys.commits[d.base..], key)
      && (Version(d.sys.coord.versions, key) == CommittedOn(d.sys.commits, key) <==>
            CommittedOn(d.sys.commits[..d.base], key) == 0)
  {
    RunCounts(run, i);
    CommittedSplit(run[i].sys.commits, run[i].base, key);
  }

  /** Two commits that expected the same version of a key have a restart between them. */
  lemma SameVersionMeansRestart(run: seq<Durable>, n: nat, i: nat, j: nat, a: TxOp, b: TxOp) returns (p: nat)
    requires IsDurableRun(run) && n < |run| && i < j < |run[n].sys.commits|
    requires a in run[n].sys.commits[i].ops && b in run[n].sys.commits[j].ops
    requires a.key == b.key && a.expected.Some? && a.expected == b.expected
    ensures p in run[n].restarts && i < p <= j
  {
    RunCounts(run, n);
    AllEpochs(run[n]);
    var commits, restarts := run[n].sys.commits, run[n].restarts;
    p := Epoch(restarts, j);
    if p <= i {
      EpochSpans(restarts, i, j);
      CountMoves(commits, p, i, j, a);
      assert false;
    }
  }

  /** A commit on a key moves its count for all later ones. */
  lemma CountMoves(commits: seq<Record>, p: nat, i: nat, j: nat, op: TxOp)
    requires p <= i < j <= |commits| && op in commits[i].ops
    ensures CommittedOn(commits[p..i], op.key) < CommittedOn(commits[p..j], op.key)
  {
    var own := commits[p..];
    OnMeansSome(commits[i].ops, op.key);
    assert own[i - p] == commits[i] && own[..i - p] == commits[p..i] && own[..j - p] == commits[p..j];
    CommittedNext(own, i - p, op.key);
    CommittedGrows(own, i - p + 1, j - p, op.key);
  }

  lemma EpochSpans(restarts: set<nat>, i: nat, j: nat)
    requires i <= j && Epoch(restarts, j) <= i
    ensures Epoch(restarts, i) == Epoch(restarts, j)
  {
  }

  // ----- Such a run exists -----

  function Last(run: seq<Durable>): Durable
    requires run != []
  {
    run[|run| - 1]
  }

  lemma Extend(run: seq<Durable>, e: Event) returns (longer: seq<Durable>)
    requires IsDurableRun(run) && Possible(Last(run), e)
    ensures IsDurableRun(longer) && Last(longer) == Happens(Last(run), e)
  {
    longer := run + [Happens(Last(run), e)];
    forall i | 0 <= i < |longer| - 1 ensures Follows(longer[i], longer[i + 1]) {
      if i < |run| - 1 { assert Follows(run[i], run[i + 1]); }
    }
  }

  /** No lock is held, and transaction `id` is open with `op` buffered, expecting its key's current version. */
  ghost predicate Ready(s: Sys, id: string, op: TxOp) {
    && Known(s, id) && s.stages[id] == Open && s.coord.locks == map[]
    && s.coord.txs[id] == TxRecord(Active, [], map[], 0.0, 1.0)
    && s.contexts[id].ops == [op] && op.expected == Some(Version(s.coord.versions, op.key))
  }

  ghost predicate SameSize(d: Durable, after: Durable) {
    d.wal.segments != [] ==> |after.wal.segments| == |d.wal.segments|
  }

  lemma BufferOne(run: seq<Durable>, id: string, op: TxOp) returns (longer: seq<Durable>)
    requires IsDurableRun(run)
    requires Enabled(Last(run).sys, BeginTx(id, 0.0, 1.0)) && Last(run).sys.coord.locks == map[]
    requires op.expected == Some(Version(Last(run).sys.coord.versions, op.key))
    ensures IsDurableRun(longer) && Ready(Last(longer).sys, id, op) && SameSize(Last(run), Last(longer))
    ensures Last(longer).sys.commits == Last(run).sys.commits
  {
    longer := Extend(run, Tx(BeginTx(id, 0.0, 1.0), false));
    longer := Extend(longer, Tx(Write(id, op), false));
  }

  /** A ready transaction that calls commit gets the vote and is prepared. */
  lemma PrepareOne(run: seq<Durable>, id: string, op: TxOp) returns (longer: seq<Durable>)
    requires IsDurableRun(run) && Ready(Last(run).sys, id, op)
    ensures IsDurableRun(longer) && SameSize(Last(run), Last(longer))
    ensures Enabled(Last(longer).sys, ApplyInCommit(id)) && Last(longer).sys.coord.txs[id].ops == [op]
    ensures Last(longer).sys.commits == Last(run).sys.commits
  {
    longer := Extend(run, Tx(CallCommit(id), false));
    var s := Last(longer).sys;
    assert VotesYes(s.coord, id, Some(s.contexts[id]), 0.0);
    longer := Extend(longer, Tx(PrepareInCommit(id, 0.0), false));
  }

  /** With no lock held, a new transaction that expects a key's current version commits. */
  lemma CommitOne(run: seq<Durable>, id: string, op: TxOp) returns (longer: seq<Durable>)
    requires IsDurableRun(run)
    requires Enabled(Last(run).sys, BeginTx(id, 0.0, 1.0)) && Last(run).sys.coord.locks == map[]
    requires op.expected == Some(Version(Last(run).sys.coord.versions, op.key))
    ensures IsDurableRun(longer) && SameSize(Last(run), Last(longer))
    ensures Last(longer).sys.commits == Last(run).sys.commits + [Record(id, [op])]
  {
    longer := BufferOne(run, id, op);
    longer := PrepareOne(longer, id, op);
    longer := Extend(longer, Tx(ApplyInCommit(id), false));
  }

  lemma CleanRestart(w: Wal.Log, history: seq<Wal.Payload>)
    requires Wal.Holds(w, history) && |w.segments| < 1000000
    ensures CanCrash(w, |w.segments[|w.segments| - 1].lines|, w.segments)
  {
    var n := |w.segments| - 1;
    var lines := w.segments[n].lines;
    assert lines[..|lines|] + [] == lines;
    assert Wal.TailDamaged(w.segments, |lines|, []) == w.segments;
    forall i, j | 0 <= i < j < |w.segments|
      ensures Wal.Before(Wal.Name(w.segments[i].id), Wal.Name(w.segments[j].id))
    {
      Wal.NamesOrder(w.segments[i].id, w.segments[j].id);
    }
  }

  /** So across a restart two commits can have expected the same version of a key. */
  lemma SameVersionTwiceAcrossRestart() returns (run: seq<Durable>)
    ensures IsDurableRun(run) && |Last(run).sys.commits| == 2
    ensures forall c :: c in Last(run).sys.commits ==> c.ops == [SetOp("k", Int(1), Some(0))]
  {
    var op := SetOp("k", Int(1), Some(0));
    run := CommitOne([NEW_NODE], "a", op);
    DurableRunKeeps(run, |run| - 1);
    var d := Last(run);
    CleanRestart(d.wal, History(d.sys.markers));
    var keep := |d.wal.segments[0].lines|;
    CrashKeeps(d, keep, d.wal.segments);
    assert d.sys.markers[..Wal.Kept(d.wal, keep)] == d.sys.markers;
    run := Extend(run, Crash(keep, d.wal.segments));
    run := CommitOne(run, "b", op);
  }
}
