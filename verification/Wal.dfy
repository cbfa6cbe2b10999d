/** The segmented write-ahead log: append, rotation, restart, and what replay can read. */
module Wal {
  import opened Wrappers
  import opened Models

  /** A transaction operation as its record stores it. */
  datatype OpDict = OpDict(opType: string, key: Option<string>, value: Value, delta: int)

  datatype Payload =
    | TxMarker(action: string, status: Option<string>, operations: seq<OpDict>)
    | Entry(entry: LogEntry, committed: bool)
    | CommitMarker(index: int)
    | Checkpoint
    | SnapshotPointer

  datatype Record = Record(seqNo: int, payload: Payload)

  /** A line of a segment file: intact, parseable with a wrong checksum, unparseable, or blank. */
  datatype Line = Intact(record: Record) | BadCrc(record: Record) | Garbage | Blank

  datatype Segment = Segment(id: int, lines: seq<Line>)

  datatype Log = Log(segments: seq<Segment>, currentSeq: int)

  const NEW := Log([Segment(1, [])], 0)

  function Append(w: Log, p: Payload, full: bool): Log {
    var s := w.currentSeq + 1;
    var segs := if w.segments == [] then [Segment(1, [])] else w.segments;
    var active := segs[|segs| - 1];
    var line := Intact(Record(s, p));
    if full then Log(segs + [Segment(active.id + 1, [line])], s)
    else Log(segs[|segs| - 1 := active.(lines := active.lines + [line])], s)
  }

  function Rotate(w: Log): Log {
    if w.segments == [] then w.(segments := [Segment(1, [])])
    else w.(segments := w.segments + [Segment(w.segments[|w.segments| - 1].id + 1, [])])
  }

  /** The last sequence number the opening scan sees, or -1; it stops at a line it cannot parse and ignores checksums. */
  function ScanEnd(lines: seq<Line>): int
    decreases |lines|
  {
    if lines == [] || lines[0].Garbage? then -1
    else
      var rest := ScanEnd(lines[1..]);
      if rest != -1 || lines[0].Blank? then rest else lines[0].record.seqNo
  }

  /** The largest of `start` and the numbers the opening scans see. */
  function MaxScan(start: int, segs: seq<Segment>): int
    decreases |segs|
  {
    if segs == [] then start
    else
      var front, e := MaxScan(start, segs[..|segs| - 1]), ScanEnd(segs[|segs| - 1].lines);
      if e > front then e else front
  }

  /** A new engine over the segment files found on disk. */
  function Start(found: seq<Segment>): Log {
    if found == [] then NEW
    else
      var e := ScanEnd(found[|found| - 1].lines);
      Log(found, if e != -1 then e else MaxScan(0, found))
  }

  /** The records replay reads from one segment: it stops at the first damaged line. */
  function Readable(lines: seq<Line>): seq<Record>
    decreases |lines|
  {
    if lines == [] || lines[0].Garbage? || lines[0].BadCrc? then []
    else (if lines[0].Blank? then [] else [lines[0].record]) + Readable(lines[1..])
  }

  function AllRecords(segs: seq<Segment>): seq<Record> {
    if segs == [] then [] else AllRecords(segs[..|segs| - 1]) + Readable(segs[|segs| - 1].lines)
  }

  /** A record goes to the end of the last segment, or alone into a new one when that is full; nothing else moves. */
  lemma AppendPlaces(w: Log, p: Payload, full: bool)
    ensures
      var before, after := if w.segments == [] then [Segment(1, [])] else w.segments, Append(w, p, full).segments;
      var last := after[|after| - 1];
      && |after| == |before| + (if full then 1 else 0)
      && (forall i :: 0 <= i < |after| - 1 ==> after[i] == before[i])
      && last.lines != [] && last.lines[|last.lines| - 1] == Intact(Record(w.currentSeq + 1, p))
      && last.lines[..|last.lines| - 1] == (if full then [] else before[|before| - 1].lines)
      && last.id == before[|before| - 1].id + (if full then 1 else 0)
  {
  }

  /** A line that the opening scan can parse, whatever its checksum. */
  predicate Parsed(line: Line) { line.Intact? || line.BadCrc? }

  /** The opening scan ends on the last line it can parse before one it cannot, even if its checksum is wrong. */
  lemma {:induction false} ScanEndsOn(lines: seq<Line>, j: int, p: nat)
    requires -1 <= j < p <= |lines| && (p == |lines| || lines[p].Garbage?) && (forall i :: 0 <= i < p ==> !lines[i].Garbage?)
    requires (j >= 0 ==> Parsed(lines[j]) && lines[j].record.seqNo != -1) && forall i :: j < i < p ==> lines[i].Blank?
    ensures ScanEnd(lines) == if j >= 0 then lines[j].record.seqNo else -1
    decreases |lines|
  {
    if p > 0 {
      ScanEndsOn(lines[1..], if j >= 0 then j - 1 else -1, p - 1);
    }
  }

  class WALEngine {
    var segments: seq<Segment>
    var currentSeq: int

    function View(): Log
      reads this
    {
      Log(segments, currentSeq)
    }

    /** Starts over the segment files found on disk. */
    constructor (found: seq<Segment>)
      ensures View() == Start(found)
    {
      segments := found;
      if |found| == 0 {
        segments := [Segment(1, [])];
        currentSeq := 0;
      } else {
        var e := ScanEnd(found[|found| - 1].lines);
        currentSeq := if e != -1 then e else MaxScan(0, found);
      }
    }

    /** `full` says whether the active segment has reached its size limit. */
    method AppendRecord(p: Payload, full: bool) returns (r: Record)
      modifies this
      ensures View() == Append(old(View()), p, full)
      ensures r == Record(old(currentSeq) + 1, p)
    {
      currentSeq := currentSeq + 1;
      r := Record(currentSeq, p);
      if |segments| == 0 { segments := [Segment(1, [])]; }
      var active := segments[|segments| - 1];
      if full {
        segments := segments + [Segment(active.id + 1, [Intact(r)])];
      } else {
        segments := segments[|segments| - 1 := active.(lines := active.lines + [Intact(r)])];
      }
    }

    method RotateSegment()
      modifies this
      ensures View() == Rotate(old(View()))
    {
      if |segments| == 0 {
        segments := [Segment(1, [])];
      } else {
        segments := segments + [Segment(segments[|segments| - 1].id + 1, [])];
      }
    }

    /** Looks at the directory again, then reads every segment found. */
    method IterAllRecords(found: seq<Segment>) returns (rs: seq<Record>)
      modifies this
      ensures rs == AllRecords(found) && segments == found
      ensures currentSeq == MaxScan(old(currentSeq), found)
    {
      segments, rs := [], [];
      for i := 0 to |found|
        invariant segments == found[..i] && rs == AllRecords(found[..i])
        invariant currentSeq == MaxScan(old(currentSeq), found[..i])
      {
        assert found[..i + 1][..i] == found[..i];
        segments := segments + [found[i]];
        var e := ScanEnd(found[i].lines);
        if e > currentSeq { currentSeq := e; }
        rs := rs + Readable(found[i].lines);
      }
      assert found[..|found|] == found;
    }
  }

  // ----- The log on disk is the append history -----

  /** The records a history of appends makes: one a payload, numbered from 1. */
  function Numbered(history: seq<Payload>): seq<Record> {
    seq(|history|, i requires 0 <= i < |history| => Record(i + 1, history[i]))
  }

  function Written(rs: seq<Record>): seq<Line> {
    seq(|rs|, i requires 0 <= i < |rs| => Intact(rs[i]))
  }

  function Lines(history: seq<Payload>): seq<Line> { Written(Numbered(history)) }

  function Flatten(segs: seq<Segment>): seq<Line> {
    if segs == [] then [] else Flatten(segs[..|segs| - 1]) + segs[|segs| - 1].lines
  }

  ghost predicate Consecutive(segs: seq<Segment>) {
    forall i :: 0 <= i < |segs| ==> segs[i].id == i + 1
  }

  /** The segments, in order, hold exactly the appended payloads under consecutive sequence numbers. */
  ghost predicate Holds(w: Log, history: seq<Payload>) {
    && w.segments != [] && Consecutive(w.segments)
    && Flatten(w.segments) == Lines(history)
    && w.currentSeq == |history|
  }

  lemma FlattenLast(segs: seq<Segment>, s: Segment)
    ensures Flatten(segs + [s]) == Flatten(segs) + s.lines
  {
    assert (segs + [s])[..|segs|] == segs;
  }

  lemma LinesNext(history: seq<Payload>, p: Payload)
    ensures Lines(history + [p]) == Lines(history) + [Intact(Record(|history| + 1, p))]
  {
  }

  lemma AppendKeeps(w: Log, history: seq<Payload>, p: Payload, full: bool)
    requires Holds(w, history)
    ensures Holds(Append(w, p, full), history + [p])
  {
    var n := |w.segments| - 1;
    var front, active := w.segments[..n], w.segments[n];
    var line := Intact(Record(|history| + 1, p));
    LinesNext(history, p);
    if full {
      FlattenLast(w.segments, Segment(active.id + 1, [line]));
    } else {
      var longer := active.(lines := active.lines + [line]);
      assert w.segments[n := longer] == front + [longer];
      FlattenLast(front, longer);
      assert Flatten(front) + (active.lines + [line]) == Flatten(w.segments) + [line];
    }
  }

  lemma RotateKeeps(w: Log, history: seq<Payload>)
    requires Holds(w, history)
    ensures Holds(Rotate(w), history)
  {
    FlattenLast(w.segments, Segment(w.segments[|w.segments| - 1].id + 1, []));
  }

  /** The last segment holds the end of the history, the segments before it the rest. */
  lemma LastHolds(segs: seq<Segment>, history: seq<Payload>) returns (m: nat)
    requires segs != [] && Flatten(segs) == Lines(history)
    ensures m == |history| - |segs[|segs| - 1].lines|
    ensures Flatten(segs[..|segs| - 1]) == Lines(history[..m])
    ensures segs[|segs| - 1].lines == Written(Numbered(history)[m..])
  {
    var front, last := Flatten(segs[..|segs| - 1]), segs[|segs| - 1].lines;
    m := |front|;
    assert |Lines(history)| == |history| == m + |last|;
    assert front == Lines(history)[..m];
    assert Lines(history)[..m] == Lines(history[..m]);
    assert last == Lines(history)[m..];
    assert Lines(history)[m..] == Written(Numbered(history)[m..]);
  }

  ghost predicate AllIntact(lines: seq<Line>) {
    forall i :: 0 <= i < |lines| ==> lines[i].Intact?
  }

  lemma {:induction false} ScanIntact(lines: seq<Line>)
    requires AllIntact(lines)
    ensures ScanEnd(lines) == -1 || exists i :: 0 <= i < |lines| && lines[i].record.seqNo == ScanEnd(lines)
    ensures lines != [] && lines[|lines| - 1].record.seqNo != -1 ==> ScanEnd(lines) == lines[|lines| - 1].record.seqNo
    decreases |lines|
  {
    if lines != [] {
      ScanIntact(lines[1..]);
      if ScanEnd(lines[1..]) != -1 {
        var i :| 0 <= i < |lines[1..]| && lines[1..][i].record.seqNo == ScanEnd(lines[1..]);
        assert lines[i + 1].record.seqNo == ScanEnd(lines);
      } else {
        assert lines[0].record.seqNo == ScanEnd(lines);
      }
    }
  }

  /** Over consecutively numbered lines the scan's maximum is their number, wherever the segment cuts fall. */
  lemma {:induction false} MaxScanIsLength(segs: seq<Segment>, history: seq<Payload>)
    requires Flatten(segs) == Lines(history)
    ensures MaxScan(0, segs) == |history|
    ensures segs != [] && ScanEnd(segs[|segs| - 1].lines) != -1 ==> ScanEnd(segs[|segs| - 1].lines) == |history|
    decreases |segs|
  {
    if segs != [] {
      var front, last := segs[..|segs| - 1], segs[|segs| - 1].lines;
      var m := LastHolds(segs, history);
      MaxScanIsLength(front, history[..m]);
      ScanIntact(last);
      if last != [] {
        assert last[|last| - 1] == Lines(history)[|history| - 1];
      }
    } else {
      assert |Lines(history)| == 0;
    }
  }

  // ----- Restart finds the segments in the order they were written -----

  /** The digits of a file name's number: at least six, most significant first. */
  function Digits(id: nat, width: nat): seq<nat> {
    if width == 0 then [] else Digits(id / 10, width - 1) + [id % 10]
  }

  function Width(id: nat): nat {
    if id < 1000000 then 6 else 1 + Width(id / 10)
  }

  function Name(id: nat): seq<nat> { Digits(id, Width(id)) }

  /** Lexicographic order, as file names are sorted. */
  predicate Before(a: seq<nat>, b: seq<nat>) {
    b != [] && (a == [] || a[0] < b[0] || (a[0] == b[0] && Before(a[1..], b[1..])))
  }

  lemma {:induction false} BeforeLast(a: seq<nat>, b: seq<nat>, x: nat, y: nat)
    requires |a| == |b|
    ensures Before(a + [x], b + [y]) <==> Before(a, b) || (a == b && x < y)
    decreases |a|
  {
    if a != [] {
      assert (a + [x])[1..] == a[1..] + [x] && (b + [y])[1..] == b[1..] + [y];
      assert a == [a[0]] + a[1..] && b == [b[0]] + b[1..];
      BeforeLast(a[1..], b[1..], x, y);
    } else {
      assert a + [x] == [x] && b + [y] == [y];
      assert Before([x][1..], [y][1..]) == false;
    }
  }

  function Tens(n: nat): (r: nat)
    ensures r > 0
  {
    if n == 0 then 1 else 10 * Tens(n - 1)
  }

  /** With equally many digits, names sort as numbers. */
  lemma {:induction false} DigitsOrder(a: nat, b: nat, width: nat)
    requires a < Tens(width) && b < Tens(width)
    ensures |Digits(a, width)| == |Digits(b, width)|
    ensures Before(Digits(a, width), Digits(b, width)) <==> a < b
    ensures Digits(a, width) == Digits(b, width) <==> a == b
    decreases width
  {
    if width > 0 {
      DigitsOrder(a / 10, b / 10, width - 1);
      BeforeLast(Digits(a / 10, width - 1), Digits(b / 10, width - 1), a % 10, b % 10);
      var p, q := Digits(a / 10, width - 1) + [a % 10], Digits(b / 10, width - 1) + [b % 10];
      if p == q {
        assert p[..|p| - 1] == Digits(a / 10, width - 1) && q[..|q| - 1] == Digits(b / 10, width - 1);
        assert p[|p| - 1] == a % 10 && q[|q| - 1] == b % 10;
      }
    }
  }

  lemma NamesOrder(a: nat, b: nat)
    requires a < 1000000 && b < 1000000
    ensures Before(Name(a), Name(b)) <==> a < b
  {
    assert Tens(6) == 1000000 by {
      assert Tens(3) == 1000;
      assert Tens(4) == 10000;
      assert Tens(5) == 100000;
    }
    DigitsOrder(a, b, 6);
  }

  /** The millionth segment's name sorts before that of its predecessor. */
  lemma MillionthSortsFirst()
    ensures Before(Name(1000000), Name(999999))
  {
    LeadingDigit(1000000, 6);
    LeadingDigit(999999, 5);
    assert Width(1000000) == 7;
    DigitsLength(1000000, 7);
    DigitsLength(999999, 6);
    assert 1000000 / Tens(6) == 1 && 999999 / Tens(5) == 9 by {
      assert Tens(3) == 1000;
      assert Tens(6) == 1000000;
      assert Tens(5) == 100000;
    }
  }

  lemma {:induction false} DigitsLength(id: nat, width: nat)
    ensures |Digits(id, width)| == width
    decreases width
  {
    if width > 0 { DigitsLength(id / 10, width - 1); }
  }

  lemma {:induction false} LeadingDigit(id: nat, n: nat)
    ensures |Digits(id, n + 1)| == n + 1 && Digits(id, n + 1)[0] == id / Tens(n) % 10
    decreases n
  {
    DigitsLength(id, n + 1);
    if n > 0 {
      LeadingDigit(id / 10, n - 1);
      DivDiv(id, Tens(n - 1));
    } else {
      assert Digits(id, 1) == Digits(id / 10, 0) + [id % 10];
    }
  }

  lemma DivDiv(a: nat, t: nat)
    requires t > 0
    ensures a / 10 / t == a / (10 * t)
  {
    var q := a / (10 * t);
    var r := a % (10 * t);
    assert a == 10 * t * q + r;
    assert a / 10 == t * q + r / 10;
    assert r / 10 < t;
    assert (t * q + r / 10) / t == q by {
      assert t * q <= t * q + r / 10 < t * q + t == t * (q + 1);
      QuotientIs(t * q + r / 10, t, q);
    }
  }

  lemma QuotientIs(x: nat, t: nat, q: nat)
    requires t > 0 && t * q <= x < t * (q + 1)
    ensures x / t == q
  {
    var d := x / t;
    assert t * d <= x < t * (d + 1);
    assert d < q ==> t * (d + 1) <= t * q;
    assert d > q ==> t * (q + 1) <= t * d;
  }

  ghost predicate Sorted(segs: seq<Segment>) {
    forall i, j :: 0 <= i < j < |segs| ==> segs[i].id < segs[j].id
  }

  lemma LastIsCommon(a: seq<Segment>, b: seq<Segment>)
    requires Sorted(a) && Sorted(b) && multiset(a) == multiset(b) && a != []
    ensures |a| == |b| && a[|a| - 1] == b[|b| - 1]
  {
    assert |a| == |multiset(a)| == |multiset(b)| == |b|;
    var x, y := a[|a| - 1], b[|b| - 1];
    assert x in multiset(b) && y in multiset(a);
    var i :| 0 <= i < |b| && b[i] == x;
    var j :| 0 <= j < |a| && a[j] == y;
    assert b[i].id <= y.id && a[j].id <= x.id;
  }

  lemma FrontMultiset(a: seq<Segment>)
    requires a != []
    ensures multiset(a[..|a| - 1]) == multiset(a) - multiset{a[|a| - 1]}
  {
    assert a == a[..|a| - 1] + [a[|a| - 1]];
  }

  lemma {:induction false} SortedIsUnique(a: seq<Segment>, b: seq<Segment>)
    requires Sorted(a) && Sorted(b) && multiset(a) == multiset(b)
    ensures a == b
    decreases |a|
  {
    if a == [] {
      assert |multiset(b)| == 0;
    } else {
      LastIsCommon(a, b);
      var n := |a| - 1;
      var x, y := a[..n], b[..n];
      assert multiset(x) == multiset(y) by {
        FrontMultiset(a);
        FrontMultiset(b);
      }
      assert Sorted(x) && Sorted(y);
      SortedIsUnique(x, y);
      assert a == x + [a[n]] && b == y + [b[n]];
    }
  }

  /** What listing the directory yields: the same segments, in the order of their file names. */
  ghost predicate Discovered(segs: seq<Segment>, found: seq<Segment>) {
    && multiset(found) == multiset(segs)
    && (forall i :: 0 <= i < |found| ==> found[i].id >= 0)
    && (forall i, j :: 0 <= i < j < |found| ==> Before(Name(found[i].id), Name(found[j].id)))
  }

  lemma {:induction false} BeforeOneWay(a: seq<nat>, b: seq<nat>)
    ensures !(Before(a, b) && Before(b, a))
    decreases |a|
  {
    if a != [] && b != [] { BeforeOneWay(a[1..], b[1..]); }
  }

  /** Listing gives the segments back in the order they were written exactly while there are fewer than a million. */
  lemma DiscoveryIsExact(segs: seq<Segment>, found: seq<Segment>)
    requires Consecutive(segs) && Discovered(segs, found)
    ensures found == segs <==> |segs| < 1000000
  {
    if |segs| < 1000000 {
      forall i, j | 0 <= i < j < |found| ensures found[i].id < found[j].id {
        assert found[i] in multiset(segs) && found[j] in multiset(segs);
        NamesOrder(found[i].id, found[j].id);
      }
      SortedIsUnique(segs, found);
    } else if found == segs {
      assert found[999998].id == 999999 && found[999999].id == 1000000;
      assert Before(Name(found[999998].id), Name(found[999999].id));
      MillionthSortsFirst();
      BeforeOneWay(Name(999999), Name(1000000));
      assert false;
    }
  }

  /** A restart over undamaged segments, fewer than a million, resumes where the log was. */
  lemma RestartKeeps(w: Log, history: seq<Payload>, found: seq<Segment>)
    requires Holds(w, history) && |w.segments| < 1000000 && Discovered(w.segments, found)
    ensures Start(found) == w
  {
    DiscoveryIsExact(w.segments, found);
    MaxScanIsLength(w.segments, history);
  }

  // ----- What replay reads -----

  predicate Damage(line: Line) { line.BadCrc? || line.Garbage? }

  predicate Damaged(lines: seq<Line>) {
    exists i :: 0 <= i < |lines| && Damage(lines[i])
  }

  /** Reading intact lines and then damage gives the intact lines' records. */
  lemma {:induction false} ReadableUpToDamage(rs: seq<Record>, junk: seq<Line>)
    requires junk != [] ==> Damage(junk[0])
    ensures Readable(Written(rs) + junk) == rs
    decreases |rs|
  {
    if rs == [] {
      assert Written(rs) + junk == junk;
    } else {
      assert (Written(rs) + junk)[1..] == Written(rs[1..]) + junk;
      ReadableUpToDamage(rs[1..], junk);
      assert rs == [rs[0]] + rs[1..];
    }
  }

  /** The last segment cut after `keep` lines, with anything that starts damaged after them. */
  function TailDamaged(segs: seq<Segment>, keep: nat, junk: seq<Line>): seq<Segment>
    requires segs != [] && keep <= |segs[|segs| - 1].lines|
  {
    var last := segs[|segs| - 1];
    segs[|segs| - 1 := last.(lines := last.lines[..keep] + junk)]
  }

  /** How many records of the history precede the damage. */
  function Kept(w: Log, keep: nat): int
    requires w.segments != []
  {
    w.currentSeq - |w.segments[|w.segments| - 1].lines| + keep
  }

  /** However the segments cut it, an undamaged log reads back as its append history. */
  lemma {:induction false} AllRead(segs: seq<Segment>, history: seq<Payload>)
    requires Flatten(segs) == Lines(history)
    ensures AllRecords(segs) == Numbered(history)
    decreases |segs|
  {
    if segs == [] {
      assert |Lines(history)| == 0;
    } else {
      var m := LastHolds(segs, history);
      AllRead(segs[..|segs| - 1], history[..m]);
      ReadBack(Numbered(history)[m..]);
      assert Numbered(history) == Numbered(history[..m]) + Numbered(history)[m..];
    }
  }

  lemma ReadBack(rs: seq<Record>)
    ensures Readable(Written(rs)) == rs
  {
    ReadableUpToDamage(rs, []);
    assert Written(rs) + [] == Written(rs);
  }

  /** Damage confined to the tail of the last segment costs replay exactly the lines from the damage on. */
  lemma TailDamageReadsPrefix(w: Log, history: seq<Payload>, keep: nat, junk: seq<Line>)
    requires Holds(w, history) && keep <= |w.segments[|w.segments| - 1].lines|
    requires junk != [] ==> Damage(junk[0])
    ensures 0 <= Kept(w, keep) <= |history|
    ensures AllRecords(TailDamaged(w.segments, keep, junk)) == Numbered(history[..Kept(w, keep)])
  {
    var n := |w.segments| - 1;
    var after := TailDamaged(w.segments, keep, junk);
    var m := LastHolds(w.segments, history);
    var tail := Numbered(history)[m..];
    assert after[..n] == w.segments[..n];
    AllRead(w.segments[..n], history[..m]);
    assert w.segments[n].lines[..keep] == Written(tail[..keep]);
    ReadableUpToDamage(tail[..keep], junk);
    assert Numbered(history[..m + keep]) == Numbered(history[..m]) + tail[..keep];
  }

  /** Losing the end of the last segment leaves a log that holds the rest of the history. */
  lemma TailLost(w: Log, history: seq<Payload>, keep: nat)
    requires Holds(w, history) && keep <= |w.segments[|w.segments| - 1].lines|
    ensures 0 <= Kept(w, keep) <= |history|
    ensures Holds(Log(TailDamaged(w.segments, keep, []), Kept(w, keep)), history[..Kept(w, keep)])
  {
    var n := |w.segments| - 1;
    var m := LastHolds(w.segments, history);
    var after := TailDamaged(w.segments, keep, []);
    assert after[..n] == w.segments[..n];
    assert after[n].lines == Written(Numbered(history)[m..][..keep]);
    assert Lines(history[..m + keep]) == Lines(history[..m]) + after[n].lines;
  }

  /** An appended record can be read back exactly when no damaged line comes before it in its segment. */
  lemma {:induction false} AppendedIsReadable(lines: seq<Line>, r: Record)
    ensures (Readable(lines + [Intact(r)]) == Readable(lines) + [r]) <==> !Damaged(lines)
    ensures (Readable(lines + [Intact(r)]) == Readable(lines)) <==> Damaged(lines)
    decreases |lines|
  {
    if lines == [] {
      assert lines + [Intact(r)] == [Intact(r)];
      assert Readable([Intact(r)][1..]) == [];
    } else if Damage(lines[0]) {
      assert Readable(lines + [Intact(r)]) == [] == Readable(lines);
    } else {
      assert (lines + [Intact(r)])[1..] == lines[1..] + [Intact(r)];
      AppendedIsReadable(lines[1..], r);
      var head := if lines[0].Blank? then [] else [lines[0].record];
      var rest, longer := Readable(lines[1..]), Readable(lines[1..] + [Intact(r)]);
      assert Readable(lines) == head + rest && Readable(lines + [Intact(r)]) == head + longer;
      SameTail(head, longer, rest);
      SameTail(head, longer, rest + [r]);
      assert head + (rest + [r]) == head + rest + [r];
      ShiftDamage(lines);
    }
  }

  lemma SameTail<T>(head: seq<T>, a: seq<T>, b: seq<T>)
    ensures head + a == head + b <==> a == b
  {
    if head + a == head + b { assert a == (head + a)[|head|..] == (head + b)[|head|..] == b; }
  }

  lemma ShiftDamage(lines: seq<Line>)
    requires lines != [] && !Damage(lines[0])
    ensures Damaged(lines) <==> Damaged(lines[1..])
  {
    if i :| 0 <= i < |lines| && Damage(lines[i]) { assert lines[1..][i - 1] == lines[i]; }
    if i :| 0 <= i < |lines[1..]| && Damage(lines[1..][i]) { assert lines[i + 1] == lines[1..][i]; }
  }

  /**
   Restarting over a damaged last segment leaves the damage in place: the next record goes after it
   and replay does not see that record.
   */
  lemma AppendAfterDamageIsLost(front: seq<Segment>, last: Segment, p: Payload)
    requires Damaged(last.lines)
    ensures AllRecords(Append(Start(front + [last]), p, false).segments) == AllRecords(front + [last])
  {
    var found := front + [last];
    var w := Append(Start(found), p, false);
    var r := Record(w.currentSeq, p);
    assert w.segments[..|front|] == found[..|front|] == front;
    assert w.segments[|front|].lines == last.lines + [Intact(r)];
    AppendedIsReadable(last.lines, r);
  }
}
