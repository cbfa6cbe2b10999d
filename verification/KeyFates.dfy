/**
 What a sequence of commands can do to one key, from every value the key may start with: whether they
 can all succeed, end on a value that is not a number, or change the key.  Each is decided from the
 commands alone.
 */
module KeyFates {
  import opened Wrappers
  import opened Models

  /** What is stored under one key, or that a command on it raised. */
  datatype Fate = Holds(v: Option<Value>) | Fails

  function KeyStep(l: LogEntry, k: string, v: Option<Value>): Fate {
    if l.key != Some(k) then Holds(v)
    else
      match l.command
      case Set(x) => Holds(Some(x))
      case Delete => Holds(None)
      case Cas(a, b) => if v.GetOr(Null) == a then Holds(Some(b)) else Holds(v)
      case Increment(d) =>
        (match ToInt(v.GetOr(Int(0)))
         case None => Fails
         case Some(n) => Holds(Some(Int(n + d))))
      case _ => Holds(v)
  }

  function KeyRun(ls: seq<LogEntry>, k: string, v: Option<Value>): Fate
    decreases |ls|
  {
    if ls == [] then Holds(v)
    else
      match KeyStep(ls[0], k, v)
      case Fails => Fails
      case Holds(w) => KeyRun(ls[1..], k, w)
  }

  lemma {:induction false} KeyRunConcat(a: seq<LogEntry>, b: seq<LogEntry>, k: string, v: Option<Value>)
    ensures KeyRun(a + b, k, v) ==
            match KeyRun(a, k, v) { case Fails => Fails case Holds(w) => KeyRun(b, k, w) }
    decreases |a|
  {
    if a == [] {
      assert a + b == b;
    } else {
      assert (a + b)[0] == a[0] && (a + b)[1..] == a[1..] + b;
      match KeyStep(a[0], k, v) {
        case Fails =>
        case Holds(w) => KeyRunConcat(a[1..], b, k, w);
      }
    }
  }

  // ----- The commands that matter -----

  /** The command fixes what the key holds, whatever it held. */
  predicate Settles(l: LogEntry, k: string) {
    l.key == Some(k) && (l.command.Set? || l.command.Delete?)
  }

  predicate Counts(l: LogEntry, k: string) {
    l.key == Some(k) && l.command.Increment?
  }

  predicate Swaps(l: LogEntry, k: string) {
    l.key == Some(k) && l.command.Cas?
  }

  /** The first command that settles the key, or the length. */
  function FirstSettle(ls: seq<LogEntry>, k: string): (i: nat)
    ensures i <= |ls| && (i < |ls| ==> Settles(ls[i], k))
    ensures forall j :: 0 <= j < i ==> !Settles(ls[j], k)
  {
    if ls == [] || Settles(ls[0], k) then 0 else 1 + FirstSettle(ls[1..], k)
  }

  /** The first increment of the key, or the length. */
  function FirstCount(ls: seq<LogEntry>, k: string): (i: nat)
    ensures i <= |ls| && (i < |ls| ==> Counts(ls[i], k))
    ensures forall j :: 0 <= j < i ==> !Counts(ls[j], k)
  {
    if ls == [] || Counts(ls[0], k) then 0 else 1 + FirstCount(ls[1..], k)
  }

  ghost predicate Unsettled(ls: seq<LogEntry>, k: string) {
    forall i :: 0 <= i < |ls| ==> !Settles(ls[i], k)
  }

  ghost predicate SwapsOnly(ls: seq<LogEntry>, k: string) {
    Unsettled(ls, k) && forall i :: 0 <= i < |ls| ==> !Counts(ls[i], k)
  }

  /** How much the increments of the key add up to. */
  function Delta(ls: seq<LogEntry>, k: string): int {
    if ls == [] then 0 else (if Counts(ls[0], k) then ls[0].command.delta else 0) + Delta(ls[1..], k)
  }

  /** A stored value that an increment cannot read. */
  predicate Odd(f: Fate) {
    f.Holds? && f.v.Some? && ToInt(f.v.value) == None
  }

  // ----- Starting values that dodge every swap -----

  /** Numbers from here on meet no swap, however the increments shift them. */
  function Bound(ls: seq<LogEntry>, k: string): int {
    if ls == [] then 0
    else
      var l, rest := ls[0], Bound(ls[1..], k);
      if Counts(l, k) then rest - l.command.delta
      else if Swaps(l, k) && l.command.expected.Int? && l.command.expected.n >= rest then l.command.expected.n + 1
      else rest
  }

  /** Large numbers pass through swaps and increments alike. */
  lemma {:induction false} LargePass(ls: seq<LogEntry>, k: string, n: int)
    requires Unsettled(ls, k) && n >= Bound(ls, k)
    ensures KeyRun(ls, k, Some(Int(n))) == Holds(Some(Int(n + Delta(ls, k))))
    decreases |ls|
  {
    if ls != [] {
      var l := ls[0];
      var d := if Counts(l, k) then l.command.delta else 0;
      assert KeyStep(l, k, Some(Int(n))) == Holds(Some(Int(n + d)));
      LargePass(ls[1..], k, n + d);
    }
  }

  /** Texts longer than this are in no swap. */
  function Size(ls: seq<LogEntry>, k: string): nat {
    if ls == [] then 0
    else
      var l, rest := ls[0], Size(ls[1..], k);
      var own := if Swaps(l, k) && (l.command.expected.Numeric? || l.command.expected.Opaque?) then |l.command.expected.repr| else 0;
      if own > rest then own else rest
  }

  lemma {:induction false} LongDodges(ls: seq<LogEntry>, k: string, v: Value)
    requires SwapsOnly(ls, k) && (v.Numeric? || v.Opaque?) && |v.repr| > Size(ls, k)
    ensures KeyRun(ls, k, Some(v)) == Holds(Some(v))
    decreases |ls|
  {
    if ls != [] {
      assert KeyStep(ls[0], k, Some(v)) == Holds(Some(v));
      LongDodges(ls[1..], k, v);
    }
  }

  function Text(n: nat): (r: string)
    ensures |r| == n
  {
    seq(n, _ => 'x')
  }

  /** Where a settling command comes first, the start does not matter. */
  lemma Collapse(ls: seq<LogEntry>, k: string, u: Option<Value>)
    requires ls != [] && Settles(ls[0], k)
    ensures KeyRun(ls, k, u) == KeyRun(ls, k, None)
  {
    assert KeyStep(ls[0], k, u) == KeyStep(ls[0], k, None);
  }

  lemma CutRun(ls: seq<LogEntry>, i: nat, k: string, v: Option<Value>)
    requires i <= |ls|
    ensures KeyRun(ls, k, v) ==
            match KeyRun(ls[..i], k, v) { case Fails => Fails case Holds(w) => KeyRun(ls[i..], k, w) }
  {
    assert ls == ls[..i] + ls[i..];
    KeyRunConcat(ls[..i], ls[i..], k, v);
  }

  lemma SettledRun(ls: seq<LogEntry>, k: string, u: Option<Value>)
    requires FirstSettle(ls, k) < |ls|
    ensures
      var d := FirstSettle(ls, k);
      KeyRun(ls, k, u) == if KeyRun(ls[..d], k, u).Fails? then Fails else KeyRun(ls[d..], k, None)
  {
    var d := FirstSettle(ls, k);
    CutRun(ls, d, k, u);
    if KeyRun(ls[..d], k, u).Holds? { Collapse(ls[d..], k, KeyRun(ls[..d], k, u).v); }
  }

  // ----- Can they all succeed? -----

  predicate Passes(ls: seq<LogEntry>, k: string) {
    var d := FirstSettle(ls, k);
    d == |ls| || KeyRun(ls[d..], k, None).Holds?
  }

  /** A large number leads where the first settling command leads, or is just added to. */
  lemma LargeLeads(ls: seq<LogEntry>, k: string, n: int)
    requires n >= Bound(ls[..FirstSettle(ls, k)], k)
    ensures
      var d := FirstSettle(ls, k);
      KeyRun(ls, k, Some(Int(n))) ==
      if d == |ls| then Holds(Some(Int(n + Delta(ls, k)))) else KeyRun(ls[d..], k, None)
  {
    var d := FirstSettle(ls, k);
    LargePass(ls[..d], k, n);
    if d == |ls| {
      assert ls[..d] == ls;
    } else {
      SettledRun(ls, k, Some(Int(n)));
    }
  }

  lemma PassesExactly(ls: seq<LogEntry>, k: string)
    ensures Passes(ls, k) <==> exists u :: KeyRun(ls, k, u).Holds?
  {
    var d := FirstSettle(ls, k);
    LargeLeads(ls, k, Bound(ls[..d], k));
    if Passes(ls, k) { assert KeyRun(ls, k, Some(Int(Bound(ls[..d], k)))).Holds?; }
    if u :| KeyRun(ls, k, u).Holds? {
      if d < |ls| { SettledRun(ls, k, u); }
    }
  }

  // ----- Can they change the key? -----

  predicate Changes(l: LogEntry, k: string) {
    Settles(l, k) || Counts(l, k) || (Swaps(l, k) && (l.command.expected != l.command.value || l.command.expected == Null))
  }

  predicate Moves(ls: seq<LogEntry>, k: string) {
    Passes(ls, k) && exists l :: l in ls && Changes(l, k)
  }

  ghost predicate MovesFrom(ls: seq<LogEntry>, k: string, u: Option<Value>) {
    KeyRun(ls, k, u).Holds? && KeyRun(ls, k, u).v != u
  }

  lemma {:induction false} NoChange(ls: seq<LogEntry>, k: string, u: Option<Value>)
    requires forall l :: l in ls ==> !Changes(l, k)
    ensures KeyRun(ls, k, u) == Holds(u)
    decreases |ls|
  {
    if ls != [] {
      assert ls[0] in ls && KeyStep(ls[0], k, u) == Holds(u);
      NoChange(ls[1..], k, u);
    }
  }

  /** An increment turns a number in text into an integer, which no swap before it can notice. */
  lemma CountReaches(ls: seq<LogEntry>, k: string, x: int) returns (u: Value)
    requires FirstSettle(ls, k) == |ls| && FirstCount(ls, k) < |ls|
    ensures u.Numeric? && KeyRun(ls[..FirstCount(ls, k) + 1], k, Some(u)) == Holds(Some(Int(x)))
  {
    var q := FirstCount(ls, k);
    u := Numeric(Text(Size(ls[..q], k) + 1), x - ls[q].command.delta);
    LongDodges(ls[..q], k, u);
    assert ls[..q + 1][..q] == ls[..q] && ls[..q + 1][q..] == [ls[q]];
    CutRun(ls[..q + 1], q, k, Some(u));
    assert [ls[q]][1..] == [];
  }

  lemma CountMoves(ls: seq<LogEntry>, k: string) returns (u: Option<Value>)
    requires FirstSettle(ls, k) == |ls| && FirstCount(ls, k) < |ls|
    ensures MovesFrom(ls, k, u)
  {
    var q := FirstCount(ls, k);
    var bound := Bound(ls[q + 1..], k);
    LargePass(ls[q + 1..], k, bound);
    var v := CountReaches(ls, k, bound);
    u := Some(v);
    CutRun(ls, q + 1, k, u);
    assert KeyRun(ls, k, u) == KeyRun(ls[q + 1..], k, Some(Int(bound)));
  }

  /** The first swap between different values sends both the same way, so it moves one of them. */
  lemma {:induction false} SwapMoves(ls: seq<LogEntry>, k: string) returns (u: Option<Value>)
    requires SwapsOnly(ls, k) && exists l :: l in ls && Changes(l, k)
    ensures MovesFrom(ls, k, u)
    decreases |ls|
  {
    var l := ls[0];
    if Swaps(l, k) && l.command.expected != l.command.value {
      var a, b := l.command.expected, l.command.value;
      assert KeyRun(ls, k, Some(a)) == KeyRun(ls[1..], k, Some(b)) == KeyRun(ls, k, Some(b));
      SwapsHold(ls, k, Some(a));
      u := if KeyRun(ls, k, Some(a)).v != Some(a) then Some(a) else Some(b);
    } else if Swaps(l, k) && l.command.expected == Null {
      SwapsHold(ls, k, None);
      NeverAbsent(ls[1..], k, Null);
      u := None;
    } else {
      assert ls == [l] + ls[1..];
      u := SwapMoves(ls[1..], k);
      assert KeyStep(l, k, u) == Holds(u);
    }
  }

  lemma {:induction false} SwapsHold(ls: seq<LogEntry>, k: string, u: Option<Value>)
    requires SwapsOnly(ls, k)
    ensures KeyRun(ls, k, u).Holds?
    decreases |ls|
  {
    if ls != [] { SwapsHold(ls[1..], k, KeyStep(ls[0], k, u).v); }
  }

  lemma {:induction false} NeverAbsent(ls: seq<LogEntry>, k: string, x: Value)
    requires SwapsOnly(ls, k)
    ensures KeyRun(ls, k, Some(x)).Holds? && KeyRun(ls, k, Some(x)).v.Some?
    decreases |ls|
  {
    if ls != [] { NeverAbsent(ls[1..], k, KeyStep(ls[0], k, Some(x)).v.value); }
  }

  lemma MovesExactly(ls: seq<LogEntry>, k: string)
    ensures Moves(ls, k) <==> exists u :: MovesFrom(ls, k, u)
  {
    PassesExactly(ls, k);
    if Moves(ls, k) {
      var _ := MoveWitness(ls, k);
    }
    if u :| MovesFrom(ls, k, u) {
      if forall l :: l in ls ==> !Changes(l, k) { NoChange(ls, k, u); }
      assert exists l :: l in ls && Changes(l, k);
    }
  }

  lemma MoveWitness(ls: seq<LogEntry>, k: string) returns (u: Option<Value>)
    requires Moves(ls, k)
    ensures MovesFrom(ls, k, u)
  {
    if FirstSettle(ls, k) < |ls| {
      u := SettleMoves(ls, k);
    } else if FirstCount(ls, k) < |ls| {
      u := CountMoves(ls, k);
    } else {
      u := SwapMoves(ls, k);
    }
  }

  lemma SettleMoves(ls: seq<LogEntry>, k: string) returns (u: Option<Value>)
    requires FirstSettle(ls, k) < |ls| && Passes(ls, k)
    ensures MovesFrom(ls, k, u) && u.Some? && u.value.Int?
  {
    var bound := Bound(ls[..FirstSettle(ls, k)], k);
    var end := KeyRun(ls[FirstSettle(ls, k)..], k, None).v;
    var n := if end == Some(Int(bound)) then bound + 1 else bound;
    LargeLeads(ls, k, n);
    u := Some(Int(n));
  }

  // ----- Can they end on a value that is not a number? -----

  /** Some swap after the first increment can be met by a number that then ends badly. */
  predicate SwapHits(ls: seq<LogEntry>, k: string) {
    exists i :: 0 <= i < |ls| && HitsAt(ls, k, i)
  }

  predicate HitsAt(ls: seq<LogEntry>, k: string, i: nat)
    requires i < |ls|
  {
    && Swaps(ls[i], k) && ls[i].command.expected.Int?
    && Odd(KeyRun(ls, k, Some(Int(ls[i].command.expected.n - Delta(ls[..i], k)))))
  }

  predicate EndsOdd(ls: seq<LogEntry>, k: string) {
    var d, q := FirstSettle(ls, k), FirstCount(ls, k);
    if d < |ls| then Odd(KeyRun(ls[d..], k, None))
    else if q < |ls| then SwapHits(ls[q + 1..], k)
    else true
  }

  lemma {:induction false} HitFound(ls: seq<LogEntry>, k: string, x: int) returns (i: nat)
    requires Unsettled(ls, k) && Odd(KeyRun(ls, k, Some(Int(x))))
    ensures i < |ls| && Swaps(ls[i], k) && ls[i].command.expected.Int?
    ensures ls[i].command.expected.n - Delta(ls[..i], k) == x
    decreases |ls|
  {
    var l := ls[0];
    if Swaps(l, k) && l.command.expected == Int(x) {
      i := 0;
    } else {
      var d := if Counts(l, k) then l.command.delta else 0;
      assert KeyStep(l, k, Some(Int(x))) == Holds(Some(Int(x + d)));
      var j := HitFound(ls[1..], k, x + d);
      i := j + 1;
      assert ls[..i][0] == l && ls[..i][1..] == ls[1..][..j];
    }
  }

  lemma CountedRun(ls: seq<LogEntry>, k: string, u: Option<Value>) returns (x: int)
    requires FirstCount(ls, k) < |ls| && KeyRun(ls, k, u).Holds?
    ensures KeyRun(ls, k, u) == KeyRun(ls[FirstCount(ls, k) + 1..], k, Some(Int(x)))
  {
    var q := FirstCount(ls, k);
    CutRun(ls, q, k, u);
    assert ls[q..][0] == ls[q] && ls[q..][1..] == ls[q + 1..];
    var v := KeyRun(ls[..q], k, u).v;
    x := ToInt(v.GetOr(Int(0))).value + ls[q].command.delta;
  }

  lemma HitsFrom(ls: seq<LogEntry>, k: string, x: int)
    requires Unsettled(ls, k) && Odd(KeyRun(ls, k, Some(Int(x))))
    ensures SwapHits(ls, k)
  {
    var i := HitFound(ls, k, x);
    assert HitsAt(ls, k, i);
  }

  lemma EndsOddFrom(ls: seq<LogEntry>, k: string, u: Option<Value>)
    requires Odd(KeyRun(ls, k, u))
    ensures EndsOdd(ls, k)
  {
    var d, q := FirstSettle(ls, k), FirstCount(ls, k);
    if d < |ls| {
      SettledRun(ls, k, u);
    } else if q < |ls| {
      var x := CountedRun(ls, k, u);
      HitsFrom(ls[q + 1..], k, x);
    }
  }

  /** A start that ends badly, and away from where it started unless only swaps are involved. */
  lemma OddWitness(ls: seq<LogEntry>, k: string) returns (u: Option<Value>)
    requires EndsOdd(ls, k)
    ensures Odd(KeyRun(ls, k, u))
    ensures FirstSettle(ls, k) < |ls| || FirstCount(ls, k) < |ls| ==> MovesFrom(ls, k, u)
  {
    var d, q := FirstSettle(ls, k), FirstCount(ls, k);
    if d < |ls| {
      u := SettleMoves(ls, k);
      SettledRun(ls, k, u);
    } else if q < |ls| {
      var i :| 0 <= i < |ls[q + 1..]| && HitsAt(ls[q + 1..], k, i);
      var x := ls[q + 1..][i].command.expected.n - Delta(ls[q + 1..][..i], k);
      var v := CountReaches(ls, k, x);
      u := Some(v);
      CutRun(ls, q + 1, k, u);
      assert KeyRun(ls, k, u) == KeyRun(ls[q + 1..], k, Some(Int(x)));
    } else {
      var v := Opaque(Text(Size(ls, k) + 1));
      LongDodges(ls, k, v);
      u := Some(v);
    }
  }

  // ----- Can they end on such a value and have changed the key? -----

  predicate OddFrom(ls: seq<LogEntry>, k: string, u: Option<Value>) {
    Odd(KeyRun(ls, k, u)) && KeyRun(ls, k, u).v != u
  }

  predicate MovesOdd(ls: seq<LogEntry>, k: string) {
    if FirstSettle(ls, k) < |ls| || FirstCount(ls, k) < |ls| then EndsOdd(ls, k)
    else exists l :: l in ls && Swaps(l, k) && (OddFrom(ls, k, Some(l.command.expected)) || OddFrom(ls, k, None))
  }

  /** A value that no swap expects stays. */
  lemma {:induction false} UnexpectedStays(ls: seq<LogEntry>, k: string, u: Option<Value>)
    requires SwapsOnly(ls, k) && forall l :: l in ls && Swaps(l, k) ==> l.command.expected != u.GetOr(Null)
    ensures KeyRun(ls, k, u) == Holds(u)
    decreases |ls|
  {
    if ls != [] {
      assert ls[0] in ls && KeyStep(ls[0], k, u) == Holds(u);
      UnexpectedStays(ls[1..], k, u);
    }
  }

  lemma MovesOddExactly(ls: seq<LogEntry>, k: string)
    ensures MovesOdd(ls, k) <==> exists u :: OddFrom(ls, k, u)
  {
    if FirstSettle(ls, k) < |ls| || FirstCount(ls, k) < |ls| {
      if MovesOdd(ls, k) {
        var u := OddWitness(ls, k);
        assert OddFrom(ls, k, u);
      }
      if u :| OddFrom(ls, k, u) { EndsOddFrom(ls, k, u); }
    } else if u :| OddFrom(ls, k, u) {
      if forall l :: l in ls && Swaps(l, k) ==> l.command.expected != u.GetOr(Null) { UnexpectedStays(ls, k, u); }
    }
  }
}
