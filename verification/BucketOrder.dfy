/** Where a k-bucket keeps its contacts: which record, and in which order, over any sequence of operations. */
module BucketOrder {
  import opened Wrappers
  import opened Xor
  import opened KBuckets

  /** The list keeps its records from the least to the most recently seen. */
  ghost predicate BySeen(s: seq<NodeInfo>) {
    forall i, j :: 0 <= i < j < |s| ==> s[i].lastSeen <= s[j].lastSeen
  }

  ghost predicate SeenBy(s: seq<NodeInfo>, now: real) {
    forall i :: 0 <= i < |s| ==> s[i].lastSeen <= now
  }

  lemma {:induction false} ExceptOnly(s: seq<NodeInfo>, id: NodeID)
    ensures forall x :: x in Except(s, id) <==> x in s && x.id != id
    decreases |s|
  {
    if s != [] {
      ExceptOnly(s[1..], id);
      assert s == [s[0]] + s[1..];
    }
  }

  lemma PrependOrder(c: NodeInfo, s: seq<NodeInfo>)
    requires BySeen(s) && forall x :: x in s ==> c.lastSeen <= x.lastSeen
    ensures BySeen([c] + s)
  {
    assert forall i :: 0 <= i < |s| ==> s[i] in s;
  }

  lemma TailOrder(s: seq<NodeInfo>, x: NodeInfo)
    requires s != [] && BySeen(s) && x in s[1..]
    ensures s[0].lastSeen <= x.lastSeen
  {
    var j :| 0 <= j < |s[1..]| && s[1..][j] == x;
    assert s[j + 1] == x;
  }

  lemma {:induction false} ExceptOrder(s: seq<NodeInfo>, id: NodeID)
    requires BySeen(s)
    ensures BySeen(Except(s, id))
    decreases |s|
  {
    if s != [] {
      var rest := Except(s[1..], id);
      ExceptOrder(s[1..], id);
      ExceptOnly(s[1..], id);
      forall x | x in rest ensures s[0].lastSeen <= x.lastSeen { TailOrder(s, x); }
      PrependOrder(s[0], rest);
    }
  }

  lemma ExceptSeen(s: seq<NodeInfo>, id: NodeID, now: real)
    requires SeenBy(s, now)
    ensures SeenBy(Except(s, id), now)
  {
    ExceptOnly(s, id);
    var rest := Except(s, id);
    forall i | 0 <= i < |rest| ensures rest[i].lastSeen <= now { assert rest[i] in s; }
  }

  /**
   Where an added node goes: a contact moves to the end with its new record, a newcomer goes there while
   there is room, and otherwise the contacts stay and it goes to the end of the cache.
   */
  lemma AddPlaces(b: Bucket, k: nat, c: NodeInfo)
    requires Valid(b, k)
    ensures
      var (d, active) := Added(b, k, c);
      && (active ==> d.contacts == Except(b.contacts, c.id) + [c] && d.cache == b.cache)
      && (!active ==>
           && d.contacts == b.contacts
           && var q := Except(b.cache, c.id) + [c];
              d.cache == if |q| <= k then q else q[|q| - k..])
  {
    if c.id in Ids(b.contacts) {
      PopRemoves(b.contacts, c.id);
    } else if |b.contacts| < k {
      ExceptAbsent(b.contacts, c.id);
    } else {
      PopRemoves(b.cache, c.id);
    }
  }

  /** Removing a contact makes room for the candidate that has waited longest; nothing else moves. */
  lemma RemovePlaces(b: Bucket, k: nat, id: NodeID)
    requires Valid(b, k)
    ensures
      var d, cs, q := Removed(b, k, id), Except(b.contacts, id), Except(b.cache, id);
      if id in Ids(b.contacts) && q != [] then d.contacts == cs + [q[0]] && d.cache == q[1..]
      else d.contacts == cs && d.cache == q
  {
    PopRemoves(b.contacts, id);
    PopRemoves(b.cache, id);
  }

  lemma AppendOrder(s: seq<NodeInfo>, c: NodeInfo, now: real)
    requires BySeen(s) && SeenBy(s, now) && SeenBy(s, c.lastSeen) && c.lastSeen <= now
    ensures BySeen(s + [c]) && SeenBy(s + [c], now)
  {
  }

  lemma DropOrder(s: seq<NodeInfo>, n: nat, now: real)
    requires n <= |s| && BySeen(s) && SeenBy(s, now)
    ensures BySeen(s[n..]) && SeenBy(s[n..], now)
  {
  }

  ghost predicate Ordered(b: Bucket, now: real) {
    BySeen(b.contacts) && BySeen(b.cache) && SeenBy(b.contacts, now) && SeenBy(b.cache, now)
  }

  /** Adding under a clock that does not run backwards keeps contacts and candidates in the order they were seen. */
  lemma AddKeepsOrder(b: Bucket, k: nat, c: NodeInfo, now: real)
    requires Valid(b, k) && Ordered(b, now) && now <= c.lastSeen
    ensures Ordered(Added(b, k, c).0, c.lastSeen)
  {
    AddPlaces(b, k, c);
    ExceptOrder(b.contacts, c.id);
    ExceptOrder(b.cache, c.id);
    ExceptSeen(b.contacts, c.id, c.lastSeen);
    ExceptSeen(b.cache, c.id, c.lastSeen);
    AppendOrder(Except(b.contacts, c.id), c, c.lastSeen);
    var q := Except(b.cache, c.id) + [c];
    AppendOrder(Except(b.cache, c.id), c, c.lastSeen);
    if |q| > k { DropOrder(q, |q| - k, c.lastSeen); }
  }

  /** The removal promotes a candidate that was seen before the newest contact that stays. */
  predicate PromotesStale(b: Bucket, id: NodeID) {
    var cs, q := Except(b.contacts, id), Except(b.cache, id);
    id in Ids(b.contacts) && q != [] && cs != [] && q[0].lastSeen < cs[|cs| - 1].lastSeen
  }

  /** Removing keeps the order exactly when it promotes no such candidate. */
  lemma RemoveKeepsOrderExactly(b: Bucket, k: nat, id: NodeID, now: real)
    requires Valid(b, k) && Ordered(b, now)
    ensures Ordered(Removed(b, k, id), now) <==> !PromotesStale(b, id)
  {
    RemovePlaces(b, k, id);
    var cs, q := Except(b.contacts, id), Except(b.cache, id);
    ExceptOrder(b.contacts, id);
    ExceptOrder(b.cache, id);
    ExceptSeen(b.contacts, id, now);
    ExceptSeen(b.cache, id, now);
    if id in Ids(b.contacts) && q != [] {
      DropOrder(q, 1, now);
      if PromotesStale(b, id) {
        var n := |cs|;
        assert (cs + [q[0]])[n - 1] == cs[n - 1] && (cs + [q[0]])[n] == q[0];
      } else {
        AppendOrder(cs, q[0], now);
      }
    }
  }

  // ----- Any sequence of operations -----

  datatype Op = Add(info: NodeInfo) | Remove(id: NodeID)

  function Do(b: Bucket, k: nat, op: Op): Bucket {
    match op
    case Add(c) => Added(b, k, c).0
    case Remove(id) => Removed(b, k, id)
  }

  /** The bucket after the first n operations. */
  function After(ops: seq<Op>, k: nat, n: nat): Bucket
    requires n <= |ops|
  {
    if n == 0 then EMPTY else Do(After(ops, k, n - 1), k, ops[n - 1])
  }

  lemma {:induction false} AfterValid(ops: seq<Op>, k: nat, n: nat)
    requires n <= |ops|
    ensures Valid(After(ops, k, n), k)
    decreases n
  {
    if n > 0 {
      AfterValid(ops, k, n - 1);
      var b := After(ops, k, n - 1);
      match ops[n - 1] {
        case Add(c) => AddKeeps(b, k, c);
        case Remove(id) => RemoveKeeps(b, k, id);
      }
    }
  }

  /** The last time the node was added, of the first n operations, or -1. */
  function LastAdd(ops: seq<Op>, n: nat, id: NodeID): (j: int)
    requires n <= |ops|
    ensures -1 <= j < n && (j >= 0 ==> ops[j].Add? && ops[j].info.id == id)
    ensures forall i :: j < i < n ==> !(ops[i].Add? && ops[i].info.id == id)
  {
    if n == 0 then -1
    else if ops[n - 1].Add? && ops[n - 1].info.id == id then n - 1
    else LastAdd(ops, n - 1, id)
  }

  predicate Holds(b: Bucket, x: NodeInfo) { x in b.contacts || x in b.cache }

  /** What a bucket holds after an operation was just added, or was there and is not replaced. */
  lemma DoOrigin(b: Bucket, k: nat, op: Op, x: NodeInfo)
    requires Valid(b, k) && Holds(Do(b, k, op), x)
    ensures op == Add(x) || (Holds(b, x) && !(op.Add? && op.info.id == x.id))
  {
    match op {
      case Add(c) =>
        AddPlaces(b, k, c);
        ExceptOnly(b.contacts, c.id);
        ExceptOnly(b.cache, c.id);
        if x.id == c.id { OnlyRecord(b, k, c, x); }
      case Remove(id) =>
        RemovePlaces(b, k, id);
        ExceptOnly(b.contacts, id);
        ExceptOnly(b.cache, id);
    }
  }

  /** Contacts and candidates are known by the record of their latest addition, whatever came between. */
  lemma {:induction false} RecordIsLatest(ops: seq<Op>, k: nat, n: nat, x: NodeInfo)
    requires n <= |ops| && Holds(After(ops, k, n), x)
    ensures LastAdd(ops, n, x.id) >= 0 && x == ops[LastAdd(ops, n, x.id)].info
    decreases n
  {
    if n > 0 {
      var b := After(ops, k, n - 1);
      AfterValid(ops, k, n - 1);
      DoOrigin(b, k, ops[n - 1], x);
      if ops[n - 1] != Add(x) { RecordIsLatest(ops, k, n - 1, x); }
    }
  }

  /** Once added, a node is known by that record only. */
  lemma OnlyRecord(b: Bucket, k: nat, c: NodeInfo, x: NodeInfo)
    requires Valid(b, k) && x.id == c.id && (x in Added(b, k, c).0.contacts || x in Added(b, k, c).0.cache)
    ensures x == c
  {
    var d := Added(b, k, c).0;
    AddPlaces(b, k, c);
    ExceptOnly(b.contacts, c.id);
    ExceptOnly(b.cache, c.id);
    AddKeeps(b, k, c);
    InIds(d.contacts);
    InIds(d.cache);
    InIds(b.contacts);
  }

  lemma InIds(s: seq<NodeInfo>)
    ensures forall x :: x in s ==> x.id in Ids(s)
  {
  }

  /** The clock: the time of the last addition. */
  function Clock(ops: seq<Op>, start: real, n: nat): real
    requires n <= |ops|
  {
    if n == 0 then start else if ops[n - 1].Add? then ops[n - 1].info.lastSeen else Clock(ops, start, n - 1)
  }

  /** The clock does not run backwards over the first n operations. */
  ghost predicate Ticking(ops: seq<Op>, start: real, n: nat)
    requires n <= |ops|
  {
    n == 0 || (Ticking(ops, start, n - 1) && (ops[n - 1].Add? ==> Clock(ops, start, n - 1) <= ops[n - 1].info.lastSeen))
  }

  lemma DoKeepsOrder(b: Bucket, k: nat, op: Op, now: real)
    requires Valid(b, k) && Ordered(b, now)
    requires if op.Add? then now <= op.info.lastSeen else !PromotesStale(b, op.id)
    ensures Ordered(Do(b, k, op), if op.Add? then op.info.lastSeen else now)
  {
    match op {
      case Add(c) => AddKeepsOrder(b, k, c, now);
      case Remove(id) => RemoveKeepsOrderExactly(b, k, id, now);
    }
  }

  /** None of the first n operations promoted a stale candidate. */
  ghost predicate NoneStale(ops: seq<Op>, k: nat, n: nat)
    requires n <= |ops|
  {
    n == 0 || (NoneStale(ops, k, n - 1) && (ops[n - 1].Remove? ==> !PromotesStale(After(ops, k, n - 1), ops[n - 1].id)))
  }

  /** After any operations contacts stand from the least to the most recently seen, unless a removal promoted a stale candidate. */
  lemma {:induction false} ContactsStandInOrder(ops: seq<Op>, k: nat, start: real, n: nat)
    requires n <= |ops| && Ticking(ops, start, n) && NoneStale(ops, k, n)
    ensures Ordered(After(ops, k, n), Clock(ops, start, n))
    decreases n
  {
    if n > 0 {
      var h := n - 1;
      ContactsStandInOrder(ops, k, start, h);
      AfterValid(ops, k, h);
      DoKeepsOrder(After(ops, k, h), k, ops[h], Clock(ops, start, h));
    }
  }

  /** A bucket of two, a candidate waiting, the first contact refreshed and then the other removed: the candidate follows a later contact. */
  lemma StaleCandidatePromoted(a: NodeID, b: NodeID, c: NodeID) returns (ops: seq<Op>)
    requires a != b && a != c && b != c
    ensures Ticking(ops, 0.0, |ops|) && !BySeen(After(ops, 2, |ops|).contacts)
  {
    var A, B, C, A' := NodeInfo(a, "a", 1.0), NodeInfo(b, "b", 2.0), NodeInfo(c, "c", 3.0), NodeInfo(a, "a", 4.0);
    ops := [Add(A), Add(B), Add(C), Add(A'), Remove(b)];
    assert Clock(ops, 0.0, 1) == 1.0 && Ticking(ops, 0.0, 1);
    assert Clock(ops, 0.0, 2) == 2.0 && Ticking(ops, 0.0, 2);
    assert Clock(ops, 0.0, 3) == 3.0 && Ticking(ops, 0.0, 3) && Ticking(ops, 0.0, 4);
    IdsPair(A, B);
    IdsPair(B, A');
    IdsOne(A);
    assert After(ops, 2, 1) == Bucket([A], []);
    assert After(ops, 2, 2) == Bucket([A, B], []);
    assert After(ops, 2, 3) == Bucket([A, B], [C]);
    assert Pop([A, B], a) == [B];
    assert After(ops, 2, 4) == Bucket([B, A'], [C]);
    assert Pop([B, A'], b) == [A'] && Except([C], b) == [C];
    assert After(ops, 2, 5) == Bucket([A', C], []);
    assert After(ops, 2, 5).contacts[0].lastSeen > After(ops, 2, 5).contacts[1].lastSeen;
  }

  lemma IdsPair(x: NodeInfo, y: NodeInfo)
    ensures Ids([x, y]) == {x.id, y.id}
  {
    IdsSplit([x], [y]);
    IdsOne(x);
    IdsOne(y);
    assert [x, y] == [x] + [y];
  }
}
