/** The routing table: 160 k-buckets, one for each power of two of the distance from this node. */
module RoutingTables {
  import opened Wrappers
  import opened Xor
  import opened KBuckets
  import B = BucketOrder

  const NUM_BUCKETS := 160

  function BucketIndex(self: NodeID, id: NodeID): (i: nat)
    ensures i < NUM_BUCKETS
  {
    var d := Distance(self, id);
    if d == 0 then 0
    else if BitLength(d) - 1 < NUM_BUCKETS - 1 then BitLength(d) - 1
    else NUM_BUCKETS - 1
  }

  ghost predicate InRange(self: NodeID, i: nat, id: NodeID) {
    Pow2(i) <= Distance(self, id) < Pow2(i + 1)
  }

  lemma DistanceBits(self: NodeID, id: NodeID)
    requires self != id
    ensures var n := BitLength(Distance(self, id)); 0 < n <= ID_BITS && InRange(self, n - 1, id)
  {
    var d := Distance(self, id);
    DistanceZero(self, id);
    DistanceBound(self, id, ID_BITS);
    BitLengthBounds(d);
    if BitLength(d) > ID_BITS { Pow2Grows(ID_BITS, BitLength(d) - 1); }
  }

  /** Every other node falls into exactly the bucket of its distance. */
  lemma BucketIndexExact(self: NodeID, id: NodeID, i: nat)
    requires self != id
    ensures InRange(self, i, id) <==> i == BucketIndex(self, id)
  {
    var d := Distance(self, id);
    DistanceBits(self, id);
    if InRange(self, i, id) { RangesApart(d, i, BitLength(d) - 1); }
  }

  function TableAdd(t: seq<Bucket>, self: NodeID, k: nat, c: NodeInfo): (seq<Bucket>, bool)
    requires |t| == NUM_BUCKETS
  {
    if c.id == self then (t, false)
    else
      var i := BucketIndex(self, c.id);
      (t[i := Added(t[i], k, c).0], Added(t[i], k, c).1)
  }

  function TableRemove(t: seq<Bucket>, self: NodeID, k: nat, id: NodeID): seq<Bucket>
    requires |t| == NUM_BUCKETS
  {
    if id == self then t
    else
      var i := BucketIndex(self, id);
      t[i := Removed(t[i], k, id)]
  }

  /** The contacts that a search may return, bucket by bucket. */
  function Gathered(t: seq<Bucket>, exclude: Option<NodeID>): seq<NodeInfo> {
    if t == [] then []
    else Gathered(t[..|t| - 1], exclude) + Visible(t[|t| - 1].contacts, exclude)
  }

  function Visible(s: seq<NodeInfo>, exclude: Option<NodeID>): seq<NodeInfo> {
    if exclude.Some? then Except(s, exclude.value) else s
  }

  function Insert(c: NodeInfo, s: seq<NodeInfo>, target: NodeID): seq<NodeInfo> {
    if s == [] then [c]
    else if Distance(c.id, target) <= Distance(s[0].id, target) then [c] + s
    else [s[0]] + Insert(c, s[1..], target)
  }

  /** The stable sort by distance from the target. */
  function SortByDistance(s: seq<NodeInfo>, target: NodeID): seq<NodeInfo> {
    if s == [] then [] else Insert(s[0], SortByDistance(s[1..], target), target)
  }

  /** Python's `s[:limit]`, which counts from the end when `limit` is negative. */
  function Slice(s: seq<NodeInfo>, limit: int): seq<NodeInfo> {
    if limit >= |s| then s
    else if limit >= 0 then s[..limit]
    else if |s| + limit >= 0 then s[..|s| + limit]
    else []
  }

  function Closest(t: seq<Bucket>, k: nat, target: NodeID, count: Option<int>, exclude: Option<NodeID>): seq<NodeInfo> {
    Slice(SortByDistance(Gathered(t, exclude), target), if count.Some? then count.value else k)
  }

  class RoutingTable {
    const nodeId: NodeID
    const k: nat
    const buckets: seq<KBucket>

    /** The table owns 160 different buckets of capacity k. */
    ghost predicate WellFormed() {
      && |buckets| == NUM_BUCKETS
      && (forall i :: 0 <= i < |buckets| ==> buckets[i].k == k)
      && (forall i, j :: 0 <= i < j < |buckets| ==> buckets[i] != buckets[j])
    }

    ghost function View(): (t: seq<Bucket>)
      reads buckets
    {
      seq(|buckets|, i requires 0 <= i < |buckets| reads buckets => buckets[i].View())
    }

    constructor (nodeId: NodeID, k: nat, now: real)
      ensures WellFormed() && this.nodeId == nodeId && this.k == k
      ensures fresh(buckets) && View() == seq(NUM_BUCKETS, i => EMPTY)
    {
      var bs: seq<KBucket> := [];
      for n := 0 to NUM_BUCKETS
        invariant |bs| == n && fresh(bs)
        invariant forall i :: 0 <= i < n ==> bs[i].k == k && bs[i].View() == EMPTY
        invariant forall i, j :: 0 <= i < j < n ==> bs[i] != bs[j]
      {
        var b := new KBucket(k, now);
        bs := bs + [b];
      }
      this.nodeId, this.k, buckets := nodeId, k, bs;
    }

    method AddContact(info: NodeInfo, now: real) returns (active: bool)
      requires WellFormed()
      modifies buckets
      ensures (View(), active) == TableAdd(old(View()), nodeId, k, info.(lastSeen := now))
    {
      if info.id == nodeId { return false; }
      var i := BucketIndex(nodeId, info.id);
      active := buckets[i].Add(info, now);
      assert View() == old(View())[i := buckets[i].View()];
    }

    method RemoveContact(id: NodeID) returns (removed: Option<NodeInfo>)
      requires WellFormed()
      modifies buckets
      ensures View() == TableRemove(old(View()), nodeId, k, id)
      ensures removed == if id == nodeId then None else Find(old(View())[BucketIndex(nodeId, id)].contacts, id)
    {
      if id == nodeId { return None; }
      var i := BucketIndex(nodeId, id);
      removed := buckets[i].Remove(id);
      assert View() == old(View())[i := buckets[i].View()];
    }

    static method Collect(all: seq<NodeInfo>, nodes: seq<NodeInfo>, exclude: Option<NodeID>) returns (r: seq<NodeInfo>)
      ensures r == all + Visible(nodes, exclude)
    {
      r := all;
      for j := 0 to |nodes|
        invariant r == all + Visible(nodes[..j], exclude)
      {
        VisibleNext(nodes, j, exclude);
        if exclude.Some? && nodes[j].id == exclude.value { continue; }
        r := r + [nodes[j]];
      }
      assert nodes[..|nodes|] == nodes;
    }

    method FindClosestNodes(target: NodeID, count: Option<int>, exclude: Option<NodeID>) returns (r: seq<NodeInfo>)
      requires WellFormed()
      ensures r == Closest(View(), k, target, count, exclude)
    {
      var limit := if count.Some? then count.value else k;
      var all: seq<NodeInfo> := [];
      ghost var t := View();
      for i := 0 to |buckets|
        invariant all == Gathered(t[..i], exclude)
      {
        assert t[..i + 1][..i] == t[..i];
        all := Collect(all, buckets[i].contacts, exclude);
      }
      assert t[..|buckets|] == t;
      r := Slice(SortByDistance(all, target), limit);
    }
  }

  lemma VisibleNext(nodes: seq<NodeInfo>, j: nat, exclude: Option<NodeID>)
    requires j < |nodes|
    ensures Visible(nodes[..j + 1], exclude) ==
            Visible(nodes[..j], exclude) + if exclude == Some(nodes[j].id) then [] else [nodes[j]]
  {
    assert nodes[..j + 1] == nodes[..j] + [nodes[j]];
    if exclude.Some? {
      ExceptConcat(nodes[..j], [nodes[j]], exclude.value);
      assert Except([nodes[j]][1..], exclude.value) == [];
    }
  }

  lemma {:induction false} ExceptConcat(s: seq<NodeInfo>, t: seq<NodeInfo>, id: NodeID)
    ensures Except(s + t, id) == Except(s, id) + Except(t, id)
    decreases |s|
  {
    if s == [] {
      assert s + t == t;
    } else {
      assert (s + t)[1..] == s[1..] + t;
      ExceptConcat(s[1..], t, id);
    }
  }

  // ----- The table's invariant -----

  ghost predicate TableValid(t: seq<Bucket>, self: NodeID, k: nat) {
    && |t| == NUM_BUCKETS
    && forall i :: 0 <= i < |t| ==> BucketValid(t[i], self, i, k)
  }

  ghost predicate BucketValid(b: Bucket, self: NodeID, i: nat, k: nat) {
    Valid(b, k) && forall id :: id in Known(b) ==> InRange(self, i, id)
  }

  type Op = B.Op

  function Exec(t: seq<Bucket>, self: NodeID, k: nat, op: Op): seq<Bucket>
    requires |t| == NUM_BUCKETS
  {
    match op
    case Add(c) => TableAdd(t, self, k, c).0
    case Remove(id) => TableRemove(t, self, k, id)
  }

  function ExecAll(self: NodeID, k: nat, ops: seq<Op>): (t: seq<Bucket>)
    ensures |t| == NUM_BUCKETS
  {
    if ops == [] then seq(NUM_BUCKETS, i => EMPTY)
    else Exec(ExecAll(self, k, ops[..|ops| - 1]), self, k, ops[|ops| - 1])
  }

  lemma AddKnown(b: Bucket, k: nat, c: NodeInfo)
    requires Valid(b, k)
    ensures Valid(Added(b, k, c).0, k) && Known(Added(b, k, c).0) <= Known(b) + {c.id}
  {
    AddKeeps(b, k, c);
    if c.id !in Ids(b.contacts) && |b.contacts| >= k { CacheKeeps(b, k, c); }
  }

  lemma ExecKeeps(t: seq<Bucket>, self: NodeID, k: nat, op: Op)
    requires TableValid(t, self, k)
    ensures TableValid(Exec(t, self, k, op), self, k)
  {
    match op {
      case Add(c) =>
        if c.id != self {
          var i := BucketIndex(self, c.id);
          BucketIndexExact(self, c.id, i);
          assert BucketValid(t[i], self, i, k);
          AddKnown(t[i], k, c);
        }
      case Remove(id) =>
        if id != self {
          var i := BucketIndex(self, id);
          assert BucketValid(t[i], self, i, k);
          RemoveKeeps(t[i], k, id);
        }
    }
  }

  /** After any adds and removes every known node is in its distance's bucket, once, and this node in none. */
  lemma {:induction false} TableInvariant(self: NodeID, k: nat, ops: seq<Op>)
    ensures TableValid(ExecAll(self, k, ops), self, k)
    ensures
      var t := ExecAll(self, k, ops);
      && (forall i, j :: 0 <= i < j < NUM_BUCKETS ==> Known(t[i]) !! Known(t[j]))
      && (forall i :: 0 <= i < NUM_BUCKETS ==> self !in Known(t[i]))
    decreases |ops|
  {
    var t := ExecAll(self, k, ops);
    if ops == [] {
      assert forall i :: 0 <= i < NUM_BUCKETS ==> t[i] == EMPTY && Known(t[i]) == {};
    } else {
      var before := ops[..|ops| - 1];
      TableInvariant(self, k, before);
      ExecKeeps(ExecAll(self, k, before), self, k, ops[|ops| - 1]);
    }
    KnownApart(t, self, k);
  }

  /** The operation concerns bucket i. */
  ghost predicate Concerns(self: NodeID, op: Op, i: nat) {
    var id := if op.Add? then op.info.id else op.id;
    id != self && InRange(self, i, id)
  }

  ghost function Concerning(self: NodeID, ops: seq<Op>, i: nat): seq<Op> {
    if ops == [] then []
    else
      var last := ops[|ops| - 1];
      Concerning(self, ops[..|ops| - 1], i) + if Concerns(self, last, i) then [last] else []
  }

  lemma ExecBucket(t: seq<Bucket>, self: NodeID, k: nat, op: Op, i: nat)
    requires |t| == NUM_BUCKETS && i < NUM_BUCKETS
    ensures Exec(t, self, k, op)[i] == if Concerns(self, op, i) then B.Do(t[i], k, op) else t[i]
  {
    var id := if op.Add? then op.info.id else op.id;
    if id != self { BucketIndexExact(self, id, i); }
  }

  /** A bucket of the table is what the operations on nodes at its distances, in order, make of an empty bucket. */
  lemma {:induction false} BucketsStandAlone(self: NodeID, k: nat, ops: seq<Op>, i: nat)
    requires i < NUM_BUCKETS
    ensures var own := Concerning(self, ops, i); ExecAll(self, k, ops)[i] == B.After(own, k, |own|)
    decreases |ops|
  {
    if ops != [] {
      var before, last := ops[..|ops| - 1], ops[|ops| - 1];
      BucketsStandAlone(self, k, before, i);
      ExecBucket(ExecAll(self, k, before), self, k, last, i);
      var own := Concerning(self, before, i);
      if Concerns(self, last, i) {
        AfterPrefix(own, [last], k, |own|);
      } else {
        assert own + [] == own;
      }
    }
  }

  lemma {:induction false} AfterPrefix(ops: seq<Op>, more: seq<Op>, k: nat, n: nat)
    requires n <= |ops|
    ensures B.After(ops + more, k, n) == B.After(ops, k, n)
    decreases n
  {
    if n > 0 {
      AfterPrefix(ops, more, k, n - 1);
      assert (ops + more)[n - 1] == ops[n - 1];
    }
  }

  /** Adding answers whether the node is a contact afterwards. */
  lemma AddAnswers(t: seq<Bucket>, self: NodeID, k: nat, c: NodeInfo)
    requires TableValid(t, self, k)
    ensures
      var (t', active) := TableAdd(t, self, k, c);
      active <==> exists i :: 0 <= i < NUM_BUCKETS && c.id in Ids(t'[i].contacts)
  {
    var (t', active) := TableAdd(t, self, k, c);
    ExecKeeps(t, self, k, B.Add(c));
    KnownApart(t', self, k);
    if c.id == self {
      forall i | 0 <= i < NUM_BUCKETS ensures c.id !in Ids(t'[i].contacts) {
        assert self !in Known(t'[i]);
      }
    } else {
      var j := BucketIndex(self, c.id);
      assert BucketValid(t[j], self, j, k);
      AddKeeps(t[j], k, c);
      assert active <==> c.id in Ids(t'[j].contacts);
      forall i | 0 <= i < NUM_BUCKETS && c.id in Ids(t'[i].contacts) ensures i == j {
        assert BucketValid(t'[i], self, i, k) && c.id in Known(t'[i]);
        BucketIndexExact(self, c.id, i);
      }
    }
  }

  lemma KnownApart(t: seq<Bucket>, self: NodeID, k: nat)
    requires TableValid(t, self, k)
    ensures forall i, j :: 0 <= i < j < NUM_BUCKETS ==> Known(t[i]) !! Known(t[j])
    ensures forall i :: 0 <= i < NUM_BUCKETS ==> self !in Known(t[i])
  {
    forall i, j, id | 0 <= i < j < NUM_BUCKETS && id in Known(t[i]) ensures id !in Known(t[j]) {
      assert BucketValid(t[i], self, i, k) && BucketValid(t[j], self, j, k);
      if id in Known(t[j]) { RangesApart(Distance(self, id), i, j); }
    }
    forall i | 0 <= i < NUM_BUCKETS ensures self !in Known(t[i]) {
      assert BucketValid(t[i], self, i, k);
      DistanceZero(self, self);
    }
  }

  // ----- The search returns the nearest contacts -----

  ghost predicate Ascending(s: seq<NodeInfo>, target: NodeID) {
    forall i, j :: 0 <= i < j < |s| ==> Distance(s[i].id, target) < Distance(s[j].id, target)
  }

  lemma {:induction false} InsertAdds(c: NodeInfo, s: seq<NodeInfo>, target: NodeID)
    ensures multiset(Insert(c, s, target)) == multiset(s) + multiset{c}
    decreases |s|
  {
    if s != [] {
      assert s == [s[0]] + s[1..];
      if Distance(c.id, target) > Distance(s[0].id, target) { InsertAdds(c, s[1..], target); }
    }
  }

  lemma AscendingFrom(c: NodeInfo, s: seq<NodeInfo>, target: NodeID)
    requires Ascending(s, target) && forall x :: x in s ==> Distance(c.id, target) < Distance(x.id, target)
    ensures Ascending([c] + s, target)
  {
  }

  lemma {:induction false} InsertKeeps(c: NodeInfo, s: seq<NodeInfo>, target: NodeID)
    requires Ascending(s, target) && forall x :: x in s ==> x.id != c.id
    ensures Ascending(Insert(c, s, target), target)
    decreases |s|
  {
    if s != [] {
      DistanceInjective(c.id, s[0].id, target);
      if Distance(c.id, target) > Distance(s[0].id, target) {
        var rest := Insert(c, s[1..], target);
        InsertKeeps(c, s[1..], target);
        InsertAdds(c, s[1..], target);
        forall x | x in rest ensures Distance(s[0].id, target) < Distance(x.id, target) {
          assert x in multiset(rest);
        }
        AscendingFrom(s[0], rest, target);
      } else {
        AscendingFrom(c, s, target);
      }
    }
  }

  lemma {:induction false} SortIsAscending(s: seq<NodeInfo>, target: NodeID)
    requires Distinct(s)
    ensures Ascending(SortByDistance(s, target), target)
    ensures multiset(SortByDistance(s, target)) == multiset(s)
    decreases |s|
  {
    if s != [] {
      var rest := SortByDistance(s[1..], target);
      SortIsAscending(s[1..], target);
      assert s == [s[0]] + s[1..];
      forall x | x in rest ensures x.id != s[0].id {
        assert x in multiset(rest) && x in multiset(s[1..]);
        var i :| 0 <= i < |s[1..]| && s[1..][i] == x;
        assert s[i + 1] == x;
      }
      InsertKeeps(s[0], rest, target);
      InsertAdds(s[0], rest, target);
    }
  }

  /** The node is a contact of the table and not the excluded one. */
  ghost predicate Candidate(t: seq<Bucket>, exclude: Option<NodeID>, c: NodeInfo) {
    (exists i :: 0 <= i < |t| && c in t[i].contacts) && exclude != Some(c.id)
  }

  lemma {:induction false} ExceptHas(s: seq<NodeInfo>, id: NodeID, c: NodeInfo)
    ensures c in Except(s, id) <==> c in s && c.id != id
    decreases |s|
  {
    if s != [] {
      assert s == [s[0]] + s[1..];
      ExceptHas(s[1..], id, c);
    }
  }

  lemma CandidateSplit(t: seq<Bucket>, exclude: Option<NodeID>, c: NodeInfo)
    requires t != []
    ensures Candidate(t, exclude, c) <==>
            Candidate(t[..|t| - 1], exclude, c) || (c in t[|t| - 1].contacts && exclude != Some(c.id))
  {
    var n := |t| - 1;
    if i :| 0 <= i < n && c in t[i].contacts { assert c in t[..n][i].contacts; }
    if i :| 0 <= i < n && c in t[..n][i].contacts { assert c in t[i].contacts; }
  }

  lemma {:induction false} GatheredHas(t: seq<Bucket>, exclude: Option<NodeID>, c: NodeInfo)
    ensures c in Gathered(t, exclude) <==> Candidate(t, exclude, c)
    decreases |t|
  {
    if t != [] {
      CandidateSplit(t, exclude, c);
      GatheredHas(t[..|t| - 1], exclude, c);
      if exclude.Some? { ExceptHas(t[|t| - 1].contacts, exclude.value, c); }
    }
  }

  lemma VisibleDistinct(s: seq<NodeInfo>, exclude: Option<NodeID>)
    requires Distinct(s)
    ensures Distinct(Visible(s, exclude)) && Ids(Visible(s, exclude)) <= Ids(s)
  {
    if exclude.Some? { PopRemoves(s, exclude.value); }
  }

  lemma {:induction false} GatheredDistinct(t: seq<Bucket>, exclude: Option<NodeID>)
    requires forall i :: 0 <= i < |t| ==> Distinct(t[i].contacts)
    requires forall i, j :: 0 <= i < j < |t| ==> Known(t[i]) !! Known(t[j])
    ensures Distinct(Gathered(t, exclude))
    ensures forall id :: id in Ids(Gathered(t, exclude)) ==> exists i :: 0 <= i < |t| && id in Known(t[i])
    decreases |t|
  {
    if t != [] {
      var n := |t| - 1;
      var front, last := Gathered(t[..n], exclude), Visible(t[n].contacts, exclude);
      GatheredDistinct(t[..n], exclude);
      VisibleDistinct(t[n].contacts, exclude);
      IdsSplit(front, last);
      forall id | id in Ids(front) ensures id !in Known(t[n]) && exists i :: 0 <= i < |t| && id in Known(t[i]) {
        var i :| 0 <= i < |t[..n]| && id in Known(t[..n][i]);
        assert id in Known(t[i]);
      }
      DistinctConcat(front, last);
    }
  }

  lemma DistinctConcat(s: seq<NodeInfo>, t: seq<NodeInfo>)
    requires Distinct(s) && Distinct(t) && Ids(s) !! Ids(t)
    ensures Distinct(s + t)
  {
    forall i, j | 0 <= i < j < |s + t| ensures (s + t)[i].id != (s + t)[j].id {
      if i < |s| <= j { assert s[i].id in Ids(s) && t[j - |s|].id in Ids(t); }
    }
  }

  /** The gathered contacts are exactly the candidates, each once. */
  lemma GatheredIsCandidates(t: seq<Bucket>, self: NodeID, k: nat, exclude: Option<NodeID>, c: NodeInfo)
    requires TableValid(t, self, k)
    ensures Distinct(Gathered(t, exclude)) && (c in Gathered(t, exclude) <==> Candidate(t, exclude, c))
  {
    KnownApart(t, self, k);
    assert forall i :: 0 <= i < |t| ==> BucketValid(t[i], self, i, k);
    GatheredDistinct(t, exclude);
    GatheredHas(t, exclude, c);
  }

  lemma SliceIsNearest(s: seq<NodeInfo>, limit: int, target: NodeID, c: NodeInfo)
    requires Ascending(s, target)
    ensures
      var r := Slice(s, limit);
      && Ascending(r, target) && (c in r ==> c in s)
      && (c in s && c !in r ==> forall x :: x in r ==> Distance(x.id, target) < Distance(c.id, target))
  {
    var r := Slice(s, limit);
    assert r == s[..|r|];
    if c in s && c !in r {
      var j :| 0 <= j < |s| && s[j] == c;
      assert c == s[|r|..][j - |r|];
    }
  }

  lemma SortedGathered(t: seq<Bucket>, self: NodeID, k: nat, target: NodeID, exclude: Option<NodeID>, c: NodeInfo)
    requires TableValid(t, self, k)
    ensures
      var s := SortByDistance(Gathered(t, exclude), target);
      Ascending(s, target) && |s| == |Gathered(t, exclude)| && (c in s <==> Candidate(t, exclude, c))
  {
    var g := Gathered(t, exclude);
    var s := SortByDistance(g, target);
    GatheredIsCandidates(t, self, k, exclude, c);
    SortIsAscending(g, target);
    assert |s| == |multiset(s)| == |multiset(g)| == |g|;
    assert c in s <==> c in multiset(s);
    assert c in g <==> c in multiset(g);
  }

  /** A search returns the candidates nearest to the target, nearest first, as many as asked for or as there are. */
  lemma ClosestAreNearest(
      t: seq<Bucket>, self: NodeID, k: nat, target: NodeID, count: Option<int>, exclude: Option<NodeID>, c: NodeInfo)
    requires TableValid(t, self, k)
    ensures
      var r := Closest(t, k, target, count, exclude);
      var all, limit := |Gathered(t, exclude)|, if count.Some? then count.value else k;
      && Ascending(r, target)
      && (limit >= 0 ==> |r| == if limit < all then limit else all)
      && (limit < 0 ==> |r| == if all + limit > 0 then all + limit else 0)
      && (c in r ==> Candidate(t, exclude, c))
      && (Candidate(t, exclude, c) && c !in r ==> forall x :: x in r ==> Distance(x.id, target) < Distance(c.id, target))
  {
    SortedGathered(t, self, k, target, exclude, c);
    SliceIsNearest(SortByDistance(Gathered(t, exclude), target), if count.Some? then count.value else k, target, c);
  }
}
