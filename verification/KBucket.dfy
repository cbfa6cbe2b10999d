/** A k-bucket: contacts from least to most recently seen, and a cache of candidates to replace them. */
module KBuckets {
  import opened Wrappers
  import opened Xor

  datatype NodeInfo = NodeInfo(id: NodeID, address: string, lastSeen: real)

  datatype Bucket = Bucket(contacts: seq<NodeInfo>, cache: seq<NodeInfo>)

  const EMPTY := Bucket([], [])

  function Ids(s: seq<NodeInfo>): set<NodeID> {
    set i | 0 <= i < |s| :: s[i].id
  }

  /** The list without the first contact of that id. */
  function Pop(s: seq<NodeInfo>, id: NodeID): seq<NodeInfo> {
    if s == [] then [] else if s[0].id == id then s[1..] else [s[0]] + Pop(s[1..], id)
  }

  /** The contacts of other ids, as a list comprehension selects them. */
  function Except(s: seq<NodeInfo>, id: NodeID): seq<NodeInfo> {
    if s == [] then [] else (if s[0].id == id then [] else [s[0]]) + Except(s[1..], id)
  }

  /** The flag is the result of `add`: whether the node is now a contact. */
  function Added(b: Bucket, k: nat, c: NodeInfo): (Bucket, bool) {
    if c.id in Ids(b.contacts) then (b.(contacts := Pop(b.contacts, c.id) + [c]), true)
    else if |b.contacts| < k then (b.(contacts := b.contacts + [c]), true)
    else
      var q := Pop(b.cache, c.id) + [c];
      (b.(cache := if |q| > k then q[1..] else q), false)
  }

  function Removed(b: Bucket, k: nat, id: NodeID): Bucket {
    var cs, q := Pop(b.contacts, id), Except(b.cache, id);
    if id in Ids(b.contacts) && q != [] && |cs| < k then Bucket(cs + [q[0]], q[1..]) else Bucket(cs, q)
  }

  function Find(s: seq<NodeInfo>, id: NodeID): Option<NodeInfo> {
    if s == [] then None else if s[0].id == id then Some(s[0]) else Find(s[1..], id)
  }

  class KBucket {
    const k: nat
    var contacts: seq<NodeInfo>
    var replacementCache: seq<NodeInfo>
    var lastUpdated: real

    function View(): Bucket
      reads this
    {
      Bucket(contacts, replacementCache)
    }

    constructor (k: nat, now: real)
      ensures this.k == k && View() == EMPTY && lastUpdated == now
    {
      this.k, contacts, replacementCache, lastUpdated := k, [], [], now;
    }

    /** The index of the first contact of that id, or the length. */
    static method IndexOf(s: seq<NodeInfo>, id: NodeID) returns (i: nat)
      ensures i <= |s| && (i < |s| <==> id in Ids(s))
      ensures Pop(s, id) == if i < |s| then s[..i] + s[i + 1..] else s
      ensures Find(s, id) == if i < |s| then Some(s[i]) else None
    {
      i := 0;
      while i < |s| && s[i].id != id
        invariant i <= |s| && forall j :: 0 <= j < i ==> s[j].id != id
      {
        i := i + 1;
      }
      PopAt(s, id, i);
      assert i < |s| ==> s[i].id in Ids(s);
    }

    method Add(info: NodeInfo, now: real) returns (active: bool)
      modifies this
      ensures (View(), active) == Added(old(View()), k, info.(lastSeen := now))
      ensures lastUpdated == now
    {
      lastUpdated := now;
      var c := info.(lastSeen := now);
      var i := IndexOf(contacts, c.id);
      if i < |contacts| {
        contacts := contacts[..i] + contacts[i + 1..];
        contacts := contacts + [c];
        return true;
      }
      if |contacts| < k {
        contacts := contacts + [c];
        return true;
      }
      var j := IndexOf(replacementCache, c.id);
      if j < |replacementCache| {
        replacementCache := replacementCache[..j] + replacementCache[j + 1..];
      }
      replacementCache := replacementCache + [c];
      if |replacementCache| > k { replacementCache := replacementCache[1..]; }
      return false;
    }

    method Remove(id: NodeID) returns (removed: Option<NodeInfo>)
      modifies this
      ensures View() == Removed(old(View()), k, id)
      ensures removed == Find(old(contacts), id) && (removed.Some? <==> id in Ids(old(contacts)))
    {
      removed := None;
      var i := IndexOf(contacts, id);
      if i < |contacts| {
        removed := Some(contacts[i]);
        contacts := contacts[..i] + contacts[i + 1..];
      }
      replacementCache := Except(replacementCache, id);
      if removed.Some? && |replacementCache| > 0 && |contacts| < k {
        var promoted := replacementCache[0];
        replacementCache := replacementCache[1..];
        contacts := contacts + [promoted];
      }
    }
  }

  lemma {:induction false} PopAt(s: seq<NodeInfo>, id: NodeID, i: nat)
    requires i <= |s| && (forall j :: 0 <= j < i ==> s[j].id != id) && (i < |s| ==> s[i].id == id)
    ensures Pop(s, id) == if i < |s| then s[..i] + s[i + 1..] else s
    ensures Find(s, id) == if i < |s| then Some(s[i]) else None
    decreases |s|
  {
    if i > 0 {
      PopAt(s[1..], id, i - 1);
      PopShift(s, i);
    }
  }

  lemma PopShift(s: seq<NodeInfo>, i: nat)
    requires 0 < i <= |s|
    ensures s == [s[0]] + s[1..]
    ensures i < |s| ==> s[..i] + s[i + 1..] == [s[0]] + (s[1..][..i - 1] + s[1..][i..])
  {
  }

  // ----- What every operation keeps -----

  ghost predicate Distinct(s: seq<NodeInfo>) {
    forall i, j :: 0 <= i < j < |s| ==> s[i].id != s[j].id
  }

  /** Ids are unique across contacts and cache, sizes are within k, and only a full bucket has candidates. */
  ghost predicate Valid(b: Bucket, k: nat) {
    && Distinct(b.contacts) && Distinct(b.cache) && Ids(b.contacts) !! Ids(b.cache)
    && |b.contacts| <= k && |b.cache| <= k
    && (b.cache != [] ==> |b.contacts| == k)
  }

  function Known(b: Bucket): set<NodeID> { Ids(b.contacts) + Ids(b.cache) }

  lemma IdsSplit(s: seq<NodeInfo>, t: seq<NodeInfo>)
    ensures Ids(s + t) == Ids(s) + Ids(t)
  {
    forall x | x in Ids(s) + Ids(t) ensures x in Ids(s + t) {
      if x in Ids(s) {
        var i :| 0 <= i < |s| && s[i].id == x;
        assert (s + t)[i].id == x;
      } else {
        var i :| 0 <= i < |t| && t[i].id == x;
        assert (s + t)[|s| + i].id == x;
      }
    }
  }

  lemma IdsOne(c: NodeInfo)
    ensures Ids([c]) == {c.id}
  {
    assert [c][0].id in Ids([c]);
  }

  lemma IdsHead(s: seq<NodeInfo>)
    requires s != []
    ensures Ids(s) == {s[0].id} + Ids(s[1..])
    ensures Distinct(s) <==> Distinct(s[1..]) && s[0].id !in Ids(s[1..])
  {
    IdsSplit([s[0]], s[1..]);
    IdsOne(s[0]);
    assert s == [s[0]] + s[1..];
    forall i | 0 < i < |s| ensures s[i].id in Ids(s[1..]) {
      assert s[1..][i - 1] == s[i];
    }
    if Distinct(s[1..]) && s[0].id !in Ids(s[1..]) {
      forall i, j | 0 <= i < j < |s| ensures s[i].id != s[j].id {
        if i > 0 { assert s[1..][i - 1].id != s[1..][j - 1].id; }
      }
    }
  }

  lemma {:induction false} PopRemoves(s: seq<NodeInfo>, id: NodeID)
    requires Distinct(s)
    ensures Distinct(Pop(s, id)) && Ids(Pop(s, id)) == Ids(s) - {id}
    ensures |Pop(s, id)| == |s| - (if id in Ids(s) then 1 else 0)
    ensures Except(s, id) == Pop(s, id)
    decreases |s|
  {
    if s != [] {
      IdsHead(s);
      PopRemoves(s[1..], id);
      if s[0].id != id {
        var p := [s[0]] + Pop(s[1..], id);
        assert p[1..] == Pop(s[1..], id);
        IdsHead(p);
      } else {
        ExceptAbsent(s[1..], id);
      }
    }
  }

  lemma {:induction false} ExceptAbsent(s: seq<NodeInfo>, id: NodeID)
    requires id !in Ids(s)
    ensures Except(s, id) == s
    decreases |s|
  {
    if s != [] {
      IdsHead(s);
      ExceptAbsent(s[1..], id);
    }
  }

  lemma AppendNew(s: seq<NodeInfo>, c: NodeInfo)
    requires Distinct(s) && c.id !in Ids(s)
    ensures Distinct(s + [c]) && Ids(s + [c]) == Ids(s) + {c.id}
  {
    IdsSplit(s, [c]);
    IdsOne(c);
    assert forall i :: 0 <= i < |s| ==> s[i].id in Ids(s);
  }

  /** Adding keeps the invariant and every contact; the node becomes a contact exactly when the result is true. */
  lemma AddKeeps(b: Bucket, k: nat, c: NodeInfo)
    requires Valid(b, k)
    ensures
      var (d, active) := Added(b, k, c);
      && Valid(d, k)
      && Ids(b.contacts) <= Ids(d.contacts) <= Ids(b.contacts) + {c.id}
      && (c.id in Ids(d.contacts) <==> active)
      && (active <==> c.id in Ids(b.contacts) || |b.contacts| < k)
  {
    if c.id in Ids(b.contacts) {
      PopRemoves(b.contacts, c.id);
      AppendNew(Pop(b.contacts, c.id), c);
    } else if |b.contacts| < k {
      AppendNew(b.contacts, c);
    } else {
      CacheKeeps(b, k, c);
    }
  }

  /** A candidate goes to the end of the cache, and only the oldest candidate can be lost. */
  lemma CacheKeeps(b: Bucket, k: nat, c: NodeInfo)
    requires Valid(b, k) && c.id !in Ids(b.contacts) && |b.contacts| >= k
    ensures
      var d := Added(b, k, c).0;
      && Valid(d, k) && Known(d) <= Known(b) + {c.id}
      && (k > 0 ==> c.id in Known(d))
      && forall x :: x in Known(b) && x !in Known(d) ==> |b.cache| == k && b.cache[0].id == x
  {
    var p := Pop(b.cache, c.id);
    PopRemoves(b.cache, c.id);
    AppendNew(p, c);
    var q := p + [c];
    IdsHead(q);
    if |q| > k {
      ExceptAbsent(b.cache, c.id);
      assert k > 0 ==> q[1..][|q| - 2] == c && q[0] == b.cache[0];
    }
  }

  /** Removing forgets that id, keeps every other, and refills a full bucket from its cache. */
  lemma RemoveKeeps(b: Bucket, k: nat, id: NodeID)
    requires Valid(b, k)
    ensures
      var d := Removed(b, k, id);
      && Valid(d, k) && Known(d) == Known(b) - {id}
      && Ids(b.contacts) - {id} <= Ids(d.contacts)
  {
    var cs, q := Pop(b.contacts, id), Pop(b.cache, id);
    PopRemoves(b.contacts, id);
    PopRemoves(b.cache, id);
    if id in Ids(b.contacts) && q != [] && |cs| < k {
      IdsHead(q);
      AppendNew(cs, q[0]);
    }
  }
}
