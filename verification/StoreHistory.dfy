/** What a history of commands makes of the key-value store and of the membership, and what it answers. */
module StoreHistory {
  import opened Wrappers
  import opened Models
  import opened StateMachine
  import opened Fencing

  // ----- Key-values -----

  /** The command stored under, or removed, key k. */
  predicate Wrote(e: LogEntry, o: Outcome, k: string) {
    && e.key == Some(k)
    && (e.command.Set? || e.command.Delete? || (e.command.Cas? && o == Ok(Flag(true))) || (e.command.Increment? && o.Ok?))
  }

  predicate Writes(h: seq<LogEntry>, i: int, k: string)
    requires Flat(h) && 0 <= i < |h|
  {
    Wrote(h[i], ReplyAt(h, i), k)
  }

  function LastWrite(h: seq<LogEntry>, n: int, k: string): (w: int)
    requires Flat(h) && 0 <= n <= |h|
    ensures -1 <= w < n
    ensures w >= 0 ==> Writes(h, w, k)
    ensures forall i :: w < i < n ==> !Writes(h, i, k)
    decreases n
  {
    if n == 0 then -1
    else if Writes(h, n - 1, k) then n - 1
    else LastWrite(h, n - 1, k)
  }

  /** What a write leaves under its key, read off the command and its answer; nothing after a deletion. */
  function Left(e: LogEntry, o: Outcome): Option<Value> {
    match e.command
    case Set(v) => Some(v)
    case Cas(_, v) => Some(v)
    case Increment(_) => if o.Ok? && o.reply.Counted? then Some(Int(o.reply.n)) else None
    case _ => None
  }

  /** The value under k before position n, by the last write to it. */
  function Value(h: seq<LogEntry>, n: int, k: string): Option<Models.Value>
    requires Flat(h) && 0 <= n <= |h|
  {
    var w := LastWrite(h, n, k);
    if w < 0 then None else Left(h[w], ReplyAt(h, w))
  }

  lemma KvMoves(m: Machine, e: LogEntry, k: string)
    requires !e.command.Batch?
    ensures
      var (m', o) := Step(m, e);
      if Wrote(e, o, k) then (k in m'.kv <==> Left(e, o).Some?) && (k in m'.kv ==> m'.kv[k] == Left(e, o).value)
      else (k in m'.kv <==> k in m.kv) && (k in m.kv ==> m'.kv[k] == m.kv[k])
  {
  }

  /** The store holds under every key what the last write to it left. */
  lemma {:induction false} StoreReflectsHistory(h: seq<LogEntry>, n: int, k: string)
    requires Flat(h) && 0 <= n <= |h|
    ensures
      var v := Value(h, n, k);
      (k in At(h, n).kv <==> v.Some?) && (k in At(h, n).kv ==> At(h, n).kv[k] == v.value)
    decreases n
  {
    if n > 0 {
      StoreReflectsHistory(h, n - 1, k);
      KvMoves(At(h, n - 1), h[n - 1], k);
    }
  }

  /**
   What the store answers, stated on the history alone.  A read sees the last write, or nothing; a deletion
   answers what it removed; an increment adds to the number it finds, and raises where it finds no number; a
   compare-and-set succeeds exactly when the last write left what it expects.
   */
  lemma StoreAnswers(h: seq<LogEntry>, j: int, k: string)
    requires Flat(h) && 0 <= j < |h| && h[j].key == Some(k)
    ensures
      var v, o := Value(h, j, k), ReplyAt(h, j);
      match h[j].command
      case Get => o == Ok(Got(if k == "" then Null else v.GetOr(Null)))
      case Set(x) => o == Ok(Got(x))
      case Delete => o == Ok(Got(v.GetOr(Null)))
      case Increment(d) =>
        (match v.GetOr(Int(0))
         case Int(x) => o == Ok(Counted(x + d))
         case Numeric(_, x) => o == Ok(Counted(x + d))
         case _ => o == Raised)
      case Cas(expected, _) => o == Ok(Flag(v.GetOr(Null) == expected))
      case _ => true
  {
    StoreReflectsHistory(h, j, k);
  }

  /** Without a key nothing is stored and the answers are the empty ones. */
  lemma KeylessAnswers(h: seq<LogEntry>, j: int)
    requires Flat(h) && 0 <= j < |h| && h[j].key == None
    ensures At(h, j + 1).kv == At(h, j).kv
    ensures
      match h[j].command
      case Get => ReplyAt(h, j) == Ok(Got(Null))
      case Set(x) => ReplyAt(h, j) == Ok(Got(x))
      case Delete => ReplyAt(h, j) == Ok(Got(Null))
      case Increment(_) => ReplyAt(h, j) == Ok(Counted(0))
      case Cas(_, _) => ReplyAt(h, j) == Ok(Flag(false))
      case _ => true
  {
  }

  /**
   Of two compare-and-sets of a key that expect the same value and store another, both succeed only if
   some write between them put the expected value back.
   */
  lemma SwapsExclude(h: seq<LogEntry>, i: int, j: int, k: string) returns (w: int)
    requires Flat(h) && 0 <= i < j < |h| && h[i].key == h[j].key == Some(k)
    requires h[i].command.Cas? && h[j].command.Cas? && h[i].command.expected == h[j].command.expected
    requires h[i].command.value != h[i].command.expected
    requires ReplyAt(h, i) == Ok(Flag(true)) && ReplyAt(h, j) == Ok(Flag(true))
    ensures i < w < j && Writes(h, w, k) && Left(h[w], ReplyAt(h, w)).GetOr(Null) == h[j].command.expected
  {
    StoreAnswers(h, j, k);
    w := LastWrite(h, j, k);
    assert Writes(h, i, k);
  }

  /** What the increments of a key at positions in [lo, hi) add. */
  function Sum(h: seq<LogEntry>, lo: int, hi: int, k: string): int
    requires Flat(h) && 0 <= lo <= hi <= |h|
    decreases hi - lo
  {
    if lo == hi then 0
    else Sum(h, lo, hi - 1, k) + if h[hi - 1].command.Increment? && h[hi - 1].key == Some(k) then h[hi - 1].command.delta else 0
  }

  /** One more position, at which nothing but an increment may write the key. */
  lemma IncrementAdds(h: seq<LogEntry>, n: int, k: string, x: int)
    requires Flat(h) && 0 <= n < |h| && Value(h, n, k).GetOr(Int(0)) == Int(x)
    requires Writes(h, n, k) ==> h[n].command.Increment?
    ensures Value(h, n + 1, k).GetOr(Int(0)) ==
            Int(x + if h[n].command.Increment? && h[n].key == Some(k) then h[n].command.delta else 0)
  {
    if h[n].key == Some(k) { StoreAnswers(h, n, k); }
    assert LastWrite(h, n + 1, k) == if Writes(h, n, k) then n else LastWrite(h, n, k);
  }

  /** At positions in [lo, hi) nothing but increments writes the key. */
  ghost predicate OnlyIncrements(h: seq<LogEntry>, lo: int, hi: int, k: string)
    requires Flat(h) && 0 <= lo <= hi <= |h|
    decreases hi - lo
  {
    lo == hi || (OnlyIncrements(h, lo, hi - 1, k) && (Writes(h, hi - 1, k) ==> h[hi - 1].command.Increment?))
  }

  /** No increment is lost: while nothing else writes the key, its number grows by exactly what they add. */
  lemma {:induction false} IncrementsAddUp(h: seq<LogEntry>, lo: int, hi: int, k: string, x: int)
    requires Flat(h) && 0 <= lo <= hi <= |h| && Value(h, lo, k).GetOr(Int(0)) == Int(x) && OnlyIncrements(h, lo, hi, k)
    ensures Value(h, hi, k).GetOr(Int(0)) == Int(x + Sum(h, lo, hi, k))
    decreases hi - lo
  {
    if lo < hi {
      var n := hi - 1;
      IncrementsAddUp(h, lo, n, k, x);
      IncrementAdds(h, n, k, x + Sum(h, lo, n, k));
    }
  }

  // ----- Membership -----

  /** The command adds or removes the peer. */
  predicate Concerns(e: LogEntry, peer: string) {
    e.command.MembershipChange? && e.key == Some(peer) && peer != "" && (e.command.action == "ADD" || e.command.action == "REMOVE")
  }

  function LastChange(h: seq<LogEntry>, n: int, peer: string): (k: int)
    requires 0 <= n <= |h|
    ensures -1 <= k < n && (k >= 0 ==> Concerns(h[k], peer))
    ensures forall i :: k < i < n ==> !Concerns(h[i], peer)
    decreases n
  {
    if n == 0 then -1 else if Concerns(h[n - 1], peer) then n - 1 else LastChange(h, n - 1, peer)
  }

  lemma MemberMoves(m: Machine, e: LogEntry, peer: string)
    requires !e.command.Batch?
    ensures peer in Step(m, e).0.members <==> if Concerns(e, peer) then e.command.action == "ADD" else peer in m.members
  {
    assert |"ADD"| == 3 && |"REMOVE"| == 6;
  }

  /** The members are the peers whose last change added them. */
  lemma {:induction false} MembersReflectHistory(h: seq<LogEntry>, n: int, peer: string)
    requires Flat(h) && 0 <= n <= |h|
    ensures
      var k := LastChange(h, n, peer);
      peer in At(h, n).members <==> k >= 0 && h[k].command.action == "ADD"
    decreases n
  {
    if n > 0 {
      MembersReflectHistory(h, n - 1, peer);
      MemberMoves(At(h, n - 1), h[n - 1], peer);
    }
  }

  /** A membership change answers the members it leaves. */
  lemma MembershipAnswers(h: seq<LogEntry>, j: int, peer: string)
    requires Flat(h) && 0 <= j < |h| && h[j].command.MembershipChange?
    ensures ReplyAt(h, j).Ok? && ReplyAt(h, j).reply.MemberList?
    ensures
      var k := LastChange(h, j + 1, peer);
      peer in ReplyAt(h, j).reply.members <==> k >= 0 && h[k].command.action == "ADD"
  {
    MembersReflectHistory(h, j + 1, peer);
  }

  /** The other commands leave store and membership alone; a no-op answers its acknowledgement, an unknown one nothing. */
  lemma QuietCommands(h: seq<LogEntry>, j: int)
    requires Flat(h) && 0 <= j < |h| && (h[j].command.Noop? || h[j].command.Unhandled?)
    ensures At(h, j + 1) == At(h, j) && ReplyAt(h, j) == Ok(if h[j].command.Noop? then Ack else Nothing)
  {
  }
}
