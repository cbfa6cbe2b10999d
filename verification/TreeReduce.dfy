/** Tree reduction: level by level, groups of `b` neighbours are folded and a leftover single item moves to the front. */
module TreeReduce {
  import opened Wrappers

  ghost predicate Associative<T(!new)>(f: (T, T) -> T) {
    forall x, y, z {:trigger f(f(x, y), z)} :: f(f(x, y), z) == f(x, f(y, z))
  }

  ghost predicate Commutative<T(!new)>(f: (T, T) -> T) {
    forall x, y :: f(x, y) == f(y, x)
  }

  /** The sequential left fold. */
  function Fold<T>(f: (T, T) -> T, s: seq<T>): T
    requires s != []
  {
    if |s| == 1 then s[0] else f(Fold(f, s[..|s| - 1]), s[|s| - 1])
  }

  /** The groups of two or more items, each folded. */
  function GroupFolds<T>(f: (T, T) -> T, level: seq<T>, b: nat): seq<T>
    requires b >= 2
    decreases |level|
  {
    if |level| <= 1 then []
    else if |level| <= b then [Fold(f, level)]
    else [Fold(f, level[..b])] + GroupFolds(f, level[b..], b)
  }

  /** The last group when it holds a single item. */
  function Leftover<T>(level: seq<T>, b: nat): seq<T>
    requires b >= 2
    decreases |level|
  {
    if |level| <= 1 then level
    else if |level| <= b then []
    else Leftover(level[b..], b)
  }

  function NextLevel<T>(f: (T, T) -> T, level: seq<T>, b: nat): seq<T>
    requires b >= 2
  {
    Leftover(level, b) + GroupFolds(f, level, b)
  }

  /** How many groups of b hold n items: n / b rounded up. */
  function Groups(n: nat, b: nat): nat
    requires b > 0
  {
    if n == 0 then 0 else if n <= b then 1 else 1 + Groups(n - b, b)
  }

  lemma {:induction false} GroupsBound(n: nat, b: nat, m: nat)
    requires b > 0
    ensures Groups(n, b) <= m <==> n <= b * m
    decreases n
  {
    if n > b && m > 0 {
      GroupsBound(n - b, b, m - 1);
      assert b * m == b * (m - 1) + b;
    } else if m > 0 {
      assert b * m >= b;
    }
  }

  lemma {:induction false} GroupsShrink(n: nat, b: nat)
    requires n > 1 && b >= 2
    ensures 0 < Groups(n, b) < n
    decreases n
  {
    if n > b + 1 { GroupsShrink(n - b, b); }
  }

  /** A round of n items leaves one item a group. */
  lemma {:induction false} NextLength<T>(f: (T, T) -> T, level: seq<T>, b: nat)
    requires b >= 2
    ensures |NextLevel(f, level, b)| == Groups(|level|, b)
    ensures |level| > 1 ==> 0 < |NextLevel(f, level, b)| < |level|
    decreases |level|
  {
    if |level| > b { NextLength(f, level[b..], b); }
    if |level| > 1 { GroupsShrink(|level|, b); }
  }

  /** What the levels come to. */
  function Reduced<T>(f: (T, T) -> T, level: seq<T>, b: nat): T
    requires level != [] && b >= 2
    decreases |level|
  {
    if |level| == 1 then level[0]
    else
      NextLength(f, level, b);
      Reduced(f, NextLevel(f, level, b), b)
  }

  function Rounds(n: nat, b: nat): nat
    requires b >= 2
  {
    if n <= 1 then 0
    else
      GroupsShrink(n, b);
      1 + Rounds(Groups(n, b), b)
  }

  // ----- The loops -----

  method ReduceGroup<T>(f: (T, T) -> T, elements: seq<T>) returns (acc: T)
    requires elements != []
    ensures acc == Fold(f, elements)
  {
    acc := elements[0];
    for i := 1 to |elements|
      invariant acc == Fold(f, elements[..i])
    {
      assert elements[..i + 1][..i] == elements[..i];
      acc := f(acc, elements[i]);
    }
    assert elements[..|elements|] == elements;
  }

  predicate NoneEmpty<T>(s: seq<seq<T>>) {
    forall i :: 0 <= i < |s| ==> |s[i]| > 0
  }

  /** The groups of two or more items. */
  function Chunks<T>(level: seq<T>, b: nat): (r: seq<seq<T>>)
    requires b >= 2
    ensures NoneEmpty(r)
    decreases |level|
  {
    if |level| <= 1 then []
    else if |level| <= b then [level]
    else [level[..b]] + Chunks(level[b..], b)
  }

  function FoldAll<T>(f: (T, T) -> T, chunks: seq<seq<T>>): seq<T>
    requires NoneEmpty(chunks)
  {
    seq(|chunks|, i requires 0 <= i < |chunks| => Fold(f, chunks[i]))
  }

  lemma {:induction false} GroupFoldsAreChunks<T>(f: (T, T) -> T, level: seq<T>, b: nat)
    requires b >= 2
    ensures GroupFolds(f, level, b) == FoldAll(f, Chunks(level, b))
    decreases |level|
  {
    if |level| > b { GroupFoldsAreChunks(f, level[b..], b); }
  }

  /** What the loop that splits a level has left at i. */
  function Rest<T>(level: seq<T>, i: nat): seq<T> {
    if i <= |level| then level[i..] else []
  }

  /** What is split off so far, with the split of what is left, is the split of the level. */
  ghost predicate SplitAt<T(!new)>(level: seq<T>, i: nat, b: nat, singles: seq<T>, chunks: seq<seq<T>>)
    requires b >= 2
  {
    && singles + Leftover(Rest(level, i), b) == Leftover(level, b)
    && chunks + Chunks(Rest(level, i), b) == Chunks(level, b)
  }

  method Split<T(!new)>(level: seq<T>, b: nat) returns (singles: seq<T>, chunks: seq<seq<T>>)
    requires b >= 2
    ensures singles == Leftover(level, b) && chunks == Chunks(level, b)
  {
    singles, chunks := [], [];
    var i := 0;
    assert level[0..] == level;
    while i < |level|
      invariant 0 <= i && SplitAt(level, i, b, singles, chunks)
    {
      var group := level[i..if i + b < |level| then i + b else |level|];
      SplitStep(level, i, b, group, singles, chunks);
      if |group| == 1 {
        singles := singles + [group[0]];
      } else {
        chunks := chunks + [group];
      }
      i := i + b;
    }
  }

  lemma SplitStep<T(!new)>(level: seq<T>, i: nat, b: nat, group: seq<T>, singles: seq<T>, chunks: seq<seq<T>>)
    requires b >= 2 && i < |level| && group == level[i..if i + b < |level| then i + b else |level|]
    requires SplitAt(level, i, b, singles, chunks)
    ensures |group| == 1 ==> SplitAt(level, i + b, b, singles + [group[0]], chunks)
    ensures |group| != 1 ==> SplitAt(level, i + b, b, singles, chunks + [group])
  {
    var rest, after := Rest(level, i), Rest(level, i + b);
    if |rest| <= b {
      LastSplit(rest, b);
      assert rest == group && after == [];
      Regroup(singles, Leftover(rest, b), []);
      Regroup(chunks, Chunks(rest, b), []);
    } else {
      assert group == rest[..b] && rest[b..] == after;
      Regroup(chunks, [group], Chunks(after, b));
    }
  }

  lemma LastSplit<T>(rest: seq<T>, b: nat)
    requires b >= 2 && 0 < |rest| <= b
    ensures Leftover(rest, b) == (if |rest| == 1 then [rest[0]] else []) && Leftover<T>([], b) == []
    ensures Chunks(rest, b) == (if |rest| == 1 then [] else [rest]) && Chunks<T>([], b) == []
  {
  }

  lemma Regroup<T>(x: seq<T>, y: seq<T>, z: seq<T>)
    ensures (x + y) + z == x + (y + z) && x + [] == x && y + [] == y
  {
  }

  method ReduceLevel<T(!new)>(f: (T, T) -> T, level: seq<T>, b: nat) returns (next: seq<T>)
    requires b >= 2
    ensures next == NextLevel(f, level, b)
  {
    var chunks;
    next, chunks := Split(level, b);
    ghost var singles := next;
    for i := 0 to |chunks|
      invariant next == singles + FoldAll(f, chunks)[..i]
    {
      var acc := ReduceGroup(f, chunks[i]);
      next := next + [acc];
    }
    GroupFoldsAreChunks(f, level, b);
  }

  /** The result for any operator, and the number of parallel rounds. */
  method Run<T(!new)>(f: (T, T) -> T, items: seq<T>, initial: Option<T>, b: nat) returns (result: Option<T>, rounds: nat)
    requires b >= 2
    ensures result == if items == [] then initial
                      else Some(if initial.Some? then f(initial.value, Reduced(f, items, b)) else Reduced(f, items, b))
    ensures rounds == Rounds(|items|, b)
  {
    rounds := 0;
    if |items| == 0 { return initial, 0; }
    if |items| == 1 && initial == None { return Some(items[0]), 0; }
    var level := items;
    while |level| > 1
      invariant level != [] && Reduced(f, level, b) == Reduced(f, items, b)
      invariant rounds + Rounds(|level|, b) == Rounds(|items|, b)
      decreases |level|
    {
      NextLength(f, level, b);
      level := ReduceLevel(f, level, b);
      rounds := rounds + 1;
    }
    result := Some(level[0]);
    if initial.Some? { result := Some(f(initial.value, level[0])); }
  }

  // ----- The rounds are the logarithm -----

  function Pow(b: nat, r: nat): nat { if r == 0 then 1 else b * Pow(b, r - 1) }

  /** The rounds are exactly the least r with b^r >= n. */
  lemma {:induction false} RoundsAreLeast(n: nat, b: nat)
    requires n > 0 && b >= 2
    ensures Pow(b, Rounds(n, b)) >= n
    ensures forall r :: 0 <= r < Rounds(n, b) ==> Pow(b, r) < n
    decreases n
  {
    if n > 1 {
      GroupsShrink(n, b);
      var m := Groups(n, b);
      RoundsAreLeast(m, b);
      GroupsBound(n, b, Pow(b, Rounds(m, b)));
      forall r | 0 <= r < Rounds(n, b) ensures Pow(b, r) < n {
        if r > 0 { GroupsBound(n, b, Pow(b, r - 1)); }
      }
    }
  }

  // ----- The result is the fold -----

  lemma {:induction false} FoldConcat<T(!new)>(f: (T, T) -> T, s: seq<T>, t: seq<T>)
    requires Associative(f) && s != [] && t != []
    ensures Fold(f, s + t) == f(Fold(f, s), Fold(f, t))
    decreases |t|
  {
    var n := |t| - 1;
    assert (s + t)[..|s| + n] == s + t[..n];
    if n == 0 {
      assert s + t[..0] == s;
    } else {
      FoldConcat(f, s, t[..n]);
    }
  }

  function InOrder<T>(f: (T, T) -> T, level: seq<T>, b: nat): seq<T>
    requires b >= 2
  {
    GroupFolds(f, level, b) + Leftover(level, b)
  }

  lemma InOrderSmall<T>(f: (T, T) -> T, level: seq<T>, b: nat)
    requires b >= 2 && 0 < |level| <= b
    ensures InOrder(f, level, b) == [Fold(f, level)]
  {
    if |level| == 1 {
      assert [] + level == [level[0]];
    } else {
      assert [Fold(f, level)] + [] == [Fold(f, level)];
    }
  }

  lemma InOrderLarge<T>(f: (T, T) -> T, level: seq<T>, b: nat)
    requires b >= 2 && |level| > b
    ensures InOrder(f, level, b) == [Fold(f, level[..b])] + InOrder(f, level[b..], b)
  {
    Regroup([Fold(f, level[..b])], GroupFolds(f, level[b..], b), Leftover(level[b..], b));
  }

  /** Folding the groups in place, leftover last, changes nothing for an associative operator. */
  lemma {:induction false} InOrderFold<T(!new)>(f: (T, T) -> T, level: seq<T>, b: nat)
    requires Associative(f) && level != [] && b >= 2
    ensures InOrder(f, level, b) != []
    ensures Fold(f, InOrder(f, level, b)) == Fold(f, level)
    decreases |level|
  {
    if |level| <= b {
      InOrderSmall(f, level, b);
    } else {
      InOrderLarge(f, level, b);
      InOrderFold(f, level[b..], b);
      FoldConcat(f, [Fold(f, level[..b])], InOrder(f, level[b..], b));
      FoldConcat(f, level[..b], level[b..]);
      assert level == level[..b] + level[b..];
    }
  }

  lemma NextFold<T(!new)>(f: (T, T) -> T, level: seq<T>, b: nat)
    requires Associative(f) && level != [] && b >= 2
    requires Commutative(f) || Leftover(level, b) == []
    ensures NextLevel(f, level, b) != [] && Fold(f, NextLevel(f, level, b)) == Fold(f, level)
  {
    var single, groups := Leftover(level, b), GroupFolds(f, level, b);
    InOrderFold(f, level, b);
    if single == [] || groups == [] {
      assert single + groups == groups + single;
    } else {
      FoldConcat(f, single, groups);
      FoldConcat(f, groups, single);
    }
  }

  /** For an associative and commutative operator the reduction is the fold. */
  lemma {:induction false} TreeIsFold<T(!new)>(f: (T, T) -> T, items: seq<T>, b: nat)
    requires Associative(f) && Commutative(f) && items != [] && b >= 2
    ensures Reduced(f, items, b) == Fold(f, items)
    decreases |items|
  {
    if |items| > 1 {
      NextLength(f, items, b);
      NextFold(f, items, b);
      TreeIsFold(f, NextLevel(f, items, b), b);
    }
  }

  /** With an initial value, it is the fold that starts there. */
  lemma InitialIsFirst<T(!new)>(f: (T, T) -> T, items: seq<T>, initial: T, b: nat)
    requires Associative(f) && Commutative(f) && items != [] && b >= 2
    ensures f(initial, Reduced(f, items, b)) == Fold(f, [initial] + items)
  {
    TreeIsFold(f, items, b);
    FoldConcat(f, [initial], items);
  }

  // ----- Operators that are associative only -----

  /** No level of a reduction of n items has a leftover. */
  predicate Even(n: nat, b: nat)
    requires b >= 2
  {
    if n <= 1 then true
    else
      GroupsShrink(n, b);
      n % b != 1 && Even(Groups(n, b), b)
  }

  lemma {:induction false} LeftoverIsLast<T>(level: seq<T>, b: nat)
    requires b >= 2
    ensures Leftover(level, b) == if |level| % b == 1 then [level[|level| - 1]] else []
    decreases |level|
  {
    if |level| > b {
      LeftoverIsLast(level[b..], b);
      ModLess(|level|, b);
    }
  }

  lemma ModLess(n: nat, b: nat)
    requires n >= b > 0
    ensures (n - b) % b == n % b
  {
    var q, d := (n - b) / b, n / b;
    assert n == b * (q + 1) + (n - b) % b && n == b * d + n % b;
    assert d > q + 1 ==> b * d >= b * (q + 2) == b * (q + 1) + b;
    assert d < q + 1 ==> b * (d + 1) == b * d + b <= b * (q + 1);
  }

  /** Where no level has a leftover, associativity is enough. */
  lemma {:induction false} EvenTreeIsFold<T(!new)>(f: (T, T) -> T, items: seq<T>, b: nat)
    requires Associative(f) && items != [] && b >= 2 && Even(|items|, b)
    ensures Reduced(f, items, b) == Fold(f, items)
    decreases |items|
  {
    if |items| > 1 {
      NextLength(f, items, b);
      LeftoverIsLast(items, b);
      NextFold(f, items, b);
      EvenTreeIsFold(f, NextLevel(f, items, b), b);
    }
  }

  function Join(s: seq<nat>, t: seq<nat>): seq<nat> { s + t }

  /** In w an occurrence of `last` is followed directly by 0. */
  ghost predicate Turned(w: seq<nat>, last: nat) {
    exists k :: 0 <= k < |w| - 1 && w[k] == last && w[k + 1] == 0
  }

  /** The level's first two items are turned, once joined, or one of its items already is. */
  ghost predicate Broken(level: seq<seq<nat>>, last: nat) {
    || (exists w :: w in level && Turned(w, last))
    || (|level| >= 2 && level[0] != [] && level[1] != [] && level[0][|level[0]| - 1] == last && level[1][0] == 0)
  }

  lemma TurnedWithin(a: seq<nat>, w: seq<nat>, c: seq<nat>, last: nat)
    requires Turned(w, last)
    ensures Turned(a + w + c, last)
  {
    var k :| 0 <= k < |w| - 1 && w[k] == last && w[k + 1] == 0;
    assert (a + w + c)[|a| + k] == last && (a + w + c)[|a| + k + 1] == 0;
  }

  lemma {:induction false} FoldTurned(group: seq<seq<nat>>, w: seq<nat>, last: nat)
    requires w in group && Turned(w, last)
    ensures Turned(Fold(Join, group), last)
    decreases |group|
  {
    if |group| > 1 {
      var front, end := group[..|group| - 1], group[|group| - 1];
      assert group == front + [end];
      if w == end {
        TurnedWithin(Fold(Join, front), w, [], last);
        assert Fold(Join, front) + w + [] == Fold(Join, group);
      } else {
        FoldTurned(front, w, last);
        TurnedWithin([], Fold(Join, front), end, last);
        assert [] + Fold(Join, front) + end == Fold(Join, group);
      }
    }
  }

  /** A group that starts with the two items that turn, folds to a turned item. */
  lemma {:induction false} FoldTurns(group: seq<seq<nat>>, last: nat)
    requires |group| >= 2 && group[0] != [] && group[1] != [] && group[0][|group[0]| - 1] == last && group[1][0] == 0
    ensures Turned(Fold(Join, group), last)
    decreases |group|
  {
    var front, end := group[..|group| - 1], group[|group| - 1];
    if |group| == 2 {
      var w := group[0] + group[1];
      assert front == [group[0]] && Fold(Join, group) == w;
      assert w[|group[0]| - 1] == last && w[|group[0]|] == 0;
    } else {
      FoldTurns(front, last);
      TurnedWithin([], Fold(Join, front), end, last);
      assert [] + Fold(Join, front) + end == Fold(Join, group);
    }
  }

  lemma {:induction false} TurnedSurvives(level: seq<seq<nat>>, b: nat, w: seq<nat>, last: nat)
    requires b >= 2 && w in level && Turned(w, last)
    ensures exists v :: v in NextLevel(Join, level, b) && Turned(v, last)
    decreases |level|
  {
    if |level| <= 1 {
      assert w in Leftover(level, b);
      assert w in NextLevel(Join, level, b);
    } else if |level| <= b {
      FoldTurned(level, w, last);
      assert Fold(Join, level) in NextLevel(Join, level, b);
    } else {
      var head, rest := level[..b], level[b..];
      assert level == head + rest;
      if w in head {
        FoldTurned(head, w, last);
        assert Fold(Join, head) in NextLevel(Join, level, b);
      } else {
        TurnedSurvives(rest, b, w, last);
        var v :| v in NextLevel(Join, rest, b) && Turned(v, last);
        assert v in NextLevel(Join, level, b);
      }
    }
  }

  lemma BrokenStays(level: seq<seq<nat>>, b: nat, last: nat)
    requires b >= 2 && |level| >= 2 && Broken(level, last)
    ensures Broken(NextLevel(Join, level, b), last)
  {
    if w :| w in level && Turned(w, last) {
      TurnedSurvives(level, b, w, last);
    } else {
      var group := if |level| <= b then level else level[..b];
      FoldTurns(group, last);
      assert GroupFolds(Join, level, b)[0] == Fold(Join, group);
      assert Fold(Join, group) in NextLevel(Join, level, b);
    }
  }

  lemma {:induction false} BrokenToTheEnd(level: seq<seq<nat>>, b: nat, last: nat)
    requires b >= 2 && level != [] && Broken(level, last)
    ensures Turned(Reduced(Join, level, b), last)
    decreases |level|
  {
    if |level| > 1 {
      NextLength(Join, level, b);
      BrokenStays(level, b, last);
      BrokenToTheEnd(NextLevel(Join, level, b), b, last);
    }
  }

  /** The level's items are non-empty, the first starts with 0 and the last ends with `last`. */
  ghost predicate Spans(level: seq<seq<nat>>, last: nat) {
    && level != [] && NoneEmpty(level)
    && level[0][0] == 0 && level[|level| - 1][|level[|level| - 1]| - 1] == last
  }

  lemma {:induction false} FoldEnds(group: seq<seq<nat>>)
    requires group != [] && NoneEmpty(group)
    ensures Fold(Join, group) != [] && Fold(Join, group)[0] == group[0][0]
    ensures Fold(Join, group)[|Fold(Join, group)| - 1] == group[|group| - 1][|group[|group| - 1]| - 1]
    decreases |group|
  {
    if |group| > 1 { FoldEnds(group[..|group| - 1]); }
  }

  lemma {:induction false} GroupsSpan(level: seq<seq<nat>>, b: nat)
    requires b >= 2 && |level| >= 2 && NoneEmpty(level)
    ensures
      var groups := GroupFolds(Join, level, b);
      && groups != [] && NoneEmpty(groups) && groups[0][0] == level[0][0]
      && (|level| % b != 1 ==> var g, w := groups[|groups| - 1], level[|level| - 1]; g[|g| - 1] == w[|w| - 1])
    decreases |level|
  {
    if |level| <= b {
      FoldEnds(level);
    } else {
      var head, rest := level[..b], level[b..];
      FoldEnds(head);
      ModLess(|level|, b);
      if |rest| == 1 {
        assert 1 % b == 1;
      } else {
        GroupsSpan(rest, b);
      }
    }
  }

  /** A leftover at the first level that has one turns the order for good. */
  lemma {:induction false} UnevenTurns(level: seq<seq<nat>>, b: nat, last: nat)
    requires b >= 2 && Spans(level, last) && !Even(|level|, b)
    ensures Turned(Reduced(Join, level, b), last)
    decreases |level|
  {
    NextLength(Join, level, b);
    LeftoverIsLast(level, b);
    GroupsSpan(level, b);
    var next, groups := NextLevel(Join, level, b), GroupFolds(Join, level, b);
    if |level| % b == 1 {
      assert next == [level[|level| - 1]] + groups;
      assert next[1] == groups[0];
      BrokenToTheEnd(next, b, last);
    } else {
      assert next == groups;
      UnevenTurns(next, b, last);
    }
  }

  /** The one-letter words 0, 1, ..., n - 1. */
  function Letters(n: nat): seq<seq<nat>> {
    seq(n, i => [i])
  }

  lemma {:induction false} FoldLetters(n: nat)
    requires n > 0
    ensures |Fold(Join, Letters(n))| == n
    ensures forall i :: 0 <= i < n ==> Fold(Join, Letters(n))[i] == i
    decreases n
  {
    if n > 1 {
      assert Letters(n)[..n - 1] == Letters(n - 1);
      FoldLetters(n - 1);
    }
  }

  /** The reductions of n words by concatenation all equal the fold exactly when no level has a leftover. */
  lemma AssociativeExactly(n: nat, b: nat)
    requires n > 0 && b >= 2
    ensures Even(n, b) <==> forall items: seq<seq<nat>> :: |items| == n ==> Reduced(Join, items, b) == Fold(Join, items)
  {
    if Even(n, b) {
      forall items: seq<seq<nat>> | |items| == n ensures Reduced(Join, items, b) == Fold(Join, items) {
        assert Associative(Join) by { JoinAssociative(); }
        EvenTreeIsFold(Join, items, b);
      }
    } else {
      var items := Letters(n);
      assert Spans(items, n - 1);
      UnevenTurns(items, b, n - 1);
      FoldLetters(n);
      assert Reduced(Join, items, b) != Fold(Join, items);
    }
  }

  lemma JoinAssociative()
    ensures Associative(Join)
  {
    forall x: seq<nat>, y: seq<nat>, z: seq<nat> ensures Join(Join(x, y), z) == Join(x, Join(y, z)) {
      assert x + y + z == x + (y + z);
    }
  }
}
