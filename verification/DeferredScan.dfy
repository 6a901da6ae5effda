/** The re-drive of deferred results: each cycle lists the oldest pending results up to a limit, tries to
    apply each, and those that go through leave the list. Unlike the expiry sweep it does not rotate. */
module DeferredScan {
  import opened Machines

  /** Whether a result's task can be fetched and its application goes through when it is tried. */
  type Goes = nat -> bool

  function Limit(limit: int): nat { if limit < 1 then 1 else limit }

  function Window(l: seq<nat>, limit: nat): seq<nat> { if |l| <= limit then l else l[..limit] }

  /** The rows that do not go through. */
  function Stuck(goes: Goes, l: seq<nat>): seq<nat> {
    if l == [] then [] else Stuck(goes, l[..|l| - 1]) + if goes(l[|l| - 1]) then [] else [l[|l| - 1]]
  }

  /** Exactly the rows that do not go through. */
  lemma {:induction false} StuckAre(goes: Goes, l: seq<nat>)
    ensures forall x :: x in Stuck(goes, l) <==> x in l && !goes(x)
    decreases |l|
  {
    if l != [] {
      StuckAre(goes, l[..|l| - 1]);
      assert l == l[..|l| - 1] + [l[|l| - 1]];
    }
  }

  function Least(a: nat, b: nat): nat { if a < b then a else b }

  /** The list after a cycle. */
  function Redriven(goes: Goes, l: seq<nat>, limit: nat): seq<nat> {
    if |l| <= limit then Stuck(goes, l) else Stuck(goes, l[..limit]) + l[limit..]
  }

  /** The results that wait, oldest first. */
  class Deferrals {
    var pending: seq<nat>

    constructor (pending: seq<nat>)
      ensures this.pending == pending
    {
      this.pending := pending;
    }

    /** One cycle. `ready`: the listing succeeded and the transport is configured. */
    method Recheck(ready: bool, goes: Goes, limit: int) returns (tried: seq<nat>)
      modifies this
      ensures tried == if ready then Window(old(pending), Limit(limit)) else []
      ensures pending == if ready then Redriven(goes, old(pending), Limit(limit)) else old(pending)
      // tried are the oldest, up to the limit; what goes through leaves, and nothing else does
      ensures ready ==> tried <= old(pending) && |tried| == Least(|old(pending)|, if limit < 1 then 1 else limit)
      ensures ready ==> forall x :: x in pending <==> (x in tried && !goes(x)) || x in old(pending)[|tried|..]
    {
      StuckAre(goes, Window(pending, Limit(limit)));
      if !ready {
        return [];
      }
      var n := if limit < 1 then 1 else limit;
      tried := if |pending| <= n then pending else pending[..n];
      var left: seq<nat> := [];
      for i := 0 to |tried|
        invariant left == Stuck(goes, tried[..i]) && pending == old(pending)
      {
        assert tried[..i + 1][..i] == tried[..i];
        if !goes(tried[i]) {
          left := left + [tried[i]];
        }
      }
      assert tried[..|tried|] == tried;
      pending := if |pending| <= n then left else left + pending[n..];
    }
  }

  /** Lists cycle by cycle: only the scan removes rows, and new results arrive at the end. */
  ghost predicate History(goes: Goes, limit: nat, lists: nat -> seq<nat>) {
    forall t: nat :: Redriven(goes, lists(t), limit) <= lists(t + 1)
  }

  lemma {:induction false} StuckConcat(goes: Goes, a: seq<nat>, b: seq<nat>)
    ensures Stuck(goes, a + b) == Stuck(goes, a) + Stuck(goes, b)
    decreases |b|
  {
    if b == [] {
      assert a + b == a;
    } else {
      var n := |b| - 1;
      assert (a + b)[..|a + b| - 1] == a + b[..n];
      StuckConcat(goes, a, b[..n]);
    }
  }

  lemma {:induction false} StuckFacts(goes: Goes, l: seq<nat>)
    ensures |Stuck(goes, l)| <= |l| && Stuck(goes, Stuck(goes, l)) == Stuck(goes, l)
    ensures forall x :: x in Stuck(goes, l) ==> x in l
    decreases |l|
  {
    if l != [] {
      var n := |l| - 1;
      StuckFacts(goes, l[..n]);
      var last := if goes(l[n]) then [] else [l[n]];
      StuckConcat(goes, Stuck(goes, l[..n]), last);
      assert last != [] ==> last[..0] == [] && Stuck(goes, last[..0]) == [];
      assert Stuck(goes, last) == last;
    }
  }

  lemma PrefixOf(a: seq<nat>, b: seq<nat>, c: seq<nat>)
    requires a <= b <= c
    ensures a <= c
  {
    assert c[..|a|] == b[..|a|];
  }

  /** A row beyond the window moves up behind what is left of it. */
  lemma MovesUp(goes: Goes, limit: nat, l: seq<nat>, before: seq<nat>, x: nat)
    requires before + [x] <= l && |before| >= limit
    ensures Stuck(goes, before[..limit]) + before[limit..] + [x] <= Redriven(goes, l, limit)
  {
    var tail := l[limit..];
    assert l[..limit] == before[..limit];
    assert before[limit..] + [x] <= tail;
    assert Redriven(goes, l, limit) == Stuck(goes, before[..limit]) + tail;
  }

  /** What stands before a row, one cycle later: the stuck ones among the first rows, and the rest. */
  function Left(goes: Goes, limit: nat, before: seq<nat>): seq<nat>
    requires |before| >= limit
  {
    Stuck(goes, before[..limit]) + before[limit..]
  }

  lemma LeftFacts(goes: Goes, limit: nat, before: seq<nat>)
    requires |before| >= limit
    ensures var left := Left(goes, limit, before);
            && Stuck(goes, left) == Stuck(goes, before) && |left| <= |before|
            && (|Stuck(goes, before)| < limit ==> |left| < |before|)
            && (forall x :: x in left ==> x in before)
  {
    var front, rest := before[..limit], before[limit..];
    assert before == front + rest;
    StuckFacts(goes, front);
    StuckConcat(goes, Stuck(goes, front), rest);
    StuckConcat(goes, front, rest);
  }

  lemma Advance(goes: Goes, limit: nat, l: seq<nat>, m: seq<nat>, before: seq<nat>, x: nat)
    requires Redriven(goes, l, limit) <= m && before + [x] <= l && |before| >= limit
    ensures Left(goes, limit, before) + [x] <= m
  {
    MovesUp(goes, limit, l, before, x);
    PrefixOf(Left(goes, limit, before) + [x], Redriven(goes, l, limit), m);
  }

  lemma InWindow(l: seq<nat>, limit: nat, before: seq<nat>, x: nat)
    requires before + [x] <= l && x !in before
    ensures x in Window(l, limit) <==> |before| < limit
  {
    if |before| < limit {
      assert Window(l, limit)[|before|] == x;
    } else {
      assert Window(l, limit) == before[..limit];
    }
  }

  lemma {:induction false} Reached(goes: Goes, limit: nat, lists: nat -> seq<nat>, from: nat, before: seq<nat>, x: nat) returns (t: nat)
    requires History(goes, limit, lists) && before + [x] <= lists(from) && x !in before && |Stuck(goes, before)| < limit
    ensures t >= from && x in Window(lists(t), limit)
    decreases |before|
  {
    if |before| < limit {
      t := from;
      InWindow(lists(from), limit, before, x);
    } else {
      LeftFacts(goes, limit, before);
      Advance(goes, limit, lists(from), lists(from + 1), before, x);
      t := Reached(goes, limit, lists, from + 1, Left(goes, limit, before), x);
    }
  }

  lemma {:induction false} Starved(goes: Goes, limit: nat, lists: nat -> seq<nat>, from: nat, before: seq<nat>, x: nat, t: nat)
    requires History(goes, limit, lists) && before + [x] <= lists(from) && x !in before && |Stuck(goes, before)| >= limit
    requires t >= from
    ensures x !in Window(lists(t), limit)
    decreases t - from
  {
    StuckFacts(goes, before);
    if t == from {
      InWindow(lists(from), limit, before, x);
    } else {
      LeftFacts(goes, limit, before);
      Advance(goes, limit, lists(from), lists(from + 1), before, x);
      Starved(goes, limit, lists, from + 1, Left(goes, limit, before), x, t);
    }
  }

  /** A waiting result is tried in some cycle if and only if fewer than the limit of those before it never
      go through, whatever arrives behind it. */
  lemma TriedExactly(goes: Goes, limit: nat, lists: nat -> seq<nat>, from: nat, before: seq<nat>, x: nat)
    requires History(goes, limit, lists) && before + [x] <= lists(from) && x !in before
    ensures (exists t: nat :: t >= from && x in Window(lists(t), limit)) <==> |Stuck(goes, before)| < limit
  {
    if |Stuck(goes, before)| < limit {
      var t := Reached(goes, limit, lists, from, before, x);
    } else {
      forall t: nat | t >= from ensures x !in Window(lists(t), limit) {
        Starved(goes, limit, lists, from, before, x, t);
      }
    }
  }
}
