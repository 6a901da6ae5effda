/** The rotating expiry sweep: a cursor that moves one page per cycle over the dispatched requests,
    listed in a stable order with LIMIT and OFFSET, and wraps on a short page. */
module ExpirySweep {
  import opened Machines

  function Min(a: int, b: int): int { if a < b then a else b }

  function PageSize(limit: int): nat { if limit < 1 then 1 else limit }

  /** The rows LIMIT and OFFSET select. */
  function Page<T>(rows: seq<T>, page: nat, offset: nat): seq<T> {
    if offset >= |rows| then [] else rows[offset..Min(offset + page, |rows|)]
  }

  /** Where the cursor goes next over `n` rows. */
  function Next(n: nat, page: nat, offset: nat): nat {
    if offset + page <= n then offset + page else 0
  }

  class Sweep<T> {
    var offset: nat

    constructor ()
      ensures offset == 0
    {
      offset := 0;
    }

    /** One cycle's scan; `None` is a listing that failed. */
    method Scan(listing: Option<seq<T>>, limit: int) returns (checked: seq<T>)
      modifies this
      ensures listing.None? ==> checked == [] && offset == old(offset)
      ensures listing.Some? ==>
                && checked == Page(listing.value, PageSize(limit), old(offset))
                && offset == Next(|listing.value|, PageSize(limit), old(offset))
    {
      var page := if limit < 1 then 1 else limit;
      if listing.None? {
        return [];
      }
      checked := Page(listing.value, page, offset);
      if |checked| < page {
        offset := 0;
      } else {
        offset := offset + page;
      }
    }
  }

  // ----- a fixed list -----

  /** How many of the next `cycles` cycles check row `i`. */
  function Visits(n: nat, page: nat, offset: nat, cycles: nat, i: nat): nat
    decreases cycles
  {
    if cycles == 0 then 0
    else (if offset <= i < offset + page then 1 else 0) + Visits(n, page, Next(n, page, offset), cycles - 1, i)
  }

  /** The cursor after some cycles over `n` rows, from a fresh start. */
  function Cursor(n: nat, page: nat, cycles: nat): nat {
    if cycles == 0 then 0 else Next(n, page, Cursor(n, page, cycles - 1))
  }

  lemma Scaled(a: int, b: int, p: nat)
    requires a <= b
    ensures a * p <= b * p
  {
  }

  lemma PageIndex(x: nat, p: nat, k: nat)
    requires p >= 1
    ensures k * p <= x <==> k <= x / p
    ensures k * p <= x < k * p + p <==> k == x / p
  {
    assert x == x / p * p + x % p;
    if k <= x / p { Scaled(k, x / p, p); } else { Scaled(x / p + 1, k, p); }
    if k < x / p { Scaled(k + 1, x / p, p); }
  }

  lemma NextPage(n: nat, p: nat, k: nat)
    requires p >= 1 && k <= n / p
    ensures Next(n, p, k * p) == (if k == n / p then 0 else (k + 1) * p)
  {
    PageIndex(n, p, k + 1);
  }

  /** A cursor that ran over `n` rows stands at a page boundary no further than the last one. */
  lemma {:induction false} CursorAtBoundary(n: nat, p: nat, cycles: nat) returns (k: nat)
    requires p >= 1
    ensures k <= n / p && Cursor(n, p, cycles) == k * p
  {
    if cycles == 0 {
      k := 0;
    } else {
      var j := CursorAtBoundary(n, p, cycles - 1);
      NextPage(n, p, j);
      k := if j == n / p then 0 else j + 1;
    }
  }

  lemma {:induction false} VisitsFrom(n: nat, p: nat, k: nat, cycles: nat, i: nat)
    requires p >= 1 && k <= n / p && i < n && cycles <= n / p + 1
    ensures var q := i / p;
            Visits(n, p, k * p, cycles, i) ==
              if cycles > (if k <= q then q - k else n / p + 1 - k + q) then 1 else 0
    decreases cycles
  {
    if cycles > 0 {
      PageIndex(i, p, k);
      PageIndex(i, p, i / p);
      PageIndex(n, p, i / p);
      NextPage(n, p, k);
      VisitsFrom(n, p, if k == n / p then 0 else k + 1, cycles - 1, i);
    }
  }

  /** From any cursor the sweep can reach, floor(n / page) + 1 consecutive cycles check every row
      exactly once. */
  lemma EveryRowOnce(n: nat, p: nat, before: nat, i: nat)
    requires p >= 1 && i < n
    ensures Visits(n, p, Cursor(n, p, before), n / p + 1, i) == 1
  {
    var k := CursorAtBoundary(n, p, before);
    PageIndex(i, p, i / p);
    PageIndex(n, p, i / p);
    VisitsFrom(n, p, k, n / p + 1, i);
  }

  function Ceil(n: nat, p: nat): nat
    requires p >= 1
  {
    (n + p - 1) / p
  }

  /** The bound the comment beside the cursor gives: every row within ceil(n / page) cycles. */
  ghost predicate WithinCeil(n: nat, p: nat)
    requires p >= 1
  {
    forall before: nat, i: nat :: i < n ==> Visits(n, p, Cursor(n, p, before), Ceil(n, p), i) >= 1
  }

  lemma CeilOf(n: nat, p: nat)
    requires p >= 1
    ensures Ceil(n, p) == n / p + if n % p == 0 then 0 else 1
  {
    var q := n / p;
    assert n == q * p + n % p;
    if n % p == 0 {
      PageIndex(n + p - 1, p, q);
    } else {
      assert (q + 1) * p == q * p + p;
      PageIndex(n + p - 1, p, q + 1);
    }
  }

  /** That bound holds exactly when the last page is short or there is nothing to check; a full last
      page costs one more, empty, cycle. */
  lemma CeilSufficesExactly(n: nat, p: nat)
    requires p >= 1
    ensures WithinCeil(n, p) <==> n % p != 0 || n == 0
  {
    CeilOf(n, p);
    if n % p != 0 || n == 0 {
      forall before: nat, i: nat | i < n ensures Visits(n, p, Cursor(n, p, before), Ceil(n, p), i) >= 1 {
        EveryRowOnce(n, p, before, i);
      }
    } else {
      PageIndex(n, p, 1);
      NextPage(n, p, 0);
      assert Cursor(n, p, 1) == Next(n, p, Cursor(n, p, 0)) == 1 * p;
      VisitsFrom(n, p, 1, n / p, 0);
      PageIndex(0, p, 0);
      assert Visits(n, p, Cursor(n, p, 1), Ceil(n, p), 0) == 0;
    }
  }

  // ----- a list that changes between cycles -----

  /** The cursor before cycle `t` when cycle `k` lists `lists(k)`. */
  function CursorOver<T>(lists: nat -> seq<T>, p: nat, t: nat): nat {
    if t == 0 then 0 else Next(|lists(t - 1)|, p, CursorOver(lists, p, t - 1))
  }

  function Checked<T>(lists: nat -> seq<T>, p: nat, t: nat): seq<T> {
    Page(lists(t), p, CursorOver(lists, p, t))
  }

  /** Requests only leave: the list stays as it is or gets shorter. */
  ghost predicate OnlyLeaves<T>(lists: nat -> seq<T>, from: nat) {
    forall t: nat :: t >= from ==> lists(t + 1) == lists(t) || |lists(t + 1)| < |lists(t)|
  }

  /** One cycle over an unchanged list that misses `x`: the cursor wraps to before it, or comes closer. */
  lemma MissedOnce<T>(l: seq<T>, p: nat, c: nat, x: T)
    requires p >= 1 && x in l && x !in Page(l, p, c)
    ensures var d := Next(|l|, p, c);
            if Ahead(l, c, x) then d == c + p <= |l| && Ahead(l, d, x)
            else Ahead(l, d, x) || d == c + p <= |l|
  {
    assert l[0..] == l;
    if c + p <= |l| {
      assert l[c..] == l[c..c + p] + l[c + p..];
    } else if c < |l| {
      assert Page(l, p, c) == l[c..];
    }
  }

  /** The cursor has not passed `x`. */
  predicate Ahead<T(==)>(l: seq<T>, c: nat, x: T) { c <= |l| && x in l[c..] }

  /** A request that stays is checked again after any cycle, however the others leave and shift it
      under the cursor: the list gets shorter, or the cursor wraps before it, or the cursor comes
      closer. */
  lemma {:induction false} StayingIsChecked<T>(lists: nat -> seq<T>, p: nat, from: nat, x: T) returns (t: nat)
    requires p >= 1 && OnlyLeaves(lists, from)
    requires forall k: nat :: k >= from ==> x in lists(k)
    ensures t >= from && x in Checked(lists, p, t)
    decreases |lists(from)|, if Ahead(lists(from), CursorOver(lists, p, from), x) then 0 else 1,
              |lists(from)| - CursorOver(lists, p, from)
  {
    var l, c := lists(from), CursorOver(lists, p, from);
    if x in Checked(lists, p, from) {
      t := from;
    } else {
      MissedOnce(l, p, c, x);
      assert CursorOver(lists, p, from + 1) == Next(|l|, p, c);
      assert lists(from + 1) == l || |lists(from + 1)| < |l|;
      t := StayingIsChecked(lists, p, from + 1, x);
    }
  }

  // ----- requests that leave and arrive: the rate the sweep can bear -----

  function Rows(l: seq<nat>): set<nat> { set r | r in l }

  ghost predicate Distinct(l: seq<nat>) { forall i, j :: 0 <= i < j < |l| ==> l[i] != l[j] }

  ghost function Index(l: seq<nat>, x: nat): (i: nat)
    requires x in l
    ensures i < |l| && l[i] == x
  {
    var i: nat :| i < |l| && l[i] == x;
    i
  }

  /** The list one cycle later: rows leave, those that stay keep their order, and at most `a` arrive; at
      the end, or wherever their creation time puts them. */
  ghost predicate Becomes(l: seq<nat>, m: seq<nat>, a: nat, atEnd: bool) {
    && (forall i, j :: 0 <= i < j < |m| && m[i] in l && m[j] in l ==> Index(l, m[i]) < Index(l, m[j]))
    && |Rows(m) - Rows(l)| <= a
    && (atEnd ==> forall i, j :: 0 <= i < j < |m| && m[i] !in l ==> m[j] !in l)
  }

  /** What the cycles list: requests by their number, none twice. */
  ghost predicate History(lists: nat -> seq<nat>, a: nat, atEnd: bool) {
    forall t: nat :: Distinct(lists(t)) && Becomes(lists(t), lists(t + 1), a, atEnd)
  }

  ghost predicate Stays(lists: nat -> seq<nat>, from: nat, x: nat) { forall k: nat :: k >= from ==> x in lists(k) }

  /** Every request that stays from some cycle on is checked again after it. */
  ghost predicate Rechecked(lists: nat -> seq<nat>, p: nat) {
    forall from: nat, x: nat :: Stays(lists, from, x) ==> exists t: nat :: t >= from && x in Checked(lists, p, t)
  }

  /** The sweep comes back to every request that stays, whatever leaves, if and only if fewer than a page
      of requests arrive per cycle at the end of the list, or, where they may arrive in front of others,
      none do. */
  lemma RecheckedExactly(p: nat, a: nat, atEnd: bool)
    requires p >= 1
    ensures (forall lists: nat -> seq<nat> :: History(lists, a, atEnd) ==> Rechecked(lists, p)) <==> if atEnd then a < p else a == 0
  {
    if if atEnd then a < p else a == 0 {
      forall lists: nat -> seq<nat> | History(lists, a, atEnd) ensures Rechecked(lists, p) {
        NoneArriveAtEnd(lists, a, atEnd);
        forall from: nat, x: nat | Stays(lists, from, x) ensures exists t: nat :: t >= from && x in Checked(lists, p, t) {
          var t := Rechecks(lists, p, a, from, x);
        }
      }
    } else if atEnd {
      ArrivalsStarve(p, a);
    } else {
      OvertakersStarve(p, a);
    }
  }

  lemma NoneArriveAtEnd(lists: nat -> seq<nat>, a: nat, atEnd: bool)
    requires History(lists, a, atEnd) && (atEnd || a == 0)
    ensures History(lists, a, true)
  {
    forall t: nat ensures Distinct(lists(t)) && Becomes(lists(t), lists(t + 1), a, true) {
      assert Becomes(lists(t), lists(t + 1), a, atEnd);
      if !atEnd { NoneArrive(lists(t), lists(t + 1)); }
    }
  }

  lemma NoneArrive(l: seq<nat>, m: seq<nat>)
    requires Becomes(l, m, 0, false)
    ensures Becomes(l, m, 0, true)
  {
    var arrived := Rows(m) - Rows(l);
    assert arrived == {};
    forall i | 0 <= i < |m| ensures m[i] in l {
      assert m[i] in Rows(m);
      assert m[i] !in arrived;
    }
  }

  lemma IndexOf(l: seq<nat>, i: nat)
    requires Distinct(l) && i < |l|
    ensures Index(l, l[i]) == i
  {
  }

  lemma InPage(l: seq<nat>, p: nat, c: nat, x: nat)
    requires Distinct(l) && x in l
    ensures x in Page(l, p, c) <==> c <= Index(l, x) < c + p
  {
    var i := Index(l, x);
    var page := Page(l, p, c);
    if x in page {
      var k :| 0 <= k < |page| && page[k] == x;
      IndexOf(l, c + k);
    }
    if c <= i < c + p { assert page[i - c] == x; }
  }

  lemma {:induction false} DistinctCard(l: seq<nat>)
    requires Distinct(l)
    ensures |Rows(l)| == |l|
    decreases |l|
  {
    if l != [] {
      var n := |l| - 1;
      DistinctCard(l[..n]);
      assert l == l[..n] + [l[n]];
      assert Rows(l) == Rows(l[..n]) + {l[n]};
    }
  }

  lemma SubsetCard(a: set<nat>, b: set<nat>)
    requires a <= b
    ensures |a| <= |b|
  {
    assert b == a + (b - a);
  }

  /** Arrivals at the end move no row back. */
  lemma IndexShrinks(l: seq<nat>, m: seq<nat>, a: nat, x: nat)
    requires Distinct(l) && Distinct(m) && Becomes(l, m, a, true) && x in l && x in m
    ensures Index(m, x) <= Index(l, x)
  {
    var i, j := Index(m, x), Index(l, x);
    forall r | r in Rows(m[..i]) ensures r in Rows(l[..j]) {
      var k :| 0 <= k < i && m[..i][k] == r;
      StaysBefore(l, m, a, k, i);
      assert l[..j][Index(l, r)] == r;
    }
    DistinctCard(m[..i]);
    DistinctCard(l[..j]);
    SubsetCard(Rows(m[..i]), Rows(l[..j]));
  }

  lemma StaysBefore(l: seq<nat>, m: seq<nat>, a: nat, k: nat, i: nat)
    requires Becomes(l, m, a, true) && k < i < |m| && m[i] in l
    ensures m[k] in l && Index(l, m[k]) < Index(l, m[i])
  {
  }

  /** Nor do they lengthen the list by more than their number. */
  lemma LengthGrows(l: seq<nat>, m: seq<nat>, a: nat)
    requires Distinct(l) && Distinct(m) && |Rows(m) - Rows(l)| <= a
    ensures |m| <= |l| + a
  {
    DistinctCard(l);
    DistinctCard(m);
    SubsetCard(Rows(m) * Rows(l), Rows(l));
    assert Rows(m) == Rows(m) * Rows(l) + (Rows(m) - Rows(l));
  }

  /** A cycle that misses the request: it moves to the front, or the cursor wraps to before it, or the
      cursor gains on it or on the end of the list. */
  lemma Gains(l: seq<nat>, m: seq<nat>, p: nat, a: nat, c: nat, x: nat)
    requires Distinct(l) && Distinct(m) && Becomes(l, m, a, true) && x in l && x in m && a < p && x !in Page(l, p, c)
    ensures var i, d := Index(l, x), Next(|l|, p, c);
            || Index(m, x) < i
            || (Index(m, x) == i && (if c <= i then c < d <= i else d <= i || (d == c + p <= |l| && |m| - d < |l| - c)))
  {
    InPage(l, p, c, x);
    IndexShrinks(l, m, a, x);
    LengthGrows(l, m, a);
  }

  lemma {:induction false} Rechecks(lists: nat -> seq<nat>, p: nat, a: nat, from: nat, x: nat) returns (t: nat)
    requires a < p && History(lists, a, true) && Stays(lists, from, x)
    ensures t >= from && x in Checked(lists, p, t)
    decreases Index(lists(from), x),
              if CursorOver(lists, p, from) <= Index(lists(from), x) then 0 else 1,
              (if CursorOver(lists, p, from) <= Index(lists(from), x) then Index(lists(from), x) else |lists(from)|)
                - CursorOver(lists, p, from)
  {
    if x in Checked(lists, p, from) {
      t := from;
    } else {
      var l, m, c := lists(from), lists(from + 1), CursorOver(lists, p, from);
      assert Becomes(l, m, a, true) && Distinct(l) && Distinct(m) && x in l && x in m;
      Gains(l, m, p, a, c, x);
      assert CursorOver(lists, p, from + 1) == Next(|l|, p, c);
      t := Rechecks(lists, p, a, from + 1, x);
    }
  }

  // ----- the histories that starve a request -----

  /** A page of requests arrives per cycle, and the head leaves once, behind the first cycle. */
  function Busy(p: nat, t: nat): seq<nat> {
    if t == 0 then seq(p + 1, i => i) else seq((t + 1) * p, i => i + 1)
  }

  /** The rows of a list that counts up. */
  lemma Counting(l: seq<nat>, first: nat)
    requires forall i :: 0 <= i < |l| ==> l[i] == i + first
    ensures Distinct(l) && forall v: nat :: v in l ==> first <= v < first + |l| && Index(l, v) == v - first
    ensures forall v: nat :: first <= v < first + |l| ==> v in l
  {
    forall v: nat | v in l ensures first <= v < first + |l| && Index(l, v) == v - first {
      assert l[Index(l, v)] == v;
    }
    forall v: nat | first <= v < first + |l| ensures v in l { assert l[v - first] == v; }
  }

  /** One counting list behind another: what arrives are the last rows. */
  lemma CountingBecomes(l: seq<nat>, first: nat, m: seq<nat>, a: nat)
    requires (forall i :: 0 <= i < |l| ==> l[i] == i + first) && (forall i :: 0 <= i < |m| ==> m[i] == i + 1)
    requires l != [] && first <= 1 && first + |l| <= 1 + |m| <= first + |l| + a
    ensures Becomes(l, m, a, true)
  {
    Counting(l, first);
    Counting(m, 1);
    var kept := first + |l| - 1;
    var last := m[kept..];
    forall r | r in Rows(m) - Rows(l) ensures r in Rows(last) { assert last[r - 1 - kept] == r; }
    DistinctCard(last);
    SubsetCard(Rows(m) - Rows(l), Rows(last));
  }

  lemma BusyBecomes(p: nat, a: nat, t: nat)
    requires 1 <= p <= a
    ensures Distinct(Busy(p, t)) && Becomes(Busy(p, t), Busy(p, t + 1), a, true)
  {
    assert (t + 2) * p == (t + 1) * p + p;
    Counting(Busy(p, t), if t == 0 then 0 else 1);
    CountingBecomes(Busy(p, t), if t == 0 then 0 else 1, Busy(p, t + 1), a);
  }

  function BusyLists(p: nat): nat -> seq<nat> { (t: nat) => Busy(p, t) }

  lemma {:induction false} BusyMisses(p: nat, t: nat)
    requires p >= 1
    ensures p in Busy(p, t) && CursorOver(BusyLists(p), p, t) == t * p && p !in Checked(BusyLists(p), p, t)
    decreases t
  {
    var lists := BusyLists(p);
    assert (t + 1) * p == t * p + p;
    if t > 0 {
      BusyMisses(p, t - 1);
      assert CursorOver(lists, p, t) == Next(|lists(t - 1)|, p, CursorOver(lists, p, t - 1));
      assert (t - 1) * p + p == t * p;
      assert t * p >= p by { Scaled(1, t, p); }
      assert Busy(p, t)[p - 1] == p;
    } else {
      assert Busy(p, 0)[p] == p;
    }
  }

  /** The request right behind the first page slides under the cursor when the head leaves; a page of
      arrivals per cycle keeps the cursor from ever wrapping back to it. */
  lemma ArrivalsStarve(p: nat, a: nat)
    requires 1 <= p <= a
    ensures exists lists: nat -> seq<nat> :: History(lists, a, true) && !Rechecked(lists, p)
  {
    var lists := BusyLists(p);
    forall t: nat ensures Distinct(lists(t)) && Becomes(lists(t), lists(t + 1), a, true) { BusyBecomes(p, a, t); }
    forall t: nat ensures p in lists(t) && p !in Checked(lists, p, t) { BusyMisses(p, t); }
    assert Stays(lists, 0, p);
    assert History(lists, a, true) && !Rechecked(lists, p);
  }

  function Core(p: nat): seq<nat> { seq(p, i => i) }

  /** Every other cycle a request arrives at the front, and it leaves after one cycle. */
  function Swinging(p: nat, t: nat): seq<nat> {
    if t % 2 == 0 then [p + t] + Core(p) else Core(p)
  }

  lemma CoreDistinct(p: nat, y: nat)
    requires y >= p
    ensures Distinct([y] + Core(p))
  {
    var l := [y] + Core(p);
    forall i, j | 0 <= i < j < |l| ensures l[i] != l[j] { assert l[j] == j - 1; }
  }

  lemma LeavesFront(y: nat, rest: seq<nat>, a: nat)
    requires Distinct([y] + rest)
    ensures Becomes([y] + rest, rest, a, false)
  {
    var l := [y] + rest;
    forall i | 0 <= i < |rest| ensures rest[i] in l && Index(l, rest[i]) == i + 1 {
      assert l[i + 1] == rest[i];
      IndexOf(l, i + 1);
    }
    assert Rows(rest) - Rows(l) == {};
  }

  lemma ArrivesInFront(y: nat, rest: seq<nat>, a: nat)
    requires a >= 1 && Distinct([y] + rest)
    ensures Becomes(rest, [y] + rest, a, false)
  {
    var m := [y] + rest;
    forall i, j | 0 <= i < j < |rest| ensures rest[i] != rest[j] { assert m[i + 1] != m[j + 1]; }
    forall i | 0 <= i < |rest| ensures rest[i] != y { assert m[0] != m[i + 1]; }
    forall i | 1 <= i < |m| ensures m[i] in rest && Index(rest, m[i]) == i - 1 {
      assert m[i] == rest[i - 1];
      IndexOf(rest, i - 1);
    }
    assert Rows(m) - Rows(rest) == {y};
  }

  lemma OutAndIn(p: nat, y: nat, a: nat)
    requires y >= p
    ensures Becomes([y] + Core(p), Core(p), a, false) && (a >= 1 ==> Becomes(Core(p), [y] + Core(p), a, false))
  {
    CoreDistinct(p, y);
    LeavesFront(y, Core(p), a);
    if a >= 1 { ArrivesInFront(y, Core(p), a); }
  }

  lemma SwingsBetween(p: nat, t: nat)
    ensures Swinging(p, t) == (if t % 2 == 0 then [p + t] + Core(p) else Core(p))
    ensures Swinging(p, t + 1) == (if t % 2 == 0 then Core(p) else [p + (t + 1)] + Core(p))
  {
  }

  lemma SwingingDistinct(p: nat, t: nat)
    ensures Distinct(Swinging(p, t))
  {
    CoreDistinct(p, p + t);
    assert forall i :: 0 <= i < p ==> Core(p)[i] == i;
  }

  lemma SwingingBecomes(p: nat, a: nat, t: nat)
    requires a >= 1
    ensures Becomes(Swinging(p, t), Swinging(p, t + 1), a, false)
  {
    SwingsBetween(p, t);
    OutAndIn(p, if t % 2 == 0 then p + t else p + (t + 1), a);
  }

  lemma SwingingPage(p: nat, t: nat)
    requires p >= 1
    ensures var l, c := Swinging(p, t), if t % 2 == 0 then 0 else p;
            p - 1 in l && p - 1 !in Page(l, p, c) && Next(|l|, p, c) == if t % 2 == 0 then p else 0
  {
    var l := Swinging(p, t);
    if t % 2 == 0 {
      assert l[p] == p - 1;
      forall k | 0 <= k < p ensures l[k] != p - 1 { assert k > 0 ==> l[k] == k - 1; }
      assert Page(l, p, 0) == l[..p];
    } else {
      assert l[p - 1] == p - 1;
    }
  }

  function SwingingLists(p: nat): nat -> seq<nat> { (t: nat) => Swinging(p, t) }

  lemma {:induction false} SwingingCursor(p: nat, t: nat)
    requires p >= 1
    ensures CursorOver(SwingingLists(p), p, t) == (if t % 2 == 0 then 0 else p)
    decreases t
  {
    if t > 0 {
      SwingingCursor(p, t - 1);
      SwingingPage(p, t - 1);
    }
  }

  /** The last request is behind the page when the cursor is at the start, and in front of the cursor when
      it is not. */
  lemma OvertakersStarve(p: nat, a: nat)
    requires p >= 1 && a >= 1
    ensures exists lists: nat -> seq<nat> :: History(lists, a, false) && !Rechecked(lists, p)
  {
    var lists := SwingingLists(p);
    forall t: nat ensures Distinct(lists(t)) && Becomes(lists(t), lists(t + 1), a, false) { SwingingDistinct(p, t); SwingingBecomes(p, a, t); }
    forall t: nat ensures p - 1 in lists(t) && p - 1 !in Checked(lists, p, t) { SwingingCursor(p, t); SwingingPage(p, t); }
    assert Stays(lists, 0, p - 1);
    assert History(lists, a, false) && !Rechecked(lists, p);
  }
}
