/** Runs of a state machine whose step is total: an event that is not enabled leaves the state
    alone, so every sequence of events is a run and "for all runs" is "for all sequences". */
module Machines {

  datatype Option<+T> = None | Some(value: T)

  function Exec<S, E>(step: (S, E) -> S, s: S, es: seq<E>): S {
    if es == [] then s else step(Exec(step, s, es[..|es| - 1]), es[|es| - 1])
  }

  lemma Snoc<S, E>(step: (S, E) -> S, s: S, es: seq<E>, e: E)
    ensures Exec(step, s, es + [e]) == step(Exec(step, s, es), e)
  {
    assert (es + [e])[..|es|] == es;
  }

  lemma {:induction false} Concat<S, E>(step: (S, E) -> S, s: S, es: seq<E>, fs: seq<E>)
    ensures Exec(step, s, es + fs) == Exec(step, Exec(step, s, es), fs)
    decreases |fs|
  {
    if fs == [] {
      assert es + fs == es;
    } else {
      var n := |fs| - 1;
      assert (es + fs)[..|es + fs| - 1] == es + fs[..n];
      Concat(step, s, es, fs[..n]);
    }
  }

  lemma First<S, E>(step: (S, E) -> S, s: S, e: E, es: seq<E>)
    ensures Exec(step, s, [e] + es) == Exec(step, step(s, e), es)
  {
    assert [e][..0] == [];
    assert Exec(step, s, [e]) == step(Exec(step, s, []), e);
    Concat(step, s, [e], es);
  }

  /** A concrete run, given with every state it passes through. */
  lemma {:induction false} Path<S, E>(step: (S, E) -> S, ss: seq<S>, es: seq<E>)
    requires |ss| == |es| + 1
    requires forall i :: 0 <= i < |es| ==> ss[i + 1] == step(ss[i], es[i])
    ensures Exec(step, ss[0], es) == ss[|es|]
    decreases |es|
  {
    if es != [] {
      Path(step, ss[..|es|], es[..|es| - 1]);
    }
  }

  /** The same for short runs, without listing the states. */
  lemma Run1<S, E>(step: (S, E) -> S, s: S, es: seq<E>)
    requires |es| == 1
    ensures Exec(step, s, es) == step(s, es[0])
  {
    Path(step, [s, step(s, es[0])], es);
  }

  lemma Run2<S, E>(step: (S, E) -> S, s: S, es: seq<E>)
    requires |es| == 2
    ensures Exec(step, s, es) == step(step(s, es[0]), es[1])
  {
    Run1(step, s, es[..1]);
  }

  lemma Run3<S, E>(step: (S, E) -> S, s: S, es: seq<E>)
    requires |es| == 3
    ensures Exec(step, s, es) == step(step(step(s, es[0]), es[1]), es[2])
  {
    Run2(step, s, es[..2]);
  }

  lemma Run4<S, E>(step: (S, E) -> S, s: S, es: seq<E>)
    requires |es| == 4
    ensures Exec(step, s, es) == step(step(step(step(s, es[0]), es[1]), es[2]), es[3])
  {
    Run3(step, s, es[..3]);
  }

  lemma Run5<S, E>(step: (S, E) -> S, s: S, es: seq<E>)
    requires |es| == 5
    ensures Exec(step, s, es) == step(step(step(step(step(s, es[0]), es[1]), es[2]), es[3]), es[4])
  {
    Run4(step, s, es[..4]);
  }

  lemma Run6<S, E>(step: (S, E) -> S, s: S, es: seq<E>)
    requires |es| == 6
    ensures Exec(step, s, es) == step(step(step(step(step(step(s, es[0]), es[1]), es[2]), es[3]), es[4]), es[5])
  {
    Run5(step, s, es[..5]);
  }

  lemma {:induction false} Invariant<S(!new), E(!new)>(step: (S, E) -> S, inv: S -> bool, s: S, es: seq<E>)
    requires inv(s)
    requires forall t: S, e: E :: inv(t) ==> inv(step(t, e))
    ensures inv(Exec(step, s, es))
    decreases |es|
  {
    if es != [] {
      Invariant(step, inv, s, es[..|es| - 1]);
    }
  }

  /** Every event of the run is allowed in the state it meets. */
  ghost predicate Along<S, E>(step: (S, E) -> S, ok: (S, E) -> bool, s: S, es: seq<E>) {
    forall k :: 0 <= k < |es| ==> ok(Exec(step, s, es[..k]), es[k])
  }

  /** An invariant of the allowed steps holds after every run of allowed steps. */
  lemma {:induction false} InvariantAlong<S(!new), E(!new)>(step: (S, E) -> S, inv: S -> bool, ok: (S, E) -> bool, s: S, es: seq<E>)
    requires inv(s) && Along(step, ok, s, es)
    requires forall t: S, e: E :: inv(t) && ok(t, e) ==> inv(step(t, e))
    ensures inv(Exec(step, s, es))
    decreases |es|
  {
    if es != [] {
      var n := |es| - 1;
      assert forall k :: 0 <= k < n ==> es[..n][..k] == es[..k];
      InvariantAlong(step, inv, ok, s, es[..n]);
      assert ok(Exec(step, s, es[..n]), es[n]);
    }
  }

  /** How many of the workers satisfy `p`. */
  function Count<T>(p: T -> bool, xs: seq<T>): nat {
    if xs == [] then 0 else Count(p, xs[1..]) + if p(xs[0]) then 1 else 0
  }

  lemma {:induction false} CountUpdate<T>(p: T -> bool, xs: seq<T>, i: nat, x: T)
    requires i < |xs|
    ensures Count(p, xs[i := x]) + (if p(xs[i]) then 1 else 0) == Count(p, xs) + (if p(x) then 1 else 0)
    decreases |xs|
  {
    if i == 0 {
      assert xs[i := x][1..] == xs[1..];
    } else {
      assert xs[i := x][1..] == xs[1..][i - 1 := x];
      CountUpdate(p, xs[1..], i - 1, x);
    }
  }

  lemma {:induction false} CountZero<T>(p: T -> bool, xs: seq<T>)
    requires forall i :: 0 <= i < |xs| ==> !p(xs[i])
    ensures Count(p, xs) == 0
    decreases |xs|
  {
    if xs != [] {
      CountZero(p, xs[1..]);
    }
  }

  lemma {:induction false} CountHas<T>(p: T -> bool, xs: seq<T>, i: nat)
    requires i < |xs| && p(xs[i])
    ensures Count(p, xs) >= 1
    decreases |xs|
  {
    if i > 0 {
      CountHas(p, xs[1..], i - 1);
    }
  }
}
