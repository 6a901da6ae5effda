/** Answering one ticket's customer messages from an at-least-once task queue.

    A task may be delivered at any time and any number of times: by redelivery, by a requeue after a
    storage error, or by startup recovery. Messages of other writers are appended in between. */
module TicketQuery {
  import opened Machines

  /** `of` is history: the customer message a worker saved this answer for. */
  datatype Msg =
    | Customer(content: string, at: Option<int>)
    | Assistant(marked: bool, of: Option<nat>)
    | Other

  /** Content and creation time in milliseconds, both as the task carries them. */
  datatype Task = Task(content: string, at: Option<int>)

  const TOLERANCE := 1000

  predicate Same(m: Msg, t: Task)
    requires m.Customer?
  {
    && (t.content == "" || m.content == t.content)
    && (t.at.Some? && m.at.Some? ==> -TOLERANCE <= m.at.value - t.at.value <= TOLERANCE)
  }

  function LatestCustomer(ms: seq<Msg>): (r: Option<nat>)
    ensures r.Some? ==> r.value < |ms| && ms[r.value].Customer? && forall k :: r.value < k < |ms| ==> !ms[k].Customer?
    ensures r.None? ==> forall k :: 0 <= k < |ms| ==> !ms[k].Customer?
  {
    if ms == [] then None
    else if ms[|ms| - 1].Customer? then Some(|ms| - 1)
    else LatestCustomer(ms[..|ms| - 1])
  }

  /** The message a task is about, if that is still the latest customer message. */
  function Target(ms: seq<Msg>, t: Task): Option<nat> {
    var i := LatestCustomer(ms);
    if i.Some? && Same(ms[i.value], t) then i else None
  }

  predicate Answered(ms: seq<Msg>, i: nat) {
    exists k :: i < k < |ms| && ms[k].Assistant? && ms[k].marked
  }

  ghost predicate IsLatest(ms: seq<Msg>, i: int) {
    0 <= i < |ms| && ms[i].Customer? && forall k :: i < k < |ms| ==> !ms[k].Customer?
  }

  /** The text agrees, unless the task has none, and the times differ by a second at most where both are
      known. */
  ghost predicate About(m: Msg, t: Task)
    requires m.Customer?
  {
    (t.content == "" || t.content == m.content)
    && (m.at.None? || t.at.None? || (m.at.value <= t.at.value + 1000 && t.at.value <= m.at.value + 1000))
  }

  method FindLatestCustomer(ms: seq<Msg>, t: Task) returns (r: Option<nat>)
    ensures r == Target(ms, t)
    ensures forall i: nat :: r == Some(i) <==> IsLatest(ms, i) && About(ms[i], t)
  {
    var index := |ms|;
    while index > 0
      invariant 0 <= index <= |ms|
      invariant LatestCustomer(ms) == LatestCustomer(ms[..index])
    {
      index := index - 1;
      var item := ms[index];
      assert ms[..index + 1][..index] == ms[..index];
      if !item.Customer? {
        continue;
      }
      if t.content != "" && item.content != t.content {
        return None;
      }
      if t.at.Some? && item.at.Some? && !(-TOLERANCE <= item.at.value - t.at.value <= TOLERANCE) {
        return None;
      }
      return Some(index);
    }
    return None;
  }

  method FindExistingResponse(ms: seq<Msg>, t: Task) returns (r: Option<nat>)
    ensures r.Some? <==> Target(ms, t).Some? && Answered(ms, Target(ms, t).value)
    ensures r.Some? <==> exists i, k :: IsLatest(ms, i) && About(ms[i], t) && i < k < |ms| && ms[k].Assistant? && ms[k].marked
    ensures r.Some? ==> r.value < |ms| && ms[r.value].Assistant? && ms[r.value].marked
    ensures r.Some? ==> forall k :: r.value < k < |ms| ==> !(ms[k].Assistant? && ms[k].marked)
  {
    var customer := FindLatestCustomer(ms, t);
    if customer.None? {
      return None;
    }
    r := None;
    for k := customer.value + 1 to |ms|
      invariant r.Some? ==> customer.value < r.value < k && ms[r.value].Assistant? && ms[r.value].marked
      invariant forall j :: (if r.Some? then r.value else customer.value) < j < k ==> !(ms[j].Assistant? && ms[j].marked)
    {
      if ms[k].Assistant? && ms[k].marked {
        r := Some(k);
      }
    }
  }

  // ----- the protocol -----

  datatype Pc = Idle | Saving(index: nat)

  /** How one attempt to save ends: stored; stored but the reply lost; not stored, retryable; not
      stored, not retryable. */
  datatype Landing = Stored | AckLost | Unstored | Refused

  datatype Action =
    | Refresh(task: Task)
    | Save(blank: bool, marked: bool, landing: Landing)
    | Crash

  datatype Event = Worker(w: nat, a: Action) | Arrives(m: Msg)

  /** Fixed for a run: `marks` says every answer carries one of the fields that mark a worker's
      answer, `acks` that no stored save reports a storage error. */
  datatype State = State(ms: seq<Msg>, marks: bool, acks: bool, pcs: seq<Pc>)

  function Init(n: nat, marks: bool, acks: bool): State {
    State([], marks, acks, seq(n, i => Idle))
  }

  function Act(ms: seq<Msg>, marks: bool, acks: bool, pc: Pc, a: Action): (seq<Msg>, Pc) {
    match a
    case Refresh(task) =>
      if pc != Idle || task.content == "" then (ms, pc)
      else
        var i := Target(ms, task);
        (ms, if i.Some? && !Answered(ms, i.value) then Saving(i.value) else Idle)
    case Save(blank, marked, landing) =>
      if pc == Idle then (ms, pc)
      else
        var after := if blank || landing == Unstored || landing == Refused then ms
                     else ms + [Assistant(marked || marks, Some(pc.index))];
        (after, if landing == Unstored || (landing == AckLost && !acks) then pc else Idle)
    case Crash => (ms, Idle)
  }

  function Step(s: State, e: Event): State {
    match e
    case Worker(w, a) =>
      if w < |s.pcs| then
        var (ms, pc) := Act(s.ms, s.marks, s.acks, s.pcs[w], a);
        s.(ms := ms, pcs := s.pcs[w := pc])
      else s
    case Arrives(m) => if m.Assistant? && m.of.Some? then s else s.(ms := s.ms + [m])
  }

  /** An answer some worker saved. */
  predicate Own(m: Msg) { m.Assistant? && m.of.Some? }

  ghost predicate AtMostOne(ms: seq<Msg>) {
    forall j, k :: 0 <= j < k < |ms| && Own(ms[j]) && Own(ms[k]) ==> ms[j].of != ms[k].of
  }

  ghost predicate Unanswered(ms: seq<Msg>, i: nat) {
    i < |ms| && ms[i].Customer? && forall k :: 0 <= k < |ms| && Own(ms[k]) ==> ms[k].of.value != i
  }

  ghost predicate Behind(ms: seq<Msg>) {
    forall k :: 0 <= k < |ms| && Own(ms[k]) ==> ms[k].marked && ms[k].of.value < k && ms[ms[k].of.value].Customer?
  }

  ghost predicate Inv(s: State) {
    && s.marks && s.acks && |s.pcs| <= 1
    && AtMostOne(s.ms) && Behind(s.ms)
    && (forall w :: 0 <= w < |s.pcs| && s.pcs[w].Saving? ==> Unanswered(s.ms, s.pcs[w].index))
  }

  lemma Append(ms: seq<Msg>, m: Msg)
    requires AtMostOne(ms) && Behind(ms) && (Own(m) ==> m.marked && Unanswered(ms, m.of.value))
    ensures AtMostOne(ms + [m]) && Behind(ms + [m])
    ensures forall i: nat :: Unanswered(ms, i) && (Own(m) ==> m.of.value != i) ==> Unanswered(ms + [m], i)
  {
    var after := ms + [m];
    forall k | 0 <= k < |after| && Own(after[k])
      ensures after[k].marked && after[k].of.value < k && after[after[k].of.value].Customer?
    {
      assert k < |ms| ==> after[k] == ms[k];
    }
  }

  /** A message without a recognisable answer behind it has no saved answer. */
  lemma NotAnswered(ms: seq<Msg>, i: nat)
    requires Behind(ms) && i < |ms| && ms[i].Customer? && !Answered(ms, i)
    ensures Unanswered(ms, i)
  {
  }

  lemma StepInv(s: State, e: Event)
    requires Inv(s)
    ensures Inv(Step(s, e))
  {
    if e.Arrives? {
      if !Own(e.m) { Append(s.ms, e.m); }
    } else if e.w < |s.pcs| {
      var pc := s.pcs[e.w];
      assert s.pcs[e.w := Act(s.ms, true, true, pc, e.a).1] == [Act(s.ms, true, true, pc, e.a).1];
      if e.a.Refresh? {
        var i := Target(s.ms, e.a.task);
        if i.Some? && !Answered(s.ms, i.value) { NotAnswered(s.ms, i.value); }
      } else if e.a.Save? && pc.Saving? {
        Append(s.ms, Assistant(true, Some(pc.index)));
      }
    }
  }

  lemma OneConsumer(n: nat, es: seq<Event>)
    requires n <= 1
    ensures AtMostOne(Exec(Step, Init(n, true, true), es).ms)
  {
    forall s: State, e: Event | Inv(s) ensures Inv(Step(s, e)) { StepInv(s, e); }
    Invariant(Step, Inv, Init(n, true, true), es);
  }

  const QUESTION := Customer("q", Some(0))
  const ASK := Task("q", Some(0))

  const SAVE := Save(false, false, Stored)
  const ASKED := [Arrives(QUESTION), Worker(0, Refresh(ASK))]

  /** The question has arrived and worker 0 is about to save its answer. */
  lemma AskedRuns(n: nat, marks: bool, acks: bool)
    requires n >= 1
    ensures Exec(Step, Init(n, marks, acks), ASKED) == State([QUESTION], marks, acks, Init(n, marks, acks).pcs[0 := Saving(0)])
  {
    var s0 := Init(n, marks, acks);
    var s1 := s0.(ms := s0.ms + [QUESTION]);
    assert s1.ms == [QUESTION];
    assert Target(s1.ms, ASK) == Some(0) && !Answered(s1.ms, 0);
    assert Step(s0, ASKED[0]) == s1;
    assert Step(s1, ASKED[1]) == s1.(pcs := s1.pcs[0 := Saving(0)]);
    Run2(Step, s0, ASKED);
  }

  ghost predicate Twice(ms: seq<Msg>) { |ms| == 3 && Own(ms[1]) && Own(ms[2]) && ms[1].of == ms[2].of }

  lemma TwoConsumers(s: State, es: seq<Event>)
    requires |s.pcs| >= 2 && s.ms == [QUESTION] && s.pcs[0] == Saving(0) && s.pcs[1] == Idle
    requires es == [Worker(1, Refresh(ASK)), Worker(0, SAVE), Worker(1, SAVE)]
    ensures Twice(Exec(Step, s, es).ms)
  {
    assert Target(s.ms, ASK) == Some(0) && !Answered(s.ms, 0);
    var s1 := s.(pcs := s.pcs[1 := Saving(0)]);
    assert Step(s, es[0]) == s1;
    var s2 := Step(s1, es[1]);
    Run3(Step, s, es);
  }

  lemma UnmarkedAnswer(s: State, es: seq<Event>)
    requires s.pcs == [Saving(0)] && s.ms == [QUESTION] && !s.marks
    requires es == [Worker(0, SAVE), Worker(0, Refresh(ASK)), Worker(0, SAVE)]
    ensures Twice(Exec(Step, s, es).ms)
  {
    var s1 := s.(ms := s.ms + [Assistant(false, Some(0))], pcs := [Idle]);
    assert LatestCustomer(s1.ms) == Some(0);
    assert Target(s1.ms, ASK) == Some(0) && !Answered(s1.ms, 0);
    var s2 := s1.(pcs := [Saving(0)]);
    assert Step(s, es[0]) == s1;
    assert Step(s1, es[1]) == s2;
    Run3(Step, s, es);
  }

  lemma LostAcknowledgement(s: State, es: seq<Event>)
    requires s.pcs == [Saving(0)] && s.ms == [QUESTION] && !s.acks
    requires es == [Worker(0, Save(false, false, AckLost)), Worker(0, SAVE)]
    ensures Twice(Exec(Step, s, es).ms)
  {
    var s1 := Step(s, es[0]);
    Run2(Step, s, es);
  }

  /** A run that answers the one question twice, wherever the protocol allows one. */
  lemma AnswersTwice(n: nat, marks: bool, acks: bool) returns (es: seq<Event>)
    requires n >= 1 && (n >= 2 || !marks || !acks)
    ensures !AtMostOne(Exec(Step, Init(n, marks, acks), es).ms)
  {
    AskedRuns(n, marks, acks);
    var s := Exec(Step, Init(n, marks, acks), ASKED);
    if n >= 2 {
      es := [Worker(1, Refresh(ASK)), Worker(0, SAVE), Worker(1, SAVE)];
      TwoConsumers(s, es);
    } else if !marks {
      es := [Worker(0, SAVE), Worker(0, Refresh(ASK)), Worker(0, SAVE)];
      UnmarkedAnswer(s, es);
    } else {
      es := [Worker(0, Save(false, false, AckLost)), Worker(0, SAVE)];
      LostAcknowledgement(s, es);
    }
    Concat(Step, Init(n, marks, acks), ASKED, es);
    es := ASKED + es;
  }

  /** Every customer message gets at most one saved answer in every run exactly when there is one
      consumer, every answer is recognisable, and no stored save reports an error. */
  lemma OneAnswerExactly(n: nat, marks: bool, acks: bool)
    ensures (forall es :: AtMostOne(Exec(Step, Init(n, marks, acks), es).ms)) <==> n == 0 || (n == 1 && marks && acks)
  {
    if n == 1 && marks && acks {
      forall es ensures AtMostOne(Exec(Step, Init(n, marks, acks), es).ms) { OneConsumer(n, es); }
    } else if n == 0 {
      forall es ensures AtMostOne(Exec(Step, Init(n, marks, acks), es).ms) { NoConsumer(marks, acks, es); }
    } else {
      var es := AnswersTwice(n, marks, acks);
    }
  }

  lemma {:induction false} NoConsumer(marks: bool, acks: bool, es: seq<Event>)
    ensures var s := Exec(Step, Init(0, marks, acks), es);
            s.pcs == [] && forall k :: 0 <= k < |s.ms| ==> !Own(s.ms[k])
    decreases |es|
  {
    if es != [] { NoConsumer(marks, acks, es[..|es| - 1]); }
  }

  /** One delivery with nothing in between changes the ticket exactly when the task's message is
      still the latest, has no recognisable answer after it, the answer is not blank and the save
      lands; it then appends one answer. */
  lemma DeliveryChangesExactly(s: State, w: nat, t: Task, blank: bool, marked: bool, landing: Landing)
    requires w < |s.pcs| && s.pcs[w] == Idle && t.content != ""
    ensures var u := Exec(Step, s, [Worker(w, Refresh(t)), Worker(w, Save(blank, marked, landing))]);
            && (u.ms != s.ms <==> Target(s.ms, t).Some? && !Answered(s.ms, Target(s.ms, t).value)
                                  && !blank && (landing == Stored || landing == AckLost))
            && (u.ms != s.ms ==> u.ms == s.ms + [Assistant(marked || s.marks, Target(s.ms, t))])
  {
    var es := [Worker(w, Refresh(t)), Worker(w, Save(blank, marked, landing))];
    Run2(Step, s, es);
  }

  // ----- which messages can still be answered, and which look answered -----

  ghost predicate HasAnswer(ms: seq<Msg>, i: nat) {
    exists k :: 0 <= k < |ms| && Own(ms[k]) && ms[k].of.value == i
  }

  ghost predicate AnsweredAfter(s: State, es: seq<Event>, i: nat) { HasAnswer(Exec(Step, s, es).ms, i) }

  ghost predicate BeingSaved(s: State, i: nat) {
    exists w :: 0 <= w < |s.pcs| && s.pcs[w] == Saving(i)
  }

  ghost predicate Open(s: State, i: nat)
    requires i < |s.ms| && s.ms[i].Customer?
  {
    |s.pcs| > 0 && LatestCustomer(s.ms) == Some(i) && s.ms[i].content != "" && !Answered(s.ms, i)
  }

  /** From any state, some continuation gives a customer message an answer of its own if and only if it
      has one, a worker is saving one, or it is still the latest customer message, not blank and
      without a recognisable answer behind it. */
  lemma AnswerableExactly(s: State, i: nat)
    requires i < |s.ms| && s.ms[i].Customer?
    ensures (exists es :: AnsweredAfter(s, es, i)) <==> HasAnswer(s.ms, i) || BeingSaved(s, i) || Open(s, i)
  {
    if HasAnswer(s.ms, i) {
      assert AnsweredAfter(s, [], i);
    } else if BeingSaved(s, i) {
      SavedNext(s, i);
    } else if Open(s, i) {
      AskedAgain(s, i);
    } else {
      forall es ensures !AnsweredAfter(s, es, i) { NeverAnswered(s, es, i); }
    }
  }

  lemma SavedNext(s: State, i: nat)
    requires BeingSaved(s, i)
    ensures exists es :: AnsweredAfter(s, es, i)
  {
    var w :| 0 <= w < |s.pcs| && s.pcs[w] == Saving(i);
    var es := [Worker(w, SAVE)];
    Run1(Step, s, es);
    assert Own(Step(s, es[0]).ms[|s.ms|]);
    assert AnsweredAfter(s, es, i);
  }

  lemma AskedAgain(s: State, i: nat)
    requires i < |s.ms| && s.ms[i].Customer? && Open(s, i)
    ensures exists es :: AnsweredAfter(s, es, i)
  {
    var t := Task(s.ms[i].content, s.ms[i].at);
    var es := [Worker(0, Crash), Worker(0, Refresh(t))];
    var s1 := s.(pcs := s.pcs[0 := Idle]);
    var s2 := s.(pcs := s.pcs[0 := Saving(i)]);
    assert Step(s, es[0]) == s1;
    assert Target(s.ms, t) == Some(i);
    assert Step(s1, es[1]) == s2 by { assert s1.pcs[0 := Saving(i)] == s2.pcs; }
    Run2(Step, s, es);
    assert s2.pcs[0] == Saving(i);
    SavedNext(s2, i);
    var fs :| AnsweredAfter(s2, fs, i);
    Concat(Step, s, es, fs);
    assert AnsweredAfter(s, es + fs, i);
  }

  ghost predicate Closed(s: State, i: nat) {
    i < |s.ms| && s.ms[i].Customer? && !HasAnswer(s.ms, i) && !BeingSaved(s, i) && !Open(s, i)
  }

  /** The ticket only grows, so a message that looks answered goes on doing so. */
  lemma Grows(s: State, e: Event, i: nat)
    ensures s.ms <= Step(s, e).ms
    ensures Answered(s.ms, i) ==> Answered(Step(s, e).ms, i)
  {
    var u := Step(s, e);
    if Answered(s.ms, i) {
      var k :| i < k < |s.ms| && s.ms[k].Assistant? && s.ms[k].marked;
      assert u.ms[k] == s.ms[k];
    }
  }

  lemma ActClosed(ms: seq<Msg>, marks: bool, acks: bool, pc: Pc, a: Action, i: nat)
    requires i < |ms| && ms[i].Customer? && !HasAnswer(ms, i) && pc != Saving(i)
    ensures var (after, q) := Act(ms, marks, acks, pc, a);
            && !HasAnswer(after, i)
            && (q == Saving(i) ==> LatestCustomer(ms) == Some(i) && ms[i].content != "" && !Answered(ms, i))
            && (LatestCustomer(after) == LatestCustomer(ms))
  {
    var after := Act(ms, marks, acks, pc, a).0;
    if after != ms {
      assert after[..|ms|] == ms;
    }
  }

  lemma ClosedStep(s: State, e: Event, i: nat)
    requires Closed(s, i)
    ensures Closed(Step(s, e), i)
  {
    var u := Step(s, e);
    Grows(s, e, i);
    if e.Worker? && e.w < |s.pcs| {
      ActClosed(s.ms, s.marks, s.acks, s.pcs[e.w], e.a, i);
    } else if u.ms != s.ms {
      assert u.ms[..|s.ms|] == s.ms;
    }
  }

  lemma NeverAnswered(s: State, es: seq<Event>, i: nat)
    requires Closed(s, i)
    ensures !AnsweredAfter(s, es, i)
  {
    var inv := (t: State) => Closed(t, i);
    forall t: State, e: Event | inv(t) ensures inv(Step(t, e)) { ClosedStep(t, e, i); }
    Invariant(Step, inv, s, es);
  }

  /** A message without an answer of its own that looks answered, with nobody about to answer it. */
  ghost predicate PassedOver(s: State, i: nat) {
    Unanswered(s.ms, i) && Answered(s.ms, i) && !BeingSaved(s, i)
  }

  predicate Lands(a: Action) { a.Save? && !a.blank && (a.landing == Stored || a.landing == AckLost) }

  /** A recognisable message lands behind message `i` while nobody saves an answer for it: a worker's
      answer for another message, or an assistant message of another writer. */
  ghost predicate Overtakes(s: State, e: Event, i: nat) {
    && !BeingSaved(s, i)
    && if e.Arrives? then e.m.Assistant? && e.m.marked && e.m.of.None?
       else e.w < |s.pcs| && s.pcs[e.w].Saving? && Lands(e.a) && (e.a.marked || s.marks)
  }

  /** The last worker that was to answer a message that already looks answered ends without storing. */
  ghost predicate GivesUp(s: State, e: Event, i: nat) {
    && Answered(s.ms, i) && e.Worker? && e.w < |s.pcs| && s.pcs[e.w] == Saving(i)
    && (forall w :: 0 <= w < |s.pcs| && w != e.w ==> s.pcs[w] != Saving(i))
    && (e.a.Crash? || (e.a.Save? && (e.a.landing == Refused || (e.a.blank && (e.a.landing == Stored || (e.a.landing == AckLost && s.acks))))))
  }

  /** When a message is passed over, step by step: an unanswered message becomes so exactly when it is
      overtaken, or when it was and its last worker gives up. */
  lemma PassedOverExactly(s: State, e: Event, i: nat)
    requires Unanswered(s.ms, i) && !PassedOver(s, i)
    ensures PassedOver(Step(s, e), i) <==> Overtakes(s, e, i) || GivesUp(s, e, i)
  {
    if Answered(s.ms, i) { GivenUpExactly(s, e, i); } else { OvertakenExactly(s, e, i); }
  }

  lemma GivenUpExactly(s: State, e: Event, i: nat)
    requires Unanswered(s.ms, i) && Answered(s.ms, i) && BeingSaved(s, i)
    ensures PassedOver(Step(s, e), i) <==> GivesUp(s, e, i)
  {
    var u := Step(s, e);
    Grows(s, e, i);
    if v :| 0 <= v < |s.pcs| && s.pcs[v] == Saving(i) && !(e.Worker? && e.w == v) {
      assert u.pcs[v] == Saving(i);
    } else if Lands(e.a) {
      assert Own(u.ms[|s.ms|]) && u.ms[|s.ms|].of.value == i;
    } else {
      assert u.ms == s.ms;
      assert BeingSaved(u, i) <==> u.pcs[e.w] == Saving(i);
    }
  }

  lemma OvertakenExactly(s: State, e: Event, i: nat)
    requires Unanswered(s.ms, i) && !Answered(s.ms, i)
    ensures PassedOver(Step(s, e), i) <==> Overtakes(s, e, i)
  {
    var u := Step(s, e);
    Grows(s, e, i);
    if Overtakes(s, e, i) {
      assert u.ms[|s.ms|].Assistant? && u.ms[|s.ms|].marked;
      assert forall w :: 0 <= w < |u.pcs| && u.pcs[w] == Saving(i) ==> s.pcs[w] == Saving(i);
    } else if Answered(u.ms, i) {
      var k :| i < k < |u.ms| && u.ms[k].Assistant? && u.ms[k].marked;
      assert k == |s.ms| by { assert u.ms[..|s.ms|] == s.ms; }
      var w :| 0 <= w < |s.pcs| && s.pcs[w] == Saving(i);
      if e.Worker? && e.w == w {
        assert Own(u.ms[k]) && u.ms[k].of.value == i;
      } else {
        assert u.pcs[w] == Saving(i);
      }
    }
  }

  /** In every reachable state a worker saves for a stored customer message, so what overtakes the
      latest one is an answer to an earlier message: the check and the save of that worker stand on
      two sides of the arrival. */
  lemma OvertakersAreLate(n: nat, marks: bool, acks: bool, es: seq<Event>, w: nat, i: nat)
    ensures var s := Exec(Step, Init(n, marks, acks), es);
            w < |s.pcs| && s.pcs[w].Saving? && s.pcs[w] != Saving(i) && LatestCustomer(s.ms) == Some(i) ==> s.pcs[w].index < i
  {
    var sane := (s: State) => forall v :: 0 <= v < |s.pcs| && s.pcs[v].Saving? ==> s.pcs[v].index < |s.ms| && s.ms[s.pcs[v].index].Customer?;
    Invariant(Step, sane, Init(n, marks, acks), es);
  }

  /** Once a message without an answer of its own has a recognisable one behind it, no delivery ever
      answers it. */
  lemma {:induction false} PassedOverForever(s: State, es: seq<Event>, i: nat)
    requires PassedOver(s, i)
    ensures PassedOver(Exec(Step, s, es), i)
    decreases |es|
  {
    if es != [] {
      PassedOverForever(s, es[..|es| - 1], i);
      var t := Exec(Step, s, es[..|es| - 1]);
      var u := Step(t, es[|es| - 1]);
      var k :| i < k < |t.ms| && t.ms[k].Assistant? && t.ms[k].marked;
      assert u.ms[k] == t.ms[k];
      assert forall w :: 0 <= w < |u.pcs| && u.pcs[w] == Saving(i) ==> t.pcs[w] == Saving(i);
    }
  }

  /** That happens with one consumer: a second message arrives between the check and the save. */
  lemma NewerMessageIsPassedOver(first: Msg, second: Msg, t: Task) returns (es: seq<Event>)
    requires first.Customer? && second.Customer? && t.content != "" && Same(first, t)
    ensures PassedOver(Exec(Step, Init(1, true, true), es), 1)
  {
    es := [Arrives(first), Worker(0, Refresh(t)), Arrives(second), Worker(0, Save(false, true, Stored))];
    var s0 := State([], true, true, [Idle]);
    var s1 := s0.(ms := s0.ms + [first]);
    var s2 := s1.(pcs := [Saving(0)]);
    var s3 := s2.(ms := s2.ms + [second]);
    var s4 := s3.(ms := s3.ms + [Assistant(true, Some(0))], pcs := [Idle]);
    assert LatestCustomer(s1.ms) == Some(0);
    assert Target(s1.ms, t) == Some(0) && !Answered(s1.ms, 0);
    assert Step(s1, es[1]) == s2;
    assert Init(1, true, true) == s0;
    assert Step(s0, es[0]) == s1;
    assert Step(s2, es[2]) == s3;
    assert Step(s3, es[3]) == s4;
    Run4(Step, s0, es);
    assert s4.ms[2].Assistant? && s4.ms[2].marked;
  }

  // ----- the delivery as the worker performs it -----

  /** What one repository call saves and whether it gives up, when attempt `i` ends as `landings[i]`. */
  function Tries(ms: seq<Msg>, index: nat, blank: bool, marked: bool, landings: seq<Landing>): (seq<Msg>, bool)
    decreases |landings|
  {
    if landings == [] then (ms, true)
    else
      var stored := !blank && (landings[0] == Stored || landings[0] == AckLost);
      var after := if stored then ms + [Assistant(marked, Some(index))] else ms;
      if landings[0] == Stored then (after, false)
      else if landings[0] == Refused then (after, true)
      else Tries(after, index, blank, marked, landings[1..])
  }

  /** Attempt `e` is the first that is stored or refused, or there is none. */
  ghost predicate LastTry(landings: seq<Landing>, e: nat) {
    && e <= |landings|
    && (forall k :: 0 <= k < e ==> landings[k] == AckLost || landings[k] == Unstored)
    && (e < |landings| ==> landings[e] == Stored || landings[e] == Refused)
  }

  /** How many of the attempts up to this one landed. */
  function Landed(landings: seq<Landing>, e: nat): nat
    requires e <= |landings|
    decreases |landings|
  {
    if landings == [] then 0
    else if e == 0 then if landings[0] == Stored then 1 else 0
    else (if landings[0] == AckLost then 1 else 0) + Landed(landings[1..], e - 1)
  }

  lemma {:induction false} TriesSay(ms: seq<Msg>, index: nat, blank: bool, marked: bool, landings: seq<Landing>, e: nat)
    requires LastTry(landings, e)
    ensures var (after, raised) := Tries(ms, index, blank, marked, landings);
            && raised == (e == |landings| || landings[e] == Refused)
            && after == ms + if blank then [] else seq(Landed(landings, e), i => Assistant(marked, Some(index)))
    decreases |landings|
  {
    if landings != [] && e > 0 {
      var m := Assistant(marked, Some(index));
      var stored := !blank && landings[0] == AckLost;
      var next := if stored then ms + [m] else ms;
      assert LastTry(landings[1..], e - 1);
      TriesSay(next, index, blank, marked, landings[1..], e - 1);
      var n := Landed(landings[1..], e - 1);
      assert [m] + seq(n, i => m) == seq(n + 1, i => m);
      assert ms + [m] + seq(n, i => m) == ms + ([m] + seq(n, i => m));
    }
  }

  lemma {:induction false} TriesAppend(ms: seq<Msg>, index: nat, blank: bool, marked: bool, landings: seq<Landing>)
    ensures var after := Tries(ms, index, blank, marked, landings).0;
            ms <= after && forall k :: |ms| <= k < |after| ==> after[k] == Assistant(marked, Some(index))
    decreases |landings|
  {
    if landings != [] {
      var stored := !blank && (landings[0] == Stored || landings[0] == AckLost);
      TriesAppend(if stored then ms + [Assistant(marked, Some(index))] else ms, index, blank, marked, landings[1..]);
    }
  }

  class Ticket {
    var messages: seq<Msg>

    constructor ()
      ensures messages == []
    {
      messages := [];
    }

    /** The save inside its retry loop. */
    method Persist(index: nat, blank: bool, marked: bool, landings: seq<Landing>) returns (raised: bool)
      modifies this
      ensures (messages, raised) == Tries(old(messages), index, blank, marked, landings)
      // the attempts up to the first that is stored or refused; one answer per attempt that landed
      ensures forall e: nat :: LastTry(landings, e) ==>
                && raised == (e == |landings| || landings[e] == Refused)
                && messages == old(messages) + if blank then [] else seq(Landed(landings, e), i => Assistant(marked, Some(index)))
    {
      forall e: nat | LastTry(landings, e) { TriesSay(messages, index, blank, marked, landings, e); }
      for k := 0 to |landings|
        invariant Tries(messages, index, blank, marked, landings[k..]) == Tries(old(messages), index, blank, marked, landings)
      {
        assert landings[k..][1..] == landings[k + 1..];
        if !blank && (landings[k] == Stored || landings[k] == AckLost) {
          messages := messages + [Assistant(marked, Some(index))];
        }
        if landings[k] == Stored {
          return false;
        }
        if landings[k] == Refused {
          return true;
        }
      }
      return true;
    }

    /** Processes one task; `raised` tells whether the storage error left the call. */
    method Process(t: Task, cancelled: bool, blank: bool, marked: bool, landings: seq<Landing>) returns (raised: bool)
      modifies this
      ensures var i := Target(old(messages), t);
              (messages, raised) ==
                if cancelled || t.content == "" || i.None? || Answered(old(messages), i.value) then (old(messages), false)
                else Tries(old(messages), i.value, blank, marked, landings)
      ensures cancelled || t.content == "" || (forall i: nat :: IsLatest(old(messages), i) ==> !About(old(messages)[i], t)) ==>
                messages == old(messages) && !raised
      ensures forall i, k :: IsLatest(old(messages), i) && i < k < |old(messages)| && old(messages)[k].Assistant? && old(messages)[k].marked ==>
                messages == old(messages) && !raised
      ensures old(messages) <= messages
      ensures forall k :: |old(messages)| <= k < |messages| ==>
                messages[k].Assistant? && messages[k].marked == marked && messages[k].of.Some? && IsLatest(old(messages), messages[k].of.value)
    {
      if Target(messages, t).Some? { TriesAppend(messages, Target(messages, t).value, blank, marked, landings); }
      if cancelled || t.content == "" {
        return false;
      }
      var target := FindLatestCustomer(messages, t);
      if target.None? {
        return false;
      }
      var existing := FindExistingResponse(messages, t);
      if existing.Some? {
        return false;
      }
      raised := Persist(target.value, blank, marked, landings);
    }
  }

  /** A repository call's attempts as events of the protocol. */
  function Attempts(w: nat, blank: bool, marked: bool, landings: seq<Landing>): seq<Event>
    decreases |landings|
  {
    if landings == [] then [] else [Worker(w, Save(blank, marked, landings[0]))] + Attempts(w, blank, marked, landings[1..])
  }

  lemma {:induction false} IdleAttempts(s: State, w: nat, blank: bool, marked: bool, landings: seq<Landing>)
    requires w < |s.pcs| && s.pcs[w] == Idle
    ensures Exec(Step, s, Attempts(w, blank, marked, landings)) == s
    decreases |landings|
  {
    if landings != [] {
      First(Step, s, Worker(w, Save(blank, marked, landings[0])), Attempts(w, blank, marked, landings[1..]));
      assert Step(s, Worker(w, Save(blank, marked, landings[0]))) == s;
      IdleAttempts(s, w, blank, marked, landings[1..]);
    }
  }

  /** The retry loop is a run of the protocol: what it saves is what its attempts save as events. */
  lemma {:induction false} TriesAreARun(s: State, w: nat, i: nat, blank: bool, marked: bool, landings: seq<Landing>)
    requires w < |s.pcs| && s.pcs[w] == Saving(i) && !s.marks && !s.acks
    ensures Exec(Step, s, Attempts(w, blank, marked, landings)).ms == Tries(s.ms, i, blank, marked, landings).0
    decreases |landings|
  {
    if landings != [] {
      var e := Worker(w, Save(blank, marked, landings[0]));
      First(Step, s, e, Attempts(w, blank, marked, landings[1..]));
      if landings[0] == Stored || landings[0] == Refused {
        IdleAttempts(Step(s, e), w, blank, marked, landings[1..]);
      } else {
        TriesAreARun(Step(s, e), w, i, blank, marked, landings[1..]);
      }
    }
  }

  // ----- bounded retries of a task -----

  /** How one run of a task ends: done or failed for good, or a storage error whose requeue worked or not. */
  datatype Fate = Finished | StorageError(requeued: bool)

  /** How often the task runs, from a given retry count, when run `i` ends with `fates[i]`. */
  function Runs(max: nat, count: nat, fates: seq<Fate>): nat
    decreases |fates|
  {
    if fates == [] then 0
    else 1 + if fates[0].StorageError? && count < max && fates[0].requeued then Runs(max, count + 1, fates[1..]) else 0
  }

  /** How long its retries sleep in total; the sleep comes before the requeue. */
  function Backoff(base: real, max: nat, count: nat, fates: seq<Fate>): real
    decreases |fates|
  {
    if fates == [] || !fates[0].StorageError? || count >= max then 0.0
    else base * (count + 1) as real + if fates[0].requeued then Backoff(base, max, count + 1, fates[1..]) else 0.0
  }

  /** Runs `count` to `max - 1` all meet a storage error and are requeued. */
  ghost predicate AllRequeued(max: nat, count: nat, fates: seq<Fate>)
    requires count <= max
  {
    max - count <= |fates| && forall i :: 0 <= i < max - count ==> fates[i] == StorageError(true)
  }

  lemma AllRequeuedNext(max: nat, count: nat, fates: seq<Fate>)
    requires count < max && fates != []
    ensures AllRequeued(max, count, fates) <==> fates[0] == StorageError(true) && AllRequeued(max, count + 1, fates[1..])
  {
    if fates[0] == StorageError(true) && AllRequeued(max, count + 1, fates[1..]) {
      forall i | 0 <= i < max - count ensures fates[i] == StorageError(true) {
        if i > 0 { assert fates[i] == fates[1..][i - 1]; }
      }
    }
  }

  lemma {:induction false} RunsFrom(max: nat, count: nat, fates: seq<Fate>)
    requires count <= max
    ensures Runs(max, count, fates) <= max - count + 1
    ensures Runs(max, count, fates) == max - count + 1 <==> |fates| > max - count && AllRequeued(max, count, fates)
    decreases |fates|
  {
    if fates != [] && count < max {
      AllRequeuedNext(max, count, fates);
      RunsFrom(max, count + 1, fates[1..]);
    }
  }

  /** A task runs at most max + 1 times, and exactly that often when every earlier run meets a
      storage error and is requeued. */
  lemma TaskRuns(max: nat, fates: seq<Fate>)
    ensures Runs(max, 0, fates) <= max + 1
    ensures Runs(max, 0, fates) == max + 1 <==> |fates| > max && AllRequeued(max, 0, fates)
  {
    RunsFrom(max, 0, fates);
  }

  /** The task sleeps behind its first `k` runs: they all meet a storage error, all but the last are requeued,
      and then the retries are used up, the requeue failed, the next run ended otherwise, or nothing followed. */
  ghost predicate Sleeps(max: nat, fates: seq<Fate>, k: nat) {
    && k <= |fates| && k <= max
    && (forall i :: 0 <= i < k ==> fates[i].StorageError? && (i < k - 1 ==> fates[i].requeued))
    && (k == max || k == |fates| || (k > 0 && !fates[k - 1].requeued) || fates[k].Finished?)
  }

  /** 1 + 2 + ... + n. */
  function Triangle(n: nat): nat { if n == 0 then 0 else n + Triangle(n - 1) }

  lemma {:induction false} TriangleClosed(n: nat)
    ensures 2 * Triangle(n) == n * (n + 1)
  {
    if n > 0 {
      TriangleClosed(n - 1);
      assert n * (n + 1) == (n - 1) * n + 2 * n;
    }
  }

  lemma {:induction false} TriangleGrows(a: nat, b: nat)
    requires a <= b
    ensures Triangle(a) <= Triangle(b)
    decreases b
  {
    if a < b { TriangleGrows(a, b - 1); }
  }

  /** The backoff in units of the base delay. */
  function Units(max: nat, count: nat, fates: seq<Fate>): nat
    decreases |fates|
  {
    if fates == [] || !fates[0].StorageError? || count >= max then 0
    else count + 1 + if fates[0].requeued then Units(max, count + 1, fates[1..]) else 0
  }

  lemma {:induction false} UnitsFrom(max: nat, count: nat, fates: seq<Fate>)
    requires count <= max
    ensures Units(max, count, fates) <= Triangle(max) - Triangle(count)
    ensures AllRequeued(max, count, fates) ==> Units(max, count, fates) == Triangle(max) - Triangle(count)
    decreases |fates|
  {
    TriangleGrows(count, max);
    if fates != [] && count < max {
      AllRequeuedNext(max, count, fates);
      TriangleGrows(count + 1, max);
      UnitsFrom(max, count + 1, fates[1..]);
    }
  }

  lemma {:induction false} UnitsExactly(max: nat, count: nat, fates: seq<Fate>, k: nat)
    requires count <= max && Sleeps(max - count, fates, k)
    ensures Units(max, count, fates) == Triangle(count + k) - Triangle(count)
    decreases |fates|
  {
    if k > 0 && fates[0].requeued {
      assert Sleeps(max - (count + 1), fates[1..], k - 1);
      UnitsExactly(max, count + 1, fates[1..], k - 1);
    } else if k > 0 {
      assert k == 1;
    }
  }

  lemma {:induction false} RunsExactly(max: nat, count: nat, fates: seq<Fate>, k: nat)
    requires count <= max && Sleeps(max - count, fates, k)
    ensures Runs(max, count, fates) == if k < |fates| && (k == 0 || fates[k - 1].requeued) then k + 1 else k
    decreases |fates|
  {
    if k > 0 && fates[0].requeued {
      assert Sleeps(max - (count + 1), fates[1..], k - 1);
      RunsExactly(max, count + 1, fates[1..], k - 1);
    } else if k > 0 {
      assert k == 1;
    }
  }

  lemma SleepsFor(max: nat, fates: seq<Fate>, k: nat)
    requires Sleeps(max, fates, k)
    ensures Units(max, 0, fates) == Triangle(k)
    ensures Runs(max, 0, fates) == if k < |fates| && (k == 0 || fates[k - 1].requeued) then k + 1 else k
  {
    UnitsExactly(max, 0, fates, k);
    RunsExactly(max, 0, fates, k);
  }

  /** Exactly: a task that sleeps behind its first `k` runs waits 1 + 2 + ... + k base delays, whether the last
      requeue works or not, and runs once more if it does. */
  lemma TaskStops(base: real, max: nat, fates: seq<Fate>, k: nat)
    requires Sleeps(max, fates, k)
    ensures Delay(base, max, fates) == Times(base, Triangle(k))
    ensures Runs(max, 0, fates) == if k < |fates| && (k == 0 || fates[k - 1].requeued) then k + 1 else k
  {
    SleepsFor(max, fates, k);
    DelayInUnits(base, max, fates);
  }

  /** A task's whole backoff, and a number of base delays. */
  function Delay(base: real, max: nat, fates: seq<Fate>): real { Backoff(base, max, 0, fates) }
  function Times(base: real, n: nat): real { base * n as real }

  lemma DelayInUnits(base: real, max: nat, fates: seq<Fate>)
    ensures Delay(base, max, fates) == Times(base, Units(max, 0, fates))
  {
    BackoffInUnits(base, max, 0, fates);
  }

  lemma {:induction false} BackoffInUnits(base: real, max: nat, count: nat, fates: seq<Fate>)
    ensures Backoff(base, max, count, fates) == base * Units(max, count, fates) as real
    decreases |fates|
  {
    if fates != [] && fates[0].StorageError? && count < max && fates[0].requeued {
      BackoffInUnits(base, max, count + 1, fates[1..]);
      Distribute(base, count + 1, Units(max, count + 1, fates[1..]));
    }
  }

  lemma Distribute(base: real, a: nat, b: nat)
    ensures base * a as real + base * b as real == base * (a + b) as real
  {
    assert (a + b) as real == a as real + b as real;
  }

  /** The total backoff of one task is a number of base delays, at most max * (max + 1) / 2 of them, and
      exactly that many when every retry is used. */
  lemma TaskBackoff(base: real, max: nat, fates: seq<Fate>)
    ensures Backoff(base, max, 0, fates) == base * Units(max, 0, fates) as real
    ensures 2 * Units(max, 0, fates) <= max * (max + 1)
    ensures AllRequeued(max, 0, fates) ==> 2 * Units(max, 0, fates) == max * (max + 1)
  {
    TriangleClosed(max);
    UnitsFrom(max, 0, fates);
    BackoffInUnits(base, max, 0, fates);
  }
}
