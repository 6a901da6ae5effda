/** Which part of an internal reply is newly written, and whether it says "done".

    The regular expressions are fields of a classifier; the scans around them are the code's. */
module ReplySegment {
  import opened Machines

  /** `marker`: a quoting line, an original or forwarded message marker, or an "On ... wrote:" line.
      `header`: the label, in lower case, of a mail header line. `inline`: what stands before an
      inline From header with an address. */
  datatype Classifier = Classifier(
    blank: string -> bool,
    marker: string -> bool,
    header: string -> Option<string>,
    inline: string -> Option<string>,
    finish: seq<string> -> string,
    clauses: string -> seq<Clause>)

  datatype Clause = Clause(revoked: bool, positive: bool, question: bool, negative: bool)

  /** A marker line is neither blank nor a header line, and a header line is not blank. */
  ghost predicate Sound(c: Classifier) {
    && (forall l :: c.marker(l) ==> !c.blank(l) && c.header(l).None?)
    && (forall l :: c.header(l).Some? ==> !c.blank(l))
  }

  // ----- the scans -----

  /** The lookahead from a header line: did three different labels come, did another line end it, or
      did the lines run out? */
  datatype Lookahead = Three | Ended | RanOut

  function Ahead(c: Classifier, lines: seq<string>, seen: set<string>): Lookahead
    decreases |lines|
  {
    if lines == [] then RanOut
    else if c.blank(lines[0]) then Ahead(c, lines[1..], seen)
    else if c.header(lines[0]).None? then Ended
    else if |seen + {c.header(lines[0]).value}| >= 3 then Three
    else Ahead(c, lines[1..], seen + {c.header(lines[0]).value})
  }

  predicate HeaderBlock(c: Classifier, lines: seq<string>) {
    lines != [] && c.header(lines[0]).Some? && Ahead(c, lines, {}) == Three
  }

  /** The kept lines. */
  function Scan(c: Classifier, lines: seq<string>): seq<string>
    decreases |lines|
  {
    if lines == [] || c.marker(lines[0]) || HeaderBlock(c, lines) then []
    else if c.inline(lines[0]).Some? then [c.inline(lines[0]).value]
    else [lines[0]] + Scan(c, lines[1..])
  }

  method LookAhead(c: Classifier, lines: seq<string>, index: nat) returns (three: bool)
    requires index <= |lines|
    ensures three <==> Ahead(c, lines[index..], {}) == Three
  {
    var headers: set<string> := {};
    for i := index to |lines|
      invariant |headers| < 3
      invariant Ahead(c, lines[index..], {}) == Ahead(c, lines[i..], headers)
    {
      assert lines[i..][1..] == lines[i + 1..];
      if c.blank(lines[i]) {
        continue;
      }
      var header := c.header(lines[i]);
      if header.None? {
        return false;
      }
      headers := headers + {header.value};
      if |headers| >= 3 {
        return true;
      }
    }
    return false;
  }

  method UnquotedSegment(c: Classifier, lines: seq<string>) returns (kept: seq<string>)
    ensures kept == Scan(c, lines)
  {
    kept := [];
    for index := 0 to |lines|
      invariant kept + Scan(c, lines[index..]) == Scan(c, lines)
    {
      assert lines[index..][1..] == lines[index + 1..];
      var line := lines[index];
      if c.marker(line) {
        break;
      }
      if c.header(line).Some? {
        var three := LookAhead(c, lines, index);
        if three {
          break;
        }
      }
      if c.inline(line).Some? {
        kept := kept + [c.inline(line).value];
        return;
      }
      kept := kept + [line];
    }
  }

  // ----- what is kept -----

  function Labels(c: Classifier, lines: seq<string>): set<string> {
    set j | 0 <= j < |lines| && !c.blank(lines[j]) && c.header(lines[j]).Some? :: c.header(lines[j]).value
  }

  /** Nothing but header and blank lines. */
  ghost predicate Plain(c: Classifier, lines: seq<string>) {
    forall j :: 0 <= j < |lines| ==> c.blank(lines[j]) || c.header(lines[j]).Some?
  }

  /** From a header line on, header and blank lines alone carry three different labels. */
  ghost predicate ThreeLabels(c: Classifier, lines: seq<string>) {
    lines != [] && c.header(lines[0]).Some?
    && exists n :: 0 <= n <= |lines| && |Labels(c, lines[..n])| >= 3 && Plain(c, lines[..n])
  }

  lemma LabelsFirst(c: Classifier, lines: seq<string>, n: nat)
    requires 0 < n <= |lines|
    ensures Labels(c, lines[..n]) ==
              (if c.blank(lines[0]) || c.header(lines[0]).None? then {} else {c.header(lines[0]).value}) + Labels(c, lines[1..][..n - 1])
  {
    var rest := lines[1..][..n - 1];
    assert forall j :: 0 <= j < n - 1 ==> rest[j] == lines[..n][j + 1];
    forall x | x in Labels(c, lines[..n])
      ensures x in (if c.blank(lines[0]) || c.header(lines[0]).None? then {} else {c.header(lines[0]).value}) + Labels(c, rest)
    {
      var j :| 0 <= j < n && !c.blank(lines[..n][j]) && c.header(lines[..n][j]) == Some(x);
      if j > 0 { assert rest[j - 1] == lines[j]; }
    }
    forall x | x in Labels(c, rest) ensures x in Labels(c, lines[..n]) {
      var j :| 0 <= j < n - 1 && !c.blank(rest[j]) && c.header(rest[j]) == Some(x);
      assert lines[..n][j + 1] == rest[j];
    }
    if !c.blank(lines[0]) && c.header(lines[0]).Some? { assert lines[..n][0] == lines[0]; }
  }

  ghost predicate Reaches(c: Classifier, lines: seq<string>, seen: set<string>, n: nat) {
    n <= |lines| && |seen + Labels(c, lines[..n])| >= 3 && Plain(c, lines[..n])
  }

  /** The labels a lookahead has seen after one more line. */
  function More(c: Classifier, line: string, seen: set<string>): set<string> {
    if c.blank(line) || c.header(line).None? then seen else seen + {c.header(line).value}
  }

  lemma ReachesNext(c: Classifier, lines: seq<string>, seen: set<string>, n: nat)
    requires 0 < n <= |lines| && (c.blank(lines[0]) || c.header(lines[0]).Some?)
    ensures Reaches(c, lines, seen, n) <==> Reaches(c, lines[1..], More(c, lines[0], seen), n - 1)
  {
    LabelsFirst(c, lines, n);
    var front, rest := lines[..n], lines[1..][..n - 1];
    assert front == [lines[0]] + rest;
    assert seen + Labels(c, front) == More(c, lines[0], seen) + Labels(c, rest);
    PlainCons(c, lines[0], rest);
  }

  lemma PlainCons(c: Classifier, line: string, rest: seq<string>)
    requires c.blank(line) || c.header(line).Some?
    ensures Plain(c, [line] + rest) <==> Plain(c, rest)
  {
    if Plain(c, [line] + rest) {
      forall j | 0 <= j < |rest| ensures c.blank(rest[j]) || c.header(rest[j]).Some? { assert rest[j] == ([line] + rest)[j + 1]; }
    }
  }

  lemma ReachesNow(c: Classifier, lines: seq<string>, seen: set<string>)
    ensures Reaches(c, lines, seen, 0) <==> |seen| >= 3
  {
    assert seen + Labels(c, lines[..0]) == seen;
  }

  ghost predicate ReachesThree(c: Classifier, lines: seq<string>, seen: set<string>) { exists n :: Reaches(c, lines, seen, n) }

  lemma PassesFirst(c: Classifier, lines: seq<string>, seen: set<string>, n: nat)
    requires |seen| < 3 && Reaches(c, lines, seen, n)
    ensures 0 < n <= |lines| && (c.blank(lines[0]) || c.header(lines[0]).Some?)
  {
    ReachesNow(c, lines, seen);
    assert lines[..n][0] == lines[0];
  }

  lemma ReachesStep(c: Classifier, lines: seq<string>, seen: set<string>)
    requires lines != [] && |seen| < 3
    ensures ReachesThree(c, lines, seen) ==>
              (c.blank(lines[0]) || c.header(lines[0]).Some?) && ReachesThree(c, lines[1..], More(c, lines[0], seen))
  {
    if ReachesThree(c, lines, seen) {
      var n: nat :| Reaches(c, lines, seen, n);
      PassesFirst(c, lines, seen, n);
      ReachesNext(c, lines, seen, n);
    }
  }

  lemma ReachesBack(c: Classifier, lines: seq<string>, seen: set<string>)
    requires lines != [] && (c.blank(lines[0]) || c.header(lines[0]).Some?)
    ensures ReachesThree(c, lines[1..], More(c, lines[0], seen)) ==> ReachesThree(c, lines, seen)
  {
    if ReachesThree(c, lines[1..], More(c, lines[0], seen)) {
      var m: nat :| Reaches(c, lines[1..], More(c, lines[0], seen), m);
      assert m + 1 <= |lines|;
      ReachesNext(c, lines, seen, m + 1);
    }
  }

  lemma AheadStep(c: Classifier, lines: seq<string>, seen: set<string>)
    requires lines != [] && |seen| < 3
    ensures Ahead(c, lines, seen) == Three <==>
              && (c.blank(lines[0]) || c.header(lines[0]).Some?)
              && (|More(c, lines[0], seen)| >= 3 || Ahead(c, lines[1..], More(c, lines[0], seen)) == Three)
  {
  }

  lemma {:induction false} AheadMeans(c: Classifier, lines: seq<string>, seen: set<string>)
    requires |seen| < 3
    ensures Ahead(c, lines, seen) == Three <==> ReachesThree(c, lines, seen)
    decreases |lines|
  {
    if lines == [] {
      ReachesNow(c, lines, seen);
    } else {
      var more := More(c, lines[0], seen);
      AheadStep(c, lines, seen);
      ReachesStep(c, lines, seen);
      if c.blank(lines[0]) || c.header(lines[0]).Some? { ReachesBack(c, lines, seen); }
      ReachesNow(c, lines[1..], more);
      if |more| < 3 { AheadMeans(c, lines[1..], more); }
    }
  }

  lemma HeaderBlockMeans(c: Classifier, lines: seq<string>)
    ensures HeaderBlock(c, lines) <==> ThreeLabels(c, lines)
  {
    if lines != [] && c.header(lines[0]).Some? {
      AheadMeans(c, lines, {});
      forall n: nat | n <= |lines| ensures {} + Labels(c, lines[..n]) == Labels(c, lines[..n]) {}
      if ThreeLabels(c, lines) {
        var n :| 0 <= n <= |lines| && |Labels(c, lines[..n])| >= 3 && Plain(c, lines[..n]);
        assert Reaches(c, lines, {}, n);
      }
      if n: nat :| Reaches(c, lines, {}, n) { assert |Labels(c, lines[..n])| >= 3; }
    }
  }

  /** Line `k` is the first that cuts. */
  ghost predicate IsCut(c: Classifier, lines: seq<string>, k: nat) {
    && k <= |lines|
    && (forall j :: 0 <= j < k ==> !c.marker(lines[j]) && !ThreeLabels(c, lines[j..]) && c.inline(lines[j]).None?)
    && (k < |lines| ==> c.marker(lines[k]) || ThreeLabels(c, lines[k..]) || c.inline(lines[k]).Some?)
  }

  /** Kept are the lines before the first that cuts, and of a line with an inline header alone what stands
      before the header. */
  lemma {:induction false} KeptExactly(c: Classifier, lines: seq<string>) returns (k: nat)
    ensures IsCut(c, lines, k)
    ensures Scan(c, lines) == lines[..k] + if k == |lines| || c.marker(lines[k]) || ThreeLabels(c, lines[k..]) then [] else [c.inline(lines[k]).value]
    decreases |lines|
  {
    HeaderBlockMeans(c, lines);
    assert lines[0..] == lines;
    if lines == [] || c.marker(lines[0]) || HeaderBlock(c, lines) || c.inline(lines[0]).Some? {
      k := 0;
    } else {
      var m := KeptExactly(c, lines[1..]);
      k := m + 1;
      forall j | 1 <= j <= |lines| ensures lines[j..] == lines[1..][j - 1..] && (j < |lines| ==> lines[j] == lines[1..][j - 1]) {}
      assert lines[..k] == [lines[0]] + lines[1..][..m];
    }
  }

  // ----- when the rest of the mail does not matter -----

  /** The scan stops inside these lines, and no lookahead it makes runs off their end. */
  predicate Settled(c: Classifier, p: seq<string>)
    decreases |p|
  {
    if p == [] then false
    else if c.marker(p[0]) then true
    else if c.header(p[0]).Some? && Ahead(c, p, {}) == Three then true
    else if c.header(p[0]).Some? && Ahead(c, p, {}) == RanOut then false
    else c.inline(p[0]).Some? || Settled(c, p[1..])
  }

  lemma {:induction false} AheadExtends(c: Classifier, p: seq<string>, x: seq<string>, seen: set<string>)
    ensures Ahead(c, p, seen) != RanOut ==> Ahead(c, p + x, seen) == Ahead(c, p, seen)
    decreases |p|
  {
    if p != [] {
      assert (p + x)[1..] == p[1..] + x;
      AheadExtends(c, p[1..], x, seen);
      if c.header(p[0]).Some? { AheadExtends(c, p[1..], x, seen + {c.header(p[0]).value}); }
    }
  }

  lemma {:induction false} SettledSuffices(c: Classifier, p: seq<string>, x: seq<string>)
    requires Settled(c, p)
    ensures Scan(c, p + x) == Scan(c, p)
    decreases |p|
  {
    assert (p + x)[1..] == p[1..] + x;
    AheadExtends(c, p, x, {});
    if !c.marker(p[0]) && !HeaderBlock(c, p) && c.inline(p[0]).None? {
      SettledSuffices(c, p[1..], x);
    }
  }

  /** Lines that tell two continuations apart: an ordinary one and three headers with different labels. */
  ghost predicate Telling(c: Classifier, plain: string, hs: seq<string>) {
    && !c.marker(plain) && c.header(plain).None? && c.inline(plain).None?
    && |hs| == 3 && (forall i :: 0 <= i < 3 ==> c.header(hs[i]).Some?)
    && c.header(hs[0]) != c.header(hs[1]) && c.header(hs[0]) != c.header(hs[2]) && c.header(hs[1]) != c.header(hs[2])
  }

  lemma OneMore(seen: set<string>, k: string)
    ensures |seen + {k}| == |seen| + if k in seen then 0 else 1
  {
    if k in seen { assert seen + {k} == seen; }
  }

  lemma ThreeHeaders(c: Classifier, hs: seq<string>, seen: set<string>)
    requires Sound(c) && |hs| == 3 && |seen| < 3 && forall i :: 0 <= i < 3 ==> c.header(hs[i]).Some?
    requires c.header(hs[0]) != c.header(hs[1]) && c.header(hs[0]) != c.header(hs[2]) && c.header(hs[1]) != c.header(hs[2])
    ensures Ahead(c, hs, seen) == Three
  {
    var a, b, d := c.header(hs[0]).value, c.header(hs[1]).value, c.header(hs[2]).value;
    var s2 := seen + {a} + {b};
    OneMore({a}, b);
    OneMore({a} + {b}, d);
    AtLeast({a} + {b} + {d}, s2 + {d});
    assert hs == [hs[0]] + ([hs[1]] + ([hs[2]] + []));
    AheadHeader(c, hs[2], [], s2);
    AheadHeader(c, hs[1], [hs[2]] + [], seen + {a});
    AheadHeader(c, hs[0], [hs[1]] + ([hs[2]] + []), seen);
  }

  lemma AheadHeader(c: Classifier, h: string, rest: seq<string>, seen: set<string>)
    requires Sound(c) && c.header(h).Some?
    ensures var more := seen + {c.header(h).value};
            Ahead(c, [h] + rest, seen) == if |more| >= 3 then Three else Ahead(c, rest, more)
  {
    assert ([h] + rest)[1..] == rest;
  }

  lemma AtLeast(x: set<string>, y: set<string>)
    requires x <= y
    ensures |x| <= |y|
  {
    assert y == x + (y - x);
  }

  lemma {:induction false} RanOutEitherWay(c: Classifier, p: seq<string>, plain: string, hs: seq<string>, seen: set<string>)
    requires Sound(c) && Telling(c, plain, hs) && |seen| < 3 && Ahead(c, p, seen) == RanOut
    ensures Ahead(c, p + hs, seen) == Three && Ahead(c, p + [plain], seen) != Three
    decreases |p|
  {
    if p == [] {
      assert p + hs == hs && p + [plain] == [plain];
      ThreeHeaders(c, hs, seen);
    } else {
      assert (p + hs)[1..] == p[1..] + hs && (p + [plain])[1..] == p[1..] + [plain];
      RanOutEitherWay(c, p[1..], plain, hs, if c.blank(p[0]) then seen else seen + {c.header(p[0]).value});
    }
  }

  /** The scan keeps a first line that is nothing special, whatever follows. */
  lemma KeepsFirst(c: Classifier, p: seq<string>, x: seq<string>)
    requires p != [] && !c.marker(p[0]) && c.inline(p[0]).None? && (c.header(p[0]).Some? ==> Ahead(c, p, {}) == Ended)
    ensures Scan(c, p + x) == [p[0]] + Scan(c, p[1..] + x)
  {
    assert (p + x)[1..] == p[1..] + x;
    AheadExtends(c, p, x, {});
  }

  lemma {:induction false} UnsettledTells(c: Classifier, p: seq<string>, plain: string, hs: seq<string>) returns (x: seq<string>)
    requires Sound(c) && Telling(c, plain, hs) && !Settled(c, p)
    ensures Scan(c, p + x) != Scan(c, p + [plain])
    decreases |p|
  {
    if p == [] {
      x := [];
      assert p + [plain] == [plain];
    } else if c.header(p[0]).Some? && Ahead(c, p, {}) == RanOut {
      x := hs;
      RanOutEitherWay(c, p, plain, hs, {});
    } else {
      x := UnsettledTells(c, p[1..], plain, hs);
      KeepsFirst(c, p, x);
      KeepsFirst(c, p, [plain]);
      assert Scan(c, p + x)[1..] != Scan(c, p + [plain])[1..];
    }
  }

  /** Exactly when quoted history cannot matter: replacing everything after `p` never changes the
      kept lines if and only if the scan settles inside `p`. */
  lemma HistoryIsIgnoredExactly(c: Classifier, p: seq<string>, plain: string, hs: seq<string>)
    requires Sound(c) && Telling(c, plain, hs)
    ensures (forall a, b :: Scan(c, p + a) == Scan(c, p + b)) <==> Settled(c, p)
  {
    if Settled(c, p) {
      forall a, b ensures Scan(c, p + a) == Scan(c, p + b) {
        SettledSuffices(c, p, a);
        SettledSuffices(c, p, b);
      }
    } else {
      var x := UnsettledTells(c, p, plain, hs);
    }
  }

  // ----- which marks settle it -----

  lemma {:induction false} AheadStopsAt(c: Classifier, q: seq<string>, m: string, seen: set<string>)
    requires !c.blank(m) && c.header(m).None?
    ensures Ahead(c, q + [m], seen) != RanOut
    decreases |q|
  {
    if q != [] {
      assert (q + [m])[1..] == q[1..] + [m];
      AheadStopsAt(c, q[1..], m, seen);
      if c.header(q[0]).Some? { AheadStopsAt(c, q[1..], m, seen + {c.header(q[0]).value}); }
    }
  }

  /** A marker settles it whatever stands before: no header lookahead crosses a marker. */
  lemma {:induction false} MarkerSettles(c: Classifier, q: seq<string>, m: string)
    requires Sound(c) && c.marker(m)
    ensures Settled(c, q + [m])
    decreases |q|
  {
    if q != [] {
      assert (q + [m])[1..] == q[1..] + [m];
      AheadStopsAt(c, q, m, {});
      MarkerSettles(c, q[1..], m);
    }
  }

  lemma {:induction false} AheadGrows(c: Classifier, p: seq<string>, small: set<string>, large: set<string>)
    requires small <= large && |large| < 3 && Ahead(c, p, small) == Three
    ensures Ahead(c, p, large) == Three
    decreases |p|
  {
    if !c.blank(p[0]) {
      var k := c.header(p[0]).value;
      AtLeast(small + {k}, large + {k});
      if |large + {k}| < 3 { AheadGrows(c, p[1..], small + {k}, large + {k}); }
    } else {
      AheadGrows(c, p[1..], small, large);
    }
  }

  lemma {:induction false} AheadReaches(c: Classifier, q: seq<string>, run: seq<string>, seen: set<string>)
    requires |seen| < 3 && Ahead(c, run, {}) == Three
    ensures Ahead(c, q + run, seen) != RanOut
    decreases |q|
  {
    if q == [] {
      assert q + run == run;
      AheadGrows(c, run, {}, seen);
    } else {
      assert (q + run)[1..] == q[1..] + run;
      AheadReaches(c, q[1..], run, seen);
      if c.header(q[0]).Some? && |seen + {c.header(q[0]).value}| < 3 {
        AheadReaches(c, q[1..], run, seen + {c.header(q[0]).value});
      }
    }
  }

  /** So does a run of header lines with three different labels, blank lines allowed. */
  lemma {:induction false} HeaderRunSettles(c: Classifier, q: seq<string>, run: seq<string>)
    requires HeaderBlock(c, run)
    ensures Settled(c, q + run)
    decreases |q|
  {
    if q == [] {
      assert q + run == run;
    } else {
      assert (q + run)[1..] == q[1..] + run;
      AheadReaches(c, q, run, {});
      HeaderRunSettles(c, q[1..], run);
    }
  }

  /** A lone From header does not, even one with an address: what follows it decides whether it is
      cut before or inside the line. */
  lemma LoneHeaderIsOpen(c: Classifier, h: string, plain: string, hs: seq<string>)
    requires Sound(c) && Telling(c, plain, hs) && c.header(h).Some? && c.inline(h).Some?
    ensures !Settled(c, [h])
    ensures Scan(c, [h] + hs) == [] && Scan(c, [h] + [plain]) == [c.inline(h).value]
  {
    assert [h][1..] == [];
    OneMore({}, c.header(h).value);
    assert Ahead(c, [h], {}) == RanOut;
    RanOutEitherWay(c, [h], plain, hs, {});
  }

  // ----- the verdict -----

  predicate Decisive(x: Clause) { x.revoked || x.positive }
  predicate Affirms(x: Clause) { x.positive && !x.revoked && !x.question && !x.negative }

  /** The last clause that says anything about enablement affirms it. */
  predicate Confirms(xs: seq<Clause>) {
    exists k :: 0 <= k < |xs| && Affirms(xs[k]) && forall j :: k < j < |xs| ==> !Decisive(xs[j])
  }

  method ExplicitlyConfirms(c: Classifier, note: string) returns (completed: bool)
    ensures completed <==> Confirms(c.clauses(note))
  {
    var xs := c.clauses(note);
    completed := false;
    ghost var last := -1;
    for i := 0 to |xs|
      invariant -1 <= last < i && forall j :: last < j < i ==> !Decisive(xs[j])
      invariant last >= 0 ==> Decisive(xs[last])
      invariant completed <==> last >= 0 && Affirms(xs[last])
    {
      if xs[i].revoked {
        completed := false;
        last := i;
        continue;
      }
      if !xs[i].positive {
        continue;
      }
      last := i;
      if xs[i].question || xs[i].negative {
        completed := false;
        continue;
      }
      completed := true;
    }
    if completed {
      assert Affirms(xs[last]);
    }
  }

  datatype Verdict = QuotedOnly | Completed | AskClassifier(text: string)

  function Judgement(c: Classifier, lines: seq<string>): Verdict {
    var text := c.finish(Scan(c, lines));
    if text == "" then QuotedOnly
    else if Confirms(c.clauses(text)) then Completed
    else AskClassifier(text)
  }

  method Judge(c: Classifier, lines: seq<string>) returns (v: Verdict)
    ensures v == Judgement(c, lines)
  {
    var kept := UnquotedSegment(c, lines);
    var text := c.finish(kept);
    if text == "" {
      return QuotedOnly;
    }
    var completed := ExplicitlyConfirms(c, text);
    return if completed then Completed else AskClassifier(text);
  }

  /** What the verdict says: a mail without kept text is never completed and never shown to the classifier;
      one with text is completed exactly when some clause affirms and no later one says anything. */
  lemma VerdictSays(c: Classifier, lines: seq<string>)
    ensures var text, v := c.finish(Scan(c, lines)), Judgement(c, lines);
            var xs := c.clauses(text);
            && (v == QuotedOnly <==> text == "")
            && (v == Completed <==> text != "" && exists k :: 0 <= k < |xs| && xs[k] == Clause(false, true, false, false)
                                                              && forall j :: k < j < |xs| ==> !xs[j].revoked && !xs[j].positive)
            && (v.AskClassifier? ==> v.text == text && text != "")
  {
    var xs := c.clauses(c.finish(Scan(c, lines)));
    assert forall k :: 0 <= k < |xs| ==> (Affirms(xs[k]) <==> xs[k] == Clause(false, true, false, false));
  }

  /** Quoted history cannot flip the verdict: behind a marker, or behind a header run, every
      continuation is judged alike, and the classifier is asked about the same text. */
  lemma HistoryCannotFlipTheVerdict(c: Classifier, q: seq<string>, cut: seq<string>, a: seq<string>, b: seq<string>)
    requires Sound(c) && ((|cut| == 1 && c.marker(cut[0])) || HeaderBlock(c, cut))
    ensures Judgement(c, q + cut + a) == Judgement(c, q + cut + b)
  {
    if |cut| == 1 && c.marker(cut[0]) {
      assert cut == [cut[0]];
      MarkerSettles(c, q, cut[0]);
    } else {
      HeaderRunSettles(c, q, cut);
    }
    SettledSuffices(c, q + cut, a);
    SettledSuffices(c, q + cut, b);
  }
}
