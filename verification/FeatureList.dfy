/** Two readers of the same Markdown feature list: the validator and the overview's parser, written
    apart from each other. `strip` stands for the removal of surrounding blanks. */
module FeatureList {
  import opened Machines

  const TITLE := "# SupportPortal 主功能清单"
  const SECTIONS: seq<string> := ["Client 端", "Engineer 端", "Ticket Dashboard", "RAG Dashboard", "RAG"]
  const DONE := "已完成"
  const OPEN := "未完成"

  type Strip = string -> string

  // ----- the parser -----

  datatype Section = Section(title: string, completed: seq<string>, planned: seq<string>)

  datatype Heading = Completed | Planned | Neither

  datatype Parser = Parser(sections: seq<Section>, heading: Heading)

  function HeadingOf(status: string): Heading {
    if status == DONE then Completed else if status == OPEN then Planned else Neither
  }

  function WithItem(s: Section, heading: Heading, item: string): Section {
    match heading
    case Completed => s.(completed := s.completed + [item])
    case Planned => s.(planned := s.planned + [item])
    case Neither => s
  }

  function Parse(strip: Strip, p: Parser, line: string): Parser {
    if "## " <= line then Parser(p.sections + [Section(strip(line[3..]), [], [])], Neither)
    else if "### " <= line && p.sections != [] then p.(heading := HeadingOf(strip(line[4..])))
    else if "- " <= line && p.sections != [] && p.heading != Neither then
      var n := |p.sections| - 1;
      p.(sections := p.sections[n := WithItem(p.sections[n], p.heading, strip(line[2..]))])
    else p
  }

  function Parsed(strip: Strip, lines: seq<string>): Parser {
    if lines == [] then Parser([], Neither) else Parse(strip, Parsed(strip, lines[..|lines| - 1]), lines[|lines| - 1])
  }

  method ParseFeatureList(strip: Strip, lines: seq<string>) returns (sections: seq<Section>)
    ensures sections == Parsed(strip, lines).sections
  {
    sections := [];
    var heading := Neither;
    for i := 0 to |lines|
      invariant Parser(sections, heading) == Parsed(strip, lines[..i])
    {
      assert lines[..i + 1][..i] == lines[..i];
      var line := lines[i];
      if "## " <= line {
        sections := sections + [Section(strip(line[3..]), [], [])];
        heading := Neither;
      } else if "### " <= line && sections != [] {
        var status := strip(line[4..]);
        heading := if status == DONE then Completed else if status == OPEN then Planned else Neither;
      } else if "- " <= line && sections != [] && heading != Neither {
        var last := |sections| - 1;
        sections := sections[last := WithItem(sections[last], heading, strip(line[2..]))];
      }
    }
    assert lines[..|lines|] == lines;
  }

  // ----- the validator -----

  datatype Error =
    | NotFound | Empty | WrongTitle
    | StatusBeforeSection(status: string) | UnexpectedSection(section: string)
    | WrongOrder | WrongStatuses(section: string) | NoBullet(section: string, status: string)

  datatype Counts = Counts(completed: nat, planned: nat)

  datatype Tables = Checker(order: seq<string>, statuses: map<string, seq<string>>, counts: map<string, Counts>,
                            section: Option<string>, status: Option<string>, errors: seq<Error>)

  /** Under a section heading that is expected, both tables have an entry for it. */
  predicate Entered(c: Tables) {
    c.section.Some? && c.section.value in SECTIONS ==> c.section.value in c.statuses && c.section.value in c.counts
  }

  /** So the lookups below that heading never fail. */
  type Checker = c: Tables | Entered(c) witness Checker([], map[], map[], None, None, [])

  function Counted(c: Counts, status: string): Counts {
    if status == DONE then c.(completed := c.completed + 1)
    else if status == OPEN then c.(planned := c.planned + 1) else c
  }

  function Start(title: bool): Checker {
    Checker([], map[], map[], None, None, if title then [] else [WrongTitle])
  }

  function Check(strip: Strip, c: Checker, line: string): Checker {
    if "## " <= line then
      var heading := strip(line[3..]);
      c.(order := c.order + [heading], section := Some(heading), status := None,
         statuses := if heading in SECTIONS && heading !in c.statuses then c.statuses[heading := []] else c.statuses,
         counts := if heading in SECTIONS && heading !in c.counts then c.counts[heading := Counts(0, 0)] else c.counts)
    else if "### " <= line then
      var status := strip(line[4..]);
      if c.section.None? then c.(errors := c.errors + [StatusBeforeSection(status)])
      else if c.section.value !in SECTIONS then c.(errors := c.errors + [UnexpectedSection(c.section.value)])
      else c.(statuses := c.statuses[c.section.value := c.statuses[c.section.value] + [status]], status := Some(status))
    else if "- " <= line && c.section.Some? && c.section.value in SECTIONS && c.status.Some?
            && (c.status.value == DONE || c.status.value == OPEN) then
      c.(counts := c.counts[c.section.value := Counted(c.counts[c.section.value], c.status.value)])
    else c
  }

  function Checked(strip: Strip, title: bool, lines: seq<string>): Checker {
    if lines == [] then Start(title) else Check(strip, Checked(strip, title, lines[..|lines| - 1]), lines[|lines| - 1])
  }

  function CountOf(counts: map<string, Counts>, section: string): Counts {
    if section in counts then counts[section] else Counts(0, 0)
  }

  /** The errors of one expected section. */
  function SectionErrors(c: Checker, section: string): seq<Error> {
    (if (if section in c.statuses then c.statuses[section] else []) != [DONE, OPEN] then [WrongStatuses(section)] else [])
    + (if CountOf(c.counts, section).completed < 1 then [NoBullet(section, DONE)] else [])
    + (if CountOf(c.counts, section).planned < 1 then [NoBullet(section, OPEN)] else [])
  }

  function AllSectionErrors(c: Checker, sections: seq<string>): seq<Error> {
    if sections == [] then []
    else AllSectionErrors(c, sections[..|sections| - 1]) + SectionErrors(c, sections[|sections| - 1])
  }

  function Errors(strip: Strip, file: Option<seq<string>>): seq<Error> {
    if file.None? then [NotFound]
    else if file.value == [] then [Empty]
    else
      var c := Checked(strip, strip(file.value[0]) == TITLE, file.value);
      c.errors + (if c.order != SECTIONS then [WrongOrder] else []) + AllSectionErrors(c, SECTIONS)
  }

  /** The line loop. */
  method CheckLines(strip: Strip, title: bool, lines: seq<string>) returns (c: Checker)
    ensures c == Checked(strip, title, lines)
  {
    var errors: seq<Error> := if title then [] else [WrongTitle];
    var order: seq<string> := [];
    var statuses: map<string, seq<string>>, counts: map<string, Counts> := map[], map[];
    var section: Option<string>, current: Option<string> := None, None;
    for i := 0 to |lines|
      invariant Checker(order, statuses, counts, section, current, errors) == Checked(strip, title, lines[..i])
      invariant section.Some? && section.value in SECTIONS ==> section.value in statuses && section.value in counts
    {
      assert lines[..i + 1][..i] == lines[..i];
      var line := lines[i];
      if "## " <= line {
        var heading := strip(line[3..]);
        order := order + [heading];
        section, current := Some(heading), None;
        if heading in SECTIONS {
          if heading !in statuses {
            statuses := statuses[heading := []];
          }
          if heading !in counts {
            counts := counts[heading := Counts(0, 0)];
          }
        }
        continue;
      }
      if "### " <= line {
        var status := strip(line[4..]);
        if section.None? {
          errors := errors + [StatusBeforeSection(status)];
          continue;
        }
        if section.value !in SECTIONS {
          errors := errors + [UnexpectedSection(section.value)];
          continue;
        }
        statuses := statuses[section.value := statuses[section.value] + [status]];
        current := Some(status);
        continue;
      }
      if "- " <= line && section.Some? && section.value in SECTIONS && current.Some? && (current.value == DONE || current.value == OPEN) {
        counts := counts[section.value := Counted(counts[section.value], current.value)];
      }
    }
    assert lines[..|lines|] == lines;
    c := Checker(order, statuses, counts, section, current, errors);
  }

  method CheckSection(c: Checker, name: string) returns (wrong: seq<Error>)
    ensures wrong == SectionErrors(c, name)
  {
    var found := if name in c.statuses then c.statuses[name] else [];
    var count := CountOf(c.counts, name);
    wrong := if found != [DONE, OPEN] then [WrongStatuses(name)] else [];
    if count.completed < 1 {
      wrong := wrong + [NoBullet(name, DONE)];
    }
    if count.planned < 1 {
      wrong := wrong + [NoBullet(name, OPEN)];
    }
  }

  /** The loop over the expected sections. */
  method CheckSections(c: Checker, sections: seq<string>) returns (errors: seq<Error>)
    ensures errors == AllSectionErrors(c, sections)
  {
    errors := [];
    for k := 0 to |sections|
      invariant errors == AllSectionErrors(c, sections[..k])
    {
      assert sections[..k + 1][..k] == sections[..k];
      var wrong := CheckSection(c, sections[k]);
      errors := errors + wrong;
    }
    assert sections[..|sections|] == sections;
  }

  method ValidateFeatureList(strip: Strip, file: Option<seq<string>>) returns (errors: seq<Error>)
    ensures errors == Errors(strip, file)
  {
    if file.None? {
      return [NotFound];
    }
    var lines := file.value;
    if lines == [] {
      return [Empty];
    }
    var c := CheckLines(strip, strip(lines[0]) == TITLE, lines);
    var order := if c.order != SECTIONS then [WrongOrder] else [];
    var missing := CheckSections(c, SECTIONS);
    return c.errors + order + missing;
  }

  // ----- the two side by side -----

  function Titles(ss: seq<Section>): seq<string> { seq(|ss|, i requires 0 <= i < |ss| => ss[i].title) }

  /** All the items the parser files under sections of this title. */
  function Total(ss: seq<Section>, title: string): Counts {
    if ss == [] then Counts(0, 0)
    else
      var n := |ss| - 1;
      var rest := Total(ss[..n], title);
      if ss[n].title == title then Counts(rest.completed + |ss[n].completed|, rest.planned + |ss[n].planned|) else rest
  }

  /** What holds between the two after every line. */
  ghost predicate Alike(c: Checker, p: Parser) {
    && Titles(p.sections) == c.order
    && c.section == (if c.order == [] then None else Some(c.order[|c.order| - 1]))
    && (c.section.Some? && c.section.value in SECTIONS ==>
          p.heading == if c.status.Some? then HeadingOf(c.status.value) else Neither)
    && (c.section.None? ==> c.status.None? && p.heading == Neither)
    && forall h :: h in SECTIONS ==> CountOf(c.counts, h) == Total(p.sections, h)
  }

  lemma TotalSnoc(ss: seq<Section>, s: Section, h: string)
    ensures Total(ss + [s], h) ==
              if s.title == h then Counts(Total(ss, h).completed + |s.completed|, Total(ss, h).planned + |s.planned|)
              else Total(ss, h)
  {
    assert (ss + [s])[..|ss|] == ss;
  }

  lemma NewSection(strip: Strip, c: Checker, p: Parser, line: string)
    requires Alike(c, p) && "## " <= line
    ensures Alike(Check(strip, c, line), Parse(strip, p, line))
  {
    var heading := strip(line[3..]);
    var q := Parse(strip, p, line);
    assert Titles(q.sections) == Titles(p.sections) + [heading];
    forall h | h in SECTIONS ensures CountOf(Check(strip, c, line).counts, h) == Total(q.sections, h) {
      TotalSnoc(p.sections, Section(heading, [], []), h);
    }
  }

  lemma NewItem(strip: Strip, c: Checker, p: Parser, line: string)
    requires Alike(c, p) && !("## " <= line) && !("### " <= line) && "- " <= line && p.sections != [] && p.heading != Neither
    ensures Alike(Check(strip, c, line), Parse(strip, p, line))
  {
    var d, q, n := Check(strip, c, line), Parse(strip, p, line), |p.sections| - 1;
    var front, last := p.sections[..n], p.sections[n];
    assert p.sections == front + [last] && q.sections == front + [q.sections[n]];
    assert Titles(q.sections) == Titles(p.sections);
    assert c.order[n] == last.title;
    forall h | h in SECTIONS ensures CountOf(d.counts, h) == Total(q.sections, h) {
      TotalSnoc(front, last, h);
      TotalSnoc(front, q.sections[n], h);
    }
  }

  /** One line keeps the two readers alike. */
  lemma StepAlike(strip: Strip, c: Checker, p: Parser, line: string)
    requires Alike(c, p)
    ensures Alike(Check(strip, c, line), Parse(strip, p, line))
  {
    if "## " <= line {
      NewSection(strip, c, p, line);
    } else if !("### " <= line) && "- " <= line && p.sections != [] && p.heading != Neither {
      NewItem(strip, c, p, line);
    }
  }

  /** On any text at all: the parser's titles are the validator's section order, and the validator's
      count of an expected heading is the number of items the parser files under that title. */
  lemma {:induction false} ReadersAgree(strip: Strip, title: bool, lines: seq<string>)
    ensures Alike(Checked(strip, title, lines), Parsed(strip, lines))
    decreases |lines|
  {
    if lines != [] {
      ReadersAgree(strip, title, lines[..|lines| - 1]);
      StepAlike(strip, Checked(strip, title, lines[..|lines| - 1]), Parsed(strip, lines[..|lines| - 1]), lines[|lines| - 1]);
    }
  }

  lemma {:induction false} NoSectionErrors(c: Checker, sections: seq<string>, k: nat)
    requires AllSectionErrors(c, sections) == [] && k < |sections|
    ensures CountOf(c.counts, sections[k]).completed >= 1 && CountOf(c.counts, sections[k]).planned >= 1
    decreases |sections|
  {
    var n := |sections| - 1;
    if k < n { NoSectionErrors(c, sections[..n], k); }
  }

  lemma {:induction false} TotalOfOne(ss: seq<Section>, k: nat)
    requires k < |ss| && forall i, j :: 0 <= i < j < |ss| ==> ss[i].title != ss[j].title
    ensures Total(ss, ss[k].title) == Counts(|ss[k].completed|, |ss[k].planned|)
    decreases |ss|
  {
    var n := |ss| - 1;
    if k < n { TotalOfOne(ss[..n], k); } else { TotalOfNone(ss[..n], ss[k].title); }
  }

  lemma {:induction false} TotalOfNone(ss: seq<Section>, h: string)
    requires forall i :: 0 <= i < |ss| ==> ss[i].title != h
    ensures Total(ss, h) == Counts(0, 0)
    decreases |ss|
  {
    if ss != [] { TotalOfNone(ss[..|ss| - 1], h); }
  }

  lemma SectionsDistinct()
    ensures forall i, j :: 0 <= i < j < |SECTIONS| ==> SECTIONS[i] != SECTIONS[j]
  {
    forall i, j | 0 <= i < j < |SECTIONS| ensures SECTIONS[i] != SECTIONS[j] {
      assert (|SECTIONS[i]|, SECTIONS[i][0]) != (|SECTIONS[j]|, SECTIONS[j][0]);
    }
  }

  /** As many items as counted, and some of each kind. */
  ghost predicate Filled(s: Section, count: Counts) {
    |s.completed| == count.completed >= 1 && |s.planned| == count.planned >= 1
  }

  lemma AlikeFills(c: Checker, p: Parser, k: nat)
    requires Alike(c, p) && c.order == SECTIONS && AllSectionErrors(c, SECTIONS) == [] && k < |p.sections|
    ensures k < |SECTIONS| && Filled(p.sections[k], CountOf(c.counts, SECTIONS[k]))
  {
    var ss := p.sections;
    assert Titles(ss) == SECTIONS;
    assert forall i :: 0 <= i < |ss| ==> ss[i].title == Titles(ss)[i];
    SectionsDistinct();
    NoSectionErrors(c, SECTIONS, k);
    TotalOfOne(ss, k);
  }

  /** A list the validator accepts is parsed into exactly the five sections in their order, each with
      completed and planned items, as many as the validator counted. */
  lemma ValidatorImpliesParser(strip: Strip, lines: seq<string>)
    requires Errors(strip, Some(lines)) == []
    ensures var ss := Parsed(strip, lines).sections;
            && Titles(ss) == SECTIONS
            && forall k :: 0 <= k < |ss| ==> Filled(ss[k], CountOf(Checked(strip, true, lines).counts, SECTIONS[k]))
  {
    var c, p := Checked(strip, true, lines), Parsed(strip, lines);
    ReadersAgree(strip, true, lines);
    FirstLineIsTitle(strip, lines);
    forall k | 0 <= k < |p.sections| ensures Filled(p.sections[k], CountOf(c.counts, SECTIONS[k])) {
      AlikeFills(c, p, k);
    }
  }

  lemma {:induction false} ErrorsGrow(strip: Strip, title: bool, lines: seq<string>)
    ensures Start(title).errors <= Checked(strip, title, lines).errors
    decreases |lines|
  {
    if lines != [] { ErrorsGrow(strip, title, lines[..|lines| - 1]); }
  }

  lemma FirstLineIsTitle(strip: Strip, lines: seq<string>)
    requires Errors(strip, Some(lines)) == []
    ensures lines != [] && strip(lines[0]) == TITLE
    ensures Checked(strip, true, lines).order == SECTIONS && AllSectionErrors(Checked(strip, true, lines), SECTIONS) == []
  {
    ErrorsGrow(strip, strip(lines[0]) == TITLE, lines);
  }

  // ----- what the text has to be -----

  predicate IsSection(line: string) { |line| >= 3 && line[..3] == "## " }
  predicate IsStatus(line: string) { |line| >= 4 && line[..4] == "### " }
  predicate IsItem(line: string) { |line| >= 2 && line[..2] == "- " }

  /** The titles of the section headings, in order. */
  function Headings(strip: Strip, lines: seq<string>): seq<string> {
    if lines == [] then []
    else
      var n := |lines| - 1;
      Headings(strip, lines[..n]) + if IsSection(lines[n]) then [strip(lines[n][3..])] else []
  }

  /** The section a text ends in, and its last status heading in that section. */
  function SectionOf(strip: Strip, lines: seq<string>): Option<string> {
    if lines == [] then None
    else
      var n := |lines| - 1;
      if IsSection(lines[n]) then Some(strip(lines[n][3..])) else SectionOf(strip, lines[..n])
  }

  function StatusOf(strip: Strip, lines: seq<string>): Option<string> {
    if lines == [] || IsSection(lines[|lines| - 1]) then None
    else
      var n := |lines| - 1;
      if IsStatus(lines[n]) then Some(strip(lines[n][4..])) else StatusOf(strip, lines[..n])
  }

  /** The status headings under sections of this title, in order. */
  function StatusesUnder(strip: Strip, lines: seq<string>, h: string): seq<string> {
    if lines == [] then []
    else
      var n := |lines| - 1;
      StatusesUnder(strip, lines[..n], h)
      + if IsStatus(lines[n]) && SectionOf(strip, lines[..n]) == Some(h) then [strip(lines[n][4..])] else []
  }

  /** How many items stand under a section of this title and a status of that name. */
  function ItemsUnder(strip: Strip, lines: seq<string>, h: string, status: string): nat {
    if lines == [] then 0
    else
      var n := |lines| - 1;
      ItemsUnder(strip, lines[..n], h, status)
      + if IsItem(lines[n]) && SectionOf(strip, lines[..n]) == Some(h) && StatusOf(strip, lines[..n]) == Some(status) then 1 else 0
  }

  /** No status heading stands outside the expected sections. */
  predicate Housed(strip: Strip, lines: seq<string>) {
    if lines == [] then true
    else
      var n := |lines| - 1;
      Housed(strip, lines[..n])
      && (IsStatus(lines[n]) ==> SectionOf(strip, lines[..n]).Some? && SectionOf(strip, lines[..n]).value in SECTIONS)
  }

  lemma LineKinds(line: string)
    ensures ("## " <= line <==> IsSection(line)) && ("### " <= line <==> IsStatus(line)) && ("- " <= line <==> IsItem(line))
    ensures !(IsSection(line) && IsStatus(line)) && !(IsSection(line) && IsItem(line)) && !(IsStatus(line) && IsItem(line))
  {
    assert IsSection(line) ==> line[0] == line[..3][0] == '#' && line[2] == line[..3][2] == ' ';
    assert IsStatus(line) ==> line[0] == line[..4][0] == '#' && line[2] == line[..4][2] == '#';
    assert IsItem(line) ==> line[0] == line[..2][0] == '-';
  }

  /** The items under the two statuses of a section. */
  function BothItems(strip: Strip, lines: seq<string>, h: string): Counts {
    Counts(ItemsUnder(strip, lines, h, "已完成"), ItemsUnder(strip, lines, h, "未完成"))
  }

  ghost predicate SameUnder(strip: Strip, lines: seq<string>, c: Checker, h: string) {
    && (if h in c.statuses then c.statuses[h] else []) == StatusesUnder(strip, lines, h)
    && CountOf(c.counts, h) == BothItems(strip, lines, h)
  }

  ghost predicate SameTables(strip: Strip, title: bool, lines: seq<string>, c: Checker) {
    && c.order == Headings(strip, lines)
    && SamePlace(strip, lines, c)
    && (forall h :: h in SECTIONS ==> SameUnder(strip, lines, c, h))
    && (c.errors == [] <==> title && Housed(strip, lines))
  }

  lemma NamesDiffer()
    ensures "已完成" != "未完成"
  {
    assert "已完成"[0] != "未完成"[0];
  }

  /** One more line, on the text alone. */
  lemma OneMoreLine(strip: Strip, lines: seq<string>, line: string)
    ensures var after := lines + [line];
            && Headings(strip, after) == Headings(strip, lines) + (if IsSection(line) then [strip(line[3..])] else [])
            && SectionOf(strip, after) == (if IsSection(line) then Some(strip(line[3..])) else SectionOf(strip, lines))
            && StatusOf(strip, after) ==
                 (if IsSection(line) then None else if IsStatus(line) then Some(strip(line[4..])) else StatusOf(strip, lines))
            && (Housed(strip, after) <==>
                  Housed(strip, lines) && (IsStatus(line) ==> SectionOf(strip, lines).Some? && SectionOf(strip, lines).value in SECTIONS))
  {
    assert (lines + [line])[..|lines|] == lines;
  }

  lemma OneMoreUnder(strip: Strip, lines: seq<string>, line: string, h: string)
    ensures StatusesUnder(strip, lines + [line], h) ==
              StatusesUnder(strip, lines, h) + if IsStatus(line) && SectionOf(strip, lines) == Some(h) then [strip(line[4..])] else []
  {
    assert (lines + [line])[..|lines|] == lines;
  }

  lemma OneMoreItem(strip: Strip, lines: seq<string>, line: string, h: string, status: string)
    ensures ItemsUnder(strip, lines + [line], h, status) ==
              ItemsUnder(strip, lines, h, status)
              + if IsItem(line) && SectionOf(strip, lines) == Some(h) && StatusOf(strip, lines) == Some(status) then 1 else 0
  {
    assert (lines + [line])[..|lines|] == lines;
  }

  lemma OneMoreCount(strip: Strip, lines: seq<string>, line: string, h: string)
    ensures BothItems(strip, lines + [line], h) ==
              if !IsItem(line) || SectionOf(strip, lines) != Some(h) || StatusOf(strip, lines).None? then BothItems(strip, lines, h)
              else Counted(BothItems(strip, lines, h), StatusOf(strip, lines).value)
  {
    OneMoreItem(strip, lines, line, h, "已完成");
    OneMoreItem(strip, lines, line, h, "未完成");
    NamesDiffer();
  }

  /** Where the text stands, in the loop's own variables. */
  ghost predicate SamePlace(strip: Strip, lines: seq<string>, c: Checker) {
    && c.section == SectionOf(strip, lines)
    && c.status == (if c.section.Some? && c.section.value in SECTIONS then StatusOf(strip, lines) else None)
  }

  lemma PlaceLine(strip: Strip, lines: seq<string>, line: string, c: Checker)
    requires SamePlace(strip, lines, c)
    ensures SamePlace(strip, lines + [line], Check(strip, c, line))
  {
    LineKinds(line);
    OneMoreLine(strip, lines, line);
  }

  lemma UnderSection(strip: Strip, lines: seq<string>, line: string, c: Checker, h: string)
    requires SameUnder(strip, lines, c, h) && IsSection(line)
    ensures SameUnder(strip, lines + [line], Check(strip, c, line), h)
  {
    LineKinds(line);
    OneMoreUnder(strip, lines, line, h);
    OneMoreCount(strip, lines, line, h);
  }

  lemma UnderStatus(strip: Strip, lines: seq<string>, line: string, c: Checker, h: string)
    requires SamePlace(strip, lines, c) && SameUnder(strip, lines, c, h) && h in SECTIONS && IsStatus(line)
    ensures SameUnder(strip, lines + [line], Check(strip, c, line), h)
  {
    LineKinds(line);
    OneMoreUnder(strip, lines, line, h);
    OneMoreCount(strip, lines, line, h);
  }

  lemma UnderItem(strip: Strip, lines: seq<string>, line: string, c: Checker, h: string)
    requires SamePlace(strip, lines, c) && SameUnder(strip, lines, c, h) && h in SECTIONS && IsItem(line)
    ensures SameUnder(strip, lines + [line], Check(strip, c, line), h)
  {
    LineKinds(line);
    OneMoreUnder(strip, lines, line, h);
    OneMoreCount(strip, lines, line, h);
    var d := Check(strip, c, line);
    assert d.statuses == c.statuses;
    if c.section == Some(h) && c.status.Some? {
      assert CountOf(d.counts, h) == Counted(CountOf(c.counts, h), c.status.value);
    } else {
      assert CountOf(d.counts, h) == CountOf(c.counts, h);
    }
  }

  lemma UnderPlain(strip: Strip, lines: seq<string>, line: string, c: Checker, h: string)
    requires SameUnder(strip, lines, c, h) && !IsSection(line) && !IsStatus(line) && !IsItem(line)
    ensures SameUnder(strip, lines + [line], Check(strip, c, line), h)
  {
    LineKinds(line);
    OneMoreUnder(strip, lines, line, h);
    OneMoreCount(strip, lines, line, h);
  }

  lemma ErrorsLine(strip: Strip, title: bool, lines: seq<string>, line: string, c: Checker)
    requires SamePlace(strip, lines, c) && c.order == Headings(strip, lines) && (c.errors == [] <==> title && Housed(strip, lines))
    ensures var d := Check(strip, c, line);
            d.order == Headings(strip, lines + [line]) && (d.errors == [] <==> title && Housed(strip, lines + [line]))
  {
    LineKinds(line);
    OneMoreLine(strip, lines, line);
  }

  lemma TablesStep(strip: Strip, title: bool, lines: seq<string>, line: string, c: Checker)
    requires SameTables(strip, title, lines, c)
    ensures SameTables(strip, title, lines + [line], Check(strip, c, line))
  {
    PlaceLine(strip, lines, line, c);
    ErrorsLine(strip, title, lines, line, c);
    forall h | h in SECTIONS ensures SameUnder(strip, lines + [line], Check(strip, c, line), h) {
      if IsSection(line) {
        UnderSection(strip, lines, line, c, h);
      } else if IsStatus(line) {
        UnderStatus(strip, lines, line, c, h);
      } else if IsItem(line) {
        UnderItem(strip, lines, line, c, h);
      } else {
        UnderPlain(strip, lines, line, c, h);
      }
    }
  }

  lemma TablesStart(strip: Strip, title: bool)
    ensures SameTables(strip, title, [], Start(title))
  {
    forall h ensures SameUnder(strip, [], Start(title), h) {}
  }

  /** The validator's tables are what the text says: the headings in order, the status headings under each
      expected one, and the number of items under each of its two statuses. */
  lemma {:induction false} TablesSay(strip: Strip, title: bool, lines: seq<string>)
    ensures SameTables(strip, title, lines, Checked(strip, title, lines))
    decreases |lines|
  {
    if lines == [] {
      TablesStart(strip, title);
    } else {
      var n := |lines| - 1;
      TablesSay(strip, title, lines[..n]);
      assert lines == lines[..n] + [lines[n]];
      TablesStep(strip, title, lines[..n], lines[n], Checked(strip, title, lines[..n]));
    }
  }

  ghost predicate AllClean(c: Checker, sections: seq<string>) { forall h :: h in sections ==> SectionErrors(c, h) == [] }

  lemma CleanSnoc(c: Checker, front: seq<string>, last: string)
    ensures AllClean(c, front + [last]) <==> AllClean(c, front) && SectionErrors(c, last) == []
  {
    assert forall h: string :: h in front + [last] <==> h in front || h == last;
  }

  lemma {:induction false} NoErrorsExactly(c: Checker, sections: seq<string>)
    ensures AllSectionErrors(c, sections) == [] <==> AllClean(c, sections)
    decreases |sections|
  {
    if sections != [] {
      var n := |sections| - 1;
      var front, last := sections[..n], sections[n];
      NoErrorsExactly(c, front);
      CleanSnoc(c, front, last);
      assert sections == front + [last];
      var before, errors := AllSectionErrors(c, front), SectionErrors(c, last);
      assert AllSectionErrors(c, sections) == before + errors;
      assert before + errors == [] <==> before == [] && errors == [];
    }
  }

  /** The section has exactly the two statuses in their order, and an item under each. */
  ghost predicate Complete(strip: Strip, lines: seq<string>, h: string) {
    && StatusesUnder(strip, lines, h) == ["已完成", "未完成"]
    && ItemsUnder(strip, lines, h, "已完成") >= 1 && ItemsUnder(strip, lines, h, "未完成") >= 1
  }

  lemma SectionComplete(strip: Strip, lines: seq<string>, c: Checker, h: string)
    requires SameUnder(strip, lines, c, h)
    ensures SectionErrors(c, h) == [] <==> Complete(strip, lines, h)
  {
  }

  ghost predicate AllComplete(strip: Strip, lines: seq<string>, hs: seq<string>) { forall h :: h in hs ==> Complete(strip, lines, h) }

  lemma SectionsComplete(strip: Strip, title: bool, lines: seq<string>, c: Checker)
    requires SameTables(strip, title, lines, c)
    ensures AllSectionErrors(c, SECTIONS) == [] <==> AllComplete(strip, lines, SECTIONS)
  {
    NoErrorsExactly(c, SECTIONS);
    forall h | h in SECTIONS ensures SectionErrors(c, h) == [] <==> Complete(strip, lines, h) { SectionComplete(strip, lines, c, h); }
  }

  lemma NoErrorsMeans(strip: Strip, lines: seq<string>)
    requires lines != []
    ensures var c := Checked(strip, strip(lines[0]) == TITLE, lines);
            Errors(strip, Some(lines)) == [] <==> c.errors == [] && c.order == SECTIONS && AllSectionErrors(c, SECTIONS) == []
  {
  }

  /** The list is accepted if and only if it starts with its title, has exactly the five sections in their
      order and no status heading outside them, and each of them is complete. */
  lemma AcceptedExactly(strip: Strip, lines: seq<string>)
    ensures Errors(strip, Some(lines)) == [] <==>
              && lines != [] && strip(lines[0]) == "# SupportPortal 主功能清单"
              && Headings(strip, lines) == ["Client 端", "Engineer 端", "Ticket Dashboard", "RAG Dashboard", "RAG"]
              && Housed(strip, lines) && AllComplete(strip, lines, Headings(strip, lines))
  {
    if lines != [] {
      var title := strip(lines[0]) == TITLE;
      var c := Checked(strip, title, lines);
      TablesSay(strip, title, lines);
      SectionsComplete(strip, title, lines, c);
      NoErrorsMeans(strip, lines);
    }
  }

  /** And the parser files the items where they stand: completed under the one status, planned under the other. */
  lemma ParserSays(strip: Strip, lines: seq<string>, h: string)
    requires h in SECTIONS
    ensures Total(Parsed(strip, lines).sections, h) == Counts(ItemsUnder(strip, lines, h, "已完成"), ItemsUnder(strip, lines, h, "未完成"))
  {
    TablesSay(strip, true, lines);
    ReadersAgree(strip, true, lines);
  }
}
