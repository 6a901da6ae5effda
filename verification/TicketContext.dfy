/** The conversation a routed comment is judged in: the snapshot's comments sorted by (time, id), cut
    behind the trigger, public and with a known author side, and passed on as public messages. */
module TicketContext {
  import opened Machines

  datatype Comment = Comment(id: string, at: int, public: bool, body: string, role: string, isAgent: Option<bool>)

  datatype Side = Customer | Assistant

  datatype Entry = Entry(id: string, side: Side, at: int, content: string)

  datatype Result<+T> = Ok(value: T) | IdentityConflict | TriggerNotFound

  type Blank = string -> bool

  // ----- who wrote it -----

  /** What the role name says, trimmed and in lower case. */
  function RoleIsAgent(role: string): Option<bool> {
    if role == "agent" || role == "staff" || role == "admin" || role == "support" then Some(true)
    else if role == "end-user" || role == "end_user" || role == "customer" || role == "requester" || role == "user" then Some(false)
    else None
  }

  function CommentSide(c: Comment): Result<Option<Side>> {
    var named := RoleIsAgent(c.role);
    if named.Some? && c.isAgent.Some? && named != c.isAgent then IdentityConflict
    else
      var agent := if named.Some? then named else c.isAgent;
      Ok(if agent.None? then None else Some(if agent.value then Assistant else Customer))
  }

  /** The role name and the flag are two pieces of evidence about one fact: the side agrees with all
      there is, no side is named without any, and a conflict is exactly two that disagree. */
  lemma SideIsEvidence(c: Comment)
    ensures var evidence := {RoleIsAgent(c.role), c.isAgent} - {None};
            && (CommentSide(c) == IdentityConflict <==> |evidence| == 2)
            && (CommentSide(c) == Ok(None) <==> evidence == {})
            && forall side :: CommentSide(c) == Ok(Some(side)) <==> evidence == {Some(side == Assistant)}
  {
    var a, b := RoleIsAgent(c.role), c.isAgent;
    var evidence := {a, b} - {None};
    if a.None? && b.None? {
      assert evidence == {};
    } else if a.None? || b.None? || a == b {
      var e := if a.Some? then a else b;
      assert evidence == {e};
    } else {
      assert evidence == {a, b};
    }
    forall side ensures CommentSide(c) == Ok(Some(side)) <==> evidence == {Some(side == Assistant)} {
      if evidence == {Some(side == Assistant)} { assert Some(side == Assistant) in {a, b}; }
    }
  }

  /** The names of the staff's roles, and of the customer's. */
  predicate Staff(role: string) { role == "support" || role == "staff" || role == "agent" || role == "admin" }
  predicate Client(role: string) {
    role == "customer" || role == "user" || role == "requester" || role == "end-user" || role == "end_user"
  }

  lemma StaffIsNoClient(role: string)
    ensures !(Staff(role) && Client(role))
  {
    assert Staff(role) ==> role[0] == 's' || role[0] == 'a';
    assert Client(role) ==> role[0] == 'c' || role[0] == 'u' || role[0] == 'r' || role[0] == 'e';
  }

  /** Which names say what: the staff's names, the customer's, and no other. */
  lemma RolesSay(c: Comment)
    ensures var staff, client := Staff(c.role), Client(c.role);
            && (CommentSide(c) == Ok(Some(Assistant)) <==> (staff && c.isAgent != Some(false)) || (!staff && !client && c.isAgent == Some(true)))
            && (CommentSide(c) == Ok(Some(Customer)) <==> (client && c.isAgent != Some(true)) || (!staff && !client && c.isAgent == Some(false)))
            && (CommentSide(c) == IdentityConflict <==> (staff && c.isAgent == Some(false)) || (client && c.isAgent == Some(true)))
            && (CommentSide(c) == Ok(None) <==> !staff && !client && c.isAgent.None?)
  {
    StaffIsNoClient(c.role);
    if c.isAgent.Some? {
      assert c.isAgent == if c.isAgent.value then Some(true) else Some(false);
    }
  }

  // ----- the order -----

  predicate LexLess(a: string, b: string) {
    b != [] && (a == [] || a[0] < b[0] || (a[0] == b[0] && LexLess(a[1..], b[1..])))
  }

  /** The words part at `k`, or the first ends there. */
  predicate Parts(a: string, b: string, k: nat) {
    k <= |a| && k < |b| && a[..k] == b[..k] && (k == |a| || a[k] < b[k])
  }

  lemma PartsNext(a: string, b: string, k: nat)
    requires a != [] && b != [] && k > 0
    ensures Parts(a, b, k) <==> a[0] == b[0] && Parts(a[1..], b[1..], k - 1)
  {
    if k <= |a| && k < |b| {
      assert a[..k] == [a[0]] + a[1..][..k - 1] && b[..k] == [b[0]] + b[1..][..k - 1];
      assert a[..k] == b[..k] ==> a[..k][0] == b[..k][0] && a[..k][1..] == b[..k][1..];
    }
  }

  /** Words in the order of a dictionary: at the first place where they differ, or the shorter first. */
  lemma {:induction false} LexMeans(a: string, b: string)
    ensures LexLess(a, b) <==> exists k :: Parts(a, b, k)
    decreases |a|
  {
    assert b != [] && (a == [] || a[0] < b[0]) ==> Parts(a, b, 0);
    if a != [] && b != [] {
      LexMeans(a[1..], b[1..]);
      forall k: nat | k > 0 ensures Parts(a, b, k) <==> a[0] == b[0] && Parts(a[1..], b[1..], k - 1) { PartsNext(a, b, k); }
      if LexLess(a[1..], b[1..]) {
        var k: nat :| Parts(a[1..], b[1..], k);
        assert a[0] == b[0] ==> Parts(a, b, k + 1);
      }
    }
  }

  predicate Less(c: Comment, d: Comment) { c.at < d.at || (c.at == d.at && LexLess(c.id, d.id)) }

  lemma {:induction false} LexIrreflexive(a: string)
    ensures !LexLess(a, a)
    decreases |a|
  {
    if a != [] { LexIrreflexive(a[1..]); }
  }

  lemma {:induction false} LexTotal(a: string, b: string)
    ensures (LexLess(a, b) || a == b || LexLess(b, a)) && !(LexLess(a, b) && LexLess(b, a))
    decreases |a|
  {
    if a != [] && b != [] { LexTotal(a[1..], b[1..]); }
    if a != [] && b != [] && a[0] == b[0] && a[1..] == b[1..] {
      assert a == [a[0]] + a[1..] && b == [b[0]] + b[1..];
    }
  }

  lemma {:induction false} LexTransitive(a: string, b: string, c: string)
    requires LexLess(a, b) && LexLess(b, c)
    ensures LexLess(a, c)
    decreases |a|
  {
    if a != [] && b != [] && c != [] && a[0] == b[0] && b[0] == c[0] { LexTransitive(a[1..], b[1..], c[1..]); }
  }

  lemma LessTransitive(c: Comment, d: Comment, e: Comment)
    requires Less(c, d) && Less(d, e)
    ensures Less(c, e)
  {
    if c.at == d.at == e.at { LexTransitive(c.id, d.id, e.id); }
  }

  lemma LessTotal(c: Comment, d: Comment)
    ensures !(Less(c, d) && Less(d, c)) && !Less(c, c) && (c.id != d.id ==> Less(c, d) || Less(d, c))
  {
    LexTotal(c.id, d.id);
    LexIrreflexive(c.id);
  }

  /** The stable sort by (time, id). */
  function Insert(c: Comment, xs: seq<Comment>): seq<Comment> {
    if xs == [] || !Less(c, xs[|xs| - 1]) then xs + [c] else Insert(c, xs[..|xs| - 1]) + [xs[|xs| - 1]]
  }

  function Sort(cs: seq<Comment>): seq<Comment> {
    if cs == [] then [] else Insert(cs[|cs| - 1], Sort(cs[..|cs| - 1]))
  }

  ghost predicate UniqueIds(cs: seq<Comment>) { forall i, j :: 0 <= i < j < |cs| ==> cs[i].id != cs[j].id }

  ghost predicate Sorted(xs: seq<Comment>) { forall i, j :: 0 <= i < j < |xs| ==> Less(xs[i], xs[j]) }

  lemma {:induction false} InsertSorts(c: Comment, xs: seq<Comment>)
    requires Sorted(xs) && forall i :: 0 <= i < |xs| ==> xs[i].id != c.id
    ensures Sorted(Insert(c, xs)) && forall x :: x in Insert(c, xs) <==> x == c || x in xs
    decreases |xs|
  {
    if xs != [] {
      var n := |xs| - 1;
      var front, last := xs[..n], xs[n];
      assert xs == front + [last];
      LessTotal(c, last);
      if Less(c, last) {
        InsertSorts(c, front);
        var ys := Insert(c, front);
        forall i | 0 <= i < |ys| ensures Less(ys[i], last) {
          assert ys[i] in ys;
        }
      } else {
        forall i | 0 <= i < n ensures Less(xs[i], c) { LessTransitive(xs[i], last, c); }
      }
    }
  }

  lemma {:induction false} SortSorts(cs: seq<Comment>)
    requires UniqueIds(cs)
    ensures Sorted(Sort(cs)) && forall x :: x in Sort(cs) <==> x in cs
    ensures var xs := Sort(cs);
            forall i, j :: 0 <= i < j < |xs| ==> xs[i].at < xs[j].at || (xs[i].at == xs[j].at && LexLess(xs[i].id, xs[j].id))
    decreases |cs|
  {
    if cs != [] {
      var n := |cs| - 1;
      var front, last := cs[..n], cs[n];
      assert cs == front + [last];
      SortSorts(front);
      forall i | 0 <= i < |Sort(front)| ensures Sort(front)[i].id != last.id {
        assert Sort(front)[i] in front;
      }
      InsertSorts(last, Sort(front));
    }
  }

  /** A sorted sequence is determined by what is in it. */
  lemma {:induction false} SortedIsUnique(xs: seq<Comment>, ys: seq<Comment>)
    requires Sorted(xs) && Sorted(ys) && forall x :: x in xs <==> x in ys
    ensures xs == ys
    decreases |xs|
  {
    if xs == [] {
      assert forall i :: 0 <= i < |ys| ==> ys[i] in ys;
    } else {
      assert xs[0] in ys;
      var m, n := |xs| - 1, |ys| - 1;
      LastAgree(xs, ys);
      forall x ensures x in xs[..m] <==> x in ys[..n] {
        FrontOf(xs, x);
        FrontOf(ys, x);
      }
      SortedIsUnique(xs[..m], ys[..n]);
      assert xs == xs[..m] + [xs[m]] && ys == ys[..n] + [ys[n]];
    }
  }

  lemma LastAgree(xs: seq<Comment>, ys: seq<Comment>)
    requires Sorted(xs) && Sorted(ys) && xs != [] && ys != [] && forall x :: x in xs <==> x in ys
    ensures xs[|xs| - 1] == ys[|ys| - 1]
  {
    var a, b := xs[|xs| - 1], ys[|ys| - 1];
    assert a in ys && b in xs;
    LessTotal(a, b);
  }

  lemma FrontOf(xs: seq<Comment>, x: Comment)
    requires Sorted(xs) && xs != []
    ensures x in xs[..|xs| - 1] <==> x in xs && x != xs[|xs| - 1]
  {
    LessTotal(xs[|xs| - 1], xs[|xs| - 1]);
    assert xs == xs[..|xs| - 1] + [xs[|xs| - 1]];
  }

  // ----- the context -----

  /** The first comment with the trigger's id. */
  function TriggerIndex(xs: seq<Comment>, trigger: string): (i: Option<nat>)
    ensures i.Some? ==> i.value < |xs|
  {
    if xs == [] then None
    else if xs[0].id == trigger then Some(0)
    else
      var rest := TriggerIndex(xs[1..], trigger);
      if rest.None? then None else Some(rest.value + 1)
  }

  function Collect(blank: Blank, xs: seq<Comment>): Result<seq<Entry>> {
    if xs == [] then Ok([])
    else
      var n := |xs| - 1;
      var front := Collect(blank, xs[..n]);
      if !front.Ok? || !xs[n].public || blank(xs[n].body) then front
      else
        match CommentSide(xs[n])
        case Ok(None) => front
        case Ok(Some(side)) => Ok(front.value + [Entry(xs[n].id, side, xs[n].at, xs[n].body)])
        case IdentityConflict => IdentityConflict
        case TriggerNotFound => TriggerNotFound
  }

  function Context(blank: Blank, cs: seq<Comment>, trigger: string): Result<seq<Entry>> {
    var xs := Sort(cs);
    if trigger == "" then Collect(blank, xs)
    else
      var i := TriggerIndex(xs, trigger);
      if i.None? then TriggerNotFound else Collect(blank, xs[..i.value + 1])
  }

  method FindTrigger(xs: seq<Comment>, trigger: string) returns (r: Option<nat>)
    ensures r == TriggerIndex(xs, trigger)
  {
    for i := 0 to |xs|
      invariant TriggerIndex(xs, trigger) ==
                  var rest := TriggerIndex(xs[i..], trigger); if rest.None? then None else Some(rest.value + i)
    {
      assert xs[i..][1..] == xs[i + 1..];
      if xs[i].id == trigger {
        return Some(i);
      }
    }
    return None;
  }

  lemma {:induction false} CollectFails(blank: Blank, xs: seq<Comment>, k: nat)
    requires k <= |xs| && !Collect(blank, xs[..k]).Ok?
    ensures Collect(blank, xs) == Collect(blank, xs[..k])
    decreases |xs| - k
  {
    if k == |xs| {
      assert xs[..k] == xs;
    } else {
      assert xs[..k + 1][..k] == xs[..k];
      CollectFails(blank, xs, k + 1);
    }
  }

  method CollectEntries(blank: Blank, comments: seq<Comment>) returns (r: Result<seq<Entry>>)
    ensures r == Collect(blank, comments)
  {
    var context: seq<Entry> := [];
    for i := 0 to |comments|
      invariant Collect(blank, comments[..i]) == Ok(context)
    {
      assert comments[..i + 1][..i] == comments[..i];
      var comment := comments[i];
      if !comment.public || blank(comment.body) {
        continue;
      }
      var side := CommentSide(comment);
      if !side.Ok? {
        CollectFails(blank, comments, i + 1);
        return IdentityConflict;
      }
      if side.value.None? {
        continue;
      }
      context := context + [Entry(comment.id, side.value.value, comment.at, comment.body)];
    }
    assert comments[..|comments|] == comments;
    return Ok(context);
  }

  method BuildContext(blank: Blank, cs: seq<Comment>, trigger: string) returns (r: Result<seq<Entry>>)
    ensures r == Context(blank, cs, trigger)
  {
    var comments := Sort(cs);
    if trigger != "" {
      var index := FindTrigger(comments, trigger);
      if index.None? {
        return TriggerNotFound;
      }
      comments := comments[..index.value + 1];
    }
    r := CollectEntries(blank, comments);
  }

  // ----- what the context holds -----

  /** A comment the context is about: public, with a text, at or before the trigger. */
  ghost predicate Counts(blank: Blank, c: Comment, t: Comment) {
    c.public && !blank(c.body) && (c == t || c.at < t.at || (c.at == t.at && LexLess(c.id, t.id)))
  }

  /** The entry that one comment makes. */
  ghost predicate Makes(c: Comment, e: Entry) { CommentSide(c) == Ok(Some(e.side)) && e == Entry(c.id, e.side, c.at, c.body) }

  ghost predicate MadeFrom(blank: Blank, xs: seq<Comment>, e: Entry) {
    exists c :: c in xs && c.public && !blank(c.body) && Makes(c, e)
  }

  ghost predicate Torn(blank: Blank, xs: seq<Comment>) {
    exists c :: c in xs && c.public && !blank(c.body) && CommentSide(c) == IdentityConflict
  }

  lemma {:induction false} CollectedExactly(blank: Blank, xs: seq<Comment>)
    ensures match Collect(blank, xs)
            case Ok(es) => !Torn(blank, xs) && forall e :: e in es <==> MadeFrom(blank, xs, e)
            case IdentityConflict => Torn(blank, xs)
            case TriggerNotFound => false
    decreases |xs|
  {
    if xs != [] {
      var n := |xs| - 1;
      var front, c := xs[..n], xs[n];
      CollectedExactly(blank, front);
      assert xs == front + [c];
      forall e ensures MadeFrom(blank, xs, e) <==> MadeFrom(blank, front, e) || (c.public && !blank(c.body) && Makes(c, e)) {
        MadeSnoc(blank, front, c, e);
      }
      TornSnoc(blank, front, c);
    }
  }

  lemma MadeSnoc(blank: Blank, front: seq<Comment>, c: Comment, e: Entry)
    ensures MadeFrom(blank, front + [c], e) <==> MadeFrom(blank, front, e) || (c.public && !blank(c.body) && Makes(c, e))
  {
    assert forall x :: x in front + [c] <==> x in front || x == c;
  }

  lemma TornSnoc(blank: Blank, front: seq<Comment>, c: Comment)
    ensures Torn(blank, front + [c]) <==> Torn(blank, front) || (c.public && !blank(c.body) && CommentSide(c) == IdentityConflict)
  {
    assert forall x :: x in front + [c] <==> x in front || x == c;
  }

  /** The context of a snapshot that has its trigger: an identity conflict exactly when some comment that
      counts has one; otherwise one entry, with its own side, for each that counts and whose side is known,
      and none else. */
  lemma ContextExactly(blank: Blank, cs: seq<Comment>, t: Comment)
    requires UniqueIds(cs) && t in cs && t.id != ""
    ensures match Context(blank, cs, t.id)
            case Ok(es) =>
              && (forall c :: c in cs && Counts(blank, c, t) ==> CommentSide(c) != IdentityConflict)
              && (forall e :: e in es <==> exists c :: c in cs && Counts(blank, c, t) && Makes(c, e))
            case IdentityConflict => exists c :: c in cs && Counts(blank, c, t) && CommentSide(c) == IdentityConflict
            case TriggerNotFound => false
  {
    var i := CutKeeps(cs, t);
    var xs := Sort(cs)[..i + 1];
    CollectedExactly(blank, xs);
    forall c ensures c in xs && c.public && !blank(c.body) <==> c in cs && Counts(blank, c, t) {
      assert c in xs <==> c in cs && UpTo(c, t);
    }
    forall e ensures MadeFrom(blank, xs, e) <==> exists c :: c in cs && Counts(blank, c, t) && Makes(c, e) {
      if MadeFrom(blank, xs, e) {
        var c :| c in xs && c.public && !blank(c.body) && Makes(c, e);
        assert c in cs && Counts(blank, c, t);
      }
      if c :| c in cs && Counts(blank, c, t) && Makes(c, e) {
        assert c in xs;
      }
    }
  }

  /** It is missing its trigger exactly when no comment has that id. */
  lemma TriggerMissingExactly(blank: Blank, cs: seq<Comment>, trigger: string)
    ensures Context(blank, cs, trigger) == TriggerNotFound <==> trigger != "" && forall c :: c in cs ==> c.id != trigger
  {
    SortKeeps(cs);
    IndexFinds(Sort(cs), trigger);
    CollectedExactly(blank, Sort(cs));
    if trigger != "" && TriggerIndex(Sort(cs), trigger).Some? {
      CollectedExactly(blank, Sort(cs)[..TriggerIndex(Sort(cs), trigger).value + 1]);
    }
  }

  lemma {:induction false} IndexFinds(xs: seq<Comment>, trigger: string)
    ensures TriggerIndex(xs, trigger).None? <==> forall c :: c in xs ==> c.id != trigger
    decreases |xs|
  {
    if xs != [] {
      IndexFinds(xs[1..], trigger);
      assert xs == [xs[0]] + xs[1..];
    }
  }

  // ----- the public messages -----

  /** A message as other parts of the system write it: `open` says that no flag makes it private,
      `internal` that its visibility does, `draft` that it was not sent. */
  datatype Raw = Raw(id: string, role: string, at: string, content: string, open: bool, internal: bool, draft: bool)

  datatype Message = Message(id: string, side: Side, at: string, content: string)

  /** How blanks around an id are removed, and how times and numbers are written. */
  datatype Text = Text(strip: string -> string, iso: int -> string, number: nat -> string)

  function RoleSide(role: string): Option<Side> {
    if role == "customer" || role == "user" then Some(Customer)
    else if role == "assistant" || role == "agent" then Some(Assistant)
    else None
  }

  /** The first name a message has; the last resort is its place, counted from one. */
  function MessageId(text: Text, m: Raw, index: nat): string {
    text.strip(if m.id != "" then m.id else if m.at != "" then m.at else "customer-" + text.number(index))
  }

  predicate Shows(blank: Blank, m: Raw) { RoleSide(m.role).Some? && m.open && !m.internal && !m.draft && !blank(m.content) }

  function Published(blank: Blank, text: Text, ms: seq<Raw>): seq<Message> {
    if ms == [] then []
    else
      var n := |ms| - 1;
      Published(blank, text, ms[..n])
      + if Shows(blank, ms[n]) then [Message(MessageId(text, ms[n], n + 1), RoleSide(ms[n].role).value, ms[n].at, ms[n].content)] else []
  }

  method PublicMessages(blank: Blank, text: Text, messages: seq<Raw>) returns (result: seq<Message>)
    ensures result == Published(blank, text, messages)
  {
    result := [];
    for i := 0 to |messages|
      invariant result == Published(blank, text, messages[..i])
    {
      assert messages[..i + 1][..i] == messages[..i];
      var m := messages[i];
      var side := RoleSide(m.role);
      if side.None? || !m.open || m.internal || m.draft || blank(m.content) {
        continue;
      }
      result := result + [Message(MessageId(text, m, i + 1), side.value, m.at, m.content)];
    }
    assert messages[..|messages|] == messages;
  }

  /** Published are exactly the messages of a customer's or an assistant's that nothing keeps private and that
      were sent with a text. */
  lemma {:induction false} PublishedExactly(blank: Blank, text: Text, ms: seq<Raw>, x: Message)
    ensures x in Published(blank, text, ms) <==>
              exists i :: 0 <= i < |ms| && ms[i].open && !ms[i].internal && !ms[i].draft && !blank(ms[i].content)
                && ms[i].role in {"customer", "user", "assistant", "agent"}
                && x == Message(text.strip(if ms[i].id != "" then ms[i].id else if ms[i].at != "" then ms[i].at else "customer-" + text.number(i + 1)),
                                if ms[i].role == "customer" || ms[i].role == "user" then Customer else Assistant,
                                ms[i].at, ms[i].content)
    decreases |ms|
  {
    if ms != [] {
      var n := |ms| - 1;
      PublishedExactly(blank, text, ms[..n], x);
      assert forall i :: 0 <= i < n ==> ms[..n][i] == ms[i];
      RawRoles(ms[n].role);
      LastPublished(blank, text, ms, x);
    }
  }

  lemma LastPublished(blank: Blank, text: Text, ms: seq<Raw>, x: Message)
    requires ms != []
    ensures var n := |ms| - 1;
            x in Published(blank, text, ms) <==>
              x in Published(blank, text, ms[..n])
              || (Shows(blank, ms[n]) && x == Message(MessageId(text, ms[n], n + 1), RoleSide(ms[n].role).value, ms[n].at, ms[n].content))
  {
  }

  lemma RawRoles(role: string)
    ensures RoleSide(role) == Some(Customer) <==> role == "customer" || role == "user"
    ensures RoleSide(role) == Some(Assistant) <==> role == "assistant" || role == "agent"
  {
    assert "customer"[0] == 'c' && "user"[0] == 'u' && "assistant"[0] == 'a' && "agent"[0] == 'a';
  }

  // ----- the event's context -----

  datatype Snapshot = Snapshot(comments: seq<Comment>, trigger: string)

  datatype Event = Event(id: string, at: int, text: string, snapshot: Option<Snapshot>)

  function AsRaw(text: Text, e: Entry): Raw {
    Raw(e.id, if e.side == Customer then "user" else "assistant", text.iso(e.at), e.content, true, false, false)
  }

  function AsRaws(text: Text, es: seq<Entry>): seq<Raw> { seq(|es|, i requires 0 <= i < |es| => AsRaw(text, es[i])) }

  /** What an event's router is given. */
  function Routed(blank: Blank, text: Text, e: Event): Result<seq<Message>> {
    if e.snapshot.None? then
      Ok(Published(blank, text, [Raw(e.id, "customer", text.iso(e.at), e.text, true, false, false)]))
    else
      match Context(blank, e.snapshot.value.comments, e.snapshot.value.trigger)
      case Ok(entries) => Ok(Published(blank, text, AsRaws(text, entries)))
      case IdentityConflict => IdentityConflict
      case TriggerNotFound => TriggerNotFound
  }

  method RoutedContext(blank: Blank, text: Text, e: Event) returns (r: Result<seq<Message>>)
    ensures r == Routed(blank, text, e)
  {
    if e.snapshot.None? {
      var alone := PublicMessages(blank, text, [Raw(e.id, "customer", text.iso(e.at), e.text, true, false, false)]);
      return Ok(alone);
    }
    var context := BuildContext(blank, e.snapshot.value.comments, e.snapshot.value.trigger);
    match context {
      case Ok(entries) =>
        var messages := PublicMessages(blank, text, AsRaws(text, entries));
        return Ok(messages);
      case IdentityConflict => return IdentityConflict;
      case TriggerNotFound => return TriggerNotFound;
    }
  }

  /** The last pass drops nothing and mixes nothing up: it keeps every collected comment, in order, with
      its own id, side, time and text. Ids are the snapshot's, not blank and without blanks around. */
  lemma NothingIsLost(blank: Blank, text: Text, e: Event)
    requires e.snapshot.Some? && forall c :: c in e.snapshot.value.comments ==> c.id != "" && text.strip(c.id) == c.id
    ensures match Context(blank, e.snapshot.value.comments, e.snapshot.value.trigger)
            case Ok(entries) =>
              Routed(blank, text, e) == Ok(seq(|entries|, i requires 0 <= i < |entries| =>
                Message(entries[i].id, entries[i].side, text.iso(entries[i].at), entries[i].content)))
            case IdentityConflict => Routed(blank, text, e) == IdentityConflict
            case TriggerNotFound => Routed(blank, text, e) == TriggerNotFound
  {
    var s := e.snapshot.value;
    if Context(blank, s.comments, s.trigger).Ok? {
      var entries := Context(blank, s.comments, s.trigger).value;
      var xs := Sort(s.comments);
      SortKeeps(s.comments);
      var ys := if s.trigger == "" then xs else xs[..TriggerIndex(xs, s.trigger).value + 1];
      CollectedFrom(blank, ys);
      assert forall i :: 0 <= i < |entries| ==> entries[i].id != "" && text.strip(entries[i].id) == entries[i].id && !blank(entries[i].content);
      AllPublished(blank, text, entries);
    }
  }

  /** Every entry stands for a public comment with its id and a text that is not blank. */
  lemma {:induction false} CollectedFrom(blank: Blank, xs: seq<Comment>)
    ensures Collect(blank, xs).Ok? ==>
              forall i :: 0 <= i < |Collect(blank, xs).value| ==>
                var e := Collect(blank, xs).value[i]; !blank(e.content) && exists c :: c in xs && c.public && c.id == e.id && c.body == e.content
    decreases |xs|
  {
    if xs != [] {
      var n := |xs| - 1;
      CollectedFrom(blank, xs[..n]);
      if Collect(blank, xs).Ok? {
        var es := Collect(blank, xs).value;
        forall i | 0 <= i < |es| ensures !blank(es[i].content) && exists c :: c in xs && c.public && c.id == es[i].id && c.body == es[i].content {
          var front := Collect(blank, xs[..n]).value;
          if i < |front| {
            assert es[i] == front[i];
            var c :| c in xs[..n] && c.public && c.id == front[i].id && c.body == front[i].content;
            assert c in xs;
          } else {
            assert xs[n] in xs;
          }
        }
      }
    }
  }

  lemma {:induction false} AllPublished(blank: Blank, text: Text, es: seq<Entry>)
    requires forall i :: 0 <= i < |es| ==> es[i].id != "" && text.strip(es[i].id) == es[i].id && !blank(es[i].content)
    ensures Published(blank, text, AsRaws(text, es)) ==
              seq(|es|, i requires 0 <= i < |es| => Message(es[i].id, es[i].side, text.iso(es[i].at), es[i].content))
    decreases |es|
  {
    if es != [] {
      var n := |es| - 1;
      AllPublished(blank, text, es[..n]);
      assert AsRaws(text, es)[..n] == AsRaws(text, es[..n]);
    }
  }

  lemma {:induction false} InsertKeeps(c: Comment, xs: seq<Comment>)
    ensures forall x :: x in Insert(c, xs) <==> x == c || x in xs
    decreases |xs|
  {
    if xs != [] && Less(c, xs[|xs| - 1]) {
      InsertKeeps(c, xs[..|xs| - 1]);
      assert xs == xs[..|xs| - 1] + [xs[|xs| - 1]];
    }
  }

  lemma {:induction false} SortKeeps(cs: seq<Comment>)
    ensures forall x :: x in Sort(cs) <==> x in cs
    decreases |cs|
  {
    if cs != [] {
      SortKeeps(cs[..|cs| - 1]);
      InsertKeeps(cs[|cs| - 1], Sort(cs[..|cs| - 1]));
      assert cs == cs[..|cs| - 1] + [cs[|cs| - 1]];
    }
  }

  // ----- what it depends on -----

  /** At or before the trigger, in the order of the sort. */
  predicate UpTo(c: Comment, trigger: Comment) { c == trigger || Less(c, trigger) }

  lemma {:induction false} TriggerFound(xs: seq<Comment>, t: Comment)
    requires UniqueIds(xs) && t in xs
    ensures var i := TriggerIndex(xs, t.id); i.Some? && i.value < |xs| && xs[i.value] == t
    decreases |xs|
  {
    if xs[0] != t { TriggerFound(xs[1..], t); }
    if xs[0] == t {
    } else {
      var k :| 0 <= k < |xs| && xs[k] == t;
      assert xs[0].id != xs[k].id;
    }
  }

  lemma SortedUnique(cs: seq<Comment>)
    requires UniqueIds(cs)
    ensures UniqueIds(Sort(cs))
  {
    var xs := Sort(cs);
    SortSorts(cs);
    forall i, j | 0 <= i < j < |xs| ensures xs[i].id != xs[j].id {
      assert xs[i] in cs && xs[j] in cs;
      LessTotal(xs[i], xs[j]);
      LessTotal(xs[i], xs[i]);
      var a :| 0 <= a < |cs| && cs[a] == xs[i];
      var b :| 0 <= b < |cs| && cs[b] == xs[j];
      assert a != b;
    }
  }

  /** The cut keeps exactly the comments up to the trigger. */
  lemma CutKeeps(cs: seq<Comment>, t: Comment) returns (i: nat)
    requires UniqueIds(cs) && t in cs
    ensures i < |Sort(cs)| && TriggerIndex(Sort(cs), t.id) == Some(i)
    ensures Sorted(Sort(cs)[..i + 1]) && forall x :: x in Sort(cs)[..i + 1] <==> x in cs && UpTo(x, t)
  {
    var xs := Sort(cs);
    SortSorts(cs);
    SortedUnique(cs);
    TriggerFound(xs, t);
    i := TriggerIndex(xs, t.id).value;
    forall x ensures x in xs[..i + 1] <==> x in cs && UpTo(x, t) {
      if x in xs[..i + 1] {
        var k :| 0 <= k < i + 1 && xs[k] == x;
      }
      if x in cs && UpTo(x, t) {
        var k :| 0 <= k < |xs| && xs[k] == x;
        LessTotal(x, t);
        assert k <= i;
        assert xs[..i + 1][k] == x;
      }
    }
  }

  /** The context depends on the trigger and the comments up to it alone: two snapshots that agree on
      these give the same result, whatever their order, and whatever comments come later, even ones
      whose author identity is in conflict. */
  lemma OnlyThePastMatters(blank: Blank, cs: seq<Comment>, ds: seq<Comment>, t: Comment)
    requires UniqueIds(cs) && UniqueIds(ds) && t in cs && t in ds && t.id != ""
    requires forall x :: UpTo(x, t) ==> (x in cs <==> x in ds)
    ensures Context(blank, cs, t.id) == Context(blank, ds, t.id)
  {
    var i := CutKeeps(cs, t);
    var j := CutKeeps(ds, t);
    var xs, ys := Sort(cs)[..i + 1], Sort(ds)[..j + 1];
    forall x ensures x in xs <==> x in ys {
      assert x in xs <==> x in cs && UpTo(x, t);
      assert x in ys <==> x in ds && UpTo(x, t);
    }
    SortedIsUnique(xs, ys);
  }

  /** Adding comments after the trigger changes nothing. */
  lemma LaterCommentsDoNotMatter(blank: Blank, cs: seq<Comment>, later: seq<Comment>, t: Comment)
    requires UniqueIds(cs + later) && t in cs && t.id != ""
    requires forall x :: x in later ==> Less(t, x)
    ensures Context(blank, cs + later, t.id) == Context(blank, cs, t.id)
  {
    forall i, j | 0 <= i < j < |cs| ensures cs[i].id != cs[j].id {
      assert (cs + later)[i].id != (cs + later)[j].id;
    }
    forall x | UpTo(x, t) ensures x in cs + later <==> x in cs {
      if x in later { LessTotal(x, t); }
    }
    OnlyThePastMatters(blank, cs + later, cs, t);
  }

  /** The order of the snapshot changes nothing, with a trigger or without. */
  lemma OrderDoesNotMatter(blank: Blank, cs: seq<Comment>, ds: seq<Comment>, trigger: string)
    requires UniqueIds(cs) && multiset(cs) == multiset(ds)
    ensures Context(blank, cs, trigger) == Context(blank, ds, trigger)
  {
    PermutedUnique(cs, ds);
    SortSorts(cs);
    SortSorts(ds);
    forall x ensures x in cs <==> x in ds { assert x in multiset(cs) <==> x in multiset(ds); }
    SortedIsUnique(Sort(cs), Sort(ds));
  }

  lemma PermutedUnique(cs: seq<Comment>, ds: seq<Comment>)
    requires UniqueIds(cs) && multiset(cs) == multiset(ds)
    ensures UniqueIds(ds)
  {
    forall i, j | 0 <= i < j < |ds| ensures ds[i].id != ds[j].id {
      var c, d := ds[i], ds[j];
      assert c in multiset(cs) && d in multiset(cs);
      var a :| 0 <= a < |cs| && cs[a] == c;
      var b :| 0 <= b < |cs| && cs[b] == d;
      if c == d {
        assert ds == ds[..i] + [c] + ds[i + 1..j] + [c] + ds[j + 1..];
        assert multiset(ds)[c] >= 2;
        OnceIn(cs, a);
      }
    }
  }

  lemma OnceIn(cs: seq<Comment>, a: nat)
    requires UniqueIds(cs) && a < |cs|
    ensures multiset(cs)[cs[a]] == 1
  {
    assert cs == cs[..a] + [cs[a]] + cs[a + 1..];
    assert cs[a] !in cs[..a] && cs[a] !in cs[a + 1..];
  }
}
