/** Moving the legacy tables to the archive schema in one transaction, with a manifest. */
module SchemaArchiver {
  import opened Machines

  datatype Kind = Table | Sequence | Index

  /** How a sequence depends on its table: `Auto` for an owned sequence, `Internal` for an identity
      column's. */
  datatype Dependency = Auto | Internal

  /** A relation of the catalog; its position there is its identity. */
  datatype Rel = Rel(schema: string, name: string, kind: Kind, owner: Option<nat>, dependency: Dependency)

  datatype Row = Row(name: string, isSequence: bool)

  const LEGACY: seq<string> := [
    "support_tickets", "support_ticket_messages", "support_ticket_events", "support_knowledge_ingestions",
    "support_knowledge_documents", "docagent", "docagent_chunks"]

  const MANIFEST := "legacy_archive_manifest"

  predicate At(r: Rel, s: string, n: string) { r.schema == s && r.name == n }

  predicate Present(rels: seq<Rel>, s: string, n: string) { exists i :: 0 <= i < |rels| && At(rels[i], s, n) }

  ghost predicate Unique(rels: seq<Rel>) {
    forall i, j :: 0 <= i < j < |rels| ==> !(rels[i].schema == rels[j].schema && rels[i].name == rels[j].name)
  }

  /** Names are unique within a schema; what a table owns lives in its schema and is no table. */
  ghost predicate Valid(rels: seq<Rel>) {
    && Unique(rels)
    && forall i :: 0 <= i < |rels| && rels[i].owner.Some? ==>
         && rels[i].owner.value < |rels| && rels[i].kind != Table
         && rels[rels[i].owner.value].kind == Table && rels[rels[i].owner.value].schema == rels[i].schema
  }

  predicate OwnedBy(rels: seq<Rel>, i: nat, s: string, t: string)
    requires i < |rels|
  {
    rels[i].owner.Some? && rels[i].owner.value < |rels| && At(rels[rels[i].owner.value], s, t)
  }

  /** What ALTER TABLE ... SET SCHEMA takes along: the table, its indexes and its sequences. */
  predicate Goes(rels: seq<Rel>, s: string, t: string, i: nat)
    requires i < |rels|
  {
    rels[i].schema == s && (rels[i].name == t || OwnedBy(rels, i, s, t))
  }

  predicate GoesWith(rels: seq<Rel>, s: string, ts: seq<string>, i: nat)
    requires i < |rels|
  {
    exists k :: 0 <= k < |ts| && Goes(rels, s, ts[k], i)
  }

  function Moved(rels: seq<Rel>, s: string, ts: seq<string>, a: string): seq<Rel> {
    seq(|rels|, i requires 0 <= i < |rels| => if GoesWith(rels, s, ts, i) then rels[i].(schema := a) else rels[i])
  }

  /** Indexes and owned sequences cannot be moved by themselves. */
  predicate Movable(r: Rel) { r.kind == Table || (r.kind == Sequence && r.owner.None?) }

  predicate Alterable(rels: seq<Rel>, s: string, t: string, a: string) {
    && Present(rels, s, t)
    && (forall i :: 0 <= i < |rels| && At(rels[i], s, t) ==> Movable(rels[i]))
    && (forall i :: 0 <= i < |rels| && Goes(rels, s, t, i) ==> !Present(rels, a, rels[i].name))
  }

  function AlterTable(rels: seq<Rel>, s: string, t: string, a: string): Option<seq<Rel>> {
    if Alterable(rels, s, t, a) then Some(Moved(rels, s, [t], a)) else None
  }

  // ----- the plan -----

  /** The legacy names present. */
  function Planned(rels: seq<Rel>, s: string, names: seq<string>): seq<string> {
    if names == [] then []
    else
      var n := |names| - 1;
      Planned(rels, s, names[..n]) + if Present(rels, s, names[n]) then [names[n]] else []
  }

  predicate Owned(rels: seq<Rel>, s: string, t: string, i: nat)
    requires i < |rels|
  {
    rels[i].kind == Sequence && rels[i].dependency == Auto && rels[i].schema == s && OwnedBy(rels, i, s, t)
  }

  /** The owned sequences of a table among the first `n` relations. */
  function OwnedUpTo(rels: seq<Rel>, s: string, t: string, n: nat): seq<nat>
    requires n <= |rels|
  {
    if n == 0 then [] else OwnedUpTo(rels, s, t, n - 1) + if Owned(rels, s, t, n - 1) then [n - 1] else []
  }

  function PlannedSequences(rels: seq<Rel>, s: string, ts: seq<string>): seq<nat> {
    if ts == [] then []
    else PlannedSequences(rels, s, ts[..|ts| - 1]) + OwnedUpTo(rels, s, ts[|ts| - 1], |rels|)
  }

  function LegacyTables(rels: seq<Rel>, s: string): seq<string> { Planned(rels, s, LEGACY) }

  function LegacySequences(rels: seq<Rel>, s: string): seq<nat> { PlannedSequences(rels, s, LegacyTables(rels, s)) }

  function WithManifest(rels: seq<Rel>, a: string): seq<Rel> {
    if Present(rels, a, MANIFEST) then rels else rels + [Rel(a, MANIFEST, Table, None, Auto)]
  }

  function TableRows(ts: seq<string>): seq<Row> { seq(|ts|, k requires 0 <= k < |ts| => Row(ts[k], false)) }

  function SequenceRows(rels: seq<Rel>, indices: seq<nat>): seq<Row> {
    seq(|indices|, k requires 0 <= k < |indices| => Row(if indices[k] < |rels| then rels[indices[k]].name else "", true))
  }

  function Rows(rels: seq<Rel>, s: string): seq<Row> {
    TableRows(LegacyTables(rels, s)) + SequenceRows(rels, LegacySequences(rels, s))
  }

  function Archived(rels: seq<Rel>, s: string, a: string): seq<Rel> {
    Moved(WithManifest(rels, a), s, LegacyTables(rels, s), a)
  }

  /** When an executed run goes through. */
  ghost predicate Archivable(rels: seq<Rel>, s: string, a: string) {
    var base := WithManifest(rels, a);
    && (forall i :: 0 <= i < |rels| && rels[i].schema == s && rels[i].name in LEGACY ==> Movable(rels[i]))
    && (forall i :: 0 <= i < |rels| && GoesWith(base, s, LegacyTables(rels, s), i) ==> !Present(base, a, rels[i].name))
  }

  lemma {:induction false} PlannedNames(rels: seq<Rel>, s: string, names: seq<string>, t: string)
    ensures t in Planned(rels, s, names) <==> t in names && Present(rels, s, t)
    decreases |names|
  {
    if names != [] {
      var n := |names| - 1;
      PlannedNames(rels, s, names[..n], t);
      assert names == names[..n] + [names[n]];
    }
  }

  lemma {:induction false} OwnedIndices(rels: seq<Rel>, s: string, t: string, n: nat, i: nat)
    requires n <= |rels|
    ensures i in OwnedUpTo(rels, s, t, n) <==> i < n && Owned(rels, s, t, i)
  {
    if n > 0 { OwnedIndices(rels, s, t, n - 1, i); }
  }

  predicate OwnedByAny(rels: seq<Rel>, s: string, ts: seq<string>, i: nat)
    requires i < |rels|
  {
    exists k :: 0 <= k < |ts| && Owned(rels, s, ts[k], i)
  }

  lemma AnySnoc(rels: seq<Rel>, s: string, ts: seq<string>, t: string, i: nat)
    requires i < |rels|
    ensures OwnedByAny(rels, s, ts + [t], i) <==> OwnedByAny(rels, s, ts, i) || Owned(rels, s, t, i)
  {
    assert (ts + [t])[|ts|] == t;
    assert forall k :: 0 <= k < |ts| ==> (ts + [t])[k] == ts[k];
  }

  lemma {:induction false} PlannedIndices(rels: seq<Rel>, s: string, ts: seq<string>, i: nat)
    ensures i in PlannedSequences(rels, s, ts) <==> i < |rels| && OwnedByAny(rels, s, ts, i)
    decreases |ts|
  {
    if ts != [] {
      var n := |ts| - 1;
      PlannedIndices(rels, s, ts[..n], i);
      OwnedIndices(rels, s, ts[n], |rels|, i);
      if i < |rels| { AnySnoc(rels, s, ts[..n], ts[n], i); }
      assert ts == ts[..n] + [ts[n]];
    }
  }

  // ----- one ALTER after another -----

  /** With the first tables gone, altering the next one is moving it from where everything was. */
  lemma NextTable(base: seq<Rel>, s: string, ts: seq<string>, t: string, a: string)
    requires Valid(base) && s != a && Present(base, s, t)
    requires Present(Moved(base, s, ts, a), s, t)
    ensures Moved(Moved(base, s, ts, a), s, [t], a) == Moved(base, s, ts + [t], a)
    ensures forall i :: 0 <= i < |base| && !GoesWith(base, s, ts, i) ==> (Goes(Moved(base, s, ts, a), s, t, i) <==> Goes(base, s, t, i))
  {
    var w := Moved(base, s, ts, a);
    var j :| 0 <= j < |w| && At(w[j], s, t);
    forall i | 0 <= i < |base|
      ensures GoesWith(base, s, ts + [t], i) <==> GoesWith(base, s, ts, i) || Goes(base, s, t, i)
      ensures GoesWith(w, s, [t], i) <==> Goes(w, s, t, i)
      ensures !GoesWith(base, s, ts, i) ==> (Goes(w, s, t, i) <==> Goes(base, s, t, i))
      ensures GoesWith(base, s, ts, i) ==> !Goes(w, s, t, i)
    {
      assert (ts + [t])[|ts|] == t;
      assert forall k :: 0 <= k < |ts| ==> (ts + [t])[k] == ts[k];
      assert [t][0] == t;
      if !GoesWith(base, s, ts, i) && OwnedBy(base, i, s, t) {
        assert base[i].owner.value == j;
      }
    }
  }

  /** What is named like a table of its own right does not go with another one. */
  lemma NotTakenAlong(base: seq<Rel>, s: string, ts: seq<string>, t: string, j: nat)
    requires Valid(base) && j < |base| && At(base[j], s, t) && Movable(base[j]) && t !in ts
    ensures !GoesWith(base, s, ts, j)
  {
    assert base[j].owner.None?;
  }

  lemma StaysFree(base: seq<Rel>, s: string, ts: seq<string>, a: string, i: nat)
    requires Valid(base) && s != a && i < |base| && base[i].schema == s
    requires !GoesWith(base, s, ts, i) && !Present(base, a, base[i].name)
    ensures !Present(Moved(base, s, ts, a), a, base[i].name)
  {
    var w := Moved(base, s, ts, a);
    forall k | 0 <= k < |w| ensures !At(w[k], a, base[i].name) {
      if GoesWith(base, s, ts, k) {
        assert k != i;
      } else {
        assert w[k] == base[k];
      }
    }
  }

  /** Nothing collides with the next table if nothing collides with it where everything was. */
  lemma NextAlterable(base: seq<Rel>, s: string, ts: seq<string>, t: string, a: string)
    requires Valid(base) && s != a && (forall i :: 0 <= i < |base| && At(base[i], s, t) ==> Movable(base[i]))
    requires Present(base, s, t) && t !in ts
    requires forall i :: 0 <= i < |base| && Goes(base, s, t, i) ==> !Present(base, a, base[i].name)
    ensures Alterable(Moved(base, s, ts, a), s, t, a)
  {
    var w := Moved(base, s, ts, a);
    var j :| 0 <= j < |base| && At(base[j], s, t);
    NotTakenAlong(base, s, ts, t, j);
    assert At(w[j], s, t);
    NextTable(base, s, ts, t, a);
    forall i | 0 <= i < |w| && Goes(w, s, t, i) ensures !Present(w, a, w[i].name) {
      assert w[i].schema == s;
      assert !GoesWith(base, s, ts, i) && w[i] == base[i];
      StaysFree(base, s, ts, a, i);
    }
  }

  lemma AlterableMeans(base: seq<Rel>, s: string, ts: seq<string>, t: string, a: string)
    requires Valid(base) && s != a && Present(base, s, t) && Alterable(Moved(base, s, ts, a), s, t, a)
    ensures forall i :: 0 <= i < |base| && At(base[i], s, t) ==> Movable(base[i])
    ensures forall i :: 0 <= i < |base| && Goes(base, s, t, i) && !GoesWith(base, s, ts, i) ==> !Present(base, a, base[i].name)
  {
    var w := Moved(base, s, ts, a);
    NextTable(base, s, ts, t, a);
    var j :| 0 <= j < |w| && At(w[j], s, t);
    assert Movable(w[j]) && w[j] == base[j];
    forall i | 0 <= i < |base| && Goes(base, s, t, i) && !GoesWith(base, s, ts, i) ensures !Present(base, a, base[i].name) {
      assert Goes(w, s, t, i) && w[i] == base[i];
      forall k | 0 <= k < |base| ensures !At(base[k], a, base[i].name) {
        assert base[k].schema == a ==> w[k] == base[k];
      }
    }
  }

  method OwnedSequences(rels: seq<Rel>, s: string, t: string) returns (found: seq<nat>)
    ensures found == OwnedUpTo(rels, s, t, |rels|)
  {
    found := [];
    for i := 0 to |rels|
      invariant found == OwnedUpTo(rels, s, t, i)
    {
      if Owned(rels, s, t, i) {
        found := found + [i];
      }
    }
  }

  predicate NamesFree(rels: seq<Rel>, indices: seq<nat>, a: string) {
    forall k :: 0 <= k < |indices| ==> indices[k] < |rels| && !Present(rels, a, rels[indices[k]].name)
  }

  /** Every legacy table present, and every sequence it owns, has its name free in the archive. */
  ghost predicate Plannable(rels: seq<Rel>, s: string, a: string, names: seq<string>) {
    && (forall t :: t in names && Present(rels, s, t) ==> !Present(rels, a, t))
    && NamesFree(rels, PlannedSequences(rels, s, Planned(rels, s, names)), a)
  }

  lemma OwnedIsPlanned(rels: seq<Rel>, s: string, names: seq<string>, t: string, i: nat)
    requires t in names && Present(rels, s, t) && i < |rels| && Owned(rels, s, t, i)
    ensures i in PlannedSequences(rels, s, Planned(rels, s, names))
  {
    var ts := Planned(rels, s, names);
    PlannedNames(rels, s, names, t);
    var k :| 0 <= k < |ts| && ts[k] == t;
    assert OwnedByAny(rels, s, ts, i);
    PlannedIndices(rels, s, ts, i);
  }

  /** The check of one table's sequences; `Some` lists them. */
  method PlanSequences(rels: seq<Rel>, s: string, names: seq<string>, t: string, a: string) returns (owned: Option<seq<nat>>)
    requires t in names && Present(rels, s, t)
    ensures owned.Some? ==> owned.value == OwnedUpTo(rels, s, t, |rels|) && NamesFree(rels, owned.value, a)
    ensures owned.None? ==> !Plannable(rels, s, a, names)
  {
    var found := OwnedSequences(rels, s, t);
    for m := 0 to |found|
      invariant forall j :: 0 <= j < m ==> found[j] < |rels| && !Present(rels, a, rels[found[j]].name)
    {
      OwnedIndices(rels, s, t, |rels|, found[m]);
      if Present(rels, a, rels[found[m]].name) {
        OwnedIsPlanned(rels, s, names, t, found[m]);
        return None;
      }
    }
    return Some(found);
  }

  method Plan(rels: seq<Rel>, s: string, a: string, names: seq<string>) returns (plan: Option<(seq<string>, seq<nat>)>)
    ensures plan.Some? <==> Plannable(rels, s, a, names)
    ensures plan.Some? ==>
              var ts := Planned(rels, s, names); plan.value == (ts, PlannedSequences(rels, s, ts))
  {
    var tables: seq<string>, sequences: seq<nat> := [], [];
    for k := 0 to |names|
      invariant tables == Planned(rels, s, names[..k]) && sequences == PlannedSequences(rels, s, tables)
      invariant forall j :: 0 <= j < k && Present(rels, s, names[j]) ==> !Present(rels, a, names[j])
      invariant NamesFree(rels, sequences, a)
    {
      var t := names[k];
      assert names[..k + 1][..k] == names[..k];
      if !Present(rels, s, t) {
        continue;
      }
      if Present(rels, a, t) {
        return None;
      }
      var owned := PlanSequences(rels, s, names, t, a);
      if owned.None? {
        return None;
      }
      assert (tables + [t])[..|tables|] == tables;
      tables := tables + [t];
      sequences := sequences + owned.value;
    }
    assert names[..|names|] == names;
    return Some((tables, sequences));
  }

  /** When moving these tables goes through. */
  ghost predicate Clear(base: seq<Rel>, s: string, ts: seq<string>, a: string) {
    && (forall i :: 0 <= i < |base| && base[i].schema == s && base[i].name in ts ==> Movable(base[i]))
    && (forall i :: 0 <= i < |base| && GoesWith(base, s, ts, i) ==> !Present(base, a, base[i].name))
  }

  lemma ClearSnoc(base: seq<Rel>, s: string, ts: seq<string>, t: string, a: string)
    ensures Clear(base, s, ts + [t], a) <==>
              Clear(base, s, ts, a)
              && (forall i :: 0 <= i < |base| && At(base[i], s, t) ==> Movable(base[i]))
              && (forall i :: 0 <= i < |base| && Goes(base, s, t, i) ==> !Present(base, a, base[i].name))
  {
    assert (ts + [t])[|ts|] == t;
    forall i | 0 <= i < |base|
      ensures GoesWith(base, s, ts + [t], i) <==> GoesWith(base, s, ts, i) || Goes(base, s, t, i)
    {
      assert forall k :: 0 <= k < |ts| ==> (ts + [t])[k] == ts[k];
    }
    assert forall n: string :: n in ts + [t] <==> n in ts || n == t;
  }

  lemma {:induction false} ClearPrefix(base: seq<Rel>, s: string, ts: seq<string>, k: nat, a: string)
    requires k <= |ts| && Clear(base, s, ts, a)
    ensures Clear(base, s, ts[..k], a)
    decreases |ts| - k
  {
    if k < |ts| {
      ClearPrefix(base, s, ts, k + 1, a);
      assert ts[..k + 1] == ts[..k] + [ts[k]];
      ClearSnoc(base, s, ts[..k], ts[k], a);
    } else {
      assert ts[..k] == ts;
    }
  }

  /** Alters the planned tables one by one, with a manifest row for each. */
  method MoveTables(base: seq<Rel>, s: string, a: string, ts: seq<string>, manifest: seq<Row>)
    returns (moved: Option<(seq<Rel>, seq<Row>)>)
    requires Valid(base) && (ts != [] ==> s != a)
    requires forall k :: 0 <= k < |ts| ==> Present(base, s, ts[k]) && ts[k] !in ts[..k]
    ensures moved.Some? <==> Clear(base, s, ts, a)
    ensures moved.Some? ==> moved.value == (Moved(base, s, ts, a), manifest + TableRows(ts))
  {
    var work, rows := base, manifest;
    assert Moved(base, s, [], a) == base && rows == manifest + TableRows([]);
    for k := 0 to |ts|
      invariant work == Moved(base, s, ts[..k], a) && rows == manifest + TableRows(ts[..k])
      invariant Clear(base, s, ts[..k], a)
    {
      assert ts[..k + 1] == ts[..k] + [ts[k]];
      ClearSnoc(base, s, ts[..k], ts[k], a);
      var next := AlterTable(work, s, ts[k], a);
      if next.None? {
        if Clear(base, s, ts, a) {
          ClearPrefix(base, s, ts, k + 1, a);
          NextAlterable(base, s, ts[..k], ts[k], a);
        }
        return None;
      }
      AlterableMeans(base, s, ts[..k], ts[k], a);
      NextTable(base, s, ts[..k], ts[k], a);
      work := next.value;
      rows := rows + [Row(ts[k], false)];
      assert TableRows(ts[..k + 1]) == TableRows(ts[..k]) + [Row(ts[k], false)];
    }
    assert ts[..|ts|] == ts;
    return Some((work, rows));
  }

  /** The planned sequences have moved with their tables: the explicit move of one that is still in
      the source schema is never needed, and none disappears. */
  method RecordSequences(base: seq<Rel>, work: seq<Rel>, s: string, a: string, ts: seq<string>, indices: seq<nat>, manifest: seq<Row>)
    returns (rows: Option<seq<Row>>)
    requires Valid(base) && work == Moved(base, s, ts, a) && (ts != [] ==> s != a)
    requires forall k :: 0 <= k < |indices| ==> indices[k] < |base| && OwnedByAny(base, s, ts, indices[k])
    ensures rows == Some(manifest + SequenceRows(base, indices))
  {
    var out := manifest;
    for k := 0 to |indices|
      invariant out == manifest + SequenceRows(base, indices[..k])
    {
      var name := base[indices[k]].name;
      SequenceWent(base, s, ts, a, indices[k]);
      if Present(work, s, name) {
        return None;
      } else if !Present(work, a, name) {
        return None;
      }
      out := out + [Row(name, true)];
      assert SequenceRows(base, indices[..k + 1]) == SequenceRows(base, indices[..k]) + [Row(name, true)];
    }
    assert indices[..|indices|] == indices;
    return Some(out);
  }

  lemma SequenceWent(base: seq<Rel>, s: string, ts: seq<string>, a: string, i: nat)
    requires Valid(base) && i < |base| && OwnedByAny(base, s, ts, i) && s != a
    ensures !Present(Moved(base, s, ts, a), s, base[i].name) && Present(Moved(base, s, ts, a), a, base[i].name)
  {
    var w := Moved(base, s, ts, a);
    var k :| 0 <= k < |ts| && Owned(base, s, ts[k], i);
    assert Goes(base, s, ts[k], i);
    assert At(w[i], a, base[i].name);
    forall j | 0 <= j < |w| ensures !At(w[j], s, base[i].name) {
      if !GoesWith(base, s, ts, j) { assert j != i && w[j] == base[j]; }
    }
  }

  // ----- the whole run -----

  lemma ManifestValid(rels: seq<Rel>, a: string)
    requires Valid(rels)
    ensures Valid(WithManifest(rels, a)) && rels <= WithManifest(rels, a)
    ensures forall s, n :: Present(rels, s, n) ==> Present(WithManifest(rels, a), s, n)
  {
    var base := WithManifest(rels, a);
    assert forall i :: 0 <= i < |rels| ==> base[i] == rels[i];
  }

  ghost predicate Distinct<T>(xs: seq<T>) { forall i, j :: 0 <= i < j < |xs| ==> xs[i] != xs[j] }

  lemma {:induction false} PlannedDistinct(rels: seq<Rel>, s: string, names: seq<string>)
    requires Distinct(names)
    ensures Distinct(Planned(rels, s, names))
    decreases |names|
  {
    if names != [] {
      var n := |names| - 1;
      PlannedDistinct(rels, s, names[..n]);
      PlannedNames(rels, s, names[..n], names[n]);
    }
  }

  lemma LegacyDistinct()
    ensures Distinct(LEGACY)
    ensures MANIFEST !in LEGACY
  {
    var fingerprint := (t: string) => (|t|, if |t| > 10 then t[10] else ' ', if |t| > 20 then t[20] else ' ');
    forall i, j | 0 <= i < j < |LEGACY| ensures LEGACY[i] != LEGACY[j] {
      assert fingerprint(LEGACY[i]) != fingerprint(LEGACY[j]);
    }
  }

  /** The planned tables, seen with the manifest created. */
  lemma PlanFacts(rels: seq<Rel>, s: string, a: string)
    requires Valid(rels)
    ensures var ts, base := LegacyTables(rels, s), WithManifest(rels, a);
            && Distinct(ts)
            && (forall k :: 0 <= k < |ts| ==> ts[k] in LEGACY && Present(rels, s, ts[k]) && Present(base, s, ts[k]))
            && (Archivable(rels, s, a) ==> Plannable(rels, s, a, LEGACY))
            && (Plannable(rels, s, a, LEGACY) && ts != [] ==> s != a)
  {
    var ts, base := LegacyTables(rels, s), WithManifest(rels, a);
    LegacyDistinct();
    PlannedDistinct(rels, s, LEGACY);
    ManifestValid(rels, a);
    forall k | 0 <= k < |ts| ensures ts[k] in LEGACY && Present(rels, s, ts[k]) {
      PlannedNames(rels, s, LEGACY, ts[k]);
    }
    if Archivable(rels, s, a) {
      forall t | t in LEGACY && Present(rels, s, t) ensures !Present(rels, a, t) {
        PlannedNames(rels, s, LEGACY, t);
        var k :| 0 <= k < |ts| && ts[k] == t;
        var i :| 0 <= i < |rels| && At(rels[i], s, t);
        assert Goes(base, s, ts[k], i);
      }
      var indices := LegacySequences(rels, s);
      forall m | 0 <= m < |indices| ensures indices[m] < |rels| && !Present(rels, a, rels[indices[m]].name) {
        PlannedIndices(rels, s, ts, indices[m]);
        var k :| 0 <= k < |ts| && Owned(rels, s, ts[k], indices[m]);
        assert Goes(base, s, ts[k], indices[m]);
      }
    }
  }

  lemma PlannedIsLegacyName(rels: seq<Rel>, s: string, a: string, i: nat)
    requires Valid(rels) && i < |rels| && rels[i].schema == s
    ensures var base := WithManifest(rels, a); i < |base| && base[i] == rels[i] && (rels[i].name in LEGACY <==> base[i].name in LegacyTables(rels, s))
  {
    ManifestValid(rels, a);
    PlannedNames(rels, s, LEGACY, rels[i].name);
    assert At(rels[i], s, rels[i].name);
  }

  /** The manifest itself neither moves nor is a legacy table. */
  lemma ManifestStays(rels: seq<Rel>, s: string, a: string)
    requires Valid(rels) && Plannable(rels, s, a, LEGACY)
    ensures var base := WithManifest(rels, a);
            forall i :: |rels| <= i < |base| ==> base[i].name !in LegacyTables(rels, s) && !GoesWith(base, s, LegacyTables(rels, s), i)
  {
    PlanFacts(rels, s, a);
    LegacyDistinct();
  }

  /** An executed run goes through exactly when moving the planned tables is clear. */
  lemma ClearIsArchivable(rels: seq<Rel>, s: string, a: string)
    requires Valid(rels) && Plannable(rels, s, a, LEGACY)
    ensures Clear(WithManifest(rels, a), s, LegacyTables(rels, s), a) <==> Archivable(rels, s, a)
  {
    var base := WithManifest(rels, a);
    ManifestValid(rels, a);
    ManifestStays(rels, s, a);
    forall i | 0 <= i < |rels| && rels[i].schema == s
      ensures base[i] == rels[i] && (rels[i].name in LEGACY <==> base[i].name in LegacyTables(rels, s))
    {
      PlannedIsLegacyName(rels, s, a, i);
    }
  }

  lemma SequencesWithManifest(rels: seq<Rel>, s: string, a: string)
    requires Valid(rels)
    ensures var ts, base := LegacyTables(rels, s), WithManifest(rels, a);
            var indices := LegacySequences(rels, s);
            && (forall k :: 0 <= k < |indices| ==> indices[k] < |base| && OwnedByAny(base, s, ts, indices[k]))
            && SequenceRows(base, indices) == SequenceRows(rels, indices)
  {
    var ts, base := LegacyTables(rels, s), WithManifest(rels, a);
    var indices := LegacySequences(rels, s);
    ManifestValid(rels, a);
    forall k | 0 <= k < |indices| ensures indices[k] < |rels| && OwnedByAny(base, s, ts, indices[k]) {
      PlannedIndices(rels, s, ts, indices[k]);
      var m :| 0 <= m < |ts| && Owned(rels, s, ts[m], indices[k]);
      assert Owned(base, s, ts[m], indices[k]);
    }
  }

  lemma Ready(rels: seq<Rel>, s: string, a: string)
    requires Valid(rels) && Plannable(rels, s, a, LEGACY)
    ensures var ts, base := LegacyTables(rels, s), WithManifest(rels, a);
            var indices := LegacySequences(rels, s);
            && Valid(base) && (ts != [] ==> s != a)
            && (forall k :: 0 <= k < |ts| ==> Present(base, s, ts[k]) && ts[k] !in ts[..k])
            && (Clear(base, s, ts, a) <==> Archivable(rels, s, a))
            && (forall k :: 0 <= k < |indices| ==> indices[k] < |base| && OwnedByAny(base, s, ts, indices[k]))
            && TableRows(ts) + SequenceRows(base, indices) == Rows(rels, s)
  {
    PlanFacts(rels, s, a);
    ManifestValid(rels, a);
    ClearIsArchivable(rels, s, a);
    SequencesWithManifest(rels, s, a);
  }

  lemma Joined(x: seq<Row>, y: seq<Row>, z: seq<Row>)
    ensures x + y + z == x + (y + z)
  {
  }

  /** The second half of a run: the manifest, the tables, the sequences. */
  method Execute(rels: seq<Rel>, manifest: seq<Row>, s: string, a: string, tables: seq<string>, sequences: seq<nat>)
    returns (done: Option<(seq<Rel>, seq<Row>)>)
    requires Valid(rels) && Plannable(rels, s, a, LEGACY)
    requires tables == LegacyTables(rels, s) && sequences == LegacySequences(rels, s)
    ensures done.Some? <==> Archivable(rels, s, a)
    ensures done.Some? ==> done.value == (Archived(rels, s, a), manifest + Rows(rels, s))
  {
    Ready(rels, s, a);
    var base := WithManifest(rels, a);
    var moved := MoveTables(base, s, a, tables, manifest);
    if moved.None? {
      return None;
    }
    var rows := RecordSequences(base, moved.value.0, s, a, tables, sequences, moved.value.1);
    Joined(manifest, TableRows(tables), SequenceRows(base, sequences));
    return Some((moved.value.0, rows.value));
  }

  class Database {
    var rels: seq<Rel>
    var manifest: seq<Row>

    constructor (rels: seq<Rel>, manifest: seq<Row>)
      ensures this.rels == rels && this.manifest == manifest
    {
      this.rels, this.manifest := rels, manifest;
    }

    /** One run. The work is done on the transaction's copy and assigned at commit. */
    method Archive(execute: bool, s: string, a: string) returns (ok: bool)
      requires Valid(rels)
      modifies this
      ensures ok <==> if execute then Archivable(old(rels), s, a) else Plannable(old(rels), s, a, LEGACY)
      ensures if ok && execute
              then rels == Archived(old(rels), s, a) && manifest == old(manifest) + Rows(old(rels), s)
              else rels == old(rels) && manifest == old(manifest)
    {
      PlanFacts(rels, s, a);
      var plan := Plan(rels, s, a, LEGACY);
      if plan.None? {
        return false;
      }
      if !execute {
        return true;
      }
      var done := Execute(rels, manifest, s, a, plan.value.0, plan.value.1);
      if done.None? {
        return false;
      }
      rels, manifest := done.value.0, done.value.1;
      return true;
    }
  }

  // ----- what a committed run conserves -----

  /** Moving keeps every relation with its name, kind and owner, and names stay unique. */
  lemma MovedValid(base: seq<Rel>, s: string, ts: seq<string>, a: string)
    requires Valid(base) && Clear(base, s, ts, a) && s != a
    ensures Valid(Moved(base, s, ts, a))
  {
    var w := Moved(base, s, ts, a);
    forall i, j | 0 <= i < j < |w| ensures !(w[i].schema == w[j].schema && w[i].name == w[j].name) {
      assert !(base[i].schema == base[j].schema && base[i].name == base[j].name);
      if GoesWith(base, s, ts, i) && !GoesWith(base, s, ts, j) {
        assert !At(base[j], a, base[i].name);
      } else if GoesWith(base, s, ts, j) && !GoesWith(base, s, ts, i) {
        assert !At(base[i], a, base[j].name);
      }
    }
    forall i | 0 <= i < |w| && w[i].owner.Some? ensures w[w[i].owner.value].schema == w[i].schema {
      OwnerGoesToo(base, s, ts, a, i);
    }
  }

  lemma OwnerGoesToo(base: seq<Rel>, s: string, ts: seq<string>, a: string, i: nat)
    requires Valid(base) && Clear(base, s, ts, a) && i < |base| && base[i].owner.Some?
    ensures GoesWith(base, s, ts, i) <==> GoesWith(base, s, ts, base[i].owner.value)
  {
    var o := base[i].owner.value;
    if GoesWith(base, s, ts, i) {
      var k :| 0 <= k < |ts| && Goes(base, s, ts[k], i);
      assert base[i].name !in ts;
      assert Goes(base, s, ts[k], o);
    }
    if GoesWith(base, s, ts, o) {
      var k :| 0 <= k < |ts| && Goes(base, s, ts[k], o);
      assert base[o].owner.None?;
      assert Goes(base, s, ts[k], i);
    }
  }

  /** A committed run loses no relation and overwrites none: each keeps its name, kind and owner, it
      moves exactly when it is a legacy table or belongs to one, and no legacy name stays behind. */
  lemma ArchiveConserves(rels: seq<Rel>, s: string, a: string)
    requires Valid(rels) && Archivable(rels, s, a)
    ensures var u := Archived(rels, s, a);
            && Valid(u) && |rels| <= |u| <= |rels| + 1
            && (forall i :: 0 <= i < |rels| ==>
                  u[i] == if Legacy(rels, s, i) then rels[i].(schema := a) else rels[i])
            && (forall t :: t in LEGACY ==> !Present(u, s, t))
  {
    var ts, base, u := LegacyTables(rels, s), WithManifest(rels, a), Archived(rels, s, a);
    PlanFacts(rels, s, a);
    ManifestValid(rels, a);
    ClearIsArchivable(rels, s, a);
    if ts == [] { assert Moved(base, s, ts, a) == base; } else { MovedValid(base, s, ts, a); }
    forall i | 0 <= i < |rels| ensures GoesWith(base, s, ts, i) <==> Legacy(rels, s, i) { LegacyGoes(rels, s, a, i); }
    LegacyDistinct();
    forall t, i | t in LEGACY && 0 <= i < |u| ensures !At(u[i], s, t) {
      if i < |rels| && u[i] == rels[i] { assert !(rels[i].schema == s && rels[i].name == t); }
    }
  }

  /** A legacy table of the source schema, or an index or sequence of one. */
  predicate Legacy(rels: seq<Rel>, s: string, i: nat)
    requires i < |rels|
  {
    rels[i].schema == s
    && (rels[i].name in LEGACY
        || (rels[i].owner.Some? && rels[i].owner.value < |rels| && rels[rels[i].owner.value].schema == s
            && rels[rels[i].owner.value].name in LEGACY))
  }

  lemma LegacyGoes(rels: seq<Rel>, s: string, a: string, i: nat)
    requires Valid(rels) && i < |rels|
    ensures var base := WithManifest(rels, a); i < |base| && (GoesWith(base, s, LegacyTables(rels, s), i) <==> Legacy(rels, s, i))
  {
    var ts, base := LegacyTables(rels, s), WithManifest(rels, a);
    ManifestValid(rels, a);
    if GoesWith(base, s, ts, i) {
      var k :| 0 <= k < |ts| && Goes(base, s, ts[k], i);
      PlannedNames(rels, s, LEGACY, ts[k]);
    }
    if Legacy(rels, s, i) {
      var o := if rels[i].name in LEGACY then i else rels[i].owner.value;
      assert At(rels[o], s, rels[o].name);
      PlannedNames(rels, s, LEGACY, rels[o].name);
      var k :| 0 <= k < |ts| && ts[k] == rels[o].name;
      assert Goes(base, s, ts[k], i);
    }
  }

  /** Without legacy tables a run only makes sure of the manifest. */
  lemma NothingToArchive(u: seq<Rel>, s: string, a: string)
    requires (forall t :: t in LEGACY ==> !Present(u, s, t)) && Present(u, a, MANIFEST)
    ensures Archivable(u, s, a) && Archived(u, s, a) == u && Rows(u, s) == []
  {
    NothingPlanned(u, s, LEGACY);
    assert LegacyTables(u, s) == [];
    assert Moved(u, s, [], a) == u;
    forall i | 0 <= i < |u| && u[i].schema == s ensures u[i].name !in LEGACY {
      assert At(u[i], s, u[i].name);
    }
  }

  /** A second executed run goes through, moves nothing and records nothing. */
  lemma SecondRunMovesNothing(rels: seq<Rel>, s: string, a: string)
    requires Valid(rels) && Archivable(rels, s, a)
    ensures var u := Archived(rels, s, a); Archivable(u, s, a) && Archived(u, s, a) == u && Rows(u, s) == []
  {
    var base, u := WithManifest(rels, a), Archived(rels, s, a);
    ArchiveConserves(rels, s, a);
    PlanFacts(rels, s, a);
    var m :| 0 <= m < |base| && At(base[m], a, MANIFEST);
    assert !GoesWith(base, s, LegacyTables(rels, s), m);
    assert At(u[m], a, MANIFEST);
    NothingToArchive(u, s, a);
  }

  lemma {:induction false} NothingPlanned(u: seq<Rel>, s: string, names: seq<string>)
    requires forall t :: t in names ==> !Present(u, s, t)
    ensures Planned(u, s, names) == []
    decreases |names|
  {
    if names != [] { NothingPlanned(u, s, names[..|names| - 1]); }
  }

  // ----- the manifest -----

  lemma {:induction false} PlannedSequencesDistinct(rels: seq<Rel>, s: string, ts: seq<string>)
    requires Distinct(ts)
    ensures Distinct(PlannedSequences(rels, s, ts))
    decreases |ts|
  {
    if ts != [] {
      var n := |ts| - 1;
      var front, last := PlannedSequences(rels, s, ts[..n]), OwnedUpTo(rels, s, ts[n], |rels|);
      PlannedSequencesDistinct(rels, s, ts[..n]);
      OwnedDistinct(rels, s, ts[n], |rels|);
      forall i, j | 0 <= i < |front| && 0 <= j < |last| ensures front[i] != last[j] {
        PlannedIndices(rels, s, ts[..n], front[i]);
        OwnedIndices(rels, s, ts[n], |rels|, last[j]);
        DifferentOwners(rels, s, ts[..n], ts[n], front[i], last[j]);
      }
    }
  }

  lemma DifferentOwners(rels: seq<Rel>, s: string, ts: seq<string>, t: string, i: nat, j: nat)
    requires i < |rels| && j < |rels| && OwnedByAny(rels, s, ts, i) && Owned(rels, s, t, j) && t !in ts
    ensures i != j
  {
    var k :| 0 <= k < |ts| && Owned(rels, s, ts[k], i);
    assert ts[k] != t;
  }

  lemma {:induction false} OwnedDistinct(rels: seq<Rel>, s: string, t: string, n: nat)
    requires n <= |rels|
    ensures Distinct(OwnedUpTo(rels, s, t, n))
  {
    if n > 0 {
      OwnedDistinct(rels, s, t, n - 1);
      OwnedIndices(rels, s, t, n - 1, n - 1);
    }
  }

  /** A sequence of a legacy table. */
  predicate OfLegacy(rels: seq<Rel>, s: string, i: nat)
    requires i < |rels|
  {
    && rels[i].schema == s && rels[i].kind == Sequence
    && rels[i].owner.Some? && rels[i].owner.value < |rels| && rels[rels[i].owner.value].name in LEGACY
  }

  lemma PlannedIsAutoOfLegacy(rels: seq<Rel>, s: string, i: nat)
    requires Valid(rels) && i < |rels|
    ensures i in LegacySequences(rels, s) <==> OfLegacy(rels, s, i) && rels[i].dependency == Auto
  {
    var ts := LegacyTables(rels, s);
    PlannedIndices(rels, s, ts, i);
    if i in LegacySequences(rels, s) {
      var k :| 0 <= k < |ts| && Owned(rels, s, ts[k], i);
      PlannedNames(rels, s, LEGACY, ts[k]);
    }
    if OfLegacy(rels, s, i) && rels[i].dependency == Auto {
      var o := rels[i].owner.value;
      assert At(rels[o], s, rels[o].name);
      OwnedIsPlanned(rels, s, LEGACY, rels[o].name, i);
    }
  }

  ghost predicate AllAuto(rels: seq<Rel>, s: string, indices: seq<nat>) {
    forall k :: 0 <= k < |indices| ==> indices[k] < |rels| && OfLegacy(rels, s, indices[k]) && rels[indices[k]].dependency == Auto
  }

  lemma PlannedAreOfLegacy(rels: seq<Rel>, s: string)
    requires Valid(rels)
    ensures AllAuto(rels, s, LegacySequences(rels, s))
  {
    var ts := LegacyTables(rels, s);
    var indices := LegacySequences(rels, s);
    forall k | 0 <= k < |indices| ensures indices[k] < |rels| && OfLegacy(rels, s, indices[k]) && rels[indices[k]].dependency == Auto {
      PlannedIndices(rels, s, ts, indices[k]);
      PlannedIsAutoOfLegacy(rels, s, indices[k]);
    }
  }

  lemma RowsDistinct(rels: seq<Rel>, s: string)
    requires Valid(rels)
    ensures Distinct(Rows(rels, s))
  {
    var ts := LegacyTables(rels, s);
    var indices := LegacySequences(rels, s);
    LegacyDistinct();
    PlannedDistinct(rels, s, LEGACY);
    PlannedSequencesDistinct(rels, s, ts);
    PlannedAreOfLegacy(rels, s);
    assert Distinct(TableRows(ts));
    SequenceRowsDistinct(rels, s, indices);
  }

  lemma SequenceRowsDistinct(rels: seq<Rel>, s: string, indices: seq<nat>)
    requires Valid(rels) && AllAuto(rels, s, indices) && Distinct(indices)
    ensures Distinct(SequenceRows(rels, indices))
  {
    forall j, k | 0 <= j < k < |indices| ensures rels[indices[j]].name != rels[indices[k]].name {
      assert indices[j] != indices[k] && rels[indices[j]].schema == rels[indices[k]].schema;
    }
  }

  lemma SequenceRow(rels: seq<Rel>, s: string, name: string)
    requires Valid(rels)
    ensures Row(name, true) in Rows(rels, s) <==>
              exists i :: 0 <= i < |rels| && rels[i].name == name && OfLegacy(rels, s, i) && rels[i].dependency == Auto
  {
    var indices := LegacySequences(rels, s);
    var rows := SequenceRows(rels, indices);
    PlannedAreOfLegacy(rels, s);
    if i :| 0 <= i < |rels| && rels[i].name == name && OfLegacy(rels, s, i) && rels[i].dependency == Auto {
      PlannedIsAutoOfLegacy(rels, s, i);
      var k :| 0 <= k < |indices| && indices[k] == i;
      assert rows[k] == Row(name, true);
    }
  }

  /** The manifest gets exactly one row for every legacy table present and for every sequence one of
      them owns, and no other. */
  lemma OneRowEach(rels: seq<Rel>, s: string, row: Row)
    requires Valid(rels)
    ensures Distinct(Rows(rels, s))
    ensures row in Rows(rels, s) <==>
              if row.isSequence
              then exists i :: 0 <= i < |rels| && rels[i].name == row.name && OfLegacy(rels, s, i) && rels[i].dependency == Auto
              else row.name in LEGACY && Present(rels, s, row.name)
  {
    RowsDistinct(rels, s);
    if row.isSequence {
      SequenceRow(rels, s, row.name);
    } else {
      var ts := LegacyTables(rels, s);
      PlannedNames(rels, s, LEGACY, row.name);
      if row.name in ts {
        var k :| 0 <= k < |ts| && ts[k] == row.name;
        assert TableRows(ts)[k] == row;
      }
    }
  }

  /** Identity columns' sequences move too but leave no row: every moved sequence is recorded exactly
      when none of them is an identity column's. */
  lemma EverySequenceRecordedExactly(rels: seq<Rel>, s: string)
    requires Valid(rels)
    ensures (forall i :: 0 <= i < |rels| && OfLegacy(rels, s, i) ==> Row(rels[i].name, true) in Rows(rels, s)) <==>
            (forall i :: 0 <= i < |rels| && OfLegacy(rels, s, i) ==> rels[i].dependency == Auto)
  {
    forall i | 0 <= i < |rels| && OfLegacy(rels, s, i)
      ensures Row(rels[i].name, true) in Rows(rels, s) <==> rels[i].dependency == Auto
    {
      OneRowEach(rels, s, Row(rels[i].name, true));
    }
  }
}
