/** Compliance records over docVault documents (app/routers/compliance.py): sync, archive and
    unarchive of one company's secretarial and ROC records. */
module Compliance {
  import opened Prelude

  datatype Domain = Secretarial | Roc

  datatype DocStatus = Uploaded | PendingApproval | ActionRequired | Verified | Submitted | Overdue | Archived

  /** A document's status and whether it is editable: what archiving snapshots and restores. */
  datatype Face = Face(status: DocStatus, editable: bool)

  /** `home` is the domain whose bucket holds the document, if any. */
  datatype Doc = Doc(home: Option<Domain>, face: Face)

  datatype Record = Record(domain: Domain, doc: Option<nat>, title: string, archived: bool, snapshot: Option<Face>)

  /** Rows in `created_at` order; a row's id is its position. Neither table loses rows. */
  datatype Db = Db(docs: seq<Doc>, records: seq<Record>)

  datatype Event =
    | Upload(doc: Doc)
    | DocvaultWrite(id: nat, face: Face)
    | NewRecord(domain: Domain, link: Option<nat>, title: string)
    | Sync(domain: Domain)
    | Update(domain: Domain, record: nat, title: string)
    | Archive(domain: Domain, record: nat)
    | Unarchive(domain: Domain, record: nat)

  const ARCHIVED := Face(Archived, false)

  // ---------------------------------------------------------------- handlers

  predicate Found(db: Db, domain: Domain, r: nat) {
    r < |db.records| && db.records[r].domain == domain
  }

  /** The record's document, if it has one that exists. */
  function Linked(db: Db, r: nat): (d: Option<nat>)
    requires r < |db.records|
    ensures d.Some? ==> d.value < |db.docs| && db.records[r].doc == d
  {
    if db.records[r].doc.Some? && db.records[r].doc.value < |db.docs| then db.records[r].doc else None
  }

  function SetFace(docs: seq<Doc>, d: nat, f: Face): (r: seq<Doc>)
    requires d < |docs|
    ensures |r| == |docs|
  {
    docs[d := docs[d].(face := f)]
  }

  function DoArchive(db: Db, domain: Domain, r: nat): (Answer, Db) {
    if !Found(db, domain, r) then (Reject(404), db)
    else if db.records[r].archived then (Reject(409), db)
    else
      var d := Linked(db, r);
      if d.None? then (Ok, db.(records := db.records[r := db.records[r].(archived := true)]))
      else (Ok, Db(SetFace(db.docs, d.value, ARCHIVED),
                   db.records[r := db.records[r].(archived := true, snapshot := Some(db.docs[d.value].face))]))
  }

  function DoUnarchive(db: Db, domain: Domain, r: nat): (Answer, Db) {
    if !Found(db, domain, r) then (Reject(404), db)
    else if !db.records[r].archived then (Reject(409), db)
    else
      var d, snap := Linked(db, r), db.records[r].snapshot;
      var records := db.records[r := db.records[r].(archived := false, snapshot := None)];
      (Ok, Db(if d.Some? && snap.Some? then SetFace(db.docs, d.value, snap.value) else db.docs, records))
  }

  predicate Claimed(records: seq<Record>, domain: Domain, d: nat) {
    exists i :: 0 <= i < |records| && records[i].domain == domain && records[i].doc == Some(d)
  }

  predicate Importable(db: Db, domain: Domain, d: nat) {
    d < |db.docs| && db.docs[d].home == Some(domain) && db.docs[d].face.status != Archived && !Claimed(db.records, domain, d)
  }

  /** `_unsynced_documents`, oldest first. */
  function Unsynced(db: Db, domain: Domain, n: nat): (rows: seq<nat>)
    requires n <= |db.docs|
    ensures forall d: nat :: d in rows <==> d < n && Importable(db, domain, d)
    ensures forall i, j :: 0 <= i < j < |rows| ==> rows[i] < rows[j]
  {
    if n == 0 then []
    else
      var older := Unsynced(db, domain, n - 1);
      assert forall i :: 0 <= i < |older| ==> older[i] in older;
      older + (if Importable(db, domain, n - 1) then [n - 1] else [])
  }

  function Imported(domain: Domain, rows: seq<nat>): (r: seq<Record>)
    ensures |r| == |rows|
    ensures forall i :: 0 <= i < |r| ==> r[i].domain == domain && r[i].doc == Some(rows[i]) && !r[i].archived
  {
    seq(|rows|, i requires 0 <= i < |rows| => Record(domain, Some(rows[i]), "", false, None))
  }

  function DoSync(db: Db, domain: Domain): Db {
    db.(records := db.records + Imported(domain, Unsynced(db, domain, |db.docs|)))
  }

  function DoUpdate(db: Db, domain: Domain, r: nat, title: string): (Answer, Db) {
    if !Found(db, domain, r) then (Reject(404), db)
    else if db.records[r].archived then (Reject(409), db)
    else (Ok, db.(records := db.records[r := db.records[r].(title := title)]))
  }

  function Step(db: Db, e: Event): (Answer, Db) {
    match e
    case Upload(doc) => (Ok, db.(docs := db.docs + [doc]))
    case DocvaultWrite(d, f) => if d < |db.docs| then (Ok, db.(docs := SetFace(db.docs, d, f))) else (Reject(404), db)
    case NewRecord(dom, d, t) => (Ok, db.(records := db.records + [Record(dom, d, t, false, None)]))
    case Sync(dom) => (Ok, DoSync(db, dom))
    case Update(dom, r, t) => DoUpdate(db, dom, r, t)
    case Archive(dom, r) => DoArchive(db, dom, r)
    case Unarchive(dom, r) => DoUnarchive(db, dom, r)
  }

  function Run(db: Db, es: seq<Event>): Db {
    if es == [] then db else Step(Run(db, es[..|es| - 1]), es[|es| - 1]).1
  }

  /** Rows stay where they are, and keep what identifies them. */
  lemma StepKeepsRows(db: Db, e: Event)
    ensures var after := Step(db, e).1;
            && |db.docs| <= |after.docs| && |db.records| <= |after.records|
            && (forall d :: 0 <= d < |db.docs| ==> after.docs[d].home == db.docs[d].home)
            && (forall r :: 0 <= r < |db.records| ==>
                  after.records[r].domain == db.records[r].domain && after.records[r].doc == db.records[r].doc)
  {
  }

  lemma {:induction false} RunKeepsRows(db: Db, es: seq<Event>)
    ensures var after := Run(db, es);
            && |db.docs| <= |after.docs| && |db.records| <= |after.records|
            && (forall d :: 0 <= d < |db.docs| ==> after.docs[d].home == db.docs[d].home)
            && (forall r :: 0 <= r < |db.records| ==>
                  after.records[r].domain == db.records[r].domain && after.records[r].doc == db.records[r].doc)
    decreases |es|
  {
    if es != [] {
      RunKeepsRows(db, es[..|es| - 1]);
      StepKeepsRows(Run(db, es[..|es| - 1]), es[|es| - 1]);
    }
  }

  // ---------------------------------------------------------------- sync

  /** A sync leaves every existing record as it was and gives each importable document exactly
      one new record; no other document gets one. */
  lemma SyncIsAdditiveAndComplete(db: Db, domain: Domain, d: nat)
    ensures var (before, after) := (db.records, DoSync(db, domain).records);
            && before <= after && DoSync(db, domain).docs == db.docs
            && (Importable(db, domain, d) <==> NewlyClaimed(before, after, domain, d))
            && (forall i, j :: |before| <= i < j < |after| ==> after[i].doc != after[j].doc)
  {
    var rows := Unsynced(db, domain, |db.docs|);
    NewRecordsAre(db.records, domain, rows, d);
  }

  predicate NewlyClaimed(before: seq<Record>, after: seq<Record>, domain: Domain, d: nat) {
    exists i :: |before| <= i < |after| && after[i].domain == domain && after[i].doc == Some(d)
  }

  lemma NewRecordsAre(before: seq<Record>, domain: Domain, rows: seq<nat>, d: nat)
    requires forall i, j :: 0 <= i < j < |rows| ==> rows[i] < rows[j]
    ensures var after := before + Imported(domain, rows);
            && (NewlyClaimed(before, after, domain, d) <==> d in rows)
            && (forall i, j :: |before| <= i < j < |after| ==> after[i].doc != after[j].doc)
  {
    var n, after := |before|, before + Imported(domain, rows);
    forall k | n <= k < |after| ensures after[k].doc == Some(rows[k - n]) && after[k].domain == domain {
      assert after[k] == Imported(domain, rows)[k - n];
    }
    if d in rows {
      var i :| 0 <= i < |rows| && rows[i] == d;
      assert after[n + i].doc == Some(d);
    }
  }

  /** A synced domain has nothing left to import. */
  lemma NothingImportableAfterSync(db: Db, domain: Domain, d: nat)
    ensures !Importable(DoSync(db, domain), domain, d)
  {
    SyncIsAdditiveAndComplete(db, domain, d);
    ClaimsAccumulate(db.records, DoSync(db, domain).records, domain, d);
  }

  lemma ClaimsAccumulate(before: seq<Record>, after: seq<Record>, domain: Domain, d: nat)
    requires before <= after
    ensures Claimed(before, domain, d) || NewlyClaimed(before, after, domain, d) ==> Claimed(after, domain, d)
  {
    if i :| 0 <= i < |before| && before[i].domain == domain && before[i].doc == Some(d) {
      assert after[i] == before[i];
    }
  }

  /** A second sync straight after the first imports nothing. */
  lemma SyncIsIdempotent(db: Db, domain: Domain)
    ensures DoSync(DoSync(db, domain), domain) == DoSync(db, domain)
  {
    var once := DoSync(db, domain);
    forall d: nat ensures !Importable(once, domain, d) { NothingImportableAfterSync(db, domain, d); }
    NothingUnsynced(once, domain, |once.docs|);
  }

  lemma {:induction false} NothingUnsynced(db: Db, domain: Domain, n: nat)
    requires n <= |db.docs| && forall d: nat :: !Importable(db, domain, d)
    ensures Unsynced(db, domain, n) == []
  {
    if n > 0 { NothingUnsynced(db, domain, n - 1); }
  }

  /** Main theorem: once a record claims a document, no run of any events, archiving and
      unarchiving included, makes the document importable again. */
  lemma ClaimedForGood(db: Db, es: seq<Event>, domain: Domain, d: nat)
    requires Claimed(db.records, domain, d)
    ensures Claimed(Run(db, es).records, domain, d)
    ensures forall n: nat :: n <= |Run(db, es).docs| ==> d !in Unsynced(Run(db, es), domain, n)
  {
    RunKeepsRows(db, es);
    var i :| 0 <= i < |db.records| && db.records[i].domain == domain && db.records[i].doc == Some(d);
    assert Run(db, es).records[i].doc == Some(d);
  }

  // ---------------------------------------------------------------- what a snapshot remembers

  predicate Archives(db: Db, e: Event, r: nat) {
    e.Archive? && e.record == r && DoArchive(db, e.domain, r).0 == Ok
  }

  predicate Unarchives(db: Db, e: Event, r: nat) {
    e.Unarchive? && e.record == r && DoUnarchive(db, e.domain, r).0 == Ok
  }

  /** The document's face just before record `r` was last archived; `None` if it never was. */
  function ArchivedFrom(db: Db, es: seq<Event>, r: nat, d: nat): Option<Face>
    requires d < |db.docs|
    decreases |es|
  {
    if es == [] then None
    else
      var before := Run(db, es[..|es| - 1]);
      RunKeepsRows(db, es[..|es| - 1]);
      if Archives(before, es[|es| - 1], r) then Some(before.docs[d].face)
      else ArchivedFrom(db, es[..|es| - 1], r, d)
  }

  predicate Open(db: Db, d: nat) {
    forall r :: 0 <= r < |db.records| && db.records[r].doc == Some(d) ==> !db.records[r].archived && db.records[r].snapshot.None?
  }

  /** One event's effect on one record's archive fields. */
  lemma SnapshotStep(db: Db, e: Event, r: nat, d: nat)
    requires d < |db.docs|
    ensures var after := Step(db, e).1;
            r < |after.records| && after.records[r].doc == Some(d) ==>
              if Archives(db, e, r) then after.records[r].archived && after.records[r].snapshot == Some(db.docs[d].face)
              else if Unarchives(db, e, r) || r >= |db.records| then !after.records[r].archived && after.records[r].snapshot.None?
              else after.records[r].archived == db.records[r].archived && after.records[r].snapshot == db.records[r].snapshot
  {
  }

  /** While a record is archived, its snapshot is its document's face when it was archived,
      whatever else has happened to the document since. */
  lemma {:induction false} SnapshotsRemember(db: Db, es: seq<Event>, r: nat, d: nat)
    requires d < |db.docs| && Open(db, d)
    requires r < |Run(db, es).records| && Run(db, es).records[r].doc == Some(d)
    ensures Run(db, es).records[r].archived ==> Run(db, es).records[r].snapshot == ArchivedFrom(db, es, r, d) != None
    ensures !Run(db, es).records[r].archived ==> Run(db, es).records[r].snapshot.None?
    decreases |es|
  {
    if es != [] {
      var n := |es| - 1;
      var before := Run(db, es[..n]);
      RunKeepsRows(db, es[..n]);
      StepKeepsRows(before, es[n]);
      SnapshotStep(before, es[n], r, d);
      if r < |before.records| { SnapshotsRemember(db, es[..n], r, d); }
    }
  }

  /** Main theorem, for every order of events: unarchiving a record puts its document back exactly
      as it was when that record was archived. So a document comes back to a face `f` exactly when
      the last record to be unarchived was archived while it showed `f`. */
  lemma UnarchiveRestoresExactly(db: Db, es: seq<Event>, domain: Domain, r: nat, d: nat, f: Face)
    requires d < |db.docs| && Open(db, d)
    requires r < |Run(db, es).records| && Run(db, es).records[r].doc == Some(d)
    requires Unarchives(Run(db, es), Unarchive(domain, r), r)
    ensures d < |Run(db, es + [Unarchive(domain, r)]).docs|
    ensures Run(db, es + [Unarchive(domain, r)]).docs[d].face == f <==> ArchivedFrom(db, es, r, d) == Some(f)
  {
    RunKeepsRows(db, es);
    SnapshotsRemember(db, es, r, d);
    assert (es + [Unarchive(domain, r)])[..|es|] == es;
  }

  // ---------------------------------------------------------------- well-nested orders

  predicate ArchiveOnly(es: seq<Event>) {
    forall i :: 0 <= i < |es| ==> es[i].Archive? || es[i].Unarchive?
  }

  /** The open archivings of document `d`, oldest first; `None` once one is closed out of order. */
  function Nesting(db: Db, es: seq<Event>, d: nat): Option<seq<nat>> {
    if es == [] then Some([])
    else
      var before, e, st := Run(db, es[..|es| - 1]), es[|es| - 1], Nesting(db, es[..|es| - 1], d);
      if st.None? then None
      else NestOne(before, e, st.value, d)
  }

  function NestOne(before: Db, e: Event, st: seq<nat>, d: nat): Option<seq<nat>> {
    if (e.Archive? || e.Unarchive?) && e.record < |before.records| && before.records[e.record].doc == Some(d) then
      if Archives(before, e, e.record) then Some(st + [e.record])
      else if !Unarchives(before, e, e.record) then Some(st)
      else if st != [] && st[|st| - 1] == e.record then Some(st[..|st| - 1])
      else None
    else Some(st)
  }

  predicate Holds(r: Record, d: nat, f: Face) {
    r.doc == Some(d) && r.archived && r.snapshot == Some(f)
  }

  /** The document shows its starting face exactly while nothing is open, and the snapshots form
      a chain down to that face. */
  predicate Layered(db: Db, d: nat, first: Face, st: seq<nat>) {
    && d < |db.docs|
    && db.docs[d].face == (if st == [] then first else ARCHIVED)
    && (forall i :: 0 <= i < |st| ==> st[i] < |db.records| && Holds(db.records[st[i]], d, if i == 0 then first else ARCHIVED))
    && (forall r :: 0 <= r < |db.records| && db.records[r].doc == Some(d) && db.records[r].archived ==> r in st)
    && (forall i, j :: 0 <= i < j < |st| ==> st[i] != st[j])
  }

  lemma NestPush(db: Db, e: Event, d: nat, first: Face, st: seq<nat>)
    requires Layered(db, d, first, st) && e.Archive? && Archives(db, e, e.record) && db.records[e.record].doc == Some(d)
    ensures Layered(Step(db, e).1, d, first, st + [e.record])
  {
    assert e.record !in st;
  }

  lemma NestPop(db: Db, e: Event, d: nat, first: Face, st: seq<nat>)
    requires Layered(db, d, first, st) && e.Unarchive? && Unarchives(db, e, e.record) && db.records[e.record].doc == Some(d)
    requires st != [] && st[|st| - 1] == e.record
    ensures Layered(Step(db, e).1, d, first, st[..|st| - 1])
  {
    assert forall r :: r in st && r != e.record ==> r in st[..|st| - 1];
  }

  lemma NestStep(db: Db, e: Event, d: nat, first: Face, st: seq<nat>)
    requires Layered(db, d, first, st) && (e.Archive? || e.Unarchive?) && NestOne(db, e, st, d).Some?
    ensures Layered(Step(db, e).1, d, first, NestOne(db, e, st, d).value)
  {
    if e.record < |db.records| && db.records[e.record].doc == Some(d) {
      if Archives(db, e, e.record) {
        NestPush(db, e, d, first, st);
      } else if Unarchives(db, e, e.record) {
        NestPop(db, e, d, first, st);
      }
    }
  }

  /** Main theorem: however many records share a document, every well-nested run of archivings
      keeps it archived while any of them is open and then gives back its starting status and
      lock. */
  lemma {:induction false} NestedArchivingRestores(db: Db, es: seq<Event>, d: nat)
    requires d < |db.docs| && Open(db, d) && ArchiveOnly(es) && Nesting(db, es, d).Some?
    ensures Layered(Run(db, es), d, db.docs[d].face, Nesting(db, es, d).value)
    decreases |es|
  {
    if es != [] {
      var n := |es| - 1;
      NestedArchivingRestores(db, es[..n], d);
      NestStep(Run(db, es[..n]), es[n], d, db.docs[d].face, Nesting(db, es[..n], d).value);
    }
  }

  lemma RunFour(db: Db, a: Event, b: Event, c: Event, d: Event)
    ensures Run(db, [a, b, c, d]) == Step(Step(Step(Step(db, a).1, b).1, c).1, d).1
  {
    assert [a, b, c, d][..3] == [a, b, c] && [a, b, c][..2] == [a, b] && [a, b][..1] == [a] && [a][..0] == [];
    assert Run(db, [a]) == Step(db, a).1;
    assert Run(db, [a, b]) == Step(Step(db, a).1, b).1;
    assert Run(db, [a, b, c]) == Step(Step(Step(db, a).1, b).1, c).1;
  }

  /** Two records closed in the order they were opened leave the document archived with nothing
      open: wrong for every starting face but the archived one. */
  lemma FirstInFirstOutStaysArchived(f: Face)
    ensures var link := Record(Secretarial, Some(0), "", false, None);
            var db := Db([Doc(Some(Secretarial), f)], [link, link]);
            Run(db, [Archive(Secretarial, 0), Archive(Secretarial, 1), Unarchive(Secretarial, 0), Unarchive(Secretarial, 1)])
              == Db([Doc(Some(Secretarial), ARCHIVED)], [link, link])
  {
    var link := Record(Secretarial, Some(0), "", false, None);
    var db := Db([Doc(Some(Secretarial), f)], [link, link]);
    var a, b, c, d := Archive(Secretarial, 0), Archive(Secretarial, 1), Unarchive(Secretarial, 0), Unarchive(Secretarial, 1);
    RunFour(db, a, b, c, d);
    var held := link.(archived := true, snapshot := Some(f));
    var late := link.(archived := true, snapshot := Some(ARCHIVED));
    assert Step(db, a).1 == Db([Doc(Some(Secretarial), ARCHIVED)], [held, link]);
    assert Step(Step(db, a).1, b).1 == Db([Doc(Some(Secretarial), ARCHIVED)], [held, late]);
    assert Step(Step(Step(db, a).1, b).1, c).1 == Db([Doc(Some(Secretarial), f)], [link, late]);
  }

  // ---------------------------------------------------------------- the handlers themselves

  class RecordStore {
    var docs: seq<Doc>
    var records: seq<Record>

    function State(): Db
      reads this
    {
      Db(docs, records)
    }

    constructor ()
      ensures State() == Db([], [])
    {
      docs, records := [], [];
    }

    method ArchiveRecord(domain: Domain, r: nat) returns (answer: Answer)
      modifies this
      ensures (answer, State()) == DoArchive(old(State()), domain, r)
    {
      if !Found(State(), domain, r) { return Reject(404); }
      if records[r].archived { return Reject(409); }
      var d := Linked(State(), r);
      if d.Some? {
        records := records[r := records[r].(snapshot := Some(docs[d.value].face))];
        docs := docs[d.value := docs[d.value].(face := ARCHIVED)];
      }
      records := records[r := records[r].(archived := true)];
      assert records == old(records)[r := records[r]];
      return Ok;
    }

    method UnarchiveRecord(domain: Domain, r: nat) returns (answer: Answer)
      modifies this
      ensures (answer, State()) == DoUnarchive(old(State()), domain, r)
    {
      if !Found(State(), domain, r) { return Reject(404); }
      if !records[r].archived { return Reject(409); }
      var d := Linked(State(), r);
      if d.Some? && records[r].snapshot.Some? {
        docs := docs[d.value := docs[d.value].(face := records[r].snapshot.value)];
      }
      records := records[r := records[r].(archived := false, snapshot := None)];
      return Ok;
    }

    method UpdateRecord(domain: Domain, r: nat, title: string) returns (answer: Answer)
      modifies `records
      ensures (answer, State()) == DoUpdate(old(State()), domain, r, title)
    {
      if !Found(State(), domain, r) { return Reject(404); }
      if records[r].archived { return Reject(409); }
      records := records[r := records[r].(title := title)];
      return Ok;
    }

    /** `sync_from_docvault`: one query, then one new record per row. */
    method SyncFromDocvault(domain: Domain) returns (imported: nat)
      modifies `records
      ensures State() == DoSync(old(State()), domain)
      ensures imported == |records| - |old(records)|
    {
      var rows := Unsynced(State(), domain, |docs|);
      for i := 0 to |rows|
        invariant records == old(records) + Imported(domain, rows[..i])
      {
        records := records + [Record(domain, Some(rows[i]), "", false, None)];
        assert Imported(domain, rows[..i + 1]) == Imported(domain, rows[..i]) + [Record(domain, Some(rows[i]), "", false, None)];
      }
      assert rows[..|rows|] == rows;
      return |rows|;
    }
  }
}
