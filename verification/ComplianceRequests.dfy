/** What each request on the compliance records answers and changes, said of the rows themselves. */
module ComplianceRequests {
  import opened Prelude
  import opened Compliance

  /** The record's row and nothing else of the records changes. */
  ghost predicate OnlyRecord(before: seq<Record>, after: seq<Record>, r: nat) {
    |after| == |before| && forall i :: 0 <= i < |before| && i != r ==> after[i] == before[i]
  }

  ghost predicate OnlyDoc(before: seq<Doc>, after: seq<Doc>, d: nat) {
    |after| == |before| && forall i :: 0 <= i < |before| && i != d ==> after[i] == before[i]
  }

  /** A record of the domain, open or archived. */
  predicate Stands(db: Db, domain: Domain, r: nat, archived: bool) {
    r < |db.records| && db.records[r].domain == domain && db.records[r].archived == archived
  }

  predicate Names(db: Db, r: nat, d: nat) {
    r < |db.records| && d < |db.docs| && db.records[r].doc == Some(d)
  }

  /** Archiving an open record of the domain marks it and, when it names a document, remembers that
      document's status and lock and makes it archived and locked. */
  lemma ArchiveDoes(db: Db, domain: Domain, r: nat)
    ensures var (answer, after) := Step(db, Archive(domain, r));
            && (answer == Ok <==> Stands(db, domain, r, false))
            && (answer == Reject(409) <==> Stands(db, domain, r, true))
            && (answer != Ok ==> after == db && answer in {Reject(404), Reject(409)})
            && (answer == Ok ==> OnlyRecord(db.records, after.records, r) && after.records[r].archived)
            && (answer == Ok && (forall d: nat :: !Names(db, r, d)) ==>
                  after.docs == db.docs && after.records[r] == db.records[r].(archived := true))
            && (forall d: nat :: answer == Ok && Names(db, r, d) ==>
                  && after.records[r] == db.records[r].(archived := true, snapshot := Some(db.docs[d].face))
                  && OnlyDoc(db.docs, after.docs, d) && after.docs[d] == db.docs[d].(face := Face(Archived, false)))
  {
    if r < |db.records| && Linked(db, r).Some? { assert Names(db, r, Linked(db, r).value); }
  }

  /** Unarchiving an archived record of the domain clears the mark and the memory, and gives the
      document it names the remembered status and lock back, if there are any. */
  lemma UnarchiveDoes(db: Db, domain: Domain, r: nat)
    ensures var (answer, after) := Step(db, Unarchive(domain, r));
            && (answer == Ok <==> Stands(db, domain, r, true))
            && (answer == Reject(409) <==> Stands(db, domain, r, false))
            && (answer != Ok ==> after == db && answer in {Reject(404), Reject(409)})
            && (answer == Ok ==>
                  && OnlyRecord(db.records, after.records, r)
                  && after.records[r] == db.records[r].(archived := false, snapshot := None))
            && (answer == Ok && (db.records[r].snapshot.None? || forall d: nat :: !Names(db, r, d)) ==> after.docs == db.docs)
            && (forall d: nat :: answer == Ok && db.records[r].snapshot.Some? && Names(db, r, d) ==>
                  OnlyDoc(db.docs, after.docs, d) && after.docs[d] == db.docs[d].(face := db.records[r].snapshot.value))
  {
    if r < |db.records| && Linked(db, r).Some? { assert Names(db, r, Linked(db, r).value); }
  }

  /** An open record of the domain takes the title; an archived one refuses it. */
  lemma UpdateDoes(db: Db, domain: Domain, r: nat, title: string)
    ensures var (answer, after) := Step(db, Update(domain, r, title));
            && (answer == Ok <==> Stands(db, domain, r, false))
            && (answer == Reject(409) <==> Stands(db, domain, r, true))
            && (answer != Ok ==> after == db && answer in {Reject(404), Reject(409)})
            && (answer == Ok ==>
                  OnlyRecord(db.records, after.records, r) && after.records[r] == db.records[r].(title := title) && after.docs == db.docs)
  {
  }

  /** The document lies in the domain's bucket, is not archived, and no record of the domain names it. */
  ghost predicate Waits(db: Db, domain: Domain, d: nat) {
    && d < |db.docs| && db.docs[d].home == Some(domain) && db.docs[d].face.status != Archived
    && forall i :: 0 <= i < |db.records| ==> !(db.records[i].domain == domain && db.records[i].doc == Some(d))
  }

  /** Main theorem: a sync gives each waiting document exactly one record, oldest first, open and with
      nothing to remember, after the records there were; documents stay as they are. */
  lemma SyncDoes(db: Db, domain: Domain)
    ensures var (answer, after) := Step(db, Sync(domain));
            var added := after.records[|db.records|..];
            && answer == Ok && after.docs == db.docs && db.records <= after.records
            && (forall d: nat :: Waits(db, domain, d) <==> exists i :: 0 <= i < |added| && added[i].doc == Some(d))
            && (forall i :: 0 <= i < |added| ==>
                  added[i].doc.Some? && (added[i].domain, added[i].archived, added[i].snapshot) == (domain, false, None))
            && (forall i, j :: 0 <= i < j < |added| ==> added[i].doc.value < added[j].doc.value)
  {
    var rows := Unsynced(db, domain, |db.docs|);
    var made := Step(db, Sync(domain)).1.records[|db.records|..];
    assert made == Imported(domain, rows);
    forall d: nat ensures Waits(db, domain, d) <==> exists i :: 0 <= i < |made| && made[i].doc == Some(d) {
      assert Waits(db, domain, d) <==> Importable(db, domain, d);
      if d in rows {
        var i :| 0 <= i < |rows| && rows[i] == d;
        assert made[i].doc == Some(d);
      }
      if i :| 0 <= i < |made| && made[i].doc == Some(d) { assert rows[i] == d && rows[i] in rows; }
    }
  }

  /** Documents and open records come last in their tables; docVault may give a document any face. */
  lemma RowsCome(db: Db, doc: Doc, d: nat, face: Face, domain: Domain, link: Option<nat>, title: string)
    ensures Step(db, Upload(doc)) == (Ok, Db(db.docs + [doc], db.records))
    ensures Step(db, NewRecord(domain, link, title)) == (Ok, Db(db.docs, db.records + [Record(domain, link, title, false, None)]))
    ensures var (answer, after) := Step(db, DocvaultWrite(d, face));
            && (answer == Ok <==> d < |db.docs|) && after.records == db.records
            && (answer == Ok ==> OnlyDoc(db.docs, after.docs, d) && after.docs[d] == db.docs[d].(face := face))
            && (answer != Ok ==> after == db)
  {
  }
}
