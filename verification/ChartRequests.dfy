/** What each request on the chart of accounts answers and changes, said of the tables themselves. */
module ChartRequests {
  import opened Prelude
  import opened MappingImport
  import opened ChartOfAccounts

  /** A group of nobody's or of the company's own. */
  predicate Sees(db: Db, c: Id, g: Id) {
    g in db.groups && (db.groups[g].company.None? || db.groups[g].company == Some(c))
  }

  ghost predicate Parent(db: Db, c: Id, g: Id) {
    exists h :: h in db.groups && db.groups[h].parent == Some(g) && Sees(db, c, h)
  }

  ghost predicate Used(db: Db, c: Id, g: Id) {
    exists l :: l in db.ledgers && db.ledgers[l].company == c && db.ledgers[l].mapped == Some(g)
  }

  lemma SameNotions(db: Db, c: Id, g: Id)
    ensures Sees(db, c, g) <==> Visible(db, c, g)
    ensures Parent(db, c, g) <==> HasChildren(db.groups, c, g)
    ensures Used(db, c, g) <==> HasMapped(db, c, g)
  {
    if h :| h in db.groups && db.groups[h].parent == Some(g) && Sees(db, c, h) { assert VisibleTo(db.groups[h], c); }
    if h :| h in db.groups && db.groups[h].parent == Some(g) && VisibleTo(db.groups[h], c) { assert Sees(db, c, h); }
  }

  /** A new group of the company under a group it sees, above depth two and unused by it. */
  lemma CreateGroupDoes(db: Db, seed: Seed, c: Id, parent: Id, name: string)
    ensures var (answer, after) := Step(db, seed, CreateGroup(c, parent, name));
            && (answer == Ok <==> Sees(db, c, parent) && db.groups[parent].level < 2 && !Used(db, c, parent) && name != "")
            && (answer == Reject(404) <==> !Sees(db, c, parent))
            && (answer == Reject(409) <==> Sees(db, c, parent) && db.groups[parent].level < 2 && Used(db, c, parent))
            && (answer != Ok ==> after == db && answer in {Reject(404), Reject(400), Reject(409)})
            && (answer == Ok ==>
                  && db.nextId in after.groups
                  && after.groups[db.nextId] == Group(Some(c), Some(parent), name, db.groups[parent].level + 1)
                  && SameBut(db.groups, after.groups, db.nextId)
                  && after == db.(groups := after.groups, nextId := db.nextId + 1))
  {
    SameNotions(db, c, parent);
  }

  predicate Own(db: Db, c: Id, g: Id) {
    g in db.groups && db.groups[g].company == Some(c)
  }

  /** An own group gets the name; a seeded one is refused. */
  lemma RenameGroupDoes(db: Db, seed: Seed, c: Id, g: Id, name: string)
    ensures var (answer, after) := Step(db, seed, RenameGroup(c, g, name));
            && (answer == Ok <==> Own(db, c, g) && name != "")
            && (answer == Reject(404) <==> !Sees(db, c, g))
            && (answer == Reject(403) <==> Sees(db, c, g) && !Own(db, c, g))
            && (answer != Ok ==> after == db && answer in {Reject(404), Reject(403), Reject(400)})
            && (answer == Ok ==>
                  && g in after.groups && after.groups[g] == db.groups[g].(name := name) && SameBut(db.groups, after.groups, g)
                  && after == db.(groups := after.groups))
  {
  }

  /** An own group without children and unused by the company goes. */
  lemma DeleteGroupDoes(db: Db, seed: Seed, c: Id, g: Id)
    ensures var (answer, after) := Step(db, seed, DeleteGroup(c, g));
            && (answer == Ok <==> Own(db, c, g) && !Parent(db, c, g) && !Used(db, c, g))
            && (answer == Reject(404) <==> !Sees(db, c, g))
            && (answer == Reject(403) <==> Sees(db, c, g) && !Own(db, c, g))
            && (answer != Ok ==> after == db && answer in {Reject(404), Reject(403), Reject(409)})
            && (answer == Ok ==> g !in after.groups && SameBut(db.groups, after.groups, g) && after == db.(groups := after.groups))
  {
    SameNotions(db, c, g);
  }

  predicate Owns(db: Db, c: Id, e: Id) {
    e in db.engagements && db.engagements[e] == c
  }

  ghost predicate Leaf(db: Db, c: Id, g: Id) {
    Sees(db, c, g) && !Parent(db, c, g)
  }

  /** One ledger of the engagement goes to a leaf the company sees. */
  lemma MapLedgerDoes(db: Db, seed: Seed, c: Id, e: Id, l: Id, g: Id)
    ensures var (answer, after) := Step(db, seed, MapLedger(c, e, l, g));
            && (answer == Ok <==> Owns(db, c, e) && Leaf(db, c, g) && l in db.ledgers && db.ledgers[l].engagement == e)
            && (answer == Reject(400) <==> Owns(db, c, e) && Sees(db, c, g) && Parent(db, c, g))
            && (answer != Ok ==> after == db && answer in {Reject(404), Reject(400)})
            && (answer == Ok ==>
                  && l in after.ledgers && after.ledgers[l] == db.ledgers[l].(mapped := Some(g))
                  && SameBut(db.ledgers, after.ledgers, l) && after == db.(ledgers := after.ledgers))
  {
    SameNotions(db, c, g);
  }

  /** Exactly the named ledgers of the engagement hold `to` afterwards, and nothing else changes. */
  ghost predicate Sets(before: Db, after: Db, e: Id, ids: set<Id>, to: Option<Id>) {
    && after.ledgers.Keys == before.ledgers.Keys && after == before.(ledgers := after.ledgers)
    && forall l :: l in before.ledgers ==>
         after.ledgers[l] == if l in ids && before.ledgers[l].engagement == e then before.ledgers[l].(mapped := to) else before.ledgers[l]
  }

  lemma BulkMapDoes(db: Db, seed: Seed, c: Id, e: Id, ids: set<Id>, g: Id)
    ensures var (answer, after) := Step(db, seed, BulkMap(c, e, ids, g));
            && (answer == Ok <==> Owns(db, c, e) && Leaf(db, c, g))
            && (answer == Reject(400) <==> Owns(db, c, e) && Sees(db, c, g) && Parent(db, c, g))
            && (answer != Ok ==> after == db && answer in {Reject(404), Reject(400)})
            && (answer == Ok ==> Sets(db, after, e, ids, Some(g)))
  {
    SameNotions(db, c, g);
  }

  lemma UnmapDoes(db: Db, seed: Seed, c: Id, e: Id, ids: set<Id>)
    ensures var (answer, after) := Step(db, seed, Unmap(c, e, ids));
            && (answer == Ok <==> Owns(db, c, e))
            && (answer != Ok ==> after == db && answer == Reject(404))
            && (answer == Ok ==> Sets(db, after, e, ids, None))
  {
  }

  /** A new engagement of the company comes without ledgers. */
  lemma AddEngagementDoes(db: Db, seed: Seed, c: Id)
    ensures var (answer, after) := Step(db, seed, AddEngagement(c));
            && answer == Ok && db.nextId in after.engagements && after.engagements[db.nextId] == c
            && SameBut(db.engagements, after.engagements, db.nextId)
            && after == db.(engagements := after.engagements, nextId := db.nextId + 1)
  {
  }

  /** An engagement of the company goes with its ledgers and no others. */
  lemma DropDoes(db: Db, seed: Seed, c: Id, e: Id)
    ensures var (answer, after) := Step(db, seed, DropEngagement(c, e));
            && (answer == Ok <==> e in db.engagements && db.engagements[e] == c)
            && (answer != Ok ==> after == db && answer == Reject(404))
            && (answer == Ok ==>
                  && e !in after.engagements && SameBut(db.engagements, after.engagements, e)
                  && (forall l :: l in after.ledgers <==> l in db.ledgers && db.ledgers[l].engagement != e)
                  && (forall l :: l in after.ledgers ==> after.ledgers[l] == db.ledgers[l])
                  && after == db.(engagements := after.engagements, ledgers := after.ledgers))
  {
  }

  /** A trial balance import drops the engagement's ledgers it names, adds unmapped ones under new ids,
      and keeps every other ledger with its mapping. */
  lemma ImportRowsDoes(db: Db, seed: Seed, c: Id, e: Id, inserted: nat, gone: set<Id>)
    requires forall l :: l in db.ledgers ==> l < db.nextId
    ensures var (answer, after) := Step(db, seed, ImportTrialBalance(c, e, inserted, gone));
            && (answer == Ok <==> e in db.engagements && db.engagements[e] == c)
            && (answer != Ok ==> after == db && answer == Reject(404))
            && (answer == Ok ==>
                  && (forall l :: l in db.ledgers ==> (l in after.ledgers <==> !(l in gone && db.ledgers[l].engagement == e)))
                  && (forall l :: l in db.ledgers && l in after.ledgers ==> after.ledgers[l] == db.ledgers[l])
                  && (forall l :: l in after.ledgers && l !in db.ledgers <==> db.nextId <= l < db.nextId + inserted)
                  && (forall l :: db.nextId <= l < db.nextId + inserted ==> after.ledgers[l] == Ledger(c, e, None))
                  && after == db.(ledgers := after.ledgers, nextId := db.nextId + inserted))
  {
    var rows := NewRows(db.nextId, inserted, c, e);
    assert forall l :: l in db.ledgers ==> l !in rows;
  }

  // ---------------------------------------------------------------- imports of mappings

  ghost predicate Assigns(plan: seq<Assignment>, l: Id) {
    exists i :: 0 <= i < |plan| && plan[i].target == l
  }

  /** The ledger is assigned, and free to take the group: unmapped, or to be overwritten. */
  ghost predicate Takes(db: Db, plan: seq<Assignment>, overwrite: bool, l: Id)
    requires l in db.ledgers
  {
    Assigns(plan, l) && (db.ledgers[l].mapped.None? || overwrite)
  }

  /** Two different engagements of the company, one with ledgers and the other with mapped ones. */
  ghost predicate Importable(db: Db, c: Id, e: Id, source: Id) {
    && Owns(db, c, e) && Owns(db, c, source) && source != e
    && (exists l :: l in db.ledgers && db.ledgers[l].engagement == e)
    && (exists l :: l in db.ledgers && db.ledgers[l].engagement == source && db.ledgers[l].mapped.Some?)
  }

  /** A plan from ledgers of the one to ledgers of the other, one-to-one, each with its source's group. */
  ghost predicate Fitting(db: Db, e: Id, source: Id, plan: seq<Assignment>) {
    && DistinctSources(plan) && DistinctTargets(plan)
    && forall i :: 0 <= i < |plan| ==>
         && plan[i].target in db.ledgers && db.ledgers[plan[i].target].engagement == e
         && plan[i].source in db.ledgers && db.ledgers[plan[i].source].engagement == source
         && db.ledgers[plan[i].source].mapped == Some(plan[i].group)
  }

  lemma {:induction false} OneToOneFits(db: Db, source: Id, plan: seq<Assignment>)
    requires DistinctSources(plan)
    requires forall i :: 0 <= i < |plan| ==>
               plan[i].source in db.ledgers && db.ledgers[plan[i].source].engagement == source && db.ledgers[plan[i].source].mapped.Some?
    ensures |plan| <= |MappedIds(Column(db, source))|
  {
    SourceSetSize(plan);
    forall x | x in Sources(plan) ensures x in MappedIds(Column(db, source)) {
      var a :| a in plan && a.source == x;
      var i :| 0 <= i < |plan| && plan[i] == a;
    }
    SubsetSize(Sources(plan), MappedIds(Column(db, source)));
  }

  lemma {:induction false} SubsetSize(a: set<Id>, b: set<Id>)
    requires a <= b
    ensures |a| <= |b|
    decreases |a|
  {
    if a != {} {
      var x :| x in a;
      SubsetSize(a - {x}, b - {x});
    }
  }

  lemma FittingIsChecked(db: Db, e: Id, source: Id, plan: seq<Assignment>)
    ensures Fitting(db, e, source, plan) <==> PlanFits(db, e, source, plan) && Checked(plan, |MappedIds(Column(db, source))|)
  {
    ChecksMeanOneToOne(plan, |MappedIds(Column(db, source))|);
    if Fitting(db, e, source, plan) {
      OneToOneFits(db, source, plan);
      forall a | a in plan
        ensures a.target in Column(db, e) && a.source in Column(db, source) && Column(db, source)[a.source] == Some(a.group)
      {
        var i :| 0 <= i < |plan| && plan[i] == a;
      }
    }
    if PlanFits(db, e, source, plan) {
      forall i | 0 <= i < |plan| ensures plan[i].target in Column(db, e) && plan[i].source in Column(db, source) {
        assert plan[i] in plan;
      }
    }
  }

  /** Main theorem: an accepted import gives each ledger that takes its assignment the group its
      source ledger has, and leaves every other ledger of every engagement as it was; without
      overwrite that is every mapped one. */
  lemma ImportDoes(db: Db, seed: Seed, c: Id, e: Id, source: Id, plan: seq<Assignment>, overwrite: bool)
    ensures var (answer, after) := Step(db, seed, ImportMappings(c, e, source, plan, overwrite));
            && (answer == Ok <==> Importable(db, c, e, source) && Fitting(db, e, source, plan))
            && (answer == Reject(404) <==> !Owns(db, c, e) || (source != e && !Owns(db, c, source)))
            && (answer == Reject(400) <==> Owns(db, c, e) && source == e)
            && (answer == Reject(409) <==>
                  Owns(db, c, e) && Owns(db, c, source) && source != e && !Importable(db, c, e, source))
            && (answer != Ok ==> after == db)
            && (answer == Ok ==>
                  && after == db.(ledgers := after.ledgers) && after.ledgers.Keys == db.ledgers.Keys
                  && (forall l :: l in db.ledgers && !Takes(db, plan, overwrite, l) ==> after.ledgers[l] == db.ledgers[l])
                  && (forall i :: 0 <= i < |plan| ==>
                        var a := plan[i];
                        && a.target in db.ledgers && db.ledgers[a.target].engagement == e
                        && a.source in db.ledgers && db.ledgers[a.source].engagement == source
                        && (Takes(db, plan, overwrite, a.target) ==>
                              after.ledgers[a.target] == db.ledgers[a.target].(mapped := db.ledgers[a.source].mapped))))
  {
    ColumnsInUse(db, e, source);
    FittingIsChecked(db, e, source, plan);
    if Step(db, seed, ImportMappings(c, e, source, plan, overwrite)).0 == Ok {
      ImportWrites(db, c, e, source, plan, overwrite);
    }
  }

  lemma ColumnsInUse(db: Db, e: Id, source: Id)
    ensures Column(db, e) == map[] <==> !exists l :: l in db.ledgers && db.ledgers[l].engagement == e
    ensures MappedIds(Column(db, source)) == {} <==>
            !exists l :: l in db.ledgers && db.ledgers[l].engagement == source && db.ledgers[l].mapped.Some?
  {
    if l :| l in db.ledgers && db.ledgers[l].engagement == e { assert l in Column(db, e); }
    if l :| l in Column(db, e) { assert l in db.ledgers && db.ledgers[l].engagement == e; }
    assert Column(db, e) == map[] <==> forall l :: l !in Column(db, e);
    if l :| l in db.ledgers && db.ledgers[l].engagement == source && db.ledgers[l].mapped.Some? {
      assert l in MappedIds(Column(db, source));
    }
    if l :| l in MappedIds(Column(db, source)) {
      assert l in db.ledgers && db.ledgers[l].engagement == source && db.ledgers[l].mapped.Some?;
    }
  }

  lemma ImportWrites(db: Db, c: Id, e: Id, source: Id, plan: seq<Assignment>, overwrite: bool)
    requires Import(db, c, e, source, plan, overwrite).0 == Ok
    ensures var after := Import(db, c, e, source, plan, overwrite).1;
            && after == db.(ledgers := after.ledgers) && after.ledgers.Keys == db.ledgers.Keys
            && (forall l :: l in db.ledgers && !Takes(db, plan, overwrite, l) ==> after.ledgers[l] == db.ledgers[l])
            && (forall i :: 0 <= i < |plan| ==>
                  var a := plan[i];
                  && a.target in db.ledgers && db.ledgers[a.target].engagement == e
                  && a.source in db.ledgers && db.ledgers[a.source].engagement == source
                  && (Takes(db, plan, overwrite, a.target) ==>
                        after.ledgers[a.target] == db.ledgers[a.target].(mapped := db.ledgers[a.source].mapped)))
  {
    hide Apply;
    var m, after := Column(db, e), Import(db, c, e, source, plan, overwrite).1;
    ChecksMeanOneToOne(plan, |MappedIds(Column(db, source))|);
    assert Targets(plan) <= m.Keys;
    forall i | 0 <= i < |plan|
      ensures var a := plan[i];
              && a.target in m && a.source in db.ledgers && db.ledgers[a.source].engagement == source
              && db.ledgers[a.source].mapped == Some(a.group)
              && Apply(m, plan, overwrite).0[a.target] == Settled(m[a.target], a.group, overwrite)
    {
      assert plan[i] in plan;
      AssignedSettled(m, plan, overwrite, i);
    }
    forall l | l in m && !Assigns(plan, l) ensures Apply(m, plan, overwrite).0[l] == m[l] {
      TargetAt(plan, l);
      UnassignedKept(m, plan, overwrite, l);
    }
  }
}
