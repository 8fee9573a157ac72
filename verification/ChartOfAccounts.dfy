/** The chart of accounts and the mapping of ledgers onto it (app/routers/auditease.py,
    app/services/ledger_groups.py). Seeded groups belong to nobody and are shared; every other
    group, and every ledger, belongs to one company. */
module ChartOfAccounts {
  import opened Prelude
  import opened MappingImport
  import P = MappingPlanner

  datatype Group = Group(company: Option<Id>, parent: Option<Id>, name: string, level: nat)
  datatype Ledger = Ledger(company: Id, engagement: Id, mapped: Option<Id>)
  type Groups = map<Id, Group>

  datatype Db = Db(groups: Groups, ledgers: map<Id, Ledger>, engagements: map<Id, Id>, nextId: Id)

  /** The seed chart: top heads with their sub-groups. The model holds for any chart. */
  type Seed = seq<(string, seq<string>)>

  /** Group names arrive stripped; `ChartStore` strips them. */
  datatype Request =
    | EnsureDefaults
    | AddEngagement(company: Id)
    | DropEngagement(company: Id, engagement: Id)
    | ImportTrialBalance(company: Id, engagement: Id, inserted: nat, deleted: set<Id>)
    | CreateGroup(company: Id, parent: Id, name: string)
    | RenameGroup(company: Id, group: Id, name: string)
    | DeleteGroup(company: Id, group: Id)
    | MapLedger(company: Id, engagement: Id, ledger: Id, group: Id)
    | BulkMap(company: Id, engagement: Id, ledgers: set<Id>, group: Id)
    | Unmap(company: Id, engagement: Id, ledgers: set<Id>)
    | ImportMappings(company: Id, engagement: Id, source: Id, plan: seq<Assignment>, overwrite: bool)

  predicate VisibleTo(g: Group, company: Id) {
    g.company.None? || g.company.value == company
  }

  predicate Visible(db: Db, company: Id, g: Id) {
    g in db.groups && VisibleTo(db.groups[g], company)
  }

  predicate HasChildren(groups: Groups, company: Id, g: Id) {
    exists h :: h in groups && groups[h].parent == Some(g) && VisibleTo(groups[h], company)
  }

  predicate HasMapped(db: Db, company: Id, g: Id) {
    exists l :: l in db.ledgers && db.ledgers[l].company == company && db.ledgers[l].mapped == Some(g)
  }

  predicate Owned(db: Db, company: Id, e: Id) {
    e in db.engagements && db.engagements[e] == company
  }

  // ---------------------------------------------------------------- handlers, as functions

  function Create(db: Db, company: Id, parent: Id, name: string): (Answer, Db) {
    if !Visible(db, company, parent) then (Reject(404), db)
    else if db.groups[parent].level >= 2 then (Reject(400), db)
    else if HasMapped(db, company, parent) then (Reject(409), db)
    else if name == "" then (Reject(400), db)
    else (Ok, AddGroup(db, Group(Some(company), Some(parent), name, db.groups[parent].level + 1)))
  }

  function AddGroup(db: Db, g: Group): Db {
    db.(groups := db.groups[db.nextId := g], nextId := db.nextId + 1)
  }

  /** The refusal of a group the company may not edit, or `Ok`. */
  function Editable(db: Db, company: Id, g: Id): Answer {
    if !Visible(db, company, g) then Reject(404)
    else if db.groups[g].company.None? then Reject(403)
    else Ok
  }

  function Rename(db: Db, company: Id, g: Id, name: string): (Answer, Db) {
    if Editable(db, company, g) != Ok then (Editable(db, company, g), db)
    else if name == "" then (Reject(400), db)
    else (Ok, db.(groups := db.groups[g := db.groups[g].(name := name)]))
  }

  function DeleteOwned(db: Db, company: Id, g: Id): (Answer, Db) {
    if Editable(db, company, g) != Ok then (Editable(db, company, g), db)
    else if HasChildren(db.groups, company, g) || HasMapped(db, company, g) then (Reject(409), db)
    else (Ok, db.(groups := db.groups - {g}))
  }

  /** The refusal of a mapping target, or `Ok` for a leaf the company sees. */
  function LeafCheck(db: Db, company: Id, g: Id): Answer {
    if !Visible(db, company, g) then Reject(404)
    else if HasChildren(db.groups, company, g) then Reject(400)
    else Ok
  }

  function SetMapped(ledgers: map<Id, Ledger>, e: Id, ids: set<Id>, g: Option<Id>): map<Id, Ledger> {
    map l | l in ledgers ::
      if l in ids && ledgers[l].engagement == e then ledgers[l].(mapped := g) else ledgers[l]
  }

  function MapOne(db: Db, company: Id, e: Id, l: Id, g: Id): (Answer, Db) {
    if !Owned(db, company, e) then (Reject(404), db)
    else if LeafCheck(db, company, g) != Ok then (LeafCheck(db, company, g), db)
    else if l !in db.ledgers || db.ledgers[l].engagement != e then (Reject(404), db)
    else (Ok, db.(ledgers := db.ledgers[l := db.ledgers[l].(mapped := Some(g))]))
  }

  function MapMany(db: Db, company: Id, e: Id, ids: set<Id>, g: Id): (Answer, Db) {
    if !Owned(db, company, e) then (Reject(404), db)
    else if LeafCheck(db, company, g) != Ok then (LeafCheck(db, company, g), db)
    else (Ok, db.(ledgers := SetMapped(db.ledgers, e, ids, Some(g))))
  }

  function UnmapMany(db: Db, company: Id, e: Id, ids: set<Id>): (Answer, Db) {
    if !Owned(db, company, e) then (Reject(404), db)
    else (Ok, db.(ledgers := SetMapped(db.ledgers, e, ids, None)))
  }

  /** One engagement's mapping column. */
  function Column(db: Db, e: Id): Mapping {
    map l | l in db.ledgers && db.ledgers[l].engagement == e :: db.ledgers[l].mapped
  }

  function MappedIds(m: Mapping): set<Id> {
    set l | l in m && m[l].Some?
  }

  /** What the planner promises: assigned targets belong to the target engagement, sources to the
      source engagement, and each assignment carries its source's group. */
  predicate PlanFits(db: Db, e: Id, source: Id, plan: seq<Assignment>) {
    forall a :: a in plan ==>
      && a.target in Column(db, e)
      && a.source in Column(db, source) && Column(db, source)[a.source] == Some(a.group)
  }

  function WithColumn(db: Db, m: Mapping): map<Id, Ledger> {
    map l | l in db.ledgers :: if l in m then db.ledgers[l].(mapped := m[l]) else db.ledgers[l]
  }

  function Import(db: Db, company: Id, e: Id, source: Id, plan: seq<Assignment>, overwrite: bool): (Answer, Db) {
    if !Owned(db, company, e) then (Reject(404), db)
    else if source == e then (Reject(400), db)
    else if !Owned(db, company, source) then (Reject(404), db)
    else if Column(db, e) == map[] || MappedIds(Column(db, source)) == {} then (Reject(409), db)
    else if !PlanFits(db, e, source, plan) ||
            !Checked(plan, |MappedIds(Column(db, source))|) then (Reject(500), db)
    else (Ok, db.(ledgers := WithColumn(db, Apply(Column(db, e), plan, overwrite).0)))
  }

  /** Rows inserted by a trial-balance import arrive unmapped. */
  function NewRows(first: Id, n: nat, company: Id, e: Id): (rows: map<Id, Ledger>)
    ensures forall l :: l in rows <==> first <= l < first + n
    ensures forall l :: l in rows ==> rows[l] == Ledger(company, e, None)
  {
    if n == 0 then map[] else NewRows(first, n - 1, company, e)[first + n - 1 := Ledger(company, e, None)]
  }

  function ImportRows(db: Db, company: Id, e: Id, inserted: nat, deleted: set<Id>): (Answer, Db) {
    if !Owned(db, company, e) then (Reject(404), db)
    else
      var kept := map l | l in db.ledgers && !(l in deleted && db.ledgers[l].engagement == e) :: db.ledgers[l];
      (Ok, db.(ledgers := kept + NewRows(db.nextId, inserted, company, e),
               nextId := db.nextId + inserted))
  }

  function Drop(db: Db, company: Id, e: Id): (Answer, Db) {
    if !Owned(db, company, e) then (Reject(404), db)
    else (Ok, db.(engagements := db.engagements - {e},
                  ledgers := map l | l in db.ledgers && db.ledgers[l].engagement != e :: db.ledgers[l]))
  }

  // ---------------------------------------------------------------- seeding

  predicate IsTop(g: Group) {
    g.company.None? && g.level == 0
  }

  predicate IsSub(g: Group, top: Id) {
    g.company.None? && g.level == 1 && g.parent == Some(top)
  }

  ghost predicate HasTop(groups: Groups, name: string) {
    exists t :: t in groups && IsTop(groups[t]) && groups[t].name == name
  }

  ghost predicate HasSub(groups: Groups, top: Id, name: string) {
    exists s :: s in groups && IsSub(groups[s], top) && groups[s].name == name
  }

  ghost function TopNamed(groups: Groups, name: string): (t: Id)
    requires HasTop(groups, name)
    ensures t in groups && IsTop(groups[t]) && groups[t].name == name
  {
    var t :| t in groups && IsTop(groups[t]) && groups[t].name == name;
    t
  }

  ghost function AddTop(db: Db, name: string): Db {
    if HasTop(db.groups, name) then db else AddGroup(db, Group(None, None, name, 0))
  }

  ghost function AddSub(db: Db, top: Id, name: string): Db {
    if HasSub(db.groups, top, name) then db else AddGroup(db, Group(None, Some(top), name, 1))
  }

  ghost function EnsureTops(db: Db, seed: Seed): Db {
    if seed == [] then db
    else AddTop(EnsureTops(db, seed[..|seed| - 1]), seed[|seed| - 1].0)
  }

  ghost function EnsureSubs(db: Db, top: Id, names: seq<string>): Db {
    if names == [] then db
    else AddSub(EnsureSubs(db, top, names[..|names| - 1]), top, names[|names| - 1])
  }

  ghost function EnsureAllSubs(db: Db, seed: Seed): Db {
    if seed == [] then db
    else
      var d := EnsureAllSubs(db, seed[..|seed| - 1]);
      var (name, subs) := seed[|seed| - 1];
      if HasTop(d.groups, name) then EnsureSubs(d, TopNamed(d.groups, name), subs) else d
  }

  /** `ensure_default_ledger_groups`: add the tops that are missing, then their missing subs. */
  ghost function Ensure(db: Db, seed: Seed): Db {
    EnsureAllSubs(EnsureTops(db, seed), seed)
  }

  ghost function Step(db: Db, seed: Seed, r: Request): (Answer, Db) {
    match r
    case EnsureDefaults => (Ok, Ensure(db, seed))
    case AddEngagement(c) => (Ok, db.(engagements := db.engagements[db.nextId := c], nextId := db.nextId + 1))
    case DropEngagement(c, e) => Drop(db, c, e)
    case ImportTrialBalance(c, e, n, gone) => ImportRows(db, c, e, n, gone)
    case CreateGroup(c, p, name) => Create(db, c, p, name)
    case RenameGroup(c, g, name) => Rename(db, c, g, name)
    case DeleteGroup(c, g) => DeleteOwned(db, c, g)
    case MapLedger(c, e, l, g) => MapOne(db, c, e, l, g)
    case BulkMap(c, e, ids, g) => MapMany(db, c, e, ids, g)
    case Unmap(c, e, ids) => UnmapMany(db, c, e, ids)
    case ImportMappings(c, e, s, plan, o) => Import(db, c, e, s, plan, o)
  }

  // ---------------------------------------------------------------- the invariant

  /** Depth at most two, roots exactly the seeded level-0 groups, no dangling parent, and a
      child of a company's group is that company's. */
  ghost predicate GroupOk(groups: Groups, g: Id)
    requires g in groups
  {
    var it := groups[g];
    && it.level <= 2
    && (it.parent.None? <==> it.level == 0)
    && (it.level == 0 ==> it.company.None?)
    && (it.parent.Some? ==>
          && it.parent.value in groups
          && it.level == groups[it.parent.value].level + 1
          && (groups[it.parent.value].company.Some? ==> it.company == groups[it.parent.value].company))
  }

  ghost predicate Forest(db: Db) {
    && (forall g :: g in db.groups ==> g < db.nextId && GroupOk(db.groups, g))
    && TopsUnique(db.groups)
  }

  ghost predicate TopsUnique(groups: Groups) {
    forall t, u :: t in groups && u in groups && IsTop(groups[t]) && IsTop(groups[u]) ==>
      (groups[t].name == groups[u].name ==> t == u)
  }

  /** A mapped ledger names an existing leaf its company sees. */
  ghost predicate LedgerOk(db: Db, l: Id)
    requires l in db.ledgers
  {
    var it := db.ledgers[l];
    && l < db.nextId
    && Owned(db, it.company, it.engagement)
    && (it.mapped.Some? ==> Visible(db, it.company, it.mapped.value) && !HasChildren(db.groups, it.company, it.mapped.value))
  }

  ghost predicate Mapped(db: Db) {
    && (forall e :: e in db.engagements ==> e < db.nextId)
    && (forall l :: l in db.ledgers ==> LedgerOk(db, l))
  }

  ghost predicate Complete(groups: Groups, seed: Seed) {
    forall i :: 0 <= i < |seed| ==> HasAll(groups, seed[i].0, seed[i].1)
  }

  ghost predicate HasAll(groups: Groups, name: string, subs: seq<string>) {
    HasTop(groups, name) && forall n :: n in subs ==> HasSub(groups, TopNamed(groups, name), n)
  }

  ghost predicate Inv(db: Db, seed: Seed) {
    Forest(db) && Mapped(db) && (db.groups == map[] || Complete(db.groups, seed))
  }

  const INIT := Db(map[], map[], map[], 0)

  // ---------------------------------------------------------------- group handlers keep it

  /** Seeded groups that stay keep the seed chart complete. */
  lemma CompleteKept(before: Groups, after: Groups, seed: Seed)
    requires Complete(before, seed)
    requires forall g :: g in before && before[g].company.None? ==> g in after && after[g] == before[g]
    requires TopsUnique(after)
    ensures Complete(after, seed)
  {
    forall i | 0 <= i < |seed| ensures HasAll(after, seed[i].0, seed[i].1) {
      var (name, subs) := seed[i];
      assert HasAll(before, name, subs);
      var t := TopNamed(before, name);
      assert t in after && IsTop(after[t]) && after[t].name == name;
      assert TopNamed(after, name) == t;
      forall n | n in subs ensures HasSub(after, t, n) {
        var s :| s in before && IsSub(before[s], t) && before[s].name == n;
        assert s in after && IsSub(after[s], t) && after[s].name == n;
      }
    }
  }

  lemma CreatedForest(db: Db, g: Group)
    requires Forest(db) && g.company.Some? && g.parent.Some? && g.parent.value in db.groups
    requires g.level == db.groups[g.parent.value].level + 1 <= 2 && VisibleTo(db.groups[g.parent.value], g.company.value)
    ensures Forest(AddGroup(db, g))
  {
    var after := AddGroup(db, g);
    forall h | h in after.groups ensures GroupOk(after.groups, h) {
      if h in db.groups { assert GroupOk(db.groups, h); }
    }
  }

  /** A new child breaks no mapping unless one of its company's ledgers is mapped to its parent. */
  lemma CreatedMapped(db: Db, g: Group)
    requires Forest(db) && Mapped(db) && g.company.Some? && g.parent.Some?
    requires !HasMapped(db, g.company.value, g.parent.value)
    ensures Mapped(AddGroup(db, g))
  {
    var after := AddGroup(db, g);
    forall l | l in db.ledgers ensures LedgerOk(after, l) {
      assert LedgerOk(db, l);
    }
  }

  lemma AddOwnedKeepsInv(db: Db, seed: Seed, g: Group)
    requires Inv(db, seed) && g.company.Some? && g.parent.Some? && g.parent.value in db.groups
    requires g.level == db.groups[g.parent.value].level + 1 <= 2 && VisibleTo(db.groups[g.parent.value], g.company.value)
    requires !HasMapped(db, g.company.value, g.parent.value)
    ensures Inv(AddGroup(db, g), seed)
  {
    CreatedForest(db, g);
    CreatedMapped(db, g);
    CompleteKept(db.groups, AddGroup(db, g).groups, seed);
  }

  function Child(groups: Groups, c: Id, parent: Id, name: string): Group
    requires parent in groups
  {
    Group(Some(c), Some(parent), name, groups[parent].level + 1)
  }

  /** What an accepted creation has checked. */
  lemma CreateEffect(db: Db, c: Id, parent: Id, name: string)
    ensures var (answer, after) := Create(db, c, parent, name);
            if answer != Ok then after == db
            else
              && parent in db.groups && db.groups[parent].level < 2 && VisibleTo(db.groups[parent], c)
              && !HasMapped(db, c, parent) && after == AddGroup(db, Child(db.groups, c, parent, name))
  {
  }

  lemma CreateKeepsInv(db: Db, seed: Seed, c: Id, parent: Id, name: string)
    requires Inv(db, seed)
    ensures Inv(Create(db, c, parent, name).1, seed)
  {
    CreateEffect(db, c, parent, name);
    var (answer, after) := Create(db, c, parent, name);
    if answer == Ok {
      AddOwnedKeepsInv(db, seed, Child(db.groups, c, parent, name));
      assert Inv(after, seed);
    }
  }

  /** Only the name of one company-owned group differs. */
  ghost predicate Renamed(before: Groups, after: Groups, g: Id) {
    && after.Keys == before.Keys && g in before && before[g].company.Some?
    && (forall h :: h in before && h != g ==> after[h] == before[h])
    && after[g] == before[g].(name := after[g].name)
  }

  lemma RenamedForest(db: Db, after: Db, g: Id)
    requires Forest(db) && Renamed(db.groups, after.groups, g) && after.nextId == db.nextId
    ensures Forest(after)
  {
    forall h | h in after.groups ensures GroupOk(after.groups, h) {
      assert GroupOk(db.groups, h);
    }
  }

  lemma RenamedMapped(db: Db, after: Db, g: Id)
    requires Mapped(db) && Renamed(db.groups, after.groups, g)
    requires after == db.(groups := after.groups)
    ensures Mapped(after)
  {
    forall l | l in db.ledgers ensures LedgerOk(after, l) {
      assert LedgerOk(db, l);
    }
  }

  lemma RenameKeepsInv(db: Db, seed: Seed, c: Id, g: Id, name: string)
    requires Inv(db, seed)
    ensures Inv(Rename(db, c, g, name).1, seed)
  {
    var after := Rename(db, c, g, name).1;
    if Rename(db, c, g, name).0 == Ok {
      RenamedForest(db, after, g);
      RenamedMapped(db, after, g);
      CompleteKept(db.groups, after.groups, seed);
    }
  }

  /** A child of a company's group is one that company sees. */
  lemma ChildBlocks(db: Db, h: Id, c: Id, g: Id)
    requires Forest(db) && h in db.groups && g in db.groups && db.groups[g].company == Some(c)
    ensures GroupOk(db.groups, h)
    ensures db.groups[h].parent == Some(g) ==> HasChildren(db.groups, c, g)
  {
    assert GroupOk(db.groups, h);
  }

  /** Whoever is mapped to a company's group is that company's ledger. */
  lemma MappedLedgerBlocks(db: Db, l: Id, c: Id, g: Id)
    requires Mapped(db) && l in db.ledgers && g in db.groups && db.groups[g].company == Some(c)
    ensures LedgerOk(db, l)
    ensures db.ledgers[l].mapped == Some(g) ==> HasMapped(db, c, g)
  {
    assert LedgerOk(db, l);
  }

  lemma DeleteKeepsInv(db: Db, seed: Seed, c: Id, g: Id)
    requires Inv(db, seed)
    ensures Inv(DeleteOwned(db, c, g).1, seed)
  {
    var after := DeleteOwned(db, c, g).1;
    if DeleteOwned(db, c, g).0 == Ok {
      forall h | h in after.groups ensures GroupOk(after.groups, h) {
        ChildBlocks(db, h, c, g);
      }
      forall l | l in db.ledgers ensures LedgerOk(after, l) {
        MappedLedgerBlocks(db, l, c, g);
      }
      CompleteKept(db.groups, after.groups, seed);
    }
  }

  // ---------------------------------------------------------------- mapping handlers keep it

  lemma MapsKeepInv(db: Db, seed: Seed, c: Id, e: Id, l: Id, ids: set<Id>, g: Id)
    requires Inv(db, seed)
    ensures Inv(MapOne(db, c, e, l, g).1, seed)
    ensures Inv(MapMany(db, c, e, ids, g).1, seed)
    ensures Inv(UnmapMany(db, c, e, ids).1, seed)
  {
    forall k | k in db.ledgers
      ensures LedgerOk(MapOne(db, c, e, l, g).1, k)
      ensures LedgerOk(MapMany(db, c, e, ids, g).1, k)
      ensures LedgerOk(UnmapMany(db, c, e, ids).1, k)
    {
      assert LedgerOk(db, k);
    }
  }

  /** After a fitting import a target keeps its group or has the group of some source ledger. */
  lemma {:induction false} ImportedGroups(m: Mapping, plan: seq<Assignment>, overwrite: bool, l: Id)
    requires Targets(plan) <= m.Keys && l in m
    ensures var after := Apply(m, plan, overwrite).0[l];
            after == m[l] || exists a :: a in plan && after == Some(a.group)
    decreases |plan|
  {
    if plan != [] {
      var n := |plan| - 1;
      assert forall x :: x in plan[..n] ==> x in plan;
      assert plan[n] in plan;
      ImportedGroups(m, plan[..n], overwrite, l);
    }
  }

  lemma ImportKeepsInv(db: Db, seed: Seed, c: Id, e: Id, source: Id, plan: seq<Assignment>, overwrite: bool)
    requires Inv(db, seed)
    ensures Inv(Import(db, c, e, source, plan, overwrite).1, seed)
  {
    var after := Import(db, c, e, source, plan, overwrite).1;
    if Import(db, c, e, source, plan, overwrite).0 == Ok {
      var m := Column(db, e);
      forall l | l in db.ledgers ensures LedgerOk(after, l) {
        assert LedgerOk(db, l);
        if l in m {
          ImportedGroups(m, plan, overwrite, l);
          if after.ledgers[l].mapped != db.ledgers[l].mapped {
            var a :| a in plan && after.ledgers[l].mapped == Some(a.group);
            assert LedgerOk(db, a.source);
          }
        }
      }
    }
  }

  lemma RowsKeepInv(db: Db, seed: Seed, c: Id, e: Id, n: nat, gone: set<Id>)
    requires Inv(db, seed)
    ensures Inv(ImportRows(db, c, e, n, gone).1, seed)
    ensures Inv(Drop(db, c, e).1, seed)
  {
    var after, dropped := ImportRows(db, c, e, n, gone).1, Drop(db, c, e).1;
    forall l | l in after.ledgers ensures LedgerOk(after, l) {
      if l in db.ledgers { assert LedgerOk(db, l); }
    }
    forall l | l in dropped.ledgers ensures LedgerOk(dropped, l) {
      assert LedgerOk(db, l);
    }
  }

  // ---------------------------------------------------------------- seeding keeps it

  lemma {:induction false} EnsureTopsNoop(db: Db, seed: Seed)
    requires forall i :: 0 <= i < |seed| ==> HasTop(db.groups, seed[i].0)
    ensures EnsureTops(db, seed) == db
    decreases |seed|
  {
    if seed != [] { EnsureTopsNoop(db, seed[..|seed| - 1]); }
  }

  lemma {:induction false} EnsureSubsNoop(db: Db, top: Id, names: seq<string>)
    requires forall n :: n in names ==> HasSub(db.groups, top, n)
    ensures EnsureSubs(db, top, names) == db
    decreases |names|
  {
    if names != [] { EnsureSubsNoop(db, top, names[..|names| - 1]); }
  }

  /** Once complete, the seeding that runs on every listing changes nothing. */
  lemma {:induction false} EnsureAllSubsNoop(db: Db, seed: Seed)
    requires Complete(db.groups, seed)
    ensures EnsureAllSubs(db, seed) == db
    decreases |seed|
  {
    if seed != [] {
      var n := |seed| - 1;
      EnsureAllSubsNoop(db, seed[..n]);
      assert HasAll(db.groups, seed[n].0, seed[n].1);
      EnsureSubsNoop(db, TopNamed(db.groups, seed[n].0), seed[n].1);
    }
  }

  /** Only seeded groups are added, at the end, and what was there stays. */
  ghost predicate Grew(before: Db, after: Db) {
    && after.ledgers == before.ledgers && after.engagements == before.engagements
    && before.nextId <= after.nextId
    && (forall g :: g in before.groups ==> g in after.groups && after.groups[g] == before.groups[g])
    && (forall g :: g in after.groups && g !in before.groups ==> after.groups[g].company.None?)
  }

  lemma GrewTransitive(a: Db, b: Db, c: Db)
    requires Grew(a, b) && Grew(b, c)
    ensures Grew(a, c)
  {
    forall g | g in c.groups && g !in a.groups ensures c.groups[g].company.None? {
      if g in b.groups { assert c.groups[g] == b.groups[g]; }
    }
  }

  lemma AddSeeded(d: Db, g: Group)
    requires Forest(d) && g.company.None?
    requires (g.level == 0 && g.parent.None? && !HasTop(d.groups, g.name)) ||
             (g.level == 1 && g.parent.Some? && g.parent.value in d.groups && IsTop(d.groups[g.parent.value]))
    ensures Forest(AddGroup(d, g)) && Grew(d, AddGroup(d, g))
  {
    var after := AddGroup(d, g);
    forall h | h in after.groups ensures GroupOk(after.groups, h) {
      if h in d.groups { assert GroupOk(d.groups, h); }
    }
  }

  lemma TopKept(before: Db, after: Db, name: string)
    requires Grew(before, after) && HasTop(before.groups, name)
    ensures HasTop(after.groups, name)
  {
    var t := TopNamed(before.groups, name);
    assert t in after.groups && IsTop(after.groups[t]) && after.groups[t].name == name;
  }

  lemma TopStep(d: Db, name: string)
    requires Forest(d)
    ensures Forest(AddTop(d, name)) && Grew(d, AddTop(d, name)) && HasTop(AddTop(d, name).groups, name)
  {
    if !HasTop(d.groups, name) {
      var g := Group(None, None, name, 0);
      AddSeeded(d, g);
      assert AddGroup(d, g).groups[d.nextId] == g;
    }
  }

  lemma SubStep(d: Db, top: Id, name: string)
    requires Forest(d) && top in d.groups && IsTop(d.groups[top])
    ensures Forest(AddSub(d, top, name)) && Grew(d, AddSub(d, top, name))
  {
    if !HasSub(d.groups, top, name) { AddSeeded(d, Group(None, Some(top), name, 1)); }
  }

  lemma {:induction false} EnsureTopsGrows(db: Db, seed: Seed)
    requires Forest(db)
    ensures Forest(EnsureTops(db, seed)) && Grew(db, EnsureTops(db, seed))
    decreases |seed|
  {
    if seed != [] {
      var n := |seed| - 1;
      var before := EnsureTops(db, seed[..n]);
      EnsureTopsGrows(db, seed[..n]);
      TopStep(before, seed[n].0);
      GrewTransitive(db, before, AddTop(before, seed[n].0));
    }
  }

  lemma {:induction false} EnsureTopsHas(db: Db, seed: Seed, i: nat)
    requires Forest(db) && i < |seed|
    ensures HasTop(EnsureTops(db, seed).groups, seed[i].0)
    decreases |seed|
  {
    var n := |seed| - 1;
    var before := EnsureTops(db, seed[..n]);
    EnsureTopsGrows(db, seed[..n]);
    TopStep(before, seed[n].0);
    if i < n {
      EnsureTopsHas(db, seed[..n], i);
      assert seed[..n][i] == seed[i];
      TopKept(before, AddTop(before, seed[n].0), seed[i].0);
    }
  }

  lemma {:induction false} EnsureSubsGrows(db: Db, top: Id, names: seq<string>)
    requires Forest(db) && top in db.groups && IsTop(db.groups[top])
    ensures Forest(EnsureSubs(db, top, names)) && Grew(db, EnsureSubs(db, top, names))
    ensures top in EnsureSubs(db, top, names).groups && IsTop(EnsureSubs(db, top, names).groups[top])
    decreases |names|
  {
    if names != [] {
      var n := |names| - 1;
      var before := EnsureSubs(db, top, names[..n]);
      EnsureSubsGrows(db, top, names[..n]);
      SubStep(before, top, names[n]);
      GrewTransitive(db, before, AddSub(before, top, names[n]));
    }
  }

  ghost predicate IdsBelow(db: Db) {
    forall g :: g in db.groups ==> g < db.nextId
  }

  lemma SubHasStep(d: Db, top: Id, added: string, name: string)
    requires IdsBelow(d)
    requires added == name || HasSub(d.groups, top, name)
    ensures HasSub(AddSub(d, top, added).groups, top, name)
  {
    var after := AddSub(d, top, added);
    if HasSub(d.groups, top, name) {
      var s :| s in d.groups && IsSub(d.groups[s], top) && d.groups[s].name == name;
      assert s in after.groups && IsSub(after.groups[s], top) && after.groups[s].name == name;
    } else {
      assert after.groups[d.nextId] == Group(None, Some(top), name, 1);
    }
  }

  lemma {:induction false} EnsureSubsHas(db: Db, top: Id, names: seq<string>)
    requires IdsBelow(db)
    ensures IdsBelow(EnsureSubs(db, top, names))
    ensures forall i :: 0 <= i < |names| ==> HasSub(EnsureSubs(db, top, names).groups, top, names[i])
    decreases |names|
  {
    if names != [] {
      var n := |names| - 1;
      EnsureSubsHas(db, top, names[..n]);
      forall i | 0 <= i < |names| ensures HasSub(EnsureSubs(db, top, names).groups, top, names[i]) {
        if i < n { assert names[..n][i] == names[i]; }
        SubHasStep(EnsureSubs(db, top, names[..n]), top, names[n], names[i]);
      }
    }
  }

  lemma {:induction false} EnsureAllSubsGrows(db: Db, seed: Seed)
    requires Forest(db) && forall i :: 0 <= i < |seed| ==> HasTop(db.groups, seed[i].0)
    ensures Forest(EnsureAllSubs(db, seed)) && Grew(db, EnsureAllSubs(db, seed))
    ensures Complete(EnsureAllSubs(db, seed).groups, seed)
    decreases |seed|
  {
    if seed != [] {
      var n := |seed| - 1;
      assert forall i :: 0 <= i < n ==> seed[..n][i] == seed[i];
      var before, name := EnsureAllSubs(db, seed[..n]), seed[n].0;
      EnsureAllSubsGrows(db, seed[..n]);
      TopKept(db, before, name);
      var t := TopNamed(before.groups, name);
      LastHead(before, seed, t);
      GrewTransitive(db, before, EnsureSubs(before, t, seed[n].1));
    }
  }

  lemma LastHead(before: Db, seed: Seed, t: Id)
    requires seed != [] && Forest(before) && Complete(before.groups, seed[..|seed| - 1])
    requires t in before.groups && IsTop(before.groups[t]) && before.groups[t].name == seed[|seed| - 1].0
    ensures var after := EnsureSubs(before, t, seed[|seed| - 1].1);
            Forest(after) && Grew(before, after) && Complete(after.groups, seed)
  {
    var names := seed[|seed| - 1].1;
    EnsureSubsGrows(before, t, names);
    EnsureSubsHas(before, t, names);
    forall n | n in names ensures HasSub(EnsureSubs(before, t, names).groups, t, n) {
      var i :| 0 <= i < |names| && names[i] == n;
    }
    LastHeadComplete(before, EnsureSubs(before, t, names), seed, t);
  }

  lemma LastHeadComplete(before: Db, after: Db, seed: Seed, t: Id)
    requires seed != [] && Complete(before.groups, seed[..|seed| - 1]) && Grew(before, after) && TopsUnique(after.groups)
    requires t in before.groups && IsTop(before.groups[t]) && before.groups[t].name == seed[|seed| - 1].0
    requires forall n :: n in seed[|seed| - 1].1 ==> HasSub(after.groups, t, n)
    ensures Complete(after.groups, seed)
  {
    var n := |seed| - 1;
    CompleteKept(before.groups, after.groups, seed[..n]);
    assert t in after.groups && IsTop(after.groups[t]) && after.groups[t].name == seed[n].0;
    assert TopNamed(after.groups, seed[n].0) == t;
    forall i | 0 <= i < |seed| ensures HasAll(after.groups, seed[i].0, seed[i].1) {
      if i < n { assert seed[..n][i] == seed[i] && HasAll(after.groups, seed[..n][i].0, seed[..n][i].1); }
    }
  }

  /** The shared seeding is safe for every tenant: it acts only on an empty chart, where nothing
      can be mapped, so it never puts a child under a mapped group. */
  lemma EnsureKeepsInv(db: Db, seed: Seed)
    requires Inv(db, seed)
    ensures Inv(Ensure(db, seed), seed) && Complete(Ensure(db, seed).groups, seed)
    ensures db.groups != map[] ==> Ensure(db, seed) == db
  {
    if db.groups == map[] {
      EnsureTopsGrows(db, seed);
      var d := EnsureTops(db, seed);
      forall i | 0 <= i < |seed| ensures HasTop(d.groups, seed[i].0) { EnsureTopsHas(db, seed, i); }
      EnsureAllSubsGrows(d, seed);
      var after := Ensure(db, seed);
      forall l | l in after.ledgers ensures LedgerOk(after, l) {
        assert LedgerOk(db, l);
      }
    } else {
      forall i | 0 <= i < |seed| ensures HasTop(db.groups, seed[i].0) {
        assert HasAll(db.groups, seed[i].0, seed[i].1);
      }
      EnsureTopsNoop(db, seed);
      EnsureAllSubsNoop(db, seed);
    }
  }

  // ---------------------------------------------------------------- a partly seeded chart

  /** Every group beyond `before` that hangs under one of its groups is a sub-group the seed lists
      for that head and `before` lacks. */
  ghost predicate AddsMissing(before: Groups, after: Groups, seed: Seed) {
    forall h :: h in after && h !in before && after[h].parent.Some? && after[h].parent.value in before ==>
      Lacks(before, seed, after[h].parent.value)
  }

  /** A seeded head without one of the sub-groups the seed lists for its name. */
  ghost predicate Lacks(groups: Groups, seed: Seed, t: Id) {
    t in groups && IsTop(groups[t]) &&
    exists i, j :: 0 <= i < |seed| && seed[i].0 == groups[t].name && 0 <= j < |seed[i].1| && !HasSub(groups, t, seed[i].1[j])
  }

  /** A new sub-group under `top`, or a new head: nothing else. */
  ghost predicate OnlyUnder(before: Groups, after: Groups, top: Id) {
    forall h :: h in after && h !in before ==> after[h].parent == Some(top)
  }

  lemma {:induction false} TopsHaveNoParent(db: Db, seed: Seed, h: Id)
    requires h in EnsureTops(db, seed).groups && h !in db.groups
    ensures EnsureTops(db, seed).groups[h].parent.None?
    decreases |seed|
  {
    if seed != [] {
      var d := EnsureTops(db, seed[..|seed| - 1]);
      if HasTop(d.groups, seed[|seed| - 1].0) || h != d.nextId {
        TopsHaveNoParent(db, seed[..|seed| - 1], h);
      }
    }
  }

  /** What `EnsureSubs` adds is under `top`, and only if one of the names is missing. */
  lemma {:induction false} SubsOnlyUnder(db: Db, top: Id, names: seq<string>)
    requires IdsBelow(db)
    ensures IdsBelow(EnsureSubs(db, top, names)) && OnlyUnder(db.groups, EnsureSubs(db, top, names).groups, top)
    ensures (forall j :: 0 <= j < |names| ==> HasSub(db.groups, top, names[j])) ==> EnsureSubs(db, top, names) == db
    decreases |names|
  {
    if names != [] {
      var init := names[..|names| - 1];
      SubsOnlyUnder(db, top, init);
      assert forall j :: 0 <= j < |init| ==> init[j] == names[j];
    }
  }

  lemma LacksGrows(groups: Groups, seed: Seed, n: nat, t: Id)
    requires n <= |seed| && Lacks(groups, seed[..n], t)
    ensures Lacks(groups, seed, t)
  {
    var i, j :| 0 <= i < n && seed[..n][i].0 == groups[t].name && 0 <= j < |seed[..n][i].1| &&
                !HasSub(groups, t, seed[..n][i].1[j]);
    assert seed[i] == seed[..n][i];
  }

  /** What one seeded head receives, seen from the chart the seeding started with. */
  lemma HeadAddsMissing(db: Db, d: Db, seed: Seed, t: Id)
    requires seed != [] && Forest(d) && Grew(db, d) && AddsMissing(db.groups, d.groups, seed[..|seed| - 1])
    requires t in d.groups && IsTop(d.groups[t]) && d.groups[t].name == seed[|seed| - 1].0
    ensures AddsMissing(db.groups, EnsureSubs(d, t, seed[|seed| - 1].1).groups, seed)
  {
    var n, names := |seed| - 1, seed[|seed| - 1].1;
    var after := EnsureSubs(d, t, names);
    EnsureSubsGrows(d, t, names);
    SubsOnlyUnder(d, t, names);
    forall h | h in after.groups && h !in db.groups && after.groups[h].parent.Some? && after.groups[h].parent.value in db.groups
      ensures Lacks(db.groups, seed, after.groups[h].parent.value)
    {
      if h in d.groups {
        LacksGrows(db.groups, seed, n, d.groups[h].parent.value);
      } else {
        assert d.groups[t] == db.groups[t];
        var j :| 0 <= j < |names| && !HasSub(d.groups, t, names[j]);
        SubKept(db, d, t, names[j]);
        assert seed[n].0 == db.groups[t].name && !HasSub(db.groups, t, seed[n].1[j]);
      }
    }
  }

  lemma SubKept(before: Db, after: Db, top: Id, name: string)
    requires Grew(before, after)
    ensures HasSub(before.groups, top, name) ==> HasSub(after.groups, top, name)
  {
    if s :| s in before.groups && IsSub(before.groups[s], top) && before.groups[s].name == name {
      assert s in after.groups && IsSub(after.groups[s], top) && after.groups[s].name == name;
    }
  }

  lemma {:induction false} AllSubsAddMissing(db: Db, d: Db, seed: Seed)
    requires Forest(d) && Grew(db, d) && forall i :: 0 <= i < |seed| ==> HasTop(d.groups, seed[i].0)
    requires AddsMissing(db.groups, d.groups, [])
    ensures AddsMissing(db.groups, EnsureAllSubs(d, seed).groups, seed)
    decreases |seed|
  {
    if seed != [] {
      var n := |seed| - 1;
      assert forall i :: 0 <= i < n ==> seed[..n][i] == seed[i];
      var before := EnsureAllSubs(d, seed[..n]);
      AllSubsAddMissing(db, d, seed[..n]);
      EnsureAllSubsGrows(d, seed[..n]);
      GrewTransitive(db, d, before);
      TopKept(d, before, seed[n].0);
      HeadAddsMissing(db, before, seed, TopNamed(before.groups, seed[n].0));
    }
  }

  lemma SeedingAddsMissing(db: Db, seed: Seed)
    requires Forest(db)
    ensures Forest(Ensure(db, seed)) && Complete(Ensure(db, seed).groups, seed) && Grew(db, Ensure(db, seed))
    ensures AddsMissing(db.groups, Ensure(db, seed).groups, seed)
  {
    var d := EnsureTops(db, seed);
    EnsureTopsGrows(db, seed);
    forall i | 0 <= i < |seed| ensures HasTop(d.groups, seed[i].0) { EnsureTopsHas(db, seed, i); }
    EnsureAllSubsGrows(d, seed);
    GrewTransitive(db, d, Ensure(db, seed));
    forall h | h in d.groups && h !in db.groups ensures d.groups[h].parent.None? { TopsHaveNoParent(db, seed, h); }
    AllSubsAddMissing(db, d, seed);
  }

  /** Main theorem: whatever part of the seed chart is there, seeding completes it; and it leaves
      every mapping on a leaf exactly when no ledger is mapped to a head that lacked a sub-group. */
  lemma SeedingBreaksExactly(db: Db, seed: Seed)
    requires Forest(db) && Mapped(db)
    ensures Forest(Ensure(db, seed)) && Complete(Ensure(db, seed).groups, seed) && Grew(db, Ensure(db, seed))
    ensures Mapped(Ensure(db, seed)) <==>
            forall l :: l in db.ledgers && db.ledgers[l].mapped.Some? ==> !Lacks(db.groups, seed, db.ledgers[l].mapped.value)
  {
    var after := Ensure(db, seed);
    SeedingAddsMissing(db, seed);
    forall l | l in db.ledgers && db.ledgers[l].mapped.Some?
      ensures LedgerOk(after, l) <==> !Lacks(db.groups, seed, db.ledgers[l].mapped.value)
    {
      assert LedgerOk(db, l);
      LeafAfterSeeding(db, after, seed, db.ledgers[l].company, db.ledgers[l].mapped.value);
    }
    forall l | l in db.ledgers && db.ledgers[l].mapped.None? ensures LedgerOk(after, l) { assert LedgerOk(db, l); }
  }

  lemma LeafAfterSeeding(db: Db, after: Db, seed: Seed, company: Id, g: Id)
    requires Forest(after) && Grew(db, after) && Complete(after.groups, seed) && AddsMissing(db.groups, after.groups, seed)
    requires g in db.groups && !HasChildren(db.groups, company, g)
    ensures HasChildren(after.groups, company, g) <==> Lacks(db.groups, seed, g)
  {
    if Lacks(db.groups, seed, g) {
      var i, j :| 0 <= i < |seed| && seed[i].0 == db.groups[g].name && 0 <= j < |seed[i].1| && !HasSub(db.groups, g, seed[i].1[j]);
      assert HasAll(after.groups, seed[i].0, seed[i].1) && seed[i].1[j] in seed[i].1;
      assert TopNamed(after.groups, seed[i].0) == g;
      var s :| s in after.groups && IsSub(after.groups[s], g) && after.groups[s].name == seed[i].1[j];
      assert after.groups[s].parent == Some(g) && VisibleTo(after.groups[s], company);
    }
    if h :| h in after.groups && after.groups[h].parent == Some(g) && VisibleTo(after.groups[h], company) {
      assert h !in db.groups;
    }
  }

  lemma StepKeepsInv(db: Db, seed: Seed, r: Request)
    requires Inv(db, seed)
    ensures Inv(Step(db, seed, r).1, seed)
  {
    match r
    case EnsureDefaults => EnsureKeepsInv(db, seed);
    case AddEngagement(c) =>
      var after := Step(db, seed, r).1;
      forall l | l in db.ledgers ensures LedgerOk(after, l) { assert LedgerOk(db, l); }
    case DropEngagement(c, e) => RowsKeepInv(db, seed, c, e, 0, {});
    case ImportTrialBalance(c, e, n, gone) => RowsKeepInv(db, seed, c, e, n, gone);
    case CreateGroup(c, p, name) => CreateKeepsInv(db, seed, c, p, name);
    case RenameGroup(c, g, name) => RenameKeepsInv(db, seed, c, g, name);
    case DeleteGroup(c, g) => DeleteKeepsInv(db, seed, c, g);
    case MapLedger(c, e, l, g) => MapsKeepInv(db, seed, c, e, l, {}, g);
    case BulkMap(c, e, ids, g) => MapsKeepInv(db, seed, c, e, 0, ids, g);
    case Unmap(c, e, ids) => MapsKeepInv(db, seed, c, e, 0, ids, 0);
    case ImportMappings(c, e, s, plan, o) => ImportKeepsInv(db, seed, c, e, s, plan, o);
  }

  // ---------------------------------------------------------------- every reachable state

  ghost function Run(seed: Seed, reqs: seq<Request>): Db {
    if reqs == [] then INIT else Step(Run(seed, reqs[..|reqs| - 1]), seed, reqs[|reqs| - 1]).1
  }

  lemma {:induction false} RunKeepsInv(seed: Seed, reqs: seq<Request>)
    ensures Inv(Run(seed, reqs), seed)
    decreases |reqs|
  {
    if reqs != [] {
      RunKeepsInv(seed, reqs[..|reqs| - 1]);
      StepKeepsInv(Run(seed, reqs[..|reqs| - 1]), seed, reqs[|reqs| - 1]);
    }
  }

  /** Main theorem: whatever any number of companies do, a mapped ledger names an existing group
      its company sees and that has no child its company sees; no parent dangles; and a child of
      a company's group is that company's own. */
  lemma MappedGroupsAreLeaves(seed: Seed, reqs: seq<Request>, l: Id, g: Id)
    ensures var db := Run(seed, reqs);
            && (l in db.ledgers && db.ledgers[l].mapped.Some? ==>
                  && Visible(db, db.ledgers[l].company, db.ledgers[l].mapped.value)
                  && !HasChildren(db.groups, db.ledgers[l].company, db.ledgers[l].mapped.value))
            && (g in db.groups && db.groups[g].parent.Some? ==>
                  && db.groups[g].parent.value in db.groups
                  && db.groups[g].level == db.groups[db.groups[g].parent.value].level + 1 <= 2
                  && (db.groups[db.groups[g].parent.value].company.Some? ==>
                        db.groups[db.groups[g].parent.value].company == db.groups[g].company))
  {
    RunKeepsInv(seed, reqs);
    var db := Run(seed, reqs);
    if l in db.ledgers { assert LedgerOk(db, l); }
    if g in db.groups { assert GroupOk(db.groups, g); }
  }

  /** The groups from `g` up to its root. */
  ghost function PathUp(db: Db, g: Id): seq<Id>
    requires Forest(db) && g in db.groups
    decreases db.groups[g].level
  {
    assert GroupOk(db.groups, g);
    if db.groups[g].parent.None? then [g] else [g] + PathUp(db, db.groups[g].parent.value)
  }

  /** Every walk up has exactly `level` steps, at most two, ends at a shared seeded head, and
      passes only through groups that everybody who sees `g` sees too. */
  lemma {:induction false} PathsEndAtSeededHeads(db: Db, g: Id, company: Id)
    requires Forest(db) && Visible(db, company, g)
    ensures var path := PathUp(db, g);
            && |path| == db.groups[g].level + 1 <= 3
            && (forall i :: 0 <= i < |path| ==> Visible(db, company, path[i]))
            && IsTop(db.groups[path[|path| - 1]]) && db.groups[path[|path| - 1]].parent.None?
    decreases db.groups[g].level
  {
    assert GroupOk(db.groups, g);
    if db.groups[g].parent.Some? { PathsEndAtSeededHeads(db, db.groups[g].parent.value, company); }
  }

  // ---------------------------------------------------------------- tenants do not interfere

  function Actor(r: Request): Option<Id> {
    match r
    case EnsureDefaults => None
    case AddEngagement(c) => Some(c)
    case DropEngagement(c, _) => Some(c)
    case ImportTrialBalance(c, _, _, _) => Some(c)
    case CreateGroup(c, _, _) => Some(c)
    case RenameGroup(c, _, _) => Some(c)
    case DeleteGroup(c, _) => Some(c)
    case MapLedger(c, _, _, _) => Some(c)
    case BulkMap(c, _, _, _) => Some(c)
    case Unmap(c, _, _) => Some(c)
    case ImportMappings(c, _, _, _, _) => Some(c)
  }

  /** What one company can see: the shared and own groups, its ledgers, its engagements. */
  ghost predicate SameView(before: Db, after: Db, company: Id) {
    && (forall g :: Visible(before, company, g) || Visible(after, company, g) ==>
          g in before.groups && g in after.groups && before.groups[g] == after.groups[g])
    && (forall l :: (l in before.ledgers && before.ledgers[l].company == company) ||
                    (l in after.ledgers && after.ledgers[l].company == company) ==>
          l in before.ledgers && l in after.ledgers && before.ledgers[l] == after.ledgers[l])
    && (forall e :: Owned(before, company, e) <==> Owned(after, company, e))
  }

  /** A step that only adds, changes or removes groups of `c` is invisible to everyone else. */
  lemma GroupStepStaysHome(db: Db, after: Db, c: Id, other: Id)
    requires c != other && after.ledgers == db.ledgers && after.engagements == db.engagements
    requires forall g :: g in db.groups && db.groups[g].company != Some(c) ==> g in after.groups && after.groups[g] == db.groups[g]
    requires forall g :: g in after.groups && after.groups[g].company != Some(c) ==> g in db.groups && after.groups[g] == db.groups[g]
    ensures SameView(db, after, other)
  {
  }

  /** Ids are fresh and a ledger's company owns its engagement. */
  ghost predicate Tidy(db: Db) {
    IdsBelow(db) && forall l :: l in db.ledgers ==> l < db.nextId && Owned(db, db.ledgers[l].company, db.ledgers[l].engagement)
  }

  lemma InvIsTidy(db: Db, seed: Seed)
    requires Inv(db, seed)
    ensures Tidy(db)
  {
    forall l | l in db.ledgers ensures l < db.nextId && Owned(db, db.ledgers[l].company, db.ledgers[l].engagement) {
      assert LedgerOk(db, l);
    }
  }

  lemma CreateStaysHome(db: Db, c: Id, g: Id, name: string, other: Id)
    requires Tidy(db) && c != other
    ensures SameView(db, Create(db, c, g, name).1, other)
  {
    GroupStepStaysHome(db, Create(db, c, g, name).1, c, other);
  }

  lemma RenameStaysHome(db: Db, c: Id, g: Id, name: string, other: Id)
    requires c != other
    ensures SameView(db, Rename(db, c, g, name).1, other)
  {
    GroupStepStaysHome(db, Rename(db, c, g, name).1, c, other);
  }

  lemma DeleteStaysHome(db: Db, c: Id, g: Id, other: Id)
    requires c != other
    ensures SameView(db, DeleteOwned(db, c, g).1, other)
  {
    GroupStepStaysHome(db, DeleteOwned(db, c, g).1, c, other);
  }

  /** Ledgers outside one owned engagement are untouched, so other companies notice nothing. */
  lemma LedgerStepStaysHome(db: Db, after: Db, c: Id, e: Id, other: Id)
    requires Tidy(db) && Owned(db, c, e) && c != other
    requires after.groups == db.groups
    requires after.engagements == db.engagements || after.engagements == db.engagements - {e}
    requires forall l :: l in db.ledgers && db.ledgers[l].engagement != e ==> l in after.ledgers && after.ledgers[l] == db.ledgers[l]
    requires forall l :: l in after.ledgers && !(l in db.ledgers && db.ledgers[l].engagement != e) ==> after.ledgers[l].company == c
    ensures SameView(db, after, other)
  {
    forall l | l in db.ledgers && db.ledgers[l].engagement == e ensures db.ledgers[l].company == c { }
  }

  lemma MapStepsStayHome(db: Db, c: Id, e: Id, l: Id, ids: set<Id>, g: Id, other: Id)
    requires Tidy(db) && c != other
    ensures SameView(db, MapOne(db, c, e, l, g).1, other)
    ensures SameView(db, MapMany(db, c, e, ids, g).1, other)
    ensures SameView(db, UnmapMany(db, c, e, ids).1, other)
  {
    if Owned(db, c, e) {
      forall k | k in db.ledgers && db.ledgers[k].engagement == e ensures db.ledgers[k].company == c { }
      LedgerStepStaysHome(db, MapOne(db, c, e, l, g).1, c, e, other);
      LedgerStepStaysHome(db, MapMany(db, c, e, ids, g).1, c, e, other);
      LedgerStepStaysHome(db, UnmapMany(db, c, e, ids).1, c, e, other);
    }
  }

  lemma ImportStaysHome(db: Db, c: Id, e: Id, source: Id, plan: seq<Assignment>, overwrite: bool, other: Id)
    requires Tidy(db) && c != other
    ensures SameView(db, Import(db, c, e, source, plan, overwrite).1, other)
  {
    if Owned(db, c, e) {
      forall k | k in db.ledgers && db.ledgers[k].engagement == e ensures db.ledgers[k].company == c { }
      LedgerStepStaysHome(db, Import(db, c, e, source, plan, overwrite).1, c, e, other);
    }
  }

  lemma RowStepsStayHome(db: Db, c: Id, e: Id, n: nat, gone: set<Id>, other: Id)
    requires Tidy(db) && c != other
    ensures SameView(db, ImportRows(db, c, e, n, gone).1, other)
    ensures SameView(db, Drop(db, c, e).1, other)
  {
    if Owned(db, c, e) {
      forall k | k in db.ledgers && db.ledgers[k].engagement == e ensures db.ledgers[k].company == c { }
      LedgerStepStaysHome(db, ImportRows(db, c, e, n, gone).1, c, e, other);
      LedgerStepStaysHome(db, Drop(db, c, e).1, c, e, other);
    }
  }

  lemma SharedStepsStayHome(db: Db, seed: Seed, r: Request, other: Id)
    requires Inv(db, seed) && Actor(r) != Some(other)
    requires (r.EnsureDefaults? && db.groups != map[]) || r.AddEngagement?
    ensures SameView(db, Step(db, seed, r).1, other)
  {
    if r.EnsureDefaults? { EnsureKeepsInv(db, seed); }
  }

  lemma GroupRequestsStayHome(db: Db, seed: Seed, r: Request, other: Id)
    requires Tidy(db) && Actor(r) != Some(other)
    requires r.CreateGroup? || r.RenameGroup? || r.DeleteGroup?
    ensures SameView(db, Step(db, seed, r).1, other)
  {
    match r
    case CreateGroup(c, p, name) => CreateStaysHome(db, c, p, name, other);
    case RenameGroup(c, g, name) => RenameStaysHome(db, c, g, name, other);
    case DeleteGroup(c, g) => DeleteStaysHome(db, c, g, other);
  }

  lemma LedgerRequestsStayHome(db: Db, seed: Seed, r: Request, other: Id)
    requires Tidy(db) && Actor(r) != Some(other)
    requires r.MapLedger? || r.BulkMap? || r.Unmap? || r.ImportMappings?
    ensures SameView(db, Step(db, seed, r).1, other)
  {
    match r
    case MapLedger(c, e, l, g) => MapStepsStayHome(db, c, e, l, {}, g, other);
    case BulkMap(c, e, ids, g) => MapStepsStayHome(db, c, e, 0, ids, g, other);
    case Unmap(c, e, ids) => MapStepsStayHome(db, c, e, 0, ids, 0, other);
    case ImportMappings(c, e, s, plan, o) => ImportStaysHome(db, c, e, s, plan, o, other);
  }

  lemma CompanyRequestsStayHome(db: Db, seed: Seed, r: Request, other: Id)
    requires Tidy(db) && Actor(r) != Some(other)
    requires !r.EnsureDefaults? && !r.AddEngagement?
    ensures SameView(db, Step(db, seed, r).1, other)
  {
    if r.CreateGroup? || r.RenameGroup? || r.DeleteGroup? {
      GroupRequestsStayHome(db, seed, r, other);
    } else if r.DropEngagement? {
      RowStepsStayHome(db, r.company, r.engagement, 0, {}, other);
    } else if r.ImportTrialBalance? {
      RowStepsStayHome(db, r.company, r.engagement, r.inserted, r.deleted, other);
    } else {
      LedgerRequestsStayHome(db, seed, r, other);
    }
  }

  /** Main theorem: no request of one company changes anything another company sees, and the
      shared seeding changes nothing once the chart exists. */
  lemma TenantsDoNotInterfere(db: Db, seed: Seed, r: Request, other: Id)
    requires Inv(db, seed) && Actor(r) != Some(other)
    requires r.EnsureDefaults? ==> db.groups != map[]
    ensures SameView(db, Step(db, seed, r).1, other)
  {
    if r.EnsureDefaults? || r.AddEngagement? {
      SharedStepsStayHome(db, seed, r, other);
    } else {
      InvIsTidy(db, seed);
      CompanyRequestsStayHome(db, seed, r, other);
    }
  }

  // ---------------------------------------------------------------- the planner fits

  /** Rows list exactly the given ledgers, once each. */
  ghost predicate ListsIds(rows: seq<P.Row>, ids: set<Id>) {
    P.DistinctIds(rows) && (forall r :: r in rows ==> r.id in ids) && (forall x :: x in ids ==> exists r :: r in rows && r.id == x)
  }

  lemma RowCount(rows: seq<P.Row>, ids: set<Id>)
    requires ListsIds(rows, ids)
    ensures |rows| == |ids|
  {
    var entries := seq(|rows|, i requires 0 <= i < |rows| => Assignment(0, rows[i].id, 0));
    TargetSetSize(entries);
    assert Targets(entries) == ids by {
      forall x | x in ids ensures x in Targets(entries) {
        var r :| r in rows && r.id == x;
        var i :| 0 <= i < |rows| && rows[i] == r;
        assert entries[i] in entries;
      }
    }
  }

  /** The import never answers 500: the plan made from the two engagements' ledgers passes the
      three checks and names only ledgers and groups it was made from. */
  lemma PlannedImportNeverFails(db: Db, company: Id, e: Id, source: Id, sources: seq<P.Row>, targets: seq<P.Row>, overwrite: bool)
    requires ListsIds(sources, MappedIds(Column(db, source)))
    requires forall r :: r in sources ==> Column(db, source)[r.id] == Some(r.group)
    requires ListsIds(targets, Column(db, e).Keys)
    ensures Import(db, company, e, source, P.Plan(sources, targets), overwrite).0 != Reject(500)
  {
    var plan := P.Plan(sources, targets);
    P.PlanIsChecked(sources, targets);
    RowCount(sources, MappedIds(Column(db, source)));
    forall a | a in plan
      ensures a.target in Column(db, e) && a.source in Column(db, source) && Column(db, source)[a.source] == Some(a.group)
    {
      var t :| t in targets && t.id == a.target;
      var s :| s in sources && s.id == a.source && s.group == a.group;
    }
  }

  // ---------------------------------------------------------------- the handlers themselves

  class ChartStore {
    var groups: Groups
    var ledgers: map<Id, Ledger>
    var engagements: map<Id, Id>
    var nextId: Id

    function State(): Db
      reads this
    {
      Db(groups, ledgers, engagements, nextId)
    }

    constructor ()
      ensures State() == INIT
    {
      groups, ledgers, engagements, nextId := map[], map[], map[], 0;
    }

    method CreateGroup(company: Id, parent: Id, name: string) returns (answer: Answer)
      modifies `groups, `nextId
      ensures (answer, State()) == Create(old(State()), company, parent, Strip(name))
    {
      if !Visible(State(), company, parent) { return Reject(404); }
      if groups[parent].level >= 2 { return Reject(400); }
      if HasMapped(State(), company, parent) { return Reject(409); }
      var stripped := Strip(name);
      if stripped == "" { return Reject(400); }
      groups := groups[nextId := Group(Some(company), Some(parent), stripped, groups[parent].level + 1)];
      nextId := nextId + 1;
      return Ok;
    }

    method RenameGroup(company: Id, g: Id, name: string) returns (answer: Answer)
      modifies `groups
      ensures (answer, State()) == Rename(old(State()), company, g, Strip(name))
    {
      answer := Editable(State(), company, g);
      if answer != Ok { return; }
      var stripped := Strip(name);
      if stripped == "" { return Reject(400); }
      groups := groups[g := groups[g].(name := stripped)];
    }

    method DeleteGroup(company: Id, g: Id) returns (answer: Answer)
      modifies `groups
      ensures (answer, State()) == DeleteOwned(old(State()), company, g)
    {
      answer := Editable(State(), company, g);
      if answer != Ok { return; }
      if HasChildren(groups, company, g) { return Reject(409); }
      if HasMapped(State(), company, g) { return Reject(409); }
      groups := groups - {g};
    }

    method MapLedger(company: Id, e: Id, l: Id, g: Id) returns (answer: Answer)
      modifies `ledgers
      ensures (answer, State()) == MapOne(old(State()), company, e, l, g)
    {
      if !Owned(State(), company, e) { return Reject(404); }
      answer := LeafCheck(State(), company, g);
      if answer != Ok { return; }
      if l !in ledgers || ledgers[l].engagement != e { return Reject(404); }
      ledgers := ledgers[l := ledgers[l].(mapped := Some(g))];
    }

    method BulkMapLedgers(company: Id, e: Id, ids: set<Id>, g: Id) returns (answer: Answer)
      modifies `ledgers
      ensures (answer, State()) == MapMany(old(State()), company, e, ids, g)
    {
      if !Owned(State(), company, e) { return Reject(404); }
      answer := LeafCheck(State(), company, g);
      if answer != Ok { return; }
      ledgers := SetMapped(ledgers, e, ids, Some(g));
    }

    method UnmapLedgers(company: Id, e: Id, ids: set<Id>) returns (answer: Answer)
      modifies `ledgers
      ensures (answer, State()) == UnmapMany(old(State()), company, e, ids)
    {
      if !Owned(State(), company, e) { return Reject(404); }
      ledgers := SetMapped(ledgers, e, ids, None);
      return Ok;
    }

    method ImportMappings(company: Id, e: Id, source: Id, plan: seq<Assignment>, overwrite: bool)
      returns (answer: Answer, updated: nat, alreadyCorrect: nat, preserved: nat)
      modifies `ledgers
      ensures (answer, State()) == Import(old(State()), company, e, source, plan, overwrite)
      ensures answer == Ok ==>
                var m := Column(old(State()), e);
                && updated == |Changed(m, plan, overwrite)| && alreadyCorrect == |Right(m, plan, overwrite)|
                && preserved == |Kept(m, plan, overwrite)| && updated + alreadyCorrect + preserved == |plan|
      ensures answer != Ok ==> updated == alreadyCorrect == preserved == 0
    {
      updated, alreadyCorrect, preserved := 0, 0, 0;
      if !Owned(State(), company, e) { answer := Reject(404); return; }
      if source == e { answer := Reject(400); return; }
      if !Owned(State(), company, source) { answer := Reject(404); return; }
      var targets, from := Column(State(), e), Column(State(), source);
      if targets == map[] || MappedIds(from) == {} { answer := Reject(409); return; }
      if !PlanFits(State(), e, source, plan) { answer := Reject(500); return; }
      if !Checked(plan, |MappedIds(from)|) { answer := Reject(500); return; }
      var mapped;
      mapped, updated, alreadyCorrect, preserved := ApplyAssignments(targets, plan, overwrite);
      CountsAddUp(targets, plan, overwrite);
      ChecksMeanOneToOne(plan, |MappedIds(from)|);
      CountsAreCases(targets, plan, overwrite);
      ledgers := WithColumn(State(), mapped);
      answer := Ok;
    }
  }
}
