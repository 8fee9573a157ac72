/** What each request of the audit protocol answers and changes, said of the tables themselves. */
module AuditRequests {
  import opened Prelude
  import opened AuditProtocol
  import W = Workspace

  /** The payload grants the area: everything without a payload, else what it marks true. */
  predicate Names(perms: Option<map<string, bool>>, area: string) {
    area in AREAS && (perms.None? || (area in perms.value && perms.value[area]))
  }

  predicate Understood(perms: Option<map<string, bool>>) {
    perms.Some? ==> forall area :: area in perms.value ==> area in AREAS
  }

  predicate Stands(db: Db, a: Id, e: Id) {
    (a, e) in db.grants && db.grants[(a, e)].status != Revoked
  }

  /** The engagement moves to the status, the others stay. */
  ghost predicate Moves(before: Db, after: Db, e: Id, s: EngagementStatus) {
    && e in before.engagements && e in after.engagements && after.engagements[e] == Engagement(before.engagements[e].company, s)
    && SameBut(before.engagements, after.engagements, e)
  }

  ghost predicate Areas(g: set<string>, perms: Option<map<string, bool>>) {
    forall area :: area in g <==> Names(perms, area)
  }

  /** An invite is answered by the first of its four guards that fails. Accepted, it leaves a
      registered address an open grant and an unregistered one a pending invite with that token,
      seven days ahead, for exactly the areas named; a draft engagement is promoted; the rest stays. */
  lemma InviteDoes(db: Db, c: Id, e: Id, m: Email, p: Option<map<string, bool>>, t: string)
    ensures var (answer, after) := Step(db, Invite(c, e, m, p, t));
            && (answer == Ok <==>
                  && e in db.engagements && db.engagements[e].company == c && db.engagements[e].status != Closed && Understood(p)
                  && !(m in db.auditors && Stands(db, db.auditors[m], e)))
            && (answer == Reject(404) <==> !(e in db.engagements && db.engagements[e].company == c))
            && (answer == Reject(409) <==> e in db.engagements && db.engagements[e].company == c && db.engagements[e].status == Closed)
            && (answer != Ok ==> after == db && answer in {Reject(404), Reject(409), Reject(400)})
            && (answer == Ok ==>
                  && Moves(db, after, e, if db.engagements[e].status == Draft then Invited else db.engagements[e].status)
                  && (after.auditors, after.work, after.now, after.nextId) == (db.auditors, db.work, db.now, db.nextId))
            && (answer == Ok && m in db.auditors ==>
                  var k := (db.auditors[m], e);
                  && k in after.grants && after.grants[k].status == Asked && Areas(after.grants[k].areas, p)
                  && SameBut(db.grants, after.grants, k) && after.pending == db.pending)
            && (answer == Ok && m !in db.auditors ==>
                  && (e, m) in after.pending && after.pending[(e, m)].token == t
                  && after.pending[(e, m)].expires == db.now + 7 * 24 * 60 * 60 && Areas(after.pending[(e, m)].areas, p)
                  && SameBut(db.pending, after.pending, (e, m)) && after.grants == db.grants)
  {
    UnderstoodIsNormal(p);
  }

  lemma UnderstoodIsNormal(p: Option<map<string, bool>>)
    ensures NormalizeAreas(p).Some? <==> Understood(p)
    ensures NormalizeAreas(p).Some? ==> Areas(NormalizeAreas(p).value, p)
  {
    if p.Some? && !Understood(p) {
      var a :| a in p.value && a !in AREAS;
      assert a in p.value.Keys;
    }
  }

  /** New areas replace the old ones of a standing grant, and nothing else. */
  lemma UpdateAccessDoes(db: Db, c: Id, e: Id, a: Id, p: Option<map<string, bool>>)
    ensures var (answer, after) := Step(db, UpdateAccess(c, e, a, p));
            && (answer == Ok <==> e in db.engagements && db.engagements[e].company == c && Understood(p) && Stands(db, a, e))
            && (answer == Reject(400) <==> e in db.engagements && db.engagements[e].company == c && !Understood(p))
            && (answer != Ok ==> after == db && answer in {Reject(404), Reject(400)})
            && (answer == Ok ==>
                  && (a, e) in after.grants && after.grants[(a, e)].status == db.grants[(a, e)].status
                  && Areas(after.grants[(a, e)].areas, p) && SameBut(db.grants, after.grants, (a, e))
                  && after == db.(grants := after.grants))
  {
    UnderstoodIsNormal(p);
  }

  /** A standing grant is revoked, and nothing else changes. */
  lemma RemoveDoes(db: Db, c: Id, e: Id, a: Id)
    ensures var (answer, after) := Step(db, Remove(c, e, a));
            && (answer == Ok <==> e in db.engagements && db.engagements[e].company == c && Stands(db, a, e))
            && (answer != Ok ==> after == db && answer == Reject(404))
            && (answer == Ok ==>
                  && (a, e) in after.grants && after.grants[(a, e)] == Grant(Revoked, db.grants[(a, e)].areas)
                  && SameBut(db.grants, after.grants, (a, e)) && after == db.(grants := after.grants))
  {
  }

  /** A pending invite goes, and with it its token: nobody registers on it any more. */
  lemma CancelDoes(db: Db, c: Id, e: Id, m: Email)
    ensures var (answer, after) := Step(db, Cancel(c, e, m));
            && (answer == Ok <==> e in db.engagements && db.engagements[e].company == c && (e, m) in db.pending)
            && (answer != Ok ==> after == db && answer == Reject(404))
            && (answer == Ok ==>
                  && (e, m) !in after.pending && SameBut(db.pending, after.pending, (e, m))
                  && after == db.(pending := after.pending))
  {
  }

  /** Closing revokes every grant of the engagement and drops its invites, and no others. */
  lemma CloseDoes(db: Db, c: Id, e: Id)
    ensures var (answer, after) := Step(db, Close(c, e));
            && (answer == Ok <==> e in db.engagements && db.engagements[e].company == c)
            && (answer != Ok ==> after == db && answer == Reject(404))
            && (answer == Ok ==>
                  && Moves(db, after, e, Closed)
                  && after.grants.Keys == db.grants.Keys
                  && (forall k :: k in db.grants ==>
                        after.grants[k] == if k.1 == e then Grant(Revoked, db.grants[k].areas) else db.grants[k])
                  && (forall k :: k in after.pending <==> k in db.pending && k.0 != e)
                  && (forall k :: k in after.pending ==> after.pending[k] == db.pending[k])
                  && (after.auditors, after.work, after.now, after.nextId) == (db.auditors, db.work, db.now, db.nextId))
  {
  }

  /** An engagement that is not active goes with its grants, invites and work. */
  lemma DeleteDoes(db: Db, c: Id, e: Id)
    ensures var (answer, after) := Step(db, Delete(c, e));
            && (answer == Ok <==> e in db.engagements && db.engagements[e].company == c && db.engagements[e].status != Active)
            && (answer == Reject(409) <==> e in db.engagements && db.engagements[e].company == c && db.engagements[e].status == Active)
            && (answer != Ok ==> after == db && answer in {Reject(404), Reject(409)})
            && (answer == Ok ==>
                  && e !in after.engagements && e !in after.work
                  && SameBut(db.engagements, after.engagements, e) && SameBut(db.work, after.work, e)
                  && (forall k :: k in after.grants <==> k in db.grants && k.1 != e)
                  && (forall k :: k in after.grants ==> after.grants[k] == db.grants[k])
                  && (forall k :: k in after.pending <==> k in db.pending && k.0 != e)
                  && (forall k :: k in after.pending ==> after.pending[k] == db.pending[k])
                  && (after.auditors, after.now, after.nextId) == (db.auditors, db.now, db.nextId))
  {
  }

  /** An open grant becomes accepted, an invited engagement active. */
  lemma AcceptDoes(db: Db, a: Id, e: Id)
    requires Inv(db)
    ensures var (answer, after) := Step(db, Accept(a, e));
            && (answer == Ok <==> (a, e) in db.grants && db.grants[(a, e)].status == Asked)
            && (answer != Ok ==> after == db && answer == Reject(404))
            && (answer == Ok ==>
                  && Moves(db, after, e, Active)
                  && (a, e) in after.grants && after.grants[(a, e)] == Grant(Accepted, db.grants[(a, e)].areas)
                  && SameBut(db.grants, after.grants, (a, e))
                  && after == db.(engagements := after.engagements, grants := after.grants))
  {
  }

  /** An unexpired invite to the address carries the token. */
  ghost predicate Opens(db: Db, m: Email, t: string) {
    exists e :: (e, m) in db.pending && db.pending[(e, m)].expires > db.now && db.pending[(e, m)].token == t
  }

  /** A new auditor under a new id, with an open grant for each unexpired invite to the address, which
      is used up; expired ones stay. */
  lemma RegisterDoes(db: Db, m: Email, t: string)
    requires Inv(db)
    ensures var (answer, after) := Step(db, Register(m, t));
            && (answer == Ok <==> m !in db.auditors && Opens(db, m, t))
            && (answer == Reject(409) <==> m in db.auditors)
            && (answer != Ok ==> after == db && answer in {Reject(409), Reject(400)})
            && (answer == Ok ==>
                  && m in after.auditors && after.auditors[m] == db.nextId && after.nextId == db.nextId + 1
                  && SameBut(db.auditors, after.auditors, m)
                  && (forall k :: k in after.pending <==> k in db.pending && !(k.1 == m && db.pending[k].expires > db.now))
                  && (forall k :: k in after.pending ==> after.pending[k] == db.pending[k])
                  && (forall k :: k in after.grants <==>
                        k in db.grants || (k.0 == db.nextId && (k.1, m) in db.pending && db.pending[(k.1, m)].expires > db.now))
                  && (forall k :: k in db.grants ==> after.grants[k] == db.grants[k])
                  && (forall k :: k in after.grants && k !in db.grants ==> after.grants[k] == Grant(Asked, db.pending[(k.1, m)].areas))
                  && (after.engagements, after.work, after.now) == (db.engagements, db.work, db.now))
  {
    InvRegister(db, m, t);
    OpensIsLive(db, m, t);
    forall k: (Id, Id) ensures k in Converted(db.nextId, m, Live(db, m), db.pending) <==> k.0 == db.nextId && (k.1, m) in Live(db, m) {
      ConvertedAt(db.nextId, m, Live(db, m), db.pending, k.0, k.1);
    }
    assert forall k :: k in db.grants ==> k.0 < db.nextId;
  }

  lemma OpensIsLive(db: Db, m: Email, t: string)
    ensures Opens(db, m, t) <==> exists k :: k in Live(db, m) && db.pending[k].token == t
  {
    if e :| (e, m) in db.pending && db.pending[(e, m)].expires > db.now && db.pending[(e, m)].token == t {
      assert (e, m) in Live(db, m);
    }
    if k :| k in Live(db, m) && db.pending[k].token == t {
      assert k == (k.0, m);
    }
  }

  /** A new draft engagement of the company, with no work on it. */
  lemma CreateDoes(db: Db, c: Id)
    ensures var (answer, after) := Step(db, CreateEngagement(c));
            && answer == Ok && after.nextId == db.nextId + 1
            && db.nextId in after.engagements && after.engagements[db.nextId] == Engagement(c, Draft)
            && db.nextId in after.work && after.work[db.nextId].entries == [] && after.work[db.nextId].requirements == map[]
            && SameBut(db.engagements, after.engagements, db.nextId) && SameBut(db.work, after.work, db.nextId)
            && (after.grants, after.pending, after.auditors, after.now) == (db.grants, db.pending, db.auditors, db.now)
  {
  }

  /** The area an auditor's request belongs to. */
  predicate BelongsTo(c: W.AuditorCommand, area: string) {
    match c
    case CreateEntry(_, _, _) => area == "entries"
    case DeleteEntry(_) => area == "entries"
    case CreateQuery(_) => area == "queries"
    case AddMessage(_) => area == "queries"
    case CloseQuery(_) => area == "queries"
    case _ => area == "requirements"
  }

  /** The auditor was let in to the active engagement, and to this area of it. */
  predicate LetIn(db: Db, a: Id, e: Id, area: string) {
    && (a, e) in db.grants && db.grants[(a, e)].status == Accepted && area in db.grants[(a, e)].areas
    && e in db.engagements && db.engagements[e].status == Active
  }

  /** An auditor's request goes through exactly when he was let in to its area and the work allows it;
      it touches the work of that engagement alone. */
  lemma AuditorWorkDoes(db: Db, a: Id, e: Id, c: W.AuditorCommand, area: string)
    requires BelongsTo(c, area)
    ensures var (answer, after) := Step(db, AuditorWork(a, e, c));
            && (answer == Ok <==> LetIn(db, a, e, area) && e in db.work && W.AuditorAct(db.work[e], a, c, db.nextId).0 == Ok)
            && (!LetIn(db, a, e, area) ==> answer == Reject(if c.DeleteEntry? then 404 else 403))
            && (answer != Ok ==> after == db)
            && (answer == Ok ==>
                  && e in after.work && after.work[e] == W.AuditorAct(db.work[e], a, c, db.nextId).1
                  && SameBut(db.work, after.work, e) && after == db.(work := after.work, nextId := db.nextId + 1))
  {
  }

  /** A company's request goes through exactly on an engagement of its own when the work allows it;
      once that is closed nothing is answered to a requirement any more. */
  lemma CompanyWorkDoes(db: Db, c: Id, e: Id, q: W.CompanyCommand)
    ensures var (answer, after) := Step(db, CompanyWork(c, e, q));
            && (answer == Ok <==>
                  && e in db.engagements && db.engagements[e].company == c && e in db.work
                  && W.CompanyAct(db.work[e], q, db.engagements[e].status == Closed).0 == Ok)
            && (e in db.engagements && db.engagements[e].status == Closed && q.Respond? ==> answer != Ok)
            && (answer != Ok ==> after == db)
            && (answer == Ok ==>
                  && e in after.work && after.work[e] == W.CompanyAct(db.work[e], q, db.engagements[e].status == Closed).1
                  && SameBut(db.work, after.work, e) && after == db.(work := after.work))
  {
  }

  /** Time passes, and that is all. */
  lemma WaitDoes(db: Db, t: nat)
    ensures var (answer, after) := Step(db, Wait(t)); answer == Ok && after.now == db.now + t && after == db.(now := after.now)
  {
  }

  // ---------------------------------------------------------------- from the invite to the work

  /** Neither refreshes nor withdraws the invite of `m` to `e`, nor uses it up. */
  predicate Spares(r: Request, e: Id, m: Email) {
    match r
    case Invite(_, e', m', _, _) => e' != e || m' != m
    case Cancel(_, e', m') => e' != e || m' != m
    case Close(_, e') => e' != e
    case Delete(_, e') => e' != e
    case Register(m', _) => m' != m
    case _ => true
  }

  predicate Invites(db: Db, e: Id, m: Email, p: Pending) {
    (e, m) in db.pending && db.pending[(e, m)] == p && m !in db.auditors
  }

  lemma {:induction false} InviteStands(db: Db, mid: seq<Request>, e: Id, m: Email, p: Pending)
    requires Inv(db) && Invites(db, e, m, p) && forall r :: r in mid ==> Spares(r, e, m)
    ensures Inv(RunFrom(db, mid)) && Invites(RunFrom(db, mid), e, m, p)
    decreases |mid|
  {
    if mid != [] {
      var n := |mid| - 1;
      assert forall r :: r in mid[..n] ==> r in mid;
      InviteStands(db, mid[..n], e, m, p);
      assert mid[n] in mid;
      StepKeepsInv(RunFrom(db, mid[..n]), mid[n]);
      SparedStep(RunFrom(db, mid[..n]), mid[n], e, m, p);
    }
  }

  lemma SparedStep(db: Db, r: Request, e: Id, m: Email, p: Pending)
    requires Invites(db, e, m, p) && Spares(r, e, m)
    ensures Invites(Step(db, r).1, e, m, p)
  {
  }

  /** Main theorem: an accepted invite of an unregistered address opens the engagement. Whatever else
      happens meanwhile, the invite itself not being touched, whoever registers the address with its
      token within seven days and accepts gets in, and may use exactly the areas the invite named. */
  lemma InvitedGetsIn(db: Db, c: Id, e: Id, m: Email, p: Option<map<string, bool>>, t: string, mid: seq<Request>)
    requires Inv(db) && m !in db.auditors && Step(db, Invite(c, e, m, p, t)).0 == Ok
    requires forall r :: r in mid ==> Spares(r, e, m)
    requires RunFrom(Step(db, Invite(c, e, m, p, t)).1, mid).now < db.now + 7 * 24 * 60 * 60
    ensures var before := RunFrom(Step(db, Invite(c, e, m, p, t)).1, mid);
            var (first, registered) := Step(before, Register(m, t));
            var (second, accepted) := Step(registered, Accept(before.nextId, e));
            && first == Ok && second == Ok && m in accepted.auditors && accepted.auditors[m] == before.nextId
            && forall area :: MayUse(accepted, before.nextId, e, area) <==> Names(p, area)
  {
    hide Step, RunFrom, MayUse, Inv;
    var invited := Step(db, Invite(c, e, m, p, t)).1;
    InviteDoes(db, c, e, m, p, t);
    StepKeepsInv(db, Invite(c, e, m, p, t));
    assert invited.auditors == db.auditors;
    InviteStands(invited, mid, e, m, invited.pending[(e, m)]);
    TokenGetsIn(RunFrom(invited, mid), e, m, t);
  }

  lemma TokenGetsIn(db: Db, e: Id, m: Email, t: string)
    requires Inv(db) && m !in db.auditors && (e, m) in db.pending
    requires db.pending[(e, m)].token == t && db.pending[(e, m)].expires > db.now
    ensures var (first, registered) := Step(db, Register(m, t));
            var (second, accepted) := Step(registered, Accept(db.nextId, e));
            && first == Ok && second == Ok && m in accepted.auditors && accepted.auditors[m] == db.nextId
            && forall area :: MayUse(accepted, db.nextId, e, area) <==> area in db.pending[(e, m)].areas
  {
    hide Inv, Converted;
    assert (e, m) in Live(db, m);
    InviteOpensAccess(db, m, t, e);
  }
}
