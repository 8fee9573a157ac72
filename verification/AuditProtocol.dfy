/** The auditor engagement protocol: company administrators, unregistered addresses,
    registered auditors and a clock acting on engagements, grants and pending invites
    (app/routers/auditease.py, app/routers/auditor_engagements.py, app/routers/auth.py).
    Each request is one transaction. */
module AuditProtocol {
  import opened Prelude
  import W = Workspace

  type Id = W.Id

  datatype EngagementStatus = Draft | Invited | Active | Closed

  /** `Asked` is the grant status the source spells `invited`. */
  datatype GrantStatus = Asked | Accepted | Revoked

  datatype Engagement = Engagement(company: Id, status: EngagementStatus)
  datatype Grant = Grant(status: GrantStatus, areas: set<string>)
  datatype Pending = Pending(token: string, expires: int, areas: set<string>)

  /** An address after `strip().lower()`; every stored address is one. */
  datatype Email = Email(text: string)

  function Canon(raw: string): Email {
    Email(Clean(raw))
  }

  /** Tables, keyed by their unique constraints: grants by (auditor, engagement), pending
      invites by (engagement, e-mail), auditors by e-mail. Ids are never reused. */
  datatype Db = Db(
    engagements: map<Id, Engagement>,
    grants: map<(Id, Id), Grant>,
    pending: map<(Id, Email), Pending>,
    auditors: map<Email, Id>,
    work: map<Id, W.Workspace>,
    now: int,
    nextId: Id)

  datatype Request =
    | CreateEngagement(company: Id)
    | Invite(company: Id, engagement: Id, email: Email, perms: Option<map<string, bool>>, token: string)
    | UpdateAccess(company: Id, engagement: Id, auditor: Id, perms: Option<map<string, bool>>)
    | Remove(company: Id, engagement: Id, auditor: Id)
    | Cancel(company: Id, engagement: Id, email: Email)
    | Close(company: Id, engagement: Id)
    | Delete(company: Id, engagement: Id)
    | Register(email: Email, token: string)
    | Accept(auditor: Id, engagement: Id)
    | AuditorWork(auditor: Id, engagement: Id, act: W.AuditorCommand)
    | CompanyWork(company: Id, engagement: Id, request: W.CompanyCommand)
    | Wait(ticks: nat)

  const AREAS := {"trial_balance", "entries", "requirements", "queries", "documents"}
  const INVITE_TTL := 7 * 24 * 3600

  /** No payload means every area; a payload denies what it omits; unknown areas are an error. */
  function NormalizeAreas(perms: Option<map<string, bool>>): Option<set<string>> {
    match perms
    case None => Some(AREAS)
    case Some(p) => if p.Keys <= AREAS then Some(set a | a in p && p[a]) else None
  }

  predicate Owned(db: Db, company: Id, e: Id) {
    e in db.engagements && db.engagements[e].company == company
  }

  function SetStatus(db: Db, e: Id, s: EngagementStatus): map<Id, Engagement>
    requires e in db.engagements
  {
    db.engagements[e := db.engagements[e].(status := s)]
  }

  /** The unexpired invites addressed to an e-mail. */
  function Live(db: Db, email: Email): set<(Id, Email)> {
    set k | k in db.pending && k.1 == email && db.pending[k].expires > db.now
  }

  /** The grants that consuming the invites `ks` to one address gives to its new auditor. */
  function Converted(a: Id, email: Email, ks: set<(Id, Email)>, pending: map<(Id, Email), Pending>): map<(Id, Id), Grant>
    requires forall k :: k in ks ==> k in pending && k.1 == email
  {
    map g | g in (set k | k in ks :: (a, k.0)) :: Grant(Asked, pending[(g.1, email)].areas)
  }

  /** Active grants the auditor holds on the engagement, whatever the area. */
  predicate HasAccess(db: Db, a: Id, e: Id) {
    && (a, e) in db.grants && db.grants[(a, e)].status == Accepted
    && e in db.engagements && db.engagements[e].status == Active
  }

  /** `check_auditor_access` with an area. */
  predicate MayUse(db: Db, a: Id, e: Id, area: string) {
    HasAccess(db, a, e) && area in db.grants[(a, e)].areas
  }

  // ---------------------------------------------------------------- handlers, as functions

  function InviteAuditor(db: Db, company: Id, e: Id, email: Email, perms: Option<map<string, bool>>, token: string)
    : (Answer, Db)
  {
    if !Owned(db, company, e) then (Reject(404), db)
    else if db.engagements[e].status == Closed then (Reject(409), db)
    else if NormalizeAreas(perms).None? then (Reject(400), db)
    else
      var areas := NormalizeAreas(perms).value;
      var status := if db.engagements[e].status == Draft then Invited else db.engagements[e].status;
      if email in db.auditors then
        var k := (db.auditors[email], e);
        if k in db.grants && db.grants[k].status != Revoked then (Reject(400), db)
        else (Ok, db.(grants := db.grants[k := Grant(Asked, areas)], engagements := SetStatus(db, e, status)))
      else
        (Ok, db.(pending := db.pending[(e, email) := Pending(token, db.now + INVITE_TTL, areas)],
                 engagements := SetStatus(db, e, status)))
  }

  function UpdateAuditorAccess(db: Db, company: Id, e: Id, a: Id, perms: Option<map<string, bool>>): (Answer, Db) {
    if !Owned(db, company, e) then (Reject(404), db)
    else if NormalizeAreas(perms).None? then (Reject(400), db)
    else if (a, e) !in db.grants || db.grants[(a, e)].status == Revoked then (Reject(404), db)
    else (Ok, db.(grants := db.grants[(a, e) := db.grants[(a, e)].(areas := NormalizeAreas(perms).value)]))
  }

  function RemoveAuditor(db: Db, company: Id, e: Id, a: Id): (Answer, Db) {
    if !Owned(db, company, e) then (Reject(404), db)
    else if (a, e) !in db.grants || db.grants[(a, e)].status == Revoked then (Reject(404), db)
    else (Ok, db.(grants := db.grants[(a, e) := db.grants[(a, e)].(status := Revoked)]))
  }

  function CancelInvite(db: Db, company: Id, e: Id, email: Email): (Answer, Db) {
    if !Owned(db, company, e) || (e, email) !in db.pending then (Reject(404), db)
    else (Ok, db.(pending := db.pending - {(e, email)}))
  }

  function CloseEngagement(db: Db, company: Id, e: Id): (Answer, Db) {
    if !Owned(db, company, e) then (Reject(404), db)
    else (Ok, db.(engagements := SetStatus(db, e, Closed),
                  grants := map k | k in db.grants :: if k.1 == e then db.grants[k].(status := Revoked) else db.grants[k],
                  pending := map k | k in db.pending && k.0 != e :: db.pending[k]))
  }

  function DeleteEngagement(db: Db, company: Id, e: Id): (Answer, Db) {
    if !Owned(db, company, e) then (Reject(404), db)
    else if db.engagements[e].status == Active then (Reject(409), db)
    else (Ok, db.(engagements := db.engagements - {e},
                  grants := map k | k in db.grants && k.1 != e :: db.grants[k],
                  pending := map k | k in db.pending && k.0 != e :: db.pending[k],
                  work := db.work - {e}))
  }

  function RegisterAuditor(db: Db, email: Email, token: string): (Answer, Db) {
    var a := db.nextId;
    if email in db.auditors then (Reject(409), db)
    else if forall k :: k in Live(db, email) ==> db.pending[k].token != token then (Reject(400), db)
    else if exists k :: k in Live(db, email) && (a, k.0) in db.grants then (Reject(500), db)
    else
      (Ok, db.(auditors := db.auditors[email := a],
               grants := db.grants + Converted(a, email, Live(db, email), db.pending),
               pending := db.pending - Live(db, email),
               nextId := a + 1))
  }

  function AcceptEngagement(db: Db, a: Id, e: Id): (Answer, Db) {
    if (a, e) !in db.grants || db.grants[(a, e)].status != Asked then (Reject(404), db)
    else if e !in db.engagements then (Reject(500), db)
    else
      (Ok, db.(grants := db.grants[(a, e) := db.grants[(a, e)].(status := Accepted)],
               engagements := SetStatus(db, e, if db.engagements[e].status == Invited then Active else db.engagements[e].status)))
  }

  function DoAuditorWork(db: Db, a: Id, e: Id, c: W.AuditorCommand): (Answer, Db) {
    if !MayUse(db, a, e, W.Area(c)) then (Reject(if c.DeleteEntry? then 404 else 403), db)
    else if e !in db.work then (Reject(404), db)
    else
      var (answer, w) := W.AuditorAct(db.work[e], a, c, db.nextId);
      if answer == Ok then (Ok, db.(work := db.work[e := w], nextId := db.nextId + 1)) else (answer, db)
  }

  function DoCompanyWork(db: Db, company: Id, e: Id, c: W.CompanyCommand): (Answer, Db) {
    if !Owned(db, company, e) || e !in db.work then (Reject(404), db)
    else
      var (answer, w) := W.CompanyAct(db.work[e], c, db.engagements[e].status == Closed);
      if answer == Ok then (Ok, db.(work := db.work[e := w])) else (answer, db)
  }

  function Step(db: Db, r: Request): (Answer, Db) {
    match r
    case CreateEngagement(c) =>
      (Ok, db.(engagements := db.engagements[db.nextId := Engagement(c, Draft)],
               work := db.work[db.nextId := W.EMPTY], nextId := db.nextId + 1))
    case Invite(c, e, m, p, t) => InviteAuditor(db, c, e, m, p, t)
    case UpdateAccess(c, e, a, p) => UpdateAuditorAccess(db, c, e, a, p)
    case Remove(c, e, a) => RemoveAuditor(db, c, e, a)
    case Cancel(c, e, m) => CancelInvite(db, c, e, m)
    case Close(c, e) => CloseEngagement(db, c, e)
    case Delete(c, e) => DeleteEngagement(db, c, e)
    case Register(m, t) => RegisterAuditor(db, m, t)
    case Accept(a, e) => AcceptEngagement(db, a, e)
    case AuditorWork(a, e, c) => DoAuditorWork(db, a, e, c)
    case CompanyWork(c, e, q) => DoCompanyWork(db, c, e, q)
    case Wait(t) => (Ok, db.(now := db.now + t))
  }

  // ---------------------------------------------------------------- the invariant

  /** Ids in use were handed out, and the work tables follow the engagements. */
  ghost predicate IdsInv(db: Db) {
    && db.work.Keys == db.engagements.Keys
    && (forall e :: e in db.engagements ==> e < db.nextId)
    && (forall m :: m in db.auditors ==> db.auditors[m] < db.nextId)
    && (forall k :: k in db.grants ==> k.0 < db.nextId)
  }

  /** Grants against engagement status; closed leaves only revoked grants. */
  ghost predicate GrantsInv(db: Db) {
    forall k :: k in db.grants ==>
      && k.1 in db.engagements
      && (db.grants[k].status == Accepted ==> db.engagements[k.1].status == Active)
      && (db.grants[k].status == Asked ==> db.engagements[k.1].status in {Invited, Active})
  }

  /** Pending invites against engagement status and registration. */
  ghost predicate PendingInv(db: Db) {
    forall k :: k in db.pending ==>
      && k.0 in db.engagements && db.engagements[k.0].status in {Invited, Active}
      && (k.1 in db.auditors ==> db.pending[k].expires <= db.now)
  }

  ghost predicate Inv(db: Db) {
    IdsInv(db) && GrantsInv(db) && PendingInv(db)
  }

  const INIT := Db(map[], map[], map[], map[], map[], 0, 0)

  lemma Promoted(db: Db, e: Id, s: EngagementStatus)
    requires Inv(db) && e in db.engagements
    requires s == db.engagements[e].status || (s == Invited && db.engagements[e].status == Draft) ||
             (s == Active && db.engagements[e].status == Invited)
    ensures Inv(db.(engagements := SetStatus(db, e, s)))
  {
  }

  lemma GrantPut(db: Db, k: (Id, Id), g: Grant)
    requires Inv(db) && k.0 < db.nextId && k.1 in db.engagements
    requires g.status == Accepted ==> db.engagements[k.1].status == Active
    requires g.status == Asked ==> db.engagements[k.1].status in {Invited, Active}
    ensures Inv(db.(grants := db.grants[k := g]))
  {
  }

  lemma PendingPut(db: Db, k: (Id, Email), p: Pending)
    requires Inv(db) && k.0 in db.engagements && db.engagements[k.0].status in {Invited, Active} && k.1 !in db.auditors
    ensures Inv(db.(pending := db.pending[k := p]))
  {
  }

  lemma InvInvite(db: Db, c: Id, e: Id, m: Email, p: Option<map<string, bool>>, t: string)
    requires Inv(db)
    ensures Inv(InviteAuditor(db, c, e, m, p, t).1)
  {
    if InviteAuditor(db, c, e, m, p, t).0 == Ok {
      var s := if db.engagements[e].status == Draft then Invited else db.engagements[e].status;
      Promoted(db, e, s);
      var raised := db.(engagements := SetStatus(db, e, s));
      if m in db.auditors {
        GrantPut(raised, (db.auditors[m], e), Grant(Asked, NormalizeAreas(p).value));
      } else {
        PendingPut(raised, (e, m), Pending(t, db.now + INVITE_TTL, NormalizeAreas(p).value));
      }
    }
  }

  lemma InvAccept(db: Db, a: Id, e: Id)
    requires Inv(db)
    ensures Inv(AcceptEngagement(db, a, e).1) && AcceptEngagement(db, a, e).0 != Reject(500)
  {
    if AcceptEngagement(db, a, e).0 == Ok {
      var s := if db.engagements[e].status == Invited then Active else db.engagements[e].status;
      Promoted(db, e, s);
      GrantPut(db.(engagements := SetStatus(db, e, s)), (a, e), db.grants[(a, e)].(status := Accepted));
    }
  }

  lemma InvUpdateRemove(db: Db, c: Id, e: Id, a: Id, p: Option<map<string, bool>>)
    requires Inv(db)
    ensures Inv(UpdateAuditorAccess(db, c, e, a, p).1) && Inv(RemoveAuditor(db, c, e, a).1)
  {
    if Owned(db, c, e) && (a, e) in db.grants {
      GrantPut(db, (a, e), db.grants[(a, e)].(status := Revoked));
      if NormalizeAreas(p).Some? { GrantPut(db, (a, e), db.grants[(a, e)].(areas := NormalizeAreas(p).value)); }
    }
  }

  lemma InvCancel(db: Db, c: Id, e: Id, m: Email)
    requires Inv(db)
    ensures Inv(CancelInvite(db, c, e, m).1)
  {
  }

  lemma InvClose(db: Db, c: Id, e: Id)
    requires Inv(db)
    ensures Inv(CloseEngagement(db, c, e).1)
  {
  }

  lemma InvDelete(db: Db, c: Id, e: Id)
    requires Inv(db)
    ensures Inv(DeleteEngagement(db, c, e).1)
  {
  }

  lemma RegisterGrantsAnew(db: Db, m: Email)
    requires Inv(db)
    ensures forall k :: k in Live(db, m) ==> (db.nextId, k.0) !in db.grants
    ensures forall g :: g in Converted(db.nextId, m, Live(db, m), db.pending) ==>
              g.0 == db.nextId && (g.1, m) in Live(db, m) &&
              g.1 in db.engagements && db.engagements[g.1].status in {Invited, Active}
  {
  }

  lemma InvRegister(db: Db, m: Email, t: string)
    requires Inv(db)
    ensures Inv(RegisterAuditor(db, m, t).1) && RegisterAuditor(db, m, t).0 != Reject(500)
  {
    RegisterGrantsAnew(db, m);
  }

  lemma InvWork(db: Db, a: Id, e: Id, c: W.AuditorCommand)
    requires Inv(db)
    ensures Inv(DoAuditorWork(db, a, e, c).1) && DoAuditorWork(db, a, e, c).0 != Reject(500)
  {
  }

  lemma InvReview(db: Db, c: Id, e: Id, q: W.CompanyCommand)
    requires Inv(db)
    ensures Inv(DoCompanyWork(db, c, e, q).1) && DoCompanyWork(db, c, e, q).0 != Reject(500)
  {
  }

  lemma AdminStepKeepsInv(db: Db, r: Request)
    requires Inv(db) && (r.Invite? || r.UpdateAccess? || r.Remove? || r.Cancel?)
    ensures Inv(Step(db, r).1) && Step(db, r).0 != Reject(500)
  {
    match r
    case Invite(c, e, m, p, t) => InvInvite(db, c, e, m, p, t);
    case UpdateAccess(c, e, a, p) => InvUpdateRemove(db, c, e, a, p);
    case Remove(c, e, a) => InvUpdateRemove(db, c, e, a, None);
    case Cancel(c, e, m) => InvCancel(db, c, e, m);
  }

  lemma EndingStepKeepsInv(db: Db, r: Request)
    requires Inv(db) && (r.Close? || r.Delete? || r.Wait?)
    ensures Inv(Step(db, r).1) && Step(db, r).0 != Reject(500)
  {
    match r
    case Close(c, e) => InvClose(db, c, e);
    case Delete(c, e) => InvDelete(db, c, e);
    case Wait(_) =>
  }

  lemma AuditorStepKeepsInv(db: Db, r: Request)
    requires Inv(db) && (r.Register? || r.Accept? || r.AuditorWork?)
    ensures Inv(Step(db, r).1) && Step(db, r).0 != Reject(500)
  {
    match r
    case Register(m, t) => InvRegister(db, m, t);
    case Accept(a, e) => InvAccept(db, a, e);
    case AuditorWork(a, e, c) => InvWork(db, a, e, c);
  }

  lemma CompanyStepKeepsInv(db: Db, r: Request)
    requires Inv(db) && (r.CreateEngagement? || r.CompanyWork?)
    ensures Inv(Step(db, r).1) && Step(db, r).0 != Reject(500)
  {
    if r.CompanyWork? { InvReview(db, r.company, r.engagement, r.request); }
  }

  /** Every request keeps the invariant and none ends in a server error: the unique
      constraint on grants is never violated, and no invited grant outlives its engagement. */
  lemma StepKeepsInv(db: Db, r: Request)
    requires Inv(db)
    ensures Inv(Step(db, r).1) && Step(db, r).0 != Reject(500)
  {
    if r.Invite? || r.UpdateAccess? || r.Remove? || r.Cancel? {
      AdminStepKeepsInv(db, r);
    } else if r.Close? || r.Delete? || r.Wait? {
      EndingStepKeepsInv(db, r);
    } else if r.Register? || r.Accept? || r.AuditorWork? {
      AuditorStepKeepsInv(db, r);
    } else {
      CompanyStepKeepsInv(db, r);
    }
  }

  function RunFrom(db: Db, reqs: seq<Request>): Db {
    if reqs == [] then db else Step(RunFrom(db, reqs[..|reqs| - 1]), reqs[|reqs| - 1]).1
  }

  /** Main theorem: in every reachable state, accepted grants belong to active engagements;
      asked grants and pending invites to invited or active ones; a closed engagement has only
      revoked grants and no pending invite; a registered address has no unexpired invite. */
  lemma {:induction false} ReachableStatesConsistent(reqs: seq<Request>)
    ensures var db := RunFrom(INIT, reqs);
            && Inv(db)
            && (forall k :: k in db.grants && db.engagements[k.1].status == Closed ==> db.grants[k].status == Revoked)
            && (forall k :: k in db.pending ==> db.engagements[k.0].status != Closed)
            && (forall m :: m in db.auditors ==> Live(db, m) == {})
    decreases |reqs|
  {
    if reqs != [] {
      ReachableStatesConsistent(reqs[..|reqs| - 1]);
      StepKeepsInv(RunFrom(INIT, reqs[..|reqs| - 1]), reqs[|reqs| - 1]);
    }
  }

  function Rank(s: EngagementStatus): nat {
    match s
    case Draft => 0
    case Invited => 1
    case Active => 2
    case Closed => 3
  }

  /** Status never moves back, and only an acceptance activates. */
  lemma StatusMovesForward(db: Db, r: Request, e: Id)
    requires Inv(db) && e in db.engagements && e in Step(db, r).1.engagements
    ensures var before, after := db.engagements[e].status, Step(db, r).1.engagements[e].status;
            && Rank(before) <= Rank(after)
            && (before != after && after == Active ==>
                  r.Accept? && r.engagement == e && HasAccess(Step(db, r).1, r.auditor, e))
            && db.engagements[e].company == Step(db, r).1.engagements[e].company
  {
  }

  // ---------------------------------------------------------------- access is history

  datatype Event = WasInvited(areas: set<string>) | WasAccepted | WasRevoked | AreasChanged(areas: set<string>) | WasEnded

  /** What a granted request means for the pair (auditor, engagement), read off the request. */
  function EventOf(db: Db, r: Request, a: Id, e: Id): Option<Event> {
    if Step(db, r).0 != Ok then None
    else match r
      case Invite(_, e', m, p, _) =>
        if e' == e && m in db.auditors && db.auditors[m] == a then Some(WasInvited(NormalizeAreas(p).value)) else None
      case Register(m, _) =>
        if a == db.nextId && (e, m) in Live(db, m) then Some(WasInvited(db.pending[(e, m)].areas)) else None
      case Accept(a', e') => if a' == a && e' == e then Some(WasAccepted) else None
      case Remove(_, e', a') => if a' == a && e' == e then Some(WasRevoked) else None
      case UpdateAccess(_, e', a', p) =>
        if a' == a && e' == e then Some(AreasChanged(NormalizeAreas(p).value)) else None
      case Close(_, e') => if e' == e then Some(WasEnded) else None
      case Delete(_, e') => if e' == e then Some(WasEnded) else None
      case _ => None
  }

  /** The pair's standing, from its history alone: the last of invited, accepted, revoked and
      ended, and the areas last named while it stood. */
  datatype Standing = Outside | Asked'(areas: set<string>) | Inside(areas: set<string>)

  function Follow(s: Standing, ev: Option<Event>): Standing {
    match ev
    case None => s
    case Some(WasInvited(areas)) => Asked'(areas)
    case Some(WasAccepted) => if s.Outside? then Outside else Inside(s.areas)
    case Some(AreasChanged(areas)) => if s.Outside? then Outside else s.(areas := areas)
    case Some(_) => Outside
  }

  function History(reqs: seq<Request>, a: Id, e: Id): Standing {
    if reqs == [] then Outside
    else
      var init := reqs[..|reqs| - 1];
      Follow(History(init, a, e), EventOf(RunFrom(INIT, init), reqs[|reqs| - 1], a, e))
  }

  function GrantStanding(db: Db, a: Id, e: Id): Standing {
    if (a, e) !in db.grants || db.grants[(a, e)].status == Revoked then Outside
    else if db.grants[(a, e)].status == Asked then Asked'(db.grants[(a, e)].areas)
    else Inside(db.grants[(a, e)].areas)
  }

  lemma InviteFollows(db: Db, r: Request, a: Id, e: Id)
    requires Inv(db) && r.Invite?
    ensures GrantStanding(Step(db, r).1, a, e) == Follow(GrantStanding(db, a, e), EventOf(db, r, a, e))
  {
  }

  /** Where a conversion gives a grant, and which. */
  lemma ConvertedAt(a: Id, email: Email, ks: set<(Id, Email)>, pending: map<(Id, Email), Pending>, x: Id, e: Id)
    requires forall k :: k in ks ==> k in pending && k.1 == email
    ensures (x, e) in Converted(a, email, ks, pending) <==> x == a && (e, email) in ks
    ensures x == a && (e, email) in ks ==> Converted(a, email, ks, pending)[(x, e)] == Grant(Asked, pending[(e, email)].areas)
  {
    if (e, email) in ks { assert (a, (e, email).0) in (set k | k in ks :: (a, k.0)); }
  }

  lemma RegisterFollows(db: Db, r: Request, a: Id, e: Id)
    requires Inv(db) && r.Register?
    ensures GrantStanding(Step(db, r).1, a, e) == Follow(GrantStanding(db, a, e), EventOf(db, r, a, e))
  {
    ConvertedAt(db.nextId, r.email, Live(db, r.email), db.pending, a, e);
    assert a == db.nextId ==> (a, e) !in db.grants;
  }

  lemma EndFollows(db: Db, r: Request, a: Id, e: Id)
    requires Inv(db) && (r.Close? || r.Delete?)
    ensures GrantStanding(Step(db, r).1, a, e) == Follow(GrantStanding(db, a, e), EventOf(db, r, a, e))
  {
  }

  lemma GrantChangeFollows(db: Db, r: Request, a: Id, e: Id)
    requires Inv(db) && (r.Accept? || r.Remove? || r.UpdateAccess?)
    ensures GrantStanding(Step(db, r).1, a, e) == Follow(GrantStanding(db, a, e), EventOf(db, r, a, e))
  {
  }

  lemma OtherFollows(db: Db, r: Request, a: Id, e: Id)
    requires r.CreateEngagement? || r.Cancel? || r.AuditorWork? || r.CompanyWork? || r.Wait?
    ensures GrantStanding(Step(db, r).1, a, e) == Follow(GrantStanding(db, a, e), EventOf(db, r, a, e))
  {
  }

  lemma StepFollows(db: Db, r: Request, a: Id, e: Id)
    requires Inv(db)
    ensures GrantStanding(Step(db, r).1, a, e) == Follow(GrantStanding(db, a, e), EventOf(db, r, a, e))
  {
    match r
    case Invite(_, _, _, _, _) => InviteFollows(db, r, a, e);
    case Register(_, _) => RegisterFollows(db, r, a, e);
    case Close(_, _) => EndFollows(db, r, a, e);
    case Delete(_, _) => EndFollows(db, r, a, e);
    case Accept(_, _) => GrantChangeFollows(db, r, a, e);
    case Remove(_, _, _) => GrantChangeFollows(db, r, a, e);
    case UpdateAccess(_, _, _, _) => GrantChangeFollows(db, r, a, e);
    case _ => OtherFollows(db, r, a, e);
  }

  lemma {:induction false} GrantsAreHistory(reqs: seq<Request>, a: Id, e: Id)
    ensures GrantStanding(RunFrom(INIT, reqs), a, e) == History(reqs, a, e)
    decreases |reqs|
  {
    if reqs != [] {
      var init := reqs[..|reqs| - 1];
      GrantsAreHistory(init, a, e);
      ReachableStatesConsistent(init);
      StepFollows(RunFrom(INIT, init), reqs[|reqs| - 1], a, e);
    }
  }

  /** The latest invite, accept, revoke, close or delete event of the pair; a change of areas is
      none of them. */
  function LastEvent(reqs: seq<Request>, a: Id, e: Id): Option<Event> {
    if reqs == [] then None
    else
      var init := reqs[..|reqs| - 1];
      var ev := EventOf(RunFrom(INIT, init), reqs[|reqs| - 1], a, e);
      if ev.None? || ev.value.AreasChanged? then LastEvent(init, a, e) else ev
  }

  /** How the latest event and the standing belong together. */
  predicate Matches(last: Option<Event>, s: Standing) {
    match last
    case Some(WasAccepted) => s.Inside?
    case Some(WasInvited(_)) => s.Asked'?
    case _ => s.Outside?
  }

  lemma AcceptNeedsAnInvite(reqs: seq<Request>, r: Request, a: Id, e: Id)
    requires EventOf(RunFrom(INIT, reqs), r, a, e) == Some(WasAccepted)
    ensures History(reqs, a, e).Asked'?
  {
    GrantsAreHistory(reqs, a, e);
  }

  lemma {:induction false} HistoryEndsWithLastEvent(reqs: seq<Request>, a: Id, e: Id)
    ensures Matches(LastEvent(reqs, a, e), History(reqs, a, e))
    decreases |reqs|
  {
    if reqs != [] {
      var init, r := reqs[..|reqs| - 1], reqs[|reqs| - 1];
      HistoryEndsWithLastEvent(init, a, e);
      if EventOf(RunFrom(INIT, init), r, a, e) == Some(WasAccepted) { AcceptNeedsAnInvite(init, r, a, e); }
    }
  }

  /** Main theorem: after any history an auditor passes the access check exactly when the last of
      the pair's invite, accept, revoke, close and delete events is an accept - so testing that the
      engagement is active adds nothing to the grant - and passes it for an area exactly when, in
      addition, that area was in the last permissions named since the invite. */
  lemma AccessIsLastAccept(reqs: seq<Request>, a: Id, e: Id, area: string)
    ensures HasAccess(RunFrom(INIT, reqs), a, e) <==> LastEvent(reqs, a, e) == Some(WasAccepted)
    ensures MayUse(RunFrom(INIT, reqs), a, e, area) <==>
            LastEvent(reqs, a, e) == Some(WasAccepted) && History(reqs, a, e).Inside? && area in History(reqs, a, e).areas
  {
    GrantsAreHistory(reqs, a, e);
    ReachableStatesConsistent(reqs);
    HistoryEndsWithLastEvent(reqs, a, e);
  }

  /** Progress: whoever holds the token of an unexpired invite can register, accept, and then
      has access with the areas of that invite; no invite to the address is left. */
  lemma InviteOpensAccess(db: Db, m: Email, token: string, e: Id)
    requires Inv(db) && m !in db.auditors
    requires (e, m) in Live(db, m) && db.pending[(e, m)].token == token
    ensures var (first, registered) := RegisterAuditor(db, m, token);
            var (second, accepted) := AcceptEngagement(registered, db.nextId, e);
            && first == Ok && second == Ok
            && Live(registered, m) == {}
            && HasAccess(accepted, db.nextId, e)
            && accepted.grants[(db.nextId, e)].areas == db.pending[(e, m)].areas
  {
    RegisterGrantsAnew(db, m);
    var registered := RegisterAuditor(db, m, token).1;
    assert (db.nextId, e) in Converted(db.nextId, m, Live(db, m), db.pending) by {
      assert (db.nextId, (e, m).0) in (set k | k in Live(db, m) :: (db.nextId, k.0));
    }
    assert (db.nextId, e) in registered.grants;
    assert db.engagements[e].status in {Invited, Active};
  }

  // ---------------------------------------------------------------- closed is final

  /** Closed, or deleted and never to return. */
  predicate Over(db: Db, e: Id) {
    e < db.nextId && (e in db.engagements ==> db.engagements[e].status == Closed)
  }

  predicate SameWork(before: Db, after: Db, e: Id) {
    (e in before.work <==> e in after.work) && (e in before.work ==> before.work[e] == after.work[e])
  }

  /** A later request leaves the work of a finished engagement alone, unless it is the
      company's own. */
  lemma OverStaysOver(db: Db, r: Request, e: Id)
    requires Inv(db) && Over(db, e)
    ensures Over(Step(db, r).1, e)
    ensures r.AuditorWork? || r.Accept? || r.Register? ==> SameWork(db, Step(db, r).1, e)
  {
    if r.AuditorWork? && r.engagement == e {
      assert !HasAccess(db, r.auditor, e);
    }
  }

  /** Main theorem: once an engagement is closed, no auditor request of any later history
      changes its entries, requirements or queries. */
  lemma ClosedIsFinal(db: Db, reqs: seq<Request>, e: Id, i: nat)
    requires Inv(db) && Over(db, e)
    requires i < |reqs| && (reqs[i].AuditorWork? || reqs[i].Accept? || reqs[i].Register?)
    ensures SameWork(RunFrom(db, reqs[..i]), RunFrom(db, reqs[..i + 1]), e)
  {
    StaysOver(db, reqs[..i], e);
    assert reqs[..i + 1][..i] == reqs[..i] && reqs[..i + 1][i] == reqs[i];
    OverStaysOver(RunFrom(db, reqs[..i]), reqs[i], e);
  }

  lemma {:induction false} StaysOver(db: Db, reqs: seq<Request>, e: Id)
    requires Inv(db) && Over(db, e)
    ensures Inv(RunFrom(db, reqs)) && Over(RunFrom(db, reqs), e)
    decreases |reqs|
  {
    if reqs != [] {
      var n := |reqs| - 1;
      StaysOver(db, reqs[..n], e);
      StepKeepsInv(RunFrom(db, reqs[..n]), reqs[n]);
      OverStaysOver(RunFrom(db, reqs[..n]), reqs[n], e);
    }
  }

  lemma ConvertedOneMore(g: map<(Id, Id), Grant>, a: Id, email: Email, done: set<(Id, Email)>, k: (Id, Email),
                         p: map<(Id, Email), Pending>)
    requires (forall j :: j in done ==> j in p && j.1 == email) && k in p && k.1 == email
    ensures g + Converted(a, email, done + {k}, p) == (g + Converted(a, email, done, p))[(a, k.0) := Grant(Asked, p[k].areas)]
  {
    var m, n := Converted(a, email, done, p), Converted(a, email, done + {k}, p);
    assert k == (k.0, email);
    assert (set j | j in done + {k} :: (a, j.0)) == (set j | j in done :: (a, j.0)) + {(a, k.0)};
    assert n == m[(a, k.0) := Grant(Asked, p[k].areas)];
  }

  // ---------------------------------------------------------------- the handlers themselves

  class AuditStore {
    var engagements: map<Id, Engagement>
    var grants: map<(Id, Id), Grant>
    var pending: map<(Id, Email), Pending>
    var auditors: map<Email, Id>
    var work: map<Id, W.Workspace>
    var now: int
    var nextId: Id

    function State(): Db
      reads this
    {
      Db(engagements, grants, pending, auditors, work, now, nextId)
    }

    constructor ()
      ensures State() == INIT
    {
      engagements, grants, pending, auditors, work := map[], map[], map[], map[], map[];
      now, nextId := 0, 0;
    }

    method Invite(company: Id, e: Id, rawEmail: string, perms: Option<map<string, bool>>, token: string)
      returns (answer: Answer)
      modifies this
      ensures (answer, State()) == InviteAuditor(old(State()), company, e, Canon(rawEmail), perms, token)
    {
      answer := InviteAddress(company, e, Canon(rawEmail), perms, token);
    }

    method InviteAddress(company: Id, e: Id, email: Email, perms: Option<map<string, bool>>, token: string)
      returns (answer: Answer)
      modifies this
      ensures (answer, State()) == InviteAuditor(old(State()), company, e, email, perms, token)
    {
      if e !in engagements || engagements[e].company != company { return Reject(404); }
      if engagements[e].status == Closed { return Reject(409); }
      var areas := NormalizeAreas(perms);
      if areas.None? { return Reject(400); }
      if email in auditors {
        var k := (auditors[email], e);
        if k in grants && grants[k].status != Revoked { return Reject(400); }
        grants := grants[k := Grant(Asked, areas.value)];
      } else {
        pending := pending[(e, email) := Pending(token, now + INVITE_TTL, areas.value)];
      }
      var status := engagements[e].status;
      if status == Draft { status := Invited; }
      engagements := engagements[e := engagements[e].(status := status)];
      return Ok;
    }

    method Create(company: Id) returns (e: Id)
      modifies this
      ensures e == old(nextId) && (Ok, State()) == Step(old(State()), CreateEngagement(company))
    {
      e := nextId;
      engagements := engagements[e := Engagement(company, Draft)];
      work := work[e := W.EMPTY];
      nextId := nextId + 1;
    }

    method UpdateAccess(company: Id, e: Id, a: Id, perms: Option<map<string, bool>>) returns (answer: Answer)
      modifies this
      ensures (answer, State()) == UpdateAuditorAccess(old(State()), company, e, a, perms)
    {
      if e !in engagements || engagements[e].company != company { return Reject(404); }
      var areas := NormalizeAreas(perms);
      if areas.None? { return Reject(400); }
      if (a, e) !in grants || grants[(a, e)].status == Revoked { return Reject(404); }
      grants := grants[(a, e) := grants[(a, e)].(areas := areas.value)];
      return Ok;
    }

    method Remove(company: Id, e: Id, a: Id) returns (answer: Answer)
      modifies this
      ensures (answer, State()) == RemoveAuditor(old(State()), company, e, a)
    {
      if e !in engagements || engagements[e].company != company { return Reject(404); }
      if (a, e) !in grants || grants[(a, e)].status == Revoked { return Reject(404); }
      grants := grants[(a, e) := grants[(a, e)].(status := Revoked)];
      return Ok;
    }

    method Cancel(company: Id, e: Id, rawEmail: string) returns (answer: Answer)
      modifies this
      ensures (answer, State()) == CancelInvite(old(State()), company, e, Canon(rawEmail))
    {
      if e !in engagements || engagements[e].company != company { return Reject(404); }
      var email := Canon(rawEmail);
      if (e, email) !in pending { return Reject(404); }
      pending := pending - {(e, email)};
      return Ok;
    }

    method Close(company: Id, e: Id) returns (answer: Answer)
      modifies this
      ensures (answer, State()) == CloseEngagement(old(State()), company, e)
    {
      if e !in engagements || engagements[e].company != company { return Reject(404); }
      engagements := engagements[e := engagements[e].(status := Closed)];
      grants := map k | k in grants :: if k.1 == e then grants[k].(status := Revoked) else grants[k];
      pending := map k | k in pending && k.0 != e :: pending[k];
      return Ok;
    }

    method Delete(company: Id, e: Id) returns (answer: Answer)
      modifies this
      ensures (answer, State()) == DeleteEngagement(old(State()), company, e)
    {
      if e !in engagements || engagements[e].company != company { return Reject(404); }
      if engagements[e].status == Active { return Reject(409); }
      engagements := engagements - {e};
      grants := map k | k in grants && k.1 != e :: grants[k];
      pending := map k | k in pending && k.0 != e :: pending[k];
      work := work - {e};
      return Ok;
    }

    method Accept(a: Id, e: Id) returns (answer: Answer)
      modifies this
      ensures (answer, State()) == AcceptEngagement(old(State()), a, e)
    {
      if (a, e) !in grants || grants[(a, e)].status != Asked { return Reject(404); }
      if e !in engagements { return Reject(500); }
      grants := grants[(a, e) := grants[(a, e)].(status := Accepted)];
      var status := engagements[e].status;
      if status == Invited { status := Active; }
      engagements := engagements[e := engagements[e].(status := status)];
      return Ok;
    }

    /** `auditor_register` cleans the address and trims the token, then registers. */
    method RegisterAuditorAccount(rawEmail: string, rawToken: string) returns (answer: Answer)
      requires forall g :: g in grants ==> g.0 < nextId
      modifies this
      ensures (answer, State()) == RegisterAuditor(old(State()), Canon(rawEmail), Strip(rawToken))
    {
      answer := Register(Canon(rawEmail), Strip(rawToken));
    }

    /** The registration of a cleaned address: every unexpired invite to the address is consumed, one grant per
        engagement. The loop takes the invites in whatever order the query returned them; the new
        auditor's id is fresh. */
    method Register(email: Email, token: string) returns (answer: Answer)
      requires forall g :: g in grants ==> g.0 < nextId
      modifies this
      ensures (answer, State()) == RegisterAuditor(old(State()), email, token)
    {
      if email in auditors { return Reject(409); }
      var pendings := Live(State(), email);
      if pendings == {} { return Reject(400); }
      if forall k :: k in pendings ==> pending[k].token != token { return Reject(400); }
      var a := nextId;
      auditors := auditors[email := a];
      nextId := nextId + 1;
      answer := Consume(a, email, pendings);
    }

    /** The conversion loop: every invite is consumed, each engagement is granted once. */
    method Consume(a: Id, email: Email, pendings: set<(Id, Email)>) returns (answer: Answer)
      requires forall k :: k in pendings ==> k in pending && k.1 == email
      modifies `grants, `pending
      ensures answer == Ok
      ensures grants == old(grants) + Converted(a, email, pendings, old(pending))
      ensures pending == old(pending) - pendings
    {
      ghost var p, g := pending, grants;
      var seen: set<Id> := {};
      var todo := pendings;
      ghost var done: set<(Id, Email)> := {};
      while todo != {}
        invariant todo + done == pendings && todo !! done
        invariant pending == p - done
        invariant forall e :: e in seen ==> (e, email) in done
        invariant grants == g + Converted(a, email, done, p)
        decreases todo
      {
        var k :| k in todo;
        assert k == (k.0, email) && k in pending;
        if k.0 !in seen {
          seen := seen + {k.0};
          grants := grants[(a, k.0) := Grant(Asked, pending[k].areas)];
        }
        pending := pending - {k};
        todo := todo - {k};
        ConvertedOneMore(g, a, email, done, k, p);
        assert p - done - {k} == p - (done + {k});
        done := done + {k};
      }
      assert done == pendings;
      return Ok;
    }

    method Work(a: Id, e: Id, c: W.AuditorCommand) returns (answer: Answer)
      modifies this
      ensures (answer, State()) == DoAuditorWork(old(State()), a, e, c)
    {
      if !MayUse(State(), a, e, W.Area(c)) { return Reject(if c.DeleteEntry? then 404 else 403); }
      if e !in work { return Reject(404); }
      var r := W.AuditorAct(work[e], a, c, nextId);
      if r.0 == Ok { work, nextId := work[e := r.1], nextId + 1; }
      return r.0;
    }
  }
}
