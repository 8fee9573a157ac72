/** One docVault document: versions, locking and approval (app/routers/docvault.py). */
module DocVault {
  import opened Prelude
  import opened Compliance

  type Id = nat

  /** A company user; `vault` says whether docVault is among the user's modules. */
  datatype User = User(id: Id, admin: bool, vault: bool, buckets: set<Id>)

  datatype Version = Version(id: Id, number: nat)

  datatype File = File(
    bucket: Option<Id>, status: DocStatus, editable: bool, title: string, tags: seq<string>,
    createdBy: Option<Id>, approver: Option<Id>, requestedAt: Option<int>,
    approvedBy: Option<Id>, approvedAt: Option<int>, notes: Option<string>,
    versions: seq<Version>, current: Option<Id>)

  /** Who asks, the company's active users and buckets at that moment, and the time. */
  datatype Context = Context(actor: User, users: map<Id, User>, buckets: set<Id>, now: int)

  /** A PATCH body: the outer option says whether a field was sent, the inner whether it is null. */
  datatype Body = Body(
    title: Option<Option<string>>, tags: Option<Option<seq<string>>>, bucket: Option<Option<Id>>,
    editable: Option<Option<bool>>, approver: Option<Option<Id>>)

  datatype Request =
    | NewVersion
    | Patch(body: Body)
    | RequestApproval(approverId: Id)
    | Review(verified: bool, notes: Option<string>)
    | Delete
    | Restore
    | Retire                      // a compliance record is archived
    | Reinstate(face: Face)       // a compliance record is unarchived

  datatype Event = Event(ctx: Context, request: Request)

  predicate CanAccess(u: User, bucket: Option<Id>) {
    bucket.None? || u.admin || bucket.value in u.buckets
  }

  /** The user may be named approver of a file in this bucket. */
  predicate Approves(ctx: Context, approver: Id, bucket: Option<Id>) {
    && approver in ctx.users
    && (ctx.users[approver].admin || ctx.users[approver].vault)
    && CanAccess(ctx.users[approver], bucket)
  }

  predicate IsCreator(f: File, u: User) {
    f.createdBy == Some(u.id)
  }

  predicate ApproverOrAdmin(f: File, u: User) {
    f.approver == Some(u.id) || u.admin
  }

  // ---------------------------------------------------------------- handlers

  function Upload(ctx: Context, title: string, bucket: Option<Id>, editable: bool, needsApproval: bool, approver: Option<Id>): (Answer, Option<File>) {
    var u := ctx.actor;
    if bucket.Some? && bucket.value !in ctx.buckets then (Reject(400), None)
    else if !CanAccess(u, bucket) then (Reject(403), None)
    else if needsApproval && approver.None? then (Reject(400), None)
    else if needsApproval && approver.value == u.id && !u.admin then (Reject(400), None)
    else if needsApproval && !Approves(ctx, approver.value, bucket) then (Reject(400), None)
    else (Ok, Some(File(bucket, if needsApproval then PendingApproval else Uploaded, editable, title, [], Some(u.id),
                        if needsApproval then approver else None, if needsApproval then Some(ctx.now) else None,
                        None, None, None, [Version(0, 1)], Some(0))))
  }

  function MaxNumber(vs: seq<Version>): nat {
    if vs == [] then 0
    else
      var m := MaxNumber(vs[..|vs| - 1]);
      if vs[|vs| - 1].number > m then vs[|vs| - 1].number else m
  }

  /** The file with one more version, now the current one; an approval does not survive it. */
  function Bumped(f: File): File {
    var g := f.(versions := f.versions + [Version(|f.versions|, MaxNumber(f.versions) + 1)], current := Some(|f.versions|));
    if f.status == Verified then g.(status := Uploaded, approvedBy := None, approvedAt := None) else g
  }

  function AddVersion(ctx: Context, f: File): (Answer, File) {
    if !CanAccess(ctx.actor, f.bucket) then (Reject(404), f)
    else if !ctx.actor.admin && !IsCreator(f, ctx.actor) then (Reject(403), f)
    else if !f.editable then (Reject(409), f)
    else if f.status == PendingApproval && !ApproverOrAdmin(f, ctx.actor) then (Reject(403), f)
    else (Ok, Bumped(f))
  }

  predicate SendsNothing(b: Body) {
    b == Body(None, None, None, None, None)
  }

  predicate SendsGated(b: Body) {
    b.title.Some? || b.tags.Some? || b.bucket.Some?
  }

  function Sent<T>(field: Option<Option<T>>): Option<T> {
    if field.Some? then field.value else None
  }

  /** The refusal of a PATCH before anything is written, or `Ok`. */
  function PatchCheck(ctx: Context, f: File, b: Body): Answer {
    var u := ctx.actor;
    if !u.admin && !IsCreator(f, u) && f.approver != Some(u.id) then Reject(403)
    else if f.status == PendingApproval && !ApproverOrAdmin(f, u) then Reject(403)
    else if !f.editable && Sent(b.editable) == Some(true) && !u.admin then Reject(403)
    else if !(if b.editable.Some? then b.editable.value == Some(true) else f.editable) && SendsGated(b) then Reject(409)
    else if Sent(b.bucket).Some? && Sent(b.bucket).value !in ctx.buckets then Reject(400)
    else if Sent(b.bucket).Some? && !CanAccess(u, Sent(b.bucket)) then Reject(403)
    else if Sent(b.approver).Some? && (f.status == Verified || f.status == Archived) && !u.admin then Reject(400)
    else if Sent(b.approver).Some? && Sent(b.approver) == f.createdBy && !u.admin then Reject(400)
    else if Sent(b.approver).Some? && !Approves(ctx, Sent(b.approver).value, if Sent(b.bucket).Some? then Sent(b.bucket) else f.bucket) then Reject(400)
    else if b.title == Some(None) || b.tags == Some(None) || b.editable == Some(None) then Reject(500)   // NOT NULL columns
    else Ok
  }

  function Patched(f: File, b: Body): File {
    f.(title := if Sent(b.title).Some? then Sent(b.title).value else f.title,
       tags := if Sent(b.tags).Some? then Sent(b.tags).value else f.tags,
       bucket := if b.bucket.Some? then b.bucket.value else f.bucket,
       editable := if Sent(b.editable).Some? then Sent(b.editable).value else f.editable,
       approver := if b.approver.Some? then b.approver.value else f.approver)
  }

  function PatchFile(ctx: Context, f: File, b: Body): (Answer, File) {
    if !CanAccess(ctx.actor, f.bucket) then (Reject(404), f)
    else if SendsNothing(b) then (Ok, f)
    else if PatchCheck(ctx, f, b) != Ok then (PatchCheck(ctx, f, b), f)
    else (Ok, Patched(f, b))
  }

  function AskApproval(ctx: Context, f: File, approver: Id): (Answer, File) {
    var u := ctx.actor;
    if !CanAccess(u, f.bucket) then (Reject(404), f)
    else if !IsCreator(f, u) && !u.admin then (Reject(403), f)
    else if f.status != Uploaded && f.status != ActionRequired then (Reject(409), f)
    else if approver == u.id && !u.admin then (Reject(400), f)
    else if !Approves(ctx, approver, f.bucket) then (Reject(400), f)
    else (Ok, f.(status := PendingApproval, approver := Some(approver), requestedAt := Some(ctx.now),
                 approvedBy := None, approvedAt := None))
  }

  function ReviewFile(ctx: Context, f: File, verified: bool, notes: Option<string>): (Answer, File) {
    var u := ctx.actor;
    if !CanAccess(u, f.bucket) then (Reject(404), f)
    else if f.status != PendingApproval then (Reject(409), f)
    else if !ApproverOrAdmin(f, u) then (Reject(403), f)
    else if IsCreator(f, u) && !u.admin then (Reject(403), f)
    else if verified then (Ok, f.(status := Verified, notes := notes, approvedBy := Some(u.id), approvedAt := Some(ctx.now)))
    else (Ok, f.(status := ActionRequired, notes := notes, approvedBy := None, approvedAt := None))
  }

  function DeleteFile(ctx: Context, f: File): (Answer, File) {
    var u := ctx.actor;
    if !CanAccess(u, f.bucket) then (Reject(404), f)
    else if !u.admin && !IsCreator(f, u) then (Reject(403), f)
    else if f.status == PendingApproval && !ApproverOrAdmin(f, u) then (Reject(403), f)
    else (Ok, f.(status := Archived, editable := false))
  }

  function RestoreFile(ctx: Context, f: File): (Answer, File) {
    if !ctx.actor.admin then (Reject(403), f)
    else if f.status != Archived then (Reject(409), f)
    else (Ok, f.(status := Uploaded, editable := true, approver := None, approvedBy := None, approvedAt := None,
                 requestedAt := None, notes := None))
  }

  function Step(f: File, e: Event): (Answer, File) {
    match e.request
    case NewVersion => AddVersion(e.ctx, f)
    case Patch(b) => PatchFile(e.ctx, f, b)
    case RequestApproval(a) => AskApproval(e.ctx, f, a)
    case Review(v, n) => ReviewFile(e.ctx, f, v, n)
    case Delete => DeleteFile(e.ctx, f)
    case Restore => RestoreFile(e.ctx, f)
    case Retire => (Ok, f.(status := Archived, editable := false))
    case Reinstate(face) => (Ok, f.(status := face.status, editable := face.editable))
  }

  function Run(f: File, es: seq<Event>): File {
    if es == [] then f else Step(Run(f, es[..|es| - 1]), es[|es| - 1]).1
  }

  // ---------------------------------------------------------------- versions and approval stamps

  /** Versions are numbered 1..n in order and the last one is current. */
  predicate Versioned(f: File) {
    && |f.versions| >= 1
    && (forall i :: 0 <= i < |f.versions| ==> f.versions[i] == Version(i, i + 1))
    && f.current == Some(|f.versions| - 1)
  }

  /** Approver and time of approval come together, and only on a verified file (or one archived
      while verified). */
  predicate Stamped(f: File) {
    && (f.approvedBy.Some? <==> f.approvedAt.Some?)
    && (f.status == Verified ==> f.approvedBy.Some?)
    && (f.approvedBy.Some? ==> f.status == Verified || f.status == Archived)
    && (f.status == PendingApproval ==> f.requestedAt.Some?)
  }

  predicate Inv(f: File) {
    Versioned(f) && Stamped(f)
  }

  lemma {:induction false} MaxIsLast(vs: seq<Version>)
    requires forall i :: 0 <= i < |vs| ==> vs[i].number == i + 1
    ensures MaxNumber(vs) == |vs|
    decreases |vs|
  {
    if vs != [] { MaxIsLast(vs[..|vs| - 1]); }
  }

  lemma StepKeepsInv(f: File, e: Event)
    requires Inv(f) && !e.request.Reinstate?
    ensures Inv(Step(f, e).1)
  {
    if e.request.NewVersion? { MaxIsLast(f.versions); }
  }

  predicate NoReinstate(es: seq<Event>) {
    forall i :: 0 <= i < |es| ==> !es[i].request.Reinstate?
  }

  lemma UploadStartsClean(ctx: Context, title: string, bucket: Option<Id>, editable: bool, needsApproval: bool, approver: Option<Id>)
    requires Upload(ctx, title, bucket, editable, needsApproval, approver).0 == Ok
    ensures var f := Upload(ctx, title, bucket, editable, needsApproval, approver).1.value;
            Inv(f) && (f.status == PendingApproval <==> f.approver.Some?) && f.status != Verified
  {
  }

  /** Main theorem: in every run of every document route, PATCH included, version numbers are
      1..n, the current version is number n, a pending file has a request time, and approval stamps
      are complete on verified files and absent from all but verified and archived ones. */
  lemma {:induction false} VersionsAndStampsHold(f: File, es: seq<Event>)
    requires Inv(f) && NoReinstate(es)
    ensures Inv(Run(f, es))
    decreases |es|
  {
    if es != [] {
      VersionsAndStampsHold(f, es[..|es| - 1]);
      StepKeepsInv(Run(f, es[..|es| - 1]), es[|es| - 1]);
    }
  }

  // ---------------------------------------------------------------- a pending file has an approver

  predicate HasApprover(f: File) {
    f.status == PendingApproval ==> f.approver.Some?
  }

  /** Guards of a PATCH that sends no new approver, all of them testable beforehand: the caller sees
      the file's bucket and is the approver of the pending file or an admin, does not unlock it
      without being one, changes no gated field of a file that stays locked, moves it only to an
      existing bucket the caller sees, and nulls no mandatory column. */
  predicate MayPatchPending(ctx: Context, f: File, b: Body) {
    var u := ctx.actor;
    && CanAccess(u, f.bucket)
    && (f.approver == Some(u.id) || u.admin)
    && (!f.editable && b.editable == Some(Some(true)) ==> u.admin)
    && (SendsGated(b) ==> b.editable == Some(Some(true)) || (b.editable.None? && f.editable))
    && (b.bucket.Some? && b.bucket.value.Some? ==> b.bucket.value.value in ctx.buckets && CanAccess(u, b.bucket.value))
    && b.title != Some(None) && b.tags != Some(None) && b.editable != Some(None)
  }

  /** One request takes the approver from a pending file exactly when it is a PATCH that carries
      `approver_id: null` and meets those guards. */
  lemma ApproverLostExactly(f: File, e: Event)
    requires HasApprover(f) && !e.request.Reinstate?
    ensures !HasApprover(Step(f, e).1) <==>
              && f.status == PendingApproval && e.request.Patch? && e.request.body.approver == Some(None)
              && MayPatchPending(e.ctx, f, e.request.body)
  {
  }

  predicate KeepsApprovers(es: seq<Event>) {
    forall i :: 0 <= i < |es| ==> !es[i].request.Reinstate? && !(es[i].request.Patch? && es[i].request.body.approver == Some(None))
  }

  /** Without such a PATCH every pending file has an approver, in every run. */
  lemma {:induction false} PendingHasApprover(f: File, es: seq<Event>)
    requires HasApprover(f) && KeepsApprovers(es)
    ensures HasApprover(Run(f, es))
    decreases |es|
  {
    if es != [] {
      PendingHasApprover(f, es[..|es| - 1]);
      ApproverLostExactly(Run(f, es[..|es| - 1]), es[|es| - 1]);
    }
  }

  // ---------------------------------------------------------------- what a verification covered

  /** A verifying review: who gave it, on which version, and whose file it was then, with which
      approver and in which bucket. */
  datatype Verdict = Verdict(reviewer: User, current: Option<Id>, createdBy: Option<Id>, approver: Option<Id>, bucket: Option<Id>)

  /** Its reviewer was the approver named at the time or an admin, saw the bucket, and was not the
      uploader unless an admin. */
  predicate Entitled(v: Verdict) {
    && (v.approver == Some(v.reviewer.id) || v.reviewer.admin)
    && CanAccess(v.reviewer, v.bucket)
    && (v.createdBy == Some(v.reviewer.id) ==> v.reviewer.admin)
  }

  function VerdictOn(f: File, reviewer: User): Verdict {
    Verdict(reviewer, f.current, f.createdBy, f.approver, f.bucket)
  }

  predicate Verifies(f: File, e: Event) {
    e.request.Review? && e.request.verified && Step(f, e).0 == Ok
  }

  /** The latest verifying review of a run. */
  function LastVerdict(f: File, es: seq<Event>): Option<Verdict> {
    if es == [] then None
    else
      var before, e := Run(f, es[..|es| - 1]), es[|es| - 1];
      if Verifies(before, e) then Some(VerdictOn(before, e.ctx.actor))
      else LastVerdict(f, es[..|es| - 1])
  }

  predicate Covered(f: File, v: Option<Verdict>) {
    f.status == Verified ==>
      && v.Some? && v.value.current == f.current && f.approvedBy == Some(v.value.reviewer.id)
      && v.value.createdBy == f.createdBy && Entitled(v.value)
  }

  lemma CoverStep(f: File, e: Event, v: Option<Verdict>)
    requires Covered(f, v) && !e.request.Reinstate?
    ensures Covered(Step(f, e).1, if Verifies(f, e) then Some(VerdictOn(f, e.ctx.actor)) else v)
  {
  }

  /** Main theorem: in every run, a verified file's current version is the one its last verifying
      reviewer looked at, the approval stamp names that reviewer, and the reviewer was the approver
      named at the time or an admin, saw the bucket, and is not the uploader unless an admin. */
  lemma {:induction false} VerifiedVersionWasReviewed(f: File, es: seq<Event>)
    requires f.status != Verified && NoReinstate(es)
    ensures Covered(Run(f, es), LastVerdict(f, es))
    decreases |es|
  {
    if es != [] {
      var n := |es| - 1;
      VerifiedVersionWasReviewed(f, es[..n]);
      CoverStep(Run(f, es[..n]), es[n], LastVerdict(f, es[..n]));
    }
  }

  /** A locked file's content does not change: only an admin's unlock, an approver change, a status
      change or a restore gets through. */
  lemma LockedContentIsFrozen(f: File, e: Event)
    requires !f.editable && !e.ctx.actor.admin && !e.request.Reinstate?
    ensures var g := Step(f, e).1;
            && g.versions == f.versions && g.current == f.current && g.title == f.title && g.tags == f.tags && g.bucket == f.bucket
            && !g.editable
  {
  }

  // ---------------------------------------------------------------- what unarchiving a record brings back

  /** The requests that can change whether a file's stamps speak for its current version. */
  predicate Touches(f: File, e: Event) {
    (e.request.NewVersion? || e.request.Restore? || e.request.RequestApproval? || e.request.Review?) && Step(f, e).0 == Ok
  }

  /** The last such request of a run is a verifying review. */
  predicate Endorsed(f: File, es: seq<Event>) {
    if es == [] then false
    else
      var before, e := Run(f, es[..|es| - 1]), es[|es| - 1];
      if Touches(before, e) then Verifies(before, e) else Endorsed(f, es[..|es| - 1])
  }

  /** The stamps are complete, name the reviewer of the verdict and the current version is his. */
  predicate SpeaksFor(f: File, v: Option<Verdict>) {
    && f.approvedBy.Some? && f.approvedAt.Some? && v.Some?
    && v.value.current == f.current && f.approvedBy == Some(v.value.reviewer.id) && v.value.createdBy == f.createdBy
    && Entitled(v.value)
  }

  /** What every run keeps, unarchiving included: numbered versions, paired stamps, and a last
      verdict on a version that exists. */
  predicate Sane(f: File, v: Option<Verdict>) {
    && Versioned(f) && (f.approvedBy.Some? <==> f.approvedAt.Some?)
    && (v.Some? ==> v.value.current.Some? && v.value.current.value < |f.versions|)
  }

  function VerdictAfter(f: File, e: Event, v: Option<Verdict>): Option<Verdict> {
    if Verifies(f, e) then Some(VerdictOn(f, e.ctx.actor)) else v
  }

  lemma SaneStep(f: File, e: Event, v: Option<Verdict>)
    requires Sane(f, v)
    ensures Sane(Step(f, e).1, VerdictAfter(f, e, v))
  {
    if e.request.NewVersion? { MaxIsLast(f.versions); }
  }

  lemma EndorseStep(f: File, e: Event, v: Option<Verdict>)
    requires Sane(f, v)
    ensures SpeaksFor(Step(f, e).1, VerdictAfter(f, e, v)) <==> if Touches(f, e) then Verifies(f, e) else SpeaksFor(f, v)
  {
    hide MaxNumber, Patched;
    if e.request.Patch? { PatchKeepsStamps(e.ctx, f, e.request.body); }
  }

  lemma PatchKeepsStamps(ctx: Context, f: File, b: Body)
    ensures var g := PatchFile(ctx, f, b).1;
            (g.current, g.createdBy, g.approvedBy, g.approvedAt) == (f.current, f.createdBy, f.approvedBy, f.approvedAt)
  {
  }

  /** Main theorem, for every run of every request, archiving and unarchiving of compliance records
      included, whatever status and lock an unarchiving brings back: the stamps speak for the current
      version exactly when the last upload, restore, approval request or review that went through is
      a verifying review. */
  lemma {:induction false} StampsSpeakExactly(f: File, es: seq<Event>)
    requires Versioned(f) && f.approvedBy.None? && f.approvedAt.None?
    ensures Sane(Run(f, es), LastVerdict(f, es))
    ensures SpeaksFor(Run(f, es), LastVerdict(f, es)) <==> Endorsed(f, es)
    decreases |es|
  {
    if es != [] {
      var n := |es| - 1;
      StampsSpeakExactly(f, es[..n]);
      SaneStep(Run(f, es[..n]), es[n], LastVerdict(f, es[..n]));
      EndorseStep(Run(f, es[..n]), es[n], LastVerdict(f, es[..n]));
    }
  }

  /** So a verified file, however it came to be verified, is covered and stamped exactly then. */
  lemma VerifiedIsReviewedExactly(f: File, es: seq<Event>)
    requires Versioned(f) && f.approvedBy.None? && f.approvedAt.None? && Run(f, es).status == Verified
    ensures Covered(Run(f, es), LastVerdict(f, es)) && Stamped(Run(f, es)) <==> Endorsed(f, es)
  {
    StampsSpeakExactly(f, es);
  }

  // ---------------------------------------------------------------- from archiving a record to unarchiving it

  lemma {:induction false} CreatorStays(f: File, es: seq<Event>)
    ensures Run(f, es).createdBy == f.createdBy
    decreases |es|
  {
    if es != [] { CreatorStays(f, es[..|es| - 1]); }
  }

  /** The last verdict after a run that began with `v`. */
  function VerdictOver(f: File, es: seq<Event>, v: Option<Verdict>): Option<Verdict> {
    if es == [] then v
    else VerdictAfter(Run(f, es[..|es| - 1]), es[|es| - 1], VerdictOver(f, es[..|es| - 1], v))
  }

  /** No upload, restore, approval request or review went through, or the last one is a verifying
      review. */
  predicate Undisturbed(f: File, es: seq<Event>) {
    if es == [] then true
    else
      var before, e := Run(f, es[..|es| - 1]), es[|es| - 1];
      if Touches(before, e) then Verifies(before, e) else Undisturbed(f, es[..|es| - 1])
  }

  lemma {:induction false} SpeaksOn(f: File, es: seq<Event>, v: Option<Verdict>)
    requires Sane(f, v) && SpeaksFor(f, v)
    ensures Sane(Run(f, es), VerdictOver(f, es, v))
    ensures SpeaksFor(Run(f, es), VerdictOver(f, es, v)) <==> Undisturbed(f, es)
    decreases |es|
  {
    if es != [] {
      var n := |es| - 1;
      SpeaksOn(f, es[..n], v);
      SaneStep(Run(f, es[..n]), es[n], VerdictOver(f, es[..n], v));
      EndorseStep(Run(f, es[..n]), es[n], VerdictOver(f, es[..n], v));
    }
  }

  /** Main theorem: a verified file is archived with a record and, after any requests, other records
      of the file archived and unarchived among them, brought back by it. It is then covered by its
      last verdict and stamped exactly when nothing in between disturbed it for good. */
  lemma ReinstatedExactly(f: File, mid: seq<Event>, v: Option<Verdict>, retire: Context, reinstate: Context)
    requires Inv(f) && f.status == Verified && Covered(f, v)
    ensures var r := Step(f, Event(retire, Retire)).1;
            var h := Step(Run(r, mid), Event(reinstate, Reinstate(Face(Verified, f.editable)))).1;
            Covered(h, VerdictOver(r, mid, v)) && Stamped(h) <==> Undisturbed(r, mid)
  {
    SpeaksOn(Step(f, Event(retire, Retire)).1, mid, v);
  }

  /** The old verdict in particular covers it exactly when current version and approver are back to
      those it was archived with. */
  lemma OldVerdictStands(f: File, mid: seq<Event>, v: Option<Verdict>, retire: Context, reinstate: Context)
    requires Inv(f) && f.status == Verified && Covered(f, v)
    ensures var g := Run(Step(f, Event(retire, Retire)).1, mid);
            var h := Step(g, Event(reinstate, Reinstate(Face(Verified, f.editable)))).1;
            Covered(h, v) && Stamped(h) <==> g.current == f.current && g.approvedBy == f.approvedBy
  {
    var r := Step(f, Event(retire, Retire)).1;
    SpeaksOn(r, mid, v);
    CreatorStays(r, mid);
  }

  /** Nobody but admins takes part. */
  predicate NoAdmin(es: seq<Event>) {
    forall i :: 0 <= i < |es| ==> !es[i].ctx.actor.admin
  }

  /** A face that lets nobody but admins at the file: locked, and neither open to an approval request
      nor pending. */
  predicate Shut(face: Face) {
    !face.editable && face.status != Uploaded && face.status != ActionRequired && face.status != PendingApproval
  }

  /** Every other record unarchived in between was archived from such a face; its snapshot tells. */
  predicate ShutFaces(es: seq<Event>) {
    forall i :: 0 <= i < |es| && es[i].request.Reinstate? ==> Shut(es[i].request.face)
  }

  /** The file is shut, and its versions and stamps are those of `f`. */
  predicate Shelved(f: File, g: File) {
    && Shut(Face(g.status, g.editable))
    && g.versions == f.versions && g.current == f.current
    && g.approvedBy == f.approvedBy && g.approvedAt == f.approvedAt
  }

  lemma {:induction false} ShelvedStays(f: File, mid: seq<Event>)
    requires Shut(Face(f.status, f.editable)) && NoAdmin(mid) && ShutFaces(mid)
    ensures Shelved(f, Run(f, mid))
    decreases |mid|
  {
    if mid != [] { ShelvedStays(f, mid[..|mid| - 1]); }
  }

  /** Main theorem, checkable beforehand: if in between no admin acts on the file and the other
      records that are unarchived were archived while it was shut, it comes back verified, with its
      stamps, on the version that was reviewed. */
  lemma ShutFacesKeepTheVerdict(f: File, mid: seq<Event>, v: Option<Verdict>, retire: Context, reinstate: Context)
    requires Inv(f) && f.status == Verified && Covered(f, v) && NoAdmin(mid) && ShutFaces(mid)
    ensures var g := Run(Step(f, Event(retire, Retire)).1, mid);
            var h := Step(g, Event(reinstate, Reinstate(Face(Verified, f.editable)))).1;
            Covered(h, v) && Inv(h)
  {
    var r := Step(f, Event(retire, Retire)).1;
    ShelvedStays(r, mid);
    CreatorStays(r, mid);
  }

  ghost predicate SafeWithoutAdmins(g: File, v: Option<Verdict>) {
    forall es :: NoAdmin(es) && NoReinstate(es) ==> SpeaksFor(Run(g, es), v)
  }

  /** And no weaker condition on a face will do: after another record brings one back, the users who
      are not admins cannot spoil the verdict exactly when that face is shut. */
  lemma OnlyShutFacesAreSafe(f: File, face: Face, v: Option<Verdict>)
    requires Inv(f) && f.status == Verified && Covered(f, v)
    requires f.createdBy.Some? && f.approver.Some? && f.approver != f.createdBy
    ensures SafeWithoutAdmins(f.(status := face.status, editable := face.editable), v) <==> Shut(face)
  {
    var g := f.(status := face.status, editable := face.editable);
    if Shut(face) {
      forall es | NoAdmin(es) && NoReinstate(es) ensures SpeaksFor(Run(g, es), v) {
        ShelvedStays(g, es);
        CreatorStays(g, es);
      }
    } else {
      var e := Spoiler(g);
      assert [e][..0] == [] && Run(g, [e]) == Step(g, e).1;
      assert NoAdmin([e]) && NoReinstate([e]);
      SpoilerSpoils(g, v);
    }
  }

  /** What a user who is no admin does to a file that is not shut: the approver turns a pending one
      down, the creator asks for approval or uploads. */
  function Spoiler(g: File): Event
    requires g.createdBy.Some? && g.approver.Some?
  {
    var buckets := if g.bucket.Some? then {g.bucket.value} else {};
    var creator := User(g.createdBy.value, false, true, buckets);
    var approver := User(g.approver.value, false, true, buckets);
    var users := map[approver.id := approver];
    if g.status == PendingApproval then Event(Context(approver, users, {}, 0), Review(false, None))
    else if g.status == Uploaded || g.status == ActionRequired then
      Event(Context(creator, users, {}, 0), RequestApproval(approver.id))
    else Event(Context(creator, users, {}, 0), NewVersion)
  }

  lemma SpoilerSpoils(g: File, v: Option<Verdict>)
    requires Versioned(g) && SpeaksFor(g, v) && !Shut(Face(g.status, g.editable))
    requires g.createdBy.Some? && g.approver.Some? && g.approver != g.createdBy
    ensures !SpeaksFor(Step(g, Spoiler(g)).1, v)
  {
  }

  /** First way to spoil it: an admin unlocks the archived file and uploads a version nobody
      reviews; the file comes back verified. */
  lemma ReinstatedVerdictIsStale(f: File, ctx: Context)
    requires Inv(f) && f.status == Verified && ctx.actor.admin
    ensures var unlock := Patch(Body(None, None, None, Some(Some(true)), None));
            var g := Step(Step(Step(f, Event(ctx, Retire)).1, Event(ctx, unlock)).1, Event(ctx, NewVersion)).1;
            var h := Step(g, Event(ctx, Reinstate(Face(Verified, f.editable)))).1;
            h.status == Verified && h.approvedBy == f.approvedBy && |h.versions| == |f.versions| + 1 && h.current != f.current
  {
  }

  /** Second way: an admin restores the archived file in docVault; it comes back verified without
      any stamp, on the very version that was reviewed. */
  lemma ReinstatedWithoutStamps(f: File, ctx: Context)
    requires Inv(f) && f.status == Verified && ctx.actor.admin
    ensures var g := Step(Step(f, Event(ctx, Retire)).1, Event(ctx, Restore)).1;
            var h := Step(g, Event(ctx, Reinstate(Face(Verified, f.editable)))).1;
            h.status == Verified && h.approvedBy.None? && h.current == f.current && !Stamped(h)
  {
  }

  /** Third way, without an admin after the verification: one record archived an uploaded file, which
      an admin restored and which was then verified and archived with another record. Unarchiving the
      first makes it uploaded and editable again, its creator uploads, and unarchiving the second
      presents the new version as verified. */
  lemma AnotherRecordSpoilsIt(f: File, admin: Context, creator: Context, approver: Context)
    requires Inv(f) && f.status == Uploaded && f.editable && admin.actor.admin
    requires !creator.actor.admin && f.createdBy == Some(creator.actor.id) && CanAccess(creator.actor, f.bucket)
    requires !approver.actor.admin && approver.actor.id != creator.actor.id && CanAccess(approver.actor, f.bucket)
    requires Approves(creator, approver.actor.id, f.bucket)
    ensures var restored := Step(Step(f, Event(creator, Retire)).1, Event(admin, Restore)).1;
            var asked := Step(restored, Event(creator, RequestApproval(approver.actor.id))).1;
            var verified := Step(asked, Event(approver, Review(true, None))).1;
            var first := Step(Step(verified, Event(creator, Retire)).1, Event(creator, Reinstate(Face(f.status, f.editable)))).1;
            var uploaded := Step(first, Event(creator, NewVersion)).1;
            var second := Step(uploaded, Event(creator, Reinstate(Face(verified.status, verified.editable)))).1;
            && verified.status == Verified && verified.approvedBy == Some(approver.actor.id)
            && second.status == Verified && second.approvedBy == verified.approvedBy && second.approvedAt == verified.approvedAt
            && |second.versions| == |verified.versions| + 1 && second.current != verified.current
  {
  }

  // ---------------------------------------------------------------- the handlers themselves

  class DocumentRow {
    var file: File

    constructor (f: File)
      ensures file == f
    {
      file := f;
    }

    method UploadVersion(ctx: Context) returns (answer: Answer)
      modifies this
      ensures (answer, file) == AddVersion(ctx, old(file))
    {
      var u := ctx.actor;
      if !CanAccess(u, file.bucket) { return Reject(404); }
      if !(u.admin || IsCreator(file, u)) { return Reject(403); }
      if !file.editable { return Reject(409); }
      if file.status == PendingApproval && !ApproverOrAdmin(file, u) { return Reject(403); }
      var next := 0;
      for i := 0 to |file.versions|
        invariant next == MaxNumber(file.versions[..i])
      {
        assert file.versions[..i + 1][..i] == file.versions[..i];
        if file.versions[i].number > next { next := file.versions[i].number; }
      }
      assert file.versions[..|file.versions|] == file.versions;
      var id := |file.versions|;
      file := file.(versions := file.versions + [Version(id, next + 1)], current := Some(id));
      if file.status == Verified {
        file := file.(status := Uploaded, approvedBy := None, approvedAt := None);
      }
      return Ok;
    }

    method Update(ctx: Context, b: Body) returns (answer: Answer)
      modifies this
      ensures (answer, file) == PatchFile(ctx, old(file), b)
    {
      if !CanAccess(ctx.actor, file.bucket) { return Reject(404); }
      if SendsNothing(b) { return Ok; }
      answer := PatchCheck(ctx, file, b);
      if answer != Ok { return; }
      if b.title.Some? { file := file.(title := b.title.value.value); }
      if b.tags.Some? { file := file.(tags := b.tags.value.value); }
      if b.bucket.Some? { file := file.(bucket := b.bucket.value); }
      if b.editable.Some? { file := file.(editable := b.editable.value.value); }
      if b.approver.Some? { file := file.(approver := b.approver.value); }
    }

    method RequestReview(ctx: Context, approver: Id) returns (answer: Answer)
      modifies this
      ensures (answer, file) == AskApproval(ctx, old(file), approver)
    {
      var u := ctx.actor;
      if !CanAccess(u, file.bucket) { return Reject(404); }
      if !IsCreator(file, u) && !u.admin { return Reject(403); }
      if file.status != Uploaded && file.status != ActionRequired { return Reject(409); }
      if approver == u.id && !u.admin { return Reject(400); }
      if !Approves(ctx, approver, file.bucket) { return Reject(400); }
      file := file.(status := PendingApproval);
      file := file.(approver := Some(approver), requestedAt := Some(ctx.now));
      file := file.(approvedBy := None, approvedAt := None);
      return Ok;
    }

    method Decide(ctx: Context, verified: bool, notes: Option<string>) returns (answer: Answer)
      modifies this
      ensures (answer, file) == ReviewFile(ctx, old(file), verified, notes)
    {
      var u := ctx.actor;
      if !CanAccess(u, file.bucket) { return Reject(404); }
      if file.status != PendingApproval { return Reject(409); }
      if !ApproverOrAdmin(file, u) { return Reject(403); }
      if IsCreator(file, u) && !u.admin { return Reject(403); }
      file := file.(status := if verified then Verified else ActionRequired, notes := notes);
      if verified {
        file := file.(approvedBy := Some(u.id), approvedAt := Some(ctx.now));
      } else {
        file := file.(approvedBy := None, approvedAt := None);
      }
      return Ok;
    }

    method Archive(ctx: Context) returns (answer: Answer)
      modifies this
      ensures (answer, file) == DeleteFile(ctx, old(file))
    {
      var u := ctx.actor;
      if !CanAccess(u, file.bucket) { return Reject(404); }
      if !(u.admin || IsCreator(file, u)) { return Reject(403); }
      if file.status == PendingApproval && !ApproverOrAdmin(file, u) { return Reject(403); }
      file := file.(status := Archived, editable := false);
      return Ok;
    }

    method Unarchive(ctx: Context) returns (answer: Answer)
      modifies this
      ensures (answer, file) == RestoreFile(ctx, old(file))
    {
      if !ctx.actor.admin { return Reject(403); }
      if file.status != Archived { return Reject(409); }
      file := file.(status := Uploaded, editable := true, approver := None);
      file := file.(approvedBy := None, approvedAt := None, requestedAt := None, notes := None);
      return Ok;
    }
  }
}
