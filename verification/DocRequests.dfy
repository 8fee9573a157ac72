/** Who may make each docVault request and what it changes, said of the document itself. */
module DocRequests {
  import opened Prelude
  import C = Compliance
  import opened DocVault

  /** The user owns the document or runs the company. */
  predicate Owns(f: File, u: User) {
    f.createdBy == Some(u.id) || u.admin
  }

  /** A pending approval keeps everybody but the named approver and admins away. */
  predicate HandsOff(f: File, u: User) {
    f.status == C.PendingApproval && f.approver != Some(u.id) && !u.admin
  }

  predicate Sees(u: User, bucket: Option<Id>) {
    u.admin || bucket.None? || bucket.value in u.buckets
  }

  /** An active user of the company with docVault access who sees the bucket. */
  predicate Eligible(ctx: Context, approver: Id, bucket: Option<Id>) {
    && approver in ctx.users
    && (ctx.users[approver].admin || (ctx.users[approver].vault && (bucket.Some? ==> bucket.value in ctx.users[approver].buckets)))
  }

  /** An upload goes through into an existing bucket its uploader sees, and, when approval is wanted,
      to an eligible approver who is not the uploader unless an admin. */
  lemma UploadDoes(ctx: Context, title: string, bucket: Option<Id>, editable: bool, wanted: bool, approver: Option<Id>)
    ensures var (answer, up) := Upload(ctx, title, bucket, editable, wanted, approver);
            && (answer == Ok <==>
                  && (bucket.Some? ==> bucket.value in ctx.buckets) && Sees(ctx.actor, bucket)
                  && (wanted ==> approver.Some? && Eligible(ctx, approver.value, bucket) && (approver.value == ctx.actor.id ==> ctx.actor.admin)))
            && (answer == Reject(403) <==> (bucket.Some? ==> bucket.value in ctx.buckets) && !Sees(ctx.actor, bucket))
            && (answer != Ok ==> up == None && answer in {Reject(400), Reject(403)})
            && (answer == Ok ==>
                  && up.Some? && up.value.createdBy == Some(ctx.actor.id)
                  && (up.value.title, up.value.bucket, up.value.editable) == (title, bucket, editable)
                  && up.value.status == (if wanted then C.PendingApproval else C.Uploaded)
                  && up.value.approver == (if wanted then approver else None)
                  && up.value.requestedAt == (if wanted then Some(ctx.now) else None)
                  && up.value.approvedBy.None? && up.value.approvedAt.None?)
  {
  }

  /** A version is added by the creator or an admin who sees the bucket, to an unlocked document that
      is not somebody else's to approve. It becomes number n + 1 and current; a verified document
      loses its verification, and nothing else changes. */
  lemma VersionDoes(ctx: Context, f: File)
    requires Versioned(f)
    ensures var (answer, g) := Step(f, Event(ctx, NewVersion)); var u := ctx.actor;
            && (answer == Ok <==> Sees(u, f.bucket) && Owns(f, u) && f.editable && !HandsOff(f, u))
            && (answer == Reject(404) <==> !Sees(u, f.bucket))
            && (answer == Reject(409) <==> Sees(u, f.bucket) && Owns(f, u) && !f.editable)
            && (answer != Ok ==> g == f && answer in {Reject(404), Reject(403), Reject(409)})
            && (answer == Ok ==>
                  && |g.versions| == |f.versions| + 1 && f.versions <= g.versions
                  && g.versions[|f.versions|].number == |f.versions| + 1 && g.current == Some(g.versions[|f.versions|].id)
                  && (g.status, g.approvedBy, g.approvedAt) ==
                       (if f.status == C.Verified then (C.Uploaded, None, None) else (f.status, f.approvedBy, f.approvedAt))
                  && g == f.(versions := g.versions, current := g.current, status := g.status,
                             approvedBy := g.approvedBy, approvedAt := g.approvedAt))
  {
    MaxIsLast(f.versions);
  }

  /** Approval is asked by the creator or an admin who sees the bucket, of an eligible user other than
      himself unless an admin, while the document is uploaded or sent back. */
  lemma AskDoes(ctx: Context, f: File, approver: Id)
    ensures var (answer, g) := Step(f, Event(ctx, RequestApproval(approver))); var u := ctx.actor;
            && (answer == Ok <==>
                  && Sees(u, f.bucket) && Owns(f, u) && (f.status == C.Uploaded || f.status == C.ActionRequired)
                  && Eligible(ctx, approver, f.bucket) && (approver == u.id ==> u.admin))
            && (answer == Reject(403) <==> Sees(u, f.bucket) && !Owns(f, u))
            && (answer == Reject(409) <==> Sees(u, f.bucket) && Owns(f, u) && f.status != C.Uploaded && f.status != C.ActionRequired)
            && (answer != Ok ==> g == f && answer in {Reject(404), Reject(403), Reject(409), Reject(400)})
            && (answer == Ok ==>
                  && g.status == C.PendingApproval && g.approver == Some(approver) && g.requestedAt == Some(ctx.now)
                  && g.approvedBy.None? && g.approvedAt.None?
                  && (g.versions, g.current, g.title, g.tags, g.bucket, g.editable, g.createdBy, g.notes) ==
                       (f.versions, f.current, f.title, f.tags, f.bucket, f.editable, f.createdBy, f.notes))
  {
  }

  /** A review goes through exactly when the document is pending, the user sees its bucket, is the
      named approver or an admin, and did not upload it unless an admin. A verifying one stamps his
      name and the time, any other clears the stamps. */
  lemma ReviewDoes(ctx: Context, f: File, verified: bool, notes: Option<string>)
    ensures var (answer, g) := Step(f, Event(ctx, Review(verified, notes))); var u := ctx.actor;
            && (answer == Ok <==>
                  && f.status == C.PendingApproval && Sees(u, f.bucket)
                  && (u.admin || (f.approver == Some(u.id) && f.createdBy != Some(u.id))))
            && (answer == Reject(404) <==> !Sees(u, f.bucket))
            && (answer == Reject(409) <==> Sees(u, f.bucket) && f.status != C.PendingApproval)
            && (answer != Ok ==> g == f && answer in {Reject(404), Reject(409), Reject(403)})
            && (answer == Ok ==>
                  && g.status == (if verified then C.Verified else C.ActionRequired) && g.notes == notes
                  && g.approvedBy == (if verified then Some(u.id) else None)
                  && g.approvedAt == (if verified then Some(ctx.now) else None)
                  && (g.versions, g.current, g.title, g.tags, g.bucket, g.editable, g.createdBy, g.approver, g.requestedAt) ==
                       (f.versions, f.current, f.title, f.tags, f.bucket, f.editable, f.createdBy, f.approver, f.requestedAt))
  {
  }

  /** Archiving is for the creator or an admin who sees the bucket, unless somebody else is to approve
      it; it locks the document and keeps the rest. */
  lemma ArchiveDoes(ctx: Context, f: File)
    ensures var (answer, g) := Step(f, Event(ctx, Delete)); var u := ctx.actor;
            && (answer == Ok <==> Sees(u, f.bucket) && Owns(f, u) && !HandsOff(f, u))
            && (answer == Reject(404) <==> !Sees(u, f.bucket))
            && (answer != Ok ==> g == f && answer in {Reject(404), Reject(403)})
            && (answer == Ok ==>
                  && g.status == C.Archived && !g.editable
                  && (g.versions, g.current, g.title, g.tags, g.bucket, g.createdBy, g.approver, g.requestedAt, g.approvedBy, g.approvedAt, g.notes) ==
                       (f.versions, f.current, f.title, f.tags, f.bucket, f.createdBy, f.approver, f.requestedAt, f.approvedBy, f.approvedAt, f.notes))
  {
  }

  /** Only an admin restores, and only an archived document; it starts over without any trace of
      its approval, with the versions and the labels it had. */
  lemma RestoreDoes(ctx: Context, f: File)
    ensures var (answer, g) := Step(f, Event(ctx, Restore));
            && (answer == Ok <==> ctx.actor.admin && f.status == C.Archived)
            && (answer == Reject(403) <==> !ctx.actor.admin)
            && (answer != Ok ==> g == f && answer in {Reject(403), Reject(409)})
            && (answer == Ok ==>
                  && g.status == C.Uploaded && g.editable
                  && g.approver.None? && g.approvedBy.None? && g.approvedAt.None? && g.requestedAt.None? && g.notes.None?
                  && (g.versions, g.current, g.title, g.tags, g.bucket, g.createdBy) ==
                       (f.versions, f.current, f.title, f.tags, f.bucket, f.createdBy))
  {
  }

  // ---------------------------------------------------------------- a PATCH

  predicate SendsSome(b: Body) {
    b.title.Some? || b.tags.Some? || b.bucket.Some? || b.editable.Some? || b.approver.Some?
  }

  predicate Nulls<T>(field: Option<Option<T>>) {
    field.Some? && field.value.None?
  }

  /** The body leaves the document open: it sets the flag, or does not send it and it is set. */
  predicate LeavesOpen(f: File, b: Body) {
    if b.editable.None? then f.editable else b.editable.value == Some(true)
  }

  /** The bucket the document is in afterwards as far as choosing an approver goes: a null does not
      count. */
  function Target(f: File, b: Body): Option<Id> {
    if b.bucket.Some? && b.bucket.value.Some? then b.bucket.value else f.bucket
  }

  /** The right to touch the document at all. */
  predicate MayTouch(f: File, u: User) {
    (Owns(f, u) || f.approver == Some(u.id)) && !HandsOff(f, u)
  }

  predicate MoveAllowed(ctx: Context, b: Body) {
    b.bucket.Some? && b.bucket.value.Some? ==> b.bucket.value.value in ctx.buckets && Sees(ctx.actor, b.bucket.value)
  }

  /** Another approver may be named: by anybody of an open matter, never the creator and never of a
      resolved one unless by an admin. */
  predicate NamingAllowed(ctx: Context, f: File, b: Body) {
    b.approver.Some? && b.approver.value.Some? ==>
      && Eligible(ctx, b.approver.value.value, Target(f, b))
      && (ctx.actor.admin || (f.status != C.Verified && f.status != C.Archived && f.createdBy != b.approver.value))
  }

  /** A PATCH goes through exactly for those who may touch the document, who unlock it only as admins,
      change no label of one that stays locked, move it only where they see, name only whom they may,
      and null no mandatory column. It then stores every field sent and no other. */
  lemma PatchDoes(ctx: Context, f: File, b: Body)
    requires SendsSome(b)
    ensures var (answer, g) := Step(f, Event(ctx, Patch(b))); var u := ctx.actor;
            && (answer == Ok <==>
                  && Sees(u, f.bucket) && MayTouch(f, u)
                  && (!f.editable && b.editable == Some(Some(true)) ==> u.admin)
                  && (b.title.Some? || b.tags.Some? || b.bucket.Some? ==> LeavesOpen(f, b))
                  && MoveAllowed(ctx, b) && NamingAllowed(ctx, f, b)
                  && !Nulls(b.title) && !Nulls(b.tags) && !Nulls(b.editable))
            && (answer == Reject(404) <==> !Sees(u, f.bucket))
            && (answer != Ok ==> g == f)
            && (answer == Ok ==>
                  && (b.title.Some? ==> Some(g.title) == b.title.value) && (b.title.None? ==> g.title == f.title)
                  && (b.tags.Some? ==> Some(g.tags) == b.tags.value) && (b.tags.None? ==> g.tags == f.tags)
                  && (b.editable.Some? ==> Some(g.editable) == b.editable.value) && (b.editable.None? ==> g.editable == f.editable)
                  && (b.bucket.Some? ==> g.bucket == b.bucket.value) && (b.bucket.None? ==> g.bucket == f.bucket)
                  && (b.approver.Some? ==> g.approver == b.approver.value) && (b.approver.None? ==> g.approver == f.approver)
                  && (g.status, g.versions, g.current, g.createdBy, g.requestedAt, g.approvedBy, g.approvedAt, g.notes) ==
                       (f.status, f.versions, f.current, f.createdBy, f.requestedAt, f.approvedBy, f.approvedAt, f.notes))
  {
  }

  /** A PATCH that sends nothing answers Ok to everybody who sees the document and changes nothing. */
  lemma EmptyPatchDoes(ctx: Context, f: File, b: Body)
    requires !SendsSome(b)
    ensures Step(f, Event(ctx, Patch(b))) == (if Sees(ctx.actor, f.bucket) then Ok else Reject(404), f)
  {
  }

  // ---------------------------------------------------------------- from asking to deciding

  /** Between being named and deciding: nobody changes the approver or the bucket, and no other
      decision, archiving or unarchiving is made. */
  predicate Waits(es: seq<Event>) {
    forall i :: 0 <= i < |es| ==>
      match es[i].request
      case NewVersion => true
      case Patch(b) => b.approver.None? && b.bucket.None?
      case RequestApproval(_) => true
      case Restore => true
      case _ => false
  }

  lemma {:induction false} WaitingStays(f: File, es: seq<Event>)
    requires f.status == C.PendingApproval && Waits(es)
    ensures var g := Run(f, es);
            (g.status, g.approver, g.bucket, g.createdBy) == (f.status, f.approver, f.bucket, f.createdBy)
    decreases |es|
  {
    if es != [] {
      var n := |es| - 1;
      WaitingStays(f, es[..n]);
      WaitingStep(Run(f, es[..n]), es[n]);
    }
  }

  lemma WaitingStep(f: File, e: Event)
    requires f.status == C.PendingApproval && Waits([e])
    ensures var g := Step(f, e).1;
            (g.status, g.approver, g.bucket, g.createdBy) == (f.status, f.approver, f.bucket, f.createdBy)
  {
    assert Waits([e]) && [e][0] == e;
  }

  /** Main theorem: whoever approval was asked of decides, whatever uploads, edits and further
      requests come in between, exactly unless he uploaded the document and is no admin. An admin
      can name the uploader; only an admin gets the document out of that. */
  lemma NamedApproverDecidesExactly(f: File, ask: Context, a: Id, mid: seq<Event>, ctx: Context, verified: bool, notes: Option<string>)
    requires Step(f, Event(ask, RequestApproval(a))).0 == Ok && Waits(mid)
    requires ctx.actor.id == a && ctx.actor == ask.users[a]
    ensures Step(Run(Step(f, Event(ask, RequestApproval(a))).1, mid), Event(ctx, Review(verified, notes))).0 == Ok <==>
              (f.createdBy == Some(a) ==> ctx.actor.admin)
    ensures f.createdBy == Some(a) ==> ask.actor.admin
  {
    AskDoes(ask, f, a);
    WaitingStays(Step(f, Event(ask, RequestApproval(a))).1, mid);
    ReviewDoes(ctx, Run(Step(f, Event(ask, RequestApproval(a))).1, mid), verified, notes);
  }
}
