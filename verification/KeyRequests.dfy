/** What each request on the key hierarchy answers, and what its reader gets back. */
module KeyRequests {
  import opened Prelude
  import opened KeyRotation

  /** The company's key is there and opens under the root in place. */
  predicate HasKey(v: Vault, company: Id) {
    CompanyKek(v.keys, v.root, company).Some?
  }

  /** A company gets a key once; it opens to what was generated. */
  lemma CompanyDoes(v: Vault, company: Id, kek: Bytes, nonce: Nonce)
    ensures var (answer, after) := Step(v, NewCompany(company, kek, nonce));
            && (answer == Ok <==> company !in v.keys)
            && (answer != Ok ==> after == v)
            && (answer == Ok ==>
                  && CompanyKek(after.keys, after.root, company) == Some(kek) && SameBut(v.keys, after.keys, company)
                  && after == v.(keys := after.keys))
  {
  }

  /** An upload goes through for a company with a key, under a new id and path; it adds one version of
      that company and one file, which reads back as sent. */
  lemma UploadDoes(v: Vault, id: Id, company: Id, path: Id, data: Bytes, dek: Bytes, kekNonce: Nonce, fileNonce: Nonce)
    ensures var (answer, after) := Step(v, Upload(id, company, path, data, dek, kekNonce, fileNonce));
            && (answer == Ok <==> HasKey(v, company) && id !in v.versions && path !in v.disk)
            && (answer != Ok ==> after == v)
            && (answer == Ok ==>
                  && ReadVersion(after, id) == Some(data)
                  && id in after.versions && after.versions[id].company == company && after.versions[id].path == path
                  && SameBut(v.versions, after.versions, id) && SameBut(v.disk, after.disk, path)
                  && after == v.(versions := after.versions, disk := after.disk))
  {
    if UploadFile(v, id, company, path, data, dek, kekNonce, fileNonce).0 == Ok {
      UploadReadsBack(v, id, company, path, data, dek, kekNonce, fileNonce);
    }
  }

  /** A mail password is stored for a company with a key, in place of an older one, and reads back. */
  lemma SmtpDoes(v: Vault, company: Id, password: Bytes, nonce: Nonce)
    ensures var (answer, after) := Step(v, Smtp(company, password, nonce));
            && (answer == Ok <==> HasKey(v, company))
            && (answer != Ok ==> after == v)
            && (answer == Ok ==>
                  ReadSmtp(after, company) == Some(password) && SameBut(v.smtp, after.smtp, company) && after == v.(smtp := after.smtp))
  {
  }

  /** A rotation puts the next root in place exactly when it is applied, differs from the key it was
      started with, and that key opens every company key; these then open under the next root to what
      they were. Otherwise, and on a dry run, nothing changes. */
  lemma RotationDoes(v: Vault, claimed: Bytes, next: Bytes, nonces: Id -> Nonce, apply: bool)
    ensures var after := Step(v, RotateKeys(claimed, next, nonces, apply)).1;
            && (apply && claimed != next && (forall c :: c in v.keys ==> CompanyKek(v.keys, claimed, c).Some?) ==>
                  && after.root == next && after.keys.Keys == v.keys.Keys
                  && (forall c :: CompanyKek(after.keys, next, c) == CompanyKek(v.keys, claimed, c))
                  && after == v.(keys := after.keys, root := next))
            && (!(apply && claimed != next && (forall c :: c in v.keys ==> CompanyKek(v.keys, claimed, c).Some?)) ==> after == v)
  {
    forall c ensures var (status, after) := Rotate(v.keys, claimed, next, nonces, apply);
                     status == 0 && apply ==> CompanyKek(after, next, c) == CompanyKek(v.keys, claimed, c)
    {
      RotationKeepsCompanyKeys(v.keys, claimed, next, nonces, apply, c);
    }
  }

  // ---------------------------------------------------------------- the reader must belong

  /** A key that is not the company's opens none of its files: without the company's own key a version
      does not read. */
  lemma OnlyItsCompanyReads(v: Vault, id: Id, other: Bytes)
    requires ReadVersion(v, id).Some? && Some(other) != CompanyKek(v.keys, v.root, v.versions[id].company)
    ensures Decrypt(other, v.versions[id].dekNonce, v.versions[id].encryptedDek).None?
  {
  }

  // ---------------------------------------------------------------- mail passwords in every run

  /** The last mail password a company set successfully in a run. */
  function Mailed(root: Bytes, es: seq<Event>, company: Id): Option<Bytes> {
    if es == [] then None
    else
      var before, e := Run(root, es[..|es| - 1]), es[|es| - 1];
      if e.Smtp? && e.mailer == company && HasKey(before, company) then Some(e.password)
      else Mailed(root, es[..|es| - 1], company)
  }

  lemma MailStep(v: Vault, e: Event, company: Id)
    requires AllOpen(v.keys, v.root) && (company in v.smtp ==> HasKey(v, company))
    ensures var after := Step(v, e).1;
            && (company in after.smtp ==> HasKey(after, company))
            && ReadSmtp(after, company) == if e.Smtp? && e.mailer == company && HasKey(v, company) then Some(e.password) else ReadSmtp(v, company)
  {
    match e
    case NewCompany(c, kek, n) => CompanyDoes(v, c, kek, n);
    case Upload(id, c, p, data, dek, kn, fn) => UploadDoes(v, id, c, p, data, dek, kn, fn);
    case Smtp(c, p, n) => SmtpDoes(v, c, p, n);
    case RotateKeys(claimed, next, nonces, apply) =>
      MailRotates(v, claimed, next, nonces, apply, company);
  }

  lemma MailRotates(v: Vault, claimed: Bytes, next: Bytes, nonces: Id -> Nonce, apply: bool, company: Id)
    requires AllOpen(v.keys, v.root) && (company in v.smtp ==> HasKey(v, company))
    ensures var after := RotateVault(v, claimed, next, nonces, apply);
            (company in after.smtp ==> HasKey(after, company)) && ReadSmtp(after, company) == ReadSmtp(v, company)
  {
    RotationKeepsKeys(v, claimed, next, nonces, apply, company);
  }

  lemma RotationKeepsKeys(v: Vault, claimed: Bytes, next: Bytes, nonces: Id -> Nonce, apply: bool, company: Id)
    requires AllOpen(v.keys, v.root)
    ensures var after := RotateVault(v, claimed, next, nonces, apply);
            CompanyKek(after.keys, after.root, company) == CompanyKek(v.keys, v.root, company)
  {
    RotationKeepsCompanyKeys(v.keys, claimed, next, nonces, apply, company);
    if company in v.keys && AllOpen(v.keys, claimed) {
      assert CompanyKek(v.keys, claimed, company).Some? && CompanyKek(v.keys, v.root, company).Some?;
      OpensOneWay(v.keys, claimed, v.root, company);
    }
  }

  /** Main theorem: in every run, rotations included, a company's mail password is the last it set. */
  lemma {:induction false} MailStaysReadable(root: Bytes, es: seq<Event>, company: Id)
    ensures ReadSmtp(Run(root, es), company) == Mailed(root, es, company)
    ensures company in Run(root, es).smtp ==> HasKey(Run(root, es), company)
    decreases |es|
  {
    if es != [] {
      var prev := es[..|es| - 1];
      MailStaysReadable(root, prev, company);
      UploadsStayReadable(root, prev);
      MailStep(Run(root, prev), es[|es| - 1], company);
    }
  }
}
