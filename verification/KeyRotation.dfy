/** The key hierarchy and the rotation of its root (app/encryption.py, app/routers/docvault.py,
    ops/kubera-rotate-root-kek.py), over an ideal AEAD: a box opens only with the key and nonce it
    was sealed with (sections 7.1 and 7.2 of NIST SP 800-38D). */
module KeyRotation {
  import opened Prelude

  type Id = nat

  /** A unit of stored data: a plain byte, or a sealed box standing for ciphertext and tag. */
  datatype Unit = Byte(b: nat) | Sealed(key: Bytes, nonce: Bytes, plain: Bytes)
  type Bytes = seq<Unit>

  const NONCE_LENGTH: nat := 12

  /** Twelve units, as `os.urandom(12)` yields. */
  type Nonce = n: Bytes | |n| == 12 witness seq(12, _ => Byte(0))

  function Encrypt(key: Bytes, nonce: Bytes, plain: Bytes): Bytes {
    [Sealed(key, nonce, plain)]
  }

  /** `None` is InvalidTag. */
  function Decrypt(key: Bytes, nonce: Bytes, cipher: Bytes): Option<Bytes> {
    if |cipher| == 1 && cipher[0].Sealed? && cipher[0].key == key && cipher[0].nonce == nonce
    then Some(cipher[0].plain) else None
  }

  datatype KeyRow = KeyRow(encryptedKek: Bytes, nonce: Bytes)
  datatype VersionRow = VersionRow(company: Id, encryptedDek: Bytes, dekNonce: Bytes, path: Id)
  datatype SmtpRow = SmtpRow(password: Bytes, nonce: Bytes)

  /** Company keys, document versions and mail passwords in the database, files on disk, and the
      root key in the environment. */
  datatype Vault = Vault(
    root: Bytes, keys: map<Id, KeyRow>, versions: map<Id, VersionRow>, smtp: map<Id, SmtpRow>, disk: map<Id, Bytes>)

  // ---------------------------------------------------------------- reading and writing

  function CompanyKek(keys: map<Id, KeyRow>, root: Bytes, company: Id): Option<Bytes> {
    if company !in keys then None else Decrypt(root, keys[company].nonce, keys[company].encryptedKek)
  }

  /** A file on disk opened with a document key: the first twelve units are the nonce. */
  function OpenFile(content: Bytes, dek: Bytes): Option<Bytes> {
    if |content| < NONCE_LENGTH then None
    else Decrypt(dek, content[..NONCE_LENGTH], content[NONCE_LENGTH..])
  }

  /** Download: root key, company key, document key, file. */
  function ReadVersion(v: Vault, id: Id): Option<Bytes> {
    if id !in v.versions || v.versions[id].path !in v.disk then None
    else
      var row := v.versions[id];
      var kek := CompanyKek(v.keys, v.root, row.company);
      if kek.None? then None
      else
        var dek := Decrypt(kek.value, row.dekNonce, row.encryptedDek);
        if dek.None? then None else OpenFile(v.disk[row.path], dek.value)
  }

  function ReadSmtp(v: Vault, company: Id): Option<Bytes> {
    var kek := CompanyKek(v.keys, v.root, company);
    if company !in v.smtp || kek.None? then None
    else Decrypt(kek.value, v.smtp[company].nonce, v.smtp[company].password)
  }

  function AddCompany(v: Vault, company: Id, kek: Bytes, nonce: Nonce): (Answer, Vault) {
    if company in v.keys then (Reject(409), v)
    else (Ok, v.(keys := v.keys[company := KeyRow(Encrypt(v.root, nonce, kek), nonce)]))
  }

  /** `handle_file_upload`: a fresh document key, the file written as nonce then ciphertext. */
  function UploadFile(v: Vault, id: Id, company: Id, path: Id, data: Bytes, dek: Bytes, kekNonce: Nonce, fileNonce: Nonce): (Answer, Vault) {
    var kek := CompanyKek(v.keys, v.root, company);
    if kek.None? || id in v.versions || path in v.disk then (Reject(500), v)
    else (Ok, v.(versions := v.versions[id := VersionRow(company, Encrypt(kek.value, kekNonce, dek), kekNonce, path)],
                 disk := v.disk[path := fileNonce + Encrypt(dek, fileNonce, data)]))
  }

  function SetSmtp(v: Vault, company: Id, password: Bytes, nonce: Nonce): (Answer, Vault) {
    var kek := CompanyKek(v.keys, v.root, company);
    if kek.None? then (Reject(500), v)
    else (Ok, v.(smtp := v.smtp[company := SmtpRow(Encrypt(kek.value, nonce, password), nonce)]))
  }

  // ---------------------------------------------------------------- rotation

  predicate AllOpen(keys: map<Id, KeyRow>, root: Bytes) {
    forall c :: c in keys ==> CompanyKek(keys, root, c).Some?
  }

  /** One company key sealed again under the next root. */
  function NewRow(row: KeyRow, current: Bytes, next: Bytes, nonce: Nonce): Option<KeyRow> {
    var raw := Decrypt(current, row.nonce, row.encryptedKek);
    if raw.None? then None else Some(KeyRow(Encrypt(next, nonce, raw.value), nonce))
  }

  function Rewrapped(keys: map<Id, KeyRow>, current: Bytes, next: Bytes, nonces: Id -> Nonce): map<Id, KeyRow>
    requires AllOpen(keys, current)
  {
    map c | c in keys ::
      assert CompanyKek(keys, current, c).Some?;
      NewRow(keys[c], current, next, nonces(c)).value
  }

  /** The exit status and the key table after the script. */
  function Rotate(keys: map<Id, KeyRow>, current: Bytes, next: Bytes, nonces: Id -> Nonce, apply: bool): (nat, map<Id, KeyRow>) {
    if current == next || !AllOpen(keys, current) then (1, keys)
    else if !apply then (0, keys)
    else (0, Rewrapped(keys, current, next, nonces))
  }

  /** The first loop: unwrap every key, wrap it again and check the round trip, all in memory. */
  method RewrapInMemory(keys: map<Id, KeyRow>, current: Bytes, next: Bytes, rows: seq<Id>, nonces: Id -> Nonce)
    returns (ok: bool, updates: seq<KeyRow>)
    requires forall i :: 0 <= i < |rows| ==> rows[i] in keys
    ensures ok <==> forall i :: 0 <= i < |rows| ==> CompanyKek(keys, current, rows[i]).Some?
    ensures ok ==> |updates| == |rows|
    ensures ok ==> forall i :: 0 <= i < |rows| ==> Some(updates[i]) == NewRow(keys[rows[i]], current, next, nonces(rows[i]))
  {
    updates := [];
    for i := 0 to |rows|
      invariant |updates| == i
      invariant forall k :: 0 <= k < i ==> CompanyKek(keys, current, rows[k]).Some?
      invariant forall k :: 0 <= k < i ==> Some(updates[k]) == NewRow(keys[rows[k]], current, next, nonces(rows[k]))
    {
      var row, nonce := keys[rows[i]], nonces(rows[i]);
      var raw := Decrypt(current, row.nonce, row.encryptedKek);
      if raw.None? {
        assert CompanyKek(keys, current, rows[i]).None?;
        return false, [];
      }
      var encrypted := Encrypt(next, nonce, raw.value);
      if Decrypt(next, nonce, encrypted) != raw { return false, []; }
      updates := updates + [KeyRow(encrypted, nonce)];
    }
    return true, updates;
  }

  class KeyTable {
    var keys: map<Id, KeyRow>

    constructor ()
      ensures keys == map[]
    {
      keys := map[];
    }

    /** The second loop: write the re-wrapped rows. */
    method WriteRows(rows: seq<Id>, updates: seq<KeyRow>)
      requires |updates| == |rows|
      requires forall i, j :: 0 <= i < j < |rows| ==> rows[i] != rows[j]
      requires forall c :: c in rows <==> c in keys
      modifies this
      ensures keys.Keys == old(keys).Keys
      ensures forall k :: 0 <= k < |rows| ==> rows[k] in keys && keys[rows[k]] == updates[k]
    {
      for i := 0 to |rows|
        invariant keys.Keys == old(keys).Keys
        invariant forall k :: 0 <= k < i ==> rows[k] in keys && keys[rows[k]] == updates[k]
      {
        assert rows[i] in rows;
        keys := keys[rows[i] := updates[i]];
      }
    }

    /** `rotate` behind `main`'s refusal of two equal keys. */
    method RotateRoot(current: Bytes, next: Bytes, rows: seq<Id>, nonces: Id -> Nonce, apply: bool) returns (status: nat)
      requires forall c :: c in rows <==> c in keys
      requires forall i, j :: 0 <= i < j < |rows| ==> rows[i] != rows[j]
      modifies this
      ensures (status, keys) == Rotate(old(keys), current, next, nonces, apply)
    {
      if current == next { return 1; }
      assert forall i :: 0 <= i < |rows| ==> rows[i] in rows;
      var ok, updates := RewrapInMemory(keys, current, next, rows, nonces);
      AllRowsOpen(keys, current, rows);
      if !ok { return 1; }
      if !apply { return 0; }
      WriteRows(rows, updates);
      assert keys == Rewrapped(old(keys), current, next, nonces) by {
        forall c | c in keys ensures Some(keys[c]) == NewRow(old(keys)[c], current, next, nonces(c)) {
          assert c in rows;
          var k :| 0 <= k < |rows| && rows[k] == c;
        }
      }
      return 0;
    }
  }

  lemma AllRowsOpen(keys: map<Id, KeyRow>, root: Bytes, rows: seq<Id>)
    requires forall c :: c in rows <==> c in keys
    ensures AllOpen(keys, root) <==> forall i :: 0 <= i < |rows| ==> CompanyKek(keys, root, rows[i]).Some?
  {
    if forall i :: 0 <= i < |rows| ==> CompanyKek(keys, root, rows[i]).Some? {
      forall c | c in keys ensures CompanyKek(keys, root, c).Some? {
        assert c in rows;
        var k :| 0 <= k < |rows| && rows[k] == c;
      }
    } else {
      var i :| 0 <= i < |rows| && CompanyKek(keys, root, rows[i]).None?;
      assert rows[i] in rows;
    }
  }

  /** Main theorem: the company keys that come out are the same under the new root; and when they
      are not all readable under the old one, or nothing is applied, no row changes. */
  lemma RotationKeepsCompanyKeys(keys: map<Id, KeyRow>, from: Bytes, next: Bytes, nonces: Id -> Nonce, apply: bool, c: Id)
    ensures var (status, after) := Rotate(keys, from, next, nonces, apply);
            && (status == 0 && apply ==> CompanyKek(after, next, c) == CompanyKek(keys, from, c))
            && (status == 0 && apply && c in keys ==> CompanyKek(after, from, c) == None)
            && (after != keys ==> status == 0 && apply && AllOpen(keys, from))
            && (status == 0 <==> from != next && AllOpen(keys, from))
  {
    if c in keys && AllOpen(keys, from) { assert CompanyKek(keys, from, c).Some?; }
  }

  /** The deployment after the operator rotates and, on success, puts the new key in place. */
  function RotateVault(v: Vault, claimed: Bytes, next: Bytes, nonces: Id -> Nonce, apply: bool): Vault {
    var r := Rotate(v.keys, claimed, next, nonces, apply);
    if r.0 == 0 && apply then v.(keys := r.1, root := next) else v
  }

  /** Main theorem: every document and every mail password reads the same after any rotation,
      accepted or refused, even one started with the wrong current key. */
  lemma RotationPreservesReads(v: Vault, claimed: Bytes, next: Bytes, nonces: Id -> Nonce, apply: bool, id: Id)
    requires AllOpen(v.keys, v.root)
    ensures AllOpen(RotateVault(v, claimed, next, nonces, apply).keys, RotateVault(v, claimed, next, nonces, apply).root)
    ensures ReadVersion(RotateVault(v, claimed, next, nonces, apply), id) == ReadVersion(v, id)
    ensures ReadSmtp(RotateVault(v, claimed, next, nonces, apply), id) == ReadSmtp(v, id)
  {
    var after := RotateVault(v, claimed, next, nonces, apply);
    forall c ensures CompanyKek(after.keys, after.root, c) == CompanyKek(v.keys, v.root, c) {
      RotationKeepsCompanyKeys(v.keys, claimed, next, nonces, apply, c);
      if c in v.keys && AllOpen(v.keys, claimed) {
        assert CompanyKek(v.keys, claimed, c).Some? && CompanyKek(v.keys, v.root, c).Some?;
        OpensOneWay(v.keys, claimed, v.root, c);
      }
    }
    forall c | c in after.keys ensures CompanyKek(after.keys, after.root, c).Some? {
      assert CompanyKek(v.keys, v.root, c).Some?;
    }
  }

  /** A company key opens under one root only, and then to one value. */
  lemma OpensOneWay(keys: map<Id, KeyRow>, a: Bytes, b: Bytes, c: Id)
    requires CompanyKek(keys, a, c).Some? && CompanyKek(keys, b, c).Some?
    ensures CompanyKek(keys, a, c) == CompanyKek(keys, b, c) && a == b
  {
  }

  // ---------------------------------------------------------------- every run

  datatype Event =
    | NewCompany(company: Id, kek: Bytes, kekNonce: Nonce)
    | Upload(id: Id, owner: Id, path: Id, data: Bytes, dek: Bytes, dekNonce: Nonce, fileNonce: Nonce)
    | Smtp(mailer: Id, password: Bytes, mailNonce: Nonce)
    | RotateKeys(claimed: Bytes, next: Bytes, nonces: Id -> Nonce, apply: bool)

  function Step(v: Vault, e: Event): (Answer, Vault) {
    match e
    case NewCompany(c, kek, n) => AddCompany(v, c, kek, n)
    case Upload(id, c, p, data, dek, kn, fn) => UploadFile(v, id, c, p, data, dek, kn, fn)
    case Smtp(c, p, n) => SetSmtp(v, c, p, n)
    case RotateKeys(current, next, nonces, apply) => (Ok, RotateVault(v, current, next, nonces, apply))
  }

  function Run(root: Bytes, es: seq<Event>): Vault {
    if es == [] then Vault(root, map[], map[], map[], map[]) else Step(Run(root, es[..|es| - 1]), es[|es| - 1]).1
  }

  /** What has been uploaded successfully in a run. */
  function Stored(root: Bytes, es: seq<Event>): map<Id, Bytes> {
    if es == [] then map[]
    else
      var before, e := Run(root, es[..|es| - 1]), es[|es| - 1];
      if e.Upload? && Step(before, e).0 == Ok then Stored(root, es[..|es| - 1])[e.id := e.data] else Stored(root, es[..|es| - 1])
  }

  predicate Faithful(v: Vault, stored: map<Id, Bytes>) {
    && AllOpen(v.keys, v.root)
    && v.versions.Keys == stored.Keys
    && forall id :: id in stored ==> ReadVersion(v, id) == Some(stored[id])
  }

  /** An upload reads back as what was sent. */
  lemma UploadReadsBack(v: Vault, id: Id, company: Id, path: Id, data: Bytes, dek: Bytes, kekNonce: Nonce, fileNonce: Nonce)
    requires UploadFile(v, id, company, path, data, dek, kekNonce, fileNonce).0 == Ok
    ensures ReadVersion(UploadFile(v, id, company, path, data, dek, kekNonce, fileNonce).1, id) == Some(data)
  {
    var content := fileNonce + Encrypt(dek, fileNonce, data);
    assert content[..NONCE_LENGTH] == fileNonce && content[NONCE_LENGTH..] == Encrypt(dek, fileNonce, data);
  }

  lemma UploadKeepsOthers(v: Vault, id: Id, company: Id, path: Id, data: Bytes, dek: Bytes, kekNonce: Nonce, fileNonce: Nonce, other: Id)
    requires UploadFile(v, id, company, path, data, dek, kekNonce, fileNonce).0 == Ok
    requires other != id && ReadVersion(v, other).Some?
    ensures ReadVersion(UploadFile(v, id, company, path, data, dek, kekNonce, fileNonce).1, other) == ReadVersion(v, other)
  {
  }

  lemma CompanyKeepsReads(v: Vault, company: Id, kek: Bytes, nonce: Nonce, id: Id)
    requires AllOpen(v.keys, v.root) && ReadVersion(v, id).Some?
    ensures AllOpen(AddCompany(v, company, kek, nonce).1.keys, v.root)
    ensures ReadVersion(AddCompany(v, company, kek, nonce).1, id) == ReadVersion(v, id)
  {
  }

  lemma CompanyKeepsOpen(v: Vault, company: Id, kek: Bytes, nonce: Nonce)
    requires AllOpen(v.keys, v.root)
    ensures AllOpen(AddCompany(v, company, kek, nonce).1.keys, v.root)
  {
    var after := AddCompany(v, company, kek, nonce).1;
    forall c | c in after.keys ensures CompanyKek(after.keys, v.root, c).Some? {
      if c in v.keys { assert CompanyKek(v.keys, v.root, c).Some?; }
    }
  }

  lemma UploadIsFaithful(v: Vault, e: Event, stored: map<Id, Bytes>)
    requires Faithful(v, stored) && e.Upload? && Step(v, e).0 == Ok
    ensures Faithful(Step(v, e).1, stored[e.id := e.data])
  {
    UploadReadsBack(v, e.id, e.owner, e.path, e.data, e.dek, e.dekNonce, e.fileNonce);
    forall other | other in stored && other != e.id ensures ReadVersion(Step(v, e).1, other) == Some(stored[other]) {
      UploadKeepsOthers(v, e.id, e.owner, e.path, e.data, e.dek, e.dekNonce, e.fileNonce, other);
    }
  }

  lemma CompanyIsFaithful(v: Vault, e: Event, stored: map<Id, Bytes>)
    requires Faithful(v, stored) && e.NewCompany?
    ensures Faithful(Step(v, e).1, stored)
  {
    CompanyKeepsOpen(v, e.company, e.kek, e.kekNonce);
    forall id | id in stored ensures ReadVersion(Step(v, e).1, id) == Some(stored[id]) {
      CompanyKeepsReads(v, e.company, e.kek, e.kekNonce, id);
    }
  }

  lemma RotationIsFaithful(v: Vault, e: Event, stored: map<Id, Bytes>)
    requires Faithful(v, stored) && e.RotateKeys?
    ensures Faithful(Step(v, e).1, stored)
  {
    RotationPreservesReads(v, e.claimed, e.next, e.nonces, e.apply, 0);
    forall id | id in stored ensures ReadVersion(Step(v, e).1, id) == Some(stored[id]) {
      RotationPreservesReads(v, e.claimed, e.next, e.nonces, e.apply, id);
    }
  }

  lemma SmtpIsFaithful(v: Vault, e: Event, stored: map<Id, Bytes>)
    requires Faithful(v, stored) && e.Smtp?
    ensures Faithful(Step(v, e).1, stored)
  {
  }

  lemma StepIsFaithful(v: Vault, e: Event, stored: map<Id, Bytes>)
    requires Faithful(v, stored)
    ensures Faithful(Step(v, e).1, if e.Upload? && Step(v, e).0 == Ok then stored[e.id := e.data] else stored)
  {
    match e
    case NewCompany(_, _, _) => CompanyIsFaithful(v, e, stored);
    case Upload(_, _, _, _, _, _, _) => if Step(v, e).0 == Ok { UploadIsFaithful(v, e, stored); }
    case Smtp(_, _, _) => SmtpIsFaithful(v, e, stored);
    case RotateKeys(_, _, _, _) => RotationIsFaithful(v, e, stored);
  }

  /** Main theorem: in every run of company creations, uploads, mail settings and rotations (dry,
      failed or applied, any number of them), every uploaded file decrypts to exactly what was
      uploaded. */
  lemma {:induction false} UploadsStayReadable(root: Bytes, es: seq<Event>)
    ensures Faithful(Run(root, es), Stored(root, es))
    decreases |es|
  {
    if es != [] {
      UploadsStayReadable(root, es[..|es| - 1]);
      StepIsFaithful(Run(root, es[..|es| - 1]), es[|es| - 1], Stored(root, es[..|es| - 1]));
    }
  }
}
