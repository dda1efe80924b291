// Encrypted backups of the artifact state and their restore into absent targets
// (src/folio_lattice/backup.py). Authentication and encryption are free
// constructors: what was sealed with a key is opened with that key alone. The
// tar archive is the list of its members, the manifest the value it stands for.
module Backup {
  import opened Common

  const MAX_BACKUP_BLOBS := 100_000
  const MAX_BACKUP_BYTES := 8 * 1024 * 1024 * 1024
  const MAX_MANIFEST_BYTES := 16 * 1024 * 1024
  const MAX_PAYLOAD_BYTES := MAX_BACKUP_BYTES + MAX_BACKUP_BLOBS * 2_048 + 16 * 1024 * 1024

  // A path inside the archive, split at its slashes.
  type Name = seq<string>

  type Files = map<Name, Bytes>

  const DATABASE_NAME: Name := ["metadata.sqlite"]
  const BLOBS_DIR_NAME := "blobs"

  datatype Entry = Entry(path: Name, sha256: Digest, size: nat)

  datatype WrappedKey = WrappedKey(key: nat, keyRef: string, dataKey: nat)

  // `facts` stands for the schema signature, the table counts and the tenant scope.
  datatype Manifest = Manifest(
    backupId: string, facts: string, databaseSize: nat, databaseSha256: Digest,
    entries: seq<Entry>, count: nat, bytes: nat, nonce: nat, recoveryRef: string, wrapped: WrappedKey)

  datatype Tag = Tag(key: nat, manifest: Manifest)

  datatype SignedManifest = SignedManifest(base: Manifest, tag: Tag)

  datatype Member = Member(name: Name, regular: bool, content: Bytes)

  datatype Payload = Payload(nonce: nat, key: nat, associated: Manifest, members: seq<Member>)

  datatype BackupDir = BackupDir(manifest: Option<SignedManifest>, payload: Option<Payload>, others: set<string>)

  // Keys by purpose; a missing key is one the provider cannot resolve.
  datatype Provider = Provider(manifestKey: Option<nat>, recoveryKeys: map<string, nat>)

  // What is computed elsewhere: the checks SQLite and the service make of a
  // database, the blob hashes its versions name, and sizes on disk.
  datatype Library = Library(
    sound: Bytes -> bool,
    facts: Bytes -> string,
    referenced: Bytes -> seq<string>,
    ready: (Bytes, map<string, Bytes>) -> bool,
    manifestSize: SignedManifest -> nat,
    payloadSize: Payload -> nat)

  // SELECT DISTINCT, and a ciphertext no shorter than its nonce and tag.
  ghost predicate Faithful(lib: Library) {
    && (forall db :: Distinct(lib.referenced(db)))
    && (forall p :: lib.payloadSize(p) >= 28)
  }

  datatype Error = NotSound | BadHash | TooManyBlobs | BlobMissing | TooManyBytes | PayloadTooLarge
                 | BadManifest | BadKey | BadPayload | BadArchive | BadContents | TargetsExist | Failed

  predicate IsHex(c: char) {
    '0' <= c <= '9' || 'a' <= c <= 'f'
  }

  predicate IsBlobHash(h: string) {
    |h| == 64 && forall i :: 0 <= i < 64 ==> IsHex(h[i])
  }

  function BlobName(h: string): Name
    requires IsBlobHash(h)
  {
    [BLOBS_DIR_NAME, h[..2], h]
  }

  // ------------------------------------------------------------------ create

  // The entries and the archive members for the referenced blobs, in order.
  datatype Collected = Collected(entries: seq<Entry>, members: seq<Member>, bytes: nat)

  function Collect(hashes: seq<string>, blobs: map<string, Bytes>): (r: Result<Collected, Error>)
    ensures r.Ok? ==> |r.value.entries| == |r.value.members| == |hashes|
  {
    if hashes == [] then Ok(Collected([], [], 0))
    else
      var h := hashes[|hashes| - 1];
      match Collect(hashes[..|hashes| - 1], blobs)
      case Err(e) => Err(e)
      case Ok(c) =>
        if !IsBlobHash(h) then Err(BadHash)
        else if h !in blobs then Err(BlobMissing)
        else if c.bytes + |blobs[h]| > MAX_BACKUP_BYTES then Err(TooManyBytes)
        else Ok(Collected(c.entries + [Entry(BlobName(h), Sha256(blobs[h]), |blobs[h]|)],
                          c.members + [Member(BlobName(h), true, blobs[h])],
                          c.bytes + |blobs[h]|))
  }

  lemma {:induction false} CollectPrefix(hashes: seq<string>, blobs: map<string, Bytes>, k: nat)
    requires k <= |hashes| && Collect(hashes[..k], blobs).Err?
    ensures Collect(hashes, blobs) == Collect(hashes[..k], blobs)
  {
    if k < |hashes| {
      assert hashes[..|hashes| - 1][..k] == hashes[..k];
      CollectPrefix(hashes[..|hashes| - 1], blobs, k);
    } else {
      assert hashes[..k] == hashes;
    }
  }

  /** The loop over the referenced blobs. */
  method CollectBlobs(hashes: seq<string>, blobs: map<string, Bytes>) returns (r: Result<Collected, Error>)
    ensures r == Collect(hashes, blobs)
  {
    var c := Collected([], [], 0);
    for i := 0 to |hashes|
      invariant Collect(hashes[..i], blobs) == Ok(c)
    {
      var h := hashes[i];
      assert hashes[..i + 1][..i] == hashes[..i];
      if !IsBlobHash(h) {
        CollectPrefix(hashes, blobs, i + 1);
        return Err(BadHash);
      }
      if h !in blobs {
        CollectPrefix(hashes, blobs, i + 1);
        return Err(BlobMissing);
      }
      var size := |blobs[h]|;
      if c.bytes + size > MAX_BACKUP_BYTES {
        CollectPrefix(hashes, blobs, i + 1);
        return Err(TooManyBytes);
      }
      c := Collected(c.entries + [Entry(BlobName(h), Sha256(blobs[h]), size)],
                     c.members + [Member(BlobName(h), true, blobs[h])], c.bytes + size);
    }
    assert hashes[..|hashes|] == hashes;
    r := Ok(c);
  }

  // What is drawn or looked up for one backup.
  datatype Drawn = Drawn(backupId: string, dataKey: nat, nonce: nat, recoveryRef: string, recoveryKey: nat, manifestKey: nat)

  function ManifestOf(lib: Library, database: Bytes, c: Collected, d: Drawn): Manifest {
    Manifest(d.backupId, lib.facts(database), |database|, Sha256(database), c.entries, |c.entries|, c.bytes, d.nonce,
             d.recoveryRef, WrappedKey(d.recoveryKey, d.recoveryRef, d.dataKey))
  }

  function PayloadOf(lib: Library, database: Bytes, c: Collected, d: Drawn): Payload {
    Payload(d.nonce, d.dataKey, ManifestOf(lib, database, c, d), [Member(DATABASE_NAME, true, database)] + c.members)
  }

  function SignedOf(lib: Library, database: Bytes, c: Collected, d: Drawn): SignedManifest {
    var base := ManifestOf(lib, database, c, d);
    SignedManifest(base, Tag(d.manifestKey, base))
  }

  function Created(lib: Library, database: Bytes, blobs: map<string, Bytes>, d: Drawn): Result<BackupDir, Error> {
    if !lib.sound(database) then Err(NotSound)
    else if exists h :: h in lib.referenced(database) && !IsBlobHash(h) then Err(BadHash)
    else if |lib.referenced(database)| > MAX_BACKUP_BLOBS then Err(TooManyBlobs)
    else
      match Collect(lib.referenced(database), blobs)
      case Err(e) => Err(e)
      case Ok(c) =>
        if lib.payloadSize(PayloadOf(lib, database, c, d)) > MAX_PAYLOAD_BYTES then Err(PayloadTooLarge)
        else Ok(BackupDir(Some(SignedOf(lib, database, c, d)), Some(PayloadOf(lib, database, c, d)), {}))
  }

  /** `create_backup`, from the snapshot of the database on. */
  method CreateBackup(lib: Library, database: Bytes, blobs: map<string, Bytes>, d: Drawn) returns (r: Result<BackupDir, Error>)
    ensures r == Created(lib, database, blobs, d)
  {
    if !lib.sound(database) {
      return Err(NotSound);
    }
    var hashes := lib.referenced(database);
    for i := 0 to |hashes|
      invariant forall j :: 0 <= j < i ==> IsBlobHash(hashes[j])
    {
      if !IsBlobHash(hashes[i]) {
        return Err(BadHash);
      }
    }
    if |hashes| > MAX_BACKUP_BLOBS {
      return Err(TooManyBlobs);
    }
    var collected := CollectBlobs(hashes, blobs);
    if collected.Err? {
      return Err(collected.error);
    }
    var payload := PayloadOf(lib, database, collected.value, d);
    if lib.payloadSize(payload) > MAX_PAYLOAD_BYTES {
      return Err(PayloadTooLarge);
    }
    r := Ok(BackupDir(Some(SignedOf(lib, database, collected.value, d)), Some(payload), {}));
  }

  // ----------------------------------------------------------------- extract

  predicate SafePart(p: string) {
    p != "" && p != "." && p != ".." && forall i :: 0 <= i < |p| ==> p[i] != '\\' && p[i] != '/'
  }

  predicate SafeName(n: Name) {
    n != [] && forall i :: 0 <= i < |n| ==> SafePart(n[i])
  }

  predicate IsBlobName(n: Name) {
    |n| == 3 && n[0] == BLOBS_DIR_NAME && IsBlobHash(n[2]) && n[1] == n[2][..2]
  }

  // The state of the loop over the archive: what was written, and the two counts.
  datatype Unpacked = Unpacked(files: Files, count: nat, bytes: nat)

  function Unpack(u: Unpacked, m: Member): Result<Unpacked, Error> {
    if !SafeName(m.name) || m.name in u.files || !m.regular then Err(BadArchive)
    else if m.name != DATABASE_NAME then
      if !IsBlobName(m.name) || u.count + 1 > MAX_BACKUP_BLOBS || u.bytes + |m.content| > MAX_BACKUP_BYTES then Err(BadArchive)
      else Ok(Unpacked(u.files[m.name := m.content], u.count + 1, u.bytes + |m.content|))
    else if |m.content| > MAX_MANIFEST_BYTES then Err(BadArchive)
    else Ok(Unpacked(u.files[m.name := m.content], u.count, u.bytes))
  }

  function UnpackAll(u: Unpacked, members: seq<Member>): Result<Unpacked, Error>
    decreases |members|
  {
    if members == [] then Ok(u)
    else
      match Unpack(u, members[0])
      case Err(e) => Err(e)
      case Ok(next) => UnpackAll(next, members[1..])
  }

  function Extracted(members: seq<Member>): Result<Files, Error> {
    match UnpackAll(Unpacked(map[], 0, 0), members)
    case Err(e) => Err(e)
    case Ok(u) => if DATABASE_NAME !in u.files then Err(BadArchive) else Ok(u.files)
  }

  /** `_extract_payload`: every member is checked before it is written. */
  method ExtractPayload(members: seq<Member>) returns (r: Result<Files, Error>)
    ensures r == Extracted(members)
  {
    var files: Files := map[];
    var blobCount: nat, blobBytes: nat := 0, 0;
    for i := 0 to |members|
      invariant UnpackAll(Unpacked(files, blobCount, blobBytes), members[i..]) == UnpackAll(Unpacked(map[], 0, 0), members)
    {
      assert members[i..][1..] == members[i + 1..];
      var m := members[i];
      if !SafeName(m.name) || m.name in files || !m.regular {
        return Err(BadArchive);
      }
      if m.name != DATABASE_NAME {
        if !IsBlobName(m.name) {
          return Err(BadArchive);
        }
        blobCount := blobCount + 1;
        blobBytes := blobBytes + |m.content|;
        if blobCount > MAX_BACKUP_BLOBS || blobBytes > MAX_BACKUP_BYTES {
          return Err(BadArchive);
        }
      } else if |m.content| > MAX_MANIFEST_BYTES {
        return Err(BadArchive);
      }
      files := files[m.name := m.content];
    }
    if DATABASE_NAME !in files {
      return Err(BadArchive);
    }
    r := Ok(files);
  }

  // Each file is one member, and each member one file.
  ghost predicate OneToOne(files: Files, members: seq<Member>) {
    && (forall i, j :: 0 <= i < j < |members| ==> members[i].name != members[j].name)
    && (forall i :: 0 <= i < |members| ==> members[i].regular && members[i].name in files && files[members[i].name] == members[i].content)
    && (forall n :: n in files ==> exists i :: 0 <= i < |members| && members[i].name == n)
  }

  lemma {:induction false} UnpackedOneToOne(u: Unpacked, done: seq<Member>, members: seq<Member>)
    requires OneToOne(u.files, done) && UnpackAll(u, members).Ok?
    ensures OneToOne(UnpackAll(u, members).value.files, done + members)
    decreases |members|
  {
    if members == [] {
      assert done + members == done;
    } else {
      var next := Unpack(u, members[0]).value;
      OneMoreMember(u, done, members[0]);
      assert done + [members[0]] + members[1..] == done + members;
      hide OneToOne, Unpack;
      UnpackedOneToOne(next, done + [members[0]], members[1..]);
    }
  }

  lemma OneMoreMember(u: Unpacked, done: seq<Member>, m: Member)
    requires OneToOne(u.files, done) && Unpack(u, m).Ok?
    ensures OneToOne(Unpack(u, m).value.files, done + [m])
  {
    var files, more := Unpack(u, m).value.files, done + [m];
    hide SafeName, IsBlobName;
    assert files == u.files[m.name := m.content] && m.name !in u.files && m.regular;
    hide Unpack;
    forall n | n in files ensures exists i :: 0 <= i < |more| && more[i].name == n {
      if n == m.name {
        assert more[|done|].name == n;
      } else {
        var i :| 0 <= i < |done| && done[i].name == n;
        assert more[i].name == n;
      }
    }
  }

  /** An archive that is accepted has no link, no directory and no name twice, and each member becomes one file. */
  lemma ExtractedIsOneToOne(members: seq<Member>)
    requires Extracted(members).Ok?
    ensures OneToOne(Extracted(members).value, members)
  {
    UnpackedOneToOne(Unpacked(map[], 0, 0), [], members);
    assert [] + members == members;
  }

  // ----------------------------------------------------------------- inspect

  function TotalSize(entries: seq<Entry>): nat {
    if entries == [] then 0 else entries[0].size + TotalSize(entries[1..])
  }

  ghost predicate EntriesValid(m: Manifest) {
    && |m.entries| <= MAX_BACKUP_BLOBS && m.count == |m.entries|
    && (forall i :: 0 <= i < |m.entries| ==> IsBlobName(m.entries[i].path))
    && (forall i, j :: 0 <= i < j < |m.entries| ==> m.entries[i].path != m.entries[j].path)
    && TotalSize(m.entries) <= MAX_BACKUP_BYTES && m.bytes == TotalSize(m.entries)
  }

  // What the loop still asks of the entries, given the hashes and bytes so far.
  predicate ValidFrom(entries: seq<Entry>, listed: set<string>, total: nat) {
    || entries == []
    || (&& IsBlobName(entries[0].path) && entries[0].path[2] !in listed
        && total + entries[0].size <= MAX_BACKUP_BYTES
        && ValidFrom(entries[1..], listed + {entries[0].path[2]}, total + entries[0].size))
  }

  lemma {:induction false} ValidFromMeaning(entries: seq<Entry>, listed: set<string>, total: nat)
    requires total <= MAX_BACKUP_BYTES
    ensures ValidFrom(entries, listed, total) <==>
              && (forall i :: 0 <= i < |entries| ==> IsBlobName(entries[i].path) && entries[i].path[2] !in listed)
              && (forall i, j :: 0 <= i < j < |entries| ==> entries[i].path != entries[j].path)
              && total + TotalSize(entries) <= MAX_BACKUP_BYTES
  {
    if entries != [] {
      var first, rest := entries[0], entries[1..];
      if IsBlobName(first.path) && total + first.size <= MAX_BACKUP_BYTES {
        ValidFromMeaning(rest, listed + {first.path[2]}, total + first.size);
        forall i | 1 <= i < |entries| && IsBlobName(entries[i].path)
          ensures entries[i].path[2] == first.path[2] <==> entries[i].path == first.path
        {
          assert entries[i].path == [BLOBS_DIR_NAME, entries[i].path[2][..2], entries[i].path[2]];
          assert first.path == [BLOBS_DIR_NAME, first.path[2][..2], first.path[2]];
        }
        hide IsBlobName;
        assert forall i :: 1 <= i < |entries| ==> entries[i] == rest[i - 1];
      }
    }
  }

  /** `_validate_blob_entries`. */
  method ValidateBlobEntries(m: Manifest) returns (valid: bool)
    ensures valid <==> EntriesValid(m)
  {
    if |m.entries| > MAX_BACKUP_BLOBS || m.count != |m.entries| {
      return false;
    }
    ValidFromMeaning(m.entries, {}, 0);
    valid := CheckEntries(m.entries, m.bytes);
  }

  method CheckEntries(entries: seq<Entry>, bytes: nat) returns (valid: bool)
    ensures valid <==> ValidFrom(entries, {}, 0) && bytes == TotalSize(entries)
  {
    var listed: set<string> := {};
    var total: nat := 0;
    hide IsBlobName, IsBlobHash;
    for i := 0 to |entries|
      invariant ValidFrom(entries[i..], listed, total) == ValidFrom(entries, {}, 0)
      invariant total + TotalSize(entries[i..]) == TotalSize(entries)
    {
      assert entries[i..][1..] == entries[i + 1..];
      var entry := entries[i];
      if !IsBlobName(entry.path) || entry.path[2] in listed {
        return false;
      }
      total := total + entry.size;
      if total > MAX_BACKUP_BYTES {
        return false;
      }
      listed := listed + {entry.path[2]};
    }
    assert entries[|entries|..] == [];
    valid := bytes == total;
  }

  ghost predicate EntriesMatch(m: Manifest, files: Files) {
    forall i :: 0 <= i < |m.entries| ==>
      var e := m.entries[i];
      e.path in files && |files[e.path]| == e.size && Sha256(files[e.path]) == e.sha256
  }

  function Listed(m: Manifest): set<Name> {
    set e | e in m.entries :: e.path
  }

  function HashesListed(m: Manifest): set<string> {
    set n | n in Listed(m) && |n| == 3 :: n[2]
  }

  // The database is the one that was described, and the files are those it refers to.
  ghost predicate Inspects(lib: Library, m: Manifest, files: Files) {
    && DATABASE_NAME in files
    && var database := files[DATABASE_NAME];
       && m.databaseSize == |database| && m.databaseSha256 == Sha256(database)
       && lib.sound(database) && m.facts == lib.facts(database)
       && EntriesValid(m)
       && HashesListed(m) == Elements(lib.referenced(database))
       && files.Keys == Listed(m) + {DATABASE_NAME}
       && EntriesMatch(m, files)
  }

  /** `_inspect_extracted`. */
  method InspectExtracted(lib: Library, m: Manifest, files: Files) returns (ok: bool)
    ensures ok <==> Inspects(lib, m, files)
  {
    if DATABASE_NAME !in files {
      return false;
    }
    var database := files[DATABASE_NAME];
    if m.databaseSize != |database| || m.databaseSha256 != Sha256(database) {
      return false;
    }
    if !lib.sound(database) || m.facts != lib.facts(database) {
      return false;
    }
    var valid := ValidateBlobEntries(m);
    if !valid {
      return false;
    }
    var listed := Listed(m);
    if HashesListed(m) != Elements(lib.referenced(database)) {
      return false;
    }
    if files.Keys != listed + {DATABASE_NAME} {
      return false;
    }
    hide EntriesValid;
    for i := 0 to |m.entries|
      invariant forall j :: 0 <= j < i ==>
                  var e := m.entries[j];
                  e.path in files && |files[e.path]| == e.size && Sha256(files[e.path]) == e.sha256
    {
      var e := m.entries[i];
      assert e.path in listed;
      if |files[e.path]| != e.size || Sha256(files[e.path]) != e.sha256 {
        return false;
      }
    }
    ok := true;
  }

  predicate Authentic(lib: Library, dir: BackupDir, provider: Provider) {
    && dir.manifest.Some? && lib.manifestSize(dir.manifest.value) <= MAX_MANIFEST_BYTES
    && provider.manifestKey.Some?
    && dir.manifest.value.tag == Tag(provider.manifestKey.value, dir.manifest.value.base)
    && dir.payload.Some? && dir.others == {}
    && var m, p := dir.manifest.value.base, dir.payload.value;
       && m.recoveryRef in provider.recoveryKeys
       && m.wrapped.key == provider.recoveryKeys[m.recoveryRef] && m.wrapped.keyRef == m.recoveryRef
       && 28 <= lib.payloadSize(p) <= MAX_PAYLOAD_BYTES
       && p.nonce == m.nonce && p.key == m.wrapped.dataKey && p.associated == m
  }

  /** The files of a backup that passes every check. */
  ghost function VerifiedFiles(lib: Library, dir: BackupDir, provider: Provider): Option<Files> {
    if !Authentic(lib, dir, provider) then None
    else
      match Extracted(dir.payload.value.members)
      case Err(_) => None
      case Ok(files) => if Inspects(lib, dir.manifest.value.base, files) then Some(files) else None
  }

  /** `_verified_extract`. */
  method VerifiedExtract(lib: Library, dir: BackupDir, provider: Provider) returns (r: Result<Files, Error>)
    ensures VerifiedFiles(lib, dir, provider) == match r case Ok(files) => Some(files) case Err(_) => None
  {
    if !Authentic(lib, dir, provider) {
      return Err(BadManifest);
    }
    r := ExtractPayload(dir.payload.value.members);
    if r.Ok? {
      var ok := InspectExtracted(lib, dir.manifest.value.base, r.value);
      if !ok {
        return Err(BadContents);
      }
    }
  }

  // ------------------------------------------------------------- round trip

  function FilesFor(database: Bytes, hashes: seq<string>, blobs: map<string, Bytes>): Files
    requires forall h :: h in hashes ==> IsBlobHash(h) && h in blobs
  {
    if hashes == [] then map[DATABASE_NAME := database]
    else
      var h := hashes[|hashes| - 1];
      FilesFor(database, hashes[..|hashes| - 1], blobs)[BlobName(h) := blobs[h]]
  }

  lemma {:induction false} FilesForAre(database: Bytes, hashes: seq<string>, blobs: map<string, Bytes>, n: Name)
    requires forall h :: h in hashes ==> IsBlobHash(h) && h in blobs
    ensures var files := FilesFor(database, hashes, blobs);
            && (n in files <==> n == DATABASE_NAME || exists h :: h in hashes && n == BlobName(h))
            && DATABASE_NAME in files && files[DATABASE_NAME] == database
            && forall h :: h in hashes ==> BlobName(h) in files && files[BlobName(h)] == blobs[h]
  {
    if hashes != [] {
      var init, last := hashes[..|hashes| - 1], hashes[|hashes| - 1];
      FilesForAre(database, init, blobs, n);
      assert hashes == init + [last];
      assert forall h :: h in hashes <==> h in init || h == last;
      forall h | h in hashes && h != last ensures BlobName(h) != BlobName(last) {
        assert BlobName(h)[2] == h && BlobName(last)[2] == last;
      }
    }
  }

  lemma {:induction false} UnpackOneMore(u: Unpacked, members: seq<Member>, m: Member)
    ensures UnpackAll(u, members + [m]) ==
            match UnpackAll(u, members)
            case Err(e) => Err(e)
            case Ok(v) => Unpack(v, m)
    decreases |members|
  {
    if members == [] {
      assert [m][1..] == [];
    } else {
      assert (members + [m])[1..] == members[1..] + [m];
      if Unpack(u, members[0]).Ok? {
        UnpackOneMore(Unpack(u, members[0]).value, members[1..], m);
      }
    }
  }

  lemma {:induction false} TotalOneMore(entries: seq<Entry>, e: Entry)
    ensures TotalSize(entries + [e]) == TotalSize(entries) + e.size
  {
    if entries == [] {
      assert [e][1..] == [];
    } else {
      assert (entries + [e])[1..] == entries[1..] + [e];
      TotalOneMore(entries[1..], e);
    }
  }

  lemma BlobNameIsSafe(h: string)
    requires IsBlobHash(h)
    ensures SafeName(BlobName(h)) && IsBlobName(BlobName(h)) && BlobName(h) != DATABASE_NAME
  {
    assert forall i :: 0 <= i < 2 ==> h[..2][i] == h[i];
    assert |h[..2]| == 2 && h[..2] != ".." by {
      assert h[..2][0] == h[0] && IsHex(h[0]);
    }
    assert h[0] != '.' && IsHex(h[0]);
  }

  // What was collected describes the blobs one by one.
  lemma {:induction false} CollectedAre(hashes: seq<string>, blobs: map<string, Bytes>)
    requires Collect(hashes, blobs).Ok?
    ensures forall h :: h in hashes ==> IsBlobHash(h) && h in blobs
    ensures var c := Collect(hashes, blobs).value;
            && c.bytes == TotalSize(c.entries) <= MAX_BACKUP_BYTES
            && forall i :: 0 <= i < |hashes| ==>
                 IsBlobHash(hashes[i]) && hashes[i] in blobs
                 && c.entries[i] == Entry(BlobName(hashes[i]), Sha256(blobs[hashes[i]]), |blobs[hashes[i]]|)
  {
    if hashes != [] {
      var init, last := hashes[..|hashes| - 1], hashes[|hashes| - 1];
      CollectedAre(init, blobs);
      assert hashes == init + [last];
      TotalOneMore(Collect(init, blobs).value.entries, Entry(BlobName(last), Sha256(blobs[last]), |blobs[last]|));
    }
  }

  // Blobs that were collected, beside a database small enough to be extracted.
  ghost predicate Packable(database: Bytes, hashes: seq<string>, blobs: map<string, Bytes>) {
    && |database| <= MAX_MANIFEST_BYTES && Distinct(hashes) && |hashes| <= MAX_BACKUP_BLOBS
    && Collect(hashes, blobs).Ok?
    && forall h :: h in hashes ==> IsBlobHash(h) && h in blobs
  }

  // Extracting the archive made of them gives the database and one file per blob.
  ghost predicate Unpacks(database: Bytes, hashes: seq<string>, blobs: map<string, Bytes>)
    requires Packable(database, hashes, blobs)
  {
    var c := Collect(hashes, blobs).value;
    UnpackAll(Unpacked(map[], 0, 0), [Member(DATABASE_NAME, true, database)] + c.members)
    == Ok(Unpacked(FilesFor(database, hashes, blobs), |hashes|, c.bytes))
  }

  lemma NothingUnpacks(database: Bytes, blobs: map<string, Bytes>)
    requires Packable(database, [], blobs)
    ensures Unpacks(database, [], blobs)
  {
    var first := Member(DATABASE_NAME, true, database);
    assert [first] + [] == [first];
    assert [first][1..] == [];
  }

  lemma OneMoreUnpacks(database: Bytes, hashes: seq<string>, blobs: map<string, Bytes>)
    requires hashes != [] && Packable(database, hashes, blobs)
    ensures var init := hashes[..|hashes| - 1];
            Packable(database, init, blobs) && (Unpacks(database, init, blobs) ==> Unpacks(database, hashes, blobs))
  {
    var init, last := hashes[..|hashes| - 1], hashes[|hashes| - 1];
    var start, first := Unpacked(map[], 0, 0), Member(DATABASE_NAME, true, database);
    var c, m := Collect(init, blobs).value, Member(BlobName(last), true, blobs[last]);
    assert [first] + (c.members + [m]) == ([first] + c.members) + [m];
    UnpackOneMore(start, [first] + c.members, m);
    BlobNameIsSafe(last);
    FilesForAre(database, init, blobs, BlobName(last));
    assert forall h :: h in init ==> h != last;
    assert forall h :: h in init ==> BlobName(h)[2] == h;
    hide UnpackAll, SafeName, IsBlobName, IsBlobHash;
  }

  lemma {:induction false} CollectedUnpacks(database: Bytes, hashes: seq<string>, blobs: map<string, Bytes>)
    requires Packable(database, hashes, blobs)
    ensures Unpacks(database, hashes, blobs)
  {
    hide Packable, Unpacks;
    if hashes == [] {
      NothingUnpacks(database, blobs);
    } else {
      OneMoreUnpacks(database, hashes, blobs);
      CollectedUnpacks(database, hashes[..|hashes| - 1], blobs);
    }
  }

  lemma CreatedIs(lib: Library, database: Bytes, blobs: map<string, Bytes>, d: Drawn)
    requires Created(lib, database, blobs, d).Ok?
    ensures var hashes := lib.referenced(database);
            && lib.sound(database) && |hashes| <= MAX_BACKUP_BLOBS
            && Collect(hashes, blobs).Ok?
            && var c := Collect(hashes, blobs).value;
               && Created(lib, database, blobs, d).value
                  == BackupDir(Some(SignedOf(lib, database, c, d)), Some(PayloadOf(lib, database, c, d)), {})
               && lib.payloadSize(PayloadOf(lib, database, c, d)) <= MAX_PAYLOAD_BYTES
  {
  }

  // The entries a backup lists are valid, and are the blobs of the extracted files.
  lemma CollectedInspects(lib: Library, database: Bytes, blobs: map<string, Bytes>, d: Drawn)
    requires var hashes := lib.referenced(database);
             && Distinct(hashes) && |hashes| <= MAX_BACKUP_BLOBS && lib.sound(database)
             && Collect(hashes, blobs).Ok? && forall h :: h in hashes ==> IsBlobHash(h) && h in blobs
    ensures var hashes := lib.referenced(database);
            Inspects(lib, ManifestOf(lib, database, Collect(hashes, blobs).value, d), FilesFor(database, hashes, blobs))
  {
    var hashes := lib.referenced(database);
    var c := Collect(hashes, blobs).value;
    var m, files := ManifestOf(lib, database, c, d), FilesFor(database, hashes, blobs);
    FilesForAre(database, hashes, blobs, DATABASE_NAME);
    CollectedAre(hashes, blobs);
    hide Collect, FilesFor, IsBlobHash, IsBlobName, TotalSize;
    assert EntriesValid(m) by {
      EntriesAreValid(hashes, blobs, c, m);
    }
    assert EntriesMatch(m, files) by {
      AllMatch(hashes, blobs, m, files);
    }
    assert files.Keys == Listed(m) + {DATABASE_NAME} by {
      KeysAreListed(database, hashes, blobs, m);
    }
    assert HashesListed(m) == Elements(hashes) by {
      ListedAre(hashes, blobs, m);
    }
    hide *;
    InspectsAll(lib, m, files, database);
  }

  lemma AllMatch(hashes: seq<string>, blobs: map<string, Bytes>, m: Manifest, files: Files)
    requires |m.entries| == |hashes|
    requires forall h :: h in hashes ==> IsBlobHash(h) && h in blobs && BlobName(h) in files && files[BlobName(h)] == blobs[h]
    requires forall i :: 0 <= i < |hashes| ==>
               IsBlobHash(hashes[i]) && hashes[i] in blobs
               && m.entries[i] == Entry(BlobName(hashes[i]), Sha256(blobs[hashes[i]]), |blobs[hashes[i]]|)
    ensures EntriesMatch(m, files)
  {
    hide IsBlobHash;
    assert forall i :: 0 <= i < |hashes| ==> hashes[i] in hashes;
  }

  lemma InspectsAll(lib: Library, m: Manifest, files: Files, database: Bytes)
    requires DATABASE_NAME in files && files[DATABASE_NAME] == database
    requires m.databaseSize == |database| && m.databaseSha256 == Sha256(database)
    requires lib.sound(database) && m.facts == lib.facts(database)
    requires EntriesValid(m) && EntriesMatch(m, files) && files.Keys == Listed(m) + {DATABASE_NAME}
    requires HashesListed(m) == Elements(lib.referenced(database))
    ensures Inspects(lib, m, files)
  {
    hide EntriesValid, EntriesMatch, Listed, Elements;
  }

  lemma KeysAreListed(database: Bytes, hashes: seq<string>, blobs: map<string, Bytes>, m: Manifest)
    requires |m.entries| == |hashes| && forall h :: h in hashes ==> IsBlobHash(h) && h in blobs
    requires forall i :: 0 <= i < |hashes| ==>
               IsBlobHash(hashes[i]) && hashes[i] in blobs
               && m.entries[i] == Entry(BlobName(hashes[i]), Sha256(blobs[hashes[i]]), |blobs[hashes[i]]|)
    ensures FilesFor(database, hashes, blobs).Keys == Listed(m) + {DATABASE_NAME}
  {
    ListedAre(hashes, blobs, m);
    hide FilesFor, Listed, IsBlobHash;
    forall n ensures n in FilesFor(database, hashes, blobs) <==> n in Listed(m) + {DATABASE_NAME} {
      FilesForAre(database, hashes, blobs, n);
    }
  }

  lemma EntriesAreValid(hashes: seq<string>, blobs: map<string, Bytes>, c: Collected, m: Manifest)
    requires Distinct(hashes) && |hashes| <= MAX_BACKUP_BLOBS
    requires m.entries == c.entries && m.count == |c.entries| == |hashes| && m.bytes == c.bytes
    requires c.bytes == TotalSize(c.entries) <= MAX_BACKUP_BYTES
    requires forall i :: 0 <= i < |hashes| ==>
               IsBlobHash(hashes[i]) && hashes[i] in blobs
               && c.entries[i] == Entry(BlobName(hashes[i]), Sha256(blobs[hashes[i]]), |blobs[hashes[i]]|)
    ensures EntriesValid(m)
  {
    forall i | 0 <= i < |hashes| ensures IsBlobName(c.entries[i].path) && c.entries[i].path[2] == hashes[i] {
      BlobNameIsSafe(hashes[i]);
    }
    hide IsBlobName, IsBlobHash, TotalSize;
  }

  lemma ListedAre(hashes: seq<string>, blobs: map<string, Bytes>, m: Manifest)
    requires |m.entries| == |hashes| && forall h :: h in hashes ==> IsBlobHash(h) && h in blobs
    requires forall i :: 0 <= i < |hashes| ==>
               IsBlobHash(hashes[i]) && hashes[i] in blobs
               && m.entries[i] == Entry(BlobName(hashes[i]), Sha256(blobs[hashes[i]]), |blobs[hashes[i]]|)
    ensures forall n :: n in Listed(m) <==> exists h :: h in hashes && n == BlobName(h)
    ensures HashesListed(m) == Elements(hashes)
  {
    forall n ensures n in Listed(m) <==> exists h :: h in hashes && n == BlobName(h) {
      if n in Listed(m) {
        var i :| 0 <= i < |m.entries| && m.entries[i].path == n;
        assert hashes[i] in hashes && n == BlobName(hashes[i]);
      }
      if exists h :: h in hashes && n == BlobName(h) {
        var h :| h in hashes && n == BlobName(h);
        var i :| 0 <= i < |hashes| && hashes[i] == h;
        assert m.entries[i] in m.entries && m.entries[i].path == n;
      }
    }
    hide Listed, IsBlobHash;
    forall h ensures h in HashesListed(m) <==> h in hashes {
      if h in hashes {
        assert BlobName(h) in Listed(m) && BlobName(h)[2] == h;
      }
    }
  }

  predicate CanOpen(provider: Provider, d: Drawn) {
    && provider.manifestKey == Some(d.manifestKey)
    && d.recoveryRef in provider.recoveryKeys && provider.recoveryKeys[d.recoveryRef] == d.recoveryKey
  }

  // What a restore needs of a backup beyond what a create checks.
  predicate SmallEnough(lib: Library, database: Bytes, blobs: map<string, Bytes>, d: Drawn)
    requires Collect(lib.referenced(database), blobs).Ok?
  {
    && |database| <= MAX_MANIFEST_BYTES
    && lib.manifestSize(SignedOf(lib, database, Collect(lib.referenced(database), blobs).value, d)) <= MAX_MANIFEST_BYTES
  }

  /** What was created verifies, with the same content, exactly when database and manifest are each within 16 MiB. */
  lemma CreatedVerifies(lib: Library, database: Bytes, blobs: map<string, Bytes>, d: Drawn, provider: Provider)
    requires Faithful(lib) && Created(lib, database, blobs, d).Ok? && CanOpen(provider, d)
    ensures Collect(lib.referenced(database), blobs).Ok?
    ensures forall h :: h in lib.referenced(database) ==> IsBlobHash(h) && h in blobs
    ensures var dir := Created(lib, database, blobs, d).value;
            VerifiedFiles(lib, dir, provider) ==
              if SmallEnough(lib, database, blobs, d) then Some(FilesFor(database, lib.referenced(database), blobs)) else None
  {
    CreatedIs(lib, database, blobs, d);
    var hashes := lib.referenced(database);
    CollectedAre(hashes, blobs);
    var c := Collect(hashes, blobs).value;
    var dir := Created(lib, database, blobs, d).value;
    hide Created, Collect, FilesFor;
    var members := [Member(DATABASE_NAME, true, database)] + c.members;
    if |database| <= MAX_MANIFEST_BYTES {
      CollectedUnpacks(database, hashes, blobs);
      CollectedInspects(lib, database, blobs, d);
      FilesForAre(database, hashes, blobs, DATABASE_NAME);
      hide UnpackAll, Inspects, Faithful;
      assert Extracted(members) == Ok(FilesFor(database, hashes, blobs));
      assert Authentic(lib, dir, provider) <==>
               lib.manifestSize(SignedOf(lib, database, c, d)) <= MAX_MANIFEST_BYTES by {
        BoundsOf(lib, PayloadOf(lib, database, c, d));
      }
      hide Authentic, Extracted;
    } else {
      assert Unpack(Unpacked(map[], 0, 0), members[0]).Err?;
      assert Extracted(members).Err?;
      hide Extracted, Inspects, Authentic;
    }
  }

  lemma BoundsOf(lib: Library, p: Payload)
    requires Faithful(lib)
    ensures lib.payloadSize(p) >= 28
  {
  }

  // ----------------------------------------------------------------- restore

  ghost predicate WellNamed(files: Files) {
    && DATABASE_NAME in files
    && forall n :: n in files && n != DATABASE_NAME ==> IsBlobName(n)
  }

  function HashesIn(files: Files): set<string> {
    set n | n in files && |n| == 3 :: n[2]
  }

  // The blob directory of the extracted files.
  function BlobsOf(files: Files): map<string, Bytes>
    requires WellNamed(files)
  {
    assert forall n :: n in files && |n| == 3 ==> n == [n[0], n[1], n[2]] == [BLOBS_DIR_NAME, n[2][..2], n[2]];
    map h | h in HashesIn(files) :: files[[BLOBS_DIR_NAME, h[..2], h]]
  }

  lemma {:induction false} UnpackedNames(u: Unpacked, members: seq<Member>)
    requires forall n :: n in u.files && n != DATABASE_NAME ==> IsBlobName(n)
    ensures match UnpackAll(u, members)
            case Err(_) => true
            case Ok(v) => forall n :: n in v.files && n != DATABASE_NAME ==> IsBlobName(n)
    decreases |members|
  {
    if members != [] && Unpack(u, members[0]).Ok? {
      var next := Unpack(u, members[0]).value;
      assert forall n :: n in next.files && n != DATABASE_NAME ==> IsBlobName(n);
      hide Unpack, IsBlobName;
      UnpackedNames(next, members[1..]);
    }
  }

  lemma VerifiedAreWellNamed(lib: Library, dir: BackupDir, provider: Provider)
    requires VerifiedFiles(lib, dir, provider).Some?
    ensures WellNamed(VerifiedFiles(lib, dir, provider).value)
  {
    UnpackedNames(Unpacked(map[], 0, 0), dir.payload.value.members);
    hide Authentic, Inspects, UnpackAll, IsBlobName;
  }

  /**
   * A backup that verifies carries the tag that the provider's key gives just this
   * manifest, and a payload sealed for it with the data key wrapped under the recovery key.
   */
  lemma VerifiedIsGenuine(lib: Library, dir: BackupDir, provider: Provider)
    requires VerifiedFiles(lib, dir, provider).Some?
    ensures dir.manifest.Some? && dir.payload.Some? && dir.others == {} && provider.manifestKey.Some?
    ensures var m, p := dir.manifest.value.base, dir.payload.value;
            && dir.manifest.value.tag.key == provider.manifestKey.value && dir.manifest.value.tag.manifest == m
            && m.recoveryRef in provider.recoveryKeys && m.wrapped.key == provider.recoveryKeys[m.recoveryRef]
            && p.key == m.wrapped.dataKey && p.nonce == m.nonce && p.associated == m
  {
  }

  lemma ListedEntry(lib: Library, m: Manifest, files: Files, n: Name)
    requires Inspects(lib, m, files) && n in files && n != DATABASE_NAME
    ensures Entry(n, Sha256(files[n]), |files[n]|) in m.entries && IsBlobName(n)
  {
    assert n in Listed(m);
    var e :| e in m.entries && e.path == n;
    var i :| 0 <= i < |m.entries| && m.entries[i] == e;
    assert IsBlobName(m.entries[i].path);
    assert e == Entry(n, Sha256(files[n]), |files[n]|);
  }

  lemma ListedIsReferenced(lib: Library, m: Manifest, files: Files, n: Name)
    requires Inspects(lib, m, files) && n in files && n != DATABASE_NAME && |n| == 3
    ensures n[2] in lib.referenced(files[DATABASE_NAME])
  {
    assert n in Listed(m);
    assert n[2] in HashesListed(m);
    hide EntriesValid, EntriesMatch, Listed, HashesListed;
  }

  lemma BlobNameIs(n: Name)
    requires IsBlobName(n)
    ensures |n| == 3 && |n[2]| == 64 && n == ["blobs", n[2][..2], n[2]]
  {
  }

  /** Its files are the database and one file for each blob the manifest lists, with just the content it describes. */
  lemma VerifiedIsDescribed(lib: Library, dir: BackupDir, provider: Provider, n: Name)
    requires VerifiedFiles(lib, dir, provider).Some? && n in VerifiedFiles(lib, dir, provider).value
    ensures var m, files := dir.manifest.value.base, VerifiedFiles(lib, dir, provider).value;
            if n == ["metadata.sqlite"] then m.databaseSha256 == Sha256(files[n]) && m.databaseSize == |files[n]|
            else
              && Entry(n, Sha256(files[n]), |files[n]|) in m.entries
              && |n| == 3 && |n[2]| == 64 && n == ["blobs", n[2][..2], n[2]]
              && DATABASE_NAME in files && n[2] in lib.referenced(files[DATABASE_NAME])
  {
    var m, files := dir.manifest.value.base, VerifiedFiles(lib, dir, provider).value;
    assert Inspects(lib, m, files);
    hide Authentic, VerifiedFiles, IsBlobName, EntriesValid, EntriesMatch, Listed;
    if n != DATABASE_NAME {
      ListedEntry(lib, m, files, n);
      BlobNameIs(n);
      ListedIsReferenced(lib, m, files, n);
    }
  }

  lemma InspectsDecides(lib: Library, m: Manifest, f: Files, g: Files)
    requires Inspects(lib, m, f) && Inspects(lib, m, g)
    ensures f == g
  {
    assert f.Keys == g.Keys;
    forall n | n in f ensures f[n] == g[n] {
      if n != DATABASE_NAME {
        assert n in Listed(m);
        var e :| e in m.entries && e.path == n;
        var i :| 0 <= i < |m.entries| && m.entries[i] == e;
        assert Sha256(f[m.entries[i].path]) == m.entries[i].sha256 == Sha256(g[m.entries[i].path]);
      }
    }
  }

  /** Whatever is done to a backup on its way, it is refused, or gives the very files it was made of under its tag. */
  lemma TamperedIsRefusedOrSame(lib: Library, dir: BackupDir, altered: BackupDir, provider: Provider)
    requires VerifiedFiles(lib, dir, provider).Some?
    requires altered.manifest.Some? ==> altered.manifest.value.tag == dir.manifest.value.tag
    ensures VerifiedFiles(lib, altered, provider) in [None, VerifiedFiles(lib, dir, provider)]
  {
    if VerifiedFiles(lib, altered, provider).Some? {
      VerifiedIsGenuine(lib, dir, provider);
      VerifiedIsGenuine(lib, altered, provider);
      InspectsDecides(lib, dir.manifest.value.base, VerifiedFiles(lib, dir, provider).value,
                      VerifiedFiles(lib, altered, provider).value);
    }
    hide Authentic, Extracted, Inspects;
  }

  // What a restore goes through with, when none of its steps fails.
  ghost predicate Restorable(lib: Library, dir: BackupDir, provider: Provider) {
    && VerifiedFiles(lib, dir, provider).Some?
    && var files := VerifiedFiles(lib, dir, provider).value;
       && WellNamed(files)
       && files.Keys != {DATABASE_NAME}   // without a blob there is no blob directory to copy
       && lib.ready(files[DATABASE_NAME], BlobsOf(files))
  }

  class RestoreTarget {
    const lib: Library
    // The forward steps that fail, counted from the start.
    const failing: set<nat>
    var database: Option<Bytes>
    var blobs: Option<map<string, Bytes>>
    var clock: nat

    constructor (lib: Library, failing: set<nat>, database: Option<Bytes>, blobs: Option<map<string, Bytes>>)
      ensures this.lib == lib && this.failing == failing
      ensures this.database == database && this.blobs == blobs && clock == 0
    {
      this.lib, this.failing, this.database, this.blobs := lib, failing, database, blobs;
      clock := 0;
    }

    method Step() returns (ok: bool)
      modifies this`clock
      ensures clock == old(clock) + 1
      ensures ok <==> old(clock) !in failing
    {
      ok := clock !in failing;
      clock := clock + 1;
    }

    /** Copies into place beside the targets and checks what was copied. */
    method StageCopies(files: Files) returns (ok: bool)
      requires WellNamed(files)
      modifies this`clock
      ensures old(clock) <= clock
      ensures ok <==>
                && Sound(failing, old(clock), clock)
                && files.Keys != {DATABASE_NAME} && lib.ready(files[DATABASE_NAME], BlobsOf(files))
    {
      ghost var start := clock;
      for i := 0 to 4                                        // mkdir, mkstemp, mkdtemp, copyfile
        invariant start <= clock && Sound(failing, start, clock)
      {
        SoundStep(failing, start, clock);
        ok := Step();
        if !ok {
          return;
        }
      }
      SoundStep(failing, start, clock);
      ok := Step();                                          // copytree
      if !ok || files.Keys == {DATABASE_NAME} {
        return false;
      }
      SoundStep(failing, start, clock);
      ok := Step();                                          // readiness
      ok := ok && lib.ready(files[DATABASE_NAME], BlobsOf(files));
    }

    /** `restore_backup`: both targets, or neither. */
    method RestoreBackup(dir: BackupDir, provider: Provider) returns (ok: bool)
      modifies this
      ensures old(database).Some? || old(blobs).Some? ==> !ok && database == old(database) && blobs == old(blobs)
      ensures old(database).None? && old(blobs).None? ==>
                && (ok <==> Sound(failing, old(clock), clock) && Restorable(lib, dir, provider))
                && (if ok then
                      var files := VerifiedFiles(lib, dir, provider).value;
                      database == Some(files[DATABASE_NAME]) && blobs == Some(BlobsOf(files))
                    else database.None? && blobs.None?)
    {
      if database.Some? || blobs.Some? {
        return false;
      }
      ghost var start := clock;
      var extracted := VerifiedExtract(lib, dir, provider);
      if extracted.Err? {
        return false;
      }
      var files := extracted.value;
      VerifiedAreWellNamed(lib, dir, provider);
      hide VerifiedFiles, WellNamed, BlobsOf, Sound;
      ok := StageCopies(files);
      if ok {
        var committedDb := false;
        SoundStep(failing, start, clock);
        ok := Step();                                        // rename the database
        if ok {
          database := Some(DatabaseOf(files));
          committedDb := true;
          SoundStep(failing, start, clock);
          ok := Step();                                      // rename the blob directory
        }
        if ok {
          blobs := Some(BlobsOf(files));
        } else if committedDb {
          database := None;
        }
      }
    }
  }

  function DatabaseOf(files: Files): Bytes
    requires WellNamed(files)
  {
    files[DATABASE_NAME]
  }

  function ReferencedBlobs(lib: Library, database: Bytes, blobs: map<string, Bytes>): map<string, Bytes> {
    map h | h in lib.referenced(database) && h in blobs :: blobs[h]
  }

  lemma FilesForBlobs(database: Bytes, hashes: seq<string>, blobs: map<string, Bytes>)
    requires forall h :: h in hashes ==> IsBlobHash(h) && h in blobs
    ensures var files := FilesFor(database, hashes, blobs);
            && WellNamed(files) && files[DATABASE_NAME] == database
            && BlobsOf(files) == (map h | h in hashes && h in blobs :: blobs[h])
            && (files.Keys != {DATABASE_NAME} <==> hashes != [])
  {
    var files := FilesFor(database, hashes, blobs);
    forall n ensures n in files <==> n == DATABASE_NAME || exists h :: h in hashes && n == BlobName(h) {
      FilesForAre(database, hashes, blobs, n);
    }
    FilesForAre(database, hashes, blobs, DATABASE_NAME);
    forall h | h in hashes ensures IsBlobName(BlobName(h)) && BlobName(h) != DATABASE_NAME && BlobName(h)[2] == h {
      BlobNameIsSafe(h);
    }
    hide FilesFor, IsBlobName, IsBlobHash;
    forall h ensures h in HashesIn(files) <==> h in hashes {
      if h in hashes {
        assert BlobName(h) in files;
      }
    }
    if hashes != [] {
      assert BlobName(hashes[0]) in files;
    }
  }

  /**
   * Restoring what was created gives back the snapshot and exactly the blobs it
   * refers to. It goes through exactly when there is such a blob, database and
   * manifest are each within 16 MiB, and the state is ready.
   */
  lemma RestoreGivesBack(lib: Library, database: Bytes, blobs: map<string, Bytes>, d: Drawn, provider: Provider)
    requires Faithful(lib) && Created(lib, database, blobs, d).Ok? && CanOpen(provider, d)
    ensures Collect(lib.referenced(database), blobs).Ok?
    ensures var dir := Created(lib, database, blobs, d).value;
            && (Restorable(lib, dir, provider) <==>
                  && lib.referenced(database) != []
                  && SmallEnough(lib, database, blobs, d)
                  && lib.ready(database, ReferencedBlobs(lib, database, blobs)))
            && (Restorable(lib, dir, provider) ==>
                  var files := VerifiedFiles(lib, dir, provider).value;
                  files[DATABASE_NAME] == database && BlobsOf(files) == ReferencedBlobs(lib, database, blobs))
  {
    CreatedVerifies(lib, database, blobs, d, provider);
    FilesForBlobs(database, lib.referenced(database), blobs);
    hide Created, VerifiedFiles, FilesFor, Collect, SmallEnough, WellNamed, BlobsOf, CanOpen;
  }

  // A sound database that names these blobs, and is ready whatever they are.
  function Sample(hashes: seq<string>): Library {
    Library(_ => true, _ => "facts", _ => hashes, (_, _) => true, _ => 1000, _ => 1000)
  }

  const SampleKeys := Drawn("backup", 1, 2, "recovery", 3, 4)

  const SampleProvider := Provider(Some(4), map["recovery" := 3])

  /** A state without a blob is backed up and cannot be restored, small and ready as it is. */
  lemma EmptyStateIsNotRestorable(database: Bytes)
    requires |database| <= MAX_MANIFEST_BYTES
    ensures var lib := Sample([]);
            && Faithful(lib) && CanOpen(SampleProvider, SampleKeys) && lib.ready(database, map[])
            && Created(lib, database, map[], SampleKeys).Ok? && SmallEnough(lib, database, map[], SampleKeys)
            && !Restorable(lib, Created(lib, database, map[], SampleKeys).value, SampleProvider)
  {
    RestoreGivesBack(Sample([]), database, map[], SampleKeys, SampleProvider);
    hide Restorable;
  }

  /** A database of more than 16 MiB is backed up and cannot be restored, ready as it is. */
  lemma LargeStateIsNotRestorable(database: Bytes, hash: string, blob: Bytes)
    requires |database| > MAX_MANIFEST_BYTES && IsBlobHash(hash) && |blob| <= MAX_BACKUP_BYTES
    ensures var lib, blobs := Sample([hash]), map[hash := blob];
            && Faithful(lib) && CanOpen(SampleProvider, SampleKeys) && lib.ready(database, blobs)
            && Created(lib, database, blobs, SampleKeys).Ok?
            && !Restorable(lib, Created(lib, database, blobs, SampleKeys).value, SampleProvider)
  {
    var lib, blobs := Sample([hash]), map[hash := blob];
    assert Collect([hash][..0], blobs) == Ok(Collected([], [], 0));
    RestoreGivesBack(lib, database, blobs, SampleKeys, SampleProvider);
    hide Restorable;
  }
}
