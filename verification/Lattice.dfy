// The operations of the artifact service that change state
// (src/folio_lattice/service.py). Each runs inside one BEGIN IMMEDIATE
// transaction, so operations follow one another; a blob file is written before
// its transaction commits, and the process may die in between.
module Lattice {
  import opened Common
  import opened Tables
  import opened Chunks

  const MAX_MEDIA_TYPE_LENGTH := 255
  const MAX_REASON_LENGTH := 2_000
  const MAX_CONTEXT_BYTES := 32 * 1024
  const MAX_EDGE_TYPE_LENGTH := 100
  const OWNER_GRANT_REASON := "artifact owner"

  const TEXT_MEDIA_TYPES := {
    "application/javascript", "application/json", "application/ld+json", "application/xml",
    "text/css", "text/csv", "text/html", "text/javascript", "text/markdown", "text/plain", "text/xml"
  }

  // `decode` is UTF-8 with replacement characters.
  datatype Config = Config(maxArtifactBytes: nat, decode: Bytes -> string)

  datatype Upload = Upload(data: Bytes, mediaType: string, actor: string, reason: string, context: string)

  datatype Crash = NoCrash | BeforeRename | BeforeCommit

  datatype Store = Store(db: Db, blobs: map<Digest, Bytes>)

  datatype Effect = Effect(store: Store, error: Option<Error>)

  predicate IsTextual(mediaType: string) {
    mediaType in TEXT_MEDIA_TYPES || "text/" <= mediaType
  }

  /** `_validate_version_input`; the context is JSON text in ASCII. */
  function UploadError(cfg: Config, u: Upload): Option<Error> {
    if |u.data| > cfg.maxArtifactBytes then Some(TooLarge)
    else if !ValidText(u.mediaType, MAX_MEDIA_TYPE_LENGTH) then Some(InvalidText)
    else if !ValidText(u.actor, MAX_NAME_LENGTH) then Some(InvalidText)
    else if !ValidText(u.reason, MAX_REASON_LENGTH) then Some(InvalidText)
    else if |u.context| > MAX_CONTEXT_BYTES then Some(TooLarge)
    else None
  }

  // ---------------------------------------------------------------- versions

  function NewVersion(tenant: string, artifact: ArtifactId, u: Upload, parent: Option<VersionId>): Version {
    Version(tenant, artifact, parent, Sha256(u.data), u.mediaType, |u.data|, u.actor, u.reason, u.context)
  }

  ghost function WithNewVersion(cfg: Config, db: Db, tenant: string, artifact: ArtifactId, u: Upload,
                                parent: Option<VersionId>, id: VersionId): Db
    requires artifact in db.artifacts
  {
    db.(versions := db.versions[id := NewVersion(tenant, artifact, u, parent)],
        chunks := if IsTextual(u.mediaType) then db.chunks[id := ChunksOf(cfg.decode(u.data))] else db.chunks,
        artifacts := db.artifacts[artifact := db.artifacts[artifact].(current := Some(id), mediaType := u.mediaType)])
  }

  /** `_store_blob`: an existing file is left as it is. */
  function WithBlob(blobs: map<Digest, Bytes>, data: Bytes): map<Digest, Bytes> {
    if Sha256(data) in blobs then blobs else blobs[Sha256(data) := data]
  }

  /** `_insert_version` on the tables `db` of a transaction that began with `s`. */
  ghost function InsertEffect(cfg: Config, s: Store, db: Db, tenant: string, artifact: ArtifactId, u: Upload,
                              parent: Option<VersionId>, id: VersionId, crash: Crash): Effect
  {
    if artifact !in db.artifacts || db.artifacts[artifact].tenant != tenant then Effect(s, Some(NotFound))
    else if parent != db.artifacts[artifact].current then
      Effect(s, Some(ParentMismatch(db.artifacts[artifact].current)))
    else if crash.BeforeRename? then Effect(s, Some(Crashed))
    else
      var stored := s.(blobs := WithBlob(s.blobs, u.data));
      if id in db.versions then Effect(stored, Some(IdTaken))
      else if crash.BeforeCommit? then Effect(stored, Some(Crashed))
      else Effect(stored.(db := WithNewVersion(cfg, db, tenant, artifact, u, parent, id)), None)
  }

  ghost function WriteEffect(cfg: Config, s: Store, tenant: string, artifact: ArtifactId, u: Upload,
                             parent: Option<VersionId>, id: VersionId, crash: Crash): Effect
  {
    if UploadError(cfg, u).Some? then Effect(s, UploadError(cfg, u))
    else
      match Authorize(s.db, tenant, artifact, u.actor, Write)
      case Err(e) => Effect(s, Some(e))
      case Ok(_) => InsertEffect(cfg, s, s.db, tenant, artifact, u, parent, id, crash)
  }

  function OwnerGrant(tenant: string, artifact: ArtifactId, owner: string, action: Action): Grant {
    Grant(OwnerGrantId(artifact, action), tenant, artifact, owner, action, true, owner)
  }

  function WithNewArtifact(db: Db, tenant: string, id: ArtifactId, name: string, mediaType: string, owner: string): Db {
    db.(artifacts := db.artifacts[id := Artifact(tenant, owner, name, mediaType, None)],
        grants := db.grants + [OwnerGrant(tenant, id, owner, Read), OwnerGrant(tenant, id, owner, Write),
                               OwnerGrant(tenant, id, owner, Share)])
  }

  ghost function CreateEffect(cfg: Config, s: Store, tenant: string, name: string, u: Upload,
                              artifact: ArtifactId, id: VersionId, crash: Crash): Effect
  {
    if !ValidText(name, MAX_NAME_LENGTH) then Effect(s, Some(InvalidText))
    else if UploadError(cfg, u).Some? then Effect(s, UploadError(cfg, u))
    else if !ValidText(tenant, MAX_NAME_LENGTH) then Effect(s, Some(InvalidText))
    else if artifact in s.db.artifacts then Effect(s, Some(IdTaken))
    else
      InsertEffect(cfg, s, WithNewArtifact(s.db, tenant, artifact, name, u.mediaType, u.actor),
                   tenant, artifact, u, None, id, crash)
  }

  // ------------------------------------------------------------------ grants

  function Lower(c: char): char {
    if 'A' <= c <= 'Z' then c + ('a' - 'A') else c
  }

  function Lowered(s: string): (r: string)
    ensures |r| == |s|
  {
    seq(|s|, i requires 0 <= i < |s| => Lower(s[i]))
  }

  function StripLeft(s: string): string {
    if s != "" && IsSpace(s[0]) then StripLeft(s[1..]) else s
  }

  function StripRight(s: string): string {
    if s != "" && IsSpace(s[|s| - 1]) then StripRight(s[..|s| - 1]) else s
  }

  predicate IsReserved(reason: string) {
    Lowered(StripRight(StripLeft(reason))) == OWNER_GRANT_REASON
  }

  function IndexOfGrant(grants: seq<Grant>, id: GrantId): (i: Option<nat>)
    ensures i.Some? ==> i.value < |grants| && grants[i.value].id == id
    ensures i.None? ==> forall j :: 0 <= j < |grants| ==> grants[j].id != id
  {
    if grants == [] then None
    else if grants[|grants| - 1].id == id then Some(|grants| - 1)
    else IndexOfGrant(grants[..|grants| - 1], id)
  }

  function ShareEffect(s: Store, tenant: string, artifact: ArtifactId, actor: string, subject: string,
                       action: Action, reason: string, n: nat): Effect
  {
    if !ValidText(subject, MAX_NAME_LENGTH) || !ValidText(reason, MAX_REASON_LENGTH) then Effect(s, Some(InvalidText))
    else if IsReserved(reason) then Effect(s, Some(ReservedReason))
    else
      match Authorize(s.db, tenant, artifact, actor, Share)
      case Err(e) => Effect(s, Some(e))
      case Ok(_) =>
        if s.db.members.Some? && (tenant, subject) !in s.db.members.value then Effect(s, Some(NotAMember))
        else if HasActiveGrant(s.db, tenant, artifact, subject, action) then Effect(s, None)
        else if IndexOfGrant(s.db.grants, SharedGrantId(n)).Some? then Effect(s, Some(IdTaken))
        else
          var grant := Grant(SharedGrantId(n), tenant, artifact, subject, action, true, actor);
          Effect(s.(db := s.db.(grants := s.db.grants + [grant])), None)
  }

  function RevokeEffect(s: Store, tenant: string, artifact: ArtifactId, actor: string, id: GrantId, reason: string): Effect {
    if !ValidText(reason, MAX_REASON_LENGTH) then Effect(s, Some(InvalidText))
    else
      match Authorize(s.db, tenant, artifact, actor, Share)
      case Err(e) => Effect(s, Some(e))
      case Ok(_) =>
        var i := IndexOfGrant(s.db.grants, id);
        if i.None? || s.db.grants[i.value].tenant != tenant || s.db.grants[i.value].artifact != artifact then
          Effect(s, Some(GrantNotFound))
        else
          var g := s.db.grants[i.value];
          if id == OwnerGrantId(artifact, g.action) then Effect(s, Some(OwnerGrantFixed))
          else Effect(s.(db := s.db.(grants := s.db.grants[i.value := g.(active := false)])), None)
  }

  // ------------------------------------------------------------------- edges

  predicate Precedes(a: Edge, b: Edge) {
    a.createdAt < b.createdAt || (a.createdAt == b.createdAt && a.id < b.id)
  }

  function Inserted(edges: seq<Edge>, e: Edge): (r: seq<Edge>)
    ensures multiset(r) == multiset(edges) + multiset{e}
  {
    if edges == [] || Precedes(e, edges[0]) then
      assert [e] + edges == [e] + edges[..];
      [e] + edges
    else
      assert edges == [edges[0]] + edges[1..];
      [edges[0]] + Inserted(edges[1..], e)
  }

  predicate SameLink(e: Edge, tenant: string, source: ArtifactId, target: ArtifactId, kind: string) {
    e.tenant == tenant && e.source == source && e.target == target && e.kind == kind
  }

  function FindLink(edges: seq<Edge>, tenant: string, source: ArtifactId, target: ArtifactId, kind: string): (r: Option<Edge>)
    ensures r.Some? ==> r.value in edges && SameLink(r.value, tenant, source, target, kind)
    ensures r.None? ==> forall e :: e in edges ==> !SameLink(e, tenant, source, target, kind)
  {
    if edges == [] then None
    else if SameLink(edges[0], tenant, source, target, kind) then Some(edges[0])
    else FindLink(edges[1..], tenant, source, target, kind)
  }

  function LinkAccess(db: Db, tenant: string, ids: seq<ArtifactId>, actor: string): (r: Option<Error>)
    ensures r.None? <==> forall id :: id in ids ==> Authorize(db, tenant, id, actor, Write).Ok?
    ensures r.Some? ==> r.value == NotFound || r.value == InvalidText
  {
    if ids == [] then None
    else
      match Authorize(db, tenant, ids[0], actor, Write)
      case Err(e) => Some(e)
      case Ok(_) => LinkAccess(db, tenant, ids[1..], actor)
  }

  function LinkEffect(s: Store, tenant: string, source: ArtifactId, target: ArtifactId, kind: string,
                      metadata: string, actor: string, id: nat, createdAt: nat): Effect
  {
    if source == target then Effect(s, Some(SelfLink))
    else if !ValidText(kind, MAX_EDGE_TYPE_LENGTH) then Effect(s, Some(InvalidText))
    else if |metadata| > MAX_CONTEXT_BYTES then Effect(s, Some(TooLarge))
    else
      var denied := LinkAccess(s.db, tenant, [source, target], actor);
      if denied.Some? then Effect(s, denied)
      else
        var existing := FindLink(s.db.edges, tenant, source, target, kind);
        if existing.Some? then
          if existing.value.metadata != metadata then Effect(s, Some(EdgeConflict)) else Effect(s, None)
        else if exists e :: e in s.db.edges && e.id == id then Effect(s, Some(IdTaken))
        else
          Effect(s.(db := s.db.(edges := Inserted(s.db.edges, Edge(id, createdAt, tenant, source, target, kind, metadata)))),
                 None)
  }

  // ----------------------------------------------------------------- reading

  /** `read_artifact`: the version's bytes, found through the tables and then the blob store. */
  function ReadEffect(s: Store, tenant: string, artifact: ArtifactId, version: Option<VersionId>, actor: string): Result<Bytes, Error> {
    match Authorize(s.db, tenant, artifact, actor, Read)
    case Err(e) => Err(e)
    case Ok(_) =>
      var wanted := if version.Some? then version else s.db.artifacts[artifact].current;
      if wanted.None? || wanted.value !in s.db.versions then Err(VersionNotFound)
      else
        var v := s.db.versions[wanted.value];
        if v.tenant != tenant || v.artifact != artifact then Err(VersionNotFound)
        else if v.blob !in s.blobs then Err(BlobMissing)
        else Ok(s.blobs[v.blob])
  }

  // ----------------------------------------------------------------- service

  class FolioLattice {
    const cfg: Config
    var db: Db
    var blobs: map<Digest, Bytes>

    constructor (cfg: Config)
      ensures this.cfg == cfg && State() == Store(EmptyDb, map[])
    {
      this.cfg := cfg;
      db, blobs := EmptyDb, map[];
    }

    ghost function State(): Store
      reads this
    {
      Store(db, blobs)
    }

    method StoreBlob(data: Bytes)
      modifies this`blobs
      ensures blobs == WithBlob(old(blobs), data)
    {
      var destination := Sha256(data);
      if destination !in blobs {
        blobs := blobs[destination := data];
      }
    }

    /** Continues a transaction whose tables so far are `draft`; commits them when all goes well. */
    method InsertVersion(draft: Db, tenant: string, artifact: ArtifactId, u: Upload, parent: Option<VersionId>,
                         id: VersionId, crash: Crash) returns (error: Option<Error>)
      modifies this
      ensures Effect(State(), error) == InsertEffect(cfg, old(State()), draft, tenant, artifact, u, parent, id, crash)
    {
      if artifact !in draft.artifacts || draft.artifacts[artifact].tenant != tenant {
        return Some(NotFound);
      }
      var row := draft.artifacts[artifact];
      if parent != row.current {
        return Some(ParentMismatch(row.current));
      }
      if crash.BeforeRename? {
        return Some(Crashed);
      }
      StoreBlob(u.data);
      if id in draft.versions {
        return Some(IdTaken);
      }
      var tables := draft.(versions := draft.versions[id := NewVersion(tenant, artifact, u, parent)]);
      if IsTextual(u.mediaType) {
        var chunks := Split(cfg.decode(u.data));
        tables := tables.(chunks := tables.chunks[id := chunks]);
      }
      tables := tables.(artifacts := tables.artifacts[artifact := row.(current := Some(id), mediaType := u.mediaType)]);
      if crash.BeforeCommit? {
        return Some(Crashed);
      }
      db := tables;
      error := None;
    }

    method CreateArtifact(tenant: string, name: string, u: Upload, artifact: ArtifactId, id: VersionId, crash: Crash)
      returns (error: Option<Error>)
      modifies this
      ensures Effect(State(), error) == CreateEffect(cfg, old(State()), tenant, name, u, artifact, id, crash)
    {
      if !ValidText(name, MAX_NAME_LENGTH) {
        return Some(InvalidText);
      }
      error := UploadError(cfg, u);
      if error.Some? {
        return;
      }
      if !ValidText(tenant, MAX_NAME_LENGTH) {
        return Some(InvalidText);
      }
      if artifact in db.artifacts {
        return Some(IdTaken);
      }
      error := InsertVersion(WithNewArtifact(db, tenant, artifact, name, u.mediaType, u.actor),
                             tenant, artifact, u, None, id, crash);
    }

    method WriteVersion(tenant: string, artifact: ArtifactId, u: Upload, parent: Option<VersionId>,
                        id: VersionId, crash: Crash) returns (error: Option<Error>)
      modifies this
      ensures Effect(State(), error) == WriteEffect(cfg, old(State()), tenant, artifact, u, parent, id, crash)
    {
      error := UploadError(cfg, u);
      if error.Some? {
        return;
      }
      var access := Authorize(db, tenant, artifact, u.actor, Write);
      if access.Err? {
        return Some(access.error);
      }
      error := InsertVersion(db, tenant, artifact, u, parent, id, crash);
    }

    method ShareArtifact(tenant: string, artifact: ArtifactId, actor: string, subject: string, action: Action,
                         reason: string, n: nat) returns (r: Result<Grant, Error>)
      modifies this`db
      ensures var effect := ShareEffect(old(State()), tenant, artifact, actor, subject, action, reason, n);
              && State() == effect.store
              && (if effect.error.Some? then r == Err(effect.error.value)
                  else r.Ok? && r.value in db.grants && ActiveGrant(r.value, tenant, artifact, subject, action))
    {
      if !ValidText(subject, MAX_NAME_LENGTH) || !ValidText(reason, MAX_REASON_LENGTH) {
        return Err(InvalidText);
      }
      if IsReserved(reason) {
        return Err(ReservedReason);
      }
      var access := Authorize(db, tenant, artifact, actor, Share);
      if access.Err? {
        return Err(access.error);
      }
      if db.members.Some? && (tenant, subject) !in db.members.value {
        return Err(NotAMember);
      }
      if HasActiveGrant(db, tenant, artifact, subject, action) {
        var i :| 0 <= i < |db.grants| && ActiveGrant(db.grants[i], tenant, artifact, subject, action);
        return Ok(db.grants[i]);
      }
      if IndexOfGrant(db.grants, SharedGrantId(n)).Some? {
        return Err(IdTaken);
      }
      var grant := Grant(SharedGrantId(n), tenant, artifact, subject, action, true, actor);
      db := db.(grants := db.grants + [grant]);
      r := Ok(grant);
    }

    method RevokeShare(tenant: string, artifact: ArtifactId, actor: string, id: GrantId, reason: string)
      returns (error: Option<Error>)
      modifies this`db
      ensures Effect(State(), error) == RevokeEffect(old(State()), tenant, artifact, actor, id, reason)
    {
      if !ValidText(reason, MAX_REASON_LENGTH) {
        return Some(InvalidText);
      }
      var access := Authorize(db, tenant, artifact, actor, Share);
      if access.Err? {
        return Some(access.error);
      }
      var i := IndexOfGrant(db.grants, id);
      if i.None? || db.grants[i.value].tenant != tenant || db.grants[i.value].artifact != artifact {
        return Some(GrantNotFound);
      }
      var g := db.grants[i.value];
      if id == OwnerGrantId(artifact, g.action) {
        return Some(OwnerGrantFixed);
      }
      if g.active {
        db := db.(grants := db.grants[i.value := g.(active := false)]);
      } else {
        assert db.grants[i.value := g.(active := false)] == db.grants;
      }
      error := None;
    }

    method Link(tenant: string, source: ArtifactId, target: ArtifactId, kind: string, metadata: string,
                actor: string, id: nat, createdAt: nat) returns (r: Result<Edge, Error>)
      modifies this`db
      ensures var effect := LinkEffect(old(State()), tenant, source, target, kind, metadata, actor, id, createdAt);
              && State() == effect.store
              && (if effect.error.Some? then r == Err(effect.error.value)
                  else r.Ok? && r.value in db.edges && SameLink(r.value, tenant, source, target, kind)
                       && r.value.metadata == metadata)
    {
      if source == target {
        return Err(SelfLink);
      }
      if !ValidText(kind, MAX_EDGE_TYPE_LENGTH) {
        return Err(InvalidText);
      }
      if |metadata| > MAX_CONTEXT_BYTES {
        return Err(TooLarge);
      }
      var ids := [source, target];
      for i := 0 to |ids|
        invariant LinkAccess(db, tenant, ids, actor) == LinkAccess(db, tenant, ids[i..], actor)
      {
        assert ids[i..][1..] == ids[i + 1..];
        var access := Authorize(db, tenant, ids[i], actor, Write);
        if access.Err? {
          return Err(access.error);
        }
      }
      assert ids[2..] == [];
      var existing := FindLink(db.edges, tenant, source, target, kind);
      if existing.Some? {
        return if existing.value.metadata != metadata then Err(EdgeConflict) else Ok(existing.value);
      }
      if exists e :: e in db.edges && e.id == id {
        return Err(IdTaken);
      }
      var e := Edge(id, createdAt, tenant, source, target, kind, metadata);
      InsertedMembers(db.edges, e, e);
      db := db.(edges := Inserted(db.edges, e));
      r := Ok(e);
    }

    method ReadArtifact(tenant: string, artifact: ArtifactId, version: Option<VersionId>, actor: string)
      returns (r: Result<Bytes, Error>)
      ensures r == ReadEffect(State(), tenant, artifact, version, actor)
    {
      var access := Authorize(db, tenant, artifact, actor, Read);
      if access.Err? {
        return Err(access.error);
      }
      var wanted := version;
      if wanted.None? {
        wanted := db.artifacts[artifact].current;
      }
      if wanted.None? || wanted.value !in db.versions {
        return Err(VersionNotFound);
      }
      var row := db.versions[wanted.value];
      if row.tenant != tenant || row.artifact != artifact {
        return Err(VersionNotFound);
      }
      if row.blob !in blobs {
        return Err(BlobMissing);
      }
      r := Ok(blobs[row.blob]);
    }
  }

  lemma InsertedMembers(edges: seq<Edge>, e: Edge, x: Edge)
    ensures x in Inserted(edges, e) <==> x in edges || x == e
  {
    assert x in Inserted(edges, e) <==> x in multiset(Inserted(edges, e));
    assert x in edges <==> x in multiset(edges);
  }

  // -------------------------------------------------------------------- runs

  datatype Op =
    | Create(tenant: string, name: string, upload: Upload, artifact: ArtifactId, version: VersionId, crash: Crash)
    | WriteTo(tenant: string, artifact: ArtifactId, upload: Upload, parent: Option<VersionId>, version: VersionId, crash: Crash)
    | ShareWith(tenant: string, artifact: ArtifactId, actor: string, subject: string, action: Action, reason: string, grant: nat)
    | Revoke(tenant: string, artifact: ArtifactId, actor: string, grantId: GrantId, reason: string)
    | Join(tenant: string, source: ArtifactId, target: ArtifactId, kind: string, metadata: string, actor: string,
           edge: nat, createdAt: nat)
    | SetMembers(members: Option<set<(string, string)>>)

  ghost function Perform(cfg: Config, s: Store, op: Op): Effect {
    match op
    case Create(tenant, name, upload, artifact, version, crash) =>
      CreateEffect(cfg, s, tenant, name, upload, artifact, version, crash)
    case WriteTo(tenant, artifact, upload, parent, version, crash) =>
      WriteEffect(cfg, s, tenant, artifact, upload, parent, version, crash)
    case ShareWith(tenant, artifact, actor, subject, action, reason, grant) =>
      ShareEffect(s, tenant, artifact, actor, subject, action, reason, grant)
    case Revoke(tenant, artifact, actor, grantId, reason) => RevokeEffect(s, tenant, artifact, actor, grantId, reason)
    case Join(tenant, source, target, kind, metadata, actor, edge, createdAt) =>
      LinkEffect(s, tenant, source, target, kind, metadata, actor, edge, createdAt)
    case SetMembers(members) => Effect(s.(db := s.db.(members := members)), None)
  }

  /** The state after a sequence of operations, refused and crashed ones included. */
  ghost function After(cfg: Config, s: Store, ops: seq<Op>): Store
    decreases |ops|
  {
    if ops == [] then s else After(cfg, Perform(cfg, s, ops[0]).store, ops[1..])
  }

  const Empty := Store(EmptyDb, map[])
}
