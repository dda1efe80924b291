// The tables of the artifact service (src/folio_lattice/service.py) as values, and
// the two forms of its access check. Identifiers are numbers: only their
// equality and order matter. An actor is always given (the local mode, where it
// is None, is not part of this model).
module Tables {
  import opened Common

  const MAX_NAME_LENGTH := 255

  type ArtifactId = nat
  type VersionId = nat

  datatype Action = Read | Write | Share

  // "owner_<artifact>_<action>" for the grants made with the artifact.
  datatype GrantId = OwnerGrantId(artifact: ArtifactId, action: Action) | SharedGrantId(n: nat)

  datatype Grant = Grant(
    id: GrantId, tenant: string, artifact: ArtifactId, subject: string, action: Action,
    active: bool, createdBy: string)

  datatype Artifact = Artifact(
    tenant: string, owner: string, name: string, mediaType: string, current: Option<VersionId>)

  datatype Version = Version(
    tenant: string, artifact: ArtifactId, parent: Option<VersionId>, blob: Digest, mediaType: string,
    byteSize: nat, actor: string, reason: string, context: string)

  datatype Chunk = Chunk(ordinal: nat, start: nat, end: nat, content: string)

  datatype Edge = Edge(
    id: nat, createdAt: nat, tenant: string, source: ArtifactId, target: ArtifactId,
    kind: string, metadata: string)

  // Grants are kept in the order they were inserted, edges in the order
  // (createdAt, id) that every query over them asks for, the chunks of a version
  // in the order of their ordinals. `members` are the active members of the
  // membership table, None when there is no such table.
  datatype Db = Db(
    artifacts: map<ArtifactId, Artifact>,
    versions: map<VersionId, Version>,
    chunks: map<VersionId, seq<Chunk>>,
    edges: seq<Edge>,
    grants: seq<Grant>,
    members: Option<set<(string, string)>>)

  const EmptyDb := Db(map[], map[], map[], [], [], None)

  datatype Error =
    | InvalidText
    | TooLarge
    | NotFound                                  // "artifact not found", hidden or missing
    | VersionNotFound
    | BlobMissing
    | ParentMismatch(expected: Option<VersionId>)
    | ReservedReason
    | NotAMember
    | GrantNotFound
    | OwnerGrantFixed
    | SelfLink
    | EdgeConflict
    | DepthOutOfRange
    | IdTaken                                   // a primary key was drawn twice
    | Crashed

  /** `_validate_text`: not blank, at most `maximum` characters. */
  predicate ValidText(s: string, maximum: nat) {
    (exists i :: 0 <= i < |s| && !IsSpace(s[i])) && |s| <= maximum
  }

  predicate ActiveGrant(g: Grant, tenant: string, id: ArtifactId, subject: string, action: Action) {
    g.tenant == tenant && g.artifact == id && g.subject == subject && g.action == action && g.active
  }

  predicate HasActiveGrant(db: Db, tenant: string, id: ArtifactId, subject: string, action: Action) {
    exists i :: 0 <= i < |db.grants| && ActiveGrant(db.grants[i], tenant, id, subject, action)
  }

  /** The check made on one artifact before an operation. */
  function Authorize(db: Db, tenant: string, id: ArtifactId, actor: string, action: Action): Result<(), Error> {
    if id !in db.artifacts || db.artifacts[id].tenant != tenant then Err(NotFound)
    else if !ValidText(actor, MAX_NAME_LENGTH) then Err(InvalidText)
    else if db.artifacts[id].owner == actor then Ok(())
    else if HasActiveGrant(db, tenant, id, actor, action) then Ok(())
    else Err(NotFound)
  }

  // The grants joined to a row of the artifacts table on tenant and artifact.
  function GrantsOf(grants: seq<Grant>, row: Artifact, id: ArtifactId): (joined: seq<Grant>)
    ensures forall g :: g in joined <==> g in grants && g.tenant == row.tenant && g.artifact == id
  {
    if grants == [] then []
    else
      (if grants[0].tenant == row.tenant && grants[0].artifact == id then [grants[0]] else [])
      + GrantsOf(grants[1..], row, id)
  }

  /**
   * The condition `_access_clause` puts on a row of the artifacts table: its owner,
   * or EXISTS over the grants that belong to the row.
   */
  predicate AccessClause(db: Db, id: ArtifactId, actor: string, action: Action)
    requires id in db.artifacts
  {
    var row := db.artifacts[id];
    || row.owner == actor
    || exists g :: g in GrantsOf(db.grants, row, id) && g.subject == actor && g.action == action && g.active
  }

  lemma ClauseIsGrant(db: Db, id: ArtifactId, actor: string, action: Action)
    requires id in db.artifacts
    ensures AccessClause(db, id, actor, action) <==>
              db.artifacts[id].owner == actor || HasActiveGrant(db, db.artifacts[id].tenant, id, actor, action)
  {
    var row := db.artifacts[id];
    if HasActiveGrant(db, row.tenant, id, actor, action) {
      var i :| 0 <= i < |db.grants| && ActiveGrant(db.grants[i], row.tenant, id, actor, action);
      assert db.grants[i] in GrantsOf(db.grants, row, id);
    }
  }

  /** The artifacts of a tenant that a query under `_access_clause` can return. */
  predicate Visible(db: Db, tenant: string, id: ArtifactId, actor: string, action: Action) {
    id in db.artifacts && db.artifacts[id].tenant == tenant && AccessClause(db, id, actor, action)
  }

  /** The two forms agree, artifact by artifact. */
  lemma AuthorizeIsAccessClause(db: Db, tenant: string, id: ArtifactId, actor: string, action: Action)
    requires ValidText(actor, MAX_NAME_LENGTH)
    ensures Authorize(db, tenant, id, actor, action).Ok? <==> Visible(db, tenant, id, actor, action)
  {
    if id in db.artifacts {
      ClauseIsGrant(db, id, actor, action);
    }
  }
}
