// What every run of the artifact service keeps about access rights: who holds
// one, since when, and from whom.
module GrantHistory {
  import opened Common
  import opened Tables
  import opened Lattice

  predicate SameRight(a: Grant, b: Grant) {
    a.tenant == b.tenant && a.artifact == b.artifact && a.subject == b.subject && a.action == b.action
  }

  // Two rows of the grants table never share an id, nor an active right.
  ghost predicate Separate(a: Grant, b: Grant) {
    a.id != b.id && !(a.active && b.active && SameRight(a, b))
  }

  ghost predicate AllSeparate(grants: seq<Grant>) {
    forall i, j :: 0 <= i < j < |grants| ==> Separate(grants[i], grants[j])
  }

  // A row belongs to an artifact of its tenant; an owner's row is active and the owner's.
  ghost predicate GrantSound(db: Db, g: Grant) {
    && g.artifact in db.artifacts && db.artifacts[g.artifact].tenant == g.tenant
    && (g.id.OwnerGrantId? ==>
          g.id.artifact == g.artifact && g.id.action == g.action
          && g.subject == g.createdBy == db.artifacts[g.artifact].owner && g.active)
  }

  ghost predicate AllSound(db: Db) {
    && (forall i :: 0 <= i < |db.grants| ==> GrantSound(db, db.grants[i]))
    && (forall id :: id in db.artifacts ==> ValidText(db.artifacts[id].owner, MAX_NAME_LENGTH))
  }

  // The row at `j` gives its subject the right to share the artifact.
  predicate LetsShare(g: Grant, artifact: ArtifactId, subject: string) {
    g.artifact == artifact && g.subject == subject && g.action == Share
  }

  // A shared right was granted by the owner, or by the subject of an earlier share right.
  ghost predicate Granted(db: Db, i: nat)
    requires i < |db.grants|
  {
    var g := db.grants[i];
    g.id.SharedGrantId? && g.artifact in db.artifacts ==>
      || g.createdBy == db.artifacts[g.artifact].owner
      || exists j :: 0 <= j < i && LetsShare(db.grants[j], g.artifact, g.createdBy)
  }

  ghost predicate AllGranted(db: Db) {
    forall i :: 0 <= i < |db.grants| ==> Granted(db, i)
  }

  ghost predicate GrantInv(db: Db) {
    AllSeparate(db.grants) && AllSound(db) && AllGranted(db)
  }

  // ------------------------------------------------------------- one step

  // Owners and tenants of the artifacts stay.
  ghost predicate OwnersStay(db: Db, db': Db) {
    forall id :: id in db.artifacts ==>
      id in db'.artifacts && db'.artifacts[id].owner == db.artifacts[id].owner
      && db'.artifacts[id].tenant == db.artifacts[id].tenant
  }

  lemma InsertKeepsOwners(cfg: Config, s: Store, db: Db, tenant: string, artifact: ArtifactId, u: Upload,
                          parent: Option<VersionId>, id: VersionId, crash: Crash)
    requires OwnersStay(s.db, db)
    ensures OwnersStay(s.db, InsertEffect(cfg, s, db, tenant, artifact, u, parent, id, crash).store.db)
  {
  }

  lemma StepKeepsOwners(cfg: Config, s: Store, op: Op)
    ensures OwnersStay(s.db, Perform(cfg, s, op).store.db)
  {
    hide Authorize, UploadError, ValidText, InsertEffect;
    if op.Create? {
      var db := WithNewArtifact(s.db, op.tenant, op.artifact, op.name, op.upload.mediaType, op.upload.actor);
      if op.artifact !in s.db.artifacts {
        InsertKeepsOwners(cfg, s, db, op.tenant, op.artifact, op.upload, None, op.version, op.crash);
      }
    } else if op.WriteTo? {
      InsertKeepsOwners(cfg, s, s.db, op.tenant, op.artifact, op.upload, op.parent, op.version, op.crash);
    }
  }

  lemma SoundStays(db: Db, db': Db, g: Grant)
    requires OwnersStay(db, db') && GrantSound(db, g)
    ensures GrantSound(db', g)
  {
  }

  lemma GrantedStays(db: Db, db': Db, i: nat)
    requires OwnersStay(db, db') && i < |db.grants| && db.grants <= db'.grants
    requires Granted(db, i) && GrantSound(db, db.grants[i])
    ensures Granted(db', i)
  {
    var g := db.grants[i];
    if g.id.SharedGrantId? && g.createdBy != db.artifacts[g.artifact].owner {
      var j :| 0 <= j < i && LetsShare(db.grants[j], g.artifact, g.createdBy);
      assert LetsShare(db'.grants[j], g.artifact, g.createdBy);
    }
  }

  // A row that may be added to the grants table.
  ghost predicate MayAdd(db: Db, g: Grant) {
    && GrantSound(db, g)
    && (forall i :: 0 <= i < |db.grants| ==> Separate(db.grants[i], g))
    && (g.id.SharedGrantId? ==>
          || g.createdBy == db.artifacts[g.artifact].owner
          || exists j :: 0 <= j < |db.grants| && LetsShare(db.grants[j], g.artifact, g.createdBy))
  }

  lemma AddKeepsInv(db: Db, g: Grant)
    requires GrantInv(db) && MayAdd(db, g)
    ensures GrantInv(db.(grants := db.grants + [g]))
  {
    var db' := db.(grants := db.grants + [g]);
    assert AllSeparate(db'.grants);
    forall i | 0 <= i < |db'.grants| ensures GrantSound(db', db'.grants[i]) && Granted(db', i) {
      if i < |db.grants| {
        SoundStays(db, db', db.grants[i]);
        GrantedStays(db, db', i);
      } else {
        SoundStays(db, db', g);
        if g.id.SharedGrantId? && g.createdBy != db.artifacts[g.artifact].owner {
          var j :| 0 <= j < |db.grants| && LetsShare(db.grants[j], g.artifact, g.createdBy);
          assert LetsShare(db'.grants[j], g.artifact, g.createdBy);
        }
      }
    }
  }

  // Only the artifacts table changed, and no owner.
  lemma TablesKeepInv(db: Db, db': Db)
    requires GrantInv(db) && OwnersStay(db, db') && db'.grants == db.grants
    requires forall id :: id in db'.artifacts ==> ValidText(db'.artifacts[id].owner, MAX_NAME_LENGTH)
    ensures GrantInv(db')
  {
    forall i | 0 <= i < |db.grants| ensures GrantSound(db', db'.grants[i]) && Granted(db', i) {
      SoundStays(db, db', db.grants[i]);
      GrantedStays(db, db', i);
    }
    hide Separate, GrantSound, Granted, ValidText;
  }

  lemma OwnerMayAdd(db: Db, tenant: string, id: ArtifactId, owner: string, action: Action)
    requires id in db.artifacts && db.artifacts[id].owner == owner && db.artifacts[id].tenant == tenant
    requires forall i :: 0 <= i < |db.grants| ==>
               db.grants[i].artifact == id ==> db.grants[i].id.OwnerGrantId? && db.grants[i].action != action
    requires forall i :: 0 <= i < |db.grants| ==> GrantSound(db, db.grants[i])
    ensures MayAdd(db, OwnerGrant(tenant, id, owner, action))
  {
  }

  lemma NewArtifactKeepsInv(db: Db, tenant: string, id: ArtifactId, name: string, mediaType: string, owner: string)
    requires GrantInv(db) && id !in db.artifacts && ValidText(owner, MAX_NAME_LENGTH)
    ensures GrantInv(WithNewArtifact(db, tenant, id, name, mediaType, owner))
  {
    var db0 := db.(artifacts := db.artifacts[id := Artifact(tenant, owner, name, mediaType, None)]);
    forall i | 0 <= i < |db.grants| ensures db.grants[i].artifact != id {
      assert GrantSound(db, db.grants[i]);
    }
    TablesKeepInv(db, db0);
    hide ValidText, AllSeparate, AllGranted, MayAdd;
    OwnerMayAdd(db0, tenant, id, owner, Read);
    AddKeepsInv(db0, OwnerGrant(tenant, id, owner, Read));
    var db1 := db0.(grants := db0.grants + [OwnerGrant(tenant, id, owner, Read)]);
    OwnerMayAdd(db1, tenant, id, owner, Write);
    AddKeepsInv(db1, OwnerGrant(tenant, id, owner, Write));
    var db2 := db1.(grants := db1.grants + [OwnerGrant(tenant, id, owner, Write)]);
    OwnerMayAdd(db2, tenant, id, owner, Share);
    AddKeepsInv(db2, OwnerGrant(tenant, id, owner, Share));
    assert db2.grants + [OwnerGrant(tenant, id, owner, Share)]
        == WithNewArtifact(db, tenant, id, name, mediaType, owner).grants;
  }

  lemma ShareKeepsInv(s: Store, tenant: string, artifact: ArtifactId, actor: string, subject: string,
                      action: Action, reason: string, n: nat)
    requires GrantInv(s.db)
    ensures GrantInv(ShareEffect(s, tenant, artifact, actor, subject, action, reason, n).store.db)
  {
    var effect := ShareEffect(s, tenant, artifact, actor, subject, action, reason, n);
    if effect.store != s {
      var db := s.db;
      var g := Grant(SharedGrantId(n), tenant, artifact, subject, action, true, actor);
      if db.artifacts[artifact].owner != actor {
        var j :| 0 <= j < |db.grants| && ActiveGrant(db.grants[j], tenant, artifact, actor, Share);
        assert LetsShare(db.grants[j], artifact, actor);
      }
      forall i | 0 <= i < |db.grants| ensures Separate(db.grants[i], g) {
        assert !ActiveGrant(db.grants[i], tenant, artifact, subject, action);
      }
      hide GrantInv, Separate;
      AddKeepsInv(db, g);
    }
  }

  lemma RevokedKeepsInv(db: Db, i: nat)
    requires GrantInv(db) && i < |db.grants| && db.grants[i].id.SharedGrantId?
    ensures GrantInv(db.(grants := db.grants[i := db.grants[i].(active := false)]))
  {
    var g := db.grants[i].(active := false);
    var db' := db.(grants := db.grants[i := g]);
    assert GrantSound(db, db.grants[i]);
    forall k | 0 <= k < |db'.grants| ensures GrantSound(db', db'.grants[k]) && Granted(db', k) {
      assert GrantSound(db, db.grants[k]) && Granted(db, k);
      RevokedStaysGranted(db, i, k);
    }
    forall j, k | 0 <= j < k < |db'.grants| ensures Separate(db'.grants[j], db'.grants[k]) {
      assert Separate(db.grants[j], db.grants[k]);
    }
  }

  lemma RevokedStaysGranted(db: Db, i: nat, k: nat)
    requires i < |db.grants| && k < |db.grants| && Granted(db, k)
    ensures Granted(db.(grants := db.grants[i := db.grants[i].(active := false)]), k)
  {
    var db' := db.(grants := db.grants[i := db.grants[i].(active := false)]);
    var g := db.grants[k];
    if g.id.SharedGrantId? && g.artifact in db.artifacts && g.createdBy != db.artifacts[g.artifact].owner {
      var j :| 0 <= j < k && LetsShare(db.grants[j], g.artifact, g.createdBy);
      assert LetsShare(db'.grants[j], g.artifact, g.createdBy);
    }
  }

  lemma RevokeKeepsInv(s: Store, tenant: string, artifact: ArtifactId, actor: string, id: GrantId, reason: string)
    requires GrantInv(s.db)
    ensures GrantInv(RevokeEffect(s, tenant, artifact, actor, id, reason).store.db)
  {
    var effect := RevokeEffect(s, tenant, artifact, actor, id, reason);
    if effect.store != s {
      var i := IndexOfGrant(s.db.grants, id).value;
      assert GrantSound(s.db, s.db.grants[i]);
      hide GrantInv;
      RevokedKeepsInv(s.db, i);
    }
  }

  lemma InsertKeepsGrants(cfg: Config, s: Store, db: Db, tenant: string, artifact: ArtifactId, u: Upload,
                          parent: Option<VersionId>, id: VersionId, crash: Crash)
    requires GrantInv(s.db) && GrantInv(db)
    ensures GrantInv(InsertEffect(cfg, s, db, tenant, artifact, u, parent, id, crash).store.db)
  {
    var effect := InsertEffect(cfg, s, db, tenant, artifact, u, parent, id, crash);
    if effect.error.None? {
      TablesKeepInv(db, effect.store.db);
    }
    hide GrantInv;
  }

  lemma StepKeepsGrants(cfg: Config, s: Store, op: Op)
    requires GrantInv(s.db)
    ensures GrantInv(Perform(cfg, s, op).store.db)
  {
    hide GrantInv, InsertEffect, ShareEffect, RevokeEffect, WithNewArtifact, Authorize;
    match op
    case Create(tenant, name, upload, artifact, version, crash) =>
      if artifact !in s.db.artifacts && ValidText(upload.actor, MAX_NAME_LENGTH) {
        NewArtifactKeepsInv(s.db, tenant, artifact, name, upload.mediaType, upload.actor);
        InsertKeepsGrants(cfg, s, WithNewArtifact(s.db, tenant, artifact, name, upload.mediaType, upload.actor),
                          tenant, artifact, upload, None, version, crash);
      }
    case WriteTo(tenant, artifact, upload, parent, version, crash) =>
      InsertKeepsGrants(cfg, s, s.db, tenant, artifact, upload, parent, version, crash);
    case ShareWith(tenant, artifact, actor, subject, action, reason, grant) =>
      ShareKeepsInv(s, tenant, artifact, actor, subject, action, reason, grant);
    case Revoke(tenant, artifact, actor, grantId, reason) =>
      RevokeKeepsInv(s, tenant, artifact, actor, grantId, reason);
    case _ =>
      OthersKeepGrants(cfg, s, op);
  }

  lemma OthersKeepGrants(cfg: Config, s: Store, op: Op)
    requires GrantInv(s.db) && (op.Join? || op.SetMembers?)
    ensures GrantInv(Perform(cfg, s, op).store.db)
  {
    var db' := Perform(cfg, s, op).store.db;
    assert db'.grants == s.db.grants && db'.artifacts == s.db.artifacts;
    hide Perform;
    TablesKeepInv(s.db, db');
  }

  lemma {:induction false} RunKeepsGrants(cfg: Config, s: Store, ops: seq<Op>)
    requires GrantInv(s.db)
    ensures GrantInv(After(cfg, s, ops).db)
    decreases |ops|
  {
    if ops != [] {
      StepKeepsGrants(cfg, s, ops[0]);
      hide GrantInv, Perform;
      RunKeepsGrants(cfg, Perform(cfg, s, ops[0]).store, ops[1..]);
    }
  }

  // ------------------------------------------------------ over every run

  /** At most one active row gives an actor a right on an artifact. */
  lemma AtMostOneActive(cfg: Config, ops: seq<Op>, tenant: string, artifact: ArtifactId, subject: string, action: Action,
                        i: nat, j: nat)
    requires i < |After(cfg, Empty, ops).db.grants| && j < |After(cfg, Empty, ops).db.grants|
    requires ActiveGrant(After(cfg, Empty, ops).db.grants[i], tenant, artifact, subject, action)
    requires ActiveGrant(After(cfg, Empty, ops).db.grants[j], tenant, artifact, subject, action)
    ensures i == j
  {
    RunKeepsGrants(cfg, Empty, ops);
    var grants := After(cfg, Empty, ops).db.grants;
    hide After, AllSound, AllGranted;
    assert forall a, b :: 0 <= a < b < |grants| ==> Separate(grants[a], grants[b]);
  }

  lemma {:induction false} OwnersStayOver(cfg: Config, s: Store, ops: seq<Op>)
    ensures OwnersStay(s.db, After(cfg, s, ops).db)
    decreases |ops|
  {
    if ops != [] {
      StepKeepsOwners(cfg, s, ops[0]);
      OwnersStayOver(cfg, Perform(cfg, s, ops[0]).store, ops[1..]);
      hide Perform;
    }
  }

  /** The owner is authorised for every action, for ever, whatever anyone shares or revokes. */
  lemma OwnerLosesNothing(cfg: Config, before: seq<Op>, later: seq<Op>, id: ArtifactId, action: Action)
    requires id in After(cfg, Empty, before).db.artifacts
    ensures var s := After(cfg, Empty, before);
            var row := s.db.artifacts[id];
            Authorize(After(cfg, s, later).db, row.tenant, id, row.owner, action) == Ok(())
  {
    var s := After(cfg, Empty, before);
    RunKeepsGrants(cfg, Empty, before);
    OwnersStayOver(cfg, s, later);
    hide AllSeparate, AllGranted, GrantSound, After, ValidText;
    assert ValidText(s.db.artifacts[id].owner, MAX_NAME_LENGTH);
  }

  // From the row at `chain[0]` back to a row the owner made, each made by the subject of the next.
  ghost predicate Provenance(db: Db, chain: seq<nat>) {
    && chain != []
    && (forall k :: 0 <= k < |chain| ==> chain[k] < |db.grants|)
    && (forall k :: 0 < k < |chain| ==>
          && chain[k] < chain[k - 1]
          && LetsShare(db.grants[chain[k]], db.grants[chain[k - 1]].artifact, db.grants[chain[k - 1]].createdBy))
    && var last := db.grants[chain[|chain| - 1]];
       last.artifact in db.artifacts && last.createdBy == db.artifacts[last.artifact].owner
  }

  lemma {:induction false} ProvenanceOf(db: Db, i: nat) returns (chain: seq<nat>)
    requires GrantInv(db) && i < |db.grants|
    ensures Provenance(db, chain) && chain[0] == i
    decreases i
  {
    var g := db.grants[i];
    assert GrantSound(db, g) && Granted(db, i);
    if g.createdBy == db.artifacts[g.artifact].owner {
      chain := [i];
    } else {
      var j :| 0 <= j < i && LetsShare(db.grants[j], g.artifact, g.createdBy);
      hide GrantInv, Granted, GrantSound;
      var rest := ProvenanceOf(db, j);
      chain := [i] + rest;
      forall k | 0 < k < |chain|
        ensures chain[k] < chain[k - 1]
        ensures LetsShare(db.grants[chain[k]], db.grants[chain[k - 1]].artifact, db.grants[chain[k - 1]].createdBy)
      {
        assert chain[k] == rest[k - 1];
        if k > 1 {
          assert chain[k - 1] == rest[k - 2];
          assert rest[k - 1] < rest[k - 2];
        }
      }
    }
  }

  /** Every right anyone ever held goes back to the owner through rights to share. */
  lemma EveryRightComesFromTheOwner(cfg: Config, ops: seq<Op>, i: nat)
    requires i < |After(cfg, Empty, ops).db.grants|
    ensures exists chain :: Provenance(After(cfg, Empty, ops).db, chain) && chain[0] == i
  {
    RunKeepsGrants(cfg, Empty, ops);
    var chain := ProvenanceOf(After(cfg, Empty, ops).db, i);
  }

  // ------------------------------------------ every right, when it was given

  // The same row, active or not.
  predicate SameRow(a: Grant, b: Grant) {
    a.(active := b.active) == b
  }

  ghost predicate RowsStay(db: Db, db': Db) {
    |db.grants| <= |db'.grants| && forall i :: 0 <= i < |db.grants| ==> SameRow(db.grants[i], db'.grants[i])
  }

  // Row `i` is added by `op` on the strength of the active row `ground`, or of owning the artifact.
  ghost predicate Gives(s: Store, op: Op, s': Store, i: nat, ground: Option<nat>) {
    && |s.db.grants| <= i < |s'.db.grants|
    && var g := s'.db.grants[i];
       match ground
       case None =>
         && g.artifact in s'.db.artifacts && g.createdBy == s'.db.artifacts[g.artifact].owner
         && (op.Create? || (op.ShareWith? && op.actor == g.createdBy))
       case Some(j) =>
         && j < |s.db.grants| && ActiveGrant(s.db.grants[j], g.tenant, g.artifact, g.createdBy, Share)
         && op.ShareWith? && op.actor == g.createdBy
  }

  lemma InsertAddsNoRow(cfg: Config, s: Store, db: Db, tenant: string, artifact: ArtifactId, u: Upload,
                        parent: Option<VersionId>, id: VersionId, crash: Crash)
    ensures var s' := InsertEffect(cfg, s, db, tenant, artifact, u, parent, id, crash).store;
            && (s'.db.grants == s.db.grants || s'.db.grants == db.grants)
            && (s'.db.grants != s.db.grants ==>
                  && s'.db.artifacts.Keys == db.artifacts.Keys
                  && forall a :: a in db.artifacts ==> s'.db.artifacts[a].owner == db.artifacts[a].owner)
  {
  }

  lemma CreateGives(cfg: Config, s: Store, op: Op, i: nat)
    requires op.Create? && |s.db.grants| <= i < |Perform(cfg, s, op).store.db.grants|
    ensures Gives(s, op, Perform(cfg, s, op).store, i, None)
  {
    var db := WithNewArtifact(s.db, op.tenant, op.artifact, op.name, op.upload.mediaType, op.upload.actor);
    InsertAddsNoRow(cfg, s, db, op.tenant, op.artifact, op.upload, None, op.version, op.crash);
    assert forall k :: |s.db.grants| <= k < |db.grants| ==>
             db.grants[k].artifact == op.artifact && db.grants[k].createdBy == op.upload.actor;
    hide InsertEffect, ValidText, UploadError;
  }

  lemma ShareGives(cfg: Config, s: Store, op: Op, i: nat) returns (ground: Option<nat>)
    requires op.ShareWith? && |s.db.grants| <= i < |Perform(cfg, s, op).store.db.grants|
    ensures Gives(s, op, Perform(cfg, s, op).store, i, ground)
  {
    hide ValidText, IsReserved, IndexOfGrant;
    ground := None;
    if s.db.artifacts[op.artifact].owner != op.actor {
      var j: nat :| j < |s.db.grants| && ActiveGrant(s.db.grants[j], op.tenant, op.artifact, op.actor, Share);
      ground := Some(j);
    }
  }

  lemma StepKeepsRows(cfg: Config, s: Store, op: Op)
    ensures RowsStay(s.db, Perform(cfg, s, op).store.db)
    ensures !op.Create? && !op.ShareWith? ==> |Perform(cfg, s, op).store.db.grants| == |s.db.grants|
  {
    hide ValidText, IsReserved, Authorize, UploadError;
    if op.Create? {
      var db := WithNewArtifact(s.db, op.tenant, op.artifact, op.name, op.upload.mediaType, op.upload.actor);
      InsertAddsNoRow(cfg, s, db, op.tenant, op.artifact, op.upload, None, op.version, op.crash);
      hide InsertEffect;
    } else if op.WriteTo? {
      InsertAddsNoRow(cfg, s, s.db, op.tenant, op.artifact, op.upload, op.parent, op.version, op.crash);
      hide InsertEffect;
    }
  }

  lemma StepGives(cfg: Config, s: Store, op: Op, i: nat) returns (ground: Option<nat>)
    requires |s.db.grants| <= i < |Perform(cfg, s, op).store.db.grants|
    ensures Gives(s, op, Perform(cfg, s, op).store, i, ground)
  {
    StepKeepsRows(cfg, s, op);
    hide Perform, Gives;
    ground := None;
    if op.Create? {
      CreateGives(cfg, s, op, i);
    } else {
      ground := ShareGives(cfg, s, op, i);
    }
  }

  // The store before operation `k` of a run.
  ghost function At(cfg: Config, ops: seq<Op>, k: nat): Store
    requires k <= |ops|
  {
    After(cfg, Empty, ops[..k])
  }

  lemma {:induction false} AfterOneMore(cfg: Config, s: Store, ops: seq<Op>, op: Op)
    ensures After(cfg, s, ops + [op]) == Perform(cfg, After(cfg, s, ops), op).store
    decreases |ops|
  {
    if ops == [] {
      assert ([] + [op])[1..] == [] && ([] + [op])[0] == op;
    } else {
      assert (ops + [op])[1..] == ops[1..] + [op];
      hide Perform;
      AfterOneMore(cfg, Perform(cfg, s, ops[0]).store, ops[1..], op);
    }
  }

  lemma NextStore(cfg: Config, ops: seq<Op>, k: nat)
    requires k < |ops|
    ensures At(cfg, ops, k + 1) == Perform(cfg, At(cfg, ops, k), ops[k]).store
  {
    hide Perform;
    AfterOneMore(cfg, Empty, ops[..k], ops[k]);
    assert ops[..k + 1] == ops[..k] + [ops[k]];
  }

  lemma {:induction false} RowsStayOver(cfg: Config, ops: seq<Op>, k: nat, m: nat)
    requires k <= m <= |ops|
    ensures RowsStay(At(cfg, ops, k).db, At(cfg, ops, m).db)
    decreases m
  {
    hide Perform, At;
    if k < m {
      RowsStayOver(cfg, ops, k, m - 1);
      NextStore(cfg, ops, m - 1);
      StepKeepsRows(cfg, At(cfg, ops, m - 1), ops[m - 1]);
    }
  }

  // One link of a chain of rights: the row, and the operation of the run that added it.
  datatype Origin = Origin(row: nat, op: nat)

  ghost predicate GivenAt(cfg: Config, ops: seq<Op>, o: Origin, ground: Option<nat>) {
    o.op < |ops| && Gives(At(cfg, ops, o.op), ops[o.op], At(cfg, ops, o.op + 1), o.row, ground)
  }

  function RowAfter(chain: seq<Origin>, k: nat): Option<nat> {
    if k + 1 < |chain| then Some(chain[k + 1].row) else None
  }

  /**
   * Each row was added by its operation on the strength of the next one, which was
   * active at that moment; the last one on the strength of owning the artifact.
   */
  ghost predicate GivenAlong(cfg: Config, ops: seq<Op>, chain: seq<Origin>) {
    chain != [] && forall k :: 0 <= k < |chain| ==> GivenAt(cfg, ops, chain[k], RowAfter(chain, k))
  }

  // The operation that added a row.
  lemma {:induction false} AddedBy(cfg: Config, ops: seq<Op>, m: nat, i: nat) returns (k: nat)
    requires m <= |ops| && i < |At(cfg, ops, m).db.grants|
    ensures k < m && |At(cfg, ops, k).db.grants| <= i < |At(cfg, ops, k + 1).db.grants|
    decreases m
  {
    assert At(cfg, ops, 0) == Empty;
    hide At;
    if i < |At(cfg, ops, m - 1).db.grants| {
      k := AddedBy(cfg, ops, m - 1, i);
    } else {
      k := m - 1;
    }
  }

  lemma LongerChain(cfg: Config, ops: seq<Op>, first: Origin, rest: seq<Origin>)
    requires GivenAlong(cfg, ops, rest) && GivenAt(cfg, ops, first, Some(rest[0].row))
    ensures GivenAlong(cfg, ops, [first] + rest)
  {
    hide GivenAt;
    var chain := [first] + rest;
    forall k | 1 <= k < |chain| ensures chain[k] == rest[k - 1] && RowAfter(chain, k) == RowAfter(rest, k - 1) {
    }
  }

  lemma {:induction false} OriginOf(cfg: Config, ops: seq<Op>, i: nat) returns (chain: seq<Origin>)
    requires i < |At(cfg, ops, |ops|).db.grants|
    ensures GivenAlong(cfg, ops, chain) && chain[0].row == i
    decreases i
  {
    var k := AddedBy(cfg, ops, |ops|, i);
    NextStore(cfg, ops, k);
    var ground := StepGives(cfg, At(cfg, ops, k), ops[k], i);
    if ground.None? {
      chain := [Origin(i, k)];
      assert GivenAt(cfg, ops, chain[0], RowAfter(chain, 0));
    } else {
      assert ground.value < |At(cfg, ops, k).db.grants| && GivenAt(cfg, ops, Origin(i, k), ground);
      hide GivenAt, Gives, At, Perform;
      RowsStayOver(cfg, ops, k, |ops|);
      var rest := OriginOf(cfg, ops, ground.value);
      LongerChain(cfg, ops, Origin(i, k), rest);
      chain := [Origin(i, k)] + rest;
    }
  }

  /**
   * Every row ever in the grants table was added by an operation of the run, by someone
   * whose right to share the artifact was active at that moment, and so on back to the owner.
   */
  lemma EveryRightWasLive(cfg: Config, ops: seq<Op>, i: nat)
    requires i < |After(cfg, Empty, ops).db.grants|
    ensures exists chain: seq<Origin> :: GivenAlong(cfg, ops, chain) && chain[0].row == i
                            && i < |At(cfg, ops, chain[0].op + 1).db.grants|
                            && SameRow(At(cfg, ops, chain[0].op + 1).db.grants[i], After(cfg, Empty, ops).db.grants[i])
  {
    assert ops[..|ops|] == ops;
    var chain := OriginOf(cfg, ops, i);
    AddedRowStays(cfg, ops, chain[0], RowAfter(chain, 0));
    hide GivenAlong, After;
  }

  lemma AddedRowStays(cfg: Config, ops: seq<Op>, o: Origin, ground: Option<nat>)
    requires GivenAt(cfg, ops, o, ground)
    ensures o.row < |At(cfg, ops, o.op + 1).db.grants| && o.row < |At(cfg, ops, |ops|).db.grants|
    ensures SameRow(At(cfg, ops, o.op + 1).db.grants[o.row], At(cfg, ops, |ops|).db.grants[o.row])
  {
    RowsStayOver(cfg, ops, o.op + 1, |ops|);
    hide At;
  }

  // -------------------------------------------------------- losing a right

  ghost predicate Lacks(db: Db, tenant: string, artifact: ArtifactId, subject: string, action: Action) {
    && artifact in db.artifacts && db.artifacts[artifact].owner != subject
    && forall i :: 0 <= i < |db.grants| ==> !ActiveGrant(db.grants[i], tenant, artifact, subject, action)
  }

  ghost predicate Shares(op: Op, artifact: ArtifactId, subject: string, action: Action) {
    op.ShareWith? && op.artifact == artifact && op.subject == subject && op.action == action
  }

  lemma LackingIsRefused(db: Db, tenant: string, artifact: ArtifactId, subject: string, action: Action)
    requires Lacks(db, tenant, artifact, subject, action)
    ensures Authorize(db, tenant, artifact, subject, action).Err?
  {
  }

  lemma InsertKeepsLacking(cfg: Config, s: Store, db: Db, tenant: string, at: ArtifactId, u: Upload,
                           parent: Option<VersionId>, id: VersionId, crash: Crash,
                           tenant': string, artifact: ArtifactId, subject: string, action: Action)
    requires Lacks(s.db, tenant', artifact, subject, action) && Lacks(db, tenant', artifact, subject, action)
    ensures Lacks(InsertEffect(cfg, s, db, tenant, at, u, parent, id, crash).store.db, tenant', artifact, subject, action)
  {
  }

  lemma StepKeepsLacking(cfg: Config, s: Store, op: Op, tenant: string, artifact: ArtifactId, subject: string, action: Action)
    requires Lacks(s.db, tenant, artifact, subject, action) && !Shares(op, artifact, subject, action)
    ensures Lacks(Perform(cfg, s, op).store.db, tenant, artifact, subject, action)
  {
    if op.Create? {
      if op.artifact !in s.db.artifacts {
        var db := WithNewArtifact(s.db, op.tenant, op.artifact, op.name, op.upload.mediaType, op.upload.actor);
        assert Lacks(db, tenant, artifact, subject, action);
        InsertKeepsLacking(cfg, s, db, op.tenant, op.artifact, op.upload, None, op.version, op.crash,
                           tenant, artifact, subject, action);
        hide InsertEffect, WithNewArtifact, Lacks;
      }
    } else if op.WriteTo? {
      InsertKeepsLacking(cfg, s, s.db, op.tenant, op.artifact, op.upload, op.parent, op.version, op.crash,
                         tenant, artifact, subject, action);
      hide InsertEffect, Lacks;
    } else {
      hide InsertEffect;
    }
  }

  lemma {:induction false} LackingStays(cfg: Config, s: Store, ops: seq<Op>, tenant: string, artifact: ArtifactId,
                                        subject: string, action: Action)
    requires Lacks(s.db, tenant, artifact, subject, action)
    requires forall op :: op in ops ==> !Shares(op, artifact, subject, action)
    ensures Lacks(After(cfg, s, ops).db, tenant, artifact, subject, action)
    decreases |ops|
  {
    if ops != [] {
      StepKeepsLacking(cfg, s, ops[0], tenant, artifact, subject, action);
      hide Lacks, Perform, Shares;
      LackingStays(cfg, Perform(cfg, s, ops[0]).store, ops[1..], tenant, artifact, subject, action);
    }
  }

  lemma RevokeTakesTheRight(s: Store, tenant: string, artifact: ArtifactId, actor: string, g: Grant, reason: string)
    requires GrantInv(s.db) && g in s.db.grants && g.active && g.tenant == tenant && g.artifact == artifact
    requires artifact in s.db.artifacts && s.db.artifacts[artifact].owner != g.subject
    requires RevokeEffect(s, tenant, artifact, actor, g.id, reason).error.None?
    ensures Lacks(RevokeEffect(s, tenant, artifact, actor, g.id, reason).store.db, tenant, artifact, g.subject, g.action)
  {
    var i := IndexOfGrant(s.db.grants, g.id).value;
    var k :| 0 <= k < |s.db.grants| && s.db.grants[k] == g;
    assert i < k ==> Separate(s.db.grants[i], s.db.grants[k]);
    assert k < i ==> Separate(s.db.grants[k], s.db.grants[i]);
    var db' := RevokeEffect(s, tenant, artifact, actor, g.id, reason).store.db;
    forall j | 0 <= j < |db'.grants| ensures !ActiveGrant(db'.grants[j], tenant, artifact, g.subject, g.action) {
      assert j < i ==> Separate(s.db.grants[j], s.db.grants[i]);
      assert i < j ==> Separate(s.db.grants[i], s.db.grants[j]);
    }
  }

  /** A right that was revoked stays lost, whatever else happens, until it is shared anew. */
  lemma RevokedUntilSharedAnew(cfg: Config, before: seq<Op>, revoke: Op, later: seq<Op>, g: Grant)
    requires revoke.Revoke? && revoke.grantId == g.id && revoke.tenant == g.tenant && revoke.artifact == g.artifact
    requires var s := After(cfg, Empty, before);
             && g in s.db.grants && g.active
             && g.artifact in s.db.artifacts && s.db.artifacts[g.artifact].owner != g.subject
             && Perform(cfg, s, revoke).error.None?
    requires forall op :: op in later ==> !Shares(op, g.artifact, g.subject, g.action)
    ensures var s := After(cfg, Perform(cfg, After(cfg, Empty, before), revoke).store, later);
            Authorize(s.db, g.tenant, g.artifact, g.subject, g.action).Err?
  {
    var s := After(cfg, Empty, before);
    RunKeepsGrants(cfg, Empty, before);
    var s' := RevokeEffect(s, g.tenant, g.artifact, revoke.actor, g.id, revoke.reason).store;
    RevokeTakesTheRight(s, g.tenant, g.artifact, revoke.actor, g, revoke.reason);
    hide Lacks, GrantInv, RevokeEffect, Shares;
    LackingStays(cfg, s', later, g.tenant, g.artifact, g.subject, g.action);
    LackingIsRefused(After(cfg, s', later).db, g.tenant, g.artifact, g.subject, g.action);
  }

  /** A share that succeeds gives the right. */
  lemma ShareGivesTheRight(s: Store, tenant: string, artifact: ArtifactId, actor: string, subject: string,
                           action: Action, reason: string, n: nat)
    requires ShareEffect(s, tenant, artifact, actor, subject, action, reason, n).error.None?
    ensures Authorize(ShareEffect(s, tenant, artifact, actor, subject, action, reason, n).store.db,
                      tenant, artifact, subject, action) == Ok(())
  {
    var db' := ShareEffect(s, tenant, artifact, actor, subject, action, reason, n).store.db;
    if db'.grants != s.db.grants {
      assert ActiveGrant(db'.grants[|s.db.grants|], tenant, artifact, subject, action);
    }
    assert HasActiveGrant(db', tenant, artifact, subject, action);
  }

  // ------------------------------------------------------ who may do what

  /** No operation changes a table unless its actor held the right for it; a share goes to an active member only. */
  lemma EveryChangeIsAuthorised(cfg: Config, s: Store, op: Op)
    requires Perform(cfg, s, op).store.db != s.db
    ensures op.WriteTo? ==> Authorize(s.db, op.tenant, op.artifact, op.upload.actor, Write) == Ok(())
    ensures op.ShareWith? ==>
              && Authorize(s.db, op.tenant, op.artifact, op.actor, Share) == Ok(())
              && (s.db.members.Some? ==> (op.tenant, op.subject) in s.db.members.value)
    ensures op.Revoke? ==> Authorize(s.db, op.tenant, op.artifact, op.actor, Share) == Ok(())
    ensures op.Join? ==>
              && Authorize(s.db, op.tenant, op.source, op.actor, Write) == Ok(())
              && Authorize(s.db, op.tenant, op.target, op.actor, Write) == Ok(())
  {
    hide HasActiveGrant, ValidText, UploadError, IsReserved;
    if op.Join? {
      assert op.source in [op.source, op.target] && op.target in [op.source, op.target];
    }
  }

  // Owns the artifact, or has an active row for the action.
  ghost predicate MayDo(db: Db, tenant: string, artifact: ArtifactId, actor: string, action: Action) {
    && artifact in db.artifacts && db.artifacts[artifact].tenant == tenant && ValidText(actor, 255)
    && (db.artifacts[artifact].owner == actor
        || exists g :: g in db.grants && g.tenant == tenant && g.artifact == artifact
                       && g.subject == actor && g.action == action && g.active)
  }

  lemma AuthorizedIffMayDo(db: Db, tenant: string, artifact: ArtifactId, actor: string, action: Action)
    ensures Authorize(db, tenant, artifact, actor, action).Ok? <==> MayDo(db, tenant, artifact, actor, action)
  {
    hide ValidText;
    if g :| g in db.grants && g.tenant == tenant && g.artifact == artifact && g.subject == actor
            && g.action == action && g.active {
      var i :| 0 <= i < |db.grants| && db.grants[i] == g;
      assert ActiveGrant(db.grants[i], tenant, artifact, actor, action);
    }
  }

  /**
   * A share, with an unused number, goes through exactly when its texts keep the limits
   * and its reason is not the owner's, its actor may share the artifact, and its subject
   * is an active member where members are kept.
   */
  lemma ShareSucceedsIff(cfg: Config, s: Store, op: Op)
    requires op.ShareWith? && IndexOfGrant(s.db.grants, SharedGrantId(op.grant)).None?
    ensures Perform(cfg, s, op).error.None? <==>
              && ValidText(op.subject, 255) && ValidText(op.reason, 2000) && !IsReserved(op.reason)
              && MayDo(s.db, op.tenant, op.artifact, op.actor, Share)
              && (s.db.members.Some? ==> (op.tenant, op.subject) in s.db.members.value)
  {
    AuthorizedIffMayDo(s.db, op.tenant, op.artifact, op.actor, Share);
    hide ValidText, Authorize, MayDo, IsReserved, HasActiveGrant, IndexOfGrant;
  }

  lemma IdsDiffer(grants: seq<Grant>, i: nat, k: nat)
    requires AllSeparate(grants) && i < |grants| && k < |grants|
    ensures i != k ==> grants[i].id != grants[k].id
  {
    assert i < k ==> Separate(grants[i], grants[k]);
    assert k < i ==> Separate(grants[k], grants[i]);
  }

  /** A revocation goes through exactly when its actor may share the artifact and the row is one of the artifact's, not the owner's. */
  lemma RevokeSucceedsIff(cfg: Config, s: Store, op: Op)
    requires op.Revoke? && GrantInv(s.db)
    ensures Perform(cfg, s, op).error.None? <==>
              && ValidText(op.reason, 2000)
              && MayDo(s.db, op.tenant, op.artifact, op.actor, Share)
              && op.grantId.SharedGrantId?
              && exists g :: g in s.db.grants && g.id == op.grantId && g.tenant == op.tenant && g.artifact == op.artifact
  {
    AuthorizedIffMayDo(s.db, op.tenant, op.artifact, op.actor, Share);
    var i := IndexOfGrant(s.db.grants, op.grantId);
    if i.Some? {
      assert GrantSound(s.db, s.db.grants[i.value]);
      forall g | g in s.db.grants && g.id == op.grantId ensures g == s.db.grants[i.value] {
        var k :| 0 <= k < |s.db.grants| && s.db.grants[k] == g;
        IdsDiffer(s.db.grants, k, i.value);
      }
    }
    hide ValidText, Authorize, MayDo, AllSeparate, AllSound, AllGranted;
  }

  lemma {:induction false} BlanksStrip(pre: string, text: string, post: string)
    requires text != "" && !IsSpace(text[0]) && !IsSpace(text[|text| - 1])
    requires (forall c :: c in pre ==> IsSpace(c)) && forall c :: c in post ==> IsSpace(c)
    ensures StripRight(StripLeft(pre + text + post)) == text
    decreases |pre| + |post|
  {
    if pre != "" {
      assert (pre + text + post)[0] == pre[0] && pre[0] in pre;
      assert (pre + text + post)[1..] == pre[1..] + text + post;
      BlanksStrip(pre[1..], text, post);
    } else {
      assert pre + text + post == text + post;
      assert (text + post)[0] == text[0];
      TailStrips(text, post);
    }
  }

  lemma {:induction false} TailStrips(text: string, post: string)
    requires text != "" && !IsSpace(text[|text| - 1]) && forall c :: c in post ==> IsSpace(c)
    ensures StripRight(text + post) == text
    decreases |post|
  {
    if post != "" {
      assert (text + post)[|text + post| - 1] == post[|post| - 1] && post[|post| - 1] in post;
      assert (text + post)[..|text + post| - 1] == text + post[..|post| - 1];
      TailStrips(text, post[..|post| - 1]);
    } else {
      assert text + post == text;
    }
  }

  /** The owner's reason is recognised in any case and between any blanks: nobody can share under it. */
  lemma OwnersReasonIsReserved(pre: string, text: string, post: string)
    requires (forall c :: c in pre ==> IsSpace(c)) && forall c :: c in post ==> IsSpace(c)
    requires |text| == |"artifact owner"|
    requires forall i :: 0 <= i < |text| ==>
               text[i] == "artifact owner"[i] || text[i] == "ARTIFACT OWNER"[i]
    ensures IsReserved(pre + text + post)
  {
    assert !IsSpace(text[0]) && !IsSpace(text[|text| - 1]);
    BlanksStrip(pre, text, post);
    forall i | 0 <= i < |text| ensures Lowered(text)[i] == "artifact owner"[i] {
      assert text[i] == "artifact owner"[i] || text[i] == "ARTIFACT OWNER"[i];
    }
    assert Lowered(text) == "artifact owner";
  }

  /** Whoever creates an artifact has a row for each of the three rights. */
  lemma CreatorHoldsEveryRight(cfg: Config, s: Store, op: Op, action: Action)
    requires op.Create? && Perform(cfg, s, op).error.None?
    ensures HasActiveGrant(Perform(cfg, s, op).store.db, op.tenant, op.artifact, op.upload.actor, action)
  {
    var grants := Perform(cfg, s, op).store.db.grants;
    var n := |s.db.grants|;
    assert |grants| == n + 3;
    assert ActiveGrant(grants[n], op.tenant, op.artifact, op.upload.actor, Read);
    assert ActiveGrant(grants[n + 1], op.tenant, op.artifact, op.upload.actor, Write);
    assert ActiveGrant(grants[n + 2], op.tenant, op.artifact, op.upload.actor, Share);
    hide Perform;
  }

  // The operation names the row that gives this right.
  ghost predicate Takes(db: Db, op: Op, tenant: string, artifact: ArtifactId, subject: string, action: Action) {
    op.Revoke? && exists i :: 0 <= i < |db.grants| && db.grants[i].id == op.grantId
                              && ActiveGrant(db.grants[i], tenant, artifact, subject, action)
  }

  lemma InsertKeepsRight(cfg: Config, s: Store, db: Db, tenant: string, at: ArtifactId, u: Upload,
                         parent: Option<VersionId>, id: VersionId, crash: Crash,
                         tenant': string, artifact: ArtifactId, subject: string, action: Action)
    requires HasActiveGrant(s.db, tenant', artifact, subject, action) && s.db.grants <= db.grants
    ensures HasActiveGrant(InsertEffect(cfg, s, db, tenant, at, u, parent, id, crash).store.db, tenant', artifact, subject, action)
  {
    var i :| 0 <= i < |s.db.grants| && ActiveGrant(s.db.grants[i], tenant', artifact, subject, action);
    var after := InsertEffect(cfg, s, db, tenant, at, u, parent, id, crash).store.db;
    assert after.grants[i] == s.db.grants[i];
  }

  /** A right that was given stays through every operation but the revocation of its own row. */
  lemma RightStays(cfg: Config, s: Store, op: Op, tenant: string, artifact: ArtifactId, subject: string, action: Action)
    requires HasActiveGrant(s.db, tenant, artifact, subject, action)
    requires !Takes(s.db, op, tenant, artifact, subject, action)
    ensures HasActiveGrant(Perform(cfg, s, op).store.db, tenant, artifact, subject, action)
  {
    if op.Create? {
      InsertKeepsRight(cfg, s, WithNewArtifact(s.db, op.tenant, op.artifact, op.name, op.upload.mediaType, op.upload.actor),
                       op.tenant, op.artifact, op.upload, None, op.version, op.crash, tenant, artifact, subject, action);
      hide InsertEffect, WithNewArtifact, HasActiveGrant, ValidText;
    } else if op.WriteTo? {
      InsertKeepsRight(cfg, s, s.db, op.tenant, op.artifact, op.upload, op.parent, op.version, op.crash,
                       tenant, artifact, subject, action);
      hide InsertEffect, HasActiveGrant, ValidText;
    } else {
      var i :| 0 <= i < |s.db.grants| && ActiveGrant(s.db.grants[i], tenant, artifact, subject, action);
      hide InsertEffect, ValidText, UploadError, Authorize;
      assert ActiveGrant(Perform(cfg, s, op).store.db.grants[i], tenant, artifact, subject, action);
    }
  }

  /** Whoever gains a right gains it from someone who may share the artifact, and as an active member. */
  lemma RightIsGivenByShare(cfg: Config, s: Store, op: Op, tenant: string, artifact: ArtifactId, subject: string, action: Action)
    requires Lacks(s.db, tenant, artifact, subject, action)
    requires !Lacks(Perform(cfg, s, op).store.db, tenant, artifact, subject, action)
    ensures Shares(op, artifact, subject, action)
    ensures Authorize(s.db, op.tenant, artifact, op.actor, Share) == Ok(())
    ensures s.db.members.Some? ==> (op.tenant, subject) in s.db.members.value
  {
    if !Shares(op, artifact, subject, action) {
      StepKeepsLacking(cfg, s, op, tenant, artifact, subject, action);
    }
    hide Lacks, Authorize;
  }

  /** Whoever creates an artifact may do everything with it, for ever. */
  lemma CreatorMayDoEverything(cfg: Config, before: seq<Op>, op: Op, later: seq<Op>, action: Action)
    requires op.Create? && Perform(cfg, After(cfg, Empty, before), op).error.None?
    ensures Authorize(After(cfg, Perform(cfg, After(cfg, Empty, before), op).store, later).db,
                      op.tenant, op.artifact, op.upload.actor, action) == Ok(())
  {
    var s1 := Perform(cfg, After(cfg, Empty, before), op).store;
    assert s1.db.artifacts[op.artifact].owner == op.upload.actor && s1.db.artifacts[op.artifact].tenant == op.tenant;
    assert ValidText(op.upload.actor, MAX_NAME_LENGTH);
    hide Perform, ValidText;
    OwnersStayOver(cfg, s1, later);
  }
}
