// What every run of the artifact service keeps about versions, blobs, chunks and
// links, whatever is refused, and wherever the process dies.
module VersionHistory {
  import opened Common
  import opened Tables
  import opened Chunks
  import opened Lattice
  import GraphSearch
  import Traversal

  // The version at `i` was written on top of the one before it.
  ghost predicate LinkAt(db: Db, chain: seq<VersionId>, i: nat)
    requires i < |chain|
  {
    && chain[i] in db.versions
    && db.versions[chain[i]].parent == if i == 0 then None else Some(chain[i - 1])
  }

  // `chain` is the whole history of the artifact, oldest first, without a fork.
  ghost predicate IsChain(db: Db, id: ArtifactId, chain: seq<VersionId>)
    requires id in db.artifacts
  {
    && chain != [] && Distinct(chain)
    && (forall v :: v in chain <==> v in db.versions && db.versions[v].artifact == id)
    && (forall i :: 0 <= i < |chain| ==> LinkAt(db, chain, i))
    && db.artifacts[id].current == Some(chain[|chain| - 1])
  }

  ghost predicate HasChain(db: Db, id: ArtifactId)
    requires id in db.artifacts
  {
    exists chain :: IsChain(db, id, chain)
  }

  ghost predicate Chained(db: Db) {
    forall id :: id in db.artifacts ==> HasChain(db, id)
  }

  ghost predicate VersionsOwned(db: Db) {
    forall v :: v in db.versions ==>
      db.versions[v].artifact in db.artifacts && db.artifacts[db.versions[v].artifact].tenant == db.versions[v].tenant
  }

  // Every committed version finds its bytes, and every blob is what its name says.
  ghost predicate BlobsHeld(s: Store) {
    && (forall v :: v in s.db.versions ==> s.db.versions[v].blob in s.blobs)
    && (forall h :: h in s.blobs ==> s.blobs[h] == h.preimage)
  }

  // The chunks of a textual version are those of its text; other versions have none.
  ghost predicate ChunksMatch(cfg: Config, db: Db) {
    && (forall v :: v in db.chunks ==> v in db.versions)
    && (forall v :: v in db.versions ==> (v in db.chunks <==> IsTextual(db.versions[v].mediaType)))
    && (forall v :: v in db.chunks ==> db.chunks[v] == ChunksOf(cfg.decode(db.versions[v].blob.preimage)))
  }

  ghost predicate VersionInv(cfg: Config, s: Store) {
    Chained(s.db) && VersionsOwned(s.db) && BlobsHeld(s) && ChunksMatch(cfg, s.db)
  }

  // ----------------------------------------------------- one new version

  // `db` with the row of a new artifact that has no version yet, or as it is.
  ghost predicate Ready(db: Db, artifact: ArtifactId) {
    && artifact in db.artifacts
    && (forall id :: id in db.artifacts && id != artifact ==> HasChain(db, id))
    && (if db.artifacts[artifact].current.None? then forall v :: v in db.versions ==> db.versions[v].artifact != artifact
        else HasChain(db, artifact))
  }

  lemma ChainGrows(cfg: Config, db: Db, tenant: string, artifact: ArtifactId, u: Upload, id: VersionId)
    requires Ready(db, artifact) && id !in db.versions
    ensures Chained(WithNewVersion(cfg, db, tenant, artifact, u, db.artifacts[artifact].current, id))
  {
    var after := WithNewVersion(cfg, db, tenant, artifact, u, db.artifacts[artifact].current, id);
    hide ChunksOf, IsTextual;
    forall a | a in after.artifacts ensures HasChain(after, a) {
      if a != artifact {
        var chain :| IsChain(db, a, chain);
        OtherChainStays(cfg, db, tenant, artifact, u, id, a, chain);
      } else if db.artifacts[artifact].current.None? {
        assert LinkAt(after, [id], 0);
        assert IsChain(after, artifact, [id]);
      } else {
        var chain :| IsChain(db, artifact, chain);
        OwnChainGrows(cfg, db, tenant, artifact, u, id, chain);
      }
    }
  }

  lemma OtherChainStays(cfg: Config, db: Db, tenant: string, artifact: ArtifactId, u: Upload, id: VersionId,
                        other: ArtifactId, chain: seq<VersionId>)
    requires artifact in db.artifacts && id !in db.versions
    requires other in db.artifacts && other != artifact && IsChain(db, other, chain)
    ensures IsChain(WithNewVersion(cfg, db, tenant, artifact, u, db.artifacts[artifact].current, id), other, chain)
  {
    hide ChunksOf, IsTextual;
    var after := WithNewVersion(cfg, db, tenant, artifact, u, db.artifacts[artifact].current, id);
    forall i | 0 <= i < |chain| ensures LinkAt(after, chain, i) {
      assert LinkAt(db, chain, i);
    }
  }

  lemma OwnChainGrows(cfg: Config, db: Db, tenant: string, artifact: ArtifactId, u: Upload, id: VersionId, chain: seq<VersionId>)
    requires artifact in db.artifacts && id !in db.versions && IsChain(db, artifact, chain)
    ensures IsChain(WithNewVersion(cfg, db, tenant, artifact, u, db.artifacts[artifact].current, id), artifact, chain + [id])
  {
    var after := WithNewVersion(cfg, db, tenant, artifact, u, db.artifacts[artifact].current, id);
    var longer := chain + [id];
    hide ChunksOf, IsTextual;
    assert forall v :: v in longer <==> v in chain || v == id;
    forall i | 0 <= i < |longer| ensures LinkAt(after, longer, i) {
      if i < |chain| {
        assert LinkAt(db, chain, i);
      }
    }
  }

  lemma InsertKeepsInv(cfg: Config, s: Store, db: Db, tenant: string, artifact: ArtifactId, u: Upload,
                       parent: Option<VersionId>, id: VersionId, crash: Crash)
    requires VersionInv(cfg, s)
    requires db.versions == s.db.versions && db.chunks == s.db.chunks
    requires VersionsOwned(db) && Ready(db, artifact)
    ensures VersionInv(cfg, InsertEffect(cfg, s, db, tenant, artifact, u, parent, id, crash).store)
  {
    BlobsKept(cfg, s, db, tenant, artifact, u, parent, id, crash);
    InsertOutcomes(cfg, s, db, tenant, artifact, u, parent, id, crash);
    var effect := InsertEffect(cfg, s, db, tenant, artifact, u, parent, id, crash);
    hide InsertEffect, Chained, Ready, BlobsHeld, ChunksMatch, VersionsOwned, WithNewVersion;
    if effect.error.None? {
      ChainGrows(cfg, db, tenant, artifact, u, id);
      ChunksDecide(cfg, s.db, db);
      OwnersGrow(cfg, db, tenant, artifact, u, parent, id);
      ChunksGrow(cfg, db, tenant, artifact, u, parent, id);
    }
  }

  // The tables are as committed before, or have the new version.
  lemma InsertOutcomes(cfg: Config, s: Store, db: Db, tenant: string, artifact: ArtifactId, u: Upload,
                       parent: Option<VersionId>, id: VersionId, crash: Crash)
    requires artifact in db.artifacts
    ensures var effect := InsertEffect(cfg, s, db, tenant, artifact, u, parent, id, crash);
            if effect.error.Some? then effect.store.db == s.db
            else
              && id !in db.versions && db.artifacts[artifact].tenant == tenant
              && parent == db.artifacts[artifact].current
              && effect.store.db == WithNewVersion(cfg, db, tenant, artifact, u, parent, id)
  {
    hide WithNewVersion;
  }

  lemma ChunksDecide(cfg: Config, db: Db, db': Db)
    requires ChunksMatch(cfg, db) && db'.versions == db.versions && db'.chunks == db.chunks
    ensures ChunksMatch(cfg, db')
  {
  }

  lemma BlobsKept(cfg: Config, s: Store, db: Db, tenant: string, artifact: ArtifactId, u: Upload,
                  parent: Option<VersionId>, id: VersionId, crash: Crash)
    requires BlobsHeld(s) && db.versions == s.db.versions
    ensures BlobsHeld(InsertEffect(cfg, s, db, tenant, artifact, u, parent, id, crash).store)
  {
    hide ChunksOf, IsTextual;
  }

  lemma OwnersGrow(cfg: Config, db: Db, tenant: string, artifact: ArtifactId, u: Upload, parent: Option<VersionId>, id: VersionId)
    requires artifact in db.artifacts && db.artifacts[artifact].tenant == tenant && VersionsOwned(db)
    ensures VersionsOwned(WithNewVersion(cfg, db, tenant, artifact, u, parent, id))
  {
    hide ChunksOf, IsTextual;
  }

  lemma ChunksGrow(cfg: Config, db: Db, tenant: string, artifact: ArtifactId, u: Upload, parent: Option<VersionId>, id: VersionId)
    requires artifact in db.artifacts && id !in db.versions && ChunksMatch(cfg, db)
    ensures ChunksMatch(cfg, WithNewVersion(cfg, db, tenant, artifact, u, parent, id))
  {
    hide ChunksOf, IsTextual;
  }

  lemma CreateKeepsInv(cfg: Config, s: Store, op: Op)
    requires VersionInv(cfg, s) && op.Create? && op.artifact !in s.db.artifacts
    ensures VersionInv(cfg, Perform(cfg, s, op).store)
  {
    var u := op.upload;
    var db := WithNewArtifact(s.db, op.tenant, op.artifact, op.name, u.mediaType, u.actor);
    ArtifactAdded(s.db, op.tenant, op.name, u, op.artifact);
    hide VersionInv, InsertEffect, WithNewArtifact, Ready, VersionsOwned, ValidText;
    InsertKeepsInv(cfg, s, db, op.tenant, op.artifact, u, None, op.version, op.crash);
  }

  lemma ChainedIsReady(db: Db, artifact: ArtifactId)
    requires Chained(db) && artifact in db.artifacts && db.artifacts[artifact].current.Some?
    ensures Ready(db, artifact)
  {
    hide HasChain;
  }

  lemma WriteIsReady(cfg: Config, s: Store, artifact: ArtifactId)
    requires VersionInv(cfg, s) && artifact in s.db.artifacts
    ensures Ready(s.db, artifact) && VersionsOwned(s.db)
  {
    CurrentExists(cfg, s, artifact);
    ChainedIsReady(s.db, artifact);
  }

  lemma WriteIsInsert(cfg: Config, s: Store, tenant: string, artifact: ArtifactId, u: Upload,
                      parent: Option<VersionId>, id: VersionId, crash: Crash)
    ensures var effect := WriteEffect(cfg, s, tenant, artifact, u, parent, id, crash);
            || effect.store == s
            || (artifact in s.db.artifacts && effect == InsertEffect(cfg, s, s.db, tenant, artifact, u, parent, id, crash))
  {
    hide InsertEffect;
  }

  lemma WriteKeepsInv(cfg: Config, s: Store, tenant: string, artifact: ArtifactId, u: Upload,
                      parent: Option<VersionId>, id: VersionId, crash: Crash)
    requires VersionInv(cfg, s)
    ensures VersionInv(cfg, WriteEffect(cfg, s, tenant, artifact, u, parent, id, crash).store)
  {
    if artifact in s.db.artifacts {
      WriteIsReady(cfg, s, artifact);
    }
    WriteIsInsert(cfg, s, tenant, artifact, u, parent, id, crash);
    hide VersionInv, InsertEffect, WriteEffect, Ready, VersionsOwned;
    if artifact in s.db.artifacts {
      InsertKeepsInv(cfg, s, s.db, tenant, artifact, u, parent, id, crash);
    }
  }

  lemma PerformWrite(cfg: Config, s: Store, op: Op)
    requires op.WriteTo?
    ensures Perform(cfg, s, op)
            == WriteEffect(cfg, s, op.tenant, op.artifact, op.upload, op.parent, op.version, op.crash)
  {
  }

  lemma RefusedKeepsStore(cfg: Config, s: Store, op: Op)
    requires op.Create? && op.artifact in s.db.artifacts
    ensures Perform(cfg, s, op).store == s
  {
  }

  lemma StepKeepsInv(cfg: Config, s: Store, op: Op)
    requires VersionInv(cfg, s)
    ensures VersionInv(cfg, Perform(cfg, s, op).store)
  {
    hide Perform, VersionInv, WriteEffect;
    if op.Create? && op.artifact !in s.db.artifacts {
      CreateKeepsInv(cfg, s, op);
    } else if op.WriteTo? {
      WriteKeepsInv(cfg, s, op.tenant, op.artifact, op.upload, op.parent, op.version, op.crash);
      PerformWrite(cfg, s, op);
    } else if op.Create? {
      RefusedKeepsStore(cfg, s, op);
    } else {
      OthersKeepVersions(cfg, s, op);
      TablesDecide(cfg, s, Perform(cfg, s, op).store);
    }
  }

  lemma ChainDecided(db: Db, db': Db, id: ArtifactId)
    requires id in db.artifacts && id in db'.artifacts && db'.artifacts[id] == db.artifacts[id]
    requires db'.versions == db.versions && HasChain(db, id)
    ensures HasChain(db', id)
  {
    var chain :| IsChain(db, id, chain);
    forall i | 0 <= i < |chain| ensures LinkAt(db', chain, i) {
      assert LinkAt(db, chain, i);
    }
    assert IsChain(db', id, chain);
  }

  lemma ArtifactAdded(db: Db, tenant: string, name: string, u: Upload, artifact: ArtifactId)
    requires Chained(db) && VersionsOwned(db) && artifact !in db.artifacts
    ensures var d := WithNewArtifact(db, tenant, artifact, name, u.mediaType, u.actor);
            && Ready(d, artifact) && VersionsOwned(d)
            && d.versions == db.versions && d.chunks == db.chunks
  {
    var d := WithNewArtifact(db, tenant, artifact, name, u.mediaType, u.actor);
    hide HasChain;
    forall id | id in d.artifacts && id != artifact ensures HasChain(d, id) {
      ChainDecided(db, d, id);
    }
  }

  lemma OthersKeepVersions(cfg: Config, s: Store, op: Op)
    requires !op.Create? && !op.WriteTo?
    ensures var after := Perform(cfg, s, op).store;
            && after.blobs == s.blobs && after.db.versions == s.db.versions
            && after.db.chunks == s.db.chunks && after.db.artifacts == s.db.artifacts
  {
  }

  lemma TablesDecide(cfg: Config, s: Store, s': Store)
    requires VersionInv(cfg, s)
    requires s'.blobs == s.blobs && s'.db.versions == s.db.versions
    requires s'.db.chunks == s.db.chunks && s'.db.artifacts == s.db.artifacts
    ensures VersionInv(cfg, s')
  {
    ChunksDecide(cfg, s.db, s'.db);
    BlobsDecide(s, s');
    ChainsDecide(s.db, s'.db);
    hide Chained, VersionsOwned, BlobsHeld, ChunksMatch;
  }

  lemma BlobsDecide(s: Store, s': Store)
    requires BlobsHeld(s) && s'.blobs == s.blobs && s'.db.versions == s.db.versions
    ensures BlobsHeld(s')
  {
  }

  lemma ChainsDecide(db: Db, db': Db)
    requires Chained(db) && VersionsOwned(db) && db'.versions == db.versions && db'.artifacts == db.artifacts
    ensures Chained(db') && VersionsOwned(db')
  {
    hide HasChain;
    forall id | id in db'.artifacts ensures HasChain(db', id) {
      ChainDecided(db, db', id);
    }
  }

  lemma {:induction false} RunKeepsInv(cfg: Config, s: Store, ops: seq<Op>)
    requires VersionInv(cfg, s)
    ensures VersionInv(cfg, After(cfg, s, ops))
    decreases |ops|
  {
    if ops != [] {
      StepKeepsInv(cfg, s, ops[0]);
      RunKeepsInv(cfg, Perform(cfg, s, ops[0]).store, ops[1..]);
    }
  }

  // ------------------------------------------------------ over every run

  /** After any run every artifact's versions form one unforked chain that ends at its current version. */
  lemma OneChainPerArtifact(cfg: Config, ops: seq<Op>, id: ArtifactId)
    requires id in After(cfg, Empty, ops).db.artifacts
    ensures exists chain :: IsChain(After(cfg, Empty, ops).db, id, chain)
  {
    RunKeepsInv(cfg, Empty, ops);
  }

  /** A write with a parent that is not the current version changes nothing at all. */
  lemma StaleParentChangesNothing(cfg: Config, s: Store, op: Op)
    requires op.WriteTo? && op.artifact in s.db.artifacts && op.parent != s.db.artifacts[op.artifact].current
    ensures Perform(cfg, s, op).store == s && Perform(cfg, s, op).error.Some?
  {
  }

  // The parent is a version, or "no version", that the artifact has moved past.
  ghost predicate Superseded(db: Db, artifact: ArtifactId, parent: Option<VersionId>) {
    && artifact in db.artifacts
    && db.artifacts[artifact].current.Some? && db.artifacts[artifact].current != parent
    && (parent.Some? ==> parent.value in db.versions)
  }

  lemma StepKeepsSuperseded(cfg: Config, s: Store, op: Op, artifact: ArtifactId, parent: Option<VersionId>)
    requires Superseded(s.db, artifact, parent)
    ensures Superseded(Perform(cfg, s, op).store.db, artifact, parent)
  {
    if !op.Create? && !op.WriteTo? {
      OthersKeepVersions(cfg, s, op);
    }
  }

  lemma {:induction false} StaysSuperseded(cfg: Config, s: Store, ops: seq<Op>, artifact: ArtifactId, parent: Option<VersionId>)
    requires Superseded(s.db, artifact, parent)
    ensures Superseded(After(cfg, s, ops).db, artifact, parent)
    decreases |ops|
  {
    if ops != [] {
      StepKeepsSuperseded(cfg, s, ops[0], artifact, parent);
      hide Superseded, Perform;
      StaysSuperseded(cfg, Perform(cfg, s, ops[0]).store, ops[1..], artifact, parent);
    }
  }

  lemma CurrentExists(cfg: Config, s: Store, artifact: ArtifactId)
    requires VersionInv(cfg, s) && artifact in s.db.artifacts
    ensures GraphSearch.HasCurrentVersion(s.db, artifact) && s.db.artifacts[artifact].current.Some?
  {
    var chain :| IsChain(s.db, artifact, chain);
    assert chain[|chain| - 1] in chain;
  }

  lemma WriteNeedsArtifact(cfg: Config, s: Store, op: Op)
    requires op.WriteTo? && Perform(cfg, s, op).error.None?
    ensures op.artifact in s.db.artifacts
  {
  }

  lemma WrittenSupersedes(cfg: Config, s: Store, op: Op)
    requires op.WriteTo? && Perform(cfg, s, op).error.None?
    requires op.artifact in s.db.artifacts ==> GraphSearch.HasCurrentVersion(s.db, op.artifact)
    ensures Superseded(Perform(cfg, s, op).store.db, op.artifact, op.parent)
  {
    hide ChunksOf, IsTextual;
  }

  /** Of two writes with the same parent at most one ever succeeds, however far apart. */
  lemma ParentUsedOnce(cfg: Config, before: seq<Op>, first: Op, between: seq<Op>, second: Op)
    requires first.WriteTo? && second.WriteTo? && first.artifact == second.artifact && first.parent == second.parent
    requires Perform(cfg, After(cfg, Empty, before), first).error.None?
    ensures var s := After(cfg, Perform(cfg, After(cfg, Empty, before), first).store, between);
            Perform(cfg, s, second).error.Some? && Perform(cfg, s, second).store == s
  {
    var s0 := After(cfg, Empty, before);
    RunKeepsInv(cfg, Empty, before);
    WriteNeedsArtifact(cfg, s0, first);
    CurrentExists(cfg, s0, first.artifact);
    var s1 := Perform(cfg, s0, first).store;
    WrittenSupersedes(cfg, s0, first);
    hide Perform, VersionInv, GraphSearch.HasCurrentVersion;
    StaysSuperseded(cfg, s1, between, first.artifact, first.parent);
    StaleParentChangesNothing(cfg, After(cfg, s1, between), second);
  }

  // ------------------------------------------------------------------- bytes

  lemma StepKeepsCommitted(cfg: Config, s: Store, op: Op, v: VersionId)
    requires v in s.db.versions
    ensures var after := Perform(cfg, s, op).store;
            v in after.db.versions && after.db.versions[v] == s.db.versions[v]
  {
    if !op.Create? && !op.WriteTo? {
      OthersKeepVersions(cfg, s, op);
    }
  }

  lemma {:induction false} CommittedStays(cfg: Config, s: Store, ops: seq<Op>, v: VersionId)
    requires v in s.db.versions
    ensures v in After(cfg, s, ops).db.versions && After(cfg, s, ops).db.versions[v] == s.db.versions[v]
    decreases |ops|
  {
    if ops != [] {
      StepKeepsCommitted(cfg, s, ops[0], v);
      hide Perform;
      CommittedStays(cfg, Perform(cfg, s, ops[0]).store, ops[1..], v);
    }
  }

  /** Whoever may read it reads, at any later time, exactly the bytes that were written; others find nothing. */
  lemma ReadsBackWhatWasWritten(cfg: Config, before: seq<Op>, op: Op, later: seq<Op>, reader: string)
    requires op.Create? || op.WriteTo?
    requires Perform(cfg, After(cfg, Empty, before), op).error.None?
    ensures var s := After(cfg, Perform(cfg, After(cfg, Empty, before), op).store, later);
            && op.version in s.db.versions
            && ReadEffect(s, op.tenant, op.artifact, Some(op.version), reader) ==
               match Authorize(s.db, op.tenant, op.artifact, reader, Read)
               case Ok(_) => Ok(op.upload.data)
               case Err(e) => Err(e)
  {
    var s0 := After(cfg, Empty, before);
    RunKeepsInv(cfg, Empty, before);
    StepKeepsInv(cfg, s0, op);
    var s1 := Perform(cfg, s0, op).store;
    VersionCommitted(cfg, s0, op);
    hide Perform, VersionInv;
    CommittedStays(cfg, s1, later, op.version);
    RunKeepsInv(cfg, s1, later);
    VersionReads(cfg, After(cfg, s1, later), op.tenant, op.artifact, op.version, reader);
  }

  lemma VersionCommitted(cfg: Config, s: Store, op: Op)
    requires (op.Create? || op.WriteTo?) && Perform(cfg, s, op).error.None?
    ensures var after := Perform(cfg, s, op).store;
            && op.version in after.db.versions
            && var row := after.db.versions[op.version];
               row.blob == Sha256(op.upload.data) && row.tenant == op.tenant && row.artifact == op.artifact
  {
    hide ChunksOf, IsTextual;
  }

  lemma VersionReads(cfg: Config, s: Store, tenant: string, artifact: ArtifactId, version: VersionId, reader: string)
    requires VersionInv(cfg, s) && version in s.db.versions
    requires s.db.versions[version].tenant == tenant && s.db.versions[version].artifact == artifact
    ensures ReadEffect(s, tenant, artifact, Some(version), reader) ==
            match Authorize(s.db, tenant, artifact, reader, Read)
            case Ok(_) => Ok(s.db.versions[version].blob.preimage)
            case Err(e) => Err(e)
  {
    hide Chained, ChunksMatch, VersionsOwned, Authorize;
  }

  // The operation gives the artifact a new version.
  ghost predicate GivesVersion(cfg: Config, s: Store, op: Op, artifact: ArtifactId) {
    && (op.Create? || op.WriteTo?) && op.artifact == artifact
    && Perform(cfg, s, op).error.None?
  }

  ghost predicate NoneGives(cfg: Config, s: Store, ops: seq<Op>, artifact: ArtifactId)
    decreases |ops|
  {
    ops != [] ==> !GivesVersion(cfg, s, ops[0], artifact) && NoneGives(cfg, Perform(cfg, s, ops[0]).store, ops[1..], artifact)
  }

  lemma CommittedIsCurrent(cfg: Config, s: Store, op: Op)
    requires (op.Create? || op.WriteTo?) && GivesVersion(cfg, s, op, op.artifact)
    ensures var db := Perform(cfg, s, op).store.db;
            && op.artifact in db.artifacts
            && var row := db.artifacts[op.artifact];
               && row.current == Some(op.version) && row.mediaType == op.upload.mediaType && row.tenant == op.tenant
               && (op.Create? ==> row.name == op.name && row.owner == op.upload.actor)
               && (op.WriteTo? ==> op.artifact in s.db.artifacts && row.name == s.db.artifacts[op.artifact].name
                                   && row.owner == s.db.artifacts[op.artifact].owner)
  {
    hide ChunksOf, IsTextual;
  }

  lemma StepKeepsCurrent(cfg: Config, s: Store, op: Op, artifact: ArtifactId)
    requires artifact in s.db.artifacts && !GivesVersion(cfg, s, op, artifact)
    ensures var db := Perform(cfg, s, op).store.db;
            artifact in db.artifacts && db.artifacts[artifact] == s.db.artifacts[artifact]
  {
    hide ChunksOf, IsTextual, ValidText, UploadError, Authorize;
    if !op.Create? && !op.WriteTo? {
      OthersKeepVersions(cfg, s, op);
    }
  }

  lemma {:induction false} CurrentStays(cfg: Config, s: Store, ops: seq<Op>, artifact: ArtifactId)
    requires artifact in s.db.artifacts && NoneGives(cfg, s, ops, artifact)
    ensures var db := After(cfg, s, ops).db;
            artifact in db.artifacts && db.artifacts[artifact] == s.db.artifacts[artifact]
    decreases |ops|
  {
    if ops != [] {
      StepKeepsCurrent(cfg, s, ops[0], artifact);
      hide Perform, GivesVersion;
      CurrentStays(cfg, Perform(cfg, s, ops[0]).store, ops[1..], artifact);
    }
  }

  lemma UnnamedReadsCurrent(s: Store, tenant: string, artifact: ArtifactId, reader: string)
    requires artifact in s.db.artifacts && s.db.artifacts[artifact].current.Some?
    ensures ReadEffect(s, tenant, artifact, None, reader)
            == ReadEffect(s, tenant, artifact, s.db.artifacts[artifact].current, reader)
  {
    hide Authorize;
  }

  /**
   * Who names no version reads the last one written: until the artifact gets another
   * version, whatever else happens, exactly its bytes.
   */
  lemma ReadsLastWrite(cfg: Config, before: seq<Op>, op: Op, later: seq<Op>, reader: string)
    requires (op.Create? || op.WriteTo?) && GivesVersion(cfg, After(cfg, Empty, before), op, op.artifact)
    requires NoneGives(cfg, Perform(cfg, After(cfg, Empty, before), op).store, later, op.artifact)
    ensures var s := After(cfg, Perform(cfg, After(cfg, Empty, before), op).store, later);
            ReadEffect(s, op.tenant, op.artifact, None, reader) ==
              match Authorize(s.db, op.tenant, op.artifact, reader, Read)
              case Ok(_) => Ok(op.upload.data)
              case Err(e) => Err(e)
  {
    var s0 := After(cfg, Empty, before);
    var s1 := Perform(cfg, s0, op).store;
    CommittedIsCurrent(cfg, s0, op);
    hide ReadEffect, Perform, NoneGives;
    CurrentStays(cfg, s1, later, op.artifact);
    ReadsBackWhatWasWritten(cfg, before, op, later, reader);
    UnnamedReadsCurrent(After(cfg, s1, later), op.tenant, op.artifact, reader);
  }

  /** Until the artifact gets another version, its row shows the last one: its type, and the name and owner it was created with. */
  lemma RowShowsLastWrite(cfg: Config, s: Store, op: Op, later: seq<Op>)
    requires (op.Create? || op.WriteTo?) && GivesVersion(cfg, s, op, op.artifact)
    requires NoneGives(cfg, Perform(cfg, s, op).store, later, op.artifact)
    ensures var db := After(cfg, Perform(cfg, s, op).store, later).db;
            && op.artifact in db.artifacts
            && var row := db.artifacts[op.artifact];
               && row.current == Some(op.version) && row.mediaType == op.upload.mediaType && row.tenant == op.tenant
               && (op.Create? ==> row.name == op.name && row.owner == op.upload.actor)
               && (op.WriteTo? ==> op.artifact in s.db.artifacts && row.name == s.db.artifacts[op.artifact].name
                                   && row.owner == s.db.artifacts[op.artifact].owner)
  {
    CommittedIsCurrent(cfg, s, op);
    hide Perform, NoneGives;
    CurrentStays(cfg, Perform(cfg, s, op).store, later, op.artifact);
  }

  /** Whatever calls itself text is text, and so are scripts and structured data; pictures are not. */
  lemma TextIsTextual(subtype: string)
    ensures IsTextual("text/" + subtype) && IsTextual("application/javascript") && IsTextual("application/json")
    ensures !IsTextual("image/" + subtype)
  {
    assert ("image/" + subtype)[0] == 'i';
    assert forall t :: t in TEXT_MEDIA_TYPES ==> t[0] != 'i';
  }

  /** A named version is read exactly when the reader may read the artifact and it is one of the artifact's versions. */
  lemma ReadableIffOwnVersion(cfg: Config, ops: seq<Op>, tenant: string, artifact: ArtifactId, version: VersionId, reader: string)
    ensures var s := After(cfg, Empty, ops);
            ReadEffect(s, tenant, artifact, Some(version), reader).Ok? <==>
              && Authorize(s.db, tenant, artifact, reader, Read).Ok?
              && version in s.db.versions && s.db.versions[version].artifact == artifact
  {
    var s := After(cfg, Empty, ops);
    RunKeepsInv(cfg, Empty, ops);
    hide After, Chained, ChunksMatch;
  }

  /** At any later time the row of a version says what was uploaded, by whom, why, and on top of which version. */
  lemma VersionSaysWhatWasUploaded(cfg: Config, before: seq<Op>, op: Op, later: seq<Op>)
    requires (op.Create? || op.WriteTo?) && GivesVersion(cfg, After(cfg, Empty, before), op, op.artifact)
    ensures var s := After(cfg, Perform(cfg, After(cfg, Empty, before), op).store, later);
            && op.version in s.db.versions
            && var row := s.db.versions[op.version];
               && row.tenant == op.tenant && row.artifact == op.artifact
               && row.parent == (if op.Create? then None else op.parent)
               && row.mediaType == op.upload.mediaType && row.byteSize == |op.upload.data|
               && row.actor == op.upload.actor && row.reason == op.upload.reason && row.context == op.upload.context
  {
    var s0 := After(cfg, Empty, before);
    RowCommitted(cfg, s0, op);
    hide Perform, GivesVersion;
    CommittedStays(cfg, Perform(cfg, s0, op).store, later, op.version);
  }

  lemma RowCommitted(cfg: Config, s: Store, op: Op)
    requires (op.Create? || op.WriteTo?) && GivesVersion(cfg, s, op, op.artifact)
    ensures var db := Perform(cfg, s, op).store.db;
            && op.version in db.versions
            && var row := db.versions[op.version];
               && row.tenant == op.tenant && row.artifact == op.artifact
               && row.parent == (if op.Create? then None else op.parent)
               && row.mediaType == op.upload.mediaType && row.byteSize == |op.upload.data|
               && row.actor == op.upload.actor && row.reason == op.upload.reason && row.context == op.upload.context
  {
    hide ChunksOf, IsTextual, ValidText, Authorize;
  }

  // ----------------------------------------------------- when it goes through

  // The limits on an upload, one by one.
  ghost predicate UploadFits(cfg: Config, u: Upload) {
    && |u.data| <= cfg.maxArtifactBytes
    && Speaks(u.mediaType, 255) && Speaks(u.actor, 255) && Speaks(u.reason, 2000)
    && |u.context| <= 32768
  }

  // Not blank, and not too long.
  ghost predicate Speaks(text: string, maximum: nat) {
    |text| <= maximum && exists c :: c in text && !IsSpace(c)
  }

  lemma ValidTextSpeaks(text: string, maximum: nat)
    ensures ValidText(text, maximum) <==> Speaks(text, maximum)
  {
    if Speaks(text, maximum) {
      var c :| c in text && !IsSpace(c);
      var i :| 0 <= i < |text| && text[i] == c;
      assert !IsSpace(text[i]);
    }
  }

  lemma UploadFitsIff(cfg: Config, u: Upload)
    ensures UploadError(cfg, u).None? <==> UploadFits(cfg, u)
  {
    ValidTextSpeaks(u.mediaType, 255);
    ValidTextSpeaks(u.actor, 255);
    ValidTextSpeaks(u.reason, 2000);
    hide ValidText, Speaks;
  }

  /** A create with unused ids goes through exactly when its names and its upload keep the limits. */
  lemma CreateSucceedsIff(cfg: Config, s: Store, op: Op)
    requires op.Create? && op.crash.NoCrash? && op.artifact !in s.db.artifacts && op.version !in s.db.versions
    ensures Perform(cfg, s, op).error.None? <==>
              Speaks(op.name, 255) && Speaks(op.tenant, 255) && UploadFits(cfg, op.upload)
  {
    UploadFitsIff(cfg, op.upload);
    ValidTextSpeaks(op.name, 255);
    ValidTextSpeaks(op.tenant, 255);
    hide ValidText, Speaks, ChunksOf, IsTextual, UploadError, UploadFits;
  }

  /**
   * A write with an unused id goes through exactly when its upload keeps the limits, its
   * author owns the artifact or holds an active right to write it, and its parent is current.
   */
  lemma WriteSucceedsIff(cfg: Config, s: Store, op: Op)
    requires op.WriteTo? && op.crash.NoCrash? && op.version !in s.db.versions
    ensures Perform(cfg, s, op).error.None? <==>
              && UploadFits(cfg, op.upload)
              && op.artifact in s.db.artifacts && s.db.artifacts[op.artifact].tenant == op.tenant
              && (s.db.artifacts[op.artifact].owner == op.upload.actor
                  || HasActiveGrant(s.db, op.tenant, op.artifact, op.upload.actor, Write))
              && op.parent == s.db.artifacts[op.artifact].current
  {
    UploadFitsIff(cfg, op.upload);
    hide HasActiveGrant, ChunksOf, IsTextual, UploadError;
    if UploadFits(cfg, op.upload) {
      ValidTextSpeaks(op.upload.actor, 255);
    }
    hide ValidText, UploadFits;
  }

  // ------------------------------------------------------ tenants are apart

  // What the tables hold for one tenant, as far as one operation may change it.
  ghost predicate SameTenant(db: Db, db': Db, tenant: string) {
    && (forall a :: a in db.artifacts && db.artifacts[a].tenant == tenant ==> a in db'.artifacts && db'.artifacts[a] == db.artifacts[a])
    && (forall a :: a in db'.artifacts && db'.artifacts[a].tenant == tenant ==> a in db.artifacts)
    && (forall v :: v in db.versions ==> v in db'.versions && db'.versions[v] == db.versions[v])
    && (forall v :: v in db'.versions && db'.versions[v].tenant == tenant ==> v in db.versions)
    && (forall e: Edge :: e.tenant == tenant ==> (e in db'.edges <==> e in db.edges))
    && (forall g: Grant :: g.tenant == tenant ==> (g in db'.grants <==> g in db.grants))
  }

  lemma InsertKeepsTenant(cfg: Config, s: Store, db: Db, other: string, at: ArtifactId, u: Upload,
                          parent: Option<VersionId>, id: VersionId, crash: Crash, tenant: string)
    requires other != tenant && SameTenant(s.db, db, tenant)
    ensures SameTenant(s.db, InsertEffect(cfg, s, db, other, at, u, parent, id, crash).store.db, tenant)
  {
    hide ChunksOf, IsTextual;
  }

  lemma NewArtifactKeepsTenant(db: Db, other: string, id: ArtifactId, name: string, mediaType: string, owner: string, tenant: string)
    requires other != tenant && id !in db.artifacts
    ensures SameTenant(db, WithNewArtifact(db, other, id, name, mediaType, owner), tenant)
  {
    var added := WithNewArtifact(db, other, id, name, mediaType, owner).grants[|db.grants|..];
    assert WithNewArtifact(db, other, id, name, mediaType, owner).grants == db.grants + added;
    assert forall g :: g in added ==> g.tenant == other;
  }

  lemma RevokeKeepsTenant(s: Store, other: string, artifact: ArtifactId, actor: string, id: GrantId, reason: string, tenant: string)
    requires other != tenant
    ensures SameTenant(s.db, RevokeEffect(s, other, artifact, actor, id, reason).store.db, tenant)
  {
    var db' := RevokeEffect(s, other, artifact, actor, id, reason).store.db;
    hide ValidText, Authorize;
    if db' != s.db {
      var i := IndexOfGrant(s.db.grants, id).value;
      forall g: Grant | g.tenant == tenant ensures g in db'.grants <==> g in s.db.grants {
        if g in db'.grants {
          var k :| 0 <= k < |db'.grants| && db'.grants[k] == g;
          assert k != i && s.db.grants[k] == g;
        }
        if g in s.db.grants {
          var k :| 0 <= k < |s.db.grants| && s.db.grants[k] == g;
          assert k != i && db'.grants[k] == g;
        }
      }
    }
  }

  lemma ShareKeepsTenant(s: Store, other: string, artifact: ArtifactId, actor: string, subject: string, action: Action,
                         reason: string, n: nat, tenant: string)
    requires other != tenant
    ensures SameTenant(s.db, ShareEffect(s, other, artifact, actor, subject, action, reason, n).store.db, tenant)
  {
    hide ValidText, Authorize, IsReserved, HasActiveGrant;
  }

  lemma LinkKeepsTenant(s: Store, other: string, source: ArtifactId, target: ArtifactId, kind: string, metadata: string,
                        actor: string, id: nat, createdAt: nat, tenant: string)
    requires other != tenant
    ensures SameTenant(s.db, LinkEffect(s, other, source, target, kind, metadata, actor, id, createdAt).store.db, tenant)
  {
    var edge := Edge(id, createdAt, other, source, target, kind, metadata);
    forall e ensures e in Inserted(s.db.edges, edge) <==> e in s.db.edges || e == edge {
      InsertedMembers(s.db.edges, edge, e);
    }
    hide ValidText, LinkAccess, FindLink, Inserted;
  }

  /** Nothing one tenant does changes an artifact, a version, a link or a right of another. */
  lemma TenantsAreApart(cfg: Config, s: Store, op: Op, tenant: string)
    requires op.SetMembers? || op.tenant != tenant
    ensures SameTenant(s.db, Perform(cfg, s, op).store.db, tenant)
  {
    hide ValidText, UploadError, Authorize, SameTenant;
    match op
    case Create(other, name, u, id, version, crash) =>
      SameTenantSame(s.db, tenant);
      if id !in s.db.artifacts {
        NewArtifactKeepsTenant(s.db, other, id, name, u.mediaType, u.actor, tenant);
        InsertKeepsTenant(cfg, s, WithNewArtifact(s.db, other, id, name, u.mediaType, u.actor), other, id, u, None, version, crash, tenant);
      }
      hide InsertEffect, WithNewArtifact;
    case WriteTo(other, id, u, parent, version, crash) =>
      SameTenantSame(s.db, tenant);
      InsertKeepsTenant(cfg, s, s.db, other, id, u, parent, version, crash, tenant);
      hide InsertEffect;
    case ShareWith(other, artifact, actor, subject, action, reason, n) =>
      ShareKeepsTenant(s, other, artifact, actor, subject, action, reason, n, tenant);
    case Revoke(other, artifact, actor, id, reason) => RevokeKeepsTenant(s, other, artifact, actor, id, reason, tenant);
    case Join(other, source, target, kind, metadata, actor, id, createdAt) =>
      LinkKeepsTenant(s, other, source, target, kind, metadata, actor, id, createdAt, tenant);
    case SetMembers(members) => SameTenantMembers(s.db, members, tenant);
  }

  lemma SameTenantSame(db: Db, tenant: string)
    ensures SameTenant(db, db, tenant)
  {
  }

  lemma SameTenantMembers(db: Db, members: Option<set<(string, string)>>, tenant: string)
    ensures SameTenant(db, db.(members := members), tenant)
  {
  }

  /** An artifact of another tenant is not found, whoever asks, by any check or query. */
  lemma OtherTenantSeesNothing(s: Store, tenant: string, artifact: ArtifactId, version: Option<VersionId>, actor: string, action: Action)
    requires artifact in s.db.artifacts && s.db.artifacts[artifact].tenant != tenant
    ensures Authorize(s.db, tenant, artifact, actor, action) == Err(NotFound)
    ensures !Visible(s.db, tenant, artifact, actor, action)
    ensures ReadEffect(s, tenant, artifact, version, actor) == Err(NotFound)
  {
  }

  /** Dying between the blob and the commit leaves the tables as they were, and at most a blob no version names. */
  lemma CrashLeavesOnlyUnreferencedBlobs(cfg: Config, ops: seq<Op>, op: Op)
    requires Perform(cfg, After(cfg, Empty, ops), op).error == Some(Crashed)
    ensures var s, after := After(cfg, Empty, ops), Perform(cfg, After(cfg, Empty, ops), op).store;
            && after.db == s.db
            && (forall h :: h in s.blobs ==> h in after.blobs && after.blobs[h] == s.blobs[h])
            && (forall h :: h in after.blobs && h !in s.blobs ==>
                  forall v :: v in after.db.versions ==> after.db.versions[v].blob != h)
  {
    var s := After(cfg, Empty, ops);
    RunKeepsInv(cfg, Empty, ops);
    hide After, Perform;
    if op.Create? || op.WriteTo? {
      CrashedEffect(cfg, s, op);
      NewBlobUnreferenced(s, op.upload.data);
    } else {
      OthersCannotCrash(cfg, s, op);
    }
  }

  lemma NewBlobUnreferenced(s: Store, data: Bytes)
    requires BlobsHeld(s)
    ensures forall h :: h in WithBlob(s.blobs, data) && h !in s.blobs ==>
              forall v :: v in s.db.versions ==> s.db.versions[v].blob != h
    ensures forall h :: h in s.blobs ==> h in WithBlob(s.blobs, data) && WithBlob(s.blobs, data)[h] == s.blobs[h]
  {
  }

  lemma CrashedEffect(cfg: Config, s: Store, op: Op)
    requires (op.Create? || op.WriteTo?) && Perform(cfg, s, op).error == Some(Crashed)
    ensures var after := Perform(cfg, s, op).store;
            after.db == s.db && (after.blobs == s.blobs || after.blobs == WithBlob(s.blobs, op.upload.data))
  {
    hide WithNewVersion, WithNewArtifact;
  }

  lemma OthersCannotCrash(cfg: Config, s: Store, op: Op)
    requires !op.Create? && !op.WriteTo?
    ensures Perform(cfg, s, op).error != Some(Crashed)
  {
  }

  // ----------------------------------------- what the searches build on

  /** Every artifact has a current version: the two forms of the graph search see the same graph. */
  lemma EveryArtifactVersioned(cfg: Config, ops: seq<Op>)
    ensures GraphSearch.AllVersioned(After(cfg, Empty, ops).db)
  {
    var s := After(cfg, Empty, ops);
    RunKeepsInv(cfg, Empty, ops);
    forall id | id in s.db.artifacts ensures GraphSearch.HasCurrentVersion(s.db, id) {
      CurrentExists(cfg, s, id);
    }
  }

  /** Every hit of grep lies in the text of the version that was uploaded. */
  lemma HitsLieInUploads(cfg: Config, ops: seq<Op>, tenant: string, actor: string, pattern: string, h: Hit)
    requires h in AllHits(GrepRows(After(cfg, Empty, ops).db, tenant, actor), pattern)
    ensures ChunksStored(After(cfg, Empty, ops).db)
    ensures var s := After(cfg, Empty, ops);
            && h.row.version in s.db.versions && s.db.versions[h.row.version].blob in s.blobs
            && var text := cfg.decode(s.blobs[s.db.versions[h.row.version].blob]);
               MatchesAt(pattern, text, h.row.chunk.start + h.offset)
  {
    var s := After(cfg, Empty, ops);
    RunKeepsInv(cfg, Empty, ops);
    HitsAre(GrepRows(s.db, tenant, actor), pattern, h);
    GrepRowsAre(s.db, tenant, actor, h.row);
    hide Chained, VersionsOwned, ChunksOf, AllHits, GrepRows, After;
    HitOccursInText(s.db, tenant, actor, pattern, h, cfg.decode(s.db.versions[h.row.version].blob.preimage));
  }

  /**
   * After any run grep finds every occurrence in the current text of a readable
   * artifact that does not cross a cut between chunks: there is a row for it, which
   * is reported once when the limit is not reached.
   */
  lemma GrepFindsUploads(cfg: Config, ops: seq<Op>, tenant: string, actor: string, artifact: ArtifactId,
                         pattern: string, at: nat) returns (r: Row)
    requires Visible(After(cfg, Empty, ops).db, tenant, artifact, actor, Read) && pattern != ""
    requires var db := After(cfg, Empty, ops).db;
             && GraphSearch.HasCurrentVersion(db, artifact)
             && var v := db.versions[db.artifacts[artifact].current.value];
                && IsTextual(v.mediaType)
                && MatchesAt(pattern, cfg.decode(v.blob.preimage), at)
                && at / 1200 == (at + |pattern| - 1) / 1200
    ensures CurrentChunk(After(cfg, Empty, ops).db, tenant, actor, r)
    ensures r.artifact == artifact && r.chunk.start <= at && at + |pattern| <= r.chunk.end
    ensures Occurs(pattern, r.chunk.content)
  {
    var s := After(cfg, Empty, ops);
    RunKeepsInv(cfg, Empty, ops);
    var version := s.db.artifacts[artifact].current.value;
    assert s.db.chunks[version] == ChunksOf(cfg.decode(s.db.versions[version].blob.preimage));
    hide *;
    r := RowWith(s.db, tenant, actor, artifact, version, cfg.decode(s.db.versions[version].blob.preimage), pattern, at);
  }

  lemma RowWith(db: Db, tenant: string, actor: string, artifact: ArtifactId, version: VersionId, text: string,
                pattern: string, at: nat) returns (r: Row)
    requires Visible(db, tenant, artifact, actor, Read) && db.artifacts[artifact].current == Some(version)
    requires version in db.chunks && db.chunks[version] == ChunksOf(text)
    requires pattern != "" && MatchesAt(pattern, text, at) && at / 1200 == (at + |pattern| - 1) / 1200
    ensures CurrentChunk(db, tenant, actor, r) && r.artifact == artifact
    ensures r.chunk.start <= at && at + |pattern| <= r.chunk.end && Occurs(pattern, r.chunk.content)
  {
    hide ChunksFrom, Visible;
    var i := ChunkWith(text, 0, 0, at, at + |pattern|);
    var c := ChunksFrom(text, 0, 0)[i];
    ChunksAreFull(text, 0, 0, i);
    r := Row(artifact, version, c);
    SliceOfSlice(text, c.start, c.end, at, at + |pattern|);
    assert MatchesAt(pattern, c.content, at - c.start);
  }

  lemma SliceOfSlice(text: string, start: nat, end: nat, from: nat, to: nat)
    requires start <= from <= to <= end <= |text|
    ensures text[start..end][from - start..to - start] == text[from..to]
  {
    var inner := text[start..end][from - start..to - start];
    forall k | 0 <= k < to - from ensures inner[k] == text[from..to][k] {
      assert inner[k] == text[start..end][from - start + k];
    }
  }

  // ------------------------------------------------------------------- links

  // Every edge joins two different artifacts of its tenant; no link is stored twice.
  ghost predicate LinksSound(db: Db) {
    && (forall e :: e in db.edges ==>
          && e.source != e.target
          && e.source in db.artifacts && db.artifacts[e.source].tenant == e.tenant
          && e.target in db.artifacts && db.artifacts[e.target].tenant == e.tenant)
    && Traversal.DistinctEdges(db.edges)
    && (forall i, j :: 0 <= i < j < |db.edges| ==>
          !SameLink(db.edges[i], db.edges[j].tenant, db.edges[j].source, db.edges[j].target, db.edges[j].kind))
  }

  // A relation that keeps two edges apart, whichever comes first.
  ghost predicate Apart(a: Edge, b: Edge) {
    a.id != b.id && !SameLink(a, b.tenant, b.source, b.target, b.kind)
  }

  ghost predicate AllApart(edges: seq<Edge>) {
    forall i, j :: 0 <= i < j < |edges| ==> Apart(edges[i], edges[j])
  }

  lemma ApartFirst(e: Edge, rest: seq<Edge>)
    requires AllApart(rest) && forall x :: x in rest ==> Apart(e, x)
    ensures AllApart([e] + rest)
  {
    hide Apart;
    forall i, j | 0 <= i < j < |[e] + rest| ensures Apart(([e] + rest)[i], ([e] + rest)[j]) {
      assert ([e] + rest)[j] == rest[j - 1] && rest[j - 1] in rest;
    }
  }

  lemma {:induction false} InsertedApart(edges: seq<Edge>, e: Edge)
    requires AllApart(edges) && forall x :: x in edges ==> Apart(x, e)
    ensures AllApart(Inserted(edges, e))
  {
    if edges == [] || Precedes(e, edges[0]) {
      forall x | x in edges ensures Apart(e, x) {
        assert Apart(x, e);
      }
      ApartFirst(e, edges);
    } else {
      InsertedApart(edges[1..], e);
      var rest := Inserted(edges[1..], e);
      forall x | x in rest ensures Apart(edges[0], x) {
        InsertedMembers(edges[1..], e, x);
        if x != e {
          var k :| 0 <= k < |edges[1..]| && edges[1..][k] == x;
          assert edges[k + 1] == x;
        }
      }
      ApartFirst(edges[0], rest);
    }
  }

  // Older first, and of one moment the smaller id first.
  ghost predicate Older(a: Edge, b: Edge) {
    a.createdAt < b.createdAt || (a.createdAt == b.createdAt && a.id < b.id)
  }

  // The order that every query over the edges asks for.
  ghost predicate InOrder(edges: seq<Edge>) {
    forall i, j :: 0 <= i < j < |edges| ==> Older(edges[i], edges[j])
  }

  lemma FirstInOrder(e: Edge, rest: seq<Edge>)
    requires InOrder(rest) && forall x :: x in rest ==> Older(e, x)
    ensures InOrder([e] + rest)
  {
    hide Older;
    forall i, j | 0 <= i < j < |[e] + rest| ensures Older(([e] + rest)[i], ([e] + rest)[j]) {
      assert ([e] + rest)[j] == rest[j - 1] && rest[j - 1] in rest;
    }
  }

  lemma {:induction false} InsertedInOrder(edges: seq<Edge>, e: Edge)
    requires InOrder(edges) && forall x :: x in edges ==> x.id != e.id
    ensures InOrder(Inserted(edges, e))
  {
    if edges == [] || Precedes(e, edges[0]) {
      forall x | x in edges ensures Older(e, x) {
        var k :| 0 <= k < |edges| && edges[k] == x;
        assert k > 0 ==> Older(edges[0], edges[k]);
      }
      FirstInOrder(e, edges);
    } else {
      var rest := Inserted(edges[1..], e);
      InsertedInOrder(edges[1..], e);
      forall x | x in rest ensures Older(edges[0], x) {
        InsertedMembers(edges[1..], e, x);
        if x != e {
          var k :| 0 <= k < |edges[1..]| && edges[1..][k] == x;
          assert edges[k + 1] == x;
        }
      }
      FirstInOrder(edges[0], rest);
    }
  }

  lemma StepKeepsOrder(cfg: Config, s: Store, op: Op)
    requires InOrder(s.db.edges)
    ensures InOrder(Perform(cfg, s, op).store.db.edges)
  {
    hide ValidText, Authorize, UploadError, IsReserved, InOrder;
    if op.Join? {
      LinkKeepsOrder(s, op.tenant, op.source, op.target, op.kind, op.metadata, op.actor, op.edge, op.createdAt);
      hide LinkEffect;
    }
  }

  lemma LinkKeepsOrder(s: Store, tenant: string, source: ArtifactId, target: ArtifactId, kind: string,
                       metadata: string, actor: string, id: nat, createdAt: nat)
    requires InOrder(s.db.edges)
    ensures InOrder(LinkEffect(s, tenant, source, target, kind, metadata, actor, id, createdAt).store.db.edges)
  {
    var after := LinkEffect(s, tenant, source, target, kind, metadata, actor, id, createdAt).store.db.edges;
    hide ValidText, LinkAccess, FindLink, InOrder, Inserted;
    if after != s.db.edges {
      InsertedInOrder(s.db.edges, Edge(id, createdAt, tenant, source, target, kind, metadata));
    }
  }

  lemma LinksDiffer(db: Db, i: nat, j: nat)
    requires LinksSound(db) && i < |db.edges| && j < |db.edges|
    ensures i < j ==> !SameLink(db.edges[i], db.edges[j].tenant, db.edges[j].source, db.edges[j].target, db.edges[j].kind)
  {
  }

  /**
   * A link between two artifacts the actor may write, with an unused id, goes through
   * exactly when they differ, its texts keep the limits, and no such link with other
   * metadata is there; then a link with these ends, type and metadata is there.
   */
  lemma LinkSucceedsIff(cfg: Config, s: Store, op: Op)
    requires op.Join? && LinksSound(s.db) && forall e :: e in s.db.edges ==> e.id != op.edge
    requires Authorize(s.db, op.tenant, op.source, op.actor, Write).Ok?
    requires Authorize(s.db, op.tenant, op.target, op.actor, Write).Ok?
    ensures Perform(cfg, s, op).error.None? <==>
              && op.source != op.target && ValidText(op.kind, 100) && |op.metadata| <= 32768
              && forall e :: e in s.db.edges && SameLink(e, op.tenant, op.source, op.target, op.kind) ==> e.metadata == op.metadata
    ensures Perform(cfg, s, op).error.None? ==>
              exists e :: e in Perform(cfg, s, op).store.db.edges && e.tenant == op.tenant && e.source == op.source
                          && e.target == op.target && e.kind == op.kind && e.metadata == op.metadata
    ensures Perform(cfg, s, op).error.Some? ==> Perform(cfg, s, op).store == s
  {
    assert LinkAccess(s.db, op.tenant, [op.source, op.target], op.actor).None?;
    var existing := FindLink(s.db.edges, op.tenant, op.source, op.target, op.kind);
    if existing.Some? {
      forall e | e in s.db.edges && SameLink(e, op.tenant, op.source, op.target, op.kind) ensures e == existing.value {
        var i :| 0 <= i < |s.db.edges| && s.db.edges[i] == e;
        var j :| 0 <= j < |s.db.edges| && s.db.edges[j] == existing.value;
        LinksDiffer(s.db, i, j);
        LinksDiffer(s.db, j, i);
      }
    } else {
      var e := Edge(op.edge, op.createdAt, op.tenant, op.source, op.target, op.kind, op.metadata);
      InsertedMembers(s.db.edges, e, e);
    }
    hide ValidText, Authorize, LinkAccess, FindLink, Inserted, LinksSound;
  }

  /** After any run the edges are in the order of their creation times, then ids, that the graph searches take them in. */
  lemma {:induction false} EdgesStayInOrder(cfg: Config, s: Store, ops: seq<Op>)
    requires InOrder(s.db.edges)
    ensures InOrder(After(cfg, s, ops).db.edges)
    decreases |ops|
  {
    if ops != [] {
      StepKeepsOrder(cfg, s, ops[0]);
      hide Perform, InOrder;
      EdgesStayInOrder(cfg, Perform(cfg, s, ops[0]).store, ops[1..]);
    }
  }

  lemma LinkKeepsSound(s: Store, tenant: string, source: ArtifactId, target: ArtifactId, kind: string,
                       metadata: string, actor: string, id: nat, createdAt: nat)
    requires LinksSound(s.db)
    ensures LinksSound(LinkEffect(s, tenant, source, target, kind, metadata, actor, id, createdAt).store.db)
  {
    var effect := LinkEffect(s, tenant, source, target, kind, metadata, actor, id, createdAt);
    if effect.store != s {
      var e := Edge(id, createdAt, tenant, source, target, kind, metadata);
      forall x ensures x in Inserted(s.db.edges, e) <==> x in s.db.edges || x == e {
        InsertedMembers(s.db.edges, e, x);
      }
      assert LinkAccess(s.db, tenant, [source, target], actor).None?;
      assert source in [source, target] && target in [source, target];
      assert Authorize(s.db, tenant, source, actor, Write).Ok? && Authorize(s.db, tenant, target, actor, Write).Ok?;
      assert AllApart(s.db.edges);
      InsertedApart(s.db.edges, e);
    }
  }

  // A new artifact or a new version leaves every artifact in its tenant.
  lemma StepKeepsTenants(cfg: Config, s: Store, op: Op, id: ArtifactId)
    requires id in s.db.artifacts
    ensures var after := Perform(cfg, s, op).store;
            id in after.db.artifacts && after.db.artifacts[id].tenant == s.db.artifacts[id].tenant
  {
    if !op.Create? && !op.WriteTo? {
      OthersKeepVersions(cfg, s, op);
    }
  }

  lemma StepKeepsLinks(cfg: Config, s: Store, op: Op)
    requires LinksSound(s.db)
    ensures LinksSound(Perform(cfg, s, op).store.db)
  {
    if op.Join? {
      LinkKeepsSound(s, op.tenant, op.source, op.target, op.kind, op.metadata, op.actor, op.edge, op.createdAt);
    } else {
      assert Perform(cfg, s, op).store.db.edges == s.db.edges;
      hide Perform;
      forall id | id in s.db.artifacts
        ensures var after := Perform(cfg, s, op).store;
                id in after.db.artifacts && after.db.artifacts[id].tenant == s.db.artifacts[id].tenant
      {
        StepKeepsTenants(cfg, s, op, id);
      }
    }
  }

  /** After any run every link joins two artifacts of one tenant, and is stored once. */
  lemma {:induction false} LinksStaySound(cfg: Config, s: Store, ops: seq<Op>)
    requires LinksSound(s.db)
    ensures LinksSound(After(cfg, s, ops).db)
    decreases |ops|
  {
    if ops != [] {
      StepKeepsLinks(cfg, s, ops[0]);
      hide LinksSound, Perform;
      LinksStaySound(cfg, Perform(cfg, s, ops[0]).store, ops[1..]);
    }
  }

  lemma StepKeepsEdge(cfg: Config, s: Store, op: Op, e: Edge)
    requires e in s.db.edges
    ensures e in Perform(cfg, s, op).store.db.edges
  {
    if op.Join? {
      InsertedMembers(s.db.edges, Edge(op.edge, op.createdAt, op.tenant, op.source, op.target, op.kind, op.metadata), e);
      hide Inserted, FindLink, LinkAccess;
    }
  }

  /** A link is immutable: whatever happens later, it stays as it was made. */
  lemma {:induction false} LinksNeverChange(cfg: Config, s: Store, ops: seq<Op>, e: Edge)
    requires e in s.db.edges
    ensures e in After(cfg, s, ops).db.edges
    decreases |ops|
  {
    if ops != [] {
      StepKeepsEdge(cfg, s, ops[0], e);
      hide Perform;
      LinksNeverChange(cfg, Perform(cfg, s, ops[0]).store, ops[1..], e);
    }
  }

  // ------------------------------------------------------------------ limits

  // What was uploaded kept every limit, and the row says how long it is.
  ghost predicate WithinLimits(cfg: Config, v: Version) {
    && |v.blob.preimage| <= cfg.maxArtifactBytes && v.byteSize == |v.blob.preimage|
    && Speaks(v.mediaType, 255) && Speaks(v.actor, 255) && Speaks(v.reason, 2000) && |v.context| <= 32768
  }

  ghost predicate AllWithinLimits(cfg: Config, db: Db) {
    forall v :: v in db.versions ==> WithinLimits(cfg, db.versions[v])
  }

  lemma StepKeepsLimits(cfg: Config, s: Store, op: Op)
    requires AllWithinLimits(cfg, s.db)
    ensures AllWithinLimits(cfg, Perform(cfg, s, op).store.db)
  {
    if !op.Create? && !op.WriteTo? {
      OthersKeepVersions(cfg, s, op);
      hide Perform;
    }
    if op.Create? || op.WriteTo? {
      UploadFitsIff(cfg, op.upload);
    }
    hide ValidText, Speaks, Authorize, ChunksOf, IsTextual, UploadError;
  }

  /** After any run every committed version kept every limit on uploads. */
  lemma {:induction false} UploadsWithinLimits(cfg: Config, s: Store, ops: seq<Op>)
    requires AllWithinLimits(cfg, s.db)
    ensures AllWithinLimits(cfg, After(cfg, s, ops).db)
    decreases |ops|
  {
    if ops != [] {
      StepKeepsLimits(cfg, s, ops[0]);
      hide AllWithinLimits, Perform;
      UploadsWithinLimits(cfg, Perform(cfg, s, ops[0]).store, ops[1..]);
    }
  }
}
