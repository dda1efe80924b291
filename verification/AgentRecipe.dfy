// A client that builds one bundle of three linked artifacts and may be cut off at
// any call (src/folio_lattice/agent_recipe.py), run against the artifact service.
module AgentRecipe {
  import opened Common
  import opened Tables
  import Chunks
  import opened Lattice
  import VersionHistory

  const MAX_IDEMPOTENCY_CANDIDATES := 100
  const MAX_BODY_BYTES := 8 * 1024 * 1024
  const EDGE_TYPE := "references"
  const NO_METADATA := "{}"

  datatype Role = Css | Js | Html

  // The source context the recipe writes with every artifact.
  datatype Context = Context(bundle: string, role: Role, path: string, sha256: Digest)

  datatype Asset = Asset(id: ArtifactId, version: VersionId)

  // `page` is the HTML text that refers to the two other assets by id and version;
  // `encode` and `decode` write and read a context as JSON, None for any other text.
  datatype Recipe = Recipe(
    tenant: string, actor: string, bundle: string,
    cssName: string, jsName: string, htmlName: string, cssBody: Bytes, jsBody: Bytes,
    page: (Asset, Asset) -> Bytes,
    encode: Context -> string, decode: string -> Option<Context>)

  // One artifact to be ensured.
  datatype Part = Part(role: Role, name: string, body: Bytes)

  function MediaType(role: Role): string {
    match role
    case Css => "text/css"
    case Js => "application/javascript"
    case Html => "text/html"
  }

  function Reason(role: Role): string {
    match role
    case Css => "asset bundle css"
    case Js => "asset bundle js"
    case Html => "asset bundle html"
  }

  function ContextFor(r: Recipe, p: Part): Context {
    Context(r.bundle, p.role, p.name, Sha256(p.body))
  }

  function UploadFor(r: Recipe, p: Part): Upload {
    Upload(p.body, MediaType(p.role), r.actor, Reason(p.role), r.encode(ContextFor(r, p)))
  }

  function CssPart(r: Recipe): Part {
    Part(Css, r.cssName, r.cssBody)
  }

  function JsPart(r: Recipe): Part {
    Part(Js, r.jsName, r.jsBody)
  }

  function HtmlPart(r: Recipe, css: Asset, js: Asset): Part {
    Part(Html, r.htmlName, r.page(css, js))
  }

  /** `_validate`. */
  predicate IsValid(r: Recipe) {
    && r.bundle != "" && |r.bundle| <= MAX_NAME_LENGTH
    && (forall n :: n in [r.cssName, r.jsName, r.htmlName] ==> n != "" && |n| <= MAX_NAME_LENGTH)
    && r.cssName != r.jsName && r.cssName != r.htmlName && r.jsName != r.htmlName
    && |r.cssBody| <= MAX_BODY_BYTES && |r.jsBody| <= MAX_BODY_BYTES
  }

  /** The service accepts a create of this part: its names and the limits on its upload. */
  predicate Taken(r: Recipe, cfg: Config, p: Part) {
    ValidText(r.tenant, MAX_NAME_LENGTH) && ValidText(p.name, MAX_NAME_LENGTH) && UploadError(cfg, UploadFor(r, p)).None?
  }

  // Contexts survive being written and read as JSON.
  ghost predicate Faithful(r: Recipe) {
    forall c :: r.decode(r.encode(c)) == Some(c)
  }

  // ------------------------------------------------------ what the client sees

  // An artifact the actor can list and read: its current version, with the bytes,
  // and whether the actor may also write, and so link, it.
  datatype Item = Item(
    name: string, mediaType: string, version: VersionId, context: string, data: Bytes, writable: bool)

  type View = map<ArtifactId, Item>

  predicate Shown(r: Recipe, s: Store, id: ArtifactId) {
    && Visible(s.db, r.tenant, id, r.actor, Read)
    && s.db.artifacts[id].current.Some?
    && s.db.artifacts[id].current.value in s.db.versions
    && s.db.versions[s.db.artifacts[id].current.value].blob in s.blobs
  }

  function ItemOf(r: Recipe, s: Store, id: ArtifactId): Item
    requires Shown(r, s, id)
  {
    var a := s.db.artifacts[id];
    var v := s.db.versions[a.current.value];
    Item(a.name, a.mediaType, a.current.value, v.context, s.blobs[v.blob],
         Authorize(s.db, r.tenant, id, r.actor, Write).Ok?)
  }

  function ViewOf(r: Recipe, s: Store): View {
    map id | id in s.db.artifacts && Shown(r, s, id) :: ItemOf(r, s, id)
  }

  predicate IsCandidate(item: Item, name: string, mediaType: string) {
    item.name == name && item.mediaType == mediaType
  }

  function Candidates(view: View, name: string, role: Role): set<ArtifactId> {
    set id | id in view && IsCandidate(view[id], name, MediaType(role))
  }

  // The context says that this is the bundle's artifact in this role.
  predicate Claims(r: Recipe, item: Item, role: Role) {
    var c := r.decode(item.context);
    c.Some? && c.value.bundle == r.bundle && c.value.role == role
  }

  function Matches(r: Recipe, view: View, name: string, role: Role): set<ArtifactId> {
    set id | id in Candidates(view, name, role) && Claims(r, view[id], role)
  }

  function AssetAt(view: View, id: ArtifactId): Asset
    requires id in view
  {
    Asset(id, view[id].version)
  }

  // The candidate really has the part's content.
  predicate HasContent(r: Recipe, item: Item, p: Part) {
    var c := r.decode(item.context);
    c.Some? && c.value.sha256 == Sha256(p.body) && item.data == p.body
  }

  // At most one match, with the right content, and few enough candidates to find it.
  ghost predicate Settled(r: Recipe, view: View, p: Part) {
    var matches := Matches(r, view, p.name, p.role);
    && |matches| <= 1
    && (forall id :: id in matches ==> HasContent(r, view[id], p) && view[id].writable)
    && |Candidates(view, p.name, p.role)| <= MAX_IDEMPOTENCY_CANDIDATES
    && (matches == {} ==> |Candidates(view, p.name, p.role)| < MAX_IDEMPOTENCY_CANDIDATES)
  }

  // ------------------------------------------------------ creating an artifact

  function NewItem(r: Recipe, p: Part, version: VersionId): Item {
    Item(p.name, MediaType(p.role), version, r.encode(ContextFor(r, p)), p.body, true)
  }

  ghost function CreateCall(r: Recipe, cfg: Config, s: Store, p: Part): Effect {
    CreateEffect(cfg, s, r.tenant, p.name, UploadFor(r, p), Fresh(s.db.artifacts.Keys), Fresh(s.db.versions.Keys), NoCrash)
  }

  ghost predicate Sane(cfg: Config, s: Store) {
    VersionHistory.VersionInv(cfg, s) && VersionHistory.LinksSound(s.db)
  }

  lemma CreateKeepsSane(r: Recipe, cfg: Config, s: Store, p: Part)
    requires Sane(cfg, s)
    ensures Sane(cfg, CreateCall(r, cfg, s, p).store)
  {
    var op := Create(r.tenant, p.name, UploadFor(r, p), Fresh(s.db.artifacts.Keys), Fresh(s.db.versions.Keys), NoCrash);
    assert Perform(cfg, s, op) == CreateCall(r, cfg, s, p);
    hide Perform, VersionHistory.VersionInv, VersionHistory.LinksSound;
    VersionHistory.StepKeepsInv(cfg, s, op);
    VersionHistory.StepKeepsLinks(cfg, s, op);
  }

  // The tables and blobs after a create that the service accepts.
  ghost function CreatedStore(r: Recipe, cfg: Config, s: Store, p: Part): Store {
    var u, id := UploadFor(r, p), Fresh(s.db.artifacts.Keys);
    Store(WithNewVersion(cfg, WithNewArtifact(s.db, r.tenant, id, p.name, u.mediaType, r.actor), r.tenant, id, u,
                         None, Fresh(s.db.versions.Keys)),
          WithBlob(s.blobs, p.body))
  }

  /** A create goes through exactly when the service accepts the part, and changes nothing otherwise. */
  lemma CreateIffTaken(r: Recipe, cfg: Config, s: Store, p: Part)
    ensures var effect := CreateCall(r, cfg, s, p);
            if Taken(r, cfg, p) then effect == Effect(CreatedStore(r, cfg, s, p), None)
            else effect.store == s && effect.error.Some?
  {
    hide ValidText, UploadError, Fresh, WithNewVersion, WithBlob;
    assert Fresh(s.db.artifacts.Keys) !in s.db.artifacts && Fresh(s.db.versions.Keys) !in s.db.versions;
  }

  lemma OtherGrantsStay(db: Db, tenant: string, aid: ArtifactId, name: string, mediaType: string, owner: string,
                        id: ArtifactId, actor: string, action: Action)
    requires id != aid
    ensures HasActiveGrant(WithNewArtifact(db, tenant, aid, name, mediaType, owner), tenant, id, actor, action)
            <==> HasActiveGrant(db, tenant, id, actor, action)
  {
    var grants := WithNewArtifact(db, tenant, aid, name, mediaType, owner).grants;
    assert forall i :: 0 <= i < |db.grants| ==> grants[i] == db.grants[i];
    assert forall i :: |db.grants| <= i < |grants| ==> grants[i].artifact == aid;
  }

  lemma OtherAccessStays(r: Recipe, cfg: Config, s: Store, p: Part, id: ArtifactId)
    requires id in s.db.artifacts
    ensures var s' := CreatedStore(r, cfg, s, p);
            && id in s'.db.artifacts && s'.db.artifacts[id] == s.db.artifacts[id]
            && (Visible(s'.db, r.tenant, id, r.actor, Read) <==> Visible(s.db, r.tenant, id, r.actor, Read))
            && Authorize(s'.db, r.tenant, id, r.actor, Write).Ok? == Authorize(s.db, r.tenant, id, r.actor, Write).Ok?
  {
    OtherGrantsStay(s.db, r.tenant, Fresh(s.db.artifacts.Keys), p.name, MediaType(p.role), r.actor, id, r.actor, Read);
    OtherGrantsStay(s.db, r.tenant, Fresh(s.db.artifacts.Keys), p.name, MediaType(p.role), r.actor, id, r.actor, Write);
    SameGrants(r, cfg, s, p, id, Read);
    SameGrants(r, cfg, s, p, id, Write);
    CurrentIsOld(s, id);
    hide Fresh, IsTextual, HasActiveGrant, WithBlob, Chunks.ChunksOf, ValidText;
  }

  lemma SameGrants(r: Recipe, cfg: Config, s: Store, p: Part, id: ArtifactId, action: Action)
    ensures var db := WithNewArtifact(s.db, r.tenant, Fresh(s.db.artifacts.Keys), p.name, MediaType(p.role), r.actor);
            HasActiveGrant(CreatedStore(r, cfg, s, p).db, r.tenant, id, r.actor, action)
            == HasActiveGrant(db, r.tenant, id, r.actor, action)
  {
  }

  lemma OtherItemStays(r: Recipe, cfg: Config, s: Store, p: Part, id: ArtifactId)
    requires VersionHistory.VersionInv(cfg, s) && id in s.db.artifacts
    ensures var s' := CreatedStore(r, cfg, s, p);
            (Shown(r, s', id) <==> Shown(r, s, id)) && (Shown(r, s, id) ==> ItemOf(r, s', id) == ItemOf(r, s, id))
  {
    OtherAccessStays(r, cfg, s, p, id);
    VersionHistory.CurrentExists(cfg, s, id);
    BlobsGrow(s, p.body);
    OldVersionsStay(r, cfg, s, p);
    hide Visible, Authorize, CreatedStore, WithBlob, VersionHistory.VersionInv;
  }

  lemma OldVersionsStay(r: Recipe, cfg: Config, s: Store, p: Part)
    ensures var s' := CreatedStore(r, cfg, s, p);
            && s'.blobs == WithBlob(s.blobs, p.body)
            && forall v :: v in s.db.versions ==> v in s'.db.versions && s'.db.versions[v] == s.db.versions[v]
  {
  }

  lemma BlobsGrow(s: Store, data: Bytes)
    requires VersionHistory.BlobsHeld(s)
    ensures forall h :: h in s.blobs ==> h in WithBlob(s.blobs, data) && WithBlob(s.blobs, data)[h] == s.blobs[h]
    ensures Sha256(data) in WithBlob(s.blobs, data) && WithBlob(s.blobs, data)[Sha256(data)] == data
    ensures forall v :: v in s.db.versions ==> s.db.versions[v].blob in s.blobs
  {
  }

  // The version number a new artifact gets is not one that is in use.
  lemma CurrentIsOld(s: Store, id: ArtifactId)
    requires id in s.db.artifacts
    ensures id != Fresh(s.db.artifacts.Keys)
    ensures forall v :: v in s.db.versions ==> v != Fresh(s.db.versions.Keys)
  {
  }

  lemma NewItemShown(r: Recipe, cfg: Config, s: Store, p: Part)
    requires VersionHistory.BlobsHeld(s) && ValidText(r.actor, MAX_NAME_LENGTH)
    ensures var s', id := CreatedStore(r, cfg, s, p), Fresh(s.db.artifacts.Keys);
            Shown(r, s', id) && ItemOf(r, s', id) == NewItem(r, p, Fresh(s.db.versions.Keys))
  {
    BlobsGrow(s, p.body);
    hide Fresh, IsTextual, HasActiveGrant, WithBlob, Chunks.ChunksOf;
  }

  lemma TakenActor(r: Recipe, cfg: Config, p: Part)
    requires Taken(r, cfg, p)
    ensures ValidText(r.actor, MAX_NAME_LENGTH)
  {
    hide ValidText;
  }

  /** A create that the service accepts adds exactly the new item to what the client sees. */
  lemma CreateAddsItem(r: Recipe, cfg: Config, s: Store, p: Part)
    requires Taken(r, cfg, p) && Sane(cfg, s)
    ensures var effect := CreateCall(r, cfg, s, p);
            var id, version := Fresh(s.db.artifacts.Keys), Fresh(s.db.versions.Keys);
            && effect.error.None?
            && effect.store.db.edges == s.db.edges
            && id !in ViewOf(r, s)
            && ViewOf(r, effect.store) == ViewOf(r, s)[id := NewItem(r, p, version)]
  {
    CreateIffTaken(r, cfg, s, p);
    TakenActor(r, cfg, p);
    var s', aid := CreatedStore(r, cfg, s, p), Fresh(s.db.artifacts.Keys);
    NewItemShown(r, cfg, s, p);
    assert s'.db.artifacts.Keys == s.db.artifacts.Keys + {aid};
    assert s'.db.edges == s.db.edges && aid !in s.db.artifacts;
    hide CreateCall, CreatedStore, Fresh, Shown, ItemOf, NewItem, ViewOf, Taken, VersionHistory.VersionInv;
    forall id | id in s.db.artifacts
      ensures Shown(r, s', id) <==> Shown(r, s, id)
      ensures Shown(r, s, id) ==> ItemOf(r, s', id) == ItemOf(r, s, id)
    {
      OtherItemStays(r, cfg, s, p, id);
    }
    ViewGrows(r, s, s', aid);
  }

  lemma ViewGrows(r: Recipe, s: Store, s': Store, aid: ArtifactId)
    requires aid !in s.db.artifacts && s'.db.artifacts.Keys == s.db.artifacts.Keys + {aid}
    requires forall id | id in s.db.artifacts :: Shown(r, s', id) <==> Shown(r, s, id)
    requires forall id | id in s.db.artifacts :: Shown(r, s, id) ==> ItemOf(r, s', id) == ItemOf(r, s, id)
    requires Shown(r, s', aid)
    ensures aid !in ViewOf(r, s) && ViewOf(r, s') == ViewOf(r, s)[aid := ItemOf(r, s', aid)]
  {
    hide Shown, ItemOf;
    assert forall id :: id in s'.db.artifacts <==> id in s.db.artifacts || id == aid;
  }

  // ----------------------------------------------------------------- linking

  ghost function LinkCall(r: Recipe, s: Store, source: ArtifactId, target: ArtifactId, createdAt: nat): Effect {
    LinkEffect(s, r.tenant, source, target, EDGE_TYPE, NO_METADATA, r.actor, FreshEdge(s.db), createdAt)
  }

  function FreshEdge(db: Db): nat {
    Fresh(set e | e in db.edges :: e.id)
  }

  ghost predicate Linked(r: Recipe, s: Store, source: ArtifactId, target: ArtifactId) {
    exists e :: e in s.db.edges && SameLink(e, r.tenant, source, target, EDGE_TYPE)
  }

  // No link that is already there carries other metadata.
  ghost predicate NoConflict(r: Recipe, s: Store, source: ArtifactId, target: ArtifactId) {
    forall e :: e in s.db.edges && SameLink(e, r.tenant, source, target, EDGE_TYPE) ==> e.metadata == NO_METADATA
  }

  lemma LinkKeepsSane(r: Recipe, cfg: Config, s: Store, source: ArtifactId, target: ArtifactId, createdAt: nat)
    requires Sane(cfg, s)
    ensures Sane(cfg, LinkCall(r, s, source, target, createdAt).store)
  {
    var op := Join(r.tenant, source, target, EDGE_TYPE, NO_METADATA, r.actor, FreshEdge(s.db), createdAt);
    assert Perform(cfg, s, op) == LinkCall(r, s, source, target, createdAt);
    hide Perform, VersionHistory.VersionInv, VersionHistory.LinksSound;
    VersionHistory.StepKeepsInv(cfg, s, op);
    VersionHistory.StepKeepsLinks(cfg, s, op);
  }

  lemma EdgesDoNotShow(r: Recipe, s: Store, s': Store)
    requires s'.blobs == s.blobs && s'.db == s.db.(edges := s'.db.edges)
    ensures ViewOf(r, s') == ViewOf(r, s)
  {
    forall id ensures HasActiveGrant(s'.db, r.tenant, id, r.actor, Read) == HasActiveGrant(s.db, r.tenant, id, r.actor, Read) {
    }
    forall id ensures HasActiveGrant(s'.db, r.tenant, id, r.actor, Write) == HasActiveGrant(s.db, r.tenant, id, r.actor, Write) {
    }
    hide HasActiveGrant, ValidText;
  }

  /** Between two writable artifacts a link without conflict is there afterwards, and nothing else changes. */
  lemma LinkAdds(r: Recipe, cfg: Config, s: Store, source: ArtifactId, target: ArtifactId, createdAt: nat)
    requires source != target && NoConflict(r, s, source, target)
    requires Authorize(s.db, r.tenant, source, r.actor, Write).Ok? && Authorize(s.db, r.tenant, target, r.actor, Write).Ok?
    ensures var effect := LinkCall(r, s, source, target, createdAt);
            && effect.error.None?
            && ViewOf(r, effect.store) == ViewOf(r, s)
            && Linked(r, effect.store, source, target)
            && (Linked(r, s, source, target) ==> effect.store == s)
            && (forall e :: e in effect.store.db.edges ==>
                  e in s.db.edges || (SameLink(e, r.tenant, source, target, EDGE_TYPE) && e.metadata == NO_METADATA))
            && (forall e :: e in s.db.edges ==> e in effect.store.db.edges)
  {
    var effect := LinkCall(r, s, source, target, createdAt);
    var existing := FindLink(s.db.edges, r.tenant, source, target, EDGE_TYPE);
    LinkCallIs(r, s, source, target, createdAt);
    hide LinkCall, ViewOf, Authorize, FreshEdge;
    if existing.None? {
      var e := Edge(FreshEdge(s.db), createdAt, r.tenant, source, target, EDGE_TYPE, NO_METADATA);
      forall x ensures x in Inserted(s.db.edges, e) <==> x in s.db.edges || x == e {
        InsertedMembers(s.db.edges, e, x);
      }
      EdgesDoNotShow(r, s, effect.store);
      assert e in effect.store.db.edges;
    } else {
      assert existing.value in effect.store.db.edges;
    }
  }

  lemma LinkCallIs(r: Recipe, s: Store, source: ArtifactId, target: ArtifactId, createdAt: nat)
    requires source != target && NoConflict(r, s, source, target)
    requires Authorize(s.db, r.tenant, source, r.actor, Write).Ok? && Authorize(s.db, r.tenant, target, r.actor, Write).Ok?
    ensures LinkCall(r, s, source, target, createdAt) ==
            if FindLink(s.db.edges, r.tenant, source, target, EDGE_TYPE).Some? then Effect(s, None)
            else
              var e := Edge(FreshEdge(s.db), createdAt, r.tenant, source, target, EDGE_TYPE, NO_METADATA);
              Effect(s.(db := s.db.(edges := Inserted(s.db.edges, e))), None)
  {
    assert LinkAccess(s.db, r.tenant, [source, target], r.actor).None?;
    assert forall e :: e in s.db.edges ==> e.id in (set x | x in s.db.edges :: x.id);
    assert ValidText(EDGE_TYPE, MAX_EDGE_TYPE_LENGTH) by {
      assert !IsSpace(EDGE_TYPE[0]);
    }
    hide Authorize, LinkAccess, ValidText;
  }

  // ------------------------------------------------------ the client's calls

  // A call goes through, never arrives, or takes effect without its answer coming back.
  datatype Fault = Works | LostBefore | LostAfter

  datatype Failure = Transport | DifferentContent | Ambiguous | BoundReached | Rejected | InvalidInput

  ghost predicate Quiet(faults: nat -> Fault, from: nat, to: nat) {
    forall t :: from <= t < to ==> faults(t).Works?
  }

  // `artifact_list` with a name, a media type and the limit.
  function ListOf(view: View, p: Part): (ids: seq<ArtifactId>)
    ensures forall id :: id in ids ==> id in view
  {
    var all := Chunks.Sorted(Candidates(view, p.name, p.role));
    var ids := all[..Min(MAX_IDEMPOTENCY_CANDIDATES, |all|)];
    assert forall id :: id in ids ==> id in all;
    ids
  }

  // What the loop over the candidates makes of them.
  function Sift(r: Recipe, view: View, p: Part, ids: seq<ArtifactId>): Result<seq<Asset>, Failure>
    requires forall id :: id in ids ==> id in view
  {
    if ids == [] then Ok([])
    else
      var last := ids[|ids| - 1];
      match Sift(r, view, p, ids[..|ids| - 1])
      case Err(f) => Err(f)
      case Ok(found) =>
        if !Claims(r, view[last], p.role) then Ok(found)
        else if !HasContent(r, view[last], p) then Err(DifferentContent)
        else Ok(found + [AssetAt(view, last)])
  }

  datatype Decision = Found(asset: Asset) | Missing | Stop(failure: Failure)

  /** What `_ensure` decides to do once it has read every candidate. */
  function Decide(r: Recipe, view: View, p: Part): Decision {
    var ids := ListOf(view, p);
    match Sift(r, view, p, ids)
    case Err(f) => Stop(f)
    case Ok(found) =>
      if |found| > 1 then Stop(Ambiguous)
      else if |found| == 1 then Found(found[0])
      else if |ids| >= MAX_IDEMPOTENCY_CANDIDATES then Stop(BoundReached)
      else Missing
  }

  lemma {:induction false} SiftFails(r: Recipe, view: View, p: Part, ids: seq<ArtifactId>, k: nat)
    requires forall id :: id in ids ==> id in view
    requires k <= |ids| && Sift(r, view, p, ids[..k]).Err?
    ensures Sift(r, view, p, ids) == Sift(r, view, p, ids[..k])
  {
    if k < |ids| {
      assert ids[..|ids| - 1][..k] == ids[..k];
      SiftFails(r, view, p, ids[..|ids| - 1], k);
    } else {
      assert ids[..k] == ids;
    }
  }

  // `found` holds the assets of the ids that claim the role, each once.
  ghost predicate Sifted(r: Recipe, view: View, p: Part, ids: seq<ArtifactId>, found: seq<Asset>) {
    && (forall a :: a in found ==> a.id in ids && a.id in view && Claims(r, view[a.id], p.role) && a == AssetAt(view, a.id))
    && (forall id :: id in ids && id in view && Claims(r, view[id], p.role) ==> exists a :: a in found && a.id == id)
    && (forall i, j :: 0 <= i < j < |found| ==> found[i].id != found[j].id)
  }

  lemma {:induction false} SiftFinds(r: Recipe, view: View, p: Part, ids: seq<ArtifactId>)
    requires Distinct(ids) && forall id :: id in ids ==> id in view
    requires forall id :: id in ids && Claims(r, view[id], p.role) ==> HasContent(r, view[id], p)
    ensures Sift(r, view, p, ids).Ok? && Sifted(r, view, p, ids, Sift(r, view, p, ids).value)
  {
    if ids != [] {
      var init, last := ids[..|ids| - 1], ids[|ids| - 1];
      SiftFinds(r, view, p, init);
      assert ids == init + [last];
      SiftedGrows(r, view, p, init, Sift(r, view, p, init).value, last);
      hide Claims, HasContent, Sifted;
    }
  }

  lemma SiftedGrows(r: Recipe, view: View, p: Part, ids: seq<ArtifactId>, found: seq<Asset>, last: ArtifactId)
    requires Sifted(r, view, p, ids, found) && last !in ids && last in view
    ensures Sifted(r, view, p, ids + [last], if Claims(r, view[last], p.role) then found + [AssetAt(view, last)] else found)
  {
    hide Claims;
    if Claims(r, view[last], p.role) {
      var longer := found + [AssetAt(view, last)];
      assert AssetAt(view, last) in longer;
      forall id | id in ids + [last] && id in view && Claims(r, view[id], p.role) ensures exists a :: a in longer && a.id == id {
        if id != last {
          var a :| a in found && a.id == id;
          assert a in longer;
        }
      }
      assert forall i :: 0 <= i < |found| ==> found[i] in found;
    }
  }

  lemma SortedSize(s: set<nat>)
    ensures |Chunks.Sorted(s)| == |s| && Distinct(Chunks.Sorted(s))
  {
    DistinctSize(Chunks.Sorted(s));
    assert Elements(Chunks.Sorted(s)) == s;
  }

  lemma AtMostOneFound(r: Recipe, view: View, p: Part, ids: seq<ArtifactId>, found: seq<Asset>)
    requires |Matches(r, view, p.name, p.role)| <= 1 && Sifted(r, view, p, ids, found)
    requires forall id :: id in ids <==> id in Candidates(view, p.name, p.role)
    ensures Matches(r, view, p.name, p.role) == {} ==> found == []
    ensures Matches(r, view, p.name, p.role) != {} ==> |found| == 1 && found[0].id in Matches(r, view, p.name, p.role)
  {
    var matches := Matches(r, view, p.name, p.role);
    forall i | 0 <= i < |found| ensures found[i].id in matches {
      assert found[i] in found;
    }
    hide Claims, Candidates;
    assert found != [] ==> found[0].id in matches;
    if |found| > 1 {
      SubsetSize({found[0].id, found[1].id}, matches);
    }
    if matches != {} {
      var id :| id in matches;
      assert exists a :: a in found && a.id == id;
    }
  }

  /** On settled ground the client finds the one match, and creates only when there is none. */
  lemma SettledDecides(r: Recipe, view: View, p: Part)
    requires Settled(r, view, p)
    ensures var matches := Matches(r, view, p.name, p.role);
            if matches == {} then Decide(r, view, p) == Missing
            else Decide(r, view, p).Found? && matches == {Decide(r, view, p).asset.id}
                 && Decide(r, view, p).asset == AssetAt(view, Decide(r, view, p).asset.id)
  {
    var ids, matches := ListOf(view, p), Matches(r, view, p.name, p.role);
    ListIsComplete(view, p);
    MatchesClaim(r, view, p, ids);
    SiftFinds(r, view, p, ids);
    var found := Sift(r, view, p, ids).value;
    AtMostOneFound(r, view, p, ids, found);
    FoundAreAssets(r, view, p, ids, found);
    OnlyMember(r, view, p, found);
    hide Sift, Sifted, Candidates, Matches, ListOf, HasContent, Claims, AssetAt;
  }

  lemma {:induction false} SiftFailsIff(r: Recipe, view: View, p: Part, ids: seq<ArtifactId>)
    requires forall id :: id in ids ==> id in view
    ensures Sift(r, view, p, ids).Err? <==> exists id :: id in ids && Claims(r, view[id], p.role) && !HasContent(r, view[id], p)
    ensures Sift(r, view, p, ids).Err? ==> Sift(r, view, p, ids) == Err(DifferentContent)
  {
    if ids != [] {
      var init, last := ids[..|ids| - 1], ids[|ids| - 1];
      SiftFailsIff(r, view, p, init);
      assert ids == init + [last];
      hide Claims, HasContent;
    }
  }

  lemma FoundAreMatches(r: Recipe, view: View, p: Part, ids: seq<ArtifactId>, found: seq<Asset>)
    requires Sifted(r, view, p, ids, found)
    requires forall id :: id in ids <==> id in Candidates(view, p.name, p.role)
    ensures |found| == |Matches(r, view, p.name, p.role)|
    ensures |found| == 1 ==> Matches(r, view, p.name, p.role) == {found[0].id}
  {
    var names := seq(|found|, i requires 0 <= i < |found| => found[i].id);
    hide Claims, Candidates;
    forall id ensures id in names <==> id in Matches(r, view, p.name, p.role) {
      if id in names {
        var i :| 0 <= i < |names| && names[i] == id;
        assert found[i] in found;
      }
      if id in Matches(r, view, p.name, p.role) {
        var a :| a in found && a.id == id;
        var i :| 0 <= i < |found| && found[i] == a;
        assert names[i] == id;
      }
    }
    DistinctSize(names);
    assert Elements(names) == Matches(r, view, p.name, p.role);
    if |found| == 1 {
      assert Matches(r, view, p.name, p.role) == {names[0]};
    }
  }

  /**
   * With no more candidates than it lists, the client finds the one match if there is
   * just one and it has the right content, makes the artifact only if there is none and
   * the list was not full, and otherwise stops and says why.
   */
  lemma DecideMeans(r: Recipe, view: View, p: Part)
    requires |Candidates(view, p.name, p.role)| <= 100
    ensures var matches := Matches(r, view, p.name, p.role);
            var decision := Decide(r, view, p);
            if exists id :: id in matches && !HasContent(r, view[id], p) then decision == Stop(DifferentContent)
            else if |matches| > 1 then decision == Stop(Ambiguous)
            else if |matches| == 1 then decision.Found? && matches == {decision.asset.id}
            else if |Candidates(view, p.name, p.role)| == 100 then decision == Stop(BoundReached)
            else decision == Missing
  {
    var ids, matches := ListOf(view, p), Matches(r, view, p.name, p.role);
    ListIsComplete(view, p);
    SiftFailsIff(r, view, p, ids);
    CandidatesShown(view, p);
    assert forall id :: id in matches <==> id in ids && Claims(r, view[id], p.role);
    hide Sift, Sifted, Candidates, Matches, ListOf, HasContent, Claims;
    if Sift(r, view, p, ids).Ok? {
      SiftFinds(r, view, p, ids);
      FoundAreMatches(r, view, p, ids, Sift(r, view, p, ids).value);
    }
  }

  lemma CandidatesShown(view: View, p: Part)
    ensures forall id :: id in Candidates(view, p.name, p.role) ==> id in view
  {
  }

  lemma ListIsComplete(view: View, p: Part)
    requires |Candidates(view, p.name, p.role)| <= MAX_IDEMPOTENCY_CANDIDATES
    ensures var ids := ListOf(view, p);
            && Distinct(ids) && |ids| == |Candidates(view, p.name, p.role)|
            && forall id :: id in ids <==> id in Candidates(view, p.name, p.role)
  {
    SortedSize(Candidates(view, p.name, p.role));
    assert ListOf(view, p) == Chunks.Sorted(Candidates(view, p.name, p.role));
    hide Candidates;
  }

  lemma MatchesClaim(r: Recipe, view: View, p: Part, ids: seq<ArtifactId>)
    requires Settled(r, view, p) && forall id :: id in ids <==> id in Candidates(view, p.name, p.role)
    ensures forall id :: id in ids ==> id in view
    ensures forall id :: id in ids && Claims(r, view[id], p.role) ==> HasContent(r, view[id], p)
  {
    hide Claims, HasContent;
    forall id | id in ids && Claims(r, view[id], p.role) ensures HasContent(r, view[id], p) {
      assert id in Matches(r, view, p.name, p.role);
    }
  }

  lemma FoundAreAssets(r: Recipe, view: View, p: Part, ids: seq<ArtifactId>, found: seq<Asset>)
    requires Sifted(r, view, p, ids, found)
    ensures forall a :: a in found ==> a.id in view && a == AssetAt(view, a.id)
  {
    hide Claims;
  }

  lemma OnlyMember(r: Recipe, view: View, p: Part, found: seq<Asset>)
    requires |Matches(r, view, p.name, p.role)| <= 1 && (forall a :: a in found ==> a.id in view && a == AssetAt(view, a.id))
    ensures found != [] && found[0].id in Matches(r, view, p.name, p.role) ==>
              Matches(r, view, p.name, p.role) == {found[0].id} && found[0] == AssetAt(view, found[0].id)
  {
    if found != [] && found[0].id in Matches(r, view, p.name, p.role) {
      SubsetSize({found[0].id}, Matches(r, view, p.name, p.role));
      assert |Matches(r, view, p.name, p.role) - {found[0].id}| == 0;
    }
  }

  // ----------------------------------------------------- ensuring one part

  ghost predicate Has(r: Recipe, view: View, p: Part, a: Asset) {
    Matches(r, view, p.name, p.role) == {a.id} && a.id in view && AssetAt(view, a.id) == a
  }

  // How one `_ensure` can end; `quiet` when all its calls went through.
  ghost predicate Ensured(r: Recipe, cfg: Config, s: Store, p: Part, s': Store, result: Result<Asset, Failure>, quiet: bool) {
    var decision := Decide(r, ViewOf(r, s), p);
    && (s' == s || (decision.Missing? && Taken(r, cfg, p) && s' == CreatedStore(r, cfg, s, p)))
    && (result.Ok? ==>
          || (decision.Found? && s' == s && result.value == decision.asset)
          || (decision.Missing? && Taken(r, cfg, p) && s' == CreatedStore(r, cfg, s, p)
              && result.value == Asset(Fresh(s.db.artifacts.Keys), Fresh(s.db.versions.Keys))))
    && (quiet && (decision.Found? || (decision.Missing? && Taken(r, cfg, p))) ==> result.Ok?)
  }

  lemma EnsureDecided(r: Recipe, cfg: Config, s: Store, p: Part, decision: Decision, result: Result<Asset, Failure>, quiet: bool)
    requires decision == Decide(r, ViewOf(r, s), p) || (decision == Stop(Transport) && !quiet)
    requires !decision.Missing?
    requires result == if decision.Found? then Ok(decision.asset) else Err(decision.failure)
    ensures Ensured(r, cfg, s, p, s, result, quiet)
  {
    hide Decide, ViewOf, Taken;
  }

  lemma EnsureCreated(r: Recipe, cfg: Config, s: Store, p: Part, fault: Fault, s': Store, result: Result<Asset, Failure>, quiet: bool)
    requires Decide(r, ViewOf(r, s), p) == Missing && (quiet ==> fault.Works?)
    requires var effect := CreateCall(r, cfg, s, p);
             && s' == (if fault.LostBefore? then s else effect.store)
             && result == if !fault.Works? then Err(Transport) else if effect.error.Some? then Err(Rejected)
                          else Ok(Asset(Fresh(s.db.artifacts.Keys), Fresh(s.db.versions.Keys)))
    ensures Ensured(r, cfg, s, p, s', result, quiet)
  {
    hide Taken, Decide, ViewOf, CreateCall, CreatedStore, Fresh;
    CreateIffTaken(r, cfg, s, p);
  }

  // The view once the item of a part has been added under a new id.
  lemma AddedMatches(r: Recipe, view: View, id: ArtifactId, p: Part, version: VersionId, name: string, role: Role)
    requires Faithful(r) && id !in view
    ensures var view' := view[id := NewItem(r, p, version)];
            if name == p.name && role == p.role then
              && Matches(r, view', name, role) == Matches(r, view, name, role) + {id}
              && Candidates(view', name, role) == Candidates(view, name, role) + {id}
            else
              && Matches(r, view', name, role) == Matches(r, view, name, role)
              && (name != p.name ==> Candidates(view', name, role) == Candidates(view, name, role))
  {
    assert r.decode(r.encode(ContextFor(r, p))) == Some(ContextFor(r, p));
    hide Faithful;
  }

  // The part is missing and the service does not take it.
  ghost predicate Refused(r: Recipe, cfg: Config, view: View, p: Part) {
    Matches(r, view, p.name, p.role) == {} && !Taken(r, cfg, p)
  }

  // What an `_ensure` does on settled ground.
  lemma EnsuredPart(r: Recipe, cfg: Config, s: Store, p: Part, s': Store, result: Result<Asset, Failure>, quiet: bool)
    requires Faithful(r) && Sane(cfg, s) && Settled(r, ViewOf(r, s), p)
    requires Ensured(r, cfg, s, p, s', result, quiet)
    ensures Sane(cfg, s') && s'.db.edges == s.db.edges
    ensures if Refused(r, cfg, ViewOf(r, s), p) then s' == s && result.Err? else quiet ==> result.Ok?
    ensures var matches := Matches(r, ViewOf(r, s), p.name, p.role);
            && (matches != {} ==> s' == s)
            && (s' != s ==>
                  var id := Fresh(s.db.artifacts.Keys);
                  id !in ViewOf(r, s) && ViewOf(r, s') == ViewOf(r, s)[id := NewItem(r, p, Fresh(s.db.versions.Keys))])
            && (result.Ok? ==> Has(r, ViewOf(r, s'), p, result.value))
  {
    SettledDecides(r, ViewOf(r, s), p);
    if Matches(r, ViewOf(r, s), p.name, p.role) == {} && Taken(r, cfg, p) {
      CreatedPart(r, cfg, s, p);
    }
    hide Taken, Settled, Sane, ViewOf, Decide, CreatedStore, Matches, Fresh, NewItem;
  }

  lemma CreatedPart(r: Recipe, cfg: Config, s: Store, p: Part)
    requires Faithful(r) && Taken(r, cfg, p) && Sane(cfg, s)
    requires Matches(r, ViewOf(r, s), p.name, p.role) == {}
    ensures var s', id, version := CreatedStore(r, cfg, s, p), Fresh(s.db.artifacts.Keys), Fresh(s.db.versions.Keys);
            && Sane(cfg, s') && s'.db.edges == s.db.edges
            && id !in ViewOf(r, s) && ViewOf(r, s') == ViewOf(r, s)[id := NewItem(r, p, version)]
            && Has(r, ViewOf(r, s'), p, Asset(id, version))
  {
    CreateIffTaken(r, cfg, s, p);
    CreateAddsItem(r, cfg, s, p);
    CreateKeepsSane(r, cfg, s, p);
    hide *;
    NewPartFound(r, ViewOf(r, s), Fresh(s.db.artifacts.Keys), p, Fresh(s.db.versions.Keys));
  }

  lemma NewPartFound(r: Recipe, view: View, id: ArtifactId, p: Part, version: VersionId)
    requires Faithful(r) && id !in view && Matches(r, view, p.name, p.role) == {}
    ensures Has(r, view[id := NewItem(r, p, version)], p, Asset(id, version))
  {
    AddedMatches(r, view, id, p, version, p.name, p.role);
    hide Sensible, Matches, Candidates;
  }

  // ------------------------------------------------ what every attempt keeps

  ghost predicate HtmlOpen(r: Recipe, view: View) {
    Matches(r, view, r.htmlName, Html) == {}
  }

  // Whatever exists is right, and the page exists only after what it refers to.
  ghost predicate ViewProgress(r: Recipe, view: View) {
    && Settled(r, view, CssPart(r)) && Settled(r, view, JsPart(r))
    && (HtmlOpen(r, view) ==> |Candidates(view, r.htmlName, Html)| < MAX_IDEMPOTENCY_CANDIDATES)
    && (!HtmlOpen(r, view) ==>
          exists css, js ::
            Has(r, view, CssPart(r), css) && Has(r, view, JsPart(r), js) && Settled(r, view, HtmlPart(r, css, js)))
  }

  ghost predicate NoConflicts(r: Recipe, s: Store) {
    forall h, t :: h in Matches(r, ViewOf(r, s), r.htmlName, Html) && h != t ==> NoConflict(r, s, h, t)
  }

  ghost predicate Progress(r: Recipe, cfg: Config, s: Store) {
    Sane(cfg, s) && ViewProgress(r, ViewOf(r, s)) && NoConflicts(r, s)
  }

  lemma HasIsUnique(r: Recipe, view: View, p: Part, a: Asset, b: Asset)
    requires Has(r, view, p, a) && Has(r, view, p, b)
    ensures a == b
  {
    assert a.id in {b.id};
  }

  // The HTML part is settled as soon as both others are there.
  lemma HtmlSettled(r: Recipe, view: View, css: Asset, js: Asset)
    requires ViewProgress(r, view) && Has(r, view, CssPart(r), css) && Has(r, view, JsPart(r), js)
    ensures Settled(r, view, HtmlPart(r, css, js))
  {
    if !HtmlOpen(r, view) {
      var c, j :| Has(r, view, CssPart(r), c) && Has(r, view, JsPart(r), j) && Settled(r, view, HtmlPart(r, c, j));
      HasIsUnique(r, view, CssPart(r), c, css);
      HasIsUnique(r, view, JsPart(r), j, js);
    }
    hide Has, Matches, Candidates, HasContent;
  }

  // A new item of another name leaves a part as it was.
  lemma OtherPartStays(r: Recipe, view: View, id: ArtifactId, p: Part, version: VersionId, other: Part)
    requires Faithful(r) && id !in view && other.name != p.name
    ensures var view' := view[id := NewItem(r, p, version)];
            && (Settled(r, view', other) <==> Settled(r, view, other))
            && (forall a :: Has(r, view, other, a) ==> Has(r, view', other, a))
  {
    AddedMatches(r, view, id, p, version, other.name, other.role);
    var view' := view[id := NewItem(r, p, version)];
    assert forall x :: x in Matches(r, view, other.name, other.role) ==> x in view && x != id;
    hide Sensible, Claims, HasContent, NewItem;
  }

  lemma NewPartSettled(r: Recipe, view: View, id: ArtifactId, p: Part, version: VersionId)
    requires Faithful(r) && id !in view && Settled(r, view, p) && Matches(r, view, p.name, p.role) == {}
    ensures var view' := view[id := NewItem(r, p, version)];
            Settled(r, view', p) && Has(r, view', p, Asset(id, version))
  {
    NewPartFound(r, view, id, p, version);
    AddedMatches(r, view, id, p, version, p.name, p.role);
    assert HasContent(r, NewItem(r, p, version), p) by {
      assert r.decode(r.encode(ContextFor(r, p))) == Some(ContextFor(r, p));
    }
    hide Sensible, Claims, HasContent, IsCandidate, Has;
  }

  lemma NewLeafKeepsProgress(r: Recipe, view: View, id: ArtifactId, p: Part, version: VersionId)
    requires Faithful(r) && IsValid(r) && id !in view && ViewProgress(r, view)
    requires (p == CssPart(r) || p == JsPart(r)) && Matches(r, view, p.name, p.role) == {}
    ensures ViewProgress(r, view[id := NewItem(r, p, version)])
    ensures HtmlOpen(r, view[id := NewItem(r, p, version)])
  {
    var other := OtherLeaf(r, p);
    assert other.name != p.name && r.htmlName != p.name;
    hide IsValid;
    NewPartSettled(r, view, id, p, version);
    OtherPartStays(r, view, id, p, version, other);
    AddedMatches(r, view, id, p, version, r.htmlName, Html);
    HasNeedsMatch(r, view, p);
    hide Settled, NewItem, Candidates, Matches, Has, Faithful;
  }

  lemma NewPageKeepsProgress(r: Recipe, view: View, id: ArtifactId, css: Asset, js: Asset, version: VersionId)
    requires Faithful(r) && IsValid(r) && id !in view && ViewProgress(r, view) && HtmlOpen(r, view)
    requires Has(r, view, CssPart(r), css) && Has(r, view, JsPart(r), js)
    ensures ViewProgress(r, view[id := NewItem(r, HtmlPart(r, css, js), version)])
  {
    var p := HtmlPart(r, css, js);
    HtmlSettled(r, view, css, js);
    NewPartSettled(r, view, id, p, version);
    OtherPartStays(r, view, id, p, version, CssPart(r));
    OtherPartStays(r, view, id, p, version, JsPart(r));
    AddedMatches(r, view, id, p, version, r.htmlName, Html);
    hide Settled, Has, NewItem, Candidates, Matches;
  }

  // ------------------------------------------------------- the three stages

  datatype Bundle = Bundle(html: Asset, css: Asset, js: Asset)

  function OtherLeaf(r: Recipe, p: Part): Part {
    if p == CssPart(r) then JsPart(r) else CssPart(r)
  }

  ghost predicate Sensible(r: Recipe) {
    IsValid(r) && Faithful(r)
  }

  lemma NoPageNoConflicts(r: Recipe, s: Store)
    requires HtmlOpen(r, ViewOf(r, s))
    ensures NoConflicts(r, s)
  {
  }

  lemma StageLeaf(r: Recipe, cfg: Config, s: Store, p: Part, s': Store, result: Result<Asset, Failure>, quiet: bool)
    requires Sensible(r) && Progress(r, cfg, s) && (p == CssPart(r) || p == JsPart(r))
    requires Ensured(r, cfg, s, p, s', result, quiet)
    ensures Progress(r, cfg, s')
    ensures if Refused(r, cfg, ViewOf(r, s), p) then s' == s && result.Err? else quiet ==> result.Ok?
    ensures result.Ok? ==> Has(r, ViewOf(r, s'), p, result.value)
    ensures forall a :: Has(r, ViewOf(r, s), p, a) ==> s' == s && (result.Ok? ==> result.value == a)
    ensures forall a :: Has(r, ViewOf(r, s), OtherLeaf(r, p), a) ==> Has(r, ViewOf(r, s'), OtherLeaf(r, p), a)
  {
    EnsuredPart(r, cfg, s, p, s', result, quiet);
    HasNeedsMatch(r, ViewOf(r, s), p);
    if s' == s {
      forall a | Has(r, ViewOf(r, s), p, a) && result.Ok? ensures result.value == a {
        HasIsUnique(r, ViewOf(r, s), p, result.value, a);
      }
    } else {
      var id, version := Fresh(s.db.artifacts.Keys), Fresh(s.db.versions.Keys);
      assert CssPart(r).name != JsPart(r).name;
      hide Ensured, Faithful, IsValid, Sane, Settled, Has, Matches, ViewOf, NewItem, NoConflicts, HtmlOpen, ViewProgress;
      NewLeafKeepsProgress(r, ViewOf(r, s), id, p, version);
      OtherPartStays(r, ViewOf(r, s), id, p, version, OtherLeaf(r, p));
      NoPageNoConflicts(r, s');
    }
  }

  lemma HasNeedsMatch(r: Recipe, view: View, p: Part)
    ensures Matches(r, view, p.name, p.role) == {} ==> forall a :: !Has(r, view, p, a)
  {
    forall a | Has(r, view, p, a) ensures Matches(r, view, p.name, p.role) != {} {
      assert a.id in Matches(r, view, p.name, p.role);
    }
  }

  // A page that has just been made is not linked to anything yet.
  lemma NewPageNoConflicts(r: Recipe, cfg: Config, s: Store, s': Store, p: Part)
    requires VersionHistory.LinksSound(s.db) && s'.db.edges == s.db.edges
    requires Matches(r, ViewOf(r, s'), r.htmlName, Html) == {Fresh(s.db.artifacts.Keys)}
    ensures NoConflicts(r, s')
  {
    var id := Fresh(s.db.artifacts.Keys);
    assert forall e :: e in s.db.edges ==> e.source != id;
    hide Matches, ViewOf, Fresh;
  }

  lemma StagePage(r: Recipe, cfg: Config, s: Store, css: Asset, js: Asset, s': Store,
                  result: Result<Asset, Failure>, quiet: bool)
    requires Sensible(r) && Progress(r, cfg, s)
    requires Has(r, ViewOf(r, s), CssPart(r), css) && Has(r, ViewOf(r, s), JsPart(r), js)
    requires Ensured(r, cfg, s, HtmlPart(r, css, js), s', result, quiet)
    ensures Progress(r, cfg, s')
    ensures if Refused(r, cfg, ViewOf(r, s), HtmlPart(r, css, js)) then s' == s && result.Err? else quiet ==> result.Ok?
    ensures result.Ok? ==> Has(r, ViewOf(r, s'), HtmlPart(r, css, js), result.value)
    ensures forall a :: Has(r, ViewOf(r, s), HtmlPart(r, css, js), a) ==> s' == s && (result.Ok? ==> result.value == a)
    ensures Has(r, ViewOf(r, s'), CssPart(r), css) && Has(r, ViewOf(r, s'), JsPart(r), js)
  {
    var p := HtmlPart(r, css, js);
    HtmlSettled(r, ViewOf(r, s), css, js);
    EnsuredPart(r, cfg, s, p, s', result, quiet);
    HasNeedsMatch(r, ViewOf(r, s), p);
    if s' == s {
      forall a | Has(r, ViewOf(r, s), p, a) && result.Ok? ensures result.value == a {
        HasIsUnique(r, ViewOf(r, s), p, result.value, a);
      }
    } else {
      var id, version := Fresh(s.db.artifacts.Keys), Fresh(s.db.versions.Keys);
      assert CssPart(r).name != p.name && JsPart(r).name != p.name;
      assert HtmlOpen(r, ViewOf(r, s)) && VersionHistory.LinksSound(s.db);
      NewPartFound(r, ViewOf(r, s), id, p, version);
      assert Matches(r, ViewOf(r, s'), r.htmlName, Html) == {id};
      hide Ensured, Faithful, IsValid, Sane, Settled, Has, Matches, ViewOf, NewItem, NoConflicts, HtmlOpen, ViewProgress;
      NewPageKeepsProgress(r, ViewOf(r, s), id, css, js, version);
      OtherPartStays(r, ViewOf(r, s), id, p, version, CssPart(r));
      OtherPartStays(r, ViewOf(r, s), id, p, version, JsPart(r));
      NewPageNoConflicts(r, cfg, s, s', p);
    }
  }

  lemma HasIsWritable(r: Recipe, s: Store, p: Part, a: Asset)
    requires Settled(r, ViewOf(r, s), p) && Has(r, ViewOf(r, s), p, a)
    ensures Authorize(s.db, r.tenant, a.id, r.actor, Write).Ok?
    ensures a.id in ViewOf(r, s) && ViewOf(r, s)[a.id].name == p.name && a.id in Matches(r, ViewOf(r, s), p.name, p.role)
  {
    assert a.id in Matches(r, ViewOf(r, s), p.name, p.role);
    hide Claims, HasContent, Shown, Authorize;
  }

  ghost predicate HasAll(r: Recipe, view: View, b: Bundle) {
    && Has(r, view, CssPart(r), b.css) && Has(r, view, JsPart(r), b.js)
    && Has(r, view, HtmlPart(r, b.css, b.js), b.html)
  }

  lemma StageLink(r: Recipe, cfg: Config, s: Store, b: Bundle, target: Asset, createdAt: nat)
    requires Sensible(r) && Progress(r, cfg, s) && HasAll(r, ViewOf(r, s), b)
    requires target == b.css || target == b.js
    ensures var effect := LinkCall(r, s, b.html.id, target.id, createdAt);
            && effect.error.None?
            && Progress(r, cfg, effect.store) && ViewOf(r, effect.store) == ViewOf(r, s)
            && Linked(r, effect.store, b.html.id, target.id)
            && (Linked(r, s, b.html.id, target.id) ==> effect.store == s)
            && (forall t :: Linked(r, s, b.html.id, t) ==> Linked(r, effect.store, b.html.id, t))
  {
    LinkReady(r, cfg, s, b, target);
    LinkKeepsSane(r, cfg, s, b.html.id, target.id, createdAt);
    LinkAdds(r, cfg, s, b.html.id, target.id, createdAt);
    var s' := LinkCall(r, s, b.html.id, target.id, createdAt).store;
    hide Sensible, Sane, HasAll, ViewOf, LinkCall, Authorize, ViewProgress, NoConflicts, NoConflict, SameLink;
    ConflictsStay(r, s, s', b.html.id, target.id);
    forall t | Linked(r, s, b.html.id, t) ensures Linked(r, s', b.html.id, t) {
      var e :| e in s.db.edges && SameLink(e, r.tenant, b.html.id, t, EDGE_TYPE);
      assert e in s'.db.edges;
    }
  }

  lemma LinkReady(r: Recipe, cfg: Config, s: Store, b: Bundle, target: Asset)
    requires Sensible(r) && Progress(r, cfg, s) && HasAll(r, ViewOf(r, s), b)
    requires target == b.css || target == b.js
    ensures b.html.id != target.id && NoConflict(r, s, b.html.id, target.id)
    ensures Authorize(s.db, r.tenant, b.html.id, r.actor, Write).Ok?
    ensures Authorize(s.db, r.tenant, target.id, r.actor, Write).Ok?
  {
    HtmlSettled(r, ViewOf(r, s), b.css, b.js);
    HasIsWritable(r, s, HtmlPart(r, b.css, b.js), b.html);
    var p := if target == b.css then CssPart(r) else JsPart(r);
    HasIsWritable(r, s, p, target);
    assert p.name != r.htmlName;
    hide Sensible, Sane, Settled, Has, Matches, ViewOf, Authorize, NoConflict, ViewProgress;
  }

  lemma ConflictsStay(r: Recipe, s: Store, s': Store, source: ArtifactId, target: ArtifactId)
    requires NoConflicts(r, s) && ViewOf(r, s') == ViewOf(r, s)
    requires forall e :: e in s'.db.edges ==>
               e in s.db.edges || (SameLink(e, r.tenant, source, target, EDGE_TYPE) && e.metadata == NO_METADATA)
    ensures NoConflicts(r, s')
  {
    hide ViewOf, Matches, SameLink;
    forall h, t | h in Matches(r, ViewOf(r, s'), r.htmlName, Html) && h != t ensures NoConflict(r, s', h, t) {
      assert NoConflict(r, s, h, t);
    }
  }

  /** The bundle is there: one artifact per role, each with its content, and both links. */
  ghost predicate Complete(r: Recipe, cfg: Config, s: Store, b: Bundle) {
    && Progress(r, cfg, s) && HasAll(r, ViewOf(r, s), b)
    && Linked(r, s, b.html.id, b.css.id) && Linked(r, s, b.html.id, b.js.id)
  }

  // The artifact has this name, type and role in the bundle.
  ghost predicate PlaysRole(r: Recipe, item: Item, name: string, mediaType: string, role: Role) {
    && item.name == name && item.mediaType == mediaType
    && r.decode(item.context).Some?
    && r.decode(item.context).value.bundle == r.bundle && r.decode(item.context).value.role == role
  }

  // The client sees one such artifact, and it is this one, with this content.
  ghost predicate TheOnly(r: Recipe, view: View, a: Asset, name: string, mediaType: string, role: Role, data: Bytes) {
    && a.id in view && PlaysRole(r, view[a.id], name, mediaType, role)
    && view[a.id].version == a.version && view[a.id].data == data
    && r.decode(view[a.id].context).value.sha256 == Sha256(data)
    && forall id :: id in view && PlaysRole(r, view[id], name, mediaType, role) ==> id == a.id
  }

  lemma SettledIsTheOnly(r: Recipe, view: View, p: Part, a: Asset)
    requires Settled(r, view, p) && Has(r, view, p, a)
    ensures TheOnly(r, view, a, p.name, MediaType(p.role), p.role, p.body)
  {
    var matches := Matches(r, view, p.name, p.role);
    assert a.id in matches;
    forall id | id in view && PlaysRole(r, view[id], p.name, MediaType(p.role), p.role) ensures id == a.id {
      assert id in matches;
    }
  }

  lemma CompleteIsSettled(r: Recipe, cfg: Config, s: Store, b: Bundle)
    requires Complete(r, cfg, s, b)
    ensures Settled(r, ViewOf(r, s), CssPart(r)) && Has(r, ViewOf(r, s), CssPart(r), b.css)
    ensures Settled(r, ViewOf(r, s), JsPart(r)) && Has(r, ViewOf(r, s), JsPart(r), b.js)
    ensures Settled(r, ViewOf(r, s), HtmlPart(r, b.css, b.js)) && Has(r, ViewOf(r, s), HtmlPart(r, b.css, b.js), b.html)
    ensures Linked(r, s, b.html.id, b.css.id) && Linked(r, s, b.html.id, b.js.id)
  {
    HtmlSettled(r, ViewOf(r, s), b.css, b.js);
    hide Settled, Has, ViewOf, Sane, NoConflicts, HtmlOpen, Linked;
  }

  lemma PartsAreTheOnly(r: Recipe, view: View, b: Bundle)
    requires Settled(r, view, CssPart(r)) && Has(r, view, CssPart(r), b.css)
    requires Settled(r, view, JsPart(r)) && Has(r, view, JsPart(r), b.js)
    requires Settled(r, view, HtmlPart(r, b.css, b.js)) && Has(r, view, HtmlPart(r, b.css, b.js), b.html)
    ensures TheOnly(r, view, b.css, r.cssName, "text/css", Css, r.cssBody)
    ensures TheOnly(r, view, b.js, r.jsName, "application/javascript", Js, r.jsBody)
    ensures TheOnly(r, view, b.html, r.htmlName, "text/html", Html, r.page(b.css, b.js))
  {
    SettledIsTheOnly(r, view, CssPart(r), b.css);
    SettledIsTheOnly(r, view, JsPart(r), b.js);
    SettledIsTheOnly(r, view, HtmlPart(r, b.css, b.js), b.html);
    hide Settled, Has, TheOnly;
  }

  ghost predicate References(db: Db, tenant: string, source: ArtifactId, target: ArtifactId) {
    exists e :: e in db.edges && e.tenant == tenant && e.source == source && e.target == target && e.kind == "references"
  }

  lemma LinkedReferences(r: Recipe, s: Store, source: ArtifactId, target: ArtifactId)
    requires Linked(r, s, source, target)
    ensures References(s.db, r.tenant, source, target)
  {
  }

  /**
   * What a complete bundle is, told in full: one stylesheet, one script and one page
   * under their names and types, the page naming the stylesheet first and the script
   * second, and a link from the page to each of them.
   */
  lemma CompleteBundleIs(r: Recipe, cfg: Config, s: Store, b: Bundle)
    requires Complete(r, cfg, s, b)
    ensures TheOnly(r, ViewOf(r, s), b.css, r.cssName, "text/css", Css, r.cssBody)
    ensures TheOnly(r, ViewOf(r, s), b.js, r.jsName, "application/javascript", Js, r.jsBody)
    ensures TheOnly(r, ViewOf(r, s), b.html, r.htmlName, "text/html", Html, r.page(b.css, b.js))
    ensures References(s.db, r.tenant, b.html.id, b.css.id) && References(s.db, r.tenant, b.html.id, b.js.id)
  {
    hide *;
    CompleteIsSettled(r, cfg, s, b);
    PartsAreTheOnly(r, ViewOf(r, s), b);
    LinkedReferences(r, s, b.html.id, b.css.id);
    LinkedReferences(r, s, b.html.id, b.js.id);
  }

  /** What the client asks for: the text of the part, under a context that says which bundle, role, path and content it is. */
  lemma CreatedItemSays(r: Recipe, p: Part, version: VersionId)
    requires Faithful(r)
    ensures var item := NewItem(r, p, version);
            && item.data == p.body && item.name == p.name && item.version == version
            && r.decode(item.context) == Some(Context(r.bundle, p.role, p.name, Sha256(p.body)))
  {
  }

  // The next part to be made is one that the service does not take.
  ghost predicate Blocked(r: Recipe, cfg: Config, view: View) {
    || Refused(r, cfg, view, CssPart(r))
    || (exists css :: Has(r, view, CssPart(r), css) && Refused(r, cfg, view, JsPart(r)))
    || (exists css, js ::
          Has(r, view, CssPart(r), css) && Has(r, view, JsPart(r), js) && Refused(r, cfg, view, HtmlPart(r, css, js)))
  }

  lemma CompleteIsNotBlocked(r: Recipe, cfg: Config, s: Store, b: Bundle)
    requires HasAll(r, ViewOf(r, s), b)
    ensures !Blocked(r, cfg, ViewOf(r, s))
  {
    HasNeedsMatch(r, ViewOf(r, s), CssPart(r));
    HasNeedsMatch(r, ViewOf(r, s), JsPart(r));
    HasNeedsMatch(r, ViewOf(r, s), HtmlPart(r, b.css, b.js));
    hide Has, Matches, ViewOf, Taken;
  }

  // What one attempt does, wherever it was cut off.
  ghost predicate Attempt(r: Recipe, cfg: Config, s: Store, s': Store, result: Result<Bundle, Failure>, quiet: bool) {
    && Progress(r, cfg, s')
    && (quiet ==> result.Ok? || Blocked(r, cfg, ViewOf(r, s')))
    && (Blocked(r, cfg, ViewOf(r, s)) ==> s' == s && result.Err?)
    && (result.Ok? ==> Complete(r, cfg, s', result.value))
    && (forall b :: Complete(r, cfg, s, b) ==> s' == s && (result.Ok? ==> result.value == b))
  }

  lemma QuietJoin(faults: nat -> Fault, a: nat, b: nat, c: nat)
    requires a <= b <= c
    ensures Quiet(faults, a, c) <==> Quiet(faults, a, b) && Quiet(faults, b, c)
  {
  }

  lemma QuietAll(faults: nat -> Fault, a: nat, b: nat, c: nat, d: nat, e: nat)
    requires a <= b <= c <= d <= e
    ensures Quiet(faults, a, e) <==>
              Quiet(faults, a, b) && Quiet(faults, b, c) && Quiet(faults, c, d) && Quiet(faults, d, e)
  {
    QuietJoin(faults, a, b, c);
    QuietJoin(faults, a, c, d);
    QuietJoin(faults, a, d, e);
  }

  // ----------------------------------------------------- one whole attempt

  // The three assets were gathered, as far as the calls went through.
  ghost predicate Gathered(r: Recipe, cfg: Config, s: Store, s': Store, result: Result<Bundle, Failure>, quiet: bool) {
    && Progress(r, cfg, s')
    && (quiet ==> result.Ok? || Blocked(r, cfg, ViewOf(r, s')))
    && (Blocked(r, cfg, ViewOf(r, s)) ==> s' == s && result.Err?)
    && (result.Ok? ==> HasAll(r, ViewOf(r, s'), result.value))
    && (forall b :: HasAll(r, ViewOf(r, s), b) ==> s' == s && (result.Ok? ==> result.value == b))
  }

  ghost predicate GatheredFrom(r: Recipe, cfg: Config, s: Store, s': Store, result: Result<Bundle, Failure>, quiet: bool) {
    Sensible(r) && Progress(r, cfg, s) ==> Gathered(r, cfg, s, s', result, quiet)
  }

  lemma GatherFromSound(r: Recipe, cfg: Config, s: Store, s': Store, result: Result<Bundle, Failure>, quiet: bool)
    requires Sensible(r) && Progress(r, cfg, s) ==> Gathered(r, cfg, s, s', result, quiet)
    ensures GatheredFrom(r, cfg, s, s', result, quiet)
  {
    hide Sensible, Progress, Gathered;
  }

  lemma FirstLeaf(r: Recipe, cfg: Config, view: View)
    ensures Refused(r, cfg, view, CssPart(r)) ==> Blocked(r, cfg, view)
    ensures Blocked(r, cfg, view) ==> Refused(r, cfg, view, CssPart(r)) || exists css :: Has(r, view, CssPart(r), css)
    ensures forall b :: HasAll(r, view, b) ==> Has(r, view, CssPart(r), b.css)
  {
    hide Has, Refused;
  }

  lemma GatherOne(r: Recipe, cfg: Config, s0: Store, s1: Store, css: Result<Asset, Failure>, quiet1: bool)
    requires Sensible(r) && Progress(r, cfg, s0) && css.Err?
    requires Ensured(r, cfg, s0, CssPart(r), s1, css, quiet1)
    ensures Gathered(r, cfg, s0, s1, Err(css.error), quiet1)
  {
    StageLeaf(r, cfg, s0, CssPart(r), s1, css, quiet1);
    FirstLeaf(r, cfg, ViewOf(r, s0));
    hide *;
    IsGathered(r, cfg, s0, s1, Err(css.error), quiet1);
  }

  // Two leaves, the second after the first.
  lemma TwoLeaves(r: Recipe, cfg: Config, s0: Store, s1: Store, s2: Store,
                  css: Result<Asset, Failure>, js: Result<Asset, Failure>, quiet1: bool, quiet2: bool)
    requires Sensible(r) && Progress(r, cfg, s0) && css.Ok?
    requires Ensured(r, cfg, s0, CssPart(r), s1, css, quiet1) && Ensured(r, cfg, s1, JsPart(r), s2, js, quiet2)
    ensures Progress(r, cfg, s1) && Progress(r, cfg, s2)
    ensures js.Err? && quiet2 ==> Blocked(r, cfg, ViewOf(r, s2))
    ensures js.Ok? ==> Has(r, ViewOf(r, s2), CssPart(r), css.value) && Has(r, ViewOf(r, s2), JsPart(r), js.value)
  {
    StageLeaf(r, cfg, s0, CssPart(r), s1, css, quiet1);
    StageLeaf(r, cfg, s1, JsPart(r), s2, js, quiet2);
    assert OtherLeaf(r, JsPart(r)) == CssPart(r);
    hide Sensible, Progress, Ensured, Has, ViewOf, Refused;
  }

  // Where the first or the second leaf is refused, the second stays unmade.
  lemma TwoLeavesBlocked(r: Recipe, cfg: Config, s0: Store, s1: Store, s2: Store,
                         css: Result<Asset, Failure>, js: Result<Asset, Failure>, quiet1: bool, quiet2: bool)
    requires Sensible(r) && Progress(r, cfg, s0) && css.Ok? && Blocked(r, cfg, ViewOf(r, s0))
    requires Ensured(r, cfg, s0, CssPart(r), s1, css, quiet1) && Ensured(r, cfg, s1, JsPart(r), s2, js, quiet2)
    ensures s2 == s0
    ensures js.Ok? ==> Has(r, ViewOf(r, s0), JsPart(r), js.value)
                       && Refused(r, cfg, ViewOf(r, s0), HtmlPart(r, css.value, js.value))
  {
    StageLeaf(r, cfg, s0, CssPart(r), s1, css, quiet1);
    hide Sensible, Progress, Ensured, Has, ViewOf, Refused;
    var c :| Has(r, ViewOf(r, s0), CssPart(r), c);
    StageLeaf(r, cfg, s1, JsPart(r), s2, js, quiet2);
    if js.Ok? {
      var c', j :| Has(r, ViewOf(r, s0), CssPart(r), c') && Has(r, ViewOf(r, s0), JsPart(r), j)
                   && Refused(r, cfg, ViewOf(r, s0), HtmlPart(r, c', j));
      assert css.value == c' && js.value == j;
    }
  }

  // Where the bundle was there before, both are found.
  lemma TwoLeavesSame(r: Recipe, cfg: Config, s0: Store, s1: Store, s2: Store,
                      css: Result<Asset, Failure>, js: Result<Asset, Failure>, quiet1: bool, quiet2: bool, b: Bundle)
    requires Sensible(r) && Progress(r, cfg, s0) && css.Ok? && HasAll(r, ViewOf(r, s0), b)
    requires Ensured(r, cfg, s0, CssPart(r), s1, css, quiet1) && Ensured(r, cfg, s1, JsPart(r), s2, js, quiet2)
    ensures s2 == s0 && css.value == b.css && (js.Ok? ==> js.value == b.js)
  {
    StageLeaf(r, cfg, s0, CssPart(r), s1, css, quiet1);
    assert Has(r, ViewOf(r, s0), CssPart(r), b.css) && Has(r, ViewOf(r, s0), JsPart(r), b.js);
    StageLeaf(r, cfg, s1, JsPart(r), s2, js, quiet2);
    hide Sensible, Progress, Ensured, Has, ViewOf;
  }

  lemma GatherTwo(r: Recipe, cfg: Config, s0: Store, s1: Store, s2: Store,
                  css: Result<Asset, Failure>, js: Result<Asset, Failure>, quiet1: bool, quiet2: bool)
    requires Sensible(r) && Progress(r, cfg, s0) && css.Ok? && js.Err?
    requires Ensured(r, cfg, s0, CssPart(r), s1, css, quiet1) && Ensured(r, cfg, s1, JsPart(r), s2, js, quiet2)
    ensures Gathered(r, cfg, s0, s2, Err(js.error), quiet1 && quiet2)
  {
    TwoLeaves(r, cfg, s0, s1, s2, css, js, quiet1, quiet2);
    hide Sensible, Progress, Ensured, Has, HasAll, ViewOf, Refused, Blocked;
    if Blocked(r, cfg, ViewOf(r, s0)) {
      TwoLeavesBlocked(r, cfg, s0, s1, s2, css, js, quiet1, quiet2);
    }
    forall b | HasAll(r, ViewOf(r, s0), b) ensures s2 == s0 {
      TwoLeavesSame(r, cfg, s0, s1, s2, css, js, quiet1, quiet2, b);
    }
  }

  lemma ThreeSame(r: Recipe, cfg: Config, s0: Store, s1: Store, s2: Store, s3: Store,
                  css: Result<Asset, Failure>, js: Result<Asset, Failure>, html: Result<Asset, Failure>,
                  quiet1: bool, quiet2: bool, quiet3: bool, b: Bundle)
    requires Sensible(r) && Progress(r, cfg, s0) && css.Ok? && js.Ok? && HasAll(r, ViewOf(r, s0), b)
    requires Ensured(r, cfg, s0, CssPart(r), s1, css, quiet1) && Ensured(r, cfg, s1, JsPart(r), s2, js, quiet2)
    requires Ensured(r, cfg, s2, HtmlPart(r, css.value, js.value), s3, html, quiet3)
    ensures s3 == s0 && (html.Ok? ==> Bundle(html.value, css.value, js.value) == b)
  {
    TwoLeaves(r, cfg, s0, s1, s2, css, js, quiet1, quiet2);
    TwoLeavesSame(r, cfg, s0, s1, s2, css, js, quiet1, quiet2, b);
    assert Has(r, ViewOf(r, s2), HtmlPart(r, css.value, js.value), b.html);
    hide Sensible, Progress, Ensured, Has, HasAll, ViewOf;
    StagePage(r, cfg, s2, css.value, js.value, s3, html, quiet3);
  }

  lemma GatherThree(r: Recipe, cfg: Config, s0: Store, s1: Store, s2: Store, s3: Store,
                    css: Result<Asset, Failure>, js: Result<Asset, Failure>, html: Result<Asset, Failure>,
                    quiet1: bool, quiet2: bool, quiet3: bool)
    requires Sensible(r) && Progress(r, cfg, s0) && css.Ok? && js.Ok?
    requires Ensured(r, cfg, s0, CssPart(r), s1, css, quiet1) && Ensured(r, cfg, s1, JsPart(r), s2, js, quiet2)
    requires Ensured(r, cfg, s2, HtmlPart(r, css.value, js.value), s3, html, quiet3)
    ensures Gathered(r, cfg, s0, s3,
                     if html.Ok? then Ok(Bundle(html.value, css.value, js.value)) else Err(html.error),
                     quiet1 && quiet2 && quiet3)
  {
    TwoLeaves(r, cfg, s0, s1, s2, css, js, quiet1, quiet2);
    StagePage(r, cfg, s2, css.value, js.value, s3, html, quiet3);
    assert html.Ok? ==> HasAll(r, ViewOf(r, s3), Bundle(html.value, css.value, js.value));
    assert Refused(r, cfg, ViewOf(r, s2), HtmlPart(r, css.value, js.value)) ==> Blocked(r, cfg, ViewOf(r, s2));
    hide *;
    var result := if html.Ok? then Ok(Bundle(html.value, css.value, js.value)) else Err(html.error);
    if Blocked(r, cfg, ViewOf(r, s0)) {
      TwoLeavesBlocked(r, cfg, s0, s1, s2, css, js, quiet1, quiet2);
    }
    forall b | HasAll(r, ViewOf(r, s0), b) ensures s3 == s0 && (result.Ok? ==> result.value == b) {
      ThreeSame(r, cfg, s0, s1, s2, s3, css, js, html, quiet1, quiet2, quiet3, b);
    }
    IsGathered(r, cfg, s0, s3, result, quiet1 && quiet2 && quiet3);
  }

  lemma IsGathered(r: Recipe, cfg: Config, s: Store, s': Store, result: Result<Bundle, Failure>, quiet: bool)
    requires Progress(r, cfg, s') && (quiet ==> result.Ok? || Blocked(r, cfg, ViewOf(r, s')))
    requires Blocked(r, cfg, ViewOf(r, s)) ==> s' == s && result.Err?
    requires result.Ok? ==> HasAll(r, ViewOf(r, s'), result.value)
    requires forall b :: HasAll(r, ViewOf(r, s), b) ==> s' == s && (result.Ok? ==> result.value == b)
    ensures Gathered(r, cfg, s, s', result, quiet)
  {
    hide Progress, HasAll, ViewOf, Blocked;
  }

  // How one `graph_link` can end.
  ghost predicate LinkAttempt(r: Recipe, s: Store, html: Asset, target: Asset, at: nat, s': Store, ok: bool, quiet: bool) {
    var effect := LinkCall(r, s, html.id, target.id, at);
    && (s' == s || s' == effect.store)
    && (ok ==> effect.error.None? && s' == effect.store)
    && (effect.error.None? && quiet ==> ok)
  }

  lemma LinkStage(r: Recipe, cfg: Config, s: Store, b: Bundle, target: Asset, at: nat, s': Store, ok: bool, quiet: bool)
    requires Sensible(r) && Progress(r, cfg, s) && HasAll(r, ViewOf(r, s), b)
    requires target == b.css || target == b.js
    requires LinkAttempt(r, s, b.html, target, at, s', ok, quiet)
    ensures Progress(r, cfg, s') && HasAll(r, ViewOf(r, s'), b)
    ensures (quiet ==> ok) && (ok ==> Linked(r, s', b.html.id, target.id))
    ensures forall t :: Linked(r, s, b.html.id, t) ==> Linked(r, s', b.html.id, t)
    ensures Linked(r, s, b.html.id, target.id) ==> s' == s
  {
    StageLink(r, cfg, s, b, target, at);
    hide Sensible, Progress, HasAll, Linked, ViewOf, LinkCall;
  }

  // An attempt with a valid recipe, from where an attempt may start.
  ghost predicate AttemptFrom(r: Recipe, cfg: Config, s: Store, s': Store, result: Result<Bundle, Failure>, quiet: bool) {
    Sensible(r) && Progress(r, cfg, s) ==> Attempt(r, cfg, s, s', result, quiet)
  }

  lemma InvalidChangesNothing(r: Recipe, cfg: Config, s: Store, result: Result<Bundle, Failure>, quiet: bool)
    requires !IsValid(r)
    ensures AttemptFrom(r, cfg, s, s, result, quiet)
  {
    hide IsValid, Progress, Attempt;
  }

  lemma StoppedBeforeLinks(r: Recipe, cfg: Config, s0: Store, s1: Store, failure: Failure, quiet: bool)
    requires GatheredFrom(r, cfg, s0, s1, Err(failure), quiet)
    ensures AttemptFrom(r, cfg, s0, s1, Err(failure), quiet)
  {
    hide Sensible, Progress, HasAll, Linked, ViewOf, Blocked;
  }

  lemma GatheredBundle(r: Recipe, cfg: Config, s: Store, s': Store, b: Bundle, quiet: bool)
    requires Gathered(r, cfg, s, s', Ok(b), quiet)
    ensures Progress(r, cfg, s') && HasAll(r, ViewOf(r, s'), b)
  {
    hide Progress, HasAll, ViewOf;
  }

  lemma GatheredSame(r: Recipe, cfg: Config, s: Store, s': Store, b: Bundle, quiet: bool, c: Bundle)
    requires Gathered(r, cfg, s, s', Ok(b), quiet) && Complete(r, cfg, s, c)
    ensures s' == s && c == b
  {
    hide Progress, HasAll, ViewOf, Linked;
  }

  // Both links, as far as they got.
  lemma LinksEnd(r: Recipe, cfg: Config, s1: Store, s2: Store, s3: Store, b: Bundle, at1: nat, at2: nat,
                 first: bool, second: bool, quiet1: bool, quiet2: bool)
    requires Sensible(r) && Progress(r, cfg, s1) && HasAll(r, ViewOf(r, s1), b)
    requires LinkAttempt(r, s1, b.html, b.css, at1, s2, first, quiet1)
    requires if first then LinkAttempt(r, s2, b.html, b.js, at2, s3, second, quiet2) else s3 == s2 && !second
    ensures Progress(r, cfg, s3) && (quiet1 && quiet2 ==> second)
    ensures second ==> Complete(r, cfg, s3, b)
    ensures Complete(r, cfg, s1, b) ==> s3 == s1
    ensures HasAll(r, ViewOf(r, s3), b)
  {
    LinkStage(r, cfg, s1, b, b.css, at1, s2, first, quiet1);
    hide Sensible, Progress, HasAll, Linked, ViewOf, LinkAttempt;
    if first {
      LinkStage(r, cfg, s2, b, b.js, at2, s3, second, quiet2);
    }
  }

  // The links were made and the last calls answered, as far as the calls went through.
  ghost predicate Finished(r: Recipe, cfg: Config, s: Store, s': Store, b: Bundle, done: bool, quiet: bool) {
    && Progress(r, cfg, s')
    && (quiet ==> done)
    && (done ==> Complete(r, cfg, s', b))
    && (Complete(r, cfg, s, b) ==> s' == s)
  }

  lemma IsFinished(r: Recipe, cfg: Config, s: Store, s': Store, b: Bundle, done: bool, quiet: bool)
    requires Progress(r, cfg, s') && (quiet ==> done)
    requires (done ==> Complete(r, cfg, s', b)) && (Complete(r, cfg, s, b) ==> s' == s)
    ensures Finished(r, cfg, s, s', b, done, quiet)
  {
    hide Progress, Complete;
  }

  lemma LinksFinish(r: Recipe, cfg: Config, s1: Store, s2: Store, s3: Store, b: Bundle, at1: nat, at2: nat,
                    first: bool, second: bool, done: bool, quiet1: bool, quiet2: bool, quiet3: bool)
    requires Sensible(r) && Progress(r, cfg, s1) && HasAll(r, ViewOf(r, s1), b)
    requires LinkAttempt(r, s1, b.html, b.css, at1, s2, first, quiet1)
    requires if first then LinkAttempt(r, s2, b.html, b.js, at2, s3, second, quiet2) else s3 == s2 && !second
    requires (done ==> second) && (second && quiet3 ==> done)
    ensures Finished(r, cfg, s1, s3, b, done, quiet1 && quiet2 && quiet3)
  {
    LinksEnd(r, cfg, s1, s2, s3, b, at1, at2, first, second, quiet1, quiet2);
    hide *;
    IsFinished(r, cfg, s1, s3, b, done, quiet1 && quiet2 && quiet3);
  }

  lemma FinishEndsAttempt(r: Recipe, cfg: Config, s0: Store, s1: Store, s2: Store, b: Bundle, done: bool, quiet0: bool, quiet1: bool)
    requires Gathered(r, cfg, s0, s1, Ok(b), quiet0) && Finished(r, cfg, s1, s2, b, done, quiet1)
    ensures Attempt(r, cfg, s0, s2, if done then Ok(b) else Err(Transport), quiet0 && quiet1)
  {
    hide Progress, HasAll, ViewOf, Complete, Blocked;
    var result := if done then Ok(b) else Err(Transport);
    assert !Blocked(r, cfg, ViewOf(r, s0));
    hide Gathered;
    forall c | Complete(r, cfg, s0, c) ensures s2 == s0 && (result.Ok? ==> result.value == c) {
      GatheredSame(r, cfg, s0, s1, b, quiet0, c);
    }
    hide *;
    IsAttempt(r, cfg, s0, s2, result, quiet0 && quiet1);
  }

  // The whole attempt, from its calls.
  lemma AttemptEnds(r: Recipe, cfg: Config, s0: Store, s1: Store, s2: Store, s3: Store, b: Bundle, at1: nat, at2: nat,
                    first: bool, second: bool, done: bool, quiet0: bool, quiet1: bool, quiet2: bool, quiet3: bool)
    requires GatheredFrom(r, cfg, s0, s1, Ok(b), quiet0)
    requires LinkAttempt(r, s1, b.html, b.css, at1, s2, first, quiet1)
    requires if first then LinkAttempt(r, s2, b.html, b.js, at2, s3, second, quiet2) else s3 == s2 && !second
    requires (done ==> second) && (second && quiet3 ==> done)
    ensures AttemptFrom(r, cfg, s0, s3, if done then Ok(b) else Err(Transport), quiet0 && quiet1 && quiet2 && quiet3)
  {
    hide Sensible, Progress, Gathered, Attempt, LinkAttempt;
    if Sensible(r) && Progress(r, cfg, s0) {
      GatheredBundle(r, cfg, s0, s1, b, quiet0);
      LinksFinish(r, cfg, s1, s2, s3, b, at1, at2, first, second, done, quiet1, quiet2, quiet3);
      FinishEndsAttempt(r, cfg, s0, s1, s3, b, done, quiet0, quiet1 && quiet2 && quiet3);
    }
  }

  lemma IsAttempt(r: Recipe, cfg: Config, s: Store, s': Store, result: Result<Bundle, Failure>, quiet: bool)
    requires Progress(r, cfg, s') && (quiet ==> result.Ok?) && !Blocked(r, cfg, ViewOf(r, s))
    requires result.Ok? ==> Complete(r, cfg, s', result.value)
    requires forall b :: Complete(r, cfg, s, b) ==> s' == s && (result.Ok? ==> result.value == b)
    ensures Attempt(r, cfg, s, s', result, quiet)
  {
    hide Progress, Complete, Blocked, ViewOf;
  }

  lemma AttemptSettles(r: Recipe, cfg: Config, s: Store, s': Store, result: Result<Bundle, Failure>, quiet: bool)
    requires Attempt(r, cfg, s, s', result, quiet)
    ensures Progress(r, cfg, s')
    ensures quiet || result.Ok? ==> (result.Ok? <==> !Blocked(r, cfg, ViewOf(r, s')))
    ensures result.Ok? ==> Complete(r, cfg, s', result.value)
    ensures Blocked(r, cfg, ViewOf(r, s)) ==> s' == s && result.Err?
    ensures quiet || result.Ok? ==> (result.Ok? <==> Accepts(r, cfg, s'))
  {
    if result.Ok? {
      CompleteIsNotBlocked(r, cfg, s', result.value);
      HasAllAccepts(r, cfg, s', result.value);
    } else if Blocked(r, cfg, ViewOf(r, s')) {
      BlockedDoesNotAccept(r, cfg, s');
    }
    hide Progress, HasAll, Linked, Blocked, ViewOf, Accepts;
  }

  lemma AttemptAfter(r: Recipe, cfg: Config, s: Store, s': Store, result: Result<Bundle, Failure>, quiet: bool, b: Bundle)
    requires Attempt(r, cfg, s, s', result, quiet) && Complete(r, cfg, s, b)
    ensures s' == s && (result.Ok? ==> result.value == b)
  {
    hide Progress, Complete;
  }

  // ------------------------------------------- what decides before the call

  // The artifact found for a part.
  ghost function AssetOf(r: Recipe, view: View, p: Part): Option<Asset> {
    if exists id :: id in Matches(r, view, p.name, p.role) then
      var id :| id in Matches(r, view, p.name, p.role);
      Some(AssetAt(view, id))
    else None
  }

  // The ids drawn by the next create, and by the one after it.
  ghost function Drawn(artifacts: set<ArtifactId>, versions: set<VersionId>): Asset {
    Asset(Fresh(artifacts), Fresh(versions))
  }

  ghost function DrawnNext(artifacts: set<ArtifactId>, versions: set<VersionId>): Asset {
    Drawn(artifacts + {Fresh(artifacts)}, versions + {Fresh(versions)})
  }

  // The two assets that the page is going to name: those found, or else those about to be made.
  ghost function CssAsset(r: Recipe, s: Store): Asset {
    AssetOf(r, ViewOf(r, s), CssPart(r)).GetOr(Drawn(s.db.artifacts.Keys, s.db.versions.Keys))
  }

  ghost function JsAsset(r: Recipe, s: Store): Asset {
    AssetOf(r, ViewOf(r, s), JsPart(r)).GetOr(
      if AssetOf(r, ViewOf(r, s), CssPart(r)).Some? then Drawn(s.db.artifacts.Keys, s.db.versions.Keys)
      else DrawnNext(s.db.artifacts.Keys, s.db.versions.Keys))
  }

  /** Each of the three parts is there, or is one that the service takes. */
  ghost predicate Accepts(r: Recipe, cfg: Config, s: Store) {
    && !Refused(r, cfg, ViewOf(r, s), CssPart(r)) && !Refused(r, cfg, ViewOf(r, s), JsPart(r))
    && !Refused(r, cfg, ViewOf(r, s), HtmlPart(r, CssAsset(r, s), JsAsset(r, s)))
  }

  lemma HasIsAsset(r: Recipe, view: View, p: Part)
    ensures Matches(r, view, p.name, p.role) == {} <==> AssetOf(r, view, p).None?
    ensures forall a :: Has(r, view, p, a) ==> AssetOf(r, view, p) == Some(a)
    ensures Settled(r, view, p) && AssetOf(r, view, p).Some? ==> Has(r, view, p, AssetOf(r, view, p).value)
  {
    var matches := Matches(r, view, p.name, p.role);
    if AssetOf(r, view, p).Some? {
      var id := AssetOf(r, view, p).value.id;
      assert id in matches;
      if |matches| <= 1 {
        SubsetSize({id}, matches);
        assert |matches - {id}| == 0;
      }
    }
    hide Candidates, Claims, HasContent;
  }

  // Its keys after a create: the ones drawn have been added.
  lemma CreatedKeys(r: Recipe, cfg: Config, s: Store, p: Part, s': Store, result: Result<Asset, Failure>, quiet: bool)
    requires Ensured(r, cfg, s, p, s', result, quiet) && s' != s
    ensures Taken(r, cfg, p)
    ensures s'.db.artifacts.Keys == s.db.artifacts.Keys + {Fresh(s.db.artifacts.Keys)}
    ensures s'.db.versions.Keys == s.db.versions.Keys + {Fresh(s.db.versions.Keys)}
  {
    hide Taken, Decide, ViewOf, Fresh, WithBlob, IsTextual;
  }

  // What stays of another part, and of the page, when a part has been made.
  lemma OtherAssetStays(r: Recipe, view: View, id: ArtifactId, p: Part, version: VersionId, other: Part)
    requires Faithful(r) && id !in view && other.name != p.name && Settled(r, view, other)
    ensures var view' := view[id := NewItem(r, p, version)];
            AssetOf(r, view', other) == AssetOf(r, view, other)
  {
    var view' := view[id := NewItem(r, p, version)];
    OtherPartStays(r, view, id, p, version, other);
    AddedMatches(r, view, id, p, version, other.name, other.role);
    HasIsAsset(r, view, other);
    HasIsAsset(r, view', other);
    hide Settled, Has, Matches, Candidates, NewItem, Faithful, AssetOf;
  }

  // The two views once a part has been made.
  ghost predicate Made(r: Recipe, s: Store, p: Part, s': Store) {
    var id, version := Fresh(s.db.artifacts.Keys), Fresh(s.db.versions.Keys);
    && id !in ViewOf(r, s) && ViewOf(r, s') == ViewOf(r, s)[id := NewItem(r, p, version)]
    && s'.db.artifacts.Keys == s.db.artifacts.Keys + {id} && s'.db.versions.Keys == s.db.versions.Keys + {version}
    && Matches(r, ViewOf(r, s), p.name, p.role) == {}
    && Has(r, ViewOf(r, s'), p, Asset(id, version))
  }

  lemma EnsuredMakes(r: Recipe, cfg: Config, s: Store, p: Part, s': Store, result: Result<Asset, Failure>, quiet: bool)
    requires Faithful(r) && Sane(cfg, s) && Settled(r, ViewOf(r, s), p)
    requires Ensured(r, cfg, s, p, s', result, quiet) && s' != s
    ensures Made(r, s, p, s') && Taken(r, cfg, p)
  {
    EnsuredPart(r, cfg, s, p, s', result, quiet);
    CreatedKeys(r, cfg, s, p, s', result, quiet);
    NewPartFound(r, ViewOf(r, s), Fresh(s.db.artifacts.Keys), p, Fresh(s.db.versions.Keys));
    hide Ensured, Taken, Settled, Sane, ViewOf, Decide, CreatedStore, Matches, Fresh, NewItem, Has, Faithful;
  }

  lemma CssMadeAssets(r: Recipe, s: Store, s': Store)
    requires Sensible(r) && ViewProgress(r, ViewOf(r, s)) && Made(r, s, CssPart(r), s')
    ensures CssAsset(r, s') == CssAsset(r, s) && JsAsset(r, s') == JsAsset(r, s)
  {
    var id, version := Fresh(s.db.artifacts.Keys), Fresh(s.db.versions.Keys);
    var view, view' := ViewOf(r, s), ViewOf(r, s');
    assert r.cssName != r.jsName;
    OtherAssetStays(r, view, id, CssPart(r), version, JsPart(r));
    HasIsAsset(r, view, CssPart(r));
    HasIsAsset(r, view', CssPart(r));
    hide ViewOf, Matches, Has, Fresh, NewItem, Faithful, IsValid, AssetOf, Candidates, Settled;
  }

  lemma OtherRefusedStays(r: Recipe, cfg: Config, s: Store, p: Part, s': Store, other: Part)
    requires Faithful(r) && Made(r, s, p, s') && other.name != p.name
    ensures Refused(r, cfg, ViewOf(r, s'), other) <==> Refused(r, cfg, ViewOf(r, s), other)
  {
    AddedMatches(r, ViewOf(r, s), Fresh(s.db.artifacts.Keys), p, Fresh(s.db.versions.Keys), other.name, other.role);
    hide ViewOf, Matches, Has, Fresh, NewItem, Faithful, Taken, Candidates;
  }

  lemma MadeIsNotRefused(r: Recipe, cfg: Config, s: Store, p: Part, s': Store)
    requires Made(r, s, p, s') && Taken(r, cfg, p)
    ensures !Refused(r, cfg, ViewOf(r, s'), p) && !Refused(r, cfg, ViewOf(r, s), p)
  {
    hide ViewOf, Matches, Has, Fresh, NewItem, Taken;
  }

  lemma CssMadeAccepts(r: Recipe, cfg: Config, s: Store, s': Store)
    requires Sensible(r) && ViewProgress(r, ViewOf(r, s)) && Made(r, s, CssPart(r), s') && Taken(r, cfg, CssPart(r))
    ensures Accepts(r, cfg, s') <==> Accepts(r, cfg, s)
  {
    assert r.cssName != r.jsName && r.cssName != r.htmlName && Faithful(r);
    CssMadeAssets(r, s, s');
    hide ViewOf, Refused, Made, Faithful, IsValid, CssAsset, JsAsset, Taken, ViewProgress;
    OtherRefusedStays(r, cfg, s, CssPart(r), s', JsPart(r));
    OtherRefusedStays(r, cfg, s, CssPart(r), s', HtmlPart(r, CssAsset(r, s), JsAsset(r, s)));
    MadeIsNotRefused(r, cfg, s, CssPart(r), s');
  }

  lemma JsMadeAssets(r: Recipe, s: Store, css: Asset, s': Store)
    requires Sensible(r) && ViewProgress(r, ViewOf(r, s)) && Has(r, ViewOf(r, s), CssPart(r), css)
    requires Made(r, s, JsPart(r), s')
    ensures CssAsset(r, s') == CssAsset(r, s) && JsAsset(r, s') == JsAsset(r, s)
  {
    var id, version := Fresh(s.db.artifacts.Keys), Fresh(s.db.versions.Keys);
    var view, view' := ViewOf(r, s), ViewOf(r, s');
    assert r.cssName != r.jsName;
    OtherAssetStays(r, view, id, JsPart(r), version, CssPart(r));
    HasIsAsset(r, view, CssPart(r));
    HasIsAsset(r, view, JsPart(r));
    HasIsAsset(r, view', JsPart(r));
    hide ViewOf, Matches, Has, Fresh, NewItem, Faithful, IsValid, AssetOf, Candidates, Settled;
  }

  lemma JsMadeAccepts(r: Recipe, cfg: Config, s: Store, css: Asset, s': Store)
    requires Sensible(r) && ViewProgress(r, ViewOf(r, s)) && Has(r, ViewOf(r, s), CssPart(r), css)
    requires Made(r, s, JsPart(r), s') && Taken(r, cfg, JsPart(r))
    ensures Accepts(r, cfg, s') <==> Accepts(r, cfg, s)
  {
    assert r.cssName != r.jsName && r.jsName != r.htmlName && Faithful(r);
    JsMadeAssets(r, s, css, s');
    hide ViewOf, Refused, Made, Faithful, IsValid, CssAsset, JsAsset, Taken, ViewProgress, Has;
    OtherRefusedStays(r, cfg, s, JsPart(r), s', CssPart(r));
    OtherRefusedStays(r, cfg, s, JsPart(r), s', HtmlPart(r, CssAsset(r, s), JsAsset(r, s)));
    MadeIsNotRefused(r, cfg, s, JsPart(r), s');
  }

  lemma CssKeepsAccepts(r: Recipe, cfg: Config, s: Store, s': Store, result: Result<Asset, Failure>, quiet: bool)
    requires Sensible(r) && Progress(r, cfg, s) && Ensured(r, cfg, s, CssPart(r), s', result, quiet)
    ensures Accepts(r, cfg, s') <==> Accepts(r, cfg, s)
  {
    hide ViewOf, Settled, Ensured, Made, Accepts, Taken, Sane, NoConflicts;
    if s' != s {
      EnsuredMakes(r, cfg, s, CssPart(r), s', result, quiet);
      CssMadeAccepts(r, cfg, s, s');
    }
  }

  lemma JsKeepsAccepts(r: Recipe, cfg: Config, s: Store, css: Asset, s': Store, result: Result<Asset, Failure>, quiet: bool)
    requires Sensible(r) && Progress(r, cfg, s) && Ensured(r, cfg, s, JsPart(r), s', result, quiet)
    requires Has(r, ViewOf(r, s), CssPart(r), css)
    ensures Accepts(r, cfg, s') <==> Accepts(r, cfg, s)
  {
    hide ViewOf, Settled, Ensured, Made, Accepts, Taken, Sane, NoConflicts;
    if s' != s {
      EnsuredMakes(r, cfg, s, JsPart(r), s', result, quiet);
      JsMadeAccepts(r, cfg, s, css, s');
    }
  }

  // With both leaves there it is the page alone that decides.
  lemma LeavesAccept(r: Recipe, cfg: Config, s: Store, css: Asset, js: Asset)
    requires Has(r, ViewOf(r, s), CssPart(r), css) && Has(r, ViewOf(r, s), JsPart(r), js)
    ensures Accepts(r, cfg, s) <==> !Refused(r, cfg, ViewOf(r, s), HtmlPart(r, css, js))
  {
    HasIsAsset(r, ViewOf(r, s), CssPart(r));
    HasIsAsset(r, ViewOf(r, s), JsPart(r));
    HasNeedsMatch(r, ViewOf(r, s), CssPart(r));
    HasNeedsMatch(r, ViewOf(r, s), JsPart(r));
    hide ViewOf, Matches, Has, AssetOf, Taken;
  }

  lemma PageKeepsAccepts(r: Recipe, cfg: Config, s: Store, css: Asset, js: Asset, s': Store,
                         result: Result<Asset, Failure>, quiet: bool)
    requires Sensible(r) && Progress(r, cfg, s)
    requires Has(r, ViewOf(r, s), CssPart(r), css) && Has(r, ViewOf(r, s), JsPart(r), js)
    requires Ensured(r, cfg, s, HtmlPart(r, css, js), s', result, quiet)
    ensures Accepts(r, cfg, s') <==> Accepts(r, cfg, s)
  {
    if s' != s {
      StagePage(r, cfg, s, css, js, s', result, quiet);
      HtmlSettled(r, ViewOf(r, s), css, js);
      EnsuredMakes(r, cfg, s, HtmlPart(r, css, js), s', result, quiet);
      HasNeedsMatch(r, ViewOf(r, s'), HtmlPart(r, css, js));
      LeavesAccept(r, cfg, s, css, js);
      LeavesAccept(r, cfg, s', css, js);
      hide ViewOf, Settled, Ensured, Accepts, Taken, Sane, NoConflicts, ViewProgress, Has, Matches, Fresh, Sensible;
    }
  }

  lemma HasAllAccepts(r: Recipe, cfg: Config, s: Store, b: Bundle)
    requires HasAll(r, ViewOf(r, s), b)
    ensures Accepts(r, cfg, s)
  {
    LeavesAccept(r, cfg, s, b.css, b.js);
    HasNeedsMatch(r, ViewOf(r, s), HtmlPart(r, b.css, b.js));
    hide ViewOf, Matches, Has, Accepts, Taken;
  }

  lemma BlockedDoesNotAccept(r: Recipe, cfg: Config, s: Store)
    requires Blocked(r, cfg, ViewOf(r, s))
    ensures !Accepts(r, cfg, s)
  {
    hide ViewOf, Matches, Has, Refused, AssetOf;
    forall css, js | Has(r, ViewOf(r, s), CssPart(r), css) && Has(r, ViewOf(r, s), JsPart(r), js)
      ensures Accepts(r, cfg, s) <==> !Refused(r, cfg, ViewOf(r, s), HtmlPart(r, css, js))
    {
      LeavesAccept(r, cfg, s, css, js);
    }
  }

  // No attempt changes whether the three parts are welcome.
  ghost predicate Steady(r: Recipe, cfg: Config, s: Store, s': Store) {
    Sensible(r) && Progress(r, cfg, s) ==> (Accepts(r, cfg, s') <==> Accepts(r, cfg, s))
  }

  lemma SteadySame(r: Recipe, cfg: Config, s: Store)
    ensures Steady(r, cfg, s, s)
  {
    hide Sensible, Progress, Accepts;
  }

  lemma SteadyOne(r: Recipe, cfg: Config, s0: Store, s1: Store, css: Result<Asset, Failure>, quiet1: bool)
    requires Sensible(r) && Progress(r, cfg, s0) ==> Ensured(r, cfg, s0, CssPart(r), s1, css, quiet1)
    ensures Steady(r, cfg, s0, s1)
  {
    hide Sensible, Progress, Ensured, Accepts;
    if Sensible(r) && Progress(r, cfg, s0) {
      CssKeepsAccepts(r, cfg, s0, s1, css, quiet1);
    }
  }

  lemma SteadyTwo(r: Recipe, cfg: Config, s0: Store, s1: Store, s2: Store,
                  css: Result<Asset, Failure>, js: Result<Asset, Failure>, quiet1: bool, quiet2: bool)
    requires Ensured(r, cfg, s0, CssPart(r), s1, css, quiet1) && css.Ok? && Ensured(r, cfg, s1, JsPart(r), s2, js, quiet2)
    ensures Steady(r, cfg, s0, s2)
  {
    hide Sensible, Progress, Ensured, Accepts, Has, ViewOf, Refused;
    if Sensible(r) && Progress(r, cfg, s0) {
      CssKeepsAccepts(r, cfg, s0, s1, css, quiet1);
      StageLeaf(r, cfg, s0, CssPart(r), s1, css, quiet1);
      JsKeepsAccepts(r, cfg, s1, css.value, s2, js, quiet2);
    }
  }

  lemma SteadyThree(r: Recipe, cfg: Config, s0: Store, s1: Store, s2: Store, s3: Store,
                    css: Result<Asset, Failure>, js: Result<Asset, Failure>, html: Result<Asset, Failure>,
                    quiet1: bool, quiet2: bool, quiet3: bool)
    requires Ensured(r, cfg, s0, CssPart(r), s1, css, quiet1) && css.Ok?
    requires Ensured(r, cfg, s1, JsPart(r), s2, js, quiet2) && js.Ok?
    requires Ensured(r, cfg, s2, HtmlPart(r, css.value, js.value), s3, html, quiet3)
    ensures Steady(r, cfg, s0, s3)
  {
    SteadyTwo(r, cfg, s0, s1, s2, css, js, quiet1, quiet2);
    hide Sensible, Progress, Ensured, Accepts, Has, ViewOf, Blocked;
    if Sensible(r) && Progress(r, cfg, s0) {
      TwoLeaves(r, cfg, s0, s1, s2, css, js, quiet1, quiet2);
      PageKeepsAccepts(r, cfg, s2, css.value, js.value, s3, html, quiet3);
    }
  }

  // Links change nothing about it: the three parts are there before and after.
  lemma SteadyLinks(r: Recipe, cfg: Config, s0: Store, s1: Store, s2: Store, s3: Store, b: Bundle, at1: nat, at2: nat,
                    first: bool, second: bool, quiet0: bool, quiet1: bool, quiet2: bool)
    requires Steady(r, cfg, s0, s1) && GatheredFrom(r, cfg, s0, s1, Ok(b), quiet0)
    requires LinkAttempt(r, s1, b.html, b.css, at1, s2, first, quiet1)
    requires if first then LinkAttempt(r, s2, b.html, b.js, at2, s3, second, quiet2) else s3 == s2 && !second
    ensures Steady(r, cfg, s0, s3)
  {
    hide Sensible, Progress, Gathered, LinkAttempt, Accepts, HasAll, ViewOf, Complete;
    if Sensible(r) && Progress(r, cfg, s0) {
      GatheredBundle(r, cfg, s0, s1, b, quiet0);
      LinksEnd(r, cfg, s1, s2, s3, b, at1, at2, first, second, quiet1, quiet2);
      HasAllAccepts(r, cfg, s1, b);
      HasAllAccepts(r, cfg, s3, b);
    }
  }

  // Whether an attempt succeeds is decided by the store it starts from.
  ghost predicate DecidedBefore(r: Recipe, cfg: Config, s: Store, result: Result<Bundle, Failure>, quiet: bool) {
    Sensible(r) && Progress(r, cfg, s) && (quiet || result.Ok?) ==> (result.Ok? <==> Accepts(r, cfg, s))
  }

  lemma AttemptIsDecided(r: Recipe, cfg: Config, s: Store, s': Store, result: Result<Bundle, Failure>, quiet: bool)
    requires AttemptFrom(r, cfg, s, s', result, quiet) && Steady(r, cfg, s, s')
    ensures DecidedBefore(r, cfg, s, result, quiet)
  {
    hide Sensible, Progress, Attempt, Accepts, Complete, Blocked, ViewOf;
    if Sensible(r) && Progress(r, cfg, s) {
      AttemptSettles(r, cfg, s, s', result, quiet);
    }
  }

  // A sequence of attempts, each from where the one before left the service.
  ghost predicate Attempts(r: Recipe, cfg: Config, stores: seq<Store>, results: seq<Result<Bundle, Failure>>, quiets: seq<bool>) {
    && |stores| == |results| + 1 && |quiets| == |results|
    && Sensible(r) && Progress(r, cfg, stores[0])
    && forall k :: 0 <= k < |results| ==>
         && AttemptFrom(r, cfg, stores[k], stores[k + 1], results[k], quiets[k])
         && Grows(stores[k], stores[k + 1], 3) && Steady(r, cfg, stores[k], stores[k + 1])
  }

  lemma {:induction false} AcceptsStays(r: Recipe, cfg: Config, stores: seq<Store>, results: seq<Result<Bundle, Failure>>,
                                        quiets: seq<bool>, i: nat)
    requires Attempts(r, cfg, stores, results, quiets) && i < |stores|
    ensures Accepts(r, cfg, stores[i]) <==> Accepts(r, cfg, stores[0])
  {
    hide Sensible, Progress, AttemptFrom, Grows, Accepts;
    if i > 0 {
      AcceptsStays(r, cfg, stores, results, quiets, i - 1);
      ProgressStays(r, cfg, stores, results, quiets, i - 1);
      assert Steady(r, cfg, stores[i - 1], stores[i]);
    }
  }

  lemma {:induction false} ProgressStays(r: Recipe, cfg: Config, stores: seq<Store>, results: seq<Result<Bundle, Failure>>,
                                         quiets: seq<bool>, i: nat)
    requires Attempts(r, cfg, stores, results, quiets) && i < |stores|
    ensures Progress(r, cfg, stores[i])
  {
    hide Sensible, Progress, Attempt, Grows, Steady;
    if i > 0 {
      ProgressStays(r, cfg, stores, results, quiets, i - 1);
      AttemptSettles(r, cfg, stores[i - 1], stores[i], results[i - 1], quiets[i - 1]);
    }
  }

  /**
   * However many attempts are cut off, and wherever: the first one that is not cut
   * off, or gets its answer, settles the bundle. It completes it exactly when each
   * part was there before the first attempt or is one that the service takes, and
   * otherwise stops before a part it does not take. Every attempt after it changes
   * nothing and answers with the same bundle, if it answers.
   */
  lemma {:induction false} AttemptsConverge(r: Recipe, cfg: Config, stores: seq<Store>, results: seq<Result<Bundle, Failure>>,
                                            quiets: seq<bool>, i: nat, j: nat)
    requires Attempts(r, cfg, stores, results, quiets)
    requires i <= j < |results| && (quiets[i] || results[i].Ok?)
    ensures results[i].Ok? <==> Accepts(r, cfg, stores[0])
    ensures results[i].Ok? <==> !Blocked(r, cfg, ViewOf(r, stores[i + 1]))
    ensures results[i].Ok? ==> Complete(r, cfg, stores[i + 1], results[i].value)
    ensures stores[j + 1] == stores[i + 1] && (results[j].Ok? ==> results[j] == results[i])
    decreases j
  {
    hide Sensible, Progress, Complete, Attempt, Blocked, ViewOf, Grows, Steady, Accepts;
    ProgressStays(r, cfg, stores, results, quiets, i);
    AttemptSettles(r, cfg, stores[i], stores[i + 1], results[i], quiets[i]);
    AcceptsStays(r, cfg, stores, results, quiets, i + 1);
    if i < j {
      AttemptsConverge(r, cfg, stores, results, quiets, i, j - 1);
      ProgressStays(r, cfg, stores, results, quiets, j);
      AttemptSettles(r, cfg, stores[j], stores[j + 1], results[j], quiets[j]);
      if results[i].Ok? {
        AttemptAfter(r, cfg, stores[j], stores[j + 1], results[j], quiets[j], results[i].value);
      }
    }
  }

  // ------------------------------------------------- ids, and when it completes

  ghost predicate IdsBelow(db: Db, n: nat) {
    (forall id :: id in db.artifacts ==> id < n) && (forall v :: v in db.versions ==> v < n)
  }

  // At most `k` new ids are drawn, each the smallest that is free.
  ghost predicate Grows(s: Store, s': Store, k: nat) {
    forall n: nat :: IdsBelow(s.db, n) ==> IdsBelow(s'.db, n + k)
  }

  lemma GrowsJoin(s: Store, s1: Store, s2: Store, k: nat, l: nat)
    requires Grows(s, s1, k) && Grows(s1, s2, l)
    ensures Grows(s, s2, k + l)
  {
    hide IdsBelow;
    forall n: nat | IdsBelow(s.db, n) ensures IdsBelow(s2.db, n + (k + l)) {
      assert IdsBelow(s1.db, n + k);
      assert n + (k + l) == (n + k) + l;
    }
  }

  lemma GrowsMore(s: Store, s': Store, k: nat, l: nat)
    requires Grows(s, s', k) && k <= l
    ensures Grows(s, s', l)
  {
    forall n: nat | IdsBelow(s.db, n) ensures IdsBelow(s'.db, n + l) {
      assert IdsBelow(s'.db, n + k);
    }
  }

  lemma SameGrows(s: Store, s': Store, k: nat)
    requires s'.db.artifacts.Keys == s.db.artifacts.Keys && s'.db.versions.Keys == s.db.versions.Keys
    ensures Grows(s, s', k)
  {
  }

  lemma EnsuredGrows(r: Recipe, cfg: Config, s: Store, p: Part, s': Store, result: Result<Asset, Failure>, quiet: bool)
    requires Ensured(r, cfg, s, p, s', result, quiet)
    ensures Grows(s, s', 1)
  {
    var id, version := Fresh(s.db.artifacts.Keys), Fresh(s.db.versions.Keys);
    forall n: nat | IdsBelow(s.db, n) ensures IdsBelow(s'.db, n + 1) {
      FreshIsLeast(s.db.artifacts.Keys, n);
      FreshIsLeast(s.db.versions.Keys, n);
      hide Decide, ViewOf, Taken, Fresh, IsTextual, WithBlob, Chunks.ChunksOf;
    }
  }

  lemma LinkGrows(r: Recipe, s: Store, html: Asset, target: Asset, at: nat, s': Store, ok: bool, quiet: bool)
    requires LinkAttempt(r, s, html, target, at, s', ok, quiet)
    ensures Grows(s, s', 0)
  {
    hide ValidText, Authorize;
    SameGrows(s, s', 0);
  }

  // The service takes both leaves, and every page that names assets with ids below `n`.
  ghost predicate TakenBelow(r: Recipe, cfg: Config, n: nat) {
    && Taken(r, cfg, CssPart(r)) && Taken(r, cfg, JsPart(r))
    && forall css, js :: AssetBelow(css, n) && AssetBelow(js, n) ==> Taken(r, cfg, HtmlPart(r, css, js))
  }

  predicate AssetBelow(a: Asset, n: nat) {
    a.id < n && a.version < n
  }

  lemma HasIsBelow(r: Recipe, s: Store, p: Part, a: Asset, n: nat)
    requires Has(r, ViewOf(r, s), p, a) && IdsBelow(s.db, n)
    ensures AssetBelow(a, n)
  {
    hide Visible, Authorize, Matches;
  }

  lemma TakenIsNotBlocked(r: Recipe, cfg: Config, s: Store, n: nat)
    requires IdsBelow(s.db, n) && TakenBelow(r, cfg, n)
    ensures !Blocked(r, cfg, ViewOf(r, s))
  {
    hide Has, Taken, ViewOf, IdsBelow;
    forall css, js | Has(r, ViewOf(r, s), CssPart(r), css) && Has(r, ViewOf(r, s), JsPart(r), js)
      ensures Taken(r, cfg, HtmlPart(r, css, js))
    {
      HasIsBelow(r, s, CssPart(r), css, n);
      HasIsBelow(r, s, JsPart(r), js, n);
    }
  }

  lemma {:induction false} IdsStayBelow(r: Recipe, cfg: Config, stores: seq<Store>, results: seq<Result<Bundle, Failure>>,
                                        quiets: seq<bool>, i: nat, n: nat)
    requires Attempts(r, cfg, stores, results, quiets) && i < |stores| && IdsBelow(stores[0].db, n)
    ensures IdsBelow(stores[i].db, n + 3 * i)
  {
    hide Sensible, Progress, AttemptFrom, IdsBelow, Steady;
    if i > 0 {
      IdsStayBelow(r, cfg, stores, results, quiets, i - 1, n);
      assert Grows(stores[i - 1], stores[i], 3);
      assert n + 3 * i == (n + 3 * (i - 1)) + 3;
    }
  }

  /**
   * What an attempt answers, if it answers at all, was decided before the first one:
   * unless every part is welcome, none of them ever succeeds.
   */
  lemma UnwelcomeNeverCompletes(r: Recipe, cfg: Config, stores: seq<Store>, results: seq<Result<Bundle, Failure>>,
                                quiets: seq<bool>, i: nat)
    requires Attempts(r, cfg, stores, results, quiets) && i < |results| && !Accepts(r, cfg, stores[0])
    ensures results[i].Err?
  {
    hide Sensible, Progress, AttemptFrom, Accepts, Steady, Grows, Complete, Blocked, ViewOf;
    if results[i].Ok? {
      AttemptsConverge(r, cfg, stores, results, quiets, i, i);
    }
  }

  /** When the service takes the pages whose ids can come up, an undisturbed attempt completes the bundle. */
  lemma UndisturbedCompletes(r: Recipe, cfg: Config, stores: seq<Store>, results: seq<Result<Bundle, Failure>>,
                             quiets: seq<bool>, i: nat, n: nat)
    requires Attempts(r, cfg, stores, results, quiets) && i < |results| && quiets[i]
    requires IdsBelow(stores[0].db, n) && TakenBelow(r, cfg, n + 3 * (i + 1))
    ensures results[i].Ok? && Complete(r, cfg, stores[i + 1], results[i].value)
  {
    hide Sensible, Progress, Complete, AttemptFrom, Blocked, ViewOf, Grows, IdsBelow, TakenBelow;
    AttemptsConverge(r, cfg, stores, results, quiets, i, i);
    IdsStayBelow(r, cfg, stores, results, quiets, i + 1, n);
    TakenIsNotBlocked(r, cfg, stores[i + 1], n + 3 * (i + 1));
  }

  /** A bundle nobody has begun, with room among the candidates, is ground to start from. */
  lemma FreshBundleIsProgress(r: Recipe, cfg: Config, s: Store)
    requires Sane(cfg, s)
    requires forall id, role :: id in ViewOf(r, s) ==> !Claims(r, ViewOf(r, s)[id], role)
    requires |Candidates(ViewOf(r, s), r.cssName, Css)| < MAX_IDEMPOTENCY_CANDIDATES
    requires |Candidates(ViewOf(r, s), r.jsName, Js)| < MAX_IDEMPOTENCY_CANDIDATES
    requires |Candidates(ViewOf(r, s), r.htmlName, Html)| < MAX_IDEMPOTENCY_CANDIDATES
    ensures Progress(r, cfg, s)
  {
    FreshView(r, ViewOf(r, s));
    NoPageNoConflicts(r, s);
    hide Sane, ViewOf, ViewProgress, NoConflicts, HtmlOpen;
  }

  lemma FreshView(r: Recipe, view: View)
    requires forall id, role :: id in view ==> !Claims(r, view[id], role)
    requires |Candidates(view, r.cssName, Css)| < MAX_IDEMPOTENCY_CANDIDATES
    requires |Candidates(view, r.jsName, Js)| < MAX_IDEMPOTENCY_CANDIDATES
    requires |Candidates(view, r.htmlName, Html)| < MAX_IDEMPOTENCY_CANDIDATES
    ensures ViewProgress(r, view) && HtmlOpen(r, view)
  {
    NothingMatches(r, view, r.cssName, Css);
    NothingMatches(r, view, r.jsName, Js);
    NothingMatches(r, view, r.htmlName, Html);
    hide Claims, Candidates, Matches, HasContent;
  }

  lemma NothingMatches(r: Recipe, view: View, name: string, role: Role)
    requires forall id :: id in view ==> !Claims(r, view[id], role)
    ensures Matches(r, view, name, role) == {}
  {
    hide Claims;
  }

  class Client {
    const recipe: Recipe
    const server: FolioLattice
    // What becomes of each call, counted from the first.
    const faults: nat -> Fault
    var calls: nat

    constructor (recipe: Recipe, server: FolioLattice, faults: nat -> Fault)
      ensures this.recipe == recipe && this.server == server && this.faults == faults && calls == 0
    {
      this.recipe, this.server, this.faults := recipe, server, faults;
      calls := 0;
    }

    /** `_call`, up to what the service does with it. */
    method Call() returns (fault: Fault)
      modifies this`calls
      ensures calls == old(calls) + 1 && fault == faults(old(calls))
    {
      fault := faults(calls);
      calls := calls + 1;
    }

    /** Reads the candidates one after the other. */
    method SiftCandidates(view: View, p: Part, ids: seq<ArtifactId>) returns (r: Result<seq<Asset>, Failure>)
      requires forall id :: id in ids ==> id in view
      modifies this`calls
      ensures old(calls) <= calls
      ensures r == Sift(recipe, view, p, ids) || (r == Err(Transport) && !Quiet(faults, old(calls), calls))
    {
      ghost var start := calls;
      var found: seq<Asset> := [];
      hide Claims, HasContent;
      for i := 0 to |ids|
        invariant start <= calls
        invariant Sift(recipe, view, p, ids[..i]) == Ok(found)
      {
        assert ids[..i + 1][..i] == ids[..i];
        var fault := Call();
        if !fault.Works? {
          return Err(Transport);
        }
        if Claims(recipe, view[ids[i]], p.role) {
          if !HasContent(recipe, view[ids[i]], p) {
            SiftFails(recipe, view, p, ids, i + 1);
            return Err(DifferentContent);
          }
          found := found + [AssetAt(view, ids[i])];
        }
      }
      assert ids[..|ids|] == ids;
      r := Ok(found);
    }

    /** Lists and reads the candidates of one part. */
    method FindMatches(p: Part) returns (decision: Decision)
      modifies this`calls
      ensures old(calls) <= calls
      ensures || decision == Decide(recipe, ViewOf(recipe, server.State()), p)
              || (decision == Stop(Transport) && !Quiet(faults, old(calls), calls))
    {
      var view := ViewOf(recipe, Store(server.db, server.blobs));
      ghost var start := calls;
      var fault := Call();
      if !fault.Works? {
        return Stop(Transport);
      }
      var ids := ListOf(view, p);
      hide ViewOf, ListOf, Sift;
      var sifted := SiftCandidates(view, p, ids);
      if sifted.Err? {
        return Stop(sifted.error);
      }
      var found := sifted.value;
      if |found| > 1 {
        return Stop(Ambiguous);
      }
      if |found| == 1 {
        return Found(found[0]);
      }
      decision := if |ids| >= MAX_IDEMPOTENCY_CANDIDATES then Stop(BoundReached) else Missing;
    }

    /** `_ensure`: finds the one artifact of the part, or creates it. */
    method Ensure(p: Part) returns (r: Result<Asset, Failure>)
      modifies server, this`calls
      ensures old(calls) <= calls
      ensures Ensured(recipe, server.cfg, old(server.State()), p, server.State(), r, Quiet(faults, old(calls), calls))
      ensures Grows(old(server.State()), server.State(), 1)
    {
      ghost var start, s := calls, server.State();
      var decision := FindMatches(p);
      ghost var c := calls;
      if !decision.Missing? {
        r := if decision.Found? then Ok(decision.asset) else Err(decision.failure);
        EnsureDecided(recipe, server.cfg, s, p, decision, r, Quiet(faults, start, calls));
        EnsuredGrows(recipe, server.cfg, s, p, s, r, Quiet(faults, start, calls));
        return;
      }
      var fault := Call();
      assert Quiet(faults, start, calls) ==> fault.Works?;
      hide Decide, ViewOf, Quiet, Ensured, Grows;
      var error := None;
      var id, version := Fresh(server.db.artifacts.Keys), Fresh(server.db.versions.Keys);
      if !fault.LostBefore? {
        error := server.CreateArtifact(recipe.tenant, p.name, UploadFor(recipe, p), id, version, NoCrash);
      }
      r := if !fault.Works? then Err(Transport) else if error.Some? then Err(Rejected) else Ok(Asset(id, version));
      EnsureCreated(recipe, server.cfg, s, p, fault, server.State(), r, Quiet(faults, start, calls));
      EnsuredGrows(recipe, server.cfg, s, p, server.State(), r, Quiet(faults, start, calls));
    }

    /** One `graph_link`. */
    method LinkTo(html: Asset, target: Asset) returns (ok: bool)
      modifies server, this`calls
      ensures old(calls) <= calls
      ensures LinkAttempt(recipe, old(server.State()), html, target, old(calls), server.State(), ok,
                          Quiet(faults, old(calls), calls))
      ensures Grows(old(server.State()), server.State(), 0)
    {
      ghost var start, s := calls, server.State();
      hide Grows;
      var fault := Call();
      if fault.LostBefore? {
        assert !faults(start).Works?;
        SameGrows(s, server.State(), 0);
        return false;
      }
      var answer := server.Link(recipe.tenant, html.id, target.id, EDGE_TYPE, NO_METADATA, recipe.actor,
                                FreshEdge(server.db), calls - 1);
      assert fault == faults(start);
      ok := fault.Works? && answer.Ok?;
      LinkGrows(recipe, s, html, target, start, server.State(), ok, Quiet(faults, start, calls));
    }

    /** The five calls after the links, which only read. */
    method Observe() returns (ok: bool)
      modifies this`calls
      ensures old(calls) <= calls
      ensures Quiet(faults, old(calls), calls) ==> ok
    {
      ghost var start := calls;
      for i := 0 to 5
        invariant start <= calls
      {
        var fault := Call();
        if !fault.Works? {
          assert !faults(calls - 1).Works?;
          return false;
        }
      }
      ok := true;
    }

    /** The three `ensure` calls, each one only after the one before has succeeded. */
    method Gather() returns (r: Result<Bundle, Failure>)
      modifies server, this`calls
      ensures old(calls) <= calls
      ensures GatheredFrom(recipe, server.cfg, old(server.State()), server.State(), r, Quiet(faults, old(calls), calls))
      ensures Grows(old(server.State()), server.State(), 3)
      ensures Steady(recipe, server.cfg, old(server.State()), server.State())
    {
      ghost var start, s0 := calls, server.State();
      ghost var sound := Sensible(recipe) && Progress(recipe, server.cfg, s0);
      hide *;
      var css := Ensure(CssPart(recipe));
      ghost var s1, c1 := server.State(), calls;
      if css.Err? {
        if sound {
          GatherOne(recipe, server.cfg, s0, s1, css, Quiet(faults, start, c1));
        }
        GatherFromSound(recipe, server.cfg, s0, s1, Err(css.error), Quiet(faults, start, c1));
        GrowsMore(s0, s1, 1, 3);
        SteadyOne(recipe, server.cfg, s0, s1, css, Quiet(faults, start, c1));
        return Err(css.error);
      }
      var js := Ensure(JsPart(recipe));
      ghost var s2, c2 := server.State(), calls;
      QuietJoin(faults, start, c1, c2);
      GrowsJoin(s0, s1, s2, 1, 1);
      if js.Err? {
        if sound {
          GatherTwo(recipe, server.cfg, s0, s1, s2, css, js, Quiet(faults, start, c1), Quiet(faults, c1, c2));
        }
        GatherFromSound(recipe, server.cfg, s0, s2, Err(js.error), Quiet(faults, start, c2));
        GrowsMore(s0, s2, 2, 3);
        SteadyTwo(recipe, server.cfg, s0, s1, s2, css, js, Quiet(faults, start, c1), Quiet(faults, c1, c2));
        return Err(js.error);
      }
      var html := Ensure(HtmlPart(recipe, css.value, js.value));
      QuietJoin(faults, start, c2, calls);
      GrowsJoin(s0, s2, server.State(), 2, 1);
      SteadyThree(recipe, server.cfg, s0, s1, s2, server.State(), css, js, html,
                  Quiet(faults, start, c1), Quiet(faults, c1, c2), Quiet(faults, c2, calls));
      if sound {
        GatherThree(recipe, server.cfg, s0, s1, s2, server.State(), css, js, html,
                    Quiet(faults, start, c1), Quiet(faults, c1, c2), Quiet(faults, c2, calls));
      }
      r := if html.Err? then Err(html.error) else Ok(Bundle(html.value, css.value, js.value));
      GatherFromSound(recipe, server.cfg, s0, server.State(), r, Quiet(faults, start, calls));
    }

    /** The two links, the second only after the first. `middle` and `at` are the store and the call between them. */
    method LinkBoth(b: Bundle) returns (first: bool, second: bool, ghost middle: Store, ghost at: nat)
      modifies server, this`calls
      ensures old(calls) <= at <= calls
      ensures LinkAttempt(recipe, old(server.State()), b.html, b.css, old(calls), middle, first, Quiet(faults, old(calls), at))
      ensures if first
              then LinkAttempt(recipe, middle, b.html, b.js, at, server.State(), second, Quiet(faults, at, calls))
              else server.State() == middle && !second
      ensures Grows(old(server.State()), server.State(), 0)
    {
      ghost var s := server.State();
      hide *;
      first := LinkTo(b.html, b.css);
      middle, at := server.State(), calls;
      second := false;
      if first {
        second := LinkTo(b.html, b.js);
        GrowsJoin(s, middle, server.State(), 0, 0);
      }
    }

    /** `run_recipe`. */
    method RunRecipe() returns (r: Result<Bundle, Failure>)
      modifies server, this`calls
      ensures old(calls) <= calls
      ensures AttemptFrom(recipe, server.cfg, old(server.State()), server.State(), r, Quiet(faults, old(calls), calls))
      ensures Grows(old(server.State()), server.State(), 3)
      ensures Steady(recipe, server.cfg, old(server.State()), server.State())
      ensures DecidedBefore(recipe, server.cfg, old(server.State()), r, Quiet(faults, old(calls), calls))
      ensures !IsValid(recipe) ==> r == Err(InvalidInput) && server.State() == old(server.State())
    {
      hide *;
      if !IsValid(recipe) {
        InvalidChangesNothing(recipe, server.cfg, server.State(), Err(InvalidInput), Quiet(faults, calls, calls));
        SameGrows(server.State(), server.State(), 3);
        SteadySame(recipe, server.cfg, server.State());
        AttemptIsDecided(recipe, server.cfg, server.State(), server.State(), Err(InvalidInput), Quiet(faults, calls, calls));
        return Err(InvalidInput);
      }
      ghost var start, s0 := calls, server.State();
      var gathered := Gather();
      ghost var s1, c1 := server.State(), calls;
      if gathered.Err? {
        StoppedBeforeLinks(recipe, server.cfg, s0, s1, gathered.error, Quiet(faults, start, c1));
        AttemptIsDecided(recipe, server.cfg, s0, s1, Err(gathered.error), Quiet(faults, start, c1));
        return Err(gathered.error);
      }
      var b := gathered.value;
      var first, second, middle, at := LinkBoth(b);
      ghost var s2, c2 := server.State(), calls;
      var done := false;
      if second {
        done := Observe();
      }
      QuietAll(faults, start, c1, at, c2, calls);
      GrowsJoin(s0, s1, s2, 3, 0);
      SteadyLinks(recipe, server.cfg, s0, s1, middle, s2, b, c1, at, first, second,
                  Quiet(faults, start, c1), Quiet(faults, c1, at), Quiet(faults, at, c2));
      AttemptEnds(recipe, server.cfg, s0, s1, middle, s2, b, c1, at, first, second, done,
                  Quiet(faults, start, c1), Quiet(faults, c1, at), Quiet(faults, at, c2), Quiet(faults, c2, calls));
      r := if done then Ok(b) else Err(Transport);
      AttemptIsDecided(recipe, server.cfg, s0, s2, r, Quiet(faults, start, calls));
    }
  }
}
