// The chunks of a version's text and the substring search over them
// (src/folio_lattice/service.py).
module Chunks {
  import opened Common
  import opened Tables

  const CHUNK_SIZE := 1200
  const MAX_QUERY_LENGTH := 500
  const MAX_GREP_RESULTS := 500

  // ---------------------------------------------------------------- chunking

  ghost function ChunksFrom(text: string, start: nat, ordinal: nat): seq<Chunk>
    requires start <= |text|
    decreases |text| - start
  {
    if start == |text| then []
    else
      var end := Min(start + CHUNK_SIZE, |text|);
      [Chunk(ordinal, start, end, text[start..end])] + ChunksFrom(text, end, ordinal + 1)
  }

  ghost function ChunksOf(text: string): seq<Chunk> {
    ChunksFrom(text, 0, 0)
  }

  /** The generator, as the list it yields. */
  method Split(text: string) returns (chunks: seq<Chunk>)
    ensures chunks == ChunksOf(text)
  {
    chunks := [];
    var start := 0;
    while start < |text|
      invariant start <= |text|
      invariant chunks + ChunksFrom(text, start, |chunks|) == ChunksOf(text)
    {
      var end := Min(start + CHUNK_SIZE, |text|);
      chunks := chunks + [Chunk(|chunks|, start, end, text[start..end])];
      start := end;
    }
  }

  function Joined(chunks: seq<Chunk>): string {
    if chunks == [] then [] else chunks[0].content + Joined(chunks[1..])
  }

  // Consecutive, in order, none empty or too long, from `start` to the end of the text.
  ghost predicate Tiles(chunks: seq<Chunk>, text: string, start: nat, ordinal: nat) {
    && (forall i :: 0 <= i < |chunks| ==>
          && chunks[i].ordinal == ordinal + i
          && chunks[i].start < chunks[i].end <= |text|
          && chunks[i].end - chunks[i].start <= CHUNK_SIZE
          && chunks[i].content == text[chunks[i].start..chunks[i].end]
          && chunks[i].start == if i == 0 then start else chunks[i - 1].end)
    && (if chunks == [] then start == |text| else chunks[|chunks| - 1].end == |text|)
  }

  lemma {:induction false} ChunksTile(text: string, start: nat, ordinal: nat)
    requires start <= |text|
    ensures Tiles(ChunksFrom(text, start, ordinal), text, start, ordinal)
    ensures Joined(ChunksFrom(text, start, ordinal)) == text[start..]
    decreases |text| - start
  {
    if start < |text| {
      var end := Min(start + CHUNK_SIZE, |text|);
      ChunksTile(text, end, ordinal + 1);
      var rest, all := ChunksFrom(text, end, ordinal + 1), ChunksFrom(text, start, ordinal);
      assert all == [Chunk(ordinal, start, end, text[start..end])] + rest;
      hide ChunksFrom;
      assert text[start..] == text[start..end] + text[end..];
      assert all[1..] == rest;
      assert forall i :: 1 <= i < |all| ==> all[i] == rest[i - 1];
    }
  }

  /** The chunks of a text tile it: nothing is lost, repeated or reordered. */
  lemma ChunksPartition(text: string)
    ensures Tiles(ChunksOf(text), text, 0, 0) && Joined(ChunksOf(text)) == text
  {
    ChunksTile(text, 0, 0);
    assert text[0..] == text;
  }

  /** Chunks are cut every 1200 characters, and only the last may be shorter. */
  lemma {:induction false} ChunksAreFull(text: string, start: nat, ordinal: nat, i: nat)
    requires start <= |text| && i < |ChunksFrom(text, start, ordinal)|
    ensures var c := ChunksFrom(text, start, ordinal)[i];
            && c.ordinal == ordinal + i
            && c.start == start + 1200 * i && c.start < |text|
            && c.end == (if c.start + 1200 <= |text| then c.start + 1200 else |text|)
            && c.content == text[c.start..c.end]
    decreases |text| - start
  {
    if i > 0 {
      ChunksAreFull(text, Min(start + CHUNK_SIZE, |text|), ordinal + 1, i - 1);
    }
  }

  /** Whatever does not cross a cut lies in one chunk. */
  lemma {:induction false} ChunkWith(text: string, start: nat, ordinal: nat, at: nat, end: nat) returns (i: nat)
    requires start <= at < end <= |text| && (at - start) / 1200 == (end - 1 - start) / 1200
    ensures i < |ChunksFrom(text, start, ordinal)|
    ensures var c := ChunksFrom(text, start, ordinal)[i]; c.start <= at && end <= c.end
    decreases |text| - start
  {
    var cut := Min(start + CHUNK_SIZE, |text|);
    if at < cut {
      i := 0;
    } else {
      OneCutLater(at - start);
      OneCutLater(end - 1 - start);
      i := ChunkWith(text, cut, ordinal + 1, at, end);
      i := i + 1;
    }
  }

  lemma OneCutLater(n: nat)
    requires n >= 1200
    ensures (n - 1200) / 1200 == n / 1200 - 1
  {
  }

  lemma ChunkAt(text: string, i: nat)
    requires i < |ChunksOf(text)|
    ensures var c := ChunksOf(text)[i];
            c.ordinal == i && c.start < c.end <= |text| && c.content == text[c.start..c.end]
  {
    ChunksTile(text, 0, 0);
  }

  // ------------------------------------------------------------------- find

  ghost predicate FirstMatch(pattern: string, text: string, at: nat) {
    MatchesAt(pattern, text, at) && forall i :: 0 <= i < at ==> !MatchesAt(pattern, text, i)
  }

  function FindFrom(pattern: string, text: string, i: nat): (at: Option<nat>)
    requires forall j :: 0 <= j < i ==> !MatchesAt(pattern, text, j)
    ensures at.Some? ==> FirstMatch(pattern, text, at.value)
    ensures at.None? ==> !Occurs(pattern, text)
    decreases |text| + 1 - i
  {
    if i > |text| then None
    else if MatchesAt(pattern, text, i) then Some(i)
    else FindFrom(pattern, text, i + 1)
  }

  /** Python's `text.find(pattern)`. */
  function Find(pattern: string, text: string): (at: Option<nat>)
    ensures at.Some? ==> FirstMatch(pattern, text, at.value)
    ensures at.None? <==> !Occurs(pattern, text)
  {
    FindFrom(pattern, text, 0)
  }

  // ------------------------------------------------------------------- grep

  // A row of the query: a chunk of the current version of a readable artifact.
  datatype Row = Row(artifact: ArtifactId, version: VersionId, chunk: Chunk)

  datatype Hit = Hit(row: Row, offset: nat)

  function RowsOf(artifact: ArtifactId, version: VersionId, chunks: seq<Chunk>): (rows: seq<Row>)
    ensures |rows| == |chunks|
    ensures forall i :: 0 <= i < |rows| ==> rows[i] == Row(artifact, version, chunks[i])
  {
    seq(|chunks|, i requires 0 <= i < |chunks| => Row(artifact, version, chunks[i]))
  }

  // The chunks of one artifact that the query returns.
  function RowsFor(db: Db, tenant: string, actor: string, id: ArtifactId): seq<Row> {
    if Visible(db, tenant, id, actor, Read)
       && db.artifacts[id].current.Some? && db.artifacts[id].current.value in db.chunks
    then RowsOf(id, db.artifacts[id].current.value, db.chunks[db.artifacts[id].current.value])
    else []
  }

  /** The query, for the artifacts in `ids`: by artifact, then by ordinal. */
  function Rows(db: Db, tenant: string, actor: string, ids: seq<ArtifactId>): seq<Row> {
    if ids == [] then [] else RowsFor(db, tenant, actor, ids[0]) + Rows(db, tenant, actor, ids[1..])
  }

  lemma LeastOf(s: set<nat>) returns (m: nat)
    requires s != {}
    ensures m in s && forall k :: k in s ==> m <= k
  {
    m :| m in s;
    if s != {m} {
      var rest := LeastOf(s - {m});
      assert forall k :: k in s ==> k == m || k in s - {m};
      m := Min(m, rest);
    }
  }

  lemma SomeLeast(s: set<nat>)
    requires s != {}
    ensures exists m :: m in s && forall k :: k in s ==> m <= k
  {
    var m := LeastOf(s);
  }

  function Least(s: set<nat>): (m: nat)
    requires s != {}
    ensures m in s && forall k :: k in s ==> m <= k
  {
    SomeLeast(s);
    var m :| m in s && forall k :: k in s ==> m <= k;
    m
  }

  /** A set of ids in ascending order. */
  function Sorted(s: set<nat>): (ids: seq<nat>)
    ensures forall id :: id in ids <==> id in s
    ensures forall i, j :: 0 <= i < j < |ids| ==> ids[i] < ids[j]
  {
    if s == {} then []
    else
      var rest := Sorted(s - {Least(s)});
      assert forall i :: 0 <= i < |rest| ==> rest[i] in rest;
      [Least(s)] + rest
  }

  /** The rows of the query, in the order it asks for. */
  function GrepRows(db: Db, tenant: string, actor: string): seq<Row> {
    Rows(db, tenant, actor, Sorted(db.artifacts.Keys))
  }

  // All hits, before any limit: for every row that contains the pattern its first match.
  ghost function AllHits(rows: seq<Row>, pattern: string): seq<Hit> {
    if rows == [] then []
    else
      var at := Find(pattern, rows[0].chunk.content);
      (if at.Some? then [Hit(rows[0], at.value)] else []) + AllHits(rows[1..], pattern)
  }

  lemma AllHitsStep(hits: seq<Hit>, rows: seq<Row>, i: nat, pattern: string)
    requires i < |rows|
    ensures var at := Find(pattern, rows[i].chunk.content);
            var next := if at.Some? then hits + [Hit(rows[i], at.value)] else hits;
            next + AllHits(rows[i + 1..], pattern) == hits + AllHits(rows[i..], pattern)
  {
    assert rows[i..][1..] == rows[i + 1..];
    hide MatchesAt, FirstMatch, Occurs;
  }

  lemma LimitedPrefix(hits: seq<Hit>, rest: seq<Hit>, bound: nat)
    requires |hits| == bound || (|hits| < bound && rest == [])
    ensures hits == Bounded(hits + rest, bound)
  {
  }

  /** The loop over the rows, which stops at the limit. */
  method Scan(rows: seq<Row>, pattern: string, bound: nat) returns (hits: seq<Hit>)
    requires bound >= 1
    ensures hits == Bounded(AllHits(rows, pattern), bound)
  {
    hits := [];
    assert rows[0..] == rows;
    hide AllHits, Bounded, Find;
    for i := 0 to |rows|
      invariant |hits| < bound
      invariant hits + AllHits(rows[i..], pattern) == AllHits(rows, pattern)
    {
      AllHitsStep(hits, rows, i, pattern);
      var at := Find(pattern, rows[i].chunk.content);
      if at.Some? {
        hits := hits + [Hit(rows[i], at.value)];
        if |hits| >= bound {
          LimitedPrefix(hits, AllHits(rows[i + 1..], pattern), bound);
          return;
        }
      }
    }
    NoHits(rows[|rows|..], pattern);
    LimitedPrefix(hits, [], bound);
  }

  lemma NoHits(rows: seq<Row>, pattern: string)
    requires rows == []
    ensures AllHits(rows, pattern) == []
  {
  }

  method Grep(db: Db, tenant: string, pattern: string, limit: int, actor: string)
    returns (r: Result<seq<Hit>, Error>)
    ensures r == if pattern == "" then Ok([])
                 else if |pattern| > MAX_QUERY_LENGTH || !ValidText(actor, MAX_NAME_LENGTH) then Err(InvalidText)
                 else Ok(Bounded(AllHits(GrepRows(db, tenant, actor), pattern), Clamp(1, limit, MAX_GREP_RESULTS)))
  {
    if pattern == "" {
      return Ok([]);
    }
    if |pattern| > MAX_QUERY_LENGTH || !ValidText(actor, MAX_NAME_LENGTH) {
      return Err(InvalidText);
    }
    var hits := Scan(GrepRows(db, tenant, actor), pattern, Clamp(1, limit, MAX_GREP_RESULTS));
    r := Ok(hits);
  }

  // -------------------------------------------------------- what grep returns

  lemma {:induction false} RowsAre(db: Db, tenant: string, actor: string, ids: seq<ArtifactId>, r: Row)
    ensures r in Rows(db, tenant, actor, ids) <==> r.artifact in ids && r in RowsFor(db, tenant, actor, r.artifact)
  {
    if ids != [] {
      RowsAre(db, tenant, actor, ids[1..], r);
      assert r in RowsFor(db, tenant, actor, ids[0]) ==> r.artifact == ids[0];
    }
  }

  // A chunk of the current version of an artifact the actor may read.
  ghost predicate CurrentChunk(db: Db, tenant: string, actor: string, r: Row) {
    && Visible(db, tenant, r.artifact, actor, Read)
    && db.artifacts[r.artifact].current == Some(r.version)
    && r.version in db.chunks && r.chunk in db.chunks[r.version]
  }

  lemma GrepRowsAre(db: Db, tenant: string, actor: string, r: Row)
    ensures r in GrepRows(db, tenant, actor) <==> CurrentChunk(db, tenant, actor, r)
  {
    RowsAre(db, tenant, actor, Sorted(db.artifacts.Keys), r);
    if CurrentChunk(db, tenant, actor, r) {
      var i :| 0 <= i < |db.chunks[r.version]| && db.chunks[r.version][i] == r.chunk;
      assert RowsFor(db, tenant, actor, r.artifact)[i] == r;
    }
  }

  // Hits at rows `from` and later come from distinct rows, in the order of the rows.
  lemma {:induction false} HitsAre(rows: seq<Row>, pattern: string, h: Hit)
    ensures h in AllHits(rows, pattern) <==> h.row in rows && FirstMatch(pattern, h.row.chunk.content, h.offset)
  {
    if rows != [] {
      HitsAre(rows[1..], pattern, h);
      var at := Find(pattern, rows[0].chunk.content);
      if h.row == rows[0] && FirstMatch(pattern, h.row.chunk.content, h.offset) {
        assert at.Some?;
        assert !(at.value < h.offset) && !(h.offset < at.value);
      }
    }
  }

  // The order of the query: by artifact, then by ordinal.
  predicate RowBefore(a: Row, b: Row) {
    a.artifact < b.artifact || (a.artifact == b.artifact && a.chunk.ordinal < b.chunk.ordinal)
  }

  ghost predicate InRowOrder(rows: seq<Row>) {
    forall i, j :: 0 <= i < j < |rows| ==> RowBefore(rows[i], rows[j])
  }

  ghost predicate HitsInRowOrder(hits: seq<Hit>) {
    forall i, j :: 0 <= i < j < |hits| ==> RowBefore(hits[i].row, hits[j].row)
  }

  lemma {:induction false} HitsOrdered(rows: seq<Row>, pattern: string)
    requires InRowOrder(rows)
    ensures HitsInRowOrder(AllHits(rows, pattern))
  {
    if rows != [] {
      HitsOrdered(rows[1..], pattern);
      forall h | h in AllHits(rows[1..], pattern) ensures RowBefore(rows[0], h.row) {
        HitsAre(rows[1..], pattern, h);
        var k :| 0 <= k < |rows[1..]| && rows[1..][k] == h.row;
        assert rows[k + 1] == h.row;
      }
      hide FirstMatch, Occurs;
    }
  }

  // The chunks stored for a version are those of some text.
  ghost predicate ChunksStored(db: Db) {
    forall v :: v in db.chunks ==> exists text :: db.chunks[v] == ChunksOf(text)
  }

  lemma {:induction false} RowsOrdered(db: Db, tenant: string, actor: string, ids: seq<ArtifactId>)
    requires ChunksStored(db) && forall i, j :: 0 <= i < j < |ids| ==> ids[i] < ids[j]
    ensures InRowOrder(Rows(db, tenant, actor, ids))
  {
    if ids != [] {
      RowsOrdered(db, tenant, actor, ids[1..]);
      RowsForOrdered(db, tenant, actor, ids[0]);
      var first, rest := RowsFor(db, tenant, actor, ids[0]), Rows(db, tenant, actor, ids[1..]);
      forall a, r | a in first && r in rest ensures RowBefore(a, r) {
        RowsAre(db, tenant, actor, ids[1..], r);
        var k :| 0 <= k < |ids[1..]| && ids[1..][k] == r.artifact;
        assert ids[0] < ids[k + 1];
      }
      hide RowsFor, ChunksStored;
      OrderedJoin(first, rest);
    }
  }

  lemma OrderedJoin(a: seq<Row>, b: seq<Row>)
    requires InRowOrder(a) && InRowOrder(b) && forall x, y :: x in a && y in b ==> RowBefore(x, y)
    ensures InRowOrder(a + b)
  {
    forall i, j | 0 <= i < j < |a + b| ensures RowBefore((a + b)[i], (a + b)[j]) {
      if i < |a| <= j {
        assert b[j - |a|] in b && a[i] in a;
      }
    }
  }

  lemma RowsForOrdered(db: Db, tenant: string, actor: string, id: ArtifactId)
    requires ChunksStored(db)
    ensures InRowOrder(RowsFor(db, tenant, actor, id))
  {
    var rows := RowsFor(db, tenant, actor, id);
    if rows != [] {
      var version := db.artifacts[id].current.value;
      var text :| db.chunks[version] == ChunksOf(text);
      hide ChunksOf, Visible;
      forall i, j | 0 <= i < j < |rows| ensures RowBefore(rows[i], rows[j]) {
        ChunkAt(text, i);
        ChunkAt(text, j);
      }
    }
  }

  lemma HitsInOrder(db: Db, tenant: string, actor: string, pattern: string)
    requires ChunksStored(db)
    ensures HitsInRowOrder(AllHits(GrepRows(db, tenant, actor), pattern))
  {
    RowsOrdered(db, tenant, actor, Sorted(db.artifacts.Keys));
    HitsOrdered(GrepRows(db, tenant, actor), pattern);
  }

  /** Grep reports by artifact and ordinal, and what a limit cuts off comes after everything it reports. */
  lemma GrepReportsTheFirst(db: Db, tenant: string, actor: string, pattern: string, limit: int, r: Row)
    requires ChunksStored(db) && CurrentChunk(db, tenant, actor, r) && Occurs(pattern, r.chunk.content)
    ensures var hits := Bounded(AllHits(GrepRows(db, tenant, actor), pattern), Clamp(1, limit, MAX_GREP_RESULTS));
            && HitsInRowOrder(hits)
            && (|| (exists h :: h in hits && h.row == r)
                || (|hits| == Clamp(1, limit, MAX_GREP_RESULTS) && forall h :: h in hits ==> RowBefore(h.row, r)))
  {
    hide ChunksFrom, ChunksOf, Visible, AllHits, RowsFor, Occurs;
    var all := AllHits(GrepRows(db, tenant, actor), pattern);
    GrepRowsAre(db, tenant, actor, r);
    var at := Find(pattern, r.chunk.content);
    var mine := Hit(r, at.value);
    HitsAre(GrepRows(db, tenant, actor), pattern, mine);
    HitsInOrder(db, tenant, actor, pattern);
    var k :| 0 <= k < |all| && all[k] == mine;
    assert mine.row == r;
  }

  ghost predicate ReportedOnce(hits: seq<Hit>, pattern: string, r: Row) {
    exists i :: && 0 <= i < |hits| && hits[i].row == r
                && FirstMatch(pattern, r.chunk.content, hits[i].offset)
                && forall j :: 0 <= j < |hits| && hits[j].row == r ==> j == i
  }

  lemma ReportedThere(hits: seq<Hit>, pattern: string, h: Hit)
    requires h in hits && FirstMatch(pattern, h.row.chunk.content, h.offset)
    requires HitsInRowOrder(hits)
    ensures ReportedOnce(hits, pattern, h.row)
  {
    hide FirstMatch;
    var i :| 0 <= i < |hits| && hits[i] == h;
    assert forall j :: 0 <= j < |hits| && hits[j].row == h.row ==> j == i;
  }

  /** Below its limit grep reports every readable current chunk that contains the pattern, each once, at its first match. */
  lemma GrepIsComplete(db: Db, tenant: string, actor: string, pattern: string, limit: int, r: Row)
    requires ChunksStored(db)
    requires |Bounded(AllHits(GrepRows(db, tenant, actor), pattern), Clamp(1, limit, MAX_GREP_RESULTS))|
             < Clamp(1, limit, MAX_GREP_RESULTS)
    requires CurrentChunk(db, tenant, actor, r) && Occurs(pattern, r.chunk.content)
    ensures ReportedOnce(Bounded(AllHits(GrepRows(db, tenant, actor), pattern), Clamp(1, limit, MAX_GREP_RESULTS)),
                         pattern, r)
  {
    hide ChunksFrom, ChunksOf, Visible, AllHits, RowsFor, Occurs;
    var rows := GrepRows(db, tenant, actor);
    var hits := AllHits(rows, pattern);
    assert Bounded(hits, Clamp(1, limit, MAX_GREP_RESULTS)) == hits;
    GrepRowsAre(db, tenant, actor, r);
    var at := Find(pattern, r.chunk.content);
    HitsAre(rows, pattern, Hit(r, at.value));
    HitsInOrder(db, tenant, actor, pattern);
    hide *;
    ReportedThere(hits, pattern, Hit(r, at.value));
  }

  /** Every hit is an occurrence in the whole text, at the chunk's start plus the offset in the chunk. */
  lemma HitOccursInText(db: Db, tenant: string, actor: string, pattern: string, h: Hit, text: string)
    requires h in AllHits(GrepRows(db, tenant, actor), pattern)
    requires h.row.version in db.chunks && db.chunks[h.row.version] == ChunksOf(text)
    ensures CurrentChunk(db, tenant, actor, h.row)
    ensures MatchesAt(pattern, text, h.row.chunk.start + h.offset)
  {
    HitsAre(GrepRows(db, tenant, actor), pattern, h);
    GrepRowsAre(db, tenant, actor, h.row);
    var c := h.row.chunk;
    hide ChunksOf, AllHits, GrepRows, Visible;
    var i :| 0 <= i < |db.chunks[h.row.version]| && db.chunks[h.row.version][i] == c;
    ChunkAt(text, i);
    MatchInSlice(pattern, text, c.start, c.end, h.offset);
  }

  lemma MatchInSlice(pattern: string, text: string, start: nat, end: nat, offset: nat)
    requires start <= end <= |text| && MatchesAt(pattern, text[start..end], offset)
    ensures MatchesAt(pattern, text, start + offset)
  {
    var n, s := |pattern|, text[start..end];
    assert pattern == s[offset..offset + n];
    forall k | 0 <= k < n ensures pattern[k] == text[start + offset + k] {
      assert s[offset..offset + n][k] == s[offset + k];
    }
    assert text[start + offset..start + offset + n] == pattern;
  }
}
