// The paged export of the audit log (src/folio_lattice/service.py): pages bounded
// by a number of events and a number of bytes, joined by cursors.
module AuditExport {
  import opened Common

  const AUDIT_MAX_EVENTS_PER_EXPORT := 10_000
  const AUDIT_MAX_EXPORT_BYTES := 1024 * 1024
  const BATCH := 128

  // `size` is the length of the event's export line, `intact` whether its
  // integrity hash is right.
  datatype Entry = Entry(tenant: string, at: nat, id: nat, size: nat, intact: bool)

  // The position of an event: its time, then its id. A cursor is such a position.
  datatype Position = Position(at: nat, id: nat)

  function PositionOf(e: Entry): Position {
    Position(e.at, e.id)
  }

  predicate Before(a: Position, b: Position) {
    a.at < b.at || (a.at == b.at && a.id < b.id)
  }

  datatype Window = Window(tenant: string, from: Option<nat>, to: Option<nat>)

  datatype ExportError = InvertedWindow | NotIntact | TooLarge

  datatype Page = Page(events: seq<Entry>, next: Option<Position>)

  ghost predicate Earlier(a: Entry, b: Entry) {
    a.at < b.at || (a.at == b.at && a.id < b.id)
  }

  // The audit table in the order every query asks for; ids are unique.
  ghost predicate InOrder(log: seq<Entry>) {
    forall i, j :: 0 <= i < j < |log| ==> Earlier(log[i], log[j])
  }

  predicate Inside(w: Window, e: Entry) {
    && e.tenant == w.tenant
    && (w.from.Some? ==> w.from.value <= e.at)
    && (w.to.Some? ==> e.at <= w.to.value)
  }

  predicate Matches(w: Window, cursor: Option<Position>, e: Entry) {
    Inside(w, e) && (cursor.Some? ==> Before(cursor.value, PositionOf(e)))
  }

  // An event of the tenant, not before the window and not after it.
  ghost predicate InWindow(w: Window, e: Entry) {
    e.tenant == w.tenant && (w.from.None? || w.from.value <= e.at) && (w.to.None? || e.at <= w.to.value)
  }

  // What comes after a position, or anything without one.
  ghost predicate IsAfter(cursor: Option<Position>, e: Entry) {
    cursor.Some? ==> cursor.value.at < e.at || (cursor.value.at == e.at && cursor.value.id < e.id)
  }

  /** The rows of the query without its LIMIT. */
  function Matching(log: seq<Entry>, w: Window, cursor: Option<Position>): (rows: seq<Entry>)
    ensures forall e :: e in rows <==> e in log && InWindow(w, e) && IsAfter(cursor, e)
    ensures |rows| <= |log|
  {
    if log == [] then []
    else (if Matches(w, cursor, log[0]) then [log[0]] else []) + Matching(log[1..], w, cursor)
  }

  function Bytes(rows: seq<Entry>): nat {
    if rows == [] then 0 else Bytes(rows[..|rows| - 1]) + rows[|rows| - 1].size
  }

  // ---------------------------------------------------------------- one page

  // How many rows make the page, or why there is none.
  datatype Cut = Cut(count: nat) | Failed(error: ExportError)

  /** The page that starts with `rows[..k]`, which are `bytes` long. */
  function CutAt(rows: seq<Entry>, k: nat, bytes: nat, requested: nat): (cut: Cut)
    requires k <= |rows| && k <= requested
    ensures cut.Cut? ==> k <= cut.count <= |rows| && cut.count <= requested
    decreases |rows| - k
  {
    if k == requested || k == |rows| then Cut(k)
    else if !rows[k].intact then Failed(NotIntact)
    else if bytes + rows[k].size > AUDIT_MAX_EXPORT_BYTES then if k == 0 then Failed(TooLarge) else Cut(k)
    else CutAt(rows, k + 1, bytes + rows[k].size, requested)
  }

  function PageOf(rows: seq<Entry>, requested: nat): Result<Page, ExportError> {
    match CutAt(rows, 0, 0, requested)
    case Failed(e) => Err(e)
    case Cut(n) => Ok(Page(rows[..n], if 0 < n < |rows| then Some(PositionOf(rows[n - 1])) else None))
  }

  lemma {:induction false} LimitIsEnough(rows: seq<Entry>, k: nat, bytes: nat, requested: nat)
    requires k <= |rows| && k <= requested
    ensures k <= |rows[..Min(requested + 1, |rows|)]|
    ensures CutAt(rows[..Min(requested + 1, |rows|)], k, bytes, requested) == CutAt(rows, k, bytes, requested)
    decreases |rows| - k
  {
    if k < requested && k < |rows| {
      LimitIsEnough(rows, k + 1, bytes + rows[k].size, requested);
    }
  }

  // Where the loop over one batch may stop.
  datatype Progress = Progress(count: nat, bytes: nat, more: bool, error: Option<ExportError>)

  /**
   * The `for position, row in enumerate(batch)` loop: `batch` is
   * `rows[p.count..]`, up to `end`, and nothing was found missing before.
   */
  method OneBatch(rows: seq<Entry>, start: nat, end: nat, bytes: nat, requested: nat) returns (p: Progress)
    requires start < end <= |rows| && start < requested && end - start <= BATCH
    ensures p.error.Some? ==> CutAt(rows, start, bytes, requested) == Failed(p.error.value)
    ensures p.error.None? ==>
              && start <= p.count <= requested && p.count <= end
              && CutAt(rows, p.count, p.bytes, requested) == CutAt(rows, start, bytes, requested)
              && (p.more ==> CutAt(rows, start, bytes, requested) == Cut(p.count) && p.count < |rows|)
              && (!p.more ==> p.count == |rows| || (p.count < requested && p.count == end))
  {
    p := Progress(start, bytes, false, None);
    for position := start to end
      invariant p.count == position && p.error.None? && !p.more && position < requested
      invariant CutAt(rows, position, p.bytes, requested) == CutAt(rows, start, bytes, requested)
    {
      var row := rows[position];
      if !row.intact {
        return p.(error := Some(NotIntact));
      }
      if p.bytes + row.size > AUDIT_MAX_EXPORT_BYTES {
        if p.count == 0 {
          return p.(error := Some(TooLarge));
        }
        return p.(more := true);
      }
      p := p.(count := p.count + 1, bytes := p.bytes + row.size);
      if p.count >= requested {
        // another row of the batch, or one more to fetch
        p := p.(more := position + 1 < end || end < |rows|);
        return;
      }
    }
  }

  /** `export_audit_events`, up to the record it keeps of the export. */
  method ExportAuditEvents(log: seq<Entry>, w: Window, limit: int, cursor: Option<Position>)
    returns (r: Result<Page, ExportError>)
    ensures r == ExportOf(log, w, limit, cursor)
  {
    if w.from.Some? && w.to.Some? && w.from.value > w.to.value {
      return Err(InvertedWindow);
    }
    var requested := Clamp(1, limit, AUDIT_MAX_EVENTS_PER_EXPORT);
    var matching := Matching(log, w, cursor);
    var rows := matching[..Min(requested + 1, |matching|)];
    LimitIsEnough(matching, 0, 0, requested);
    hide CutAt;
    var p := Progress(0, 0, false, None);
    while p.count < requested && !p.more
      invariant p.error.None? && p.count <= requested && p.count <= |rows|
      invariant CutAt(rows, p.count, p.bytes, requested) == CutAt(rows, 0, 0, requested)
      invariant p.more ==> CutAt(rows, 0, 0, requested) == Cut(p.count) && p.count < |rows|
      invariant !p.more && p.count == requested ==> p.count == |rows|
      decreases |rows| - p.count, if p.more then 0 else 1
    {
      var end := Min(p.count + BATCH, |rows|);
      if end == p.count {
        break;
      }
      p := OneBatch(rows, p.count, end, p.bytes, requested);
      if p.error.Some? {
        return Err(p.error.value);
      }
    }
    CutEnds(rows, p.count, p.bytes, requested);
    PageEnds(matching, requested, p.count);
    var events := rows[..p.count];
    var next := if events != [] && p.more then Some(PositionOf(events[|events| - 1])) else None;
    r := Ok(Page(events, next));
  }

  lemma CutEnds(rows: seq<Entry>, k: nat, bytes: nat, requested: nat)
    requires k <= |rows| && k <= requested
    ensures k == requested || k == |rows| ==> CutAt(rows, k, bytes, requested) == Cut(k)
  {
  }

  lemma PageEnds(matching: seq<Entry>, requested: nat, n: nat)
    requires requested >= 1 && CutAt(matching, 0, 0, requested) == Cut(n)
    ensures var rows := matching[..Min(requested + 1, |matching|)];
            && n <= |rows| && (n < |rows| <==> n < |matching|)
            && PageOf(matching, requested)
               == Ok(Page(rows[..n], if rows[..n] != [] && n < |rows| then Some(PositionOf(rows[..n][n - 1])) else None))
  {
    assert matching[..Min(requested + 1, |matching|)][..n] == matching[..n];
  }

  function ExportOf(log: seq<Entry>, w: Window, limit: int, cursor: Option<Position>): Result<Page, ExportError> {
    if w.from.Some? && w.to.Some? && w.from.value > w.to.value then Err(InvertedWindow)
    else PageOf(Matching(log, w, cursor), Clamp(1, limit, AUDIT_MAX_EVENTS_PER_EXPORT))
  }

  // ------------------------------------------------------ what one page is

  lemma BytesGrow(rows: seq<Entry>, k: nat)
    requires k < |rows|
    ensures Bytes(rows[..k + 1]) == Bytes(rows[..k]) + rows[k].size
  {
    assert rows[..k + 1][..k] == rows[..k];
  }

  lemma {:induction false} CutMeaning(rows: seq<Entry>, k: nat, requested: nat)
    requires k <= |rows| && k <= requested && Bytes(rows[..k]) <= AUDIT_MAX_EXPORT_BYTES
    ensures match CutAt(rows, k, Bytes(rows[..k]), requested)
            case Cut(n) =>
              && Bytes(rows[..n]) <= AUDIT_MAX_EXPORT_BYTES
              && (forall i :: k <= i < n ==> rows[i].intact)
              && (n == requested || n == |rows|
                  || (n < |rows| && rows[n].intact && Bytes(rows[..n + 1]) > AUDIT_MAX_EXPORT_BYTES))
              && (k == 0 && rows != [] && requested > 0 ==> n > 0)
            case Failed(TooLarge) => k == 0 && rows != [] && rows[0].size > AUDIT_MAX_EXPORT_BYTES
            case Failed(NotIntact) => exists i :: k <= i < |rows| && !rows[i].intact
            case Failed(InvertedWindow) => false
    decreases |rows| - k
  {
    if k < requested && k < |rows| {
      BytesGrow(rows, k);
      hide Bytes;
      if rows[k].intact && Bytes(rows[..k]) + rows[k].size <= AUDIT_MAX_EXPORT_BYTES {
        CutMeaning(rows, k + 1, requested);
      }
    }
  }

  /** A page is the longest beginning of the matching log within both limits; its cursor is missing exactly at the end. */
  lemma PageIsLongestPrefix(rows: seq<Entry>, requested: nat)
    requires requested >= 1
    ensures match PageOf(rows, requested)
            case Err(e) => (e.TooLarge? ==> rows != [] && rows[0].size > AUDIT_MAX_EXPORT_BYTES)
                           && (e.NotIntact? ==> exists i :: 0 <= i < |rows| && !rows[i].intact)
                           && !e.InvertedWindow?
            case Ok(page) =>
              var n := |page.events|;
              && page.events <= rows && n <= requested && Bytes(page.events) <= AUDIT_MAX_EXPORT_BYTES
              && (forall e :: e in page.events ==> e.intact)
              && (n == |rows| || n == requested || Bytes(rows[..n + 1]) > AUDIT_MAX_EXPORT_BYTES)
              && (rows != [] ==> n > 0)
              && (page.next.None? <==> n == |rows|)
              && (page.next.Some? ==> page.next.value == PositionOf(page.events[n - 1]))
  {
    assert rows[..0] == [];
    CutMeaning(rows, 0, requested);
  }

  // --------------------------------------------------------------- all pages

  lemma {:induction false} MatchingInOrder(log: seq<Entry>, w: Window, cursor: Option<Position>)
    requires InOrder(log)
    ensures InOrder(Matching(log, w, cursor))
  {
    if log != [] {
      MatchingInOrder(log[1..], w, cursor);
      var rest := Matching(log[1..], w, cursor);
      forall j | 0 <= j < |rest| ensures Earlier(log[0], rest[j]) {
        assert rest[j] in rest;
        var i :| 0 <= i < |log[1..]| && log[1..][i] == rest[j];
        assert Earlier(log[0], log[i + 1]);
      }
    }
  }

  // The rows of `rows` after a position.
  function Later(rows: seq<Entry>, p: Position): seq<Entry> {
    if rows == [] then []
    else (if Before(p, PositionOf(rows[0])) then [rows[0]] else []) + Later(rows[1..], p)
  }

  lemma {:induction false} CursorKeepsLater(log: seq<Entry>, w: Window, p: Position)
    ensures Matching(log, w, Some(p)) == Later(Matching(log, w, None), p)
  {
    if log != [] {
      CursorKeepsLater(log[1..], w, p);
      LaterCons(log[0], Matching(log[1..], w, None), p);
      hide Before, Inside, Later;
    }
  }

  lemma LaterCons(e: Entry, rest: seq<Entry>, p: Position)
    ensures Later([e] + rest, p) == (if Before(p, PositionOf(e)) then [e] else []) + Later(rest, p)
    ensures [] + rest == rest && [] + Later(rest, p) == Later(rest, p)
  {
    assert ([e] + rest)[1..] == rest;
  }

  lemma {:induction false} LaterIsRest(rows: seq<Entry>, n: nat)
    requires InOrder(rows) && 0 < n <= |rows|
    ensures Later(rows, PositionOf(rows[n - 1])) == rows[n..]
  {
    var p := PositionOf(rows[n - 1]);
    if n > 1 {
      LaterIsRest(rows[1..], n - 1);
      assert Earlier(rows[0], rows[n - 1]) && Before(PositionOf(rows[0]), p);
      assert rows[1..][n - 1..] == rows[n..];
    } else {
      forall i | 0 <= i < |rows[1..]| ensures Before(p, PositionOf(rows[1..][i])) {
        assert Earlier(rows[0], rows[i + 1]);
      }
      AllLater(rows[1..], p);
    }
  }

  lemma {:induction false} AllLater(rows: seq<Entry>, p: Position)
    requires forall i :: 0 <= i < |rows| ==> Before(p, PositionOf(rows[i]))
    ensures Later(rows, p) == rows
  {
    if rows != [] {
      AllLater(rows[1..], p);
    }
  }

  /** The page after a cursor starts exactly where the page that gave it stopped. */
  lemma CursorContinues(log: seq<Entry>, w: Window, n: nat)
    requires InOrder(log) && 0 < n <= |Matching(log, w, None)|
    ensures Matching(log, w, Some(PositionOf(Matching(log, w, None)[n - 1]))) == Matching(log, w, None)[n..]
  {
    var rows := Matching(log, w, None);
    MatchingInOrder(log, w, None);
    CursorKeepsLater(log, w, PositionOf(rows[n - 1]));
    LaterIsRest(rows, n);
  }

  // The cursor after the first `n` of the matching rows.
  ghost function CursorAt(rows: seq<Entry>, n: nat): Option<Position>
    requires n <= |rows|
  {
    if n == 0 then None else Some(PositionOf(rows[n - 1]))
  }

  ghost predicate Exportable(rows: seq<Entry>) {
    forall i :: 0 <= i < |rows| ==> rows[i].intact && rows[i].size <= AUDIT_MAX_EXPORT_BYTES
  }

  lemma {:induction false} EachFits(rows: seq<Entry>)
    ensures forall i :: 0 <= i < |rows| ==> rows[i].size <= Bytes(rows)
  {
    if rows != [] {
      EachFits(rows[..|rows| - 1]);
    }
  }

  // What one export after the first `n` matching rows gives.
  ghost predicate Continues(rows: seq<Entry>, n: nat, result: Result<Page, ExportError>)
    requires n <= |rows|
  {
    match result
    case Err(e) => e.InvertedWindow? || !Exportable(rows[n..])
    case Ok(page) =>
      var m := n + |page.events|;
      && m <= |rows| && page.events == rows[n..m] && Exportable(page.events)
      && (page.next.None? <==> m == |rows|)
      && (page.next.Some? ==> n < m && page.next == CursorAt(rows, m))
  }

  lemma PageContinues(rows: seq<Entry>, n: nat, requested: nat)
    requires n <= |rows| && requested >= 1
    ensures Continues(rows, n, PageOf(rows[n..], requested))
  {
    PageIsLongestPrefix(rows[n..], requested);
    var result := PageOf(rows[n..], requested);
    hide PageOf, Bytes, Exportable;
    if result.Ok? {
      PrefixOfRest(rows, n, result.value.events);
      PageFits(result.value.events);
    } else {
      NotExportable(rows[n..], result.error);
    }
  }

  /**
   * Whatever else has been added to the log or purged from it: an export with the
   * cursor after the first `n` rows of the window gives the page that starts there.
   */
  lemma ExportIsNextPage(log: seq<Entry>, w: Window, limit: int, rows: seq<Entry>, n: nat)
    requires InOrder(log) && Matching(log, w, None) == rows && n <= |rows|
    requires !(w.from.Some? && w.to.Some? && w.from.value > w.to.value)
    ensures ExportOf(log, w, limit, CursorAt(rows, n))
            == PageOf(rows[n..], Clamp(1, limit, AUDIT_MAX_EVENTS_PER_EXPORT))
  {
    if n > 0 {
      CursorContinues(log, w, n);
    } else {
      assert rows[0..] == rows;
    }
    hide Matching, InOrder, PageOf;
  }

  lemma PrefixOfRest(rows: seq<Entry>, n: nat, events: seq<Entry>)
    requires n <= |rows| && events <= rows[n..]
    ensures n + |events| <= |rows| && events == rows[n..n + |events|]
    ensures events != [] ==> events[|events| - 1] == rows[n + |events| - 1]
  {
  }

  lemma PageFits(events: seq<Entry>)
    requires Bytes(events) <= AUDIT_MAX_EXPORT_BYTES && forall e :: e in events ==> e.intact
    ensures Exportable(events)
  {
    EachFits(events);
    assert forall i :: 0 <= i < |events| ==> events[i] in events;
  }

  lemma NotExportable(rest: seq<Entry>, e: ExportError)
    requires e.TooLarge? ==> rest != [] && rest[0].size > AUDIT_MAX_EXPORT_BYTES
    requires e.NotIntact? ==> exists i :: 0 <= i < |rest| && !rest[i].intact
    ensures e.InvertedWindow? || !Exportable(rest)
  {
  }

  lemma SplitAt(rows: seq<Entry>, n: nat, m: nat)
    requires n <= m <= |rows|
    ensures rows[n..m] + rows[m..] == rows[n..]
    ensures m == |rows| ==> rows[n..m] == rows[n..]
    ensures Exportable(rows[n..]) <==> Exportable(rows[n..m]) && Exportable(rows[m..])
  {
    ExportableJoin(rows[n..m], rows[m..]);
    assert rows[n..m] + rows[m..] == rows[n..];
  }

  /** The pages from the first `n` rows on, each one the page after the cursor of the one before. */
  ghost function Pages(rows: seq<Entry>, n: nat, requested: nat): Result<seq<seq<Entry>>, ExportError>
    requires n <= |rows| && requested >= 1
    decreases |rows| - n
  {
    PageContinues(rows, n, requested);
    match PageOf(rows[n..], requested)
    case Err(e) => Err(e)
    case Ok(page) =>
      if page.next.None? then Ok([page.events])
      else
        match Pages(rows, n + |page.events|, requested)
        case Err(e) => Err(e)
        case Ok(rest) => Ok([page.events] + rest)
  }

  function Concat(pages: seq<seq<Entry>>): seq<Entry> {
    if pages == [] then [] else pages[0] + Concat(pages[1..])
  }

  lemma ConcatFirst(first: seq<Entry>, rest: seq<seq<Entry>>)
    ensures Concat([first] + rest) == first + Concat(rest)
  {
    assert ([first] + rest)[1..] == rest;
  }

  lemma JoinRest(first: seq<Entry>, rest: seq<seq<Entry>>, rows: seq<Entry>, n: nat, m: nat)
    requires n <= m <= |rows| && first == rows[n..m] && Concat(rest) == rows[m..]
    ensures Concat([first] + rest) == rows[n..]
  {
    ConcatFirst(first, rest);
    SplitAt(rows, n, m);
  }

  lemma LastPage(first: seq<Entry>, rows: seq<Entry>, n: nat)
    requires n <= |rows| && first == rows[n..|rows|]
    ensures Concat([first]) == rows[n..]
  {
    assert [first][1..] == [];
    SplitAt(rows, n, |rows|);
  }

  /** The pages concatenate to exactly the matching log: no gap, no repeat. */
  lemma {:induction false} PagesMakeTheLog(rows: seq<Entry>, n: nat, requested: nat)
    requires n <= |rows| && requested >= 1
    ensures Pages(rows, n, requested).Ok? ==> Concat(Pages(rows, n, requested).value) == rows[n..]
    decreases |rows| - n
  {
    PageContinues(rows, n, requested);
    var page := PageOf(rows[n..], requested);
    hide PageOf, Concat, Exportable, CursorAt, PositionOf, Bytes, Before;
    if page.Ok? && Pages(rows, n, requested).Ok? {
      ContinuesSlice(rows, n, page);
      var m := n + |page.value.events|;
      if page.value.next.Some? {
        PagesMakeTheLog(rows, m, requested);
        JoinRest(page.value.events, Pages(rows, m, requested).value, rows, n, m);
      } else {
        LastPage(page.value.events, rows, n);
      }
    }
  }

  lemma ContinuesSlice(rows: seq<Entry>, n: nat, result: Result<Page, ExportError>)
    requires n <= |rows| && result.Ok? && Continues(rows, n, result)
    ensures var m := n + |result.value.events|;
            m <= |rows| && result.value.events == rows[n..m] && Exportable(rows[n..m])
            && (result.value.next.None? <==> m == |rows|)
            && (m == |rows| ==> rows[n..m] == rows[n..|rows|] == rows[n..])
  {
  }

  /** The export gets to the end exactly when every matching event is intact and fits a page on its own. */
  lemma {:induction false} ExportGetsThrough(rows: seq<Entry>, n: nat, requested: nat)
    requires n <= |rows| && requested >= 1
    ensures Pages(rows, n, requested).Ok? <==> Exportable(rows[n..])
    decreases |rows| - n
  {
    PageContinues(rows, n, requested);
    NoInvertedPage(rows[n..], requested);
    var page := PageOf(rows[n..], requested);
    hide PageOf, Exportable, CursorAt;
    if page.Ok? {
      ContinuesSlice(rows, n, page);
      var m := n + |page.value.events|;
      SplitAt(rows, n, m);
      if page.value.next.Some? {
        ExportGetsThrough(rows, m, requested);
      }
    }
  }

  lemma NoInvertedPage(rows: seq<Entry>, requested: nat)
    requires requested >= 1
    ensures PageOf(rows, requested) != Err(InvertedWindow)
  {
    PageIsLongestPrefix(rows, requested);
  }

  lemma ExportableJoin(a: seq<Entry>, b: seq<Entry>)
    ensures Exportable(a + b) <==> Exportable(a) && Exportable(b)
  {
    if Exportable(a + b) {
      assert forall i :: 0 <= i < |a| ==> a[i] == (a + b)[i];
      assert forall i :: 0 <= i < |b| ==> b[i] == (a + b)[|a| + i];
    }
  }

  // ------------------------------------------- calls that follow the cursors

  // One call of the export: the log it finds, the limit it asks for, its page.
  datatype Call = Call(log: seq<Entry>, limit: int, page: Page)

  // The cursor handed out by the last call.
  ghost function LastCursor(calls: seq<Call>): Option<Position> {
    if calls == [] then None else calls[|calls| - 1].page.next
  }

  ghost function EventsOf(calls: seq<Call>): seq<Entry> {
    if calls == [] then [] else EventsOf(calls[..|calls| - 1]) + calls[|calls| - 1].page.events
  }

  // A log with just these rows inside the window; what else it holds is open.
  ghost predicate HasWindow(log: seq<Entry>, w: Window, rows: seq<Entry>) {
    && !(w.from.Some? && w.to.Some? && w.from.value > w.to.value)
    && InOrder(log) && InOrder(rows)
    && forall e :: e in rows <==> e in log && InWindow(w, e)
  }

  lemma {:induction false} SameInOrder(a: seq<Entry>, b: seq<Entry>)
    requires InOrder(a) && InOrder(b) && forall e :: e in a <==> e in b
    ensures a == b
  {
    assert (a != [] ==> a[0] in b) && (b != [] ==> b[0] in a);
    if a != [] {
      FirstIsSame(a, b);
      forall e ensures e in a[1..] <==> e in b[1..] {
        TailHas(a, e);
        TailHas(b, e);
      }
      SameInOrder(a[1..], b[1..]);
      assert a == [a[0]] + a[1..] && b == [b[0]] + b[1..];
    }
  }

  lemma FirstIsSame(a: seq<Entry>, b: seq<Entry>)
    requires InOrder(a) && InOrder(b) && a != [] && b != [] && a[0] in b && b[0] in a
    ensures a[0] == b[0]
  {
    var i :| 0 <= i < |b| && b[i] == a[0];
    var j :| 0 <= j < |a| && a[j] == b[0];
    assert j > 0 ==> Earlier(a[0], a[j]);
    assert i > 0 ==> Earlier(b[0], b[i]);
  }

  lemma TailHas(a: seq<Entry>, e: Entry)
    requires InOrder(a) && a != []
    ensures e in a[1..] <==> e in a && e != a[0]
  {
    if e in a && e != a[0] {
      var i :| 0 <= i < |a| && a[i] == e;
      assert a[1..][i - 1] == e;
    }
    if e in a[1..] {
      var i :| 0 <= i < |a[1..]| && a[1..][i] == e;
      assert Earlier(a[0], a[i + 1]);
    }
  }

  /** The query without its cursor selects just the rows inside the window. */
  lemma MatchingIsWindow(log: seq<Entry>, w: Window, rows: seq<Entry>)
    requires HasWindow(log, w, rows)
    ensures Matching(log, w, None) == rows
  {
    MatchingInOrder(log, w, None);
    SameInOrder(Matching(log, w, None), rows);
  }

  /**
   * Whatever is exported was in the log, belongs to the tenant, lies in the window,
   * both ends included, and comes after the event that the cursor names.
   */
  lemma ExportedBelongs(log: seq<Entry>, w: Window, limit: int, cursor: Option<Position>, e: Entry)
    requires var r := ExportOf(log, w, limit, cursor); r.Ok? && e in r.value.events
    ensures e in log && InWindow(w, e) && IsAfter(cursor, e)
  {
    var rows := Matching(log, w, cursor);
    PageIsLongestPrefix(rows, Clamp(1, limit, AUDIT_MAX_EVENTS_PER_EXPORT));
    assert ExportOf(log, w, limit, cursor).value.events <= rows;
    hide ExportOf, PageOf, Matching, Bytes;
  }

  // Each call hands on the cursor of the one before, over a log that may have
  // grown or been purged in between, but not inside the window.
  ghost predicate Followed(calls: seq<Call>, w: Window, rows: seq<Entry>) {
    calls != [] ==>
      var init, last := calls[..|calls| - 1], calls[|calls| - 1];
      && Followed(init, w, rows) && (init != [] ==> LastCursor(init).Some?)
      && HasWindow(last.log, w, rows)
      && ExportOf(last.log, w, last.limit, LastCursor(init)) == Ok(last.page)
  }

  // How far the pages have come.
  ghost predicate Reached(calls: seq<Call>, rows: seq<Entry>) {
    var n := |EventsOf(calls)|;
    && n <= |rows| && EventsOf(calls) == rows[..n]
    && (calls != [] ==> (LastCursor(calls).None? <==> n == |rows|))
    && (calls == [] || LastCursor(calls).Some? ==> LastCursor(calls) == CursorAt(rows, n))
    && (rows != [] ==> |calls| <= n)
  }

  lemma OneMorePage(rows: seq<Entry>, calls: seq<Call>, call: Call)
    requires Reached(calls, rows) && (calls != [] ==> LastCursor(calls).Some?)
    requires Continues(rows, |EventsOf(calls)|, Ok(call.page))
    ensures Reached(calls + [call], rows)
  {
    hide Exportable;
    var n := |EventsOf(calls)|;
    var m := n + |call.page.events|;
    assert (calls + [call])[..|calls|] == calls;
    assert rows[..n] + rows[n..m] == rows[..m];
  }

  // The next call continues where the last one stopped.
  lemma NextCall(calls: seq<Call>, w: Window, rows: seq<Entry>, log: seq<Entry>, limit: int)
    requires Reached(calls, rows) && (calls != [] ==> LastCursor(calls).Some?) && HasWindow(log, w, rows)
    ensures var n, result := |EventsOf(calls)|, ExportOf(log, w, limit, LastCursor(calls));
            Continues(rows, n, result) && result != Err(InvertedWindow)
  {
    var n, requested := |EventsOf(calls)|, Clamp(1, limit, AUDIT_MAX_EVENTS_PER_EXPORT);
    MatchingIsWindow(log, w, rows);
    ExportIsNextPage(log, w, limit, rows, n);
    hide Matching, PageOf, InOrder, Continues, ExportOf, EventsOf;
    PageContinues(rows, n, requested);
    NoInvertedPage(rows[n..], requested);
  }

  /**
   * Whatever limits the calls ask for and whatever happens to the log outside the
   * window: the pages concatenate to a beginning of the window's rows, without gap
   * or repeat, and to all of them exactly when the last page has no cursor. With
   * rows in the window there are no more calls than rows.
   */
  lemma {:induction false} FollowedPagesMakeTheLog(calls: seq<Call>, w: Window, rows: seq<Entry>)
    requires Followed(calls, w, rows)
    ensures Reached(calls, rows)
  {
    if calls != [] {
      var init, last := calls[..|calls| - 1], calls[|calls| - 1];
      assert Followed(init, w, rows) && (init != [] ==> LastCursor(init).Some?) && HasWindow(last.log, w, rows)
             && ExportOf(last.log, w, last.limit, LastCursor(init)) == Ok(last.page);
      hide *;
      FollowedPagesMakeTheLog(init, w, rows);
      OneMoreCall(init, w, rows, last);
      assert calls == init + [last];
    }
  }

  lemma OneMoreCall(calls: seq<Call>, w: Window, rows: seq<Entry>, next: Call)
    requires Reached(calls, rows) && (calls != [] ==> LastCursor(calls).Some?) && HasWindow(next.log, w, rows)
    requires ExportOf(next.log, w, next.limit, LastCursor(calls)) == Ok(next.page)
    ensures Reached(calls + [next], rows)
  {
    NextCall(calls, w, rows, next.log, next.limit);
    hide *;
    OneMorePage(rows, calls, next);
  }

  /**
   * As long as there is a cursor the next call gives another page, if every row of
   * the window is intact and fits the byte limit on its own.
   */
  lemma FollowingGoesOn(calls: seq<Call>, w: Window, rows: seq<Entry>, log: seq<Entry>, limit: int)
    requires Followed(calls, w, rows) && (calls != [] ==> LastCursor(calls).Some?) && HasWindow(log, w, rows)
    requires Exportable(rows)
    ensures var result := ExportOf(log, w, limit, LastCursor(calls));
            result.Ok? && Followed(calls + [Call(log, limit, result.value)], w, rows)
  {
    FollowedPagesMakeTheLog(calls, w, rows);
    NextCall(calls, w, rows, log, limit);
    var result := ExportOf(log, w, limit, LastCursor(calls));
    hide ExportOf, HasWindow;
    assert Exportable(rows[|EventsOf(calls)|..]);
    assert (calls + [Call(log, limit, result.value)])[..|calls|] == calls;
  }

  lemma RowsDiffer(rows: seq<Entry>, i: nat, k: nat)
    requires InOrder(rows) && i < |rows| && k < |rows|
    ensures i != k ==> rows[i] != rows[k]
  {
    assert i < k ==> Earlier(rows[i], rows[k]);
    assert k < i ==> Earlier(rows[k], rows[i]);
  }

  /** When the last page has no cursor, every event of the tenant in the window is on the pages, and just once. */
  lemma EveryEventOnOnePage(calls: seq<Call>, w: Window, rows: seq<Entry>, e: Entry) returns (k: nat)
    requires Followed(calls, w, rows) && calls != [] && LastCursor(calls).None?
    requires e in calls[|calls| - 1].log && InWindow(w, e)
    ensures k < |EventsOf(calls)| && EventsOf(calls)[k] == e
    ensures forall i :: 0 <= i < |EventsOf(calls)| && EventsOf(calls)[i] == e ==> i == k
  {
    FollowedPagesMakeTheLog(calls, w, rows);
    assert HasWindow(calls[|calls| - 1].log, w, rows);
    assert EventsOf(calls) == rows && e in rows;
    hide EventsOf, Followed;
    k :| 0 <= k < |rows| && rows[k] == e;
    forall i | 0 <= i < |rows| && rows[i] == e ensures i == k {
      RowsDiffer(rows, i, k);
    }
  }
}
