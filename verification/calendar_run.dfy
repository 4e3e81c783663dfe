/**
 * The sync run itself (crates/calendar/src/sync.rs:45-214, 264-448): an object whose tables change as transactions
 * commit.
 *
 * The environment is a script of answers, one per question the run asks it (is the token cancelled, what is the next
 * page, did this transaction go through); a script that has run out answers "cancelled". A contract that holds for
 * every script therefore holds for every page sequence and every error or cancellation point.
 *
 * The ghost journal records each committed row change and each completed window pull. `Valid` ties it to the tables,
 * to the `mutated` flag and to the rules a reconcile must follow.
 */
module CalendarRun {
  import opened Wrappers
  import opened CalendarSync

  // ---------------------------------------------------------------- pages

  datatype Page = Page(items: seq<RemoteEvent>, failedIds: set<string>, next: Option<string>)

  /** A request to the backend and the page it returned. */
  datatype Fetched = Fetched(source: string, window: Window, cursor: Option<string>, page: Page)

  datatype Answer = Answer(cancelled: bool, error: Option<string>, page: Page)

  datatype PullResult = PullResult(seen: set<string>, failed: set<string>)

  function ItemsOf(pages: seq<Fetched>): (r: seq<RemoteEvent>) {
    if pages == [] then [] else ItemsOf(pages[..|pages| - 1]) + pages[|pages| - 1].page.items
  }

  function FailedOf(pages: seq<Fetched>): (r: set<string>) {
    if pages == [] then {} else FailedOf(pages[..|pages| - 1]) + pages[|pages| - 1].page.failedIds
  }

  /** The cursor of the request that follows these pages. */
  function NextCursor(pages: seq<Fetched>): (r: Option<string>) {
    if pages == [] then None else pages[|pages| - 1].page.next
  }

  /** This request asks for what the page before it pointed to; the first one asks without a cursor. */
  predicate Linked(pages: seq<Fetched>, i: nat)
    requires i < |pages|
  {
    if i == 0 then pages[0].cursor == None
    else pages[i].cursor.Some? && pages[i].cursor == pages[i - 1].page.next
  }

  /** Requests for one source and window, each linked to the page before it. */
  ghost predicate Chained(pages: seq<Fetched>, source: string, w: Window) {
    && (forall i :: 0 <= i < |pages| ==> pages[i].source == source && pages[i].window == w)
    && (forall i :: 0 <= i < |pages| ==> Linked(pages, i))
  }

  ghost predicate Complete(pages: seq<Fetched>, source: string, w: Window) {
    pages != [] && Chained(pages, source, w) && NextCursor(pages) == None
  }

  lemma ChainGrows(pages: seq<Fetched>, next: Fetched, source: string, w: Window)
    requires Chained(pages, source, w) && next.source == source && next.window == w && next.cursor == NextCursor(pages)
    requires pages == [] || NextCursor(pages).Some?
    ensures Chained(pages + [next], source, w)
    ensures ItemsOf(pages + [next]) == ItemsOf(pages) + next.page.items
    ensures FailedOf(pages + [next]) == FailedOf(pages) + next.page.failedIds
    ensures NextCursor(pages + [next]) == next.page.next
  {
    var longer := pages + [next];
    assert longer[..|pages|] == pages;
    forall i | 0 <= i < |longer| ensures Linked(longer, i) {
      assert i < |pages| ==> Linked(pages, i);
    }
  }

  lemma KeysConcat(a: seq<RemoteEvent>, b: seq<RemoteEvent>)
    ensures Keys(a + b) == Keys(a) + Keys(b)
  {
    forall key
      ensures key in Keys(a + b) <==> key in Keys(a) || key in Keys(b)
    {
      if i :| 0 <= i < |a| && a[i].key == key {
        assert (a + b)[i].key == key;
      }
      if i :| 0 <= i < |b| && b[i].key == key {
        assert (a + b)[|a| + i].key == key;
      }
    }
  }

  /** A pull in progress: the pages so far are chained and stored, and the next request asks for `cursor`. */
  ghost predicate Pulling(before: Events, after: Events, calendar: string, source: string, w: Window, pages: seq<Fetched>,
                    cursor: Option<string>, sofar: PullResult)
  {
    && Chained(pages, source, w) && cursor == NextCursor(pages)
    && after == UpsertAll(before, calendar, ItemsOf(pages))
    && sofar == PullResult(Keys(ItemsOf(pages)), FailedOf(pages))
  }

  lemma PullGrows(before: Events, after: Events, calendar: string, source: string, w: Window, pages: seq<Fetched>,
                  cursor: Option<string>, sofar: PullResult, page: Page)
    requires Pulling(before, after, calendar, source, w, pages, cursor, sofar) && (pages == [] || cursor.Some?)
    ensures Pulling(before, UpsertAll(after, calendar, page.items), calendar, source, w,
                    pages + [Fetched(source, w, cursor, page)], page.next,
                    PullResult(sofar.seen + Keys(page.items), sofar.failed + page.failedIds))
  {
    ChainGrows(pages, Fetched(source, w, cursor, page), source, w);
    KeysConcat(ItemsOf(pages), page.items);
    UpsertAllConcat(before, calendar, ItemsOf(pages), page.items);
  }

  // ---------------------------------------------------------------- journal

  datatype Mark =
    | EventWritten(key: string, row: Row)
    | EventReconciled(key: string, row: Row)
    | CalendarWritten(remoteId: string, calendarRow: CalendarRow)
    | CalendarsStamped(remoteIds: set<string>, atMs: int)
    | CalendarsReaped(remoteIds: set<string>)
    | WindowPulled(calendar: string, source: string, pages: seq<Fetched>)
    | HistoryStamped(calendar: string, atMs: int)

  function HistoryMarked(calendars: Calendars, calendar: string, nowMs: int): (r: Calendars) {
    map r | r in calendars ::
      if calendars[r].id == calendar then calendars[r].(backfilledAt := Some(nowMs)) else calendars[r]
  }

  function Applied(t: Tables, m: Mark): (r: Tables) {
    match m
    case EventWritten(key, row) => t.(events := t.events[key := row])
    case EventReconciled(key, _) => t.(events := t.events - {key})
    case CalendarWritten(remoteId, row) => t.(calendars := t.calendars[remoteId := row])
    case CalendarsStamped(remoteIds, atMs) => t.(calendars := Stamped(t.calendars, remoteIds, atMs))
    case CalendarsReaped(remoteIds) => Reaped(t, remoteIds)
    case WindowPulled(_, _, _) => t
    case HistoryStamped(calendar, atMs) => t.(calendars := HistoryMarked(t.calendars, calendar, atMs))
  }

  /** The history stamp alone is not a change the run reports. */
  predicate ChangesARow(m: Mark) {
    !m.WindowPulled? && !m.HistoryStamped?
  }

  ghost function Replay(origin: Tables, journal: seq<Mark>): (r: Tables) {
    if journal == [] then origin else Applied(Replay(origin, journal[..|journal| - 1]), journal[|journal| - 1])
  }

  /** What a run is given: RRULE expansion, the range of the timestamp library, the clock. */
  datatype Setting = Setting(expands: Expansion, representable: int -> bool, nowMs: int)

  function PullWindow(s: Setting): (r: Window) {
    PulledWindow(s.representable, s.nowMs)
  }

  /** What allows a reconcile to remove this row, given a completed pull. */
  ghost predicate Justifies(s: Setting, pulled: Mark, key: string, row: Row) {
    && pulled.WindowPulled? && pulled.calendar == row.calendar
    && Complete(pulled.pages, pulled.source, PullWindow(s))
    && ItemsOf(pulled.pages) != [] && key !in Keys(ItemsOf(pulled.pages))
    && !ReportedFailed(row.data, FailedOf(pulled.pages))
    && Intersects(s.expands, row.data, ReconciledWindow(s.nowMs))
  }

  /**
   * A mark that may follow the journal: it changes the tables if it counts as a change, and a removed row was there,
   * with a completed pull before it that justifies the removal.
   */
  ghost predicate Genuine(s: Setting, origin: Tables, journal: seq<Mark>, m: Mark) {
    var t := Replay(origin, journal);
    && (ChangesARow(m) ==> Applied(t, m) != t)
    && (m.EventReconciled? ==>
          && m.key in t.events && t.events[m.key] == m.row
          && exists j :: 0 <= j < |journal| && Justifies(s, journal[j], m.key, m.row))
  }

  ghost predicate Recorded(s: Setting, origin: Tables, journal: seq<Mark>) {
    journal == [] ||
    (Recorded(s, origin, journal[..|journal| - 1]) && Genuine(s, origin, journal[..|journal| - 1], journal[|journal| - 1]))
  }

  ghost predicate RowChanged(journal: seq<Mark>) {
    exists i :: 0 <= i < |journal| && ChangesARow(journal[i])
  }

  /** Every completed pull in the journal consists of pages that were fetched, in this order. */
  ghost predicate PullsFetched(journal: seq<Mark>, fetched: seq<Fetched>) {
    forall i :: 0 <= i < |journal| && journal[i].WindowPulled? ==> Within(journal[i].pages, fetched)
  }

  ghost predicate Within(pages: seq<Fetched>, fetched: seq<Fetched>) {
    exists k :: 0 <= k <= |fetched| && pages <= fetched[k..]
  }

  lemma StillWithin(journal: seq<Mark>, fetched: seq<Fetched>, next: Fetched)
    requires PullsFetched(journal, fetched)
    ensures PullsFetched(journal, fetched + [next])
  {
    forall i | 0 <= i < |journal| && journal[i].WindowPulled?
      ensures Within(journal[i].pages, fetched + [next])
    {
      var k :| 0 <= k <= |fetched| && journal[i].pages <= fetched[k..];
      assert (fetched + [next])[k..] == fetched[k..] + [next];
    }
  }

  /** One more genuine mark. */
  lemma Extended(s: Setting, origin: Tables, journal: seq<Mark>, m: Mark)
    requires Recorded(s, origin, journal) && Genuine(s, origin, journal, m)
    ensures Recorded(s, origin, journal + [m])
    ensures Replay(origin, journal + [m]) == Applied(Replay(origin, journal), m)
    ensures RowChanged(journal + [m]) <==> RowChanged(journal) || ChangesARow(m)
  {
    var longer := journal + [m];
    assert longer[..|longer| - 1] == journal;
    assert longer[|journal|] == m;
    assert forall i :: 0 <= i < |journal| ==> longer[i] == journal[i];
  }

  /** Read at any position: each mark of a recorded journal is genuine there. */
  lemma {:induction false} RecordedAt(s: Setting, origin: Tables, journal: seq<Mark>, i: nat)
    requires Recorded(s, origin, journal) && i < |journal|
    ensures Genuine(s, origin, journal[..i], journal[i])
  {
    var before := journal[..|journal| - 1];
    if i < |before| {
      RecordedAt(s, origin, before, i);
      assert before[..i] == journal[..i];
    }
  }

  /** The journal went on with event writes only. */
  ghost predicate OnlyWrote(before: seq<Mark>, after: seq<Mark>) {
    before <= after && forall i :: |before| <= i < |after| ==> after[i].EventWritten?
  }

  /** The journal went on with event writes and history stamps only: nothing was removed. */
  ghost predicate OnlyBackfilled(before: seq<Mark>, after: seq<Mark>) {
    before <= after && forall i :: |before| <= i < |after| ==> after[i].EventWritten? || after[i].HistoryStamped?
  }

  /** The journal of a transaction in progress: what it adds to `base` is genuine and leads to the tables `t`. */
  ghost predicate Drafts(s: Setting, origin: Tables, base: seq<Mark>, draft: seq<Mark>, t: Tables) {
    && base <= draft && Recorded(s, origin, draft) && Replay(origin, draft) == t
    && (forall i :: |base| <= i < |draft| ==> ChangesARow(draft[i]))
    && (RowChanged(draft) <==> RowChanged(base) || draft != base)
  }

  lemma DraftGrows(s: Setting, origin: Tables, base: seq<Mark>, draft: seq<Mark>, t: Tables, m: Mark)
    requires Drafts(s, origin, base, draft, t) && Genuine(s, origin, draft, m) && ChangesARow(m)
    ensures Drafts(s, origin, base, draft + [m], Applied(t, m))
  {
    Extended(s, origin, draft, m);
  }

  lemma WriteGrows(s: Setting, origin: Tables, base: seq<Mark>, draft: seq<Mark>, t: Tables, key: string, row: Row)
    requires Drafts(s, origin, base, draft, t) && (key !in t.events || t.events[key] != row)
    ensures Drafts(s, origin, base, draft + [EventWritten(key, row)], t.(events := t.events[key := row]))
  {
    var m := EventWritten(key, row);
    assert Applied(t, m).events[key] == row;
    DraftGrows(s, origin, base, draft, t, m);
  }

  lemma DraftKeepsPulls(s: Setting, origin: Tables, base: seq<Mark>, draft: seq<Mark>, t: Tables, fetched: seq<Fetched>)
    requires Drafts(s, origin, base, draft, t) && PullsFetched(base, fetched)
    ensures PullsFetched(draft, fetched)
  {
    assert forall i :: 0 <= i < |base| ==> draft[i] == base[i];
  }

  // ---------------------------------------------------------------- the run

  function RequestWindow(s: Setting, startMs: int, endMs: int): (r: Window) {
    Window(EpochTime(s.representable, startMs), EpochTime(s.representable, endMs))
  }

  /** What a pull of this range leaves behind: on success a complete chain of pages, all of it stored. */
  ghost predicate Pulled(s: Setting, r: Result<PullResult, string>, before: Events, after: Events,
                         calendar: string, source: string, startMs: int, endMs: int, pages: seq<Fetched>)
  {
    && Chained(pages, source, RequestWindow(s, startMs, endMs))
    && match r {
         case Ok(pulled) =>
           && pages != [] && NextCursor(pages) == None
           && after == UpsertAll(before, calendar, ItemsOf(pages))
           && pulled == PullResult(Keys(ItemsOf(pages)), FailedOf(pages))
         case Err(_) =>
           || after == UpsertAll(before, calendar, ItemsOf(pages))
           || (pages != [] && after == UpsertAll(before, calendar, ItemsOf(pages[..|pages| - 1])))
       }
  }

  lemma Tail(before: seq<Fetched>, pages: seq<Fetched>, after: seq<Fetched>)
    requires after == before + pages
    ensures before <= after && after[|before|..] == pages
  {
  }

  /** Stopped by an error, perhaps after one more page was fetched. */
  lemma PullStops(s: Setting, before: Events, after: Events, calendar: string, source: string, startMs: int, endMs: int,
                  pages: seq<Fetched>, cursor: Option<string>, sofar: PullResult, asked: seq<Fetched>, error: string)
    requires Pulling(before, after, calendar, source, RequestWindow(s, startMs, endMs), pages, cursor, sofar)
    requires pages == [] || cursor.Some?
    requires asked == [] || exists page :: asked == [Fetched(source, RequestWindow(s, startMs, endMs), cursor, page)]
    ensures Pulled(s, Err(error), before, after, calendar, source, startMs, endMs, pages + asked)
  {
    if asked == [] {
      assert pages + asked == pages;
    } else {
      PullGrows(before, after, calendar, source, RequestWindow(s, startMs, endMs), pages, cursor, sofar, asked[0].page);
      assert (pages + asked)[..|pages + asked| - 1] == pages;
    }
  }

  // ---------------------------------------------------------------- reconcile steps

  lemma RemovalGrows(s: Setting, origin: Tables, base: seq<Mark>, draft: seq<Mark>, t: Tables, key: string, at: nat)
    requires Drafts(s, origin, base, draft, t) && key in t.events
    requires at < |draft| && Justifies(s, draft[at], key, t.events[key])
    ensures Drafts(s, origin, base, draft + [EventReconciled(key, t.events[key])], t.(events := t.events - {key}))
  {
    var m := EventReconciled(key, t.events[key]);
    assert key !in Applied(t, m).events;
    DraftGrows(s, origin, base, draft, t, m);
  }

  /** The rows left once every candidate outside `todo` was looked at. */
  ghost function PartlyReconciled(expands: Expansion, events: Events, calendar: string, w: Window,
                                  seen: set<string>, failed: set<string>, todo: set<string>): (r: Events)
  {
    map key | key in events && (key in todo || !Gone(expands, calendar, w, seen, failed, key, events[key])) :: events[key]
  }

  /** At this position of the journal stands the calendar's completed window pull with these keys and failures. */
  ghost predicate PullAt(s: Setting, journal: seq<Mark>, at: nat, calendar: string, seen: set<string>, failed: set<string>) {
    && at < |journal| && journal[at].WindowPulled? && journal[at].calendar == calendar
    && Complete(journal[at].pages, journal[at].source, PullWindow(s))
    && seen == Keys(ItemsOf(journal[at].pages)) && failed == FailedOf(journal[at].pages)
  }

  // ---------------------------------------------------------------- transaction bodies

  /** The statements of one page's transaction, on a working copy of the rows. Returns whether a row changed. */
  method UpsertRows(s: Setting, ghost origin: Tables, ghost base: seq<Mark>, t: Tables, calendar: string, items: seq<RemoteEvent>)
    returns (rows: Events, changed: bool, ghost draft: seq<Mark>)
    requires Recorded(s, origin, base) && Replay(origin, base) == t
    ensures rows == UpsertAll(t.events, calendar, items)
    ensures Drafts(s, origin, base, draft, Tables(rows, t.calendars)) && OnlyWrote(base, draft)
    ensures changed <==> draft != base
  {
    rows, changed, draft := t.events, false, base;
    for i := 0 to |items|
      invariant rows == UpsertAll(t.events, calendar, items[..i])
      invariant Drafts(s, origin, base, draft, Tables(rows, t.calendars)) && OnlyWrote(base, draft)
      invariant changed <==> draft != base
    {
      assert items[..i + 1][..i] == items[..i];
      var event := items[i];
      if event.data == None {
        continue;
      }
      var row := Row(calendar, event.data.value);
      if event.key !in rows || rows[event.key] != row {
        WriteGrows(s, origin, base, draft, Tables(rows, t.calendars), event.key, row);
        draft := draft + [EventWritten(event.key, row)];
        changed := true;
      }
      rows := rows[event.key := row];
    }
    assert items[..|items|] == items;
  }

  /** The statements of the reconcile transaction, on a working copy; the candidates come in any order. */
  method DeleteRows(s: Setting, ghost origin: Tables, ghost base: seq<Mark>, t: Tables, calendar: string,
                    seen: set<string>, failed: set<string>, ghost at: nat)
    returns (rows: Events, deleted: nat, ghost draft: seq<Mark>)
    requires Recorded(s, origin, base) && Replay(origin, base) == t && seen != {}
    requires PullAt(s, base, at, calendar, seen, failed)
    ensures rows == Reconciled(s.expands, t.events, calendar, ReconciledWindow(s.nowMs), seen, failed)
    ensures Drafts(s, origin, base, draft, Tables(rows, t.calendars))
    ensures deleted == |draft| - |base|
  {
    var w := ReconciledWindow(s.nowMs);
    rows, deleted, draft := t.events, 0, base;
    var todo := set key | key in t.events && t.events[key].calendar == calendar && IsCandidate(t.events[key].data, w);
    while todo != {}
      invariant forall key :: key in todo ==> key in t.events && t.events[key].calendar == calendar && IsCandidate(t.events[key].data, w)
      invariant rows == PartlyReconciled(s.expands, t.events, calendar, w, seen, failed, todo)
      invariant Drafts(s, origin, base, draft, Tables(rows, t.calendars))
      invariant deleted == |draft| - |base|
      decreases |todo|
    {
      var key :| key in todo;
      var row := t.events[key];
      PartlyStep(s.expands, t.events, calendar, w, seen, failed, todo, key);
      todo := todo - {key};
      if key in seen {
        continue;
      }
      if row.data.remoteId.Some? && row.data.remoteId.value in failed {
        continue;
      }
      if !ShouldDeleteAbsentCandidate(s.expands, row.data, w) {
        continue;
      }
      GoneMeansIntersecting(s.expands, calendar, w, seen, failed, key, row);
      assert Justifies(s, draft[at], key, row);
      RemovalGrows(s, origin, base, draft, Tables(rows, t.calendars), key, at);
      draft := draft + [EventReconciled(key, row)];
      rows := rows - {key};
      deleted := deleted + 1;
    }
  }

  /** Discovery, first part: insert or refresh each listed calendar. */
  method UpsertCalendars(s: Setting, ghost origin: Tables, ghost base: seq<Mark>, t: Tables, listed: seq<Listed>)
    returns (rows: Calendars, changed: bool, ghost draft: seq<Mark>)
    requires Recorded(s, origin, base) && Replay(origin, base) == t
    ensures rows == UpsertListed(t.calendars, listed)
    ensures Drafts(s, origin, base, draft, Tables(t.events, rows)) && NothingReconciled(base, draft)
    ensures changed <==> draft != base
  {
    rows, changed, draft := t.calendars, false, base;
    for i := 0 to |listed|
      invariant rows == UpsertListed(t.calendars, listed[..i])
      invariant Drafts(s, origin, base, draft, Tables(t.events, rows)) && NothingReconciled(base, draft)
      invariant changed <==> draft != base
    {
      assert listed[..i + 1][..i] == listed[..i];
      var c := listed[i];
      var upserted := UpsertCalendar(rows, c);
      if c.remoteId !in rows || rows[c.remoteId] != upserted[c.remoteId] {
        ghost var m := CalendarWritten(c.remoteId, upserted[c.remoteId]);
        CalendarGrows(s, origin, base, draft, Tables(t.events, rows), m);
        draft := draft + [m];
        changed := true;
      }
      rows := upserted;
    }
    assert listed[..|listed|] == listed;
  }

  /** Discovery, second part, after a non-empty listing: stamp what it omits, then reap what expired. */
  method StampAndReap(s: Setting, ghost origin: Tables, ghost base: seq<Mark>, ghost upserts: seq<Mark>, t: Tables, listed: seq<Listed>)
    returns (after: Tables, changed: bool, ghost draft: seq<Mark>)
    requires Drafts(s, origin, base, upserts, t) && NothingReconciled(base, upserts)
    ensures var stamped := Stamped(t.calendars, NewlyUnlisted(t.calendars, RemoteIds(listed)), s.nowMs);
            after == Reaped(Tables(t.events, stamped), Expired(stamped, s.nowMs))
    ensures Drafts(s, origin, base, draft, after) && NothingReconciled(base, draft)
    ensures upserts <= draft && (changed <==> draft != upserts)
  {
    after, changed, draft := t, false, upserts;
    var unlisted := NewlyUnlisted(t.calendars, RemoteIds(listed));
    if unlisted != {} {
      CalendarGrows(s, origin, base, draft, after, CalendarsStamped(unlisted, s.nowMs));
      draft := draft + [CalendarsStamped(unlisted, s.nowMs)];
      changed := true;
    } else {
      StampingNone(t.calendars, s.nowMs);
    }
    after := Tables(t.events, Stamped(t.calendars, unlisted, s.nowMs));
    var expired := Expired(after.calendars, s.nowMs);
    if expired != {} {
      CalendarGrows(s, origin, base, draft, after, CalendarsReaped(expired));
      draft := draft + [CalendarsReaped(expired)];
      changed := true;
    } else {
      ReapingNone(after);
    }
    after := Reaped(after, expired);
  }

  lemma StampingNone(calendars: Calendars, nowMs: int)
    ensures Stamped(calendars, {}, nowMs) == calendars
  {
  }

  lemma ReapingNone(t: Tables)
    ensures Reaped(t, {}) == t
  {
  }

  ghost predicate NothingReconciled(before: seq<Mark>, after: seq<Mark>) {
    before <= after && forall i :: |before| <= i < |after| ==> !after[i].EventReconciled?
  }

  /** A calendar row written anew, a listed row stamped, or a row removed: each changes the tables. */
  lemma CalendarGrows(s: Setting, origin: Tables, base: seq<Mark>, draft: seq<Mark>, t: Tables, m: Mark)
    requires Drafts(s, origin, base, draft, t)
    requires match m
             case CalendarWritten(r, row) => r !in t.calendars || t.calendars[r] != row
             case CalendarsStamped(ids, _) => exists r :: r in ids && r in t.calendars && t.calendars[r].unlistedSince == None
             case CalendarsReaped(ids) => exists r :: r in ids && r in t.calendars
             case _ => false
    ensures Drafts(s, origin, base, draft + [m], Applied(t, m))
  {
    var after := Applied(t, m).calendars;
    match m {
      case CalendarWritten(r, row) => assert after[r] == row;
      case CalendarsStamped(ids, _) =>
        var r :| r in ids && r in t.calendars && t.calendars[r].unlistedSince == None;
        assert after[r].unlistedSince.Some?;
      case CalendarsReaped(ids) =>
        var r :| r in ids && r in t.calendars;
        assert r !in after;
    }
    DraftGrows(s, origin, base, draft, t, m);
  }

  lemma PartlyStep(expands: Expansion, events: Events, calendar: string, w: Window,
                   seen: set<string>, failed: set<string>, todo: set<string>, key: string)
    requires key in todo && key in events
    ensures var before := PartlyReconciled(expands, events, calendar, w, seen, failed, todo);
            var after := PartlyReconciled(expands, events, calendar, w, seen, failed, todo - {key});
            key in before && before[key] == events[key] &&
            after == if Gone(expands, calendar, w, seen, failed, key, events[key]) then before - {key} else before
  {
  }

  // ---------------------------------------------------------------- history

  function SliceStart(s: Setting, slice: int): (r: int) {
    s.nowMs - (5 - slice) * HISTORY_SLICE_MS
  }

  function Joined(parts: seq<seq<Fetched>>): (r: seq<Fetched>) {
    if parts == [] then [] else Joined(parts[..|parts| - 1]) + parts[|parts| - 1]
  }

  /** A complete pull of the n-th history slice. */
  ghost predicate IsSlice(s: Setting, source: string, part: seq<Fetched>, n: nat) {
    Complete(part, source, RequestWindow(s, SliceStart(s, n), SliceStart(s, n + 1)))
  }

  /** The four slices tile the four years before the active window, which starts where the last one ends. */
  lemma SlicesMeetTheWindow(s: Setting)
    ensures SliceStart(s, 4) == s.nowMs - WINDOW_BACK_MS
    ensures RequestWindow(s, SliceStart(s, 3), SliceStart(s, 4)).end == PullWindow(s).start
  {
  }

  lemma {:induction false} ItemsConcat(a: seq<Fetched>, b: seq<Fetched>)
    ensures ItemsOf(a + b) == ItemsOf(a) + ItemsOf(b)
  {
    if b == [] {
      assert a + b == a;
    } else {
      var before, last := b[..|b| - 1], b[|b| - 1];
      ItemsConcat(a, before);
      assert a + b == (a + before) + [last];
      ItemsOfExtended(a + before, last);
      Reassociated(ItemsOf(a), ItemsOf(before), last.page.items);
    }
  }

  lemma ItemsOfExtended(pages: seq<Fetched>, last: Fetched)
    ensures ItemsOf(pages + [last]) == ItemsOf(pages) + last.page.items
  {
    assert (pages + [last])[..|pages|] == pages;
  }

  lemma Reassociated(a: seq<RemoteEvent>, b: seq<RemoteEvent>, c: seq<RemoteEvent>)
    ensures (a + b) + c == a + (b + c)
  {
  }

  /** The parts are complete pulls of the first history slices, oldest first, and all of it is stored. */
  ghost predicate SlicesTaken(s: Setting, target: Target, before: Events, after: Events, parts: seq<seq<Fetched>>) {
    && (forall n :: 0 <= n < |parts| ==> IsSlice(s, target.source, parts[n], n))
    && after == UpsertAll(before, target.calendar, ItemsOf(Joined(parts)))
  }

  lemma JoinedExtends(parts: seq<seq<Fetched>>, more: seq<Fetched>)
    ensures Joined(parts + [more]) == Joined(parts) + more
  {
    assert (parts + [more])[..|parts|] == parts;
  }

  lemma SliceTaken(s: Setting, target: Target, before: Events, between: Events, after: Events,
                   parts: seq<seq<Fetched>>, r: Result<PullResult, string>, more: seq<Fetched>)
    requires SlicesTaken(s, target, before, between, parts) && r.Ok?
    requires Pulled(s, r, between, after, target.calendar, target.source, SliceStart(s, |parts|), SliceStart(s, |parts| + 1), more)
    ensures SlicesTaken(s, target, before, after, parts + [more])
  {
    JoinedExtends(parts, more);
    ItemsConcat(Joined(parts), more);
    UpsertAllConcat(before, target.calendar, ItemsOf(Joined(parts)), ItemsOf(more));
    forall n | 0 <= n < |parts + [more]| ensures IsSlice(s, target.source, (parts + [more])[n], n) {
      if n < |parts| {
        assert (parts + [more])[n] == parts[n];
      }
    }
  }

  /** The whole history is pulled and stored: these pages are four slices. */
  ghost predicate HistoryTaken(s: Setting, target: Target, before: Events, after: Events, pages: seq<Fetched>) {
    exists parts :: |parts| == 4 && pages == Joined(parts) && SlicesTaken(s, target, before, after, parts)
  }

  /** The loop over the slices: what was fetched since is the parts, and they are stored. */
  ghost predicate HistorySoFar(s: Setting, target: Target, before: Events, after: Events,
                               fetchedBefore: seq<Fetched>, fetched: seq<Fetched>, parts: seq<seq<Fetched>>)
  {
    fetched == fetchedBefore + Joined(parts) && SlicesTaken(s, target, before, after, parts)
  }

  lemma HistoryGrows(s: Setting, target: Target, before: Events, after: Events,
                     fetchedBefore: seq<Fetched>, asked: seq<Fetched>, fetched: seq<Fetched>, parts: seq<seq<Fetched>>, more: seq<Fetched>)
    requires asked == fetchedBefore + Joined(parts) && fetched == asked + more
    requires SlicesTaken(s, target, before, after, parts + [more])
    ensures HistorySoFar(s, target, before, after, fetchedBefore, fetched, parts + [more])
  {
    JoinedExtends(parts, more);
  }

  lemma HistoryEnds(s: Setting, target: Target, before: Events, after: Events,
                    fetchedBefore: seq<Fetched>, fetched: seq<Fetched>, parts: seq<seq<Fetched>>)
    requires |parts| == 4 && HistorySoFar(s, target, before, after, fetchedBefore, fetched, parts)
    ensures fetchedBefore <= fetched && HistoryTaken(s, target, before, after, fetched[|fetchedBefore|..])
  {
    Tail(fetchedBefore, Joined(parts), fetched);
  }

  ghost predicate Backfilled(calendars: Calendars, calendar: string) {
    exists q :: q in calendars && calendars[q].id == calendar && calendars[q].backfilledAt.Some?
  }

  /** The same rows, some of them now with a history stamp. */
  ghost predicate OnlyStampsAdded(before: Calendars, after: Calendars) {
    && before.Keys == after.Keys
    && forall q :: q in before ==> after[q] == before[q] || (after[q].backfilledAt.Some? && after[q] == before[q].(backfilledAt := after[q].backfilledAt))
  }

  ghost predicate PulledIn(journal: seq<Mark>, target: Target) {
    exists i :: 0 <= i < |journal| && journal[i].WindowPulled? && journal[i].calendar == target.calendar && journal[i].source == target.source
  }

  function FirstError(outcomes: seq<Result<(), string>>): (r: Result<(), string>) {
    if outcomes == [] then Ok(())
    else
      var before := FirstError(outcomes[..|outcomes| - 1]);
      if before.Err? then before else outcomes[|outcomes| - 1]
  }

  /** What the backfill loop has done: a successful target is stamped, and the first error so far is remembered. */
  ghost predicate Tried(calendars: Calendars, targets: seq<Target>, outcomes: seq<Result<(), string>>, firstError: Option<string>) {
    && |outcomes| <= |targets|
    && (forall i :: 0 <= i < |outcomes| && outcomes[i].Ok? ==> Backfilled(calendars, targets[i].calendar))
    && (if firstError.Some? then FirstError(outcomes) == Err(firstError.value) else FirstError(outcomes).Ok?)
  }

  lemma TriedStill(before: Calendars, after: Calendars, targets: seq<Target>, outcomes: seq<Result<(), string>>, firstError: Option<string>)
    requires Tried(before, targets, outcomes, firstError) && OnlyStampsAdded(before, after)
    ensures Tried(after, targets, outcomes, firstError)
  {
    forall i | 0 <= i < |outcomes| && outcomes[i].Ok? ensures Backfilled(after, targets[i].calendar) {
      StillBackfilled(before, after, targets[i].calendar);
    }
  }

  lemma TriedOneMore(calendars: Calendars, targets: seq<Target>, outcomes: seq<Result<(), string>>, firstError: Option<string>,
                     outcome: Result<(), string>)
    requires Tried(calendars, targets, outcomes, firstError) && |outcomes| < |targets|
    requires outcome.Ok? ==> Backfilled(calendars, targets[|outcomes|].calendar)
    ensures Tried(calendars, targets, outcomes + [outcome],
                  if outcome.Err? && firstError == None then Some(outcome.error) else firstError)
  {
    assert (outcomes + [outcome])[..|outcomes|] == outcomes;
  }

  lemma BackfilledOn(j0: seq<Mark>, j1: seq<Mark>, j2: seq<Mark>, c0: Calendars, c1: Calendars, c2: Calendars)
    requires OnlyBackfilled(j0, j1) && OnlyBackfilled(j1, j2) && OnlyStampsAdded(c0, c1) && OnlyStampsAdded(c1, c2)
    ensures OnlyBackfilled(j0, j2) && OnlyStampsAdded(c0, c2)
  {
    assert forall i :: |j0| <= i < |j1| ==> j2[i] == j1[i];
  }

  class SyncRun {
    const setting: Setting
    var events: Events
    var calendars: Calendars
    var mutated: bool
    var answers: seq<Answer>

    ghost const origin: Tables
    ghost var journal: seq<Mark>
    ghost var fetched: seq<Fetched>

    /** The tables are what the journal makes of the initial ones, and every mark in it is genuine. */
    ghost predicate Explained()
      reads this
    {
      && Recorded(setting, origin, journal)
      && Replay(origin, journal) == Tables(events, calendars)
      && PullsFetched(journal, fetched)
    }

    /** ... and `mutated` says whether a committed write changed a row. */
    ghost predicate Valid()
      reads this
    {
      Explained() && (mutated <==> RowChanged(journal))
    }

    constructor (setting: Setting, events: Events, calendars: Calendars, answers: seq<Answer>)
      ensures Valid() && journal == [] && fetched == [] && !mutated
      ensures this.setting == setting && this.events == events && this.calendars == calendars
      ensures origin == Tables(events, calendars) && this.answers == answers
    {
      this.setting, this.events, this.calendars, this.answers := setting, events, calendars, answers;
      mutated := false;
      origin, journal, fetched := Tables(events, calendars), [], [];
    }

    /** The environment's next answer. */
    method Ask() returns (a: Answer)
      modifies `answers
      ensures old(answers) == [] ==> answers == [] && a.cancelled && a.error.Some?
      ensures old(answers) != [] ==> answers == old(answers)[1..] && a == old(answers)[0]
    {
      if answers == [] {
        a := Answer(true, Some(CANCELLED), Page([], {}, None));
      } else {
        a := answers[0];
        answers := answers[1..];
      }
    }

    /** One `events_in_range` request. */
    method Fetch(source: string, w: Window, cursor: Option<string>) returns (r: Result<Page, string>)
      requires Explained()
      modifies `answers, `fetched
      ensures Explained()
      ensures |answers| <= |old(answers)|
      ensures r.Ok? ==> fetched == old(fetched) + [Fetched(source, w, cursor, r.value)]
      ensures r.Err? ==> fetched == old(fetched)
    {
      var a := Ask();
      if a.error.Some? {
        return Err(a.error.value);
      }
      r := Ok(a.page);
      StillWithin(journal, fetched, Fetched(source, w, cursor, a.page));
      fetched := fetched + [Fetched(source, w, cursor, a.page)];
    }

    /** One page in one transaction: all of its convertible events, or none. Returns whether a row changed. */
    method ApplyEventPage(calendar: string, items: seq<RemoteEvent>) returns (r: Result<bool, string>)
      requires Explained()
      modifies `answers, `events, `journal
      ensures Explained()
      ensures |answers| <= |old(answers)|
      ensures r.Err? ==> events == old(events) && journal == old(journal)
      ensures r.Ok? ==> events == UpsertAll(old(events), calendar, items)
      ensures r.Ok? ==> (r.value <==> journal != old(journal))
      ensures r.Ok? ==> (RowChanged(journal) <==> RowChanged(old(journal)) || r.value)
      ensures OnlyWrote(old(journal), journal)
    {
      var rows, changed;
      ghost var draft;
      rows, changed, draft := UpsertRows(setting, origin, journal, Tables(events, calendars), calendar, items);
      DraftKeepsPulls(setting, origin, journal, draft, Tables(rows, calendars), fetched);
      var commit := Ask();
      if commit.error.Some? {
        return Err(commit.error.value);
      }
      events, journal := rows, draft;
      r := Ok(changed);
    }

    /** One turn of the pull loop: check the token, fetch the next page, store it. */
    method PullPage(calendar: string, source: string, w: Window, cursor: Option<string>)
      returns (r: Result<Page, string>, ghost asked: seq<Fetched>)
      requires Valid()
      modifies this
      ensures Valid() && calendars == old(calendars)
      ensures |answers| <= |old(answers)| && (r.Ok? ==> |answers| < |old(answers)|)
      ensures OnlyWrote(old(journal), journal)
      ensures fetched == old(fetched) + asked
      ensures asked == [] || exists page :: asked == [Fetched(source, w, cursor, page)]
      ensures r.Ok? ==> asked == [Fetched(source, w, cursor, r.value)]
      ensures events == if r.Ok? then UpsertAll(old(events), calendar, r.value.items) else old(events)
    {
      asked := [];
      var a := Ask();
      if a.cancelled {
        r := Err(CANCELLED);
        return;
      }
      r := Fetch(source, w, cursor);
      if r.Err? {
        return;
      }
      asked := [Fetched(source, w, cursor, r.value)];
      var applied := ApplyEventPage(calendar, r.value.items);
      if applied.Err? {
        r := Err(applied.error);
        return;
      }
      mutated := mutated || applied.value;
    }

    /**
     * Pull one range page by page. On success the fetched pages are a complete chain for this source and window, all
     * their events are stored and the keys and failures are theirs; on failure every page but perhaps the last one
     * fetched is stored. `mutated` is exact either way.
     */
    method PullRange(calendar: string, source: string, startMs: int, endMs: int) returns (r: Result<PullResult, string>)
      requires Valid()
      modifies this
      ensures Valid() && calendars == old(calendars)
      ensures OnlyWrote(old(journal), journal) && old(fetched) <= fetched
      ensures Pulled(setting, r, old(events), events, calendar, source, startMs, endMs, fetched[|old(fetched)|..])
    {
      var w := RequestWindow(setting, startMs, endMs);
      var cursor, sofar := None, PullResult({}, {});
      ghost var pages: seq<Fetched> := [];
      while true
        invariant Valid() && calendars == old(calendars)
        invariant fetched == old(fetched) + pages && OnlyWrote(old(journal), journal)
        invariant Pulling(old(events), events, calendar, source, w, pages, cursor, sofar)
        invariant pages != [] ==> cursor.Some?
        decreases |answers|
      {
        ghost var stored := events;
        var pulled, asked := PullPage(calendar, source, w, cursor);
        if pulled.Err? {
          PullStops(setting, old(events), stored, calendar, source, startMs, endMs, pages, cursor, sofar, asked, pulled.error);
          Tail(old(fetched), pages + asked, fetched);
          return Err(pulled.error);
        }
        var page := pulled.value;
        PullGrows(old(events), stored, calendar, source, w, pages, cursor, sofar, page);
        pages := pages + asked;
        sofar := PullResult(sofar.seen + Keys(page.items), sofar.failed + page.failedIds);
        cursor := page.next;
        if cursor == None {
          break;
        }
      }
      Tail(old(fetched), pages, fetched);
      r := Ok(sofar);
    }

    /**
     * Remove what the pull proves gone, in one transaction: exactly the calendar's rows in the window that were neither
     * seen nor reported failed; nothing after an empty pull. `at` is the pull's position in the journal.
     */
    method ReconcileWindow(calendar: string, seen: set<string>, failed: set<string>, ghost at: nat) returns (r: Result<nat, string>)
      requires Explained() && PullAt(setting, journal, at, calendar, seen, failed)
      modifies `answers, `events, `journal
      ensures Explained() && old(journal) <= journal
      ensures r.Err? ==> events == old(events) && journal == old(journal)
      ensures r.Ok? ==>
                && events == Reconciled(setting.expands, old(events), calendar, ReconciledWindow(setting.nowMs), seen, failed)
                && r.value == |journal| - |old(journal)|
      ensures RowChanged(journal) <==> RowChanged(old(journal)) || (r.Ok? && r.value > 0)
    {
      if seen == {} {
        return Ok(0);
      }
      var w := ReconciledWindow(setting.nowMs);
      var rows, deleted;
      ghost var draft;
      rows, deleted, draft := DeleteRows(setting, origin, journal, Tables(events, calendars), calendar, seen, failed, at);
      DraftKeepsPulls(setting, origin, journal, draft, Tables(rows, calendars), fetched);
      var commit := Ask();
      if commit.error.Some? {
        return Err(commit.error.value);
      }
      events, journal := rows, draft;
      r := Ok(deleted);
    }

    /**
     * One calendar's active window: pull it, then reconcile. On success the tables are as if the whole window had been
     * upserted and reconciled at once; on an error nothing was reconciled.
     */
    method SyncActiveWindow(target: Target) returns (r: Result<(), string>)
      requires Valid()
      modifies this
      ensures Valid() && calendars == old(calendars) && old(journal) <= journal && old(fetched) <= fetched
      ensures r.Err? ==> forall i :: |old(journal)| <= i < |journal| ==> !journal[i].EventReconciled?
      ensures r.Ok? ==>
                var pages := fetched[|old(fetched)|..];
                && Complete(pages, target.source, PullWindow(setting))
                && WindowPulled(target.calendar, target.source, pages) in journal
                && events == WindowSynced(setting.expands, old(events), target.calendar, ReconciledWindow(setting.nowMs),
                                          ItemsOf(pages), FailedOf(pages))
    {
      var pulled := PullRange(target.calendar, target.source, setting.nowMs - WINDOW_BACK_MS, setting.nowMs + WINDOW_FORWARD_MS);
      if pulled.Err? {
        return Err(pulled.error);
      }
      ghost var pages, at := fetched[|old(fetched)|..], |journal|;
      LogPull(target, pulled.value, pages, |old(fetched)|);
      var reconciled := ReconcileWindow(target.calendar, pulled.value.seen, pulled.value.failed, at);
      if reconciled.Err? {
        return Err(reconciled.error);
      }
      assert journal[at] == WindowPulled(target.calendar, target.source, pages);
      mutated := mutated || reconciled.value > 0;
      r := Ok(());
    }

    /** Note a completed window pull. */
    ghost method LogPull(target: Target, pulled: PullResult, pages: seq<Fetched>, from: nat)
      requires Valid() && from <= |fetched| && pages == fetched[from..]
      requires Complete(pages, target.source, PullWindow(setting))
      requires pulled == PullResult(Keys(ItemsOf(pages)), FailedOf(pages))
      modifies `journal
      ensures Valid() && journal == old(journal) + [WindowPulled(target.calendar, target.source, pages)]
      ensures PullAt(setting, journal, |old(journal)|, target.calendar, pulled.seen, pulled.failed)
    {
      ghost var m := WindowPulled(target.calendar, target.source, pages);
      Extended(setting, origin, journal, m);
      assert Within(m.pages, fetched);
      journal := journal + [m];
    }

    /** Discovery in one transaction. Returns whether a row changed. */
    method Discover(listed: seq<Listed>) returns (r: Result<bool, string>)
      requires Explained()
      modifies `answers, `events, `calendars, `journal
      ensures Explained() && NothingReconciled(old(journal), journal)
      ensures r.Err? ==> events == old(events) && calendars == old(calendars) && journal == old(journal)
      ensures r.Ok? ==> Tables(events, calendars) == Discovered(Tables(old(events), old(calendars)), listed, setting.nowMs)
      ensures RowChanged(journal) <==> RowChanged(old(journal)) || (r.Ok? && r.value)
    {
      var rows, changed;
      ghost var draft;
      rows, changed, draft := UpsertCalendars(setting, origin, journal, Tables(events, calendars), listed);
      var after := Tables(events, rows);
      if listed != [] {
        var swept;
        after, swept, draft := StampAndReap(setting, origin, journal, draft, after, listed);
        changed := changed || swept;
      }
      DraftKeepsPulls(setting, origin, journal, draft, after, fetched);
      var commit := Ask();
      if commit.error.Some? {
        return Err(commit.error.value);
      }
      events, calendars, journal := after.events, after.calendars, draft;
      r := Ok(changed);
    }

    /** The calendar's history stamp; an error when the read fails or the row is gone. */
    method HistoryBackfilledAt(calendar: string) returns (r: Result<Option<int>, string>)
      modifies `answers
      ensures r.Ok? ==> exists q :: q in calendars && calendars[q].id == calendar && calendars[q].backfilledAt == r.value
    {
      var a := Ask();
      if a.error.Some? {
        return Err(a.error.value);
      }
      if q :| q in calendars && calendars[q].id == calendar {
        r := Ok(calendars[q].backfilledAt);
      } else {
        r := Err("Query returned no rows");
      }
    }

    /** Stamp the calendar. The stamp does not set `mutated`. */
    method MarkHistoryBackfilled(calendar: string) returns (r: Result<(), string>)
      requires Valid()
      modifies `answers, `calendars, `journal
      ensures Valid() && OnlyBackfilled(old(journal), journal)
      ensures calendars == if r.Ok? then HistoryMarked(old(calendars), calendar, setting.nowMs) else old(calendars)
    {
      var a := Ask();
      if a.error.Some? {
        return Err(a.error.value);
      }
      Extended(setting, origin, journal, HistoryStamped(calendar, setting.nowMs));
      journal := journal + [HistoryStamped(calendar, setting.nowMs)];
      calendars := HistoryMarked(calendars, calendar, setting.nowMs);
      r := Ok(());
    }

    /** One history slice, upserts only. */
    method PullSlice(target: Target, slice: nat, ghost before: Events, ghost parts: seq<seq<Fetched>>)
      returns (r: Result<(), string>, ghost more: seq<Fetched>)
      requires Valid() && SlicesTaken(setting, target, before, events, parts) && |parts| == slice
      modifies this
      ensures Valid() && calendars == old(calendars)
      ensures OnlyWrote(old(journal), journal) && fetched == old(fetched) + more
      ensures r.Ok? ==> SlicesTaken(setting, target, before, events, parts + [more])
    {
      more := [];
      var a := Ask();
      if a.cancelled {
        r := Err(CANCELLED);
        return;
      }
      var pulled := PullRange(target.calendar, target.source, SliceStart(setting, slice), SliceStart(setting, slice + 1));
      more := fetched[|old(fetched)|..];
      if pulled.Err? {
        r := Err(pulled.error);
        return;
      }
      SliceTaken(setting, target, before, old(events), events, parts, pulled, more);
      r := Ok(());
    }

    /** The four slices, oldest first. */
    method PullSlices(target: Target) returns (r: Result<(), string>)
      requires Valid()
      modifies this
      ensures Valid() && calendars == old(calendars)
      ensures OnlyWrote(old(journal), journal) && old(fetched) <= fetched
      ensures r.Ok? ==> HistoryTaken(setting, target, old(events), events, fetched[|old(fetched)|..])
    {
      ghost var parts: seq<seq<Fetched>> := [];
      for slice := 0 to 4
        invariant Valid() && calendars == old(calendars)
        invariant OnlyWrote(old(journal), journal)
        invariant |parts| == slice && HistorySoFar(setting, target, old(events), events, old(fetched), fetched, parts)
      {
        ghost var asked := fetched;
        ghost var more;
        r, more := PullSlice(target, slice, old(events), parts);
        if r.Err? {
          return;
        }
        HistoryGrows(setting, target, old(events), events, old(fetched), asked, fetched, parts, more);
        parts := parts + [more];
      }
      HistoryEnds(setting, target, old(events), events, old(fetched), fetched, parts);
      r := Ok(());
    }

    /** One calendar's history, once: on success it is stamped, and nothing was removed in any case. */
    method BackfillHistory(target: Target) returns (r: Result<(), string>)
      requires Valid()
      modifies this
      ensures Valid() && OnlyBackfilled(old(journal), journal) && OnlyStampsAdded(old(calendars), calendars)
      ensures r.Ok? ==> Backfilled(calendars, target.calendar)
      ensures r.Ok? && fetched != old(fetched) ==>
                old(fetched) <= fetched && HistoryTaken(setting, target, old(events), events, fetched[|old(fetched)|..])
    {
      var stamp := HistoryBackfilledAt(target.calendar);
      if stamp.Err? {
        return Err(stamp.error);
      }
      if stamp.value.Some? {
        return Ok(());
      }
      ghost var q :| q in calendars && calendars[q].id == target.calendar;
      var pulled := PullSlices(target);
      if pulled.Err? {
        return Err(pulled.error);
      }
      r := MarkHistoryBackfilled(target.calendar);
      assert r.Ok? ==> calendars[q].backfilledAt.Some?;
    }

    /** The active window of every target in turn; the first failure ends the run. */
    method SyncActiveWindows(targets: seq<Target>) returns (r: Result<(), string>)
      requires Valid()
      modifies this
      ensures Valid() && calendars == old(calendars) && old(journal) <= journal
      ensures r.Ok? ==> forall i :: 0 <= i < |targets| ==> PulledIn(journal, targets[i])
    {
      for i := 0 to |targets|
        invariant Valid() && calendars == old(calendars) && old(journal) <= journal
        invariant forall j :: 0 <= j < i ==> PulledIn(journal, targets[j])
      {
        var a := Ask();
        if a.cancelled {
          return Err(CANCELLED);
        }
        ghost var before := journal;
        r := SyncActiveWindow(targets[i]);
        if r.Err? {
          return;
        }
        forall j | 0 <= j < i ensures PulledIn(journal, targets[j]) {
          StillPulled(before, journal, targets[j]);
        }
      }
      r := Ok(());
    }

    /**
     * The history of every target. A failure is recorded and the others still get their turn; only a cancellation ends
     * the loop. Unless the result is that cancellation, every target was tried and the first error is the result.
     */
    method BackfillAll(targets: seq<Target>) returns (r: Result<(), string>, ghost outcomes: seq<Result<(), string>>)
      requires Valid()
      modifies this
      ensures Valid() && OnlyBackfilled(old(journal), journal) && OnlyStampsAdded(old(calendars), calendars)
      ensures exists firstError :: Tried(calendars, targets, outcomes, firstError)
      ensures r != Err(CANCELLED) ==> |outcomes| == |targets| && (if r.Ok? then FirstError(outcomes).Ok? else r == FirstError(outcomes))
    {
      var firstError: Option<string> := None;
      outcomes := [];
      for i := 0 to |targets|
        invariant Valid() && OnlyBackfilled(old(journal), journal) && OnlyStampsAdded(old(calendars), calendars)
        invariant |outcomes| == i && Tried(calendars, targets, outcomes, firstError)
      {
        var a := Ask();
        if a.cancelled {
          r := Err(CANCELLED);
          return;
        }
        ghost var j, c := journal, calendars;
        var outcome := BackfillHistory(targets[i]);
        BackfilledOn(old(journal), j, journal, old(calendars), c, calendars);
        TriedStill(c, calendars, targets, outcomes, firstError);
        if outcome == Err(CANCELLED) {
          r := outcome;
          return;
        }
        TriedOneMore(calendars, targets, outcomes, firstError, outcome);
        outcomes := outcomes + [outcome];
        if outcome.Err? && firstError == None {
          firstError := Some(outcome.error);
        }
      }
      r := if firstError.Some? then Err(firstError.value) else Ok(());
    }

    /** The visible, listed rows of the cache; their order does not matter here. */
    method LoadVisible() returns (r: Result<seq<Visible>, string>)
      modifies `answers
      ensures r.Ok? ==> forall v :: v in r.value <==> ShownAs(calendars, v)
    {
      var a := Ask();
      if a.error.Some? {
        return Err(a.error.value);
      }
      var todo := set q | q in calendars && calendars[q].visible && calendars[q].unlistedSince == None;
      var visible: seq<Visible> := [];
      while todo != {}
        invariant forall q :: q in todo ==> q in calendars && ShownAs(calendars, Visible(calendars[q].id, q))
        invariant forall v :: v in visible || (v.remoteId in todo && v.id == calendars[v.remoteId].id) <==> ShownAs(calendars, v)
        modifies {}
        decreases |todo|
      {
        var q :| q in todo;
        todo := todo - {q};
        visible := visible + [Visible(calendars[q].id, q)];
      }
      r := Ok(visible);
    }

    /**
     * The whole run, from the opened account (whether it can list calendars and pull ranges) and the listing. Whatever
     * the script, `Valid` holds at every exit. A run that succeeds has pulled, reconciled and backfilled every calendar
     * that discovery left visible and that the backend listed.
     */
    method SyncAccount(account: Result<bool, string>, listing: Result<seq<Listed>, string>) returns (r: Result<(), string>)
      requires Valid()
      modifies this
      ensures Valid() && old(journal) <= journal
      ensures account.Err? ==> r == Err(account.error)
      ensures account == Ok(false) ==> r.Ok?
      ensures account == Ok(true) && listing.Err? ==> r == Err(listing.error)
      ensures account != Ok(true) || listing.Err? ==> journal == old(journal) && events == old(events) && calendars == old(calendars)
      ensures account == Ok(true) && r.Ok? ==>
                forall v :: ShownAs(Discovered(Tables(old(events), old(calendars)), listing.value, setting.nowMs).calendars, v)
                            && v.remoteId in RemoteIds(listing.value) ==>
                              && PulledIn(journal, Target(v.id, FirstSource(listing.value, v.remoteId).value))
                              && Backfilled(calendars, v.id)
    {
      if account.Err? {
        return Err(account.error);
      }
      if !account.value {
        return Ok(());
      }
      if listing.Err? {
        return Err(listing.error);
      }
      var discovered := Discover(listing.value);
      if discovered.Err? {
        return Err(discovered.error);
      }
      mutated := mutated || discovered.value;
      ghost var found := calendars;
      var visible := LoadVisible();
      if visible.Err? {
        return Err(visible.error);
      }
      var targets := ResolveSyncTargets(listing.value, visible.value);
      r := SyncActiveWindows(targets);
      if r.Err? {
        return;
      }
      ghost var pulled := journal;
      ghost var outcomes;
      r, outcomes := BackfillAll(targets);
      if r.Ok? {
        TargetsServed(listing.value, visible.value, pulled, journal, calendars, outcomes);
      }
    }

    /** The entry point: a token already cancelled ends the run before it starts. */
    method CalendarSyncAccount(account: Result<bool, string>, listing: Result<seq<Listed>, string>) returns (r: Result<(), string>)
      requires Valid() && !mutated && journal == []
      modifies this
      ensures Valid()
      ensures mutated <==> RowChanged(journal)
    {
      var a := Ask();
      if a.cancelled {
        return Err(CANCELLED);
      }
      r := SyncAccount(account, listing);
    }
  }

  ghost predicate ShownAs(calendars: Calendars, v: Visible) {
    v.remoteId in calendars && calendars[v.remoteId].id == v.id && calendars[v.remoteId].visible
    && calendars[v.remoteId].unlistedSince == None
  }

  /** A run whose windows were all pulled and whose backfill reported no error has served every visible listed row. */
  lemma TargetsServed(listed: seq<Listed>, visible: seq<Visible>, pulled: seq<Mark>, journal: seq<Mark>, calendars: Calendars,
                      outcomes: seq<Result<(), string>>)
    requires var targets := ResolveSyncTargets(listed, visible);
             && (forall i :: 0 <= i < |targets| ==> PulledIn(pulled, targets[i])) && pulled <= journal
             && |outcomes| == |targets| && FirstError(outcomes).Ok?
             && exists firstError :: Tried(calendars, targets, outcomes, firstError)
    ensures forall v :: v in visible && v.remoteId in RemoteIds(listed) ==>
                          && PulledIn(journal, Target(v.id, FirstSource(listed, v.remoteId).value))
                          && Backfilled(calendars, v.id)
  {
    var targets := ResolveSyncTargets(listed, visible);
    forall v | v in visible && v.remoteId in RemoteIds(listed)
      ensures PulledIn(journal, Target(v.id, FirstSource(listed, v.remoteId).value)) && Backfilled(calendars, v.id)
    {
      var target := Target(v.id, FirstSource(listed, v.remoteId).value);
      TargetsAreVisibleAndListed(listed, visible, target);
      var i :| 0 <= i < |targets| && targets[i] == target;
      StillPulled(pulled, journal, target);
      NoErrorMeansOk(outcomes, i);
    }
  }

  lemma {:induction false} NoErrorMeansOk(outcomes: seq<Result<(), string>>, i: nat)
    requires FirstError(outcomes).Ok? && i < |outcomes|
    ensures outcomes[i].Ok?
  {
    if i < |outcomes| - 1 {
      NoErrorMeansOk(outcomes[..|outcomes| - 1], i);
    }
  }

  lemma StillPulled(before: seq<Mark>, after: seq<Mark>, target: Target)
    requires PulledIn(before, target) && before <= after
    ensures PulledIn(after, target)
  {
    var i :| 0 <= i < |before| && before[i].WindowPulled? && before[i].calendar == target.calendar && before[i].source == target.source;
    assert after[i] == before[i];
  }

  lemma StillBackfilled(before: Calendars, after: Calendars, calendar: string)
    requires Backfilled(before, calendar) && OnlyStampsAdded(before, after)
    ensures Backfilled(after, calendar)
  {
    var q :| q in before && before[q].id == calendar && before[q].backfilledAt.Some?;
    assert after[q].id == calendar && after[q].backfilledAt.Some?;
  }

  // ---------------------------------------------------------------- what a valid run means

  /**
   * Wherever a run ends, each row reconcile removed was there, belonged to a calendar whose full window pull had
   * completed before with something seen, was not among what was seen or reported failed, and intersects the window.
   */
  lemma ReconcileNeverGuesses(s: Setting, origin: Tables, journal: seq<Mark>, i: nat)
    requires Recorded(s, origin, journal) && i < |journal| && journal[i].EventReconciled?
    ensures var t := Replay(origin, journal[..i]);
            journal[i].key in t.events && t.events[journal[i].key] == journal[i].row
    ensures exists j :: 0 <= j < i && Justifies(s, journal[j], journal[i].key, journal[i].row)
  {
    RecordedAt(s, origin, journal, i);
    var j :| 0 <= j < i && Justifies(s, journal[..i][j], journal[i].key, journal[i].row);
    assert journal[..i][j] == journal[j];
  }

  /** A run that reports no mutation left every event and calendar row as it was, history stamps aside. */
  lemma {:induction false} UnmutatedLeavesTheTables(s: Setting, origin: Tables, journal: seq<Mark>)
    requires Recorded(s, origin, journal) && !RowChanged(journal)
    ensures Replay(origin, journal).events == origin.events
    ensures OnlyStampsAdded(origin.calendars, Replay(origin, journal).calendars)
  {
    if journal != [] {
      var before := journal[..|journal| - 1];
      assert !ChangesARow(journal[|journal| - 1]);
      assert forall i :: 0 <= i < |before| ==> before[i] == journal[i];
      UnmutatedLeavesTheTables(s, origin, before);
    }
  }

  /** A run that reports a mutation committed a write that changed the tables at that moment. */
  lemma MutatedMeansAWrite(s: Setting, origin: Tables, journal: seq<Mark>)
    requires Recorded(s, origin, journal)
    ensures RowChanged(journal) <==>
            exists i :: 0 <= i < |journal| && ChangesARow(journal[i])
                        && Applied(Replay(origin, journal[..i]), journal[i]) != Replay(origin, journal[..i])
  {
    if i :| 0 <= i < |journal| && ChangesARow(journal[i]) {
      RecordedAt(s, origin, journal, i);
    }
  }

  /** A write changes the tables without being reported exactly when it is a history stamp that some row did not carry yet. */
  lemma UnreportedIff(s: Setting, origin: Tables, journal: seq<Mark>, m: Mark)
    requires Genuine(s, origin, journal, m)
    ensures var t := Replay(origin, journal);
            Applied(t, m) != t && !ChangesARow(m) <==>
            && m.HistoryStamped?
            && exists r :: r in t.calendars && t.calendars[r].id == m.calendar && t.calendars[r].backfilledAt != Some(m.atMs)
  {
    var t := Replay(origin, journal);
    if m.HistoryStamped? {
      var after := Applied(t, m).calendars;
      if r :| r in t.calendars && t.calendars[r].id == m.calendar && t.calendars[r].backfilledAt != Some(m.atMs) {
        assert after[r] != t.calendars[r];
      } else {
        assert after == t.calendars;
      }
    }
  }

  /** It happens in every first backfill: the row changes, the run reports nothing. */
  lemma StampIsNotReported(s: Setting, remoteId: string, row: CalendarRow)
    requires row.backfilledAt == None
    ensures var origin, journal := Tables(map[], map[remoteId := row]), [HistoryStamped(row.id, s.nowMs)];
            && Recorded(s, origin, journal) && !RowChanged(journal)
            && Replay(origin, journal).calendars == map[remoteId := row.(backfilledAt := Some(s.nowMs))]
            && Replay(origin, journal) != origin
  {
    var origin, m := Tables(map[], map[remoteId := row]), HistoryStamped(row.id, s.nowMs);
    FirstMark(s, origin, m);
    assert Applied(origin, m).calendars[remoteId] == row.(backfilledAt := Some(s.nowMs));
  }

  lemma FirstMark(s: Setting, origin: Tables, m: Mark)
    requires Genuine(s, origin, [], m)
    ensures Recorded(s, origin, [m]) && Replay(origin, [m]) == Applied(origin, m)
    ensures RowChanged([m]) <==> ChangesARow(m)
  {
    Extended(s, origin, [], m);
    assert [] + [m] == [m];
  }
}
