/**
 * Calendar sync of one account (crates/calendar/src/sync.rs): discovery, paged window pulls, windowed reconcile and
 * history backfill over the cached `calendars` and `calendar_events` tables.
 *
 * Provider replies, cancellation and failing transactions are given to the run as a script, so a contract that holds
 * for every script holds for every page sequence and every error or cancellation point.
 */
module CalendarSync {
  import opened Wrappers

  const WINDOW_BACK_MS: int := 365 * 24 * 60 * 60 * 1000
  const WINDOW_FORWARD_MS: int := 730 * 24 * 60 * 60 * 1000
  const HISTORY_SLICE_MS: int := 365 * 24 * 60 * 60 * 1000
  const REAP_THRESHOLD_MS: int := 7 * 24 * 60 * 60 * 1000
  const CANCELLED := "calendar sync cancelled"

  // ---------------------------------------------------------------- tables

  /** The tracked columns of an event row, except its calendar; `content` stands for the text columns. */
  datatype EventData = EventData(
    remoteId: Option<string>, start: int, end: int, rrule: Option<string>, timezone: Option<string>, content: string)

  datatype Row = Row(calendar: string, data: EventData)

  /** `calendar_events` of one account, by its unique dedup key. */
  type Events = map<string, Row>

  datatype CalendarRow = CalendarRow(
    id: string, meta: string, visible: bool, unlistedSince: Option<int>, backfilledAt: Option<int>)

  /** `calendars` of one account, by its unique remote id. */
  type Calendars = map<string, CalendarRow>

  /**
   * A calendar as discovered: `remoteId` is its native id, `source` the id the backend wants in requests, `freshId`
   * the row id drawn for it should it be new.
   */
  datatype Listed = Listed(remoteId: string, source: string, meta: string, freshId: string)

  /** An event as pulled; `data` is None when the event does not convert to a row. */
  datatype RemoteEvent = RemoteEvent(key: string, data: Option<EventData>)

  datatype Window = Window(start: int, end: int)

  /** RRULE expansion: does the series of this rule, start, end and zone have an occurrence in the window? */
  type Expansion = (string, int, int, Option<string>, Window) -> bool

  // ---------------------------------------------------------------- reconcile decision

  predicate Overlaps(data: EventData, w: Window) {
    data.start < w.end && data.end > w.start
  }

  /** The candidate query: overlapping rows, and every recurring master wherever it starts. */
  predicate IsCandidate(data: EventData, w: Window) {
    data.rrule.Some? || Overlaps(data, w)
  }

  predicate ShouldDeleteAbsentCandidate(expands: Expansion, data: EventData, w: Window) {
    if data.rrule == None then true
    else if Overlaps(data, w) then true
    else expands(data.rrule.value, data.start, data.end, data.timezone, w)
  }

  /** The event, or an occurrence of its series, falls into the window. */
  predicate Intersects(expands: Expansion, data: EventData, w: Window) {
    Overlaps(data, w) ||
    (data.rrule.Some? && expands(data.rrule.value, data.start, data.end, data.timezone, w))
  }

  predicate ReportedFailed(data: EventData, failed: set<string>) {
    data.remoteId.Some? && data.remoteId.value in failed
  }

  /** What reconcile removes: the calendar's own rows, in the window, absent from the pull and not reported failed. */
  predicate Gone(expands: Expansion, calendar: string, w: Window, seen: set<string>, failed: set<string>, key: string, row: Row) {
    && row.calendar == calendar && IsCandidate(row.data, w)
    && key !in seen && !ReportedFailed(row.data, failed)
    && ShouldDeleteAbsentCandidate(expands, row.data, w)
  }

  lemma GoneMeansIntersecting(expands: Expansion, calendar: string, w: Window, seen: set<string>, failed: set<string>, key: string, row: Row)
    ensures Gone(expands, calendar, w, seen, failed, key, row) <==>
            && row.calendar == calendar && key !in seen && !ReportedFailed(row.data, failed)
            && Intersects(expands, row.data, w)
  {
  }

  function Reconciled(expands: Expansion, events: Events, calendar: string, w: Window, seen: set<string>, failed: set<string>): (r: Events) {
    if seen == {} then events
    else map key | key in events && !Gone(expands, calendar, w, seen, failed, key, events[key]) :: events[key]
  }

  // ---------------------------------------------------------------- upserts

  /** One pulled event: a row that does not convert is skipped, otherwise the key's row is replaced. */
  function UpsertOne(events: Events, calendar: string, event: RemoteEvent): (r: Events) {
    if event.data == None then events else events[event.key := Row(calendar, event.data.value)]
  }

  function UpsertAll(events: Events, calendar: string, items: seq<RemoteEvent>): (r: Events) {
    if items == [] then events
    else UpsertOne(UpsertAll(events, calendar, items[..|items| - 1]), calendar, items[|items| - 1])
  }

  function Keys(items: seq<RemoteEvent>): (r: set<string>) {
    set i | 0 <= i < |items| :: items[i].key
  }

  /** The last convertible event with this key. */
  function LastFor(items: seq<RemoteEvent>, key: string): (r: Option<EventData>) {
    if items == [] then None
    else
      var last := items[|items| - 1];
      if last.key == key && last.data.Some? then last.data else LastFor(items[..|items| - 1], key)
  }

  lemma {:induction false} UpsertedAt(events: Events, calendar: string, items: seq<RemoteEvent>, key: string)
    ensures LastFor(items, key).Some? ==>
              key in UpsertAll(events, calendar, items) && key in Keys(items) &&
              UpsertAll(events, calendar, items)[key] == Row(calendar, LastFor(items, key).value)
    ensures LastFor(items, key) == None ==>
              (key in UpsertAll(events, calendar, items) <==> key in events) &&
              (key in events ==> UpsertAll(events, calendar, items)[key] == events[key])
  {
    if items != [] {
      var before := items[..|items| - 1];
      UpsertedAt(events, calendar, before, key);
      assert items[|items| - 1].key in Keys(items);
      assert Keys(before) <= Keys(items) by {
        assert forall i :: 0 <= i < |before| ==> before[i] == items[i];
      }
    }
  }

  /** Page by page or all at once: upserting `a` and then `b` is upserting `a + b`. */
  lemma {:induction false} UpsertAllConcat(events: Events, calendar: string, a: seq<RemoteEvent>, b: seq<RemoteEvent>)
    ensures UpsertAll(events, calendar, a + b) == UpsertAll(UpsertAll(events, calendar, a), calendar, b)
  {
    if b == [] {
      assert a + b == a;
    } else {
      var before, last := b[..|b| - 1], b[|b| - 1];
      UpsertAllConcat(events, calendar, a, before);
      assert (a + b)[..|a + b| - 1] == a + before && (a + b)[|a + b| - 1] == last;
      assert UpsertAll(events, calendar, a + b) == UpsertOne(UpsertAll(events, calendar, a + before), calendar, last);
    }
  }

  // ---------------------------------------------------------------- the window is made exact

  /** Pull everything in the window, then reconcile. */
  function WindowSynced(expands: Expansion, events: Events, calendar: string, w: Window, items: seq<RemoteEvent>, failed: set<string>): (r: Events) {
    Reconciled(expands, UpsertAll(events, calendar, items), calendar, w, Keys(items), failed)
  }

  /**
   * Key by key, for every pull whatever: the latest convertible event wins; without one a row stays as it was, unless
   * it is the calendar's, intersects the window, was neither seen nor reported failed, and the pull was not empty.
   */
  lemma WindowSyncPointwise(expands: Expansion, events: Events, calendar: string, w: Window, items: seq<RemoteEvent>, failed: set<string>, key: string)
    ensures var after := WindowSynced(expands, events, calendar, w, items, failed);
            match LastFor(items, key)
            case Some(data) => key in after && after[key] == Row(calendar, data)
            case None =>
              if key !in events then key !in after
              else if items != [] && Gone(expands, calendar, w, Keys(items), failed, key, events[key]) then key !in after
              else key in after && after[key] == events[key]
  {
    UpsertedAt(events, calendar, items, key);
    if items != [] {
      assert items[0].key in Keys(items);
    }
  }

  /** The rows of `calendar` that intersect the window. */
  ghost function InWindow(expands: Expansion, events: Events, calendar: string, w: Window): (r: Events) {
    map key | key in events && events[key].calendar == calendar && Intersects(expands, events[key].data, w) :: events[key]
  }

  /** The rows the remote holds in the window. */
  ghost function RemoteInWindow(expands: Expansion, calendar: string, w: Window, items: seq<RemoteEvent>): (r: Events) {
    map key | key in Keys(items) && LastFor(items, key).Some? && Intersects(expands, LastFor(items, key).value, w)
      :: Row(calendar, LastFor(items, key).value)
  }

  lemma ConvertibleHaveLast(items: seq<RemoteEvent>, key: string)
    requires key in Keys(items) && forall i :: 0 <= i < |items| ==> items[i].data.Some?
    ensures LastFor(items, key).Some?
  {
    var before := items[..|items| - 1];
    if items[|items| - 1].key != key {
      assert forall i :: 0 <= i < |before| ==> before[i] == items[i];
      ConvertibleHaveLast(before, key);
    }
  }

  /**
   * A row in the window that the pull neither replaces nor clears away: seen without a convertible event, reported failed,
   * or any row at all when the pull came back empty.
   */
  ghost predicate Lingers(expands: Expansion, events: Events, calendar: string, w: Window, items: seq<RemoteEvent>, failed: set<string>, key: string) {
    && key in events && events[key].calendar == calendar && Intersects(expands, events[key].data, w)
    && LastFor(items, key) == None && (items == [] || key in Keys(items) || ReportedFailed(events[key].data, failed))
  }

  lemma ExactAt(expands: Expansion, events: Events, calendar: string, w: Window, items: seq<RemoteEvent>, failed: set<string>, key: string)
    ensures var cached := InWindow(expands, WindowSynced(expands, events, calendar, w, items, failed), calendar, w);
            var remote := RemoteInWindow(expands, calendar, w, items);
            if Lingers(expands, events, calendar, w, items, failed, key) then key in cached && key !in remote
            else (key in cached <==> key in remote) && (key in cached ==> cached[key] == remote[key])
  {
    WindowSyncPointwise(expands, events, calendar, w, items, failed, key);
    UpsertedAt(events, calendar, items, key);
    if key in events {
      GoneMeansIntersecting(expands, calendar, w, Keys(items), failed, key, events[key]);
    }
  }

  /**
   * After any complete pull the calendar's cached rows in the window are exactly the remote ones, the last convertible
   * event of a key counting, exactly when no cached row in the window was seen only in events that do not convert, or was
   * reported failed and not pulled; after an empty pull, exactly when there was no cached row in the window.
   */
  lemma WindowExactIff(expands: Expansion, events: Events, calendar: string, w: Window, items: seq<RemoteEvent>, failed: set<string>)
    ensures InWindow(expands, WindowSynced(expands, events, calendar, w, items, failed), calendar, w) ==
            RemoteInWindow(expands, calendar, w, items) <==>
            forall key ::
              (key in events && events[key].calendar == calendar && Intersects(expands, events[key].data, w) && LastFor(items, key) == None)
              ==> items != [] && key !in Keys(items) && !ReportedFailed(events[key].data, failed)
  {
    var cached := InWindow(expands, WindowSynced(expands, events, calendar, w, items, failed), calendar, w);
    var remote := RemoteInWindow(expands, calendar, w, items);
    if forall key :: !Lingers(expands, events, calendar, w, items, failed, key) {
      forall key ensures (key in cached <==> key in remote) && (key in cached ==> cached[key] == remote[key]) {
        ExactAt(expands, events, calendar, w, items, failed, key);
      }
      assert cached == remote;
    } else {
      var key :| Lingers(expands, events, calendar, w, items, failed, key);
      ExactAt(expands, events, calendar, w, items, failed, key);
    }
    forall key | key in events
      ensures Lingers(expands, events, calendar, w, items, failed, key) <==>
              && events[key].calendar == calendar && Intersects(expands, events[key].data, w) && LastFor(items, key) == None
              && !(items != [] && key !in Keys(items) && !ReportedFailed(events[key].data, failed))
    {
    }
  }

  /** In particular: after a failure-free pull of convertible events. Dedup keys need not be distinct. */
  lemma WindowBecomesExact(expands: Expansion, events: Events, calendar: string, w: Window, items: seq<RemoteEvent>)
    requires items != [] && forall i :: 0 <= i < |items| ==> items[i].data.Some?
    ensures InWindow(expands, WindowSynced(expands, events, calendar, w, items, {}), calendar, w) ==
            RemoteInWindow(expands, calendar, w, items)
  {
    WindowExactIff(expands, events, calendar, w, items, {});
    forall key | key in events && key in Keys(items) ensures LastFor(items, key).Some? {
      ConvertibleHaveLast(items, key);
    }
  }

  /** A row of another calendar, outside the window, seen, or reported failed is not destroyed; pulled keys aside, it is unchanged. */
  lemma OutsideUntouched(expands: Expansion, events: Events, calendar: string, w: Window, items: seq<RemoteEvent>, failed: set<string>, key: string)
    requires key in events && LastFor(items, key) == None
    requires events[key].calendar != calendar || !Intersects(expands, events[key].data, w) || key in Keys(items)
             || ReportedFailed(events[key].data, failed) || items == []
    ensures var after := WindowSynced(expands, events, calendar, w, items, failed);
            key in after && after[key] == events[key]
  {
    WindowSyncPointwise(expands, events, calendar, w, items, failed, key);
    GoneMeansIntersecting(expands, calendar, w, Keys(items), failed, key, events[key]);
  }

  /** An event that does not convert still counts as seen, so its old row survives, window or not. */
  lemma UnconvertibleKeepsItsRow(expands: Expansion, events: Events, calendar: string, w: Window, event: RemoteEvent)
    requires event.data == None && event.key in events
    ensures var after := WindowSynced(expands, events, calendar, w, [event], {});
            event.key in after && after[event.key] == events[event.key]
  {
    WindowSyncPointwise(expands, events, calendar, w, [event], {}, event.key);
    assert [event][0].key in Keys([event]);
    assert LastFor([event], event.key) == None by { assert [event][..0] == []; }
  }

  /** So the window can stay inexact: one cached event in it, pulled again in a form that does not convert. */
  lemma UnconvertibleLeavesTheWindowInexact(expands: Expansion, calendar: string, w: Window, key: string, data: EventData)
    requires Intersects(expands, data, w)
    ensures var events: Events, items := map[key := Row(calendar, data)], [RemoteEvent(key, None)];
            InWindow(expands, WindowSynced(expands, events, calendar, w, items, {}), calendar, w) !=
            RemoteInWindow(expands, calendar, w, items)
  {
    var events: Events, items := map[key := Row(calendar, data)], [RemoteEvent(key, None)];
    assert LastFor(items, key) == None && items[0].key in Keys(items) by {
      assert items[..0] == [];
    }
    ExactAt(expands, events, calendar, w, items, {}, key);
  }

  // ---------------------------------------------------------------- one window in seconds

  /** `div_euclid(1000)`. */
  function Seconds(ms: int): (r: int) {
    ms / 1000
  }

  /** `epoch_time`: seconds outside the range of the timestamp library become the epoch. */
  function EpochTime(representable: int -> bool, ms: int): (r: int) {
    if representable(Seconds(ms)) then Seconds(ms) else 0
  }

  function PulledWindow(representable: int -> bool, nowMs: int): (r: Window) {
    Window(EpochTime(representable, nowMs - WINDOW_BACK_MS), EpochTime(representable, nowMs + WINDOW_FORWARD_MS))
  }

  function ReconciledWindow(nowMs: int): (r: Window) {
    Window(Seconds(nowMs - WINDOW_BACK_MS), Seconds(nowMs + WINDOW_FORWARD_MS))
  }

  /** Pull and reconcile use the same window in seconds exactly when both ends are representable (or the epoch itself). */
  lemma SameWindow(representable: int -> bool, nowMs: int)
    ensures PulledWindow(representable, nowMs) == ReconciledWindow(nowMs) <==>
            var w := ReconciledWindow(nowMs);
            (representable(w.start) || w.start == 0) && (representable(w.end) || w.end == 0)
  {
  }

  // ---------------------------------------------------------------- discovery

  datatype Tables = Tables(events: Events, calendars: Calendars)

  /** Insert the calendar or refresh its metadata; a listed calendar is no longer unlisted. */
  function UpsertCalendar(calendars: Calendars, c: Listed): (r: Calendars) {
    if c.remoteId !in calendars then calendars[c.remoteId := CalendarRow(c.freshId, c.meta, true, None, None)]
    else calendars[c.remoteId := calendars[c.remoteId].(meta := c.meta, unlistedSince := None)]
  }

  function UpsertListed(calendars: Calendars, listed: seq<Listed>): (r: Calendars) {
    if listed == [] then calendars
    else UpsertCalendar(UpsertListed(calendars, listed[..|listed| - 1]), listed[|listed| - 1])
  }

  function RemoteIds(listed: seq<Listed>): (r: set<string>) {
    set i | 0 <= i < |listed| :: listed[i].remoteId
  }

  /** Rows still marked as listed although the listing omits them. */
  function NewlyUnlisted(calendars: Calendars, listed: set<string>): (r: set<string>) {
    set r | r in calendars && calendars[r].unlistedSince == None && r !in listed
  }

  function Stamped(calendars: Calendars, remoteIds: set<string>, nowMs: int): (r: Calendars) {
    map r | r in calendars :: if r in remoteIds then calendars[r].(unlistedSince := Some(nowMs)) else calendars[r]
  }

  function Expired(calendars: Calendars, nowMs: int): (r: set<string>) {
    set r | r in calendars && calendars[r].unlistedSince.Some? &&
            nowMs - calendars[r].unlistedSince.value >= REAP_THRESHOLD_MS
  }

  function IdsOf(calendars: Calendars, remoteIds: set<string>): (r: set<string>) {
    set r | r in calendars && r in remoteIds :: calendars[r].id
  }

  /** The calendars with these remote ids and every event of theirs are removed. */
  function Reaped(t: Tables, remoteIds: set<string>): (r: Tables) {
    var ids := IdsOf(t.calendars, remoteIds);
    Tables(map key | key in t.events && t.events[key].calendar !in ids :: t.events[key],
           map r | r in t.calendars && r !in remoteIds :: t.calendars[r])
  }

  function Discovered(t: Tables, listed: seq<Listed>, nowMs: int): (r: Tables) {
    var upserted := UpsertListed(t.calendars, listed);
    if listed == [] then t
    else
      var stamped := Stamped(upserted, NewlyUnlisted(upserted, RemoteIds(listed)), nowMs);
      Reaped(Tables(t.events, stamped), Expired(stamped, nowMs))
  }

  /** What the listing says of a remote calendar last. */
  function MetaFor(listed: seq<Listed>, r: string): (meta: Option<string>)
    ensures meta.Some? <==> r in RemoteIds(listed)
  {
    if listed == [] then None
    else
      var last := listed[|listed| - 1];
      assert RemoteIds(listed) == RemoteIds(listed[..|listed| - 1]) + {last.remoteId} by {
        assert forall i :: 0 <= i < |listed| - 1 ==> listed[i] == listed[..|listed| - 1][i];
      }
      if last.remoteId == r then Some(last.meta) else MetaFor(listed[..|listed| - 1], r)
  }

  lemma {:induction false} UpsertListedAt(calendars: Calendars, listed: seq<Listed>, r: string)
    ensures var after := UpsertListed(calendars, listed);
            match MetaFor(listed, r)
            case None => (r in after <==> r in calendars) && (r in after ==> after[r] == calendars[r])
            case Some(meta) =>
              && r in after && after[r].meta == meta && after[r].unlistedSince == None
              && (r in calendars ==> after[r] == calendars[r].(meta := meta, unlistedSince := None))
              && (r !in calendars ==> after[r].visible && after[r].backfilledAt == None)
  {
    if listed != [] {
      UpsertListedAt(calendars, listed[..|listed| - 1], r);
    }
  }

  /**
   * Row by row: a listed calendar carries the listing's metadata, keeps its id, visibility and history stamp, and is
   * listed; an omitted one is stamped on its first omission, kept until the omission is seven days old, and then
   * removed. An empty listing changes nothing.
   */
  lemma DiscoveryPointwise(t: Tables, listed: seq<Listed>, nowMs: int, r: string)
    ensures listed == [] ==> Discovered(t, listed, nowMs) == t
    ensures listed != [] ==>
              var after := Discovered(t, listed, nowMs).calendars;
              match MetaFor(listed, r)
              case Some(meta) =>
                && r in after && after[r].meta == meta && after[r].unlistedSince == None
                && (r in t.calendars ==> after[r] == t.calendars[r].(meta := meta, unlistedSince := None))
              case None =>
                if r !in t.calendars then r !in after
                else if t.calendars[r].unlistedSince == None then
                  r in after && after[r] == t.calendars[r].(unlistedSince := Some(nowMs))
                else if nowMs - t.calendars[r].unlistedSince.value >= REAP_THRESHOLD_MS then r !in after
                else r in after && after[r] == t.calendars[r]
  {
    UpsertListedAt(t.calendars, listed, r);
  }

  /**
   * Discovery removes an event only with a calendar the (non-empty) listing omits and that has been unlisted for seven
   * days; it never alters one.
   */
  lemma DiscoveryRemovesOnlyExpired(t: Tables, listed: seq<Listed>, nowMs: int, key: string)
    requires key in t.events
    ensures var after := Discovered(t, listed, nowMs).events;
            if key in after then after[key] == t.events[key]
            else exists r :: r in t.calendars && t.calendars[r].id == t.events[key].calendar && r !in RemoteIds(listed)
                             && t.calendars[r].unlistedSince.Some? && listed != []
                             && nowMs - t.calendars[r].unlistedSince.value >= REAP_THRESHOLD_MS
  {
    if listed != [] {
      var upserted := UpsertListed(t.calendars, listed);
      var stamped := Stamped(upserted, NewlyUnlisted(upserted, RemoteIds(listed)), nowMs);
      if t.events[key].calendar in IdsOf(stamped, Expired(stamped, nowMs)) {
        var r :| r in stamped && r in Expired(stamped, nowMs) && stamped[r].id == t.events[key].calendar;
        UpsertListedAt(t.calendars, listed, r);
      }
    }
  }

  // ---------------------------------------------------------------- targets

  /** A visible row of the cache. */
  datatype Visible = Visible(id: string, remoteId: string)

  /** A calendar to pull: its local id and the id the backend wants. */
  datatype Target = Target(calendar: string, source: string)

  /** The first listed calendar with this remote id. */
  function FirstSource(listed: seq<Listed>, remoteId: string): (source: Option<string>)
    ensures source.Some? <==> remoteId in RemoteIds(listed)
  {
    if listed == [] then None
    else
      assert RemoteIds(listed) == RemoteIds(listed[1..]) + {listed[0].remoteId} by {
        assert forall i :: 0 < i < |listed| ==> listed[i] == listed[1..][i - 1];
      }
      if listed[0].remoteId == remoteId then Some(listed[0].source) else FirstSource(listed[1..], remoteId)
  }

  function ResolveSyncTargets(listed: seq<Listed>, visible: seq<Visible>): (r: seq<Target>) {
    if visible == [] then []
    else
      var rest := ResolveSyncTargets(listed, visible[1..]);
      match FirstSource(listed, visible[0].remoteId)
      case Some(source) => [Target(visible[0].id, source)] + rest
      case None => rest
  }

  /** Exactly the visible rows the backend lists; a row only an earlier backend knew is never pulled. */
  lemma {:induction false} TargetsAreVisibleAndListed(listed: seq<Listed>, visible: seq<Visible>, target: Target)
    ensures target in ResolveSyncTargets(listed, visible) <==>
            exists v :: v in visible && v.remoteId in RemoteIds(listed)
                        && target == Target(v.id, FirstSource(listed, v.remoteId).value)
  {
    if visible != [] {
      TargetsAreVisibleAndListed(listed, visible[1..], target);
      assert visible == [visible[0]] + visible[1..];
    }
  }
}
