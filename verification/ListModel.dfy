/** The dashboard's list: live and finished calls merged, the selection, and the render cache behind it. */
module ListModel {
  import L = Live
  import opened History

  type Id = string

  const CELL_CACHE_CAP: nat := 200

  /** A call in flight; `version` counts the events applied to it. */
  datatype Active = Active(view: L.Control, startedAt: L.Time, version: nat)

  const NEW_CALL: Active := Active(L.FRESH, 0, 0)

  /** An event as it arrives, with the clock and the running time of its call at that moment. */
  datatype Arrival = Arrival(id: Id, event: L.Event, now: L.Time, elapsed: int)

  datatype Cell = Cell(left: seq<string>, version: nat)

  datatype Option<T> = None | Some(value: T)

  // ---- What the list shows ----

  /** A call in flight as an entry, with the time it has been running. */
  function AsEntry(id: Id, a: Active, now: L.Time): CallEntry
  {
    CallEntry(id, a.startedAt, a.view.info.sessionID, a.view.info.input, a.view.info.steps, [], now - a.startedAt, "")
  }

  predicate Listed(entries: seq<CallEntry>, id: Id)
  {
    exists i :: 0 <= i < |entries| && entries[i].id == id
  }

  /** The calls in flight that are not finished already, in order of arrival. */
  function Flying(entries: seq<CallEntry>, active: map<Id, Active>, ids: seq<Id>, now: L.Time): seq<CallEntry>
  {
    if ids == [] then []
    else
      var id := ids[|ids| - 1];
      Flying(entries, active, ids[..|ids| - 1], now)
      + if id in active && !Listed(entries, id) then [AsEntry(id, active[id], now)] else []
  }

  function Merge(entries: seq<CallEntry>, active: map<Id, Active>, ids: seq<Id>, now: L.Time): seq<CallEntry>
  {
    Flying(entries, active, ids, now) + entries
  }

  /** The first entry with the id. */
  function Lookup(merged: seq<CallEntry>, id: Id): Option<CallEntry>
  {
    if merged == [] then None else if merged[0].id == id then Some(merged[0]) else Lookup(merged[1..], id)
  }

  /** A search finds the first entry that has the id. */
  lemma {:induction false} LookupIsFirst(merged: seq<CallEntry>, id: Id)
    ensures Lookup(merged, id).Some? <==> Listed(merged, id)
    ensures forall i :: 0 <= i < |merged| && merged[i].id == id && (forall j :: 0 <= j < i ==> merged[j].id != id) ==>
      Lookup(merged, id) == Some(merged[i])
  {
    if merged != [] && merged[0].id != id {
      LookupIsFirst(merged[1..], id);
      if Listed(merged, id) {
        var i :| 0 <= i < |merged| && merged[i].id == id;
        assert merged[1..][i - 1].id == id;
      }
      forall i | 0 <= i < |merged| && merged[i].id == id && (forall j :: 0 <= j < i ==> merged[j].id != id)
        ensures Lookup(merged, id) == Some(merged[i])
      {
        assert i > 0 && merged[1..][i - 1] == merged[i];
        forall j | 0 <= j < i - 1 ensures merged[1..][j].id != id {
          assert merged[1..][j] == merged[j + 1];
        }
      }
    }
  }

  /** The entry that the list shows for a call. */
  function Shown(entries: seq<CallEntry>, active: map<Id, Active>, id: Id, now: L.Time): Option<CallEntry>
  {
    if Listed(entries, id) then Lookup(entries, id) else if id in active then Some(AsEntry(id, active[id], now)) else None
  }

  lemma {:induction false} LookupSkips(a: seq<CallEntry>, b: seq<CallEntry>, id: Id)
    requires !Listed(a, id)
    ensures Lookup(a + b, id) == Lookup(b, id)
    decreases |a|
  {
    if a == [] {
      assert a + b == b;
    } else {
      assert (a + b)[1..] == a[1..] + b && a[0].id != id;
      assert !Listed(a[1..], id) by {
        assert forall i :: 0 <= i < |a| - 1 ==> a[1..][i] == a[i + 1];
      }
      LookupSkips(a[1..], b, id);
    }
  }

  lemma {:induction false} LookupStops(a: seq<CallEntry>, b: seq<CallEntry>, id: Id)
    requires Listed(a, id)
    ensures Lookup(a + b, id) == Lookup(a, id) && Lookup(a, id).Some?
    decreases |a|
  {
    if a[0].id != id {
      assert (a + b)[1..] == a[1..] + b;
      var i :| 0 <= i < |a| && a[i].id == id;
      assert a[1..][i - 1].id == id;
      LookupStops(a[1..], b, id);
    }
  }

  lemma {:induction false} FlyingLists(entries: seq<CallEntry>, active: map<Id, Active>, ids: seq<Id>, id: Id,
      now: L.Time)
    ensures Listed(Flying(entries, active, ids, now), id) <==> id in ids && id in active && !Listed(entries, id)
    ensures Listed(Flying(entries, active, ids, now), id) ==>
      Lookup(Flying(entries, active, ids, now), id) == Some(AsEntry(id, active[id], now))
  {
    if ids != [] {
      var front, last := ids[..|ids| - 1], ids[|ids| - 1];
      FlyingLists(entries, active, front, id, now);
      var before := Flying(entries, active, front, now);
      var extra := if last in active && !Listed(entries, last) then [AsEntry(last, active[last], now)] else [];
      ListedJoin(before, extra, id);
      if Listed(before, id) {
        LookupStops(before, extra, id);
      } else {
        LookupSkips(before, extra, id);
      }
      assert id in ids <==> id in front || id == last;
    }
  }

  lemma ListedJoin(a: seq<CallEntry>, b: seq<CallEntry>, id: Id)
    ensures Listed(a + b, id) <==> Listed(a, id) || Listed(b, id)
  {
    if Listed(a, id) {
      var i :| 0 <= i < |a| && a[i].id == id;
      assert (a + b)[i].id == id;
    }
    if Listed(b, id) {
      var i :| 0 <= i < |b| && b[i].id == id;
      assert (a + b)[|a| + i].id == id;
    }
  }

  /** What a search of the merged list finds, without the list. */
  lemma MergeShows(entries: seq<CallEntry>, active: map<Id, Active>, ids: seq<Id>, id: Id, now: L.Time)
    requires forall k :: k in active ==> k in ids
    ensures Lookup(Merge(entries, active, ids, now), id) == Shown(entries, active, id, now)
  {
    FlyingLists(entries, active, ids, id, now);
    var flying := Flying(entries, active, ids, now);
    if Listed(flying, id) {
      LookupStops(flying, entries, id);
    } else {
      LookupSkips(flying, entries, id);
      if !Listed(entries, id) {
        NotFound(entries, id);
      }
    }
  }

  lemma {:induction false} NotFound(entries: seq<CallEntry>, id: Id)
    requires !Listed(entries, id)
    ensures Lookup(entries, id) == None
  {
    LookupSkips(entries, [], id);
    assert entries + [] == entries;
  }

  // ---- Distinct ids ----

  ghost predicate Distinct(entries: seq<CallEntry>)
  {
    forall i, j :: 0 <= i < j < |entries| ==> entries[i].id != entries[j].id
  }

  ghost predicate NoDup(ids: seq<Id>)
  {
    forall i, j :: 0 <= i < j < |ids| ==> ids[i] != ids[j]
  }

  lemma {:induction false} FlyingDistinct(entries: seq<CallEntry>, active: map<Id, Active>, ids: seq<Id>, now: L.Time)
    requires NoDup(ids)
    ensures Distinct(Flying(entries, active, ids, now))
  {
    if ids != [] {
      var front, last := ids[..|ids| - 1], ids[|ids| - 1];
      FlyingDistinct(entries, active, front, now);
      FlyingLists(entries, active, front, last, now);
      assert last !in front;
    }
  }

  /** The entry is that of a call in flight that is not finished. */
  ghost predicate FliesAs(e: CallEntry, entries: seq<CallEntry>, active: map<Id, Active>, ids: seq<Id>, now: L.Time)
  {
    && e.id in ids && e.id in active && !Listed(entries, e.id)
    && e.timestamp == active[e.id].startedAt && e.durationMs == now - active[e.id].startedAt
    && e.sessionID == active[e.id].view.info.sessionID && e.input == active[e.id].view.info.input
    && e.steps == active[e.id].view.info.steps && e.results == [] && e.error == ""
  }

  /** The entries come in the order of their ids. */
  ghost predicate InOrder(flying: seq<CallEntry>, ids: seq<Id>)
  {
    forall i, j, a, b :: 0 <= i < j < |flying| && 0 <= a < |ids| && 0 <= b < |ids| && ids[a] == flying[i].id && ids[b] == flying[j].id ==> a < b
  }

  lemma {:induction false} FlyingHolds(entries: seq<CallEntry>, active: map<Id, Active>, ids: seq<Id>, now: L.Time)
    requires NoDup(ids)
    ensures
      var flying := Flying(entries, active, ids, now);
      InOrder(flying, ids) && forall i :: 0 <= i < |flying| ==> FliesAs(flying[i], entries, active, ids, now)
  {
    if ids != [] {
      var n := |ids| - 1;
      FlyingHolds(entries, active, ids[..n], now);
      var before, flying := Flying(entries, active, ids[..n], now), Flying(entries, active, ids, now);
      assert |flying| <= |before| + 1 && flying[..|before|] == before;
      forall i | 0 <= i < |before| ensures FliesAs(flying[i], entries, active, ids, now) && flying[i].id in ids[..n] {
        assert FliesAs(before[i], entries, active, ids[..n], now) && flying[i] == before[i];
      }
      hide Flying, FliesAs, Listed;
      OrderSnoc(before, flying, ids);
    }
  }

  lemma OrderSnoc(before: seq<CallEntry>, flying: seq<CallEntry>, ids: seq<Id>)
    requires ids != [] && NoDup(ids) && InOrder(before, ids[..|ids| - 1])
    requires |before| <= |flying| <= |before| + 1 && flying[..|before|] == before
    requires forall i :: 0 <= i < |before| ==> flying[i].id in ids[..|ids| - 1]
    requires |flying| > |before| ==> flying[|before|].id == ids[|ids| - 1]
    ensures InOrder(flying, ids)
  {
    var n := |ids| - 1;
    forall i, j, a, b | 0 <= i < j < |flying| && 0 <= a < |ids| && 0 <= b < |ids| && ids[a] == flying[i].id && ids[b] == flying[j].id
      ensures a < b
    {
      assert i < |before|;
      InFront(ids, a);
      if j < |before| {
        InFront(ids, b);
        assert before[i] == flying[i] && before[j] == flying[j];
        assert ids[..n][a] == ids[a] && ids[..n][b] == ids[b];
      } else {
        assert ids[b] == ids[n];
      }
    }
  }

  lemma InFront(ids: seq<Id>, a: nat)
    requires NoDup(ids) && a < |ids| && ids[a] in ids[..|ids| - 1]
    ensures a < |ids| - 1
  {
  }

  /**
   The merged list: in front, in the order of arrival, each call in flight that is not finished, with its running
   time; then the finished ones as they are.
   */
  lemma {:induction false} MergedHolds(entries: seq<CallEntry>, active: map<Id, Active>, ids: seq<Id>, now: L.Time)
    requires NoDup(ids)
    ensures
      var merged := Merge(entries, active, ids, now);
      var n := |merged| - |entries|;
      && 0 <= n && merged[n..] == entries && InOrder(merged[..n], ids)
      && (forall i :: 0 <= i < n ==> FliesAs(merged[i], entries, active, ids, now))
      && (forall id :: id in ids && id in active && !Listed(entries, id) ==> Listed(merged[..n], id))
  {
    FlyingHolds(entries, active, ids, now);
    var flying, merged := Flying(entries, active, ids, now), Merge(entries, active, ids, now);
    assert merged[..|flying|] == flying && merged[|flying|..] == entries;
    forall id | id in ids && id in active && !Listed(entries, id) ensures Listed(flying, id) {
      FlyingLists(entries, active, ids, id, now);
    }
    hide Flying, FliesAs, Listed, InOrder;
  }

  /** The merged list repeats no id exactly if the finished calls do not. */
  lemma {:induction false} MergedDistinct(entries: seq<CallEntry>, active: map<Id, Active>, ids: seq<Id>, now: L.Time)
    requires NoDup(ids)
    ensures Distinct(Merge(entries, active, ids, now)) <==> Distinct(entries)
  {
    FlyingDistinct(entries, active, ids, now);
    var flying, merged := Flying(entries, active, ids, now), Merge(entries, active, ids, now);
    if Distinct(merged) {
      assert forall i :: 0 <= i < |entries| ==> entries[i] == merged[|flying| + i];
    }
    forall i | 0 <= i < |flying| ensures !Listed(entries, flying[i].id) {
      FlyingLists(entries, active, ids, flying[i].id, now);
    }
  }

  // ---- The filter and the cursor ----

  type Matcher = (CallEntry, string) -> bool

  /** The positions of the entries that match the query. */
  function Filter(merged: seq<CallEntry>, matches: Matcher, query: string): seq<nat>
  {
    if merged == [] then []
    else
      var n := |merged| - 1;
      Filter(merged[..n], matches, query) + if matches(merged[n], query) then [n] else []
  }

  /** Exactly the positions of the entries that match, in order. */
  ghost predicate Matching(filtered: seq<nat>, merged: seq<CallEntry>, matches: Matcher, query: string)
  {
    && (forall i, j :: 0 <= i < j < |filtered| ==> filtered[i] < filtered[j])
    && (forall k :: k in filtered ==> k < |merged| && matches(merged[k], query))
    && (forall k :: 0 <= k < |merged| && matches(merged[k], query) ==> k in filtered)
  }

  lemma {:induction false} FilterMatches(merged: seq<CallEntry>, matches: Matcher, query: string)
    ensures Matching(Filter(merged, matches, query), merged, matches, query)
  {
    if merged != [] {
      var n := |merged| - 1;
      FilterMatches(merged[..n], matches, query);
      var front := Filter(merged[..n], matches, query);
      forall i | 0 <= i < |front| ensures front[i] < n {
        assert front[i] in front;
      }
      forall k | 0 <= k < |merged| && matches(merged[k], query) ensures k in Filter(merged, matches, query) {
        if k < n {
          assert merged[..n][k] == merged[k] && k in front;
        }
      }
    }
  }

  lemma FilterIndices(merged: seq<CallEntry>, matches: Matcher, query: string)
    ensures forall k :: 0 <= k < |Filter(merged, matches, query)| ==> Filter(merged, matches, query)[k] < |merged|
  {
    FilterMatches(merged, matches, query);
    hide Filter;
    var filtered := Filter(merged, matches, query);
    forall k | 0 <= k < |filtered| ensures filtered[k] < |merged| {
      assert filtered[k] in filtered;
    }
  }

  /** The id is shown at a position of the filtered list. */
  predicate ShownAt(merged: seq<CallEntry>, filtered: seq<nat>, k: int, id: Id)
  {
    0 <= k < |filtered| && filtered[k] < |merged| && merged[filtered[k]].id == id
  }

  // ---- The cache ----

  /** How an entry is drawn at a width, live or not. */
  type Painter = (CallEntry, int, bool) -> seq<string>

  function Draw(draw: Painter, e: Option<CallEntry>, width: int, live: bool): seq<string>
  {
    if e.None? then [] else draw(e.value, width, live)
  }

  /** A cell built for the calls as they are, and for the clock at `now`. */
  function Current(draw: Painter, width: int,
      entries: seq<CallEntry>, active: map<Id, Active>, id: Id, now: L.Time): seq<string>
  {
    Draw(draw, Shown(entries, active, id, now), width, id in active)
  }

  /** What a fresh build would have drawn at some time up to `clock`, for the calls as they are. */
  ghost predicate Recent(draw: Painter, width: int,
      entries: seq<CallEntry>, active: map<Id, Active>, id: Id, left: seq<string>, clock: L.Time)
  {
    exists now :: now <= clock && left == Current(draw, width, entries, active, id, now)
  }

  /** Cells are never newer than their call, and those as new as it are right, but for the running time of a live call. */
  ghost predicate CellOk(draw: Painter, width: int,
      entries: seq<CallEntry>, active: map<Id, Active>, id: Id, c: Cell, clock: L.Time)
  {
    if id in active then
      c.version <= active[id].version && (c.version == active[id].version ==> Recent(draw, width, entries, active, id, c.left, clock))
    else c.version == 0 && Recent(draw, width, entries, active, id, c.left, clock)
  }

  ghost predicate CellsOk(draw: Painter, width: int,
      entries: seq<CallEntry>, active: map<Id, Active>, cells: map<Id, Cell>, clock: L.Time)
  {
    forall id :: id in cells ==> CellOk(draw, width, entries, active, id, cells[id], clock)
  }

  /** A finished call shows no running time, so that its cell is exact. */
  lemma FinishedIsExact(draw: Painter, width: int,
      entries: seq<CallEntry>, active: map<Id, Active>, id: Id, left: seq<string>, clock: L.Time)
    requires Recent(draw, width, entries, active, id, left, clock) && (id !in active || Listed(entries, id))
    ensures left == Current(draw, width, entries, active, id, clock)
  {
  }

  lemma FinishedIfDone(draw: Painter, width: int,
      entries: seq<CallEntry>, active: map<Id, Active>, id: Id, left: seq<string>, clock: L.Time)
    requires Recent(draw, width, entries, active, id, left, clock)
    ensures id !in active || Listed(entries, id) ==> left == Current(draw, width, entries, active, id, clock)
  {
    if id !in active || Listed(entries, id) {
      FinishedIsExact(draw, width, entries, active, id, left, clock);
    }
  }

  lemma RecentLater(draw: Painter, width: int,
      entries: seq<CallEntry>, active: map<Id, Active>, id: Id, left: seq<string>, clock: L.Time, later: L.Time)
    requires Recent(draw, width, entries, active, id, left, clock) && clock <= later
    ensures Recent(draw, width, entries, active, id, left, later)
  {
    var now :| now <= clock && left == Current(draw, width, entries, active, id, now);
    assert now <= later;
  }

  lemma CellsLater(draw: Painter, width: int,
      entries: seq<CallEntry>, active: map<Id, Active>, cells: map<Id, Cell>, clock: L.Time, later: L.Time)
    requires CellsOk(draw, width, entries, active, cells, clock) && clock <= later
    ensures CellsOk(draw, width, entries, active, cells, later)
  {
    forall id | id in cells ensures CellOk(draw, width, entries, active, id, cells[id], later) {
      assert CellOk(draw, width, entries, active, id, cells[id], clock);
      if Recent(draw, width, entries, active, id, cells[id].left, clock) {
        RecentLater(draw, width, entries, active, id, cells[id].left, clock, later);
      }
    }
  }

  /** Every cached id is in the list of candidates for eviction, which repeats none. */
  ghost predicate LruOk(cells: map<Id, Cell>, lru: seq<Id>)
  {
    NoDup(lru) && forall id :: id in cells ==> id in lru
  }

  lemma {:induction false} KeysFit(keys: set<Id>, lru: seq<Id>)
    requires NoDup(lru) && forall id :: id in keys ==> id in lru
    ensures |keys| <= |lru|
    decreases |lru|
  {
    if lru == [] {
      assert keys == {};
    } else {
      var front, last := lru[..|lru| - 1], lru[|lru| - 1];
      forall id | id in keys - {last} ensures id in front {
        var i :| 0 <= i < |lru| && lru[i] == id;
        assert front[i] == id;
      }
      KeysFit(keys - {last}, front);
    }
  }

  /** An event for one call leaves every other call's entry alone. */
  lemma OthersShown(entries: seq<CallEntry>, active: map<Id, Active>, entries2: seq<CallEntry>, active2: map<Id, Active>,
      id: Id, other: Id, now: L.Time)
    requires other != id
    requires other in active <==> other in active2
    requires other in active ==> active[other] == active2[other]
    requires entries2 == entries || (exists e: CallEntry :: e.id == id && entries2 == [e] + entries)
    ensures Shown(entries2, active2, other, now) == Shown(entries, active, other, now)
  {
    if entries2 != entries {
      var e: CallEntry :| e.id == id && entries2 == [e] + entries;
      ListedJoin([e], entries, other);
      LookupSkips([e], entries, other);
    }
  }

  lemma CellsKept(draw: Painter, width: int,
      entries: seq<CallEntry>, active: map<Id, Active>, cells: map<Id, Cell>,
      entries2: seq<CallEntry>, active2: map<Id, Active>, cells2: map<Id, Cell>, id: Id, clock: L.Time)
    requires CellsOk(draw, width, entries, active, cells, clock)
    requires forall other :: other in cells2 ==> other in cells && cells2[other] == cells[other]
    requires forall other :: other != id ==> (other in active <==> other in active2)
    requires forall other :: other != id && other in active ==> active2[other] == active[other]
    requires entries2 == entries || (exists e: CallEntry :: e.id == id && entries2 == [e] + entries)
    requires id in cells2 ==> id in active2 && cells2[id].version < active2[id].version
    ensures CellsOk(draw, width, entries2, active2, cells2, clock)
  {
    forall other | other in cells2 ensures CellOk(draw, width, entries2, active2, other, cells2[other], clock) {
      assert CellOk(draw, width, entries, active, other, cells[other], clock);
      if other != id && Recent(draw, width, entries, active, other, cells[other].left, clock) {
        var now :| now <= clock && cells[other].left == Current(draw, width, entries, active, other, now);
        OthersShown(entries, active, entries2, active2, id, other, now);
        assert cells[other].left == Current(draw, width, entries2, active2, other, now);
      }
    }
  }

  /** The calls in flight are listed once each, and have seen an event. */
  ghost predicate Flights(active: map<Id, Active>, ids: seq<Id>)
  {
    && NoDup(ids)
    && (forall id :: id in active <==> id in ids)
    && (forall id :: id in active ==> active[id].version > 0)
  }

  ghost predicate Cache(draw: Painter, width: int, entries: seq<CallEntry>, active: map<Id, Active>,
      cells: map<Id, Cell>, lru: seq<Id>, dirty: bool, clock: L.Time)
  {
    && CellsOk(draw, width, entries, active, cells, clock)
    && LruOk(cells, lru)
    && (|cells| > CELL_CACHE_CAP ==> dirty)
  }

  lemma CacheLater(draw: Painter, width: int, entries: seq<CallEntry>, active: map<Id, Active>,
      cells: map<Id, Cell>, lru: seq<Id>, dirty: bool, clock: L.Time, later: L.Time)
    requires Cache(draw, width, entries, active, cells, lru, dirty, clock) && clock <= later
    ensures Cache(draw, width, entries, active, cells, lru, dirty, later)
  {
    hide CellsOk, LruOk;
    CellsLater(draw, width, entries, active, cells, clock, later);
  }

  /** The ids of calls still in flight, in their order. */
  function StillFlying(active: map<Id, Active>, ids: seq<Id>): seq<Id>
  {
    if ids == [] then []
    else StillFlying(active, ids[..|ids| - 1]) + if ids[|ids| - 1] in active then [ids[|ids| - 1]] else []
  }

  /** When a call ends, its id goes and the others keep their order. */
  lemma {:induction false} OthersKeepOrder(active: map<Id, Active>, ids: seq<Id>, i: nat)
    requires NoDup(ids) && i < |ids| && forall k :: 0 <= k < |ids| && k != i ==> ids[k] in active
    requires ids[i] !in active
    ensures StillFlying(active, ids) == ids[..i] + ids[i + 1..]
    decreases |ids|
  {
    var n := |ids| - 1;
    if i < n {
      OthersKeepOrder(active, ids[..n], i);
      assert ids[i + 1..] == ids[..n][i + 1..] + [ids[n]];
    } else {
      AllKept(active, ids[..n]);
    }
  }

  lemma {:induction false} AllKept(active: map<Id, Active>, ids: seq<Id>)
    requires forall k :: 0 <= k < |ids| ==> ids[k] in active
    ensures StillFlying(active, ids) == ids
  {
    if ids != [] {
      AllKept(active, ids[..|ids| - 1]);
    }
  }

  /** The candidates without one. */
  function Without(ids: seq<Id>, id: Id): seq<Id>
  {
    if ids == [] then [] else if ids[0] == id then ids[1..] else [ids[0]] + Without(ids[1..], id)
  }

  lemma {:induction false} WithoutAt(ids: seq<Id>, i: nat, id: Id)
    requires i <= |ids| && forall k :: 0 <= k < i ==> ids[k] != id
    ensures i < |ids| && ids[i] == id ==> Without(ids, id) == ids[..i] + ids[i + 1..]
    ensures i == |ids| ==> Without(ids, id) == ids
    decreases i
  {
    if i > 0 {
      WithoutAt(ids[1..], i - 1, id);
      if i < |ids| && ids[i] == id {
        assert ids[..i] + ids[i + 1..] == [ids[0]] + (ids[1..][..i - 1] + ids[1..][i..]);
      }
    }
  }

  lemma FlightsAdd(active: map<Id, Active>, ids: seq<Id>, id: Id, a: Active)
    requires Flights(active, ids) && a.version > 0
    ensures Flights(active[id := a], if id in active then ids else ids + [id])
  {
    AppendId(ids, id);
  }

  lemma FlightsDrop(active: map<Id, Active>, ids: seq<Id>, id: Id)
    requires Flights(active, ids)
    ensures NoDup(ids) && forall k :: k in active - {id} ==> k in ids
    ensures forall rest :: NoDup(rest) && (forall k :: k in active - {id} <==> k in rest) ==> Flights(active - {id}, rest)
  {
  }

  lemma CacheTick(draw: Painter, width: int, entries: seq<CallEntry>, active: map<Id, Active>,
      cells: map<Id, Cell>, lru: seq<Id>, dirty: bool, clock: L.Time, id: Id, a: Active)
    requires Cache(draw, width, entries, active, cells, lru, dirty, clock)
    requires a.version > (if id in active then active[id].version else 0)
    ensures Cache(draw, width, entries, active[id := a], cells, lru, dirty, clock)
  {
    CellVersion(draw, width, entries, active, cells, id, clock);
    CellsKept(draw, width, entries, active, cells, entries, active[id := a], cells, id, clock);
  }

  /** A cell built for the state as it is goes into the cache, its id to the end of the list. */
  lemma {:induction false} CacheStore(draw: Painter, width: int, entries: seq<CallEntry>, active: map<Id, Active>,
      cells: map<Id, Cell>, lru: seq<Id>, dirty: bool, clock: L.Time, id: Id, cell: Cell)
    requires Cache(draw, width, entries, active, cells, lru, dirty, clock)
    requires CellOk(draw, width, entries, active, id, cell, clock)
    ensures NoDup(lru)
    ensures
      var longer := Without(lru, id) + [id];
      Cache(draw, width, entries, active, cells[id := cell], longer, dirty || |longer| > CELL_CACHE_CAP, clock)
  {
    hide CellOk;
    WithoutNoDup(lru, id);
    AppendId(Without(lru, id), id);
    KeysFit(cells[id := cell].Keys, Without(lru, id) + [id]);
  }

  lemma {:induction false} WithoutNoDup(ids: seq<Id>, id: Id)
    requires NoDup(ids)
    ensures NoDup(Without(ids, id)) && forall k :: k in Without(ids, id) <==> k in ids && k != id
  {
    if ids != [] {
      var rest := ids[1..];
      assert ids == [ids[0]] + rest && ids[0] !in rest;
      if ids[0] != id {
        WithoutNoDup(rest, id);
        PrependId(ids[0], Without(rest, id));
      }
    }
  }

  /** The cells and the candidates that are left when the oldest candidates go until the cap is met. */
  function Evicted(cells: map<Id, Cell>, lru: seq<Id>): (map<Id, Cell>, seq<Id>)
    decreases |lru|
  {
    if |cells| <= CELL_CACHE_CAP || lru == [] then (cells, lru) else Evicted(cells - {lru[0]}, lru[1..])
  }

  lemma {:induction false} EvictedKeeps(draw: Painter, width: int, entries: seq<CallEntry>, active: map<Id, Active>,
      cells: map<Id, Cell>, lru: seq<Id>, clock: L.Time)
    requires CellsOk(draw, width, entries, active, cells, clock) && LruOk(cells, lru)
    ensures
      var (left, rest) := Evicted(cells, lru);
      CellsOk(draw, width, entries, active, left, clock) && LruOk(left, rest) && |left| <= CELL_CACHE_CAP
    decreases |lru|
  {
    hide CellOk;
    if |cells| > CELL_CACHE_CAP {
      KeysFit(cells.Keys, lru);
      FirstDropped(cells, lru);
      EvictedKeeps(draw, width, entries, active, cells - {lru[0]}, lru[1..], clock);
    }
  }

  /**
   What goes is a front part of the candidates, with their cells and no others; none if the cap is met, and else
   no more than to meet it.
   */
  lemma {:induction false} EvictsTheOldest(cells: map<Id, Cell>, lru: seq<Id>) returns (k: nat)
    ensures k <= |lru|
    ensures
      var (left, rest) := Evicted(cells, lru);
      && rest == lru[k..] && (|left| <= 200 || rest == []) && (if |cells| <= 200 then k == 0 else |left| >= 200 || rest == [])
      && Spared(cells, lru[..k], left)
    decreases |lru|
  {
    if |cells| <= CELL_CACHE_CAP || lru == [] {
      return 0;
    }
    hide Evicted, Spared;
    var m := EvictsTheOldest(cells - {lru[0]}, lru[1..]);
    k := m + 1;
    OneFewer(cells, lru[0]);
    FrontGrows(lru, m);
    Evict(cells, lru);
    SparedStep(cells, lru[0], lru[1..][..m], Evicted(cells, lru).0);
  }

  lemma FrontGrows(lru: seq<Id>, m: nat)
    requires m < |lru|
    ensures lru[1..][m..] == lru[m + 1..] && [lru[0]] + lru[1..][..m] == lru[..m + 1]
  {
  }

  /** What is left are the cells whose ids are not gone. */
  ghost predicate Spared(cells: map<Id, Cell>, gone: seq<Id>, left: map<Id, Cell>)
  {
    forall id :: (id in left <==> id in cells && id !in gone) && (id in left ==> left[id] == cells[id])
  }

  lemma SparedStep(cells: map<Id, Cell>, id: Id, gone: seq<Id>, left: map<Id, Cell>)
    requires Spared(cells - {id}, gone, left)
    ensures Spared(cells, [id] + gone, left)
  {
  }

  lemma Evict(cells: map<Id, Cell>, lru: seq<Id>)
    requires |cells| > 200 && lru != []
    ensures Evicted(cells, lru) == Evicted(cells - {lru[0]}, lru[1..])
    ensures |cells - {lru[0]}| == 200 ==> Evicted(cells, lru) == (cells - {lru[0]}, lru[1..])
  {
  }

  lemma OneFewer(cells: map<Id, Cell>, id: Id)
    ensures |cells - {id}| >= |cells| - 1
  {
    if id in cells {
      assert cells == (cells - {id})[id := cells[id]];
    } else {
      assert cells == cells - {id};
    }
  }

  lemma CacheEnd(draw: Painter, width: int, entries: seq<CallEntry>, active: map<Id, Active>,
      cells: map<Id, Cell>, lru: seq<Id>, dirty: bool, clock: L.Time, id: Id, entry: CallEntry)
    requires Cache(draw, width, entries, active, cells, lru, dirty, clock) && entry.id == id
    ensures Cache(draw, width, [entry] + entries, active - {id}, cells - {id}, lru, dirty, clock)
  {
    LruDrop(cells, lru, id);
    CellsKept(draw, width, entries, active, cells, [entry] + entries, active - {id}, cells - {id}, id, clock);
  }

  // ---- The list by the events that made it ----

  /** The last event of the call was not its end. */
  predicate InFlight(seen: seq<Arrival>, id: Id)
  {
    if seen == [] then false
    else if seen[|seen| - 1].id == id then !seen[|seen| - 1].event.CallEnd?
    else InFlight(seen[..|seen| - 1], id)
  }

  predicate HasEnded(seen: seq<Arrival>, id: Id)
  {
    exists i :: 0 <= i < |seen| && seen[i].id == id && seen[i].event.CallEnd?
  }

  /** A call is live if an event follows its last end, and finished once it has ended. */
  ghost predicate Told(seen: seq<Arrival>, entries: seq<CallEntry>, active: map<Id, Active>)
  {
    forall id :: (id in active <==> InFlight(seen, id)) && (Listed(entries, id) <==> HasEnded(seen, id))
  }

  lemma EndedSnoc(seen: seq<Arrival>, a: Arrival, id: Id)
    ensures InFlight(seen + [a], id) == if a.id == id then !a.event.CallEnd? else InFlight(seen, id)
    ensures HasEnded(seen + [a], id) <==> HasEnded(seen, id) || (a.id == id && a.event.CallEnd?)
  {
    var all := seen + [a];
    assert all[..|seen|] == seen && all[|seen|] == a;
    if HasEnded(seen, id) {
      var i :| 0 <= i < |seen| && seen[i].id == id && seen[i].event.CallEnd?;
      assert all[i] == seen[i];
    }
    if HasEnded(all, id) {
      var i :| 0 <= i < |all| && all[i].id == id && all[i].event.CallEnd?;
      assert i < |seen| ==> seen[i] == all[i];
    }
  }

  lemma ToldNext(seen: seq<Arrival>, a: Arrival, entries: seq<CallEntry>, active: map<Id, Active>,
      entries2: seq<CallEntry>, active2: map<Id, Active>)
    requires Told(seen, entries, active)
    requires active2.Keys == if a.event.CallEnd? then active.Keys - {a.id} else active.Keys + {a.id}
    requires
      if a.event.CallEnd? then entries2 != [] && entries2[0].id == a.id && entries2 == [entries2[0]] + entries
      else entries2 == entries
    ensures Told(seen + [a], entries2, active2)
  {
    hide Listed, InFlight, HasEnded;
    forall id ensures (id in active2 <==> InFlight(seen + [a], id)) && (Listed(entries2, id) <==> HasEnded(seen + [a], id)) {
      EndedSnoc(seen, a, id);
      assert id in active2 <==> id in active2.Keys;
      if a.event.CallEnd? {
        ListedJoin([entries2[0]], entries, id);
        ListedOne(entries2[0], id);
      }
    }
  }

  // ---- The calls by their events ----

  /** The arrivals of a call since it last ended. */
  ghost function Flight(seen: seq<Arrival>, id: Id): seq<Arrival>
  {
    if seen == [] then []
    else
      var front, a := seen[..|seen| - 1], seen[|seen| - 1];
      if a.id != id then Flight(front, id) else if a.event.CallEnd? then [] else Flight(front, id) + [a]
  }

  ghost function Events(arrivals: seq<Arrival>): seq<L.Event>
  {
    seq(|arrivals|, i requires 0 <= i < |arrivals| => arrivals[i].event)
  }

  /** When the call began: with its latest start. */
  ghost function Began(arrivals: seq<Arrival>): L.Time
  {
    if arrivals == [] then 0
    else
      var a := arrivals[|arrivals| - 1];
      if a.event.CallStart? then StartOf(a.event, a.now) else Began(arrivals[..|arrivals| - 1])
  }

  /** A call in flight is what its events have made of it. */
  ghost predicate Follows(a: Active, p: L.Parsing, flight: seq<Arrival>)
  {
    a.view == L.After(L.FRESH, p, Events(flight)) && a.startedAt == Began(flight) && a.version == |flight|
  }

  /** The finished calls, the last to end in front: each as its events have left it. */
  ghost function Finished(p: L.Parsing, seen: seq<Arrival>): seq<CallEntry>
  {
    if seen == [] then []
    else
      var front, a := seen[..|seen| - 1], seen[|seen| - 1];
      if !a.event.CallEnd? then Finished(p, front)
      else
        var flight := Flight(front, a.id) + [a];
        [EntryOf(a.id, L.After(L.FRESH, p, Events(flight)), Began(flight), a.event, a.elapsed)] + Finished(p, front)
  }

  ghost predicate Recorded(p: L.Parsing, seen: seq<Arrival>, entries: seq<CallEntry>, active: map<Id, Active>)
  {
    && entries == Finished(p, seen)
    && forall id :: id in active ==> Follows(active[id], p, Flight(seen, id))
  }

  lemma {:induction false} FlightIfInFlight(seen: seq<Arrival>, id: Id)
    ensures InFlight(seen, id) <==> Flight(seen, id) != []
  {
    if seen != [] && seen[|seen| - 1].id != id {
      FlightIfInFlight(seen[..|seen| - 1], id);
    }
  }

  lemma FollowsNext(a: Active, p: L.Parsing, flight: seq<Arrival>, more: Arrival)
    requires Follows(a, p, flight)
    ensures Follows(Applied(a, p, more.event, more.now), p, flight + [more])
  {
    var events, all := Events(flight), Events(flight + [more]);
    assert all[..|all| - 1] == events && all[|all| - 1] == more.event;
    assert (flight + [more])[..|flight|] == flight;
    hide L.Next;
  }

  lemma FlightSnoc(seen: seq<Arrival>, a: Arrival)
    ensures Flight(seen + [a], a.id) == if a.event.CallEnd? then [] else Flight(seen, a.id) + [a]
    ensures forall id :: id != a.id ==> Flight(seen + [a], id) == Flight(seen, id)
  {
    assert (seen + [a])[..|seen|] == seen && (seen + [a])[|seen|] == a;
  }

  lemma FinishedSnoc(p: L.Parsing, seen: seq<Arrival>, a: Arrival, after: Active)
    requires a.event.CallEnd? ==> Follows(after, p, Flight(seen, a.id) + [a])
    ensures Finished(p, seen + [a]) ==
      (if a.event.CallEnd? then [EntryOf(a.id, after.view, after.startedAt, a.event, a.elapsed)] else []) + Finished(p, seen)
  {
    assert (seen + [a])[..|seen|] == seen && (seen + [a])[|seen|] == a;
    hide Flight, EntryOf;
  }

  lemma RecordedNext(p: L.Parsing, seen: seq<Arrival>, a: Arrival, entries: seq<CallEntry>, active: map<Id, Active>)
    requires Told(seen, entries, active) && Recorded(p, seen, entries, active)
    ensures
      var after := Applied(if a.id in active then active[a.id] else NEW_CALL, p, a.event, a.now);
      if a.event.CallEnd? then Recorded(p, seen + [a], [EntryOf(a.id, after.view, after.startedAt, a.event, a.elapsed)] + entries, active - {a.id})
      else Recorded(p, seen + [a], entries, active[a.id := after])
  {
    hide Follows, Listed, InFlight, HasEnded, EntryOf, Applied, Flight, Finished;
    var was := if a.id in active then active[a.id] else NEW_CALL;
    assert Follows(was, p, Flight(seen, a.id)) by {
      FlightIfInFlight(seen, a.id);
      NewFollows(p);
    }
    FollowsNext(was, p, Flight(seen, a.id), a);
    FlightSnoc(seen, a);
    FinishedSnoc(p, seen, a, Applied(was, p, a.event, a.now));
    assert [] + entries == entries;
  }

  /** What is told and recorded of the calls keeps up with every arrival. */
  lemma HistoryNext(p: L.Parsing, seen: seq<Arrival>, a: Arrival, entries: seq<CallEntry>, active: map<Id, Active>)
    requires Told(seen, entries, active) && Recorded(p, seen, entries, active)
    ensures
      var after := Applied(if a.id in active then active[a.id] else NEW_CALL, p, a.event, a.now);
      var more := if a.event.CallEnd? then [EntryOf(a.id, after.view, after.startedAt, a.event, a.elapsed)] + entries else entries;
      var flying := if a.event.CallEnd? then active - {a.id} else active[a.id := after];
      Told(seen + [a], more, flying) && Recorded(p, seen + [a], more, flying)
  {
    RecordedNext(p, seen, a, entries, active);
    hide Told, Recorded, Applied;
    var after := Applied(if a.id in active then active[a.id] else NEW_CALL, p, a.event, a.now);
    var flying := if a.event.CallEnd? then active - {a.id} else active[a.id := after];
    assert flying.Keys == if a.event.CallEnd? then active.Keys - {a.id} else active.Keys + {a.id};
    ToldNext(seen, a, entries, active, if a.event.CallEnd? then [EntryOf(a.id, after.view, after.startedAt, a.event, a.elapsed)] + entries else entries, flying);
  }

  lemma NewFollows(p: L.Parsing)
    ensures Follows(NEW_CALL, p, [])
  {
    assert Events([]) == [];
  }

  /**
   The call that has just ended is in front, and shown as a scan of its event file finds it, exactly if no step
   was renamed for good after its start and the start is stamped.
   */
  lemma {:induction false} ListAgreesWithFile(p: L.Parsing, seen: seq<Arrival>, entries: seq<CallEntry>, active: map<Id, Active>,
      start: Arrival, middle: seq<Arrival>, end: Arrival)
    requires Recorded(p, seen + [end], entries, active)
    requires Flight(seen, end.id) == [start] + middle && start.event.CallStart? && Inside(Events(middle))
    requires end.event.CallEnd? && end.event.durationMs > 0
    ensures
      && entries != [] && entries[0].id == end.id
      && (entries[0] == Replayed(Blank(end.id), [start.event] + Events(middle) + [end.event])
          <==> NamesRepeat(start.event.steps, Events(middle)) && (start.event.ts != 0 || start.now == 0))
  {
    var flight := [start] + middle + [end];
    assert (seen + [end])[..|seen|] == seen && (seen + [end])[|seen|] == end;
    assert Events(flight) == [start.event] + Events(middle) + [end.event];
    assert [start.event] + Events(middle) + [end.event] + [] == [start.event] + Events(middle) + [end.event];
    BeganWith(start, middle);
    assert flight[..|flight| - 1] == [start] + middle;
    HistoriesAgree(end.id, p, start.event, Events(middle), end.event, [], start.now, end.elapsed);
    hide L.After, Replayed, NamesRepeat, Events, Began, Flight;
  }

  lemma {:induction false} BeganWith(start: Arrival, middle: seq<Arrival>)
    requires start.event.CallStart? && Inside(Events(middle))
    ensures Began([start] + middle) == StartOf(start.event, start.now)
    decreases |middle|
  {
    var all := [start] + middle;
    if middle != [] {
      var n := |middle| - 1;
      assert all[..|all| - 1] == [start] + middle[..n] && all[|all| - 1] == middle[n];
      assert Events(middle)[n] == middle[n].event;
      assert forall i :: 0 <= i < n ==> Events(middle[..n])[i] == Events(middle)[i];
      BeganWith(start, middle[..n]);
    }
  }

  lemma ListedOne(e: CallEntry, id: Id)
    ensures Listed([e], id) <==> e.id == id
  {
    assert [e][0] == e;
  }

  /**
   What the list draws, by the events alone: a call that has ended as its finished entry, and as live
   exactly if an event came after its last end; output that arrives late thus brings the live mark back.
   */
  lemma {:induction false} DrawnByEvents(draw: Painter, width: int, seen: seq<Arrival>,
      entries: seq<CallEntry>, active: map<Id, Active>, id: Id, now: L.Time)
    requires Told(seen, entries, active)
    ensures
      Current(draw, width, entries, active, id, now) ==
      if HasEnded(seen, id) then Draw(draw, Lookup(entries, id), width, InFlight(seen, id))
      else if InFlight(seen, id) then draw(AsEntry(id, active[id], now), width, true)
      else []
    ensures HasEnded(seen, id) ==> Lookup(entries, id).Some?
  {
    hide InFlight, HasEnded;
    if Listed(entries, id) {
      LookupStops(entries, [], id);
      assert entries + [] == entries;
    }
  }

  /** A line of output behind the end of a call is enough. */
  lemma StragglerRevives(start: Arrival, end: Arrival, straggler: Arrival)
    requires start.id == end.id == straggler.id && end.event.CallEnd? && !straggler.event.CallEnd?
    ensures HasEnded([start, end, straggler], end.id) && InFlight([start, end, straggler], end.id)
    ensures HasEnded([start, end], end.id) && !InFlight([start, end], end.id)
  {
    EndedSnoc([start], end, end.id);
    assert [start] + [end] == [start, end];
    EndedSnoc([start, end], straggler, end.id);
    assert [start, end] + [straggler] == [start, end, straggler];
  }

  /** `clock` is the time of the last merge, and `seen` what has been applied. */
  class Model {
    const draw: Painter
    const matches: Matcher
    const parsing: L.Parsing
    var entries: seq<CallEntry>
    var active: map<Id, Active>
    var activeIDs: seq<Id>
    var merged: seq<CallEntry>
    var filtered: seq<nat>
    var cursor: nat
    var query: string
    var width: int
    var cells: map<Id, Cell>
    var lru: seq<Id>
    var lruDirty: bool
    var clock: L.Time
    ghost var seen: seq<Arrival>

    ghost predicate FlightsOk()
      reads this`active, this`activeIDs
    {
      Flights(active, activeIDs)
    }

    ghost predicate CacheOk()
      reads this`entries, this`active, this`cells, this`lru, this`lruDirty, this`width, this`clock
    {
      Cache(draw, width, entries, active, cells, lru, lruDirty, clock)
    }

    ghost predicate HistoryOk()
      reads this`seen, this`entries, this`active
    {
      Told(seen, entries, active) && Recorded(parsing, seen, entries, active)
    }

    /** The list is that of the calls as they are, and the cursor is in it. */
    ghost predicate ListOk()
      reads this`entries, this`active, this`activeIDs, this`merged, this`filtered, this`cursor, this`query, this`clock
    {
      && merged == Merge(entries, active, activeIDs, clock)
      && filtered == Filter(merged, matches, query)
      && (cursor < |filtered| || (cursor == 0 && filtered == []))
    }

    constructor (draw: Painter, matches: Matcher, parsing: L.Parsing, width: int)
      ensures FlightsOk() && CacheOk() && ListOk() && HistoryOk() && entries == [] && seen == [] && this.width == width
      ensures this.draw == draw && this.matches == matches && this.parsing == parsing
    {
      this.draw, this.matches, this.parsing, this.width := draw, matches, parsing, width;
      entries, active, activeIDs := [], map[], [];
      merged, filtered, cursor, query := [], [], 0, "";
      cells, lru, lruDirty := map[], [], false;
      clock, seen := 0, [];
    }

    // ---- Live events ----

    /** One event. The end of a call moves it to the finished ones, in front. */
    method ApplyLiveEvent(id: Id, e: L.Event, now: L.Time, elapsed: int)
      requires FlightsOk() && CacheOk() && HistoryOk()
      modifies this`entries, this`active, this`activeIDs, this`cells, this`seen
      ensures FlightsOk() && CacheOk() && HistoryOk()
      ensures seen == old(seen) + [Arrival(id, e, now, elapsed)]
      ensures Distinct(old(entries)) ==> (Distinct(entries) <==> (e.CallEnd? ==> !Listed(old(entries), id)))
      ensures
        var after := Applied(if id in old(active) then old(active)[id] else NEW_CALL, parsing, e, now);
        if e.CallEnd? then
          && active == old(active) - {id} && cells == old(cells) - {id}
          && entries == [EntryOf(id, after.view, after.startedAt, e, elapsed)] + old(entries)
        else active == old(active)[id := after] && cells == old(cells) && entries == old(entries)
      ensures
        var ids := if id in old(active) then old(activeIDs) else old(activeIDs) + [id];
        activeIDs == if e.CallEnd? then StillFlying(active, ids) else ids
    {
      hide Cache, Flights, EntryOf, Distinct, Listed, Applied, Told, Recorded, StillFlying;
      HistoryNext(parsing, seen, Arrival(id, e, now, elapsed), entries, active);
      TrackCall(id, e, now);
      if e.CallEnd? {
        TransitionToEntry(id, e, elapsed);
        assert old(active)[id := Applied(if id in old(active) then old(active)[id] else NEW_CALL, parsing, e, now)] - {id}
            == old(active) - {id};
      }
      seen := seen + [Arrival(id, e, now, elapsed)];
    }

    /** The reducer's step for the call, which is new with its first event. */
    method TrackCall(id: Id, e: L.Event, now: L.Time)
      requires FlightsOk() && CacheOk()
      modifies this`active, this`activeIDs
      ensures FlightsOk() && CacheOk()
      ensures active == old(active)[id := Applied(if id in old(active) then old(active)[id] else NEW_CALL, parsing, e, now)]
      ensures activeIDs == if id in old(active) then old(activeIDs) else old(activeIDs) + [id]
    {
      hide Cache, Flights;
      var a := Applied(if id in active then active[id] else NEW_CALL, parsing, e, now);
      FlightsAdd(active, activeIDs, id, a);
      CacheTick(draw, width, entries, active, cells, lru, lruDirty, clock, id, a);
      if id !in active {
        activeIDs := activeIDs + [id];
      }
      active := active[id := a];
    }

    /** Moves a live call to the finished ones; its cell was drawn live and goes. */
    method TransitionToEntry(id: Id, end: L.Event, elapsed: int)
      requires FlightsOk() && CacheOk() && id in active && end.CallEnd?
      modifies this`entries, this`active, this`activeIDs, this`cells
      ensures FlightsOk() && CacheOk()
      ensures active == old(active) - {id} && cells == old(cells) - {id} && activeIDs == StillFlying(active, old(activeIDs))
      ensures entries == [EntryOf(id, old(active)[id].view, old(active)[id].startedAt, end, elapsed)] + old(entries)
      ensures entries[0].id == id
      ensures Distinct(entries) <==> Distinct(old(entries)) && !Listed(old(entries), id)
    {
      hide Cache, Flights, Distinct, Listed;
      var entry := EntryOf(id, active[id].view, active[id].startedAt, end, elapsed);
      CacheEnd(draw, width, entries, active, cells, lru, lruDirty, clock, id, entry);
      FlightsDrop(active, activeIDs, id);
      PrependDistinct(entry, entries);
      entries := [entry] + entries;
      active := active - {id};
      cells := cells - {id};
      CompactActiveIDs();
    }

    method CompactActiveIDs()
      requires NoDup(activeIDs) && forall id :: id in active ==> id in activeIDs
      modifies this`activeIDs
      ensures activeIDs == StillFlying(active, old(activeIDs))
      ensures NoDup(activeIDs) && forall id :: id in active <==> id in activeIDs
    {
      var ids := activeIDs;
      var out: seq<Id> := [];
      for i := 0 to |ids|
        invariant NoDup(out) && out == StillFlying(active, ids[..i])
        invariant forall id :: id in out <==> id in active && id in ids[..i]
      {
        var id := ids[i];
        assert ids[..i + 1][..i] == ids[..i] && ids[..i + 1] == ids[..i] + [id] && id !in ids[..i];
        if id in active {
          AppendId(out, id);
          out := out + [id];
        }
      }
      assert ids[..|ids|] == ids;
      activeIDs := out;
    }

    // ---- The list ----

    /** Where the cursor goes: it follows the newest call, or stays with the call it was on while that is listed. */
    method RestoreCursor(follow: bool, prevID: Id)
      requires forall k :: 0 <= k < |filtered| ==> filtered[k] < |merged|
      modifies this`cursor
      ensures cursor < |filtered| || (cursor == 0 && filtered == [])
      ensures follow || prevID == "" ==> cursor == 0
      ensures !follow && prevID != "" && (exists k :: ShownAt(merged, filtered, k, prevID)) ==> ShownAt(merged, filtered, cursor, prevID)
      ensures !follow && prevID != "" && !(exists k :: ShownAt(merged, filtered, k, prevID)) ==> cursor == 0
    {
      cursor := 0;
      if follow || prevID == "" {
        return;
      }
      for k := 0 to |filtered|
        invariant cursor == 0
        invariant forall j :: 0 <= j < k ==> !ShownAt(merged, filtered, j, prevID)
      {
        if merged[filtered[k]].id == prevID {
          cursor := k;
          assert ShownAt(merged, filtered, k, prevID);
          return;
        }
      }
    }

    method MergeLists() returns (all: seq<CallEntry>)
      requires FlightsOk()
      ensures all == Merge(entries, active, activeIDs, clock)
    {
      all := [];
      for i := 0 to |activeIDs|
        invariant all == Flying(entries, active, activeIDs[..i], clock)
      {
        var id := activeIDs[i];
        assert activeIDs[..i + 1][..i] == activeIDs[..i];
        if id in active && !Listed(entries, id) {
          all := all + [AsEntry(id, active[id], clock)];
        }
      }
      assert activeIDs[..|activeIDs|] == activeIDs;
      all := all + entries;
    }

    method FilterList() returns (shown: seq<nat>)
      ensures shown == Filter(merged, matches, query)
    {
      shown := [];
      for i := 0 to |merged|
        invariant shown == Filter(merged[..i], matches, query)
      {
        assert merged[..i + 1][..i] == merged[..i];
        if matches(merged[i], query) {
          shown := shown + [i];
        }
      }
      assert merged[..|merged|] == merged;
    }

    method RebuildFiltered(now: L.Time)
      requires FlightsOk() && CacheOk() && clock <= now && (forall k :: 0 <= k < |filtered| ==> filtered[k] < |merged|)
      modifies this`merged, this`filtered, this`cursor, this`clock
      ensures ListOk() && CacheOk() && clock == now
      ensures forall i, j :: 0 <= i < j < |filtered| ==> filtered[i] < filtered[j]
      ensures forall k :: 0 <= k < |merged| ==> (k in filtered <==> matches(merged[k], query))
      ensures old(cursor) == 0 || old(cursor) >= |old(filtered)| ==> cursor == 0
      ensures
        0 < old(cursor) < |old(filtered)| ==>
          var id := old(merged)[old(filtered)[old(cursor)]].id;
          if id != "" && (exists k :: ShownAt(merged, filtered, k, id)) then ShownAt(merged, filtered, cursor, id) else cursor == 0
    {
      hide Cache, Flights, Merge, Filter;
      var follow := cursor == 0;
      var prevID := "";
      if !follow && cursor < |filtered| {
        prevID := merged[filtered[cursor]].id;
      }
      CacheLater(draw, width, entries, active, cells, lru, lruDirty, clock, now);
      clock := now;
      merged := MergeLists();
      filtered := FilterList();
      FilterIndices(merged, matches, query);
      FilterMatches(merged, matches, query);
      RestoreCursor(follow, prevID);
    }

    // ---- The cache ----

    method CacheLRUMark(id: Id)
      requires NoDup(lru)
      modifies this`lru, this`lruDirty
      ensures NoDup(lru) && (forall other :: other in lru <==> other in old(lru) || other == id)
      ensures lru == Without(old(lru), id) + [id]
      ensures lruDirty == (old(lruDirty) || |lru| > CELL_CACHE_CAP)
    {
      var i := 0;
      while i < |lru| && lru[i] != id
        invariant i <= |lru| && forall k :: 0 <= k < i ==> lru[k] != id
      {
        i := i + 1;
      }
      WithoutAt(lru, i, id);
      if i < |lru| {
        Removed(lru, i);
        lru := lru[..i] + lru[i + 1..];
      }
      AppendId(lru, id);
      lru := lru + [id];
      if |lru| > CELL_CACHE_CAP {
        lruDirty := true;
      }
    }

    method BuildCell(id: Id) returns (cell: Cell)
      requires FlightsOk() && merged == Merge(entries, active, activeIDs, clock)
      ensures cell.left == Current(draw, width, entries, active, id, clock)
      ensures cell.version == if id in active && Shown(entries, active, id, clock).Some? then active[id].version else 0
    {
      MergeShows(entries, active, activeIDs, id, clock);
      var e: Option<CallEntry> := None;
      for i := 0 to |merged|
        invariant e == None && Lookup(merged, id) == Lookup(merged[i..], id)
      {
        if merged[i].id == id {
          e := Some(merged[i]);
          break;
        }
      }
      if e.None? {
        return Cell([], 0);
      }
      cell := Cell(draw(e.value, width, id in active), if id in active then active[id].version else 0);
    }

    /**
     A cached cell is used while its call has not moved on; used or built, it shows the call as it is. What
     can be out of date in a used one is how long a live call has been running.
     */
    method RenderCell(id: Id) returns (cell: Cell)
      requires FlightsOk() && CacheOk() && merged == Merge(entries, active, activeIDs, clock)
      modifies this`cells, this`lru, this`lruDirty
      ensures CacheOk()
      ensures Recent(draw, width, entries, active, id, cell.left, clock)
      ensures id !in active || Listed(entries, id) ==> cell.left == Current(draw, width, entries, active, id, clock)
      ensures
        if id in old(cells) && (id !in active || old(cells)[id].version >= active[id].version)
        then cells == old(cells) && lru == old(lru) && lruDirty == old(lruDirty) && cell == cells[id]
        else
          && cells == old(cells)[id := cell] && lru == Without(old(lru), id) + [id]
          && cell.left == Current(draw, width, entries, active, id, clock)
    {
      if id in cells && (id !in active || cells[id].version >= active[id].version) {
        assert CellOk(draw, width, entries, active, id, cells[id], clock);
        FinishedIfDone(draw, width, entries, active, id, cells[id].left, clock);
        return cells[id];
      }
      cell := BuildCell(id);
      assert Recent(draw, width, entries, active, id, cell.left, clock);
      hide Cache, Current, Shown, Without, Recent;
      CacheStore(draw, width, entries, active, cells, lru, lruDirty, clock, id, cell);
      cells := cells[id := cell];
      CacheLRUMark(id);
    }

    /** Drops the least recently built cells until at most the cap is left. */
    method CacheEvict()
      requires CacheOk()
      modifies this`cells, this`lru, this`lruDirty
      ensures CacheOk() && |cells| <= CELL_CACHE_CAP && !lruDirty
      ensures (cells, lru) == Evicted(old(cells), old(lru))
    {
      hide CellsOk, LruOk;
      EvictedKeeps(draw, width, entries, active, cells, lru, clock);
      while |cells| > CELL_CACHE_CAP && |lru| > 0
        invariant Evicted(cells, lru) == Evicted(old(cells), old(lru))
        decreases |lru|
      {
        var victim := lru[0];
        lru := lru[1..];
        cells := cells - {victim};
      }
      lruDirty := false;
    }

    /** One pass over the visible list: every cell shown is right, and the cache ends within its cap. */
    method RefreshUnifiedView() returns (shown: seq<seq<string>>)
      requires FlightsOk() && CacheOk() && ListOk()
      modifies this`cells, this`lru, this`lruDirty
      ensures CacheOk() && |cells| <= CELL_CACHE_CAP
      ensures |shown| == |filtered|
      ensures forall k :: 0 <= k < |shown| ==>
        filtered[k] < |merged| && Recent(draw, width, entries, active, merged[filtered[k]].id, shown[k], clock)
    {
      FilterIndices(merged, matches, query);
      hide CacheOk, Current, Recent, Merge, Filter, FlightsOk, Listed;
      shown := [];
      for i := 0 to |filtered|
        invariant CacheOk() && |shown| == i
        invariant forall k :: 0 <= k < i ==> Recent(draw, width, entries, active, merged[filtered[k]].id, shown[k], clock)
      {
        var cell := RenderCell(merged[filtered[i]].id);
        shown := shown + [cell.left];
      }
      if lruDirty {
        CacheEvict();
      } else {
        CleanIsSmall();
      }
    }

    lemma ListBounds()
      requires ListOk()
      ensures forall k :: 0 <= k < |filtered| ==> filtered[k] < |merged|
    {
      FilterIndices(merged, matches, query);
    }

    lemma CleanIsSmall()
      requires CacheOk() && !lruDirty
      ensures |cells| <= CELL_CACHE_CAP
    {
    }

    /** A burst of live events: all are applied before the list and the view are made again. */
    method HandleLive(batch: seq<Arrival>, now: L.Time) returns (shown: seq<seq<string>>)
      requires FlightsOk() && CacheOk() && ListOk() && HistoryOk() && clock <= now
      modifies this`entries, this`active, this`activeIDs, this`merged, this`filtered, this`cursor, this`cells, this`lru, this`lruDirty
      modifies this`clock, this`seen
      ensures FlightsOk() && CacheOk() && ListOk() && HistoryOk() && |cells| <= CELL_CACHE_CAP
      ensures seen == old(seen) + batch && clock == now
      ensures (forall i, j :: 0 <= i < j < |filtered| ==> filtered[i] < filtered[j])
      ensures (forall k :: 0 <= k < |merged| ==> (k in filtered <==> matches(merged[k], query)))
      ensures |shown| == |filtered|
      ensures forall k :: 0 <= k < |shown| ==>
        filtered[k] < |merged| && Recent(draw, width, entries, active, merged[filtered[k]].id, shown[k], now)
    {
      hide *;
      ListBounds();
      for i := 0 to |batch|
        invariant FlightsOk() && CacheOk() && HistoryOk() && seen == old(seen) + batch[..i]
        invariant merged == old(merged) && filtered == old(filtered) && clock == old(clock)
      {
        ApplyLiveEvent(batch[i].id, batch[i].event, batch[i].now, batch[i].elapsed);
      }
      assert batch[..|batch|] == batch;
      RebuildFiltered(now);
      shown := RefreshUnifiedView();
    }

    /** A change of the width, or of the layout that sets it, empties the cache. */
    method Resize(newWidth: int)
      requires FlightsOk()
      modifies this`width, this`cells, this`lru, this`lruDirty
      ensures CacheOk() && width == newWidth && cells == map[]
    {
      width := newWidth;
      cells, lru, lruDirty := map[], [], false;
    }
  }

  /** The call after one more event. */
  function Applied(a: Active, p: L.Parsing, e: L.Event, now: L.Time): Active
  {
    Active(L.Next(a.view, p, e), if e.CallStart? then (if e.ts != 0 then e.ts else now) else a.startedAt, a.version + 1)
  }

  lemma AppendId(ids: seq<Id>, id: Id)
    requires NoDup(ids)
    ensures id !in ids ==> NoDup(ids + [id])
    ensures forall k :: k in ids + [id] <==> k in ids || k == id
  {
  }

  lemma PrependId(id: Id, ids: seq<Id>)
    requires NoDup(ids) && id !in ids
    ensures NoDup([id] + ids) && forall k :: k in [id] + ids <==> k in ids || k == id
  {
    var all := [id] + ids;
    assert forall i :: 0 < i < |all| ==> all[i] == ids[i - 1];
  }

  lemma Removed(ids: seq<Id>, i: nat)
    requires NoDup(ids) && i < |ids|
    ensures
      var rest := ids[..i] + ids[i + 1..];
      NoDup(rest) && forall k :: k in rest <==> k in ids && k != ids[i]
  {
    var rest := ids[..i] + ids[i + 1..];
    forall k ensures k in rest <==> k in ids && k != ids[i] {
      if k in ids && k != ids[i] {
        var j :| 0 <= j < |ids| && ids[j] == k;
        assert rest[if j < i then j else j - 1] == k;
      }
    }
  }

  lemma FirstDropped(cells: map<Id, Cell>, lru: seq<Id>)
    requires LruOk(cells, lru) && lru != []
    ensures LruOk(cells - {lru[0]}, lru[1..])
  {
    Removed(lru, 0);
    assert lru[..0] + lru[1..] == lru[1..];
  }

  lemma LruDrop(cells: map<Id, Cell>, lru: seq<Id>, id: Id)
    requires LruOk(cells, lru)
    ensures LruOk(cells - {id}, lru) && |cells - {id}| <= |cells|
  {
    assert (cells - {id}).Keys <= cells.Keys;
    KeysShrink((cells - {id}).Keys, cells.Keys);
  }

  lemma {:induction false} KeysShrink(a: set<Id>, b: set<Id>)
    requires a <= b
    ensures |a| <= |b|
  {
    if a != {} {
      var x :| x in a;
      KeysShrink(a - {x}, b - {x});
    }
  }

  lemma PrependDistinct(e: CallEntry, entries: seq<CallEntry>)
    ensures Distinct([e] + entries) <==> Distinct(entries) && !Listed(entries, e.id)
  {
    var all := [e] + entries;
    assert forall i :: 0 <= i < |entries| ==> entries[i] == all[i + 1];
    if Listed(entries, e.id) {
      var i :| 0 <= i < |entries| && entries[i].id == e.id;
      assert all[0].id == all[i + 1].id;
    }
  }

  lemma CellVersion(draw: Painter, width: int,
      entries: seq<CallEntry>, active: map<Id, Active>, cells: map<Id, Cell>, id: Id, clock: L.Time)
    requires CellsOk(draw, width, entries, active, cells, clock)
    ensures id in cells ==> cells[id].version <= (if id in active then active[id].version else 0)
  {
    if id in cells {
      assert CellOk(draw, width, entries, active, id, cells[id], clock);
    }
  }
}
