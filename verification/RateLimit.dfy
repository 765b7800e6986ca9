/** The sliding-window limiter on new connections to a host. */
module RateLimit {

  type Host = string
  type Time = int
  type Records = map<Host, seq<Time>>

  /** Both are positive: the environment can override the defaults only with positive numbers. */
  datatype Limits = Limits(limit: nat, window: int)
  {
    predicate Valid() {
      limit > 0 && window > 0
    }
  }

  function Entries(r: Records, host: Host): seq<Time>
  {
    if host in r then r[host] else []
  }

  /** How many leading entries lie before the cutoff. */
  function Expired(entries: seq<Time>, cutoff: Time): (n: nat)
    ensures n <= |entries|
  {
    if entries == [] || entries[0] >= cutoff then 0 else 1 + Expired(entries[1..], cutoff)
  }

  function Pruned(r: Records, host: Host, cutoff: Time): Records
  {
    var n := Expired(Entries(r, host), cutoff);
    if n == 0 then r
    else if n == |r[host]| then r - {host}
    else r[host := r[host][n..]]
  }

  /** One turn under the lock: whether it is granted, and the records it leaves. */
  function Try(r: Records, host: Host, now: Time, l: Limits): (Records, bool)
  {
    var p := Pruned(r, host, now - l.window);
    if |Entries(p, host)| < l.limit then (p[host := Entries(p, host) + [now]], true) else (p, false)
  }

  // ---- Runs of concurrent callers ----

  /** Callers take turns under the lock in some order; all that matters of a turn is its host and clock reading. */
  datatype Turn = Turn(host: Host, now: Time)

  ghost predicate Clocked(run: seq<Turn>)
  {
    forall i, j :: 0 <= i < j < |run| ==> run[i].now <= run[j].now
  }

  function After(run: seq<Turn>, l: Limits): Records
  {
    if run == [] then map[]
    else
      var t := run[|run| - 1];
      Try(After(run[..|run| - 1], l), t.host, t.now, l).0
  }

  predicate Granted(run: seq<Turn>, l: Limits)
    requires run != []
  {
    var t := run[|run| - 1];
    Try(After(run[..|run| - 1], l), t.host, t.now, l).1
  }

  /** The times at which `host` was granted a connection. */
  function Grants(run: seq<Turn>, host: Host, l: Limits): seq<Time>
  {
    if run == [] then []
    else
      var before := Grants(run[..|run| - 1], host, l);
      if run[|run| - 1].host == host && Granted(run, l) then before + [run[|run| - 1].now] else before
  }

  /** How many grants lie in the closed interval. */
  function Count(grants: seq<Time>, lo: Time, hi: Time): nat
  {
    if grants == [] then 0
    else Count(grants[..|grants| - 1], lo, hi) + if lo <= grants[|grants| - 1] <= hi then 1 else 0
  }

  ghost predicate Sorted(s: seq<Time>)
  {
    forall i, j :: 0 <= i < j < |s| ==> s[i] <= s[j]
  }

  /** Any `limit` + 1 grants in a row span more than a window. */
  ghost predicate Spread(grants: seq<Time>, l: Limits)
  {
    forall i, j :: 0 <= i && i + l.limit <= j < |grants| ==> grants[j] - grants[i] > l.window
  }

  /** The records of a host are its latest grants; those forgotten lie more than a window before `now`. */
  ghost predicate Recent(entries: seq<Time>, grants: seq<Time>, now: Time, l: Limits)
  {
    && |entries| <= |grants| && |entries| <= l.limit
    && entries == grants[|grants| - |entries|..]
    && Sorted(grants)
    && (grants != [] ==> grants[|grants| - 1] <= now)
    && forall i :: 0 <= i < |grants| - |entries| ==> grants[i] < now - l.window
  }

  lemma {:induction false} ExpiredSplits(entries: seq<Time>, cutoff: Time)
    ensures
      var n := Expired(entries, cutoff);
      && (forall i :: 0 <= i < n ==> entries[i] < cutoff)
      && (n < |entries| ==> entries[n] >= cutoff)
  {
    if entries != [] && entries[0] < cutoff {
      ExpiredSplits(entries[1..], cutoff);
      var n := Expired(entries[1..], cutoff);
      assert forall i :: 0 < i <= n ==> entries[i] == entries[1..][i - 1];
    }
  }

  lemma PrunedEntries(r: Records, host: Host, cutoff: Time)
    ensures Entries(Pruned(r, host, cutoff), host) == Entries(r, host)[Expired(Entries(r, host), cutoff)..]
    ensures forall h :: h != host ==> Entries(Pruned(r, host, cutoff), h) == Entries(r, h)
  {
  }

  /** Pruning at a later clock reading keeps the records recent, now up to that reading. */
  lemma PruneRecent(entries: seq<Time>, grants: seq<Time>, before: Time, now: Time, l: Limits)
    requires Recent(entries, grants, before, l) && before <= now
    ensures Recent(entries[Expired(entries, now - l.window)..], grants, now, l)
  {
    ExpiredSplits(entries, now - l.window);
    var dropped := |grants| - |entries|;
    forall i | dropped <= i < dropped + Expired(entries, now - l.window) ensures grants[i] < now - l.window {
      assert grants[i] == entries[i - dropped];
    }
  }

  /** A grant while fewer than `limit` records are recent keeps the spread. */
  lemma GrantSpreads(entries: seq<Time>, grants: seq<Time>, now: Time, l: Limits)
    requires Recent(entries, grants, now, l) && |entries| < l.limit && Spread(grants, l)
    ensures Recent(entries + [now], grants + [now], now, l) && Spread(grants + [now], l)
  {
    var longer := grants + [now];
    forall i, j | 0 <= i && i + l.limit <= j < |longer| ensures longer[j] - longer[i] > l.window {
      assert longer[i] == grants[i];
      if j < |grants| {
        assert longer[j] == grants[j];
      }
    }
    assert Sorted(longer) by {
      assert forall i :: 0 <= i < |grants| ==> grants[i] <= grants[|grants| - 1];
    }
    assert (entries + [now]) == longer[|longer| - |entries| - 1..];
  }

  /** The records of a host that survive the pruning at `now`. */
  function Kept(entries: seq<Time>, now: Time, l: Limits): seq<Time>
  {
    entries[Expired(entries, now - l.window)..]
  }

  lemma {:induction false} TryEffect(r: Records, host: Host, now: Time, l: Limits)
    ensures
      var kept := Kept(Entries(r, host), now, l);
      && (Try(r, host, now, l).1 <==> |kept| < l.limit)
      && Entries(Try(r, host, now, l).0, host) == if |kept| < l.limit then kept + [now] else kept
  {
    PrunedEntries(r, host, now - l.window);
  }

  lemma {:induction false} TryElsewhere(r: Records, host: Host, now: Time, l: Limits, other: Host)
    requires other != host
    ensures Entries(Try(r, host, now, l).0, other) == Entries(r, other)
  {
    PrunedEntries(r, host, now - l.window);
  }

  /** The last turn of a run, seen by its own host and by another. */
  lemma {:induction false} LastTurn(run: seq<Turn>, host: Host, l: Limits)
    requires run != []
    ensures
      var before, t := run[..|run| - 1], run[|run| - 1];
      var entries, grants := Entries(After(before, l), host), Grants(before, host, l);
      var kept := Kept(entries, t.now, l);
      if t.host != host then Entries(After(run, l), host) == entries && Grants(run, host, l) == grants
      else if |kept| < l.limit then
        Granted(run, l) && Entries(After(run, l), host) == kept + [t.now] && Grants(run, host, l) == grants + [t.now]
      else
        !Granted(run, l) && Entries(After(run, l), host) == kept && Grants(run, host, l) == grants
  {
    var before, t := run[..|run| - 1], run[|run| - 1];
    var r := After(before, l);
    assert After(run, l) == Try(r, t.host, t.now, l).0 && Granted(run, l) == Try(r, t.host, t.now, l).1;
    if t.host == host {
      TryEffect(r, t.host, t.now, l);
    } else {
      TryElsewhere(r, t.host, t.now, l, host);
    }
  }

  ghost predicate Good(run: seq<Turn>, host: Host, now: Time, l: Limits)
  {
    Recent(Entries(After(run, l), host), Grants(run, host, l), now, l) && Spread(Grants(run, host, l), l)
  }

  lemma Later(entries: seq<Time>, grants: seq<Time>, before: Time, now: Time, l: Limits)
    requires Recent(entries, grants, before, l) && before <= now
    ensures Recent(entries, grants, now, l)
  {
  }

  /** A turn at `now` on values: what the records and grants become, and that they stay good. */
  lemma TurnKeeps(entries: seq<Time>, grants: seq<Time>, now: Time, l: Limits)
    requires Recent(entries, grants, now, l) && Spread(grants, l) && l.Valid()
    ensures
      var kept := Kept(entries, now, l);
      if |kept| < l.limit then Recent(kept + [now], grants + [now], now, l) && Spread(grants + [now], l)
      else Recent(kept, grants, now, l)
  {
    PruneRecent(entries, grants, now, now, l);
    var kept := Kept(entries, now, l);
    if |kept| < l.limit {
      GrantSpreads(kept, grants, now, l);
    }
  }

  lemma ClockedFront(run: seq<Turn>)
    requires Clocked(run) && run != []
    ensures Clocked(run[..|run| - 1])
    ensures |run| > 1 ==> run[..|run| - 1][|run| - 2].now <= run[|run| - 1].now
  {
  }

  lemma {:induction false} AlwaysGood(run: seq<Turn>, host: Host, now: Time, l: Limits)
    requires l.Valid() && Clocked(run) && (run != [] ==> run[|run| - 1].now <= now)
    ensures Good(run, host, now, l)
    decreases |run|
  {
    if run != [] {
      var before, t := run[..|run| - 1], run[|run| - 1];
      ClockedFront(run);
      AlwaysGood(before, host, t.now, l);
      LastTurn(run, host, l);
      TurnKeeps(Entries(After(before, l), host), Grants(before, host, l), t.now, l);
      Later(Entries(After(run, l), host), Grants(run, host, l), t.now, now, l);
    }
  }

  // ---- What the limiter promises ----

  lemma {:induction false} CountBack(grants: seq<Time>, lo: Time, hi: Time, n: nat)
    requires n <= |grants| && forall i :: 0 <= i < n ==> !(lo <= grants[i] <= hi)
    requires forall i :: n <= i < |grants| ==> lo <= grants[i] <= hi
    ensures Count(grants, lo, hi) == |grants| - n
  {
    if grants != [] {
      if n == |grants| {
        CountBack(grants[..|grants| - 1], lo, hi, n - 1);
      } else {
        CountBack(grants[..|grants| - 1], lo, hi, n);
      }
    }
  }

  /** At most `limit` of a spread sequence of grants fit in a closed interval of one window. */
  lemma {:induction false} SpreadBounds(grants: seq<Time>, lo: Time, l: Limits)
    requires Sorted(grants) && Spread(grants, l)
    ensures Count(grants, lo, lo + l.window) <= l.limit
    decreases |grants|
  {
    if grants != [] {
      var last := |grants| - 1;
      if lo <= grants[last] <= lo + l.window {
        if |grants| > l.limit {
          SpreadCount(grants, lo, l);
        } else {
          CountAtMost(grants, lo, lo + l.window);
        }
      } else {
        SpreadBounds(grants[..last], lo, l);
      }
    }
  }

  lemma {:induction false} CountAtMost(grants: seq<Time>, lo: Time, hi: Time)
    ensures Count(grants, lo, hi) <= |grants|
  {
    if grants != [] {
      CountAtMost(grants[..|grants| - 1], lo, hi);
    }
  }

  /** With the last grant inside the interval, only the last `limit` can be. */
  lemma SpreadCount(grants: seq<Time>, lo: Time, l: Limits)
    requires Sorted(grants) && Spread(grants, l)
    requires |grants| > l.limit && grants[|grants| - 1] <= lo + l.window
    ensures Count(grants, lo, lo + l.window) <= l.limit
  {
    CountTail(grants, lo, lo + l.window, |grants| - l.limit);
  }

  lemma {:induction false} CountTail(grants: seq<Time>, lo: Time, hi: Time, n: nat)
    requires n <= |grants| && forall i :: 0 <= i < n ==> grants[i] < lo
    ensures Count(grants, lo, hi) <= |grants| - n
  {
    if n < |grants| {
      CountTail(grants[..|grants| - 1], lo, hi, n);
    } else if grants != [] {
      CountTail(grants[..|grants| - 1], lo, hi, n - 1);
    }
  }

  /** Over every run, every closed interval of one window holds at most `limit` grants. */
  lemma {:induction false} AtMostLimitPerWindow(run: seq<Turn>, host: Host, lo: Time, l: Limits)
    requires l.Valid() && Clocked(run)
    ensures Count(Grants(run, host, l), lo, lo + l.window) <= l.limit
  {
    var now := if run == [] then 0 else run[|run| - 1].now;
    AlwaysGood(run, host, now, l);
    SpreadBounds(Grants(run, host, l), lo, l);
  }

  /** The records stay sorted, no longer than the limit, and forget no grant of the last window. */
  lemma {:induction false} RecordsAreRecentGrants(run: seq<Turn>, host: Host, l: Limits)
    requires l.Valid() && Clocked(run) && run != []
    ensures
      var e, g := Entries(After(run, l), host), Grants(run, host, l);
      && Sorted(e) && |e| <= l.limit && |e| <= |g| && e == g[|g| - |e|..]
      && forall i :: 0 <= i < |g| - |e| ==> g[i] < run[|run| - 1].now - l.window
  {
    AlwaysGood(run, host, run[|run| - 1].now, l);
  }

  /** The window that ends at `now` already holds `limit` grants. */
  predicate WindowFull(grants: seq<Time>, now: Time, l: Limits)
  {
    Count(grants, now - l.window, now) == l.limit
  }

  /** A turn is refused exactly when the window that ends with it is full. */
  lemma {:induction false} RefusedIffWindowFull(run: seq<Turn>, l: Limits)
    requires l.Valid() && Clocked(run) && run != []
    ensures !Granted(run, l) <==> WindowFull(Grants(run[..|run| - 1], run[|run| - 1].host, l), run[|run| - 1].now, l)
  {
    var before, t := run[..|run| - 1], run[|run| - 1];
    ClockedFront(run);
    AlwaysGood(before, t.host, t.now, l);
    LastTurn(run, t.host, l);
    FullIffKeptFull(Entries(After(before, l), t.host), Grants(before, t.host, l), t.now, l);
  }

  lemma FullIffKeptFull(entries: seq<Time>, grants: seq<Time>, now: Time, l: Limits)
    requires Recent(entries, grants, now, l)
    ensures WindowFull(grants, now, l) <==> |Kept(entries, now, l)| >= l.limit
  {
    PruneRecent(entries, grants, now, now, l);
    KeptSince(entries, grants, now, l);
    KeptAreCounted(Kept(entries, now, l), grants, now, l);
  }

  lemma KeptSince(entries: seq<Time>, grants: seq<Time>, now: Time, l: Limits)
    requires Recent(entries, grants, now, l)
    ensures
      var kept := Kept(entries, now, l);
      forall i :: 0 <= i < |kept| ==> kept[i] >= now - l.window
  {
    ExpiredSplits(entries, now - l.window);
  }

  lemma KeptAreCounted(kept: seq<Time>, grants: seq<Time>, now: Time, l: Limits)
    requires Recent(kept, grants, now, l) && forall i :: 0 <= i < |kept| ==> kept[i] >= now - l.window
    ensures Count(grants, now - l.window, now) == |kept|
  {
    var n := |grants| - |kept|;
    forall i | n <= i < |grants| ensures now - l.window <= grants[i] <= now {
      assert grants[i] == kept[i - n];
    }
    CountBack(grants, now - l.window, now, n);
  }

  /** After a refusal the next turn of that host is granted exactly if it comes later than the oldest record
      plus the window; at that very instant, when the computed wait is over, it is refused once more. */
  lemma {:induction false} SlotFreesAfterOldest(run: seq<Turn>, now: Time, l: Limits)
    requires l.Valid() && Clocked(run) && run != [] && !Granted(run, l) && now >= run[|run| - 1].now
    ensures
      var host := run[|run| - 1].host;
      && |Entries(After(run, l), host)| == l.limit
      && (Granted(run + [Turn(host, now)], l) <==> now > Entries(After(run, l), host)[0] + l.window)
  {
    hide Entries, Grants, Granted, After, Clocked;
    var t := run[|run| - 1];
    var next := run + [Turn(t.host, now)];
    AlwaysGood(run, t.host, t.now, l);
    LastTurn(run, t.host, l);
    assert next[..|run|] == run && next[|run|] == Turn(t.host, now);
    LastTurn(next, t.host, l);
    ExpiredSplits(Entries(After(run, l), t.host), now - l.window);
  }

  // ---- The limiter itself ----

  /**
   One wake-up of a waiting caller: the turns that other callers take before it gets the lock, its clock
   reading, the one its wait is computed from, and whether its context ends before the timer does.
   */
  datatype Wake = Wake(others: seq<Turn>, now: Time, later: Time, cancelled: bool)

  datatype Outcome = Acquired(turn: nat) | Cancelled(turn: nat) | Waiting

  /** `run` are the turns taken so far, by whomever. */
  class HostRateLimiter {
    var records: Records
    ghost var run: seq<Turn>
    const limits: Limits

    ghost predicate Valid()
      reads this
    {
      records == After(run, limits)
    }

    constructor (limits: Limits)
      ensures Valid() && records == map[] && run == [] && this.limits == limits
    {
      records, run := map[], [];
      this.limits := limits;
    }

    method Prune(host: Host, now: Time)
      modifies this`records
      ensures records == Pruned(old(records), host, now - limits.window)
    {
      var cutoff := now - limits.window;
      var entries := Entries(records, host);
      var i := 0;
      while i < |entries| && entries[i] < cutoff
        invariant i <= |entries|
        invariant i + Expired(entries[i..], cutoff) == Expired(entries, cutoff)
      {
        i := i + 1;
      }
      if i > 0 {
        var remaining := entries[i..];
        if |remaining| == 0 {
          records := records - {host};
        } else {
          records := records[host := remaining];
        }
      }
    }

    /** One turn under the lock; for a refused one, the time at which the oldest record leaves the window. */
    method Take(host: Host, now: Time) returns (granted: bool, waitUntil: Time)
      requires limits.Valid() && Valid()
      modifies this
      ensures Valid() && run == old(run) + [Turn(host, now)]
      ensures (records, granted) == Try(old(records), host, now, limits)
      ensures granted == Granted(run, limits)
      ensures !granted ==> |Entries(records, host)| >= limits.limit && waitUntil == Entries(records, host)[0] + limits.window
    {
      NextTurn(run, Turn(host, now), limits);
      run := run + [Turn(host, now)];
      Prune(host, now);
      if |Entries(records, host)| < limits.limit {
        records := records[host := Entries(records, host) + [now]];
        return true, now;
      }
      var oldest := records[host][0];
      return false, oldest + limits.window;
    }

    /** One caller among others: it is granted at the first of its turns that is not refused. */
    method Acquire(host: Host, wakes: seq<Wake>) returns (outcome: Outcome)
      requires limits.Valid() && Valid()
      modifies this
      ensures Valid()
      ensures !outcome.Waiting? ==> outcome.turn < |wakes|
      ensures run == old(run) + Woven(host, wakes, if outcome.Waiting? then |wakes| else outcome.turn + 1)
      ensures forall i :: 1 <= i <= (if outcome.Waiting? then |wakes| else outcome.turn) ==>
        !Granted(old(run) + Woven(host, wakes, i), limits)
      ensures !outcome.Waiting? ==> (Granted(run, limits) <==> outcome.Acquired?)
      ensures outcome.Cancelled? ==>
        wakes[outcome.turn].cancelled && Entries(records, host) != []
        && Entries(records, host)[0] + limits.window > wakes[outcome.turn].later
    {
      hide After, Granted, Try;
      var i := 0;
      while i < |wakes|
        invariant i <= |wakes| && Valid() && run == old(run) + Woven(host, wakes, i)
        invariant forall k :: 1 <= k <= i ==> !Granted(old(run) + Woven(host, wakes, k), limits)
      {
        var w := wakes[i];
        for j := 0 to |w.others|
          invariant Valid() && run == old(run) + Woven(host, wakes, i) + w.others[..j]
        {
          var _, _ := Take(w.others[j].host, w.others[j].now);
        }
        assert w.others[..|w.others|] == w.others;
        var granted, waitUntil := Take(host, w.now);
        assert run == old(run) + Woven(host, wakes, i + 1);
        if granted {
          return Acquired(i);
        }
        if waitUntil - w.later > 0 && w.cancelled {
          return Cancelled(i);
        }
        i := i + 1;
      }
      return Waiting;
    }
  }

  /** The turns up to a caller's `n`-th, those of the others included. */
  function Woven(host: Host, wakes: seq<Wake>, n: nat): seq<Turn>
    requires n <= |wakes|
  {
    if n == 0 then [] else Woven(host, wakes, n - 1) + wakes[n - 1].others + [Turn(host, wakes[n - 1].now)]
  }

  lemma NextTurn(run: seq<Turn>, t: Turn, l: Limits)
    ensures (After(run + [t], l), Granted(run + [t], l)) == Try(After(run, l), t.host, t.now, l)
  {
    assert (run + [t])[..|run|] == run;
  }
}
