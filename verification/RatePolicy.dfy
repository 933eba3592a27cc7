/** The per-source rate limit of internal/chatops/policy.go: fixed one-minute
    windows in a bounded table, pruned on every check. */
module RatePolicy {
  import opened Tables

  type Source = string

  /** Nanoseconds. Instant 0 is the zero time, which no clock reads. */
  const MINUTE := 60 * 1_000_000_000
  const MAX_RATE_WINDOWS := 10000

  datatype Window = Window(start: int, count: int)

  type Table = map<Source, Window>

  function Live(windows: Table, now: int): Table {
    map k | k in windows && (windows[k].start == 0 || now - windows[k].start < MINUTE) :: windows[k]
  }

  /** The decision itself, on a table as it stands. */
  function Admit(limit: int, windows: Table, key: Source, now: int): (bool, Table) {
    var w := if key in windows then windows[key] else Window(0, 0);
    if w.start == 0 || now - w.start >= MINUTE then (true, windows[key := Window(now, 1)])
    else if w.count >= limit then (false, windows)
    else (true, windows[key := Window(w.start, w.count + 1)])
  }

  /** A check in plain terms: it is refused exactly when its source has a window less
      than a minute old that is full. It counts in that window or opens one, and of the
      other sources' windows those that have run out or were evicted are gone. */
  ghost predicate Decides(limit: int, before: Table, key: Source, now: int, evicted: set<Source>, ok: bool,
                          after: Table)
  {
    var running := key in before && key !in evicted && before[key].start != 0 &&
                   now - before[key].start < 60_000_000_000;
    && (ok <==> !running || before[key].count < limit)
    && key in after
    && after[key] == (if !running then Window(now, 1)
                      else Window(before[key].start, before[key].count + if ok then 1 else 0))
    && forall k :: k != key ==>
         && (k in after <==> k in before && k !in evicted &&
                             (before[k].start == 0 || now - before[k].start < 60_000_000_000))
         && (k in after ==> after[k] == before[k])
  }

  lemma AdmitDecides(limit: int, before: Table, key: Source, now: int, evicted: set<Source>, ok: bool, after: Table)
    requires (ok, after) == Admit(limit, Live(before, now) - evicted, key, now)
    ensures Decides(limit, before, key, now, evicted, ok, after)
  {
  }

  lemma NothingEvictedBelow(before: Table, now: int, evicted: set<Source>)
    requires MayEvict(Live(before, now), MAX_RATE_WINDOWS, evicted) && |before| < 10000
    ensures evicted == {}
  {
    SubsetSize(Live(before, now).Keys, before.Keys);
  }

  class Policy {
    const limit: int
    var windows: Table

    constructor (limit: int)
      ensures this.limit == limit && windows == map[]
    {
      this.limit := limit;
      windows := map[];
    }

    method PruneRateWindows(now: int)
      modifies this
      ensures windows == Live(old(windows), now)
      ensures forall k :: k in windows <==>
                k in old(windows) && (old(windows)[k].start == 0 || now - old(windows)[k].start < 60_000_000_000)
      ensures forall k :: k in windows ==> windows[k] == old(windows)[k]
    {
      var keys := windows.Keys;
      while keys != {}
        invariant keys <= windows.Keys <= old(windows).Keys
        invariant forall k :: k in windows ==> windows[k] == old(windows)[k]
        invariant forall k :: k in old(windows) && k !in keys ==> (k in windows <==> k in Live(old(windows), now))
        decreases keys
      {
        var k :| k in keys;
        if windows[k].start != 0 && now - windows[k].start >= MINUTE {
          windows := windows - {k};
        }
        keys := keys - {k};
      }
    }

    method CheckRate(key: Source, now: int) returns (ok: bool, ghost evicted: set<Source>)
      modifies this
      ensures limit <= 0 ==> ok && windows == old(windows)
      ensures limit > 0 ==> MayEvict(Live(old(windows), now), MAX_RATE_WINDOWS, evicted)
      ensures limit > 0 ==> (ok, windows) == Admit(limit, Live(old(windows), now) - evicted, key, now)
      ensures limit > 0 ==> |windows| <= 10000
      ensures limit > 0 ==> Decides(limit, old(windows), key, now, evicted, ok, windows)
      ensures |old(windows)| < 10000 ==> evicted == {}
    {
      hide Live, MayEvict, Decides;
      evicted := {};
      if limit <= 0 {
        return true, {};
      }
      PruneRateWindows(now);
      windows, evicted := EvictForRoom(windows, MAX_RATE_WINDOWS);
      ghost var before := old(windows);
      if |before| < 10000 {
        NothingEvictedBelow(before, now, evicted);
      }
      var w := if key in windows then windows[key] else Window(0, 0);
      if w.start == 0 || now - w.start >= MINUTE {
        SizeAfterAdd(windows, key, Window(now, 1));
        windows := windows[key := Window(now, 1)];
        AdmitDecides(limit, before, key, now, evicted, true, windows);
        return true, evicted;
      }
      if w.count >= limit {
        AdmitDecides(limit, before, key, now, evicted, false, windows);
        return false, evicted;
      }
      SizeAfterAdd(windows, key, Window(w.start, w.count + 1));
      windows := windows[key := Window(w.start, w.count + 1)];
      ok := true;
      AdmitDecides(limit, before, key, now, evicted, true, windows);
    }
  }

  // ---- Runs of checks ----

  datatype Check = Check(key: Source, now: int, evicted: set<Source>, ok: bool)

  ghost predicate StepOk(limit: int, before: Table, c: Check, after: Table) {
    && c.now > 0
    && MayEvict(Live(before, c.now), MAX_RATE_WINDOWS, c.evicted)
    && (c.ok, after) == Admit(limit, Live(before, c.now) - c.evicted, c.key, c.now)
  }

  /** Checks in the order they take the lock, each with the time it read before. */
  ghost predicate IsTrace(limit: int, checks: seq<Check>, tables: seq<Table>) {
    && limit > 0 && |tables| == |checks| + 1 && tables[0] == map[]
    && (forall i :: 0 <= i < |checks| ==> StepOk(limit, tables[i], checks[i], tables[i + 1]))
  }

  /** No check has read a time more than d earlier than one that took the lock before it. */
  ghost predicate OutOfOrderBy(checks: seq<Check>, d: nat) {
    forall i, j :: 0 <= i < j < |checks| ==> checks[i].now <= checks[j].now + d
  }

  ghost predicate LocksInClockOrder(checks: seq<Check>) { OutOfOrderBy(checks, 0) }

  /** The latest time among the first n checks. */
  function Latest(checks: seq<Check>, n: nat): int
    requires n <= |checks|
  {
    if n == 0 then 0
    else
      var before, now := Latest(checks, n - 1), checks[n - 1].now;
      if now > before then now else before
  }

  lemma {:induction false} LatestIsLatest(checks: seq<Check>, n: nat)
    requires n <= |checks|
    ensures forall i :: 0 <= i < n ==> checks[i].now <= Latest(checks, n)
    ensures Latest(checks, n) == 0 || exists i :: 0 <= i < n && checks[i].now == Latest(checks, n)
    ensures Latest(checks, n) >= 0
  {
    if n > 0 {
      LatestIsLatest(checks, n - 1);
    }
  }

  lemma {:induction false} LatestOfPrefix(checks: seq<Check>, all: seq<Check>, n: nat)
    requires n <= |checks| && checks <= all
    ensures Latest(all, n) == Latest(checks, n)
  {
    if n > 0 {
      LatestOfPrefix(checks, all, n - 1);
    }
  }

  lemma StepAt(limit: int, checks: seq<Check>, tables: seq<Table>, n: nat)
    requires IsTrace(limit, checks, tables) && n < |checks|
    ensures |tables| == |checks| + 1 && limit > 0
    ensures StepOk(limit, tables[n], checks[n], tables[n + 1]) && checks[n].now > 0
  {
    hide Admit, Live, MayEvict;
    assert StepOk(limit, tables[n], checks[n], tables[n + 1]);
  }

  /** The next check is at most d behind all before it. */
  lemma NotFarBehind(limit: int, checks: seq<Check>, tables: seq<Table>, d: nat, n: nat)
    requires IsTrace(limit, checks, tables) && OutOfOrderBy(checks, d) && n < |checks|
    ensures Latest(checks, n) <= checks[n].now + d
  {
    hide StepOk;
    StepAt(limit, checks, tables, n);
    LatestIsLatest(checks, n);
  }

  predicate InMinute(c: Check, key: Source, t: int) {
    c.key == key && c.ok && t <= c.now < t + MINUTE
  }

  /** How many of the first n checks admitted key in the minute from t. */
  function Admitted(checks: seq<Check>, n: nat, key: Source, t: int): nat
    requires n <= |checks|
  {
    if n == 0 then 0 else Admitted(checks, n - 1, key, t) + if InMinute(checks[n - 1], key, t) then 1 else 0
  }

  /** How many of the first n checks evicted key's window. */
  function Evictions(checks: seq<Check>, n: nat, key: Source): nat
    requires n <= |checks|
  {
    if n == 0 then 0 else Evictions(checks, n - 1, key) + if key in checks[n - 1].evicted then 1 else 0
  }

  lemma Product(limit: int, evictions: nat, more: nat)
    requires limit > 0
    ensures (evictions + more) * limit == evictions * limit + more * limit && evictions * limit >= 0
  {
  }

  /** What checks leave in a source's window. */
  ghost predicate Sane(limit: int, table: Table, key: Source, latest: int) {
    key in table ==> 0 < table[key].start <= latest && 0 < table[key].count <= limit
  }

  lemma SaneStep(limit: int, before: Table, c: Check, after: Table, key: Source, latest: int)
    requires limit > 0 && StepOk(limit, before, c, after) && Sane(limit, before, key, latest)
    ensures Sane(limit, after, key, Later(c.now, latest))
  {
    hide MayEvict;
  }

  lemma {:induction false} TraceSane(limit: int, checks: seq<Check>, tables: seq<Table>, n: nat, key: Source)
    requires IsTrace(limit, checks, tables) && n <= |checks|
    ensures |tables| == |checks| + 1 && limit > 0
    ensures Sane(limit, tables[n], key, Latest(checks, n))
  {
    hide StepOk;
    if n > 0 {
      hide Sane, IsTrace;
      TraceSane(limit, checks, tables, n - 1, key);
      StepAt(limit, checks, tables, n - 1);
      SaneStep(limit, tables[n - 1], checks[n - 1], tables[n], key, Latest(checks, n - 1));
    }
  }

  function Later(x: int, y: int): int { if x > y then x else y }

  // ---- Building traces ----

  lemma SpareKey(live: Table, key: Source) returns (evicted: set<Source>)
    ensures MayEvict(live, MAX_RATE_WINDOWS, evicted) && key !in evicted
  {
    var others := live.Keys - {key};
    assert |others| >= |live| - 1 by {
      assert live.Keys <= others + {key};
      SubsetSize(live.Keys, others + {key});
    }
    evicted := SubsetOfSize(others, Overflow(|live|, MAX_RATE_WINDOWS));
  }

  /** The trace goes on with times from some point, at most d out of order, without
      evicting the source's window. */
  ghost predicate GoesOn(limit: int, d: nat, checks: seq<Check>, tables: seq<Table>, all: seq<Check>, path: seq<Table>,
                         key: Source, from: int)
  {
    && IsTrace(limit, all, path) && OutOfOrderBy(all, d)
    && checks <= all && tables <= path && |tables| == |checks| + 1
    && forall i :: |checks| <= i < |all| ==> all[i].now >= from && key !in all[i].evicted
  }

  lemma TraceOf(limit: int, d: nat, checks: seq<Check>, tables: seq<Table>, all: seq<Check>, path: seq<Table>,
                key: Source, from: int)
    requires GoesOn(limit, d, checks, tables, all, path, key, from)
    ensures IsTrace(limit, all, path) && OutOfOrderBy(all, d) && |path| == |all| + 1 && limit > 0
  {
  }

  lemma StartOn(limit: int, d: nat, checks: seq<Check>, tables: seq<Table>, key: Source, from: int)
    requires IsTrace(limit, checks, tables) && OutOfOrderBy(checks, d)
    ensures GoesOn(limit, d, checks, tables, checks, tables, key, from) && |tables| == |checks| + 1 && limit > 0
  {
  }

  lemma {:induction false} CountsExtend(checks: seq<Check>, all: seq<Check>, n: nat, key: Source, t: int)
    requires n <= |checks| && checks <= all
    ensures Admitted(all, n, key, t) == Admitted(checks, n, key, t)
  {
    if n > 0 {
      CountsExtend(checks, all, n - 1, key, t);
    }
  }

  lemma TraceSnoc(limit: int, d: nat, checks: seq<Check>, tables: seq<Table>, c: Check, next: Table)
    requires IsTrace(limit, checks, tables) && OutOfOrderBy(checks, d)
    requires Latest(checks, |checks|) <= c.now + d && StepOk(limit, tables[|checks|], c, next)
    ensures IsTrace(limit, checks + [c], tables + [next]) && OutOfOrderBy(checks + [c], d)
  {
    hide Admit, Live, MayEvict;
    var all, path := checks + [c], tables + [next];
    LatestIsLatest(checks, |checks|);
    forall i | 0 <= i < |all| ensures StepOk(limit, path[i], all[i], path[i + 1]) {
      if i < |checks| {
        assert StepOk(limit, tables[i], checks[i], tables[i + 1]);
      }
    }
  }

  /** Whatever the table holds, a check of any source can come next that spares the
      window of a given one. */
  lemma OneMore(limit: int, d: nat, checks: seq<Check>, tables: seq<Table>, all: seq<Check>, path: seq<Table>,
                key: Source, from: int, t: int, who: Source, now: int) returns (all': seq<Check>, path': seq<Table>)
    requires GoesOn(limit, d, checks, tables, all, path, key, from)
    requires Latest(all, |all|) <= now + d && now >= from && now > 0
    ensures GoesOn(limit, d, checks, tables, all', path', key, from)
    ensures |path| == |all| + 1 == |all'| && |path'| == |path| + 1
    ensures var c := all'[|all|];
            && c.key == who && c.now == now && key !in c.evicted
            && (c.ok, path'[|path|]) == Admit(limit, Live(path[|all|], now) - c.evicted, who, now)
            && Admitted(all', |all'|, key, t) == Admitted(all, |all|, key, t) + if InMinute(c, key, t) then 1 else 0
    ensures Latest(all', |all'|) == Later(now, Latest(all, |all|))
  {
    hide IsTrace, Admit, Live, OutOfOrderBy, MayEvict;
    TraceOf(limit, d, checks, tables, all, path, key, from);
    var evicted := SpareKey(Live(path[|all|], now), key);
    var (ok, next) := Admit(limit, Live(path[|all|], now) - evicted, who, now);
    var c := Check(who, now, evicted, ok);
    TraceSnoc(limit, d, all, path, c, next);
    all', path' := all + [c], path + [next];
    TraceOfGrown(limit, all', path');
    CountsExtend(all, all', |all|, key, t);
    LatestOfPrefix(all, all', |all|);
  }

  lemma TraceOfGrown(limit: int, all: seq<Check>, path: seq<Table>)
    requires IsTrace(limit, all, path)
    ensures |path| == |all| + 1
  {
  }

  /** Where a trace stands: its latest time, the source's window, and what the
      minute from t has admitted. */
  ghost predicate Stands(all: seq<Check>, path: seq<Table>, key: Source, t: int, latest: int, w: Window,
                         admitted: int)
  {
    && |path| == |all| + 1 && Latest(all, |all|) == latest
    && key in path[|all|] && path[|all|][key] == w && w.start > 0
    && Admitted(all, |all|, key, t) == admitted
  }

  /** A window opens where the source has none that still runs. */
  lemma Open(limit: int, d: nat, checks: seq<Check>, tables: seq<Table>, all: seq<Check>, path: seq<Table>,
             key: Source, from: int, t: int, now: int) returns (all': seq<Check>, path': seq<Table>)
    requires GoesOn(limit, d, checks, tables, all, path, key, from)
    requires Latest(all, |all|) <= now + d && now >= from && now > 0
    requires |path| == |all| + 1 && (key in path[|all|] ==> 0 < path[|all|][key].start <= now - MINUTE)
    ensures GoesOn(limit, d, checks, tables, all', path', key, from)
    ensures Stands(all', path', key, t, Later(now, Latest(all, |all|)), Window(now, 1),
                   Admitted(all, |all|, key, t) + if t <= now < t + MINUTE then 1 else 0)
  {
    hide GoesOn, IsTrace, MayEvict;
    all', path' := OneMore(limit, d, checks, tables, all, path, key, from, t, key, now);
    TraceOf(limit, d, checks, tables, all', path', key, from);
  }

  /** A running window with room admits one more. */
  lemma Add(limit: int, d: nat, checks: seq<Check>, tables: seq<Table>, all: seq<Check>, path: seq<Table>,
            key: Source, from: int, t: int, latest: int, w: Window, admitted: int, now: int)
    returns (all': seq<Check>, path': seq<Table>)
    requires GoesOn(limit, d, checks, tables, all, path, key, from)
    requires Stands(all, path, key, t, latest, w, admitted) && now - w.start < MINUTE && w.count < limit
    requires latest <= now + d && now >= from && now > 0
    ensures GoesOn(limit, d, checks, tables, all', path', key, from)
    ensures Stands(all', path', key, t, Later(now, latest), Window(w.start, w.count + 1),
                   admitted + if t <= now < t + MINUTE then 1 else 0)
  {
    hide GoesOn, IsTrace, MayEvict;
    all', path' := OneMore(limit, d, checks, tables, all, path, key, from, t, key, now);
    TraceOf(limit, d, checks, tables, all', path', key, from);
  }

  /** Checks at one time, as many as the window has left, are all admitted. */
  lemma {:induction false} Fill(limit: int, d: nat, checks: seq<Check>, tables: seq<Table>, all: seq<Check>,
                                path: seq<Table>, key: Source, from: int, t: int, latest: int, w: Window,
                                admitted: int, now: int, k: nat)
    returns (all': seq<Check>, path': seq<Table>)
    requires GoesOn(limit, d, checks, tables, all, path, key, from)
    requires Stands(all, path, key, t, latest, w, admitted) && now - w.start < MINUTE && w.count + k <= limit
    requires now <= latest <= now + d && now >= from && now > 0
    ensures GoesOn(limit, d, checks, tables, all', path', key, from)
    ensures Stands(all', path', key, t, latest, Window(w.start, w.count + k),
                   admitted + if t <= now < t + MINUTE then k else 0)
    decreases k
  {
    hide GoesOn, Admitted, Stands;
    if k == 0 {
      all', path' := all, path;
    } else {
      all', path' := Fill(limit, d, checks, tables, all, path, key, from, t, latest, w, admitted, now, k - 1);
      all', path' := Add(limit, d, checks, tables, all', path', key, from, t, latest, Window(w.start, w.count + k - 1),
                         admitted + (if t <= now < t + MINUTE then k - 1 else 0), now);
    }
  }

  /** Opens a window and fills it at once. */
  lemma OpenFull(limit: int, d: nat, checks: seq<Check>, tables: seq<Table>, all: seq<Check>, path: seq<Table>,
                 key: Source, from: int, t: int, now: int) returns (all': seq<Check>, path': seq<Table>)
    requires GoesOn(limit, d, checks, tables, all, path, key, from) && limit > 0
    requires Latest(all, |all|) <= now + d && now >= from && now > 0
    requires |path| == |all| + 1 && (key in path[|all|] ==> 0 < path[|all|][key].start <= now - MINUTE)
    ensures GoesOn(limit, d, checks, tables, all', path', key, from)
    ensures Stands(all', path', key, t, Later(now, Latest(all, |all|)), Window(now, limit),
                   Admitted(all, |all|, key, t) + if t <= now < t + MINUTE then limit else 0)
  {
    hide GoesOn, Admitted, Stands;
    all', path' := Open(limit, d, checks, tables, all, path, key, from, t, now);
    all', path' := Fill(limit, d, checks, tables, all', path', key, from, t, Later(now, Latest(all, |all|)),
                        Window(now, 1), Admitted(all, |all|, key, t) + (if t <= now < t + MINUTE then 1 else 0),
                        now, limit - 1);
  }

  /** A window that opens before the minute from t and is filled up when it begins. */
  lemma OpenThenFill(limit: int, d: nat, checks: seq<Check>, tables: seq<Table>, all: seq<Check>, path: seq<Table>,
                     key: Source, from: int, t: int, now: int)
    returns (all': seq<Check>, path': seq<Table>, latest: int)
    requires GoesOn(limit, d, checks, tables, all, path, key, from) && limit > 0
    requires Latest(all, |all|) <= now + d && now >= from && 0 < now < t < now + MINUTE
    requires |path| == |all| + 1 && (key in path[|all|] ==> 0 < path[|all|][key].start <= now - MINUTE)
    ensures GoesOn(limit, d, checks, tables, all', path', key, from) && latest <= Later(t, Latest(all, |all|))
    ensures Stands(all', path', key, t, latest, Window(now, limit), Admitted(all, |all|, key, t) + limit - 1)
  {
    hide GoesOn, Stands, Admitted;
    var before := Admitted(all, |all|, key, t);
    latest := Later(now, Latest(all, |all|));
    all', path' := Open(limit, d, checks, tables, all, path, key, from, t, now);
    if limit > 1 {
      all', path' := Add(limit, d, checks, tables, all', path', key, from, t, latest, Window(now, 1), before, t);
      latest := Later(t, latest);
      all', path' := Fill(limit, d, checks, tables, all', path', key, from, t, latest, Window(now, 2), before + 1, t,
                          limit - 2);
    }
  }

  /** Another source's check drops a window that has run out by its time. */
  lemma PrunedBy(limit: int, d: nat, checks: seq<Check>, tables: seq<Table>, all: seq<Check>, path: seq<Table>,
                 key: Source, from: int, t: int, latest: int, w: Window, admitted: int, who: Source, now: int)
    returns (all': seq<Check>, path': seq<Table>)
    requires GoesOn(limit, d, checks, tables, all, path, key, from)
    requires Stands(all, path, key, t, latest, w, admitted) && who != key
    requires latest <= now + d && now >= from && now > 0 && w.start + MINUTE <= now
    ensures GoesOn(limit, d, checks, tables, all', path', key, from)
    ensures |path'| == |all'| + 1 && key !in path'[|all'|] && Latest(all', |all'|) == Later(now, latest)
    ensures Admitted(all', |all'|, key, t) == admitted
  {
    hide GoesOn, IsTrace, MayEvict;
    all', path' := OneMore(limit, d, checks, tables, all, path, key, from, t, who, now);
    TraceOf(limit, d, checks, tables, all', path', key, from);
  }

  lemma EmptyTrace(limit: int, d: nat, key: Source)
    requires limit > 0
    ensures IsTrace(limit, [], [map[]]) && GoesOn(limit, d, [], [map[]], [], [map[]], key, 0)
  {
  }
}
