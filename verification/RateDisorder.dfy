/** Concurrent rate checks (internal/chatops/policy.go): a check reads the clock before
    it takes the lock, so the table may see times out of order. What that does to the
    limit, and to pruning. */
module RateDisorder {
  import opened RatePolicy
  import opened Tables

  // ---- Reading the clock, then the lock ----

  /** Checks that have read the clock and wait for the lock, and those decided. */
  datatype State = State(clock: int, waiting: multiset<(Source, int)>, checks: seq<Check>, tables: seq<Table>)

  datatype Step =
    | Tick(now: int)
    | Read(key: Source)
    | Decide(key: Source, at: int, evicted: set<Source>)

  const START := State(0, multiset{}, [], [map[]])

  predicate Enabled(s: State, step: Step) {
    && s.tables != []
    && match step
       case Tick(now) => now >= s.clock
       case Read(_) => s.clock > 0
       case Decide(key, at, evicted) =>
         (key, at) in s.waiting && MayEvict(Live(s.tables[|s.tables| - 1], at), MAX_RATE_WINDOWS, evicted)
  }

  function Do(limit: int, s: State, step: Step): State
    requires Enabled(s, step)
  {
    match step
    case Tick(now) => s.(clock := now)
    case Read(key) => s.(waiting := s.waiting + multiset{(key, s.clock)})
    case Decide(key, at, evicted) =>
      var (ok, next) := Admit(limit, Live(s.tables[|s.tables| - 1], at) - evicted, key, at);
      s.(waiting := s.waiting - multiset{(key, at)}, checks := s.checks + [Check(key, at, evicted, ok)],
         tables := s.tables + [next])
  }

  ghost predicate IsRun(limit: int, steps: seq<Step>, states: seq<State>) {
    && |states| == |steps| + 1 && states[0] == START
    && forall i :: 0 <= i < |steps| ==> Enabled(states[i], steps[i]) && states[i + 1] == Do(limit, states[i], steps[i])
  }

  /** No check waits longer than d for the lock. */
  ghost predicate Prompt(d: nat, steps: seq<Step>, states: seq<State>)
    requires |states| == |steps| + 1
  {
    forall i :: 0 <= i < |steps| && steps[i].Decide? ==> states[i].clock <= steps[i].at + d
  }

  ghost predicate Inv(limit: int, s: State) {
    && IsTrace(limit, s.checks, s.tables) && |s.tables| == |s.checks| + 1
    && Latest(s.checks, |s.checks|) <= s.clock
    && forall p :: p in s.waiting ==> 0 < p.1 <= s.clock
  }

  lemma DecideKeeps(limit: int, s: State, step: Step)
    requires Inv(limit, s) && Enabled(s, step) && step.Decide?
    ensures Inv(limit, Do(limit, s, step))
    ensures forall d: nat :: OutOfOrderBy(s.checks, d) && s.clock <= step.at + d ==>
              OutOfOrderBy(Do(limit, s, step).checks, d)
  {
    hide Live, Admit, MayEvict, IsTrace;
    var t := Do(limit, s, step);
    var c, next := t.checks[|s.checks|], t.tables[|s.tables|];
    TraceSnoc(limit, c.now + s.clock, s.checks, s.tables, c, next) by {
      LatestIsLatest(s.checks, |s.checks|);
      AnyOrder(limit, s.checks, s.tables, c.now + s.clock);
    }
    LatestOfPrefix(s.checks, t.checks, |s.checks|);
    forall d: nat | OutOfOrderBy(s.checks, d) && s.clock <= step.at + d ensures OutOfOrderBy(t.checks, d) {
      TraceSnoc(limit, d, s.checks, s.tables, c, next);
    }
  }

  /** Times between zero and a bound are never further apart than the bound. */
  lemma AnyOrder(limit: int, checks: seq<Check>, tables: seq<Table>, d: nat)
    requires IsTrace(limit, checks, tables) && Latest(checks, |checks|) <= d
    ensures OutOfOrderBy(checks, d)
  {
    hide StepOk;
    LatestIsLatest(checks, |checks|);
    forall i, j | 0 <= i < j < |checks| ensures checks[i].now <= checks[j].now + d {
      StepAt(limit, checks, tables, j);
    }
  }

  lemma {:induction false} RunKeepsInv(limit: int, d: nat, steps: seq<Step>, states: seq<State>, i: nat)
    requires IsRun(limit, steps, states) && Prompt(d, steps, states) && limit > 0 && i < |states|
    ensures Inv(limit, states[i]) && OutOfOrderBy(states[i].checks, d)
  {
    hide Inv, Do, Enabled;
    if i == 0 {
      StartInv(limit);
    } else {
      RunKeepsInv(limit, d, steps, states, i - 1);
      assert Enabled(states[i - 1], steps[i - 1]);
      if steps[i - 1].Decide? {
        DecideKeeps(limit, states[i - 1], steps[i - 1]);
      } else {
        OtherKeeps(limit, states[i - 1], steps[i - 1]);
      }
    }
  }

  lemma StartInv(limit: int)
    requires limit > 0
    ensures Inv(limit, START)
  {
  }

  lemma OtherKeeps(limit: int, s: State, step: Step)
    requires Inv(limit, s) && Enabled(s, step) && !step.Decide?
    ensures Inv(limit, Do(limit, s, step)) && Do(limit, s, step).checks == s.checks
  {
    hide IsTrace;
  }

  /** If no check waits longer than d for the lock, the table sees times at most d
      out of order. */
  lemma PromptRunsAreNearlyOrdered(limit: int, d: nat, steps: seq<Step>, states: seq<State>)
    requires IsRun(limit, steps, states) && Prompt(d, steps, states) && limit > 0
    ensures var s := states[|steps|]; IsTrace(limit, s.checks, s.tables) && OutOfOrderBy(s.checks, d)
  {
    RunKeepsInv(limit, d, steps, states, |steps|);
  }

  // ---- Every such trace is a run ----

  lemma RunSnoc(limit: int, d: nat, steps: seq<Step>, states: seq<State>, step: Step, next: State)
    requires IsRun(limit, steps, states) && Prompt(d, steps, states)
    requires var last := states[|steps|];
             && Enabled(last, step) && Do(limit, last, step) == next
             && (step.Decide? ==> last.clock <= step.at + d)
    ensures IsRun(limit, steps + [step], states + [next]) && Prompt(d, steps + [step], states + [next])
  {
    hide Enabled, Do;
    var all, path := steps + [step], states + [next];
    forall i | 0 <= i < |all| ensures Enabled(path[i], all[i]) && path[i + 1] == Do(limit, path[i], all[i]) {
      if i < |steps| {
        assert path[i] == states[i] && path[i + 1] == states[i + 1] && all[i] == steps[i];
      }
    }
  }

  lemma RunLength(limit: int, steps: seq<Step>, states: seq<State>)
    requires IsRun(limit, steps, states)
    ensures |states| == |steps| + 1
  {
  }

  /** A run that ends in a state. */
  ghost predicate Ends(limit: int, d: nat, steps: seq<Step>, states: seq<State>, s: State) {
    IsRun(limit, steps, states) && Prompt(d, steps, states) && states[|steps|] == s
  }

  lemma OneMoreStep(limit: int, d: nat, steps: seq<Step>, states: seq<State>, s: State, step: Step, next: State)
    returns (steps': seq<Step>, states': seq<State>)
    requires Ends(limit, d, steps, states, s)
    requires Enabled(s, step) && Do(limit, s, step) == next && (step.Decide? ==> s.clock <= step.at + d)
    ensures Ends(limit, d, steps', states', next)
  {
    hide Enabled, Do, IsRun, Prompt;
    RunLength(limit, steps, states);
    RunSnoc(limit, d, steps, states, step, next);
    steps', states' := steps + [step], states + [next];
  }

  /** The checks from i on that read the clock at a time. */
  function Due(checks: seq<Check>, i: nat, now: int): multiset<(Source, int)>
    requires i <= |checks|
    decreases |checks| - i
  {
    if i == |checks| then multiset{}
    else Due(checks, i + 1, now) + if checks[i].now == now then multiset{(checks[i].key, now)} else multiset{}
  }

  /** The checks from i on that have read the clock by a time. */
  function DueBy(checks: seq<Check>, i: nat, now: int): multiset<(Source, int)>
    requires i <= |checks|
    decreases |checks| - i
  {
    if i == |checks| then multiset{}
    else
      DueBy(checks, i + 1, now)
      + if checks[i].now <= now then multiset{(checks[i].key, checks[i].now)} else multiset{}
  }

  lemma {:induction false} DueAtLast(checks: seq<Check>, i: nat, now: int)
    requires i <= |checks|
    ensures DueBy(checks, i, now) == DueBy(checks, i, now - 1) + Due(checks, i, now)
    decreases |checks| - i
  {
    if i < |checks| {
      DueAtLast(checks, i + 1, now);
    }
  }

  lemma {:induction false} NoneDue(checks: seq<Check>, i: nat)
    requires i <= |checks| && forall k :: 0 <= k < |checks| ==> checks[k].now > 0
    ensures DueBy(checks, i, 0) == multiset{}
    decreases |checks| - i
  {
    if i < |checks| {
      NoneDue(checks, i + 1);
    }
  }

  /** All checks due at the present time read the clock. */
  lemma {:induction false} ReadDue(limit: int, d: nat, steps: seq<Step>, states: seq<State>, s: State,
                                   checks: seq<Check>, i: nat)
    returns (steps': seq<Step>, states': seq<State>)
    requires Ends(limit, d, steps, states, s) && s.tables != [] && s.clock > 0 && i <= |checks|
    ensures Ends(limit, d, steps', states', s.(waiting := s.waiting + Due(checks, i, s.clock)))
    decreases |checks| - i
  {
    hide Ends;
    if i == |checks| {
      steps', states' := steps, states;
      assert s.waiting + multiset{} == s.waiting;
    } else {
      steps', states' := ReadDue(limit, d, steps, states, s, checks, i + 1);
      var before := s.(waiting := s.waiting + Due(checks, i + 1, s.clock));
      if checks[i].now == s.clock {
        var after := Do(limit, before, Read(checks[i].key));
        steps', states' := OneMoreStep(limit, d, steps', states', before, Read(checks[i].key), after);
        assert after.waiting == s.waiting + Due(checks, i, s.clock);
      } else {
        assert Due(checks, i, s.clock) == Due(checks, i + 1, s.clock);
      }
    }
  }

  /** The clock goes on to a time, and every check due by then reads it. */
  lemma {:induction false} ReadUpTo(limit: int, d: nat, steps: seq<Step>, states: seq<State>, s: State,
                                    checks: seq<Check>, i: nat, now: int)
    returns (steps': seq<Step>, states': seq<State>)
    requires Ends(limit, d, steps, states, s) && s.tables != [] && i <= |checks|
    requires 0 <= s.clock <= now && s.waiting == DueBy(checks, i, s.clock)
    ensures Ends(limit, d, steps', states', s.(clock := now, waiting := DueBy(checks, i, now)))
    decreases now - s.clock
  {
    hide Ends, Due, DueBy;
    if s.clock == now {
      steps', states' := steps, states;
    } else {
      var ticked := s.(clock := s.clock + 1);
      steps', states' := OneMoreStep(limit, d, steps, states, s, Tick(s.clock + 1), ticked);
      steps', states' := ReadDue(limit, d, steps', states', ticked, checks, i);
      DueAtLast(checks, i, s.clock + 1);
      var read := ticked.(waiting := DueBy(checks, i, s.clock + 1));
      steps', states' := ReadUpTo(limit, d, steps', states', read, checks, i, now);
    }
  }

  /** The state in which the first n checks have been decided. */
  ghost function Decided(checks: seq<Check>, tables: seq<Table>, n: nat): State
    requires n <= |checks| < |tables|
  {
    State(Latest(checks, n), DueBy(checks, n, Latest(checks, n)), checks[..n], tables[..n + 1])
  }

  lemma DueTaken(checks: seq<Check>, n: nat, now: int)
    requires n < |checks| && checks[n].now <= now
    ensures (checks[n].key, checks[n].now) in DueBy(checks, n, now)
    ensures DueBy(checks, n, now) - multiset{(checks[n].key, checks[n].now)} == DueBy(checks, n + 1, now)
  {
  }

  lemma DecideNext(limit: int, d: nat, checks: seq<Check>, tables: seq<Table>, n: nat)
    requires IsTrace(limit, checks, tables) && OutOfOrderBy(checks, d) && n < |checks|
    ensures |tables| == |checks| + 1 && 0 <= Latest(checks, n) <= Latest(checks, n + 1)
    ensures var c := checks[n];
            var s := Decided(checks, tables, n).(clock := Latest(checks, n + 1),
                                                 waiting := DueBy(checks, n, Latest(checks, n + 1)));
            var step := Decide(c.key, c.now, c.evicted);
            Enabled(s, step) && Do(limit, s, step) == Decided(checks, tables, n + 1) && s.clock <= c.now + d
  {
    hide Admit, Live, MayEvict, IsTrace, OutOfOrderBy, DueBy;
    StepAt(limit, checks, tables, n);
    NotFarBehind(limit, checks, tables, d, n);
    LatestIsLatest(checks, n);
    DueTaken(checks, n, Latest(checks, n + 1));
    assert tables[..n + 1][|tables[..n + 1]| - 1] == tables[n];
    assert tables[..n + 2] == tables[..n + 1] + [tables[n + 1]];
    assert checks[..n + 1] == checks[..n] + [checks[n]];
  }

  lemma {:induction false} RunTo(limit: int, d: nat, checks: seq<Check>, tables: seq<Table>, n: nat)
    returns (steps: seq<Step>, states: seq<State>)
    requires IsTrace(limit, checks, tables) && OutOfOrderBy(checks, d) && n <= |checks|
    ensures |tables| == |checks| + 1 && Ends(limit, d, steps, states, Decided(checks, tables, n))
  {
    hide Ends, IsTrace, OutOfOrderBy, Do, Enabled, Latest, DueBy;
    if n == 0 {
      TraceStart(limit, d, checks, tables);
      steps, states := [], [START];
    } else {
      steps, states := RunTo(limit, d, checks, tables, n - 1);
      DecideNext(limit, d, checks, tables, n - 1);
      var c, before := checks[n - 1], Decided(checks, tables, n - 1);
      steps, states := ReadUpTo(limit, d, steps, states, before, checks, n - 1, Latest(checks, n));
      var read := before.(clock := Latest(checks, n), waiting := DueBy(checks, n - 1, Latest(checks, n)));
      steps, states := OneMoreStep(limit, d, steps, states, read, Decide(c.key, c.now, c.evicted),
                                   Decided(checks, tables, n));
    }
  }

  lemma TraceStart(limit: int, d: nat, checks: seq<Check>, tables: seq<Table>)
    requires IsTrace(limit, checks, tables)
    ensures |tables| == |checks| + 1 && Decided(checks, tables, 0) == START
    ensures Ends(limit, d, [], [START], START)
  {
    hide StepOk;
    forall k | 0 <= k < |checks| ensures checks[k].now > 0 {
      StepAt(limit, checks, tables, k);
    }
    NoneDue(checks, 0);
    assert tables[..1] == [map[]];
  }

  /** Conversely, every trace at most d out of order comes from a run in which no check
      waits longer than d for the lock. */
  lemma NearlyOrderedTracesAreRuns(limit: int, d: nat, checks: seq<Check>, tables: seq<Table>)
    returns (steps: seq<Step>, states: seq<State>)
    requires IsTrace(limit, checks, tables) && OutOfOrderBy(checks, d)
    ensures IsRun(limit, steps, states) && Prompt(d, steps, states)
    ensures states[|steps|].checks == checks && states[|steps|].tables == tables
  {
    steps, states := RunTo(limit, d, checks, tables, |checks|);
    assert checks[..|checks|] == checks && tables[..|tables|] == tables;
  }

  // ---- What a minute admits at most ----

  /** How many windows, each beginning at least a gap after the one before, can begin
      after an instant and early enough for the next to begin at x. */
  function Slots(after: int, gap: int, x: int): nat
    requires gap > 0
    decreases x - after
  {
    if x - gap <= after then 0 else Slots(after, gap, x - gap) + 1
  }

  lemma {:induction false} SlotsGrow(after: int, gap: int, x: int, y: int)
    requires gap > 0 && x <= y
    ensures Slots(after, gap, x) <= Slots(after, gap, y)
    decreases y - after
  {
    if x - gap > after {
      SlotsGrow(after, gap, x - gap, y - gap);
    }
  }

  /** n times k, by repeated addition. */
  function Times(n: nat, k: int): int {
    if n == 0 then 0 else Times(n - 1, k) + k
  }

  lemma {:induction false} TimesIs(n: nat, k: int)
    ensures Times(n, k) == n * k
  {
    if n > 0 {
      TimesIs(n - 1, k);
      assert (n - 1) * k + k == n * k;
    }
  }

  lemma {:induction false} TimesSum(m: nat, n: nat, k: int)
    ensures Times(m + n, k) == Times(m, k) + Times(n, k)
  {
    if n > 0 {
      TimesSum(m, n - 1, k);
    }
  }

  lemma {:induction false} TimesGrows(m: nat, n: nat, k: int)
    requires m <= n && k >= 0
    ensures 0 <= Times(m, k) <= Times(n, k)
    decreases n
  {
    if m < n {
      TimesGrows(m, n - 1, k);
    } else if m > 0 {
      TimesGrows(m - 1, m - 1, k);
    }
  }

  lemma {:induction false} SlotsBounds(after: int, gap: int, x: int)
    requires gap > 0 && x > after
    ensures Times(Slots(after, gap, x), gap) < x - after <= Times(Slots(after, gap, x), gap) + gap
    decreases x - after
  {
    if x - gap > after {
      SlotsBounds(after, gap, x - gap);
    }
  }

  lemma FloorIs(e: int, g: int)
    requires e >= 0 && g > 0
    ensures e / g >= 0 && Times(e / g, g) <= e < Times(e / g, g) + g
  {
    TimesIs(e / g, g);
    assert e == (e / g) * g + e % g;
  }

  lemma Quotient(e: int, g: int, q: nat)
    requires e >= 0 && g > 0 && Times(q, g) <= e < Times(q, g) + g
    ensures e / g == q
  {
    FloorIs(e, g);
    if e / g < q {
      TimesGrows(e / g + 1, q, g);
    } else if e / g > q {
      TimesGrows(q + 1, e / g, g);
    }
  }

  lemma SlotsAre(after: int, gap: int, x: int)
    requires gap > 0 && x > after
    ensures Slots(after, gap, x) == (x - after - 1) / gap
  {
    SlotsBounds(after, gap, x);
    Quotient(x - after - 1, gap, Slots(after, gap, x));
  }

  /** How many windows of a source can admit in one minute, and how many of them can
      begin within it. */
  function Windows(d: nat): nat
    requires d < MINUTE
  {
    (2 * MINUTE - 2) / (MINUTE - d) + 1
  }

  function Inside(d: nat): nat
    requires d < MINUTE
  {
    (MINUTE - 1) / (MINUTE - d) + 1
  }

  /** What n windows may admit in a minute: the first admission of each lies outside it,
      but for those that begin within. */
  function Yield(limit: int, n: nat, inside: nat): int { Times(n, limit - 1) + inside }

  lemma YieldGrows(limit: int, m: nat, n: nat, i: nat, j: nat)
    requires limit > 0 && m <= n && i <= j
    ensures 0 <= Yield(limit, m, i) <= Yield(limit, n, j)
    ensures m < n ==> Yield(limit, m, i) + limit - 1 <= Yield(limit, n, j)
    ensures m < n && i < j ==> Yield(limit, m, i) + limit <= Yield(limit, n, j)
  {
    TimesGrows(m, n, limit - 1);
    if m < n {
      TimesGrows(m + 1, n, limit - 1);
    }
  }

  /** What the windows before the next, if that begins at x or later, may have admitted
      in the minute from t. */
  function Past(limit: int, d: nat, t: int, x: int): int
    requires d < MINUTE
  {
    Yield(limit, Slots(t - MINUTE, MINUTE - d, x), Slots(t - 1, MINUTE - d, x))
  }

  /** What a window may itself have admitted in that minute. */
  function Own(t: int, w: Window): int {
    if w.start <= t - MINUTE then 0 else if t <= w.start < t + MINUTE then w.count else w.count - 1
  }

  function Smaller(x: int, y: int): int { if x < y then x else y }

  function Credit(limit: int, d: nat, table: Table, key: Source, t: int, latest: int): int
    requires d < MINUTE
  {
    if key in table then Past(limit, d, t, Smaller(table[key].start, latest - d)) + Own(t, table[key])
    else Past(limit, d, t, latest - d)
  }

  ghost predicate Earned(limit: int, d: nat, table: Table, key: Source, t: int, latest: int, admitted: int,
                         evictions: int)
    requires d < MINUTE
  {
    admitted <= Credit(limit, d, table, key, t, latest) + evictions * limit
  }

  lemma PastGrows(limit: int, d: nat, t: int, x: int, y: int)
    requires limit > 0 && d < MINUTE && x <= y
    ensures 0 <= Past(limit, d, t, x) <= Past(limit, d, t, y)
  {
    hide Slots, Yield;
    SlotsGrow(t - MINUTE, MINUTE - d, x, y);
    SlotsGrow(t - 1, MINUTE - d, x, y);
    YieldGrows(limit, Slots(t - MINUTE, MINUTE - d, x), Slots(t - MINUTE, MINUTE - d, y),
               Slots(t - 1, MINUTE - d, x), Slots(t - 1, MINUTE - d, y));
  }

  /** What begins after an instant takes up a slot after it. */
  lemma TakesSlot(after: int, gap: int, start: int, x: int, y: int)
    requires gap > 0 && after < start && x <= start && start + gap <= y
    ensures Slots(after, gap, x) < Slots(after, gap, y)
  {
    SlotsGrow(after, gap, x, start);
    SlotsGrow(after, gap, start + gap, y);
  }

  /** A window that has run out belongs to the past of the next. */
  lemma WindowPasses(limit: int, d: nat, t: int, w: Window, x: int, y: int)
    requires limit > 0 && d < MINUTE && 0 < w.count <= limit && x <= w.start && w.start + MINUTE - d <= y
    ensures Past(limit, d, t, x) + Own(t, w) <= Past(limit, d, t, y)
  {
    hide Slots, Yield;
    PastGrows(limit, d, t, x, y);
    if w.start > t - MINUTE {
      var gap := MINUTE - d;
      TakesSlot(t - MINUTE, gap, w.start, x, y);
      SlotsGrow(t - 1, gap, x, y);
      if w.start >= t {
        TakesSlot(t - 1, gap, w.start, x, y);
      }
      YieldGrows(limit, Slots(t - MINUTE, gap, x), Slots(t - MINUTE, gap, y), Slots(t - 1, gap, x),
                 Slots(t - 1, gap, y));
    }
  }

  /** While the minute can still admit, what is earned is within the bound. */
  lemma AtMostAll(limit: int, d: nat, t: int, w: Window, x: int)
    requires limit > 0 && d < MINUTE && 0 < w.count <= limit && x < t + MINUTE
    ensures Past(limit, d, t, x) + Own(t, w) <= Yield(limit, Windows(d), Inside(d))
    ensures Past(limit, d, t, x) <= Yield(limit, Windows(d), Inside(d))
  {
    hide Slots, Yield;
    var gap, last := MINUTE - d, t + MINUTE - 1;
    SlotsGrow(t - MINUTE, gap, x, last);
    SlotsAre(t - MINUTE, gap, last);
    SlotsGrow(t - 1, gap, x, last);
    SlotsAtLast(d, t);
    YieldGrows(limit, Slots(t - MINUTE, gap, x), Windows(d), Slots(t - 1, gap, x), Inside(d));
  }

  lemma SlotsAtLast(d: nat, t: int)
    requires d < MINUTE
    ensures Slots(t - 1, MINUTE - d, t + MINUTE - 1) == (MINUTE - 1) / (MINUTE - d)
  {
    SlotsAre(t - 1, MINUTE - d, t + MINUTE - 1);
  }

  lemma EarnedPruned(limit: int, d: nat, before: Table, key: Source, t: int, latest: int, now: int,
                     evicted: set<Source>, admitted: nat, evictions: nat)
    requires limit > 0 && d < MINUTE && Sane(limit, before, key, latest)
    requires Earned(limit, d, before, key, t, latest, admitted, evictions)
    ensures Earned(limit, d, Live(before, now) - evicted, key, t, Later(now, latest), admitted,
                   evictions + (if key in evicted then 1 else 0))
  {
    hide Past, Own;
    var after := Live(before, now) - evicted;
    Product(limit, evictions, if key in evicted then 1 else 0);
    var m := Later(now, latest);
    if key in before {
      var w, y := before[key], Smaller(before[key].start, latest - d);
      PastGrows(limit, d, t, y, Smaller(w.start, m - d));
      PastGrows(limit, d, t, y, m - d);
      OwnAtMost(t, w);
      if key !in after && now - w.start >= MINUTE {
        WindowPasses(limit, d, t, w, y, m - d);
      }
    } else {
      PastGrows(limit, d, t, latest - d, m - d);
    }
  }

  lemma OwnAtMost(t: int, w: Window)
    requires w.count > 0
    ensures 0 <= Own(t, w) <= w.count
  {
  }

  lemma EarnedDecided(limit: int, d: nat, table: Table, key: Source, t: int, latest: int, other: Source, now: int,
                      admitted: nat, evictions: nat)
    requires limit > 0 && d < MINUTE && 0 < now <= latest <= now + d
    requires Sane(limit, table, key, latest) && Earned(limit, d, table, key, t, latest, admitted, evictions)
    requires key in table ==> now - table[key].start < MINUTE
    ensures var (ok, after) := Admit(limit, table, other, now);
            Earned(limit, d, after, key, t, latest,
                   admitted + (if other == key && ok && t <= now < t + MINUTE then 1 else 0), evictions)
  {
    hide Past;
  }

  lemma EarnedStep(limit: int, d: nat, before: Table, c: Check, after: Table, key: Source, t: int, latest: int,
                   admitted: nat, evictions: nat)
    requires limit > 0 && d < MINUTE && latest <= c.now + d && StepOk(limit, before, c, after)
    requires Sane(limit, before, key, latest) && Earned(limit, d, before, key, t, latest, admitted, evictions)
    ensures Earned(limit, d, after, key, t, Later(c.now, latest), admitted + (if InMinute(c, key, t) then 1 else 0),
                   evictions + (if key in c.evicted then 1 else 0))
  {
    hide Earned, MayEvict, Admit;
    EarnedPruned(limit, d, before, key, t, latest, c.now, c.evicted, admitted, evictions);
    EarnedDecided(limit, d, Live(before, c.now) - c.evicted, key, t, Later(c.now, latest), c.key, c.now, admitted,
                  evictions + (if key in c.evicted then 1 else 0));
  }

  ghost predicate Bounded(limit: int, d: nat, table: Table, key: Source, t: int, latest: int, admitted: int,
                          evictions: int)
    requires d < MINUTE
  {
    && Earned(limit, d, table, key, t, latest, admitted, evictions)
    && admitted <= Yield(limit, Windows(d), Inside(d)) + evictions * limit
  }

  lemma EarnedAtMost(limit: int, d: nat, table: Table, key: Source, t: int, latest: int, admitted: int, evictions: int)
    requires limit > 0 && d < MINUTE && Sane(limit, table, key, latest) && latest - d < t + MINUTE
    requires Earned(limit, d, table, key, t, latest, admitted, evictions)
    ensures admitted <= Yield(limit, Windows(d), Inside(d)) + evictions * limit
  {
    hide Past, Own, Yield, Windows, Inside;
    if key in table {
      AtMostAll(limit, d, t, table[key], Smaller(table[key].start, latest - d));
    } else {
      AtMostAll(limit, d, t, Window(0, 1), latest - d);
    }
  }

  /** A check keeps the bound: once all further times lie past the minute, it admits no more. */
  lemma BoundedStep(limit: int, d: nat, before: Table, c: Check, after: Table, key: Source, t: int, latest: int,
                    admitted: nat, evictions: nat)
    requires limit > 0 && d < MINUTE && latest <= c.now + d && StepOk(limit, before, c, after)
    requires Sane(limit, before, key, latest) && Bounded(limit, d, before, key, t, latest, admitted, evictions)
    ensures Bounded(limit, d, after, key, t, Later(c.now, latest), admitted + (if InMinute(c, key, t) then 1 else 0),
                    evictions + (if key in c.evicted then 1 else 0))
  {
    hide Earned, StepOk, Sane, Yield, Windows, Inside;
    var more := if key in c.evicted then 1 else 0;
    Product(limit, evictions, more);
    EarnedStep(limit, d, before, c, after, key, t, latest, admitted, evictions);
    if InMinute(c, key, t) {
      SaneStep(limit, before, c, after, key, latest);
      EarnedAtMost(limit, d, after, key, t, Later(c.now, latest), admitted + 1, evictions + more);
    }
  }

  lemma {:induction false} TraceBounded(limit: int, d: nat, checks: seq<Check>, tables: seq<Table>, n: nat,
                                        key: Source, t: int)
    requires IsTrace(limit, checks, tables) && OutOfOrderBy(checks, d) && d < MINUTE && n <= |checks|
    ensures |tables| == |checks| + 1
    ensures Bounded(limit, d, tables[n], key, t, Latest(checks, n), Admitted(checks, n, key, t),
                    Evictions(checks, n, key))
  {
    hide Bounded, IsTrace, StepOk, OutOfOrderBy, Sane;
    TraceSane(limit, checks, tables, 0, key);
    if n == 0 {
      BoundedStart(limit, d, checks, tables, key, t);
    } else {
      TraceBounded(limit, d, checks, tables, n - 1, key, t);
      TraceSane(limit, checks, tables, n - 1, key);
      StepAt(limit, checks, tables, n - 1);
      NotFarBehind(limit, checks, tables, d, n - 1);
      BoundedStep(limit, d, tables[n - 1], checks[n - 1], tables[n], key, t, Latest(checks, n - 1),
                  Admitted(checks, n - 1, key, t), Evictions(checks, n - 1, key));
    }
  }

  lemma BoundedStart(limit: int, d: nat, checks: seq<Check>, tables: seq<Table>, key: Source, t: int)
    requires IsTrace(limit, checks, tables) && d < MINUTE
    ensures |tables| == |checks| + 1
    ensures Bounded(limit, d, tables[0], key, t, Latest(checks, 0), Admitted(checks, 0, key, t),
                    Evictions(checks, 0, key))
  {
    hide StepOk, Yield;
    Product(limit, 0, 0);
    PastGrows(limit, d, t, 0 - d, 0 - d);
    YieldGrows(limit, 0, Windows(d), 0, Inside(d));
  }

  /** If times are out of order by d, less than a minute, then windows of a source begin at
      least a minute less d apart. Any half-open minute admits what the windows that can
      have to do with it yield, and one limit more for each time the source's window was
      evicted. In clock order that is twice the limit less one, and up to a quarter of a
      minute out of order three times the limit less one. */
  lemma MinuteBound(limit: int, d: nat, checks: seq<Check>, tables: seq<Table>, key: Source, t: int)
    requires IsTrace(limit, checks, tables) && OutOfOrderBy(checks, d) && d < MINUTE
    ensures Admitted(checks, |checks|, key, t) <=
            Windows(d) * (limit - 1) + Inside(d) + Evictions(checks, |checks|, key) * limit
    ensures d == 0 ==> Windows(d) == 2 && Inside(d) == 1
    ensures 0 < 4 * d <= MINUTE ==> Windows(d) == 3 && Inside(d) == 2
  {
    hide Earned, IsTrace, OutOfOrderBy;
    TraceSane(limit, checks, tables, 0, key);
    TraceBounded(limit, d, checks, tables, |checks|, key, t);
    TimesIs(Windows(d), limit - 1);
    if 0 < 4 * d <= MINUTE {
      TimesNext(0, MINUTE - d);
      TimesNext(1, MINUTE - d);
      WindowsOf(d, 2, 1);
    }
  }

  lemma WindowsOf(d: nat, p: nat, q: nat)
    requires d < MINUTE && Times(p, MINUTE - d) <= 2 * MINUTE - 2 < Times(p, MINUTE - d) + MINUTE - d
    requires Times(q, MINUTE - d) <= MINUTE - 1 < Times(q, MINUTE - d) + MINUTE - d
    ensures Windows(d) == p + 1 && Inside(d) == q + 1
  {
    Quotient(2 * MINUTE - 2, MINUTE - d, p);
    Quotient(MINUTE - 1, MINUTE - d, q);
  }

  // ---- The bound is reached ----

  /** A new window gives the minute from t all it can: its first admission at once, the
      others at once too or when the minute begins. */
  lemma NextWindow(limit: int, d: nat, all: seq<Check>, path: seq<Table>, key: Source, t: int, start: int)
    returns (all': seq<Check>, path': seq<Table>, latest: int)
    requires GoesOn(limit, d, [], [map[]], all, path, key, 0) && limit > 0 && d < MINUTE
    requires 0 < start && t - MINUTE < start < t + MINUTE && Latest(all, |all|) <= start + d
    requires |path| == |all| + 1 && key !in path[|all|]
    ensures GoesOn(limit, d, [], [map[]], all', path', key, 0) && latest <= start + MINUTE
    ensures Stands(all', path', key, t, latest, Window(start, limit),
                   Admitted(all, |all|, key, t) + limit - 1 + if start >= t then 1 else 0)
  {
    hide GoesOn, Stands, Admitted;
    if start >= t {
      latest := Later(start, Latest(all, |all|));
      all', path' := OpenFull(limit, d, [], [map[]], all, path, key, 0, t, start);
    } else {
      all', path', latest := OpenThenFill(limit, d, [], [map[]], all, path, key, 0, t, start);
    }
  }

  /** Where the n-th of a row of windows begins, and how many of the first n begin at t or later. */
  function Nth(first: int, gap: int, n: nat): int {
    if n == 0 then first else Nth(first, gap, n - 1) + gap
  }

  function CountFrom(t: int, first: int, gap: int, n: nat): nat {
    if n == 0 then 0 else CountFrom(t, first, gap, n - 1) + if Nth(first, gap, n - 1) >= t then 1 else 0
  }

  lemma {:induction false} NthIs(first: int, gap: int, n: nat)
    ensures Nth(first, gap, n) == first + Times(n, gap)
  {
    if n > 0 {
      NthIs(first, gap, n - 1);
    }
  }

  lemma {:induction false} NthGrows(first: int, gap: int, m: nat, n: nat)
    requires gap > 0 && m <= n
    ensures Nth(first, gap, m) <= Nth(first, gap, n)
    decreases n
  {
    if m < n {
      NthGrows(first, gap, m, n - 1);
    }
  }

  lemma {:induction false} CountFromIs(t: int, first: int, gap: int, before: nat, n: nat)
    requires gap > 0 && t <= Nth(first, gap, before) && (before > 0 ==> Nth(first, gap, before - 1) < t)
    ensures CountFrom(t, first, gap, n) == if n <= before then 0 else n - before
  {
    if n > 0 {
      hide Nth;
      CountFromIs(t, first, gap, before, n - 1);
      if n <= before {
        NthGrows(first, gap, n - 1, before - 1);
      } else {
        NthGrows(first, gap, before, n - 1);
      }
    }
  }

  /** A row of windows, each as soon after the one before as lateness allows: another
      source's check prunes that, and a check as late as may be opens the next. */
  lemma {:induction false} Row(limit: int, d: nat, key: Source, other: Source, t: int, first: int, n: nat)
    returns (all: seq<Check>, path: seq<Table>, latest: int)
    requires limit > 0 && d < MINUTE && key != other && n > 0
    requires 0 < first && t - MINUTE < first && Nth(first, MINUTE - d, n - 1) < t + MINUTE
    ensures GoesOn(limit, d, [], [map[]], all, path, key, 0) && latest <= Nth(first, MINUTE - d, n - 1) + MINUTE
    ensures Stands(all, path, key, t, latest, Window(Nth(first, MINUTE - d, n - 1), limit),
                   Yield(limit, n, CountFrom(t, first, MINUTE - d, n)))
    decreases n
  {
    hide GoesOn, Stands, Admitted, Yield;
    var start := Nth(first, MINUTE - d, n - 1);
    if n == 1 {
      EmptyTrace(limit, d, key);
      NothingAdmitted(key, t);
      all, path, latest := NextWindow(limit, d, [], [map[]], key, t, start);
    } else {
      all, path, latest := Row(limit, d, key, other, t, first, n - 1);
      var before := Nth(first, MINUTE - d, n - 2);
      NthGrows(first, MINUTE - d, 0, n - 2);
      all, path := PrunedBy(limit, d, [], [map[]], all, path, key, 0, t, latest, Window(before, limit),
                            Yield(limit, n - 1, CountFrom(t, first, MINUTE - d, n - 1)), other, before + MINUTE);
      all, path, latest := NextWindow(limit, d, all, path, key, t, start);
    }
    RowYields(limit, n, CountFrom(t, first, MINUTE - d, n - 1), if start >= t then 1 else 0);
  }

  lemma RowYields(limit: int, n: nat, i: nat, more: nat)
    requires n > 0
    ensures Yield(limit, n - 1, i) + limit - 1 + more == Yield(limit, n, i + more)
    ensures Yield(limit, 0, 0) == 0
  {
  }

  /** Where to begin a row of all the windows that can admit in the minute from t, so that
      as many as possible begin within it. */
  lemma RowFits(d: nat, t: int) returns (first: int, before: nat)
    requires d < MINUTE
    ensures Windows(d) > 0 && before == Windows(d) - Inside(d)
    ensures t - MINUTE < first && Nth(first, MINUTE - d, Windows(d) - 1) < t + MINUTE
    ensures t <= Nth(first, MINUTE - d, before) && (before > 0 ==> Nth(first, MINUTE - d, before - 1) < t)
  {
    hide Nth, Times;
    var gap := MINUTE - d;
    var f := (MINUTE - 1) / gap;
    FloorIs(MINUTE - 1, gap);
    var whole := Times(f, gap);
    TimesSum(f, f, gap);
    TimesNext(f, gap);
    TimesNext(2 * f, gap);
    if 2 * (MINUTE - 1 - whole) < gap {
      WindowsOf(d, 2 * f, f);
      first, before := t - whole, f;
    } else {
      WindowsOf(d, 2 * f + 1, f);
      first, before := t - MINUTE + 1, f + 1;
    }
    NthIs(first, gap, Windows(d) - 1);
    NthIs(first, gap, before);
    if before > 0 {
      NthIs(first, gap, before - 1);
      TimesNext(before - 1, gap);
    }
  }

  lemma TimesNext(n: nat, k: int)
    ensures Times(n + 1, k) == Times(n, k) + k
  {
  }

  /** The bound is reached, for every limit and however far out of order times are. */
  lemma BoundIsReached(limit: int, d: nat, key: Source, other: Source)
    returns (all: seq<Check>, path: seq<Table>, t: int)
    requires limit > 0 && d < MINUTE && key != other
    ensures GoesOn(limit, d, [], [map[]], all, path, key, 0)
    ensures Admitted(all, |all|, key, t) == Windows(d) * (limit - 1) + Inside(d)
  {
    hide Nth, GoesOn, Windows, Inside, Admitted;
    t := 2 * MINUTE;
    var first, before := RowFits(d, t);
    var latest;
    all, path, latest := Row(limit, d, key, other, t, first, Windows(d));
    CountFromIs(t, first, MINUTE - d, before, Windows(d));
    TimesIs(Windows(d), limit - 1);
  }

  /** A whole minute out of order, and there is no bound: the same instant admits
      window after window. */
  lemma {:induction false} NoBoundWhenAMinuteLate(limit: int, key: Source, other: Source, windows: nat)
    returns (all: seq<Check>, path: seq<Table>)
    requires limit > 0 && key != other
    ensures GoesOn(limit, MINUTE, [], [map[]], all, path, key, 0) && Latest(all, |all|) <= 1 + MINUTE
    ensures |path| == |all| + 1 && key !in path[|all|]
    ensures Admitted(all, |all|, key, 1) == windows * limit
    decreases windows
  {
    hide GoesOn, Admitted;
    EmptyTrace(limit, MINUTE, key);
    if windows == 0 {
      all, path := [], [map[]];
      NothingAdmitted(key, 1);
    } else {
      all, path := NoBoundWhenAMinuteLate(limit, key, other, windows - 1);
      var before := Latest(all, |all|);
      all, path := OpenFull(limit, MINUTE, [], [map[]], all, path, key, 0, 1, 1);
      all, path := PrunedBy(limit, MINUTE, [], [map[]], all, path, key, 0, 1, Later(1, before), Window(1, limit),
                            (windows - 1) * limit + limit, other, 1 + MINUTE);
      Product(limit, windows - 1, 1);
    }
  }

  lemma NothingAdmitted(key: Source, t: int)
    ensures Admitted([], 0, key, t) == 0
  {
  }

  /** No run, out of order by d and without an eviction of the source, admits more than
      this in any minute. */
  ghost predicate Bounds(limit: int, d: nat, key: Source, bound: int) {
    forall all: seq<Check>, path: seq<Table>, t: int :: GoesOn(limit, d, [], [map[]], all, path, key, 0) ==>
      Admitted(all, |all|, key, t) <= bound
  }

  /** So a number bounds every minute exactly when times are less than a minute out of
      order and it is no less than what the windows then yield. */
  lemma BoundsIff(limit: int, d: nat, key: Source, bound: int)
    requires limit > 0
    ensures Bounds(limit, d, key, bound) <==> d < MINUTE && Windows(d) * (limit - 1) + Inside(d) <= bound
  {
    hide GoesOn, Windows, Inside, Admitted, OutOfOrderBy;
    if d < MINUTE {
      forall all: seq<Check>, path: seq<Table>, t: int | GoesOn(limit, d, [], [map[]], all, path, key, 0)
        ensures Admitted(all, |all|, key, t) <= Windows(d) * (limit - 1) + Inside(d)
      {
        BoundedWithout(limit, d, all, path, key, t);
      }
      var all, path, t := BoundIsReached(limit, d, key, key + "'");
    } else {
      var windows := if bound < 0 then 1 else bound + 1;
      var all, path := NoBoundWhenAMinuteLate(limit, key, key + "'", windows);
      MoreOutOfOrder(limit, d, all, path, key);
      Product(limit, 0, windows);
      AtLeastOnce(windows, limit);
    }
  }

  lemma AtLeastOnce(m: nat, n: nat)
    requires n > 0
    ensures m * n >= m
  {
  }

  lemma BoundedWithout(limit: int, d: nat, all: seq<Check>, path: seq<Table>, key: Source, t: int)
    requires GoesOn(limit, d, [], [map[]], all, path, key, 0) && d < MINUTE
    ensures Admitted(all, |all|, key, t) <= Windows(d) * (limit - 1) + Inside(d)
  {
    hide IsTrace, OutOfOrderBy, Admitted, Windows, Inside;
    NoneEvicted(all, |all|, key);
    MinuteBound(limit, d, all, path, key, t);
  }

  lemma {:induction false} NoneEvicted(checks: seq<Check>, n: nat, key: Source)
    requires n <= |checks| && forall i :: 0 <= i < |checks| ==> key !in checks[i].evicted
    ensures Evictions(checks, n, key) == 0
  {
    if n > 0 {
      NoneEvicted(checks, n - 1, key);
    }
  }

  lemma MoreOutOfOrder(limit: int, d: nat, all: seq<Check>, path: seq<Table>, key: Source)
    requires GoesOn(limit, MINUTE, [], [map[]], all, path, key, 0) && d >= MINUTE
    ensures GoesOn(limit, d, [], [map[]], all, path, key, 0)
  {
    hide IsTrace;
  }

  // ---- When a minute can exceed the limit ----

  /** At t the source has a running window, begun before, with room left. */
  predicate HasRoom(limit: int, table: Table, key: Source, t: int) {
    key in table && 0 < table[key].start < t && t - table[key].start < MINUTE && table[key].count < limit
  }

  /** Two windows of the source can still begin within the minute from t. */
  predicate TwoToCome(d: nat, table: Table, key: Source, t: int) {
    d > 0 && (key in table ==> table[key].start + MINUTE - 2 * d < t)
  }

  /** Without either, the minute gets by with one window: the one from before admits no
      more, and the next begins too late for another. */
  ghost predicate OneWindow(limit: int, d: nat, table: Table, key: Source, t: int, latest: int, admitted: int) {
    && admitted <= limit
    && (latest - d < t + MINUTE ==>
          if key !in table then admitted == 0 && (d == 0 || latest >= t + 2 * d)
          else if table[key].start >= t + d then admitted <= table[key].count
          else
            && admitted == 0 && (t - table[key].start >= MINUTE || (table[key].start < t && table[key].count >= limit))
            && (d == 0 || table[key].start + MINUTE >= t + 2 * d))
  }

  lemma OneWindowStep(limit: int, d: nat, before: Table, c: Check, after: Table, key: Source, t: int, latest: int,
                      admitted: nat)
    requires limit > 0 && t <= c.now && latest <= c.now + d && StepOk(limit, before, c, after) && key !in c.evicted
    requires Sane(limit, before, key, latest) && OneWindow(limit, d, before, key, t, latest, admitted)
    ensures OneWindow(limit, d, after, key, t, Later(c.now, latest), admitted + if InMinute(c, key, t) then 1 else 0)
  {
    hide MayEvict;
    var live := Live(before, c.now);
    assert key in live - c.evicted <==> key in live;
  }

  lemma {:induction false} BeforeTheMinute(checks: seq<Check>, n: nat, key: Source, t: int)
    requires n <= |checks| && t > 0 && forall i :: 0 <= i < n ==> checks[i].now < t
    ensures Admitted(checks, n, key, t) == 0 && Latest(checks, n) < t
  {
    if n > 0 {
      BeforeTheMinute(checks, n - 1, key, t);
    }
  }

  lemma NextCheck(limit: int, d: nat, checks: seq<Check>, tables: seq<Table>, all: seq<Check>, path: seq<Table>,
                  key: Source, from: int, n: nat)
    requires GoesOn(limit, d, checks, tables, all, path, key, from) && |checks| <= n < |all|
    ensures |path| == |all| + 1 && limit > 0
    ensures StepOk(limit, path[n], all[n], path[n + 1]) && key !in all[n].evicted
    ensures Latest(all, n) <= all[n].now + d && from <= all[n].now
  {
    hide StepOk, IsTrace;
    StepAt(limit, all, path, n);
    NotFarBehind(limit, all, path, d, n);
  }

  lemma OneWindowYet(limit: int, d: nat, checks: seq<Check>, tables: seq<Table>, all: seq<Check>, path: seq<Table>,
                     key: Source, t: int)
    requires GoesOn(limit, d, checks, tables, all, path, key, t) && t > 0
    requires forall i :: 0 <= i < |checks| ==> checks[i].now < t
    requires !HasRoom(limit, tables[|checks|], key, t) && !TwoToCome(d, tables[|checks|], key, t)
    ensures |path| == |all| + 1
    ensures OneWindow(limit, d, path[|checks|], key, t, Latest(all, |checks|), Admitted(all, |checks|, key, t))
  {
    hide StepOk, IsTrace;
    TraceOf(limit, d, checks, tables, all, path, key, t);
    TraceSane(limit, all, path, |checks|, key);
    BeforeTheMinute(all, |checks|, key, t);
    assert path[|checks|] == tables[|checks|];
  }

  lemma {:induction false} StaysOneWindow(limit: int, d: nat, checks: seq<Check>, tables: seq<Table>, all: seq<Check>,
                                          path: seq<Table>, key: Source, t: int, n: nat)
    requires GoesOn(limit, d, checks, tables, all, path, key, t) && t > 0 && |checks| <= n <= |all|
    requires forall i :: 0 <= i < |checks| ==> checks[i].now < t
    requires !HasRoom(limit, tables[|checks|], key, t) && !TwoToCome(d, tables[|checks|], key, t)
    ensures |path| == |all| + 1
    ensures OneWindow(limit, d, path[n], key, t, Latest(all, n), Admitted(all, n, key, t))
    decreases n
  {
    hide OneWindow, HasRoom, TwoToCome, StepOk, IsTrace, OutOfOrderBy, Sane;
    if n == |checks| {
      OneWindowYet(limit, d, checks, tables, all, path, key, t);
    } else {
      StaysOneWindow(limit, d, checks, tables, all, path, key, t, n - 1);
      NextCheck(limit, d, checks, tables, all, path, key, t, n - 1);
      TraceSane(limit, all, path, n - 1, key);
      OneWindowStep(limit, d, path[n - 1], all[n - 1], path[n], key, t, Latest(all, n - 1),
                    Admitted(all, n - 1, key, t));
    }
  }

  ghost predicate Exceeds(limit: int, d: nat, checks: seq<Check>, tables: seq<Table>, all: seq<Check>,
                          path: seq<Table>, key: Source, t: int)
  {
    GoesOn(limit, d, checks, tables, all, path, key, t) && Admitted(all, |all|, key, t) > limit
  }

  /** The last place of the running window, and the whole next one. */
  lemma WithRoom(limit: int, d: nat, checks: seq<Check>, tables: seq<Table>, key: Source, t: int)
    returns (all: seq<Check>, path: seq<Table>)
    requires IsTrace(limit, checks, tables) && OutOfOrderBy(checks, d) && t > 0
    requires forall i :: 0 <= i < |checks| ==> checks[i].now < t
    requires HasRoom(limit, tables[|checks|], key, t)
    ensures Exceeds(limit, d, checks, tables, all, path, key, t)
  {
    hide GoesOn, Admitted, IsTrace, OutOfOrderBy;
    StartOn(limit, d, checks, tables, key, t);
    var w := tables[|checks|][key];
    BeforeTheMinute(checks, |checks|, key, t);
    all, path := Add(limit, d, checks, tables, checks, tables, key, t, t, Latest(checks, |checks|), w, 0, t);
    all, path := OpenFull(limit, d, checks, tables, all, path, key, t, t, w.start + MINUTE);
  }

  /** Once the last window is pruned, if it still runs, a late check opens one that is
      filled, and once that is pruned, another late one opens one more. */
  lemma WithTwoToCome(limit: int, d: nat, checks: seq<Check>, tables: seq<Table>, key: Source, other: Source, t: int)
    returns (all: seq<Check>, path: seq<Table>)
    requires IsTrace(limit, checks, tables) && OutOfOrderBy(checks, d) && t > 0 && key != other
    requires forall i :: 0 <= i < |checks| ==> checks[i].now < t
    requires TwoToCome(d, tables[|checks|], key, t)
    ensures Exceeds(limit, d, checks, tables, all, path, key, t)
  {
    hide GoesOn, Admitted, IsTrace, OutOfOrderBy;
    StartOn(limit, d, checks, tables, key, t);
    TraceSane(limit, checks, tables, |checks|, key);
    BeforeTheMinute(checks, |checks|, key, t);
    all, path := checks, tables;
    var first := t;
    if key in tables[|checks|] && t - tables[|checks|][key].start < MINUTE {
      var w := tables[|checks|][key];
      all, path := PrunedBy(limit, d, checks, tables, all, path, key, t, t, Latest(checks, |checks|), w, 0, other,
                            w.start + MINUTE);
      first := Later(t, w.start + MINUTE - d);
    }
    var latest := Later(first, Latest(all, |all|));
    all, path := OpenFull(limit, d, checks, tables, all, path, key, t, t, first);
    all, path := PrunedBy(limit, d, checks, tables, all, path, key, t, t, latest, Window(first, limit), limit, other,
                          first + MINUTE);
    all, path := Open(limit, d, checks, tables, all, path, key, t, t, Later(t, first + MINUTE - d));
  }

  /** Whatever happened before t, and as long as the source's window is not evicted, the
      minute from t can admit more than the limit exactly when the source then has a
      running window, begun before t, with room left, or times may be so far out of order
      that two windows can still begin within the minute. */
  lemma MinuteCanExceedIff(limit: int, d: nat, checks: seq<Check>, tables: seq<Table>, key: Source, t: int)
    requires IsTrace(limit, checks, tables) && OutOfOrderBy(checks, d)
    requires t > 0 && forall i :: 0 <= i < |checks| ==> checks[i].now < t
    ensures (exists all: seq<Check>, path: seq<Table> :: Exceeds(limit, d, checks, tables, all, path, key, t)) <==>
            HasRoom(limit, tables[|checks|], key, t) || TwoToCome(d, tables[|checks|], key, t)
  {
    hide GoesOn, OutOfOrderBy, HasRoom, TwoToCome, StepOk;
    if HasRoom(limit, tables[|checks|], key, t) {
      var all, path := WithRoom(limit, d, checks, tables, key, t);
    } else if TwoToCome(d, tables[|checks|], key, t) {
      var all, path := WithTwoToCome(limit, d, checks, tables, key, key + "'", t);
    } else {
      forall all: seq<Check>, path: seq<Table> ensures !Exceeds(limit, d, checks, tables, all, path, key, t) {
        if GoesOn(limit, d, checks, tables, all, path, key, t) {
          GoesOnLonger(limit, d, checks, tables, all, path, key, t);
          StaysOneWindow(limit, d, checks, tables, all, path, key, t, |all|);
        }
      }
    }
  }

  lemma GoesOnLonger(limit: int, d: nat, checks: seq<Check>, tables: seq<Table>, all: seq<Check>, path: seq<Table>,
                     key: Source, t: int)
    requires GoesOn(limit, d, checks, tables, all, path, key, t)
    ensures |checks| <= |all|
  {
  }

  // ---- When pruning changes a decision ----

  /** The decisions of a table that is never pruned and never full. */
  ghost predicate IsUnpruned(limit: int, checks: seq<Check>, refs: seq<Table>) {
    && |refs| == |checks| + 1 && refs[0] == map[]
    && forall i :: 0 <= i < |checks| ==> refs[i + 1] == Admit(limit, refs[i], checks[i].key, checks[i].now).1
  }

  /** The pruned table holds windows of the other, and no others. */
  ghost predicate Reflects(table: Table, ref: Table) {
    && (forall k :: k in table ==> k in ref && ref[k] == table[k])
    && (forall k :: k in ref ==> ref[k].start > 0)
  }

  /** By its own time the check falls in a window that has been pruned already. */
  predicate Late(table: Table, ref: Table, c: Check) {
    c.key !in table && c.key in ref && c.now - ref[c.key].start < MINUTE
  }

  lemma DecisionStep(limit: int, before: Table, c: Check, after: Table, ref: Table)
    requires limit > 0 && StepOk(limit, before, c, after) && c.evicted == {} && Reflects(before, ref)
    ensures c.ok != Admit(limit, ref, c.key, c.now).0 <==>
            Late(before, ref, c) && ref[c.key].count >= limit
    ensures !Late(before, ref, c) ==> Reflects(after, Admit(limit, ref, c.key, c.now).1)
  {
    hide MayEvict;
    var live := Live(before, c.now);
    assert live - c.evicted == live;
  }

  lemma {:induction false} ReflectsUntilLate(limit: int, checks: seq<Check>, tables: seq<Table>, refs: seq<Table>,
                                             n: nat)
    requires IsTrace(limit, checks, tables) && IsUnpruned(limit, checks, refs) && n <= |checks|
    requires forall i :: 0 <= i < |checks| ==> checks[i].evicted == {}
    requires |tables| == |checks| + 1 && forall i :: 0 <= i < n ==> !Late(tables[i], refs[i], checks[i])
    ensures Reflects(tables[n], refs[n])
  {
    hide Admit, StepOk, Late;
    if n > 0 {
      ReflectsUntilLate(limit, checks, tables, refs, n - 1);
      StepAt(limit, checks, tables, n - 1);
      DecisionStep(limit, tables[n - 1], checks[n - 1], tables[n], refs[n - 1]);
    }
  }

  /** Nothing is evicted and no check so far was late: then pruning changes the next
      decision exactly when that check is late for a window that was full. */
  lemma PruningChangesDecisionIff(limit: int, checks: seq<Check>, tables: seq<Table>, refs: seq<Table>, n: nat)
    requires IsTrace(limit, checks, tables) && IsUnpruned(limit, checks, refs) && n < |checks|
    requires forall i :: 0 <= i < |checks| ==> checks[i].evicted == {}
    requires |tables| == |checks| + 1 && forall i :: 0 <= i < n ==> !Late(tables[i], refs[i], checks[i])
    ensures checks[n].ok != Admit(limit, refs[n], checks[n].key, checks[n].now).0 <==>
            Late(tables[n], refs[n], checks[n]) && refs[n][checks[n].key].count >= limit
  {
    hide Admit, StepOk;
    ReflectsUntilLate(limit, checks, tables, refs, n);
    StepAt(limit, checks, tables, n);
    DecisionStep(limit, tables[n], checks[n], tables[n + 1], refs[n]);
  }

  /** What the pruned table lacks had run out by the latest time seen. */
  ghost predicate LacksOnlyOld(table: Table, ref: Table, latest: int) {
    Reflects(table, ref) && forall k :: k in ref && k !in table ==> latest - ref[k].start >= MINUTE
  }

  lemma OldStep(limit: int, before: Table, c: Check, after: Table, ref: Table, latest: int)
    requires limit > 0 && latest <= c.now && StepOk(limit, before, c, after) && c.evicted == {}
    requires LacksOnlyOld(before, ref, latest)
    ensures !Late(before, ref, c) && LacksOnlyOld(after, Admit(limit, ref, c.key, c.now).1, c.now)
  {
    hide MayEvict;
    var live := Live(before, c.now);
    assert live - c.evicted == live;
  }

  /** In clock order the pruned table and one that is never pruned differ only in
      windows that have run out. */
  lemma {:induction false} TablesAgree(limit: int, checks: seq<Check>, tables: seq<Table>, refs: seq<Table>, n: nat)
    requires IsTrace(limit, checks, tables) && LocksInClockOrder(checks) && IsUnpruned(limit, checks, refs)
    requires n <= |checks| && forall i :: 0 <= i < |checks| ==> checks[i].evicted == {}
    ensures |tables| == |checks| + 1 && LacksOnlyOld(tables[n], refs[n], Latest(checks, n))
  {
    hide Admit, StepOk, OutOfOrderBy;
    if n > 0 {
      TablesAgree(limit, checks, tables, refs, n - 1);
      StepAt(limit, checks, tables, n - 1);
      NotFarBehind(limit, checks, tables, 0, n - 1);
      OldStep(limit, tables[n - 1], checks[n - 1], tables[n], refs[n - 1], Latest(checks, n - 1));
    }
  }

  /** In clock order, and while nothing is evicted, pruning never changes a decision. */
  lemma PruningInvisible(limit: int, checks: seq<Check>, tables: seq<Table>, refs: seq<Table>, n: nat)
    requires IsTrace(limit, checks, tables) && LocksInClockOrder(checks) && IsUnpruned(limit, checks, refs)
    requires n < |checks| && forall i :: 0 <= i < |checks| ==> checks[i].evicted == {}
    ensures checks[n].ok == Admit(limit, refs[n], checks[n].key, checks[n].now).0
  {
    hide Admit, StepOk, OutOfOrderBy, Late;
    StepAt(limit, checks, tables, n);
    forall i | 0 <= i <= n ensures !Late(tables[i], refs[i], checks[i]) {
      NeverLate(limit, checks, tables, refs, i);
    }
    PruningChangesDecisionIff(limit, checks, tables, refs, n);
  }

  lemma NeverLate(limit: int, checks: seq<Check>, tables: seq<Table>, refs: seq<Table>, i: nat)
    requires IsTrace(limit, checks, tables) && LocksInClockOrder(checks) && IsUnpruned(limit, checks, refs)
    requires i < |checks| && forall j :: 0 <= j < |checks| ==> checks[j].evicted == {}
    ensures |tables| == |checks| + 1 && !Late(tables[i], refs[i], checks[i])
  {
    hide Admit, StepOk, OutOfOrderBy, Late;
    TablesAgree(limit, checks, tables, refs, i);
    StepAt(limit, checks, tables, i);
    NotFarBehind(limit, checks, tables, 0, i);
    OldStep(limit, tables[i], checks[i], tables[i + 1], refs[i], Latest(checks, i));
  }

  // ---- A run that is out of order ----

  function First(key: Source): Table { map[key := Window(1, 1)] }
  function Second(other: Source): Table { map[other := Window(MINUTE + 1, 1)] }

  function LateChecks(key: Source, other: Source): seq<Check> {
    [Check(key, 1, {}, true), Check(other, MINUTE + 1, {}, true), Check(key, MINUTE, {}, true)]
  }

  function LateTables(key: Source, other: Source): seq<Table> {
    [map[], First(key), Second(other), Second(other)[key := Window(MINUTE, 1)]]
  }

  lemma LateDecisions(key: Source, other: Source)
    requires key != other
    ensures Live(First(key), MINUTE + 1) == map[] && Admit(1, map[], other, MINUTE + 1) == (true, Second(other))
    ensures Live(Second(other), MINUTE) == Second(other)
    ensures Admit(1, Second(other), key, MINUTE) == (true, Second(other)[key := Window(MINUTE, 1)])
  {
  }

  lemma NoRoomNeeded(table: Table)
    requires |table| < MAX_RATE_WINDOWS
    ensures MayEvict(table, MAX_RATE_WINDOWS, {}) && table - {} == table
  {
  }

  lemma Decides(limit: int, s: State, key: Source, at: int, next: Table)
    requires s.tables != [] && (key, at) in s.waiting
    requires var live := Live(s.tables[|s.tables| - 1], at);
             |live| < MAX_RATE_WINDOWS && Admit(limit, live, key, at) == (true, next)
    ensures Enabled(s, Decide(key, at, {}))
    ensures Do(limit, s, Decide(key, at, {})) ==
            State(s.clock, s.waiting - multiset{(key, at)}, s.checks + [Check(key, at, {}, true)], s.tables + [next])
  {
    hide Live, Admit, MayEvict;
    NoRoomNeeded(Live(s.tables[|s.tables| - 1], at));
  }

  /** The clock goes on to a time and a check reads it. */
  lemma TickRead(limit: int, steps: seq<Step>, states: seq<State>, now: int, key: Source)
    returns (steps': seq<Step>, states': seq<State>)
    requires IsRun(limit, steps, states) && Prompt(1, steps, states)
    requires var s := states[|steps|]; s.tables != [] && now >= s.clock && now > 0
    ensures IsRun(limit, steps', states') && Prompt(1, steps', states')
    ensures var s := states[|steps|];
            states'[|steps'|] == State(now, s.waiting + multiset{(key, now)}, s.checks, s.tables)
  {
    var s := states[|steps|];
    var ticked := s.(clock := now);
    hide IsRun, Prompt;
    RunLength(limit, steps, states);
    RunSnoc(limit, 1, steps, states, Tick(now), ticked);
    RunSnoc(limit, 1, steps + [Tick(now)], states + [ticked], Read(key), Do(limit, ticked, Read(key)));
    steps' := steps + [Tick(now)] + [Read(key)];
    states' := states + [ticked] + [Do(limit, ticked, Read(key))];
  }

  /** A waiting check takes the lock, at most one nanosecond late, and is admitted. */
  lemma LockAdmits(limit: int, steps: seq<Step>, states: seq<State>, key: Source, at: int, next: Table)
    returns (steps': seq<Step>, states': seq<State>)
    requires IsRun(limit, steps, states) && Prompt(1, steps, states)
    requires var s := states[|steps|];
             && s.tables != [] && (key, at) in s.waiting && s.clock <= at + 1
             && var live := Live(s.tables[|s.tables| - 1], at);
             |live| < MAX_RATE_WINDOWS && Admit(limit, live, key, at) == (true, next)
    ensures IsRun(limit, steps', states') && Prompt(1, steps', states')
    ensures var s := states[|steps|];
            states'[|steps'|] ==
            State(s.clock, s.waiting - multiset{(key, at)}, s.checks + [Check(key, at, {}, true)], s.tables + [next])
  {
    hide Live, Admit, IsRun, Prompt;
    RunLength(limit, steps, states);
    var s := states[|steps|];
    Decides(limit, s, key, at, next);
    RunSnoc(limit, 1, steps, states, Decide(key, at, {}), Do(limit, s, Decide(key, at, {})));
    steps', states' := steps + [Decide(key, at, {})], states + [Do(limit, s, Decide(key, at, {}))];
  }

  lemma NothingRun(limit: int)
    ensures IsRun(limit, [], [START]) && Prompt(1, [], [START])
  {
  }

  lemma LateRunBegins(key: Source) returns (steps: seq<Step>, states: seq<State>)
    ensures IsRun(1, steps, states) && Prompt(1, steps, states)
    ensures states[|steps|] == State(1, multiset{}, [Check(key, 1, {}, true)], [map[], First(key)])
  {
    hide Live, Admit, Enabled, Do, IsRun, Prompt;
    FirstDecision(key);
    NothingRun(1);
    steps, states := TickRead(1, [], [START], 1, key);
    steps, states := LockAdmits(1, steps, states, key, 1, First(key));
  }

  lemma FirstDecision(key: Source)
    ensures Live(map[], 1) == map[] && Admit(1, map[], key, 1) == (true, First(key))
  {
  }

  lemma LateRun(key: Source, other: Source) returns (steps: seq<Step>, states: seq<State>)
    requires key != other
    ensures IsRun(1, steps, states) && Prompt(1, steps, states)
    ensures states[|steps|] == State(MINUTE + 1, multiset{}, LateChecks(key, other), LateTables(key, other))
  {
    hide Live, Admit, Enabled, Do, IsRun, Prompt;
    LateDecisions(key, other);
    steps, states := LateRunBegins(key);
    steps, states := TickRead(1, steps, states, MINUTE, key);
    steps, states := TickRead(1, steps, states, MINUTE + 1, other);
    steps, states := LockAdmits(1, steps, states, other, MINUTE + 1, Second(other));
    steps, states := LockAdmits(1, steps, states, key, MINUTE, Second(other)[key := Window(MINUTE, 1)]);
  }

  lemma LateCount(key: Source, other: Source)
    requires key != other
    ensures Admitted(LateChecks(key, other), 3, key, 1) == 2
  {
    var all := LateChecks(key, other);
    assert Admitted(all, 1, key, 1) == Admitted(all, 0, key, 1) + 1;
    assert Admitted(all, 2, key, 1) == Admitted(all, 1, key, 1);
  }

  lemma LateRefused(key: Source, other: Source) returns (refs: seq<Table>)
    requires key != other
    ensures IsUnpruned(1, LateChecks(key, other), refs) && !Admit(1, refs[2], key, MINUTE).0
  {
    var both := First(key)[other := Window(MINUTE + 1, 1)];
    refs := [map[], First(key), both, both];
  }

  /** With a limit of one, a check that reads the clock one nanosecond before another
      source's, but takes the lock after it, is admitted although its minute is used
      up: the other check has pruned the window. The source had no window when the
      minute began, and a table that is never pruned refuses. */
  lemma LateCheckIsAdmitted(key: Source, other: Source)
    returns (steps: seq<Step>, states: seq<State>, refs: seq<Table>)
    requires key != other
    ensures IsRun(1, steps, states) && Prompt(1, steps, states)
    ensures var s := states[|steps|];
            && s.checks == LateChecks(key, other) && s.tables == LateTables(key, other)
            && Admitted(s.checks, 3, key, 1) == 2 && !HasRoom(1, s.tables[0], key, 1)
            && IsUnpruned(1, s.checks, refs) && s.checks[2].ok && !Admit(1, refs[2], key, s.checks[2].now).0
  {
    hide Live, Admit, Enabled, Do;
    steps, states := LateRun(key, other);
    LateCount(key, other);
    refs := LateRefused(key, other);
  }
}
