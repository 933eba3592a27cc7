/** Every interleaving of calls to one provider chain (internal/core/llm/fallback.go): one
    step per lock region of a breaker, dial or chunk. */
module FallbackProtocol {
  import opened Fallback
  import opened Wrappers

  /** Where one call has got to: before candidate i, or past the last one; dialing it;
      about to blame it; or passing on its chunks, with an error among them or not. */
  datatype Phase =
    | Asking(i: nat)
    | Dialing(i: nat)
    | Blaming(i: nat)
    | Streaming(i: nat, failed: bool)
    | Ended(end: End)

  /** Giving up names the first candidate that was dialed in vain, if any was dialed. */
  datatype End = Served(i: nat) | CallerGone | GaveUp(first: Option<nat>)

  datatype Call = Call(phase: Phase, first: Option<nat>)

  /** For each candidate the times of all failures its breaker was ever told. */
  datatype State = State(clock: nat, logs: map<nat, seq<nat>>, calls: seq<Call>)

  datatype Step =
    | Tick(now: nat)
    | Arrive
    | Leave(c: nat)
    | Ask(c: nat)
    | GiveUp(c: nat)
    | Connect(c: nat)
    | Fail(c: nat, callerGone: bool)
    | Blame(c: nat)
    | Report(c: nat)
    | Finish(c: nat)

  const START := State(0, map[], [])

  function Log(s: State, i: nat): seq<nat> {
    if i in s.logs then s.logs[i] else []
  }

  /** How many failures of the candidate lie within the window before now. */
  function Recent(l: Limits, s: State, i: nat): nat { RecentCount(Log(s, i), s.clock - l.window) }

  predicate At(s: State, c: nat, phase: Phase) {
    c < |s.calls| && s.calls[c].phase == phase
  }

  predicate Enabled(chain: nat, s: State, step: Step) {
    match step
    case Tick(now) => now >= s.clock
    case Arrive => true
    case Leave(c) => c < |s.calls| && s.calls[c].phase.Asking? && s.calls[c].phase.i < chain
    case Ask(c) => c < |s.calls| && s.calls[c].phase.Asking? && s.calls[c].phase.i < chain
    case GiveUp(c) => c < |s.calls| && s.calls[c].phase.Asking? && s.calls[c].phase.i >= chain
    case Connect(c) => c < |s.calls| && s.calls[c].phase.Dialing?
    case Fail(c, _) => c < |s.calls| && s.calls[c].phase.Dialing?
    case Blame(c) => c < |s.calls| && s.calls[c].phase.Blaming?
    case Report(c) => c < |s.calls| && s.calls[c].phase.Streaming?
    case Finish(c) => c < |s.calls| && s.calls[c].phase.Streaming?
  }

  function Moved(s: State, c: nat, phase: Phase): State
    requires c < |s.calls|
  {
    s.(calls := s.calls[c := s.calls[c].(phase := phase)])
  }

  function Stamped(s: State, i: nat): State { s.(logs := s.logs[i := Log(s, i) + [s.clock]]) }

  function Do(l: Limits, chain: nat, s: State, step: Step): State
    requires Enabled(chain, s, step)
  {
    match step
    case Tick(now) => s.(clock := now)
    case Arrive => s.(calls := s.calls + [Call(Asking(0), None)])
    case Leave(c) => Moved(s, c, Ended(CallerGone))
    case Ask(c) =>
      var i := s.calls[c].phase.i;
      Moved(s, c, if Recent(l, s, i) >= l.threshold then Asking(i + 1) else Dialing(i))
    case GiveUp(c) => Moved(s, c, Ended(GaveUp(s.calls[c].first)))
    case Connect(c) => Moved(s, c, Streaming(s.calls[c].phase.i, false))
    case Fail(c, callerGone) =>
      var i, first := s.calls[c].phase.i, s.calls[c].first;
      s.(calls := s.calls[c := Call(if callerGone then Asking(i + 1) else Blaming(i),
                                    if first.None? then Some(i) else first)])
    case Blame(c) => Moved(Stamped(s, s.calls[c].phase.i), c, Asking(s.calls[c].phase.i + 1))
    case Report(c) => Moved(Stamped(s, s.calls[c].phase.i), c, Streaming(s.calls[c].phase.i, true))
    case Finish(c) => Moved(s, c, Ended(Served(s.calls[c].phase.i)))
  }

  ghost predicate IsRun(l: Limits, chain: nat, steps: seq<Step>, states: seq<State>) {
    && |states| == |steps| + 1
    && forall n :: 0 <= n < |steps| ==>
         Enabled(chain, states[n], steps[n]) && states[n + 1] == Do(l, chain, states[n], steps[n])
  }

  // ---- Failures in a window of time ----

  /** The call was let through to the candidate, which has yet to fail it or serve it. */
  predicate InHand(call: Call, i: nat) {
    call.phase == Dialing(i) || call.phase == Blaming(i) || call.phase == Streaming(i, false)
  }

  function HandCount(calls: seq<Call>, i: nat): nat {
    if calls == [] then 0
    else HandCount(calls[..|calls| - 1], i) + if InHand(calls[|calls| - 1], i) then 1 else 0
  }

  /** A stream reports an error of the candidate that is not its first. */
  predicate Repeats(s: State, step: Step, i: nat) {
    step.Report? && At(s, step.c, Streaming(i, true))
  }

  function RepeatCount(steps: seq<Step>, states: seq<State>, i: nat, n: nat): nat
    requires n <= |steps| < |states|
  {
    if n == 0 then 0
    else RepeatCount(steps, states, i, n - 1) + if Repeats(states[n - 1], steps[n - 1], i) then 1 else 0
  }

  lemma {:induction false} HandAfterUpdate(calls: seq<Call>, c: nat, call: Call, i: nat)
    requires c < |calls|
    ensures HandCount(calls[c := call], i) + (if InHand(calls[c], i) then 1 else 0)
         == HandCount(calls, i) + (if InHand(call, i) then 1 else 0)
  {
    var n := |calls| - 1;
    if c == n {
      assert calls[c := call][..n] == calls[..n];
    } else {
      HandAfterUpdate(calls[..n], c, call, i);
      assert calls[c := call][..n] == calls[..n][c := call];
    }
  }

  lemma HandAfterArrival(calls: seq<Call>, call: Call, i: nat)
    ensures HandCount(calls + [call], i) == HandCount(calls, i) + if InHand(call, i) then 1 else 0
  {
    assert (calls + [call])[..|calls|] == calls;
  }

  lemma {:induction false} RecentShrinks(log: seq<nat>, cutoff: int, later: int)
    requires cutoff <= later
    ensures RecentCount(log, later) <= RecentCount(log, cutoff)
  {
    if log != [] {
      RecentShrinks(log[..|log| - 1], cutoff, later);
    }
  }

  lemma RecentSnoc(log: seq<nat>, now: nat, cutoff: int)
    ensures RecentCount(log + [now], cutoff) == RecentCount(log, cutoff) + if now > cutoff then 1 else 0
  {
    assert (log + [now])[..|log|] == log;
  }

  /** Recent failures, and calls that may yet become one, are bounded by the failures
      that leave a breaker closed and the calls let through at once. */
  ghost predicate Loaded(l: Limits, s: State, i: nat, most: nat, repeats: nat) {
    Recent(l, s, i) + HandCount(s.calls, i) <= l.threshold - 1 + most + repeats
  }

  /** How a step changes the failures and the calls in hand of a candidate. */
  lemma StepChanges(l: Limits, chain: nat, s: State, step: Step, i: nat)
    requires Enabled(chain, s, step) && !step.Tick? && !step.Ask?
    ensures var t := Do(l, chain, s, step);
            && t.clock == s.clock
            && (Log(t, i) == Log(s, i) || Log(t, i) == Log(s, i) + [s.clock])
            && HandCount(t.calls, i) + (if Log(t, i) == Log(s, i) then 0 else 1)
               <= HandCount(s.calls, i) + if Repeats(s, step, i) then 1 else 0
  {
    hide HandCount;
    var t := Do(l, chain, s, step);
    if step.Arrive? {
      HandAfterArrival(s.calls, Call(Asking(0), None), i);
    } else {
      HandAfterUpdate(s.calls, step.c, t.calls[step.c], i);
    }
  }

  lemma LoadedStep(l: Limits, chain: nat, s: State, step: Step, i: nat, most: nat, repeats: nat)
    requires Enabled(chain, s, step) && l.threshold > 0 && Loaded(l, s, i, most, repeats)
    requires HandCount(Do(l, chain, s, step).calls, i) <= most
    ensures Loaded(l, Do(l, chain, s, step), i, most, repeats + if Repeats(s, step, i) then 1 else 0)
  {
    hide HandCount, RecentCount;
    var t := Do(l, chain, s, step);
    if step.Tick? {
      RecentShrinks(Log(s, i), s.clock - l.window, t.clock - l.window);
    } else if step.Ask? {
      HandAfterUpdate(s.calls, step.c, t.calls[step.c], i);
    } else {
      StepChanges(l, chain, s, step, i);
      RecentSnoc(Log(s, i), s.clock, s.clock - l.window);
    }
  }

  /** At no time are more calls than this in the candidate's hands. */
  ghost predicate AtMostInHand(states: seq<State>, i: nat, most: nat) {
    forall n :: 0 <= n < |states| ==> HandCount(states[n].calls, i) <= most
  }

  lemma {:induction false} RunLoaded(l: Limits, chain: nat, steps: seq<Step>, states: seq<State>, n: nat, i: nat,
                                     most: nat)
    requires IsRun(l, chain, steps, states) && states[0] == START && n <= |steps| && l.threshold > 0
    requires AtMostInHand(states, i, most)
    ensures Loaded(l, states[n], i, most, RepeatCount(steps, states, i, n))
  {
    hide Enabled, Do, Loaded, HandCount, Repeats;
    if n == 0 {
      StartLoaded(l, i, most);
    } else {
      var repeats := RepeatCount(steps, states, i, n - 1);
      RunLoaded(l, chain, steps, states, n - 1, i, most);
      assert Enabled(chain, states[n - 1], steps[n - 1]) && HandCount(states[n].calls, i) <= most;
      LoadedStep(l, chain, states[n - 1], steps[n - 1], i, most, repeats);
    }
  }

  lemma StartLoaded(l: Limits, i: nat, most: nat)
    requires l.threshold > 0
    ensures Loaded(l, START, i, most, 0)
  {
  }

  /** How many of the failures lie after one time and not after another. */
  function FailuresIn(log: seq<nat>, from: int, to: int): nat {
    if log == [] then 0
    else FailuresIn(log[..|log| - 1], from, to) + if from < log[|log| - 1] <= to then 1 else 0
  }

  lemma FailuresSnoc(log: seq<nat>, now: nat, from: int, to: int)
    ensures FailuresIn(log + [now], from, to) == FailuresIn(log, from, to) + if from < now <= to then 1 else 0
  {
    assert (log + [now])[..|log|] == log;
  }

  lemma {:induction false} FailuresAreRecent(log: seq<nat>, from: int, to: int, cutoff: int)
    requires cutoff <= from
    ensures FailuresIn(log, from, to) <= RecentCount(log, cutoff)
  {
    if log != [] {
      FailuresAreRecent(log[..|log| - 1], from, to, cutoff);
    }
  }

  /** A new failure within the window of time makes all the others in it recent. */
  lemma WindowStep(l: Limits, s: State, t: State, i: nat, from: int, before: nat, most: nat, repeats: nat)
    requires Log(t, i) == Log(s, i) || (t.clock == s.clock && Log(t, i) == Log(s, i) + [s.clock])
    requires FailuresIn(Log(s, i), from, from + l.window) <= before <= l.threshold - 1 + most + repeats
    requires Loaded(l, t, i, most, repeats)
    ensures FailuresIn(Log(t, i), from, from + l.window) <= l.threshold - 1 + most + repeats
  {
    hide RecentCount, FailuresIn, Log, HandCount;
    FailuresSnoc(Log(s, i), s.clock, from, from + l.window);
    if t.clock <= from + l.window {
      FailuresAreRecent(Log(t, i), from, from + l.window, t.clock - l.window);
    }
  }

  lemma LogStep(l: Limits, chain: nat, s: State, step: Step, i: nat)
    requires Enabled(chain, s, step)
    ensures var t := Do(l, chain, s, step);
            Log(t, i) == Log(s, i) || (t.clock == s.clock && Log(t, i) == Log(s, i) + [s.clock])
  {
    hide Recent;
  }

  /** However calls interleave, a breaker is told of no more failures in any window of time
      than leave it closed and, beyond those, one for each call that can be in the
      candidate's hands at once, and those that streams report after their first. */
  lemma {:induction false} FailuresPerWindow(l: Limits, chain: nat, steps: seq<Step>, states: seq<State>, n: nat,
                                             i: nat, most: nat, from: int)
    requires IsRun(l, chain, steps, states) && states[0] == START && n <= |steps| && l.threshold > 0
    requires AtMostInHand(states, i, most)
    ensures FailuresIn(Log(states[n], i), from, from + l.window)
         <= l.threshold - 1 + most + RepeatCount(steps, states, i, n)
  {
    hide Enabled, Do, HandCount, Repeats, AtMostInHand, Log, FailuresIn, Loaded;
    if n == 0 {
      NothingFailed(i, from, from + l.window);
    } else {
      var s, t := states[n - 1], states[n];
      assert Enabled(chain, s, steps[n - 1]);
      FailuresPerWindow(l, chain, steps, states, n - 1, i, most, from);
      LogStep(l, chain, s, steps[n - 1], i);
      RunLoaded(l, chain, steps, states, n, i, most);
      WindowStep(l, s, t, i, from, l.threshold - 1 + most + RepeatCount(steps, states, i, n - 1), most,
                 RepeatCount(steps, states, i, n));
    }
  }

  lemma NothingFailed(i: nat, from: int, to: int)
    ensures FailuresIn(Log(START, i), from, to) == 0
  {
  }

  // ---- Giving up ----

  /** By step n the call has found the candidate's breaker open. */
  ghost predicate Skipped(l: Limits, steps: seq<Step>, states: seq<State>, n: nat, c: nat, i: nat)
    requires n <= |steps| < |states|
  {
    exists m :: 0 <= m < n && FoundOpen(l, states[m], steps[m], c, i)
  }

  /** By step n the call has dialed the candidate in vain. */
  ghost predicate Tried(steps: seq<Step>, states: seq<State>, n: nat, c: nat, i: nat)
    requires n <= |steps| < |states|
  {
    exists m :: 0 <= m < n && DialedInVain(states[m], steps[m], c, i)
  }

  /** The call has passed the candidate; none before its first failure was dialed. */
  ghost predicate Passed(l: Limits, steps: seq<Step>, states: seq<State>, n: nat, c: nat, first: Option<nat>, i: nat)
    requires n <= |steps| < |states|
  {
    if first.None? || i < first.value then Skipped(l, steps, states, n, c, i)
    else if i == first.value then Tried(steps, states, n, c, i)
    else Skipped(l, steps, states, n, c, i) || Tried(steps, states, n, c, i)
  }

  predicate FoundOpen(l: Limits, s: State, step: Step, c: nat, i: nat) {
    step == Ask(c) && At(s, c, Asking(i)) && Recent(l, s, i) >= l.threshold
  }

  predicate DialedInVain(s: State, step: Step, c: nat, i: nat) {
    step.Fail? && step.c == c && At(s, c, Dialing(i))
  }

  /** Every candidate before the one a call has come to has been passed. */
  ghost predicate Walked(l: Limits, chain: nat, steps: seq<Step>, states: seq<State>, n: nat, c: nat)
    requires n <= |steps| < |states| && c < |states[n].calls|
  {
    && (forall i :: 0 <= i < Behind(chain, states[n].calls[c].phase) ==>
          Passed(l, steps, states, n, c, states[n].calls[c].first, i))
    && Here(chain, states[n].calls[c])
  }

  /** How many candidates the call has passed by now. */
  function Behind(chain: nat, phase: Phase): nat {
    match phase
    case Asking(i) => i
    case Dialing(i) => i
    case Blaming(i) => i + 1
    case Streaming(i, _) => i
    case Ended(Served(i)) => i
    case Ended(CallerGone) => 0
    case Ended(GaveUp(_)) => chain
  }

  predicate Here(chain: nat, call: Call) {
    match call.phase
    case Asking(i) => i <= chain && (call.first.Some? ==> call.first.value < i)
    case Dialing(i) => i < chain && (call.first.Some? ==> call.first.value < i)
    case Blaming(i) => i < chain && call.first.Some? && call.first.value <= i
    case Streaming(i, _) => i < chain
    case Ended(Served(i)) => i < chain
    case Ended(CallerGone) => true
    case Ended(GaveUp(first)) => first == call.first && (first.Some? ==> first.value < chain)
  }

  /** The step of another call, or none, leaves this one where it is. */
  lemma OtherStays(l: Limits, chain: nat, s: State, step: Step, c: nat)
    requires Enabled(chain, s, step) && c < |s.calls|
    requires step.Tick? || step.Arrive? || step.c != c
    ensures c < |Do(l, chain, s, step).calls| && Do(l, chain, s, step).calls[c] == s.calls[c]
  {
    hide Recent;
  }

  /** A step of the call itself leaves at most the candidate behind that it passes. */
  lemma OwnStep(l: Limits, chain: nat, s: State, step: Step, c: nat)
    requires Enabled(chain, s, step) && c < |s.calls| && !step.Tick? && !step.Arrive? && step.c == c
    requires Here(chain, s.calls[c])
    ensures c < |Do(l, chain, s, step).calls| && Here(chain, Do(l, chain, s, step).calls[c])
    ensures var i, j := Behind(chain, s.calls[c].phase), Behind(chain, Do(l, chain, s, step).calls[c].phase);
            var first, next := s.calls[c].first, Do(l, chain, s, step).calls[c].first;
            || (j <= i && next == first)
            || (j == i + 1 && FoundOpen(l, s, step, c, i) && next == first && (first.Some? ==> first.value < i))
            || (j == i + 1 && DialedInVain(s, step, c, i) && (first.Some? ==> first.value < i)
                && next == if first.None? then Some(i) else first)
  {
    hide Recent;
  }

  lemma {:induction false} RunWalked(l: Limits, chain: nat, steps: seq<Step>, states: seq<State>, n: nat, c: nat)
    requires IsRun(l, chain, steps, states) && states[0] == START && n <= |steps| && c < |states[n].calls|
    ensures Walked(l, chain, steps, states, n, c)
  {
    hide Enabled, Do, FoundOpen, DialedInVain, Here, Passed;
    if n > 0 {
      var s, step := states[n - 1], steps[n - 1];
      assert Enabled(chain, s, step);
      if c < |s.calls| {
        RunWalked(l, chain, steps, states, n - 1, c);
        if step.Tick? || step.Arrive? || step.c != c {
          OtherStays(l, chain, s, step, c);
        } else {
          OwnStep(l, chain, s, step, c);
        }
        forall i: nat | i < Behind(chain, states[n].calls[c].phase)
          ensures Passed(l, steps, states, n, c, states[n].calls[c].first, i)
        {
          PassedStep(l, steps, states, n, c, i, s.calls[c].first, states[n].calls[c].first,
                     Behind(chain, s.calls[c].phase));
        }
      } else {
        NewCall(l, chain, s, step, c);
      }
    }
  }

  /** What has been passed stays so, and the candidate just passed joins it. */
  lemma {:induction false} PassedStep(l: Limits, steps: seq<Step>, states: seq<State>, n: nat, c: nat, i: nat,
                                      first: Option<nat>, next: Option<nat>, last: nat)
    requires 0 < n <= |steps| < |states| && i <= last
    requires i < last ==> Passed(l, steps, states, n - 1, c, first, i)
    requires next == first || (first.None? && next == Some(last))
    requires i == last && first.Some? ==> first.value < last
    requires i == last ==> (FoundOpen(l, states[n - 1], steps[n - 1], c, last) && next == first)
                           || (DialedInVain(states[n - 1], steps[n - 1], c, last) && next.Some?)
    ensures Passed(l, steps, states, n, c, next, i)
  {
    hide FoundOpen, DialedInVain;
    if i < last {
      assert Skipped(l, steps, states, n - 1, c, i) ==> Skipped(l, steps, states, n, c, i);
      assert Tried(steps, states, n - 1, c, i) ==> Tried(steps, states, n, c, i);
    }
  }

  lemma NewCall(l: Limits, chain: nat, s: State, step: Step, c: nat)
    requires Enabled(chain, s, step) && |s.calls| <= c < |Do(l, chain, s, step).calls|
    ensures Do(l, chain, s, step).calls[c].phase == Asking(0) && Here(chain, Do(l, chain, s, step).calls[c])
  {
    hide Recent;
  }

  /** A call gives up only after it has passed every candidate, by the breakers as the other
      calls had left them when it asked: it reports that none was available exactly when it
      found all of them open, and else names the first that it dialed, in vain. */
  lemma GaveUpAfterAll(l: Limits, chain: nat, steps: seq<Step>, states: seq<State>, n: nat, c: nat, first: Option<nat>)
    requires IsRun(l, chain, steps, states) && states[0] == START && n <= |steps|
    requires At(states[n], c, Ended(GaveUp(first)))
    ensures first.Some? ==> first.value < chain
    ensures forall i :: 0 <= i < chain ==> Passed(l, steps, states, n, c, first, i)
  {
    hide Passed;
    RunWalked(l, chain, steps, states, n, c);
  }

  // ---- The bound on failures is reached ----

  /** A run without reports of streams, in which never more calls are in hand than allowed. */
  ghost predicate Clean(l: Limits, most: nat, steps: seq<Step>, states: seq<State>) {
    && IsRun(l, 1, steps, states) && states[0] == START && AtMostInHand(states, 0, most)
    && forall n :: 0 <= n < |steps| ==> !steps[n].Report?
  }

  lemma CleanSnoc(l: Limits, most: nat, steps: seq<Step>, states: seq<State>, step: Step)
    requires Clean(l, most, steps, states) && Enabled(1, states[|steps|], step) && !step.Report?
    requires HandCount(Do(l, 1, states[|steps|], step).calls, 0) <= most
    ensures Clean(l, most, steps + [step], states + [Do(l, 1, states[|steps|], step)])
  {
    hide Enabled, Do, HandCount;
    var all, path := steps + [step], states + [Do(l, 1, states[|steps|], step)];
    forall n | 0 <= n < |all| ensures Enabled(1, path[n], all[n]) && path[n + 1] == Do(l, 1, path[n], all[n]) {
      if n < |steps| {
        assert Enabled(1, states[n], steps[n]);
      }
    }
  }

  function Ones(k: nat): (log: seq<nat>)
    ensures |log| == k
  {
    if k == 0 then [] else Ones(k - 1) + [1]
  }

  lemma {:induction false} OnesCount(k: nat, window: nat)
    requires window > 0
    ensures RecentCount(Ones(k), 1 - window) == k && FailuresIn(Ones(k), 0, window) == k
  {
    if k > 0 {
      OnesCount(k - 1, window);
      RecentSnoc(Ones(k - 1), 1, 1 - window);
      FailuresSnoc(Ones(k - 1), 1, 0, window);
    }
  }

  /** At time one the candidate has failed k times, and m calls are dialing it. */
  ghost predicate Stands(s: State, k: nat, m: nat) {
    && s.clock == 1 && Log(s, 0) == Ones(k) && HandCount(s.calls, 0) == m
    && forall c :: 0 <= c < |s.calls| ==> s.calls[c].phase == Asking(1) || s.calls[c].phase == Dialing(0)
  }

  lemma OneDials(l: Limits, most: nat, steps: seq<Step>, states: seq<State>, k: nat, m: nat)
    returns (all: seq<Step>, path: seq<State>)
    requires Clean(l, most, steps, states) && Stands(states[|steps|], k, m)
    requires k < l.threshold && m < most && l.window > 0
    ensures Clean(l, most, all, path) && Stands(path[|all|], k, m + 1)
  {
    hide Clean, HandCount, RecentCount;
    CleanLength(l, most, steps, states);
    var s := states[|steps|];
    var c := |s.calls|;
    var s1 := Do(l, 1, s, Arrive);
    HandAfterArrival(s.calls, Call(Asking(0), None), 0);
    CleanSnoc(l, most, steps, states, Arrive);
    OnesCount(k, l.window);
    var s2 := Do(l, 1, s1, Ask(c));
    HandAfterUpdate(s1.calls, c, s2.calls[c], 0);
    CleanSnoc(l, most, steps + [Arrive], states + [s1], Ask(c));
    all, path := steps + [Arrive] + [Ask(c)], states + [s1] + [s2];
  }

  lemma CleanLength(l: Limits, most: nat, steps: seq<Step>, states: seq<State>)
    requires Clean(l, most, steps, states)
    ensures |states| == |steps| + 1
  {
  }

  lemma {:induction false} FindInHand(calls: seq<Call>, i: nat) returns (c: nat)
    requires HandCount(calls, i) > 0
    ensures c < |calls| && InHand(calls[c], i)
  {
    var n := |calls| - 1;
    if InHand(calls[n], i) {
      c := n;
    } else {
      c := FindInHand(calls[..n], i);
    }
  }

  lemma OneFails(l: Limits, most: nat, steps: seq<Step>, states: seq<State>, k: nat, m: nat)
    returns (all: seq<Step>, path: seq<State>)
    requires Clean(l, most, steps, states) && Stands(states[|steps|], k, m) && 0 < m <= most
    ensures Clean(l, most, all, path) && Stands(path[|all|], k + 1, m - 1)
  {
    hide Clean, HandCount, Recent;
    CleanLength(l, most, steps, states);
    var s := states[|steps|];
    var c := FindInHand(s.calls, 0);
    var s1 := Do(l, 1, s, Fail(c, false));
    HandAfterUpdate(s.calls, c, s1.calls[c], 0);
    CleanSnoc(l, most, steps, states, Fail(c, false));
    var s2 := Do(l, 1, s1, Blame(c));
    HandAfterUpdate(s1.calls, c, s2.calls[c], 0);
    CleanSnoc(l, most, steps + [Fail(c, false)], states + [s1], Blame(c));
    all, path := steps + [Fail(c, false)] + [Blame(c)], states + [s1] + [s2];
  }

  /** Failures one after the other, as many as leave the breaker closed. */
  lemma {:induction false} FailInTurn(l: Limits, most: nat, k: nat) returns (all: seq<Step>, path: seq<State>)
    requires k < l.threshold && most > 0 && l.window > 0
    ensures Clean(l, most, all, path) && Stands(path[|all|], k, 0)
  {
    hide Clean, Stands;
    if k == 0 {
      all, path := AtTimeOne(l, most);
    } else {
      all, path := FailInTurn(l, most, k - 1);
      all, path := OneDials(l, most, all, path, k - 1, 0);
      all, path := OneFails(l, most, all, path, k - 1, 1);
    }
  }

  lemma AtTimeOne(l: Limits, most: nat) returns (all: seq<Step>, path: seq<State>)
    ensures Clean(l, most, all, path) && Stands(path[|all|], 0, 0)
  {
    all, path := [Tick(1)], [START, START.(clock := 1)];
  }

  lemma {:induction false} DialTogether(l: Limits, most: nat, k: nat, m: nat)
    returns (all: seq<Step>, path: seq<State>)
    requires k < l.threshold && 0 < most && m <= most && l.window > 0
    ensures Clean(l, most, all, path) && Stands(path[|all|], k, m)
    decreases m
  {
    hide Clean, Stands;
    if m == 0 {
      all, path := FailInTurn(l, most, k);
    } else {
      all, path := DialTogether(l, most, k, m - 1);
      all, path := OneDials(l, most, all, path, k, m - 1);
    }
  }

  lemma {:induction false} FailTogether(l: Limits, most: nat, k: nat, m: nat)
    returns (all: seq<Step>, path: seq<State>)
    requires k < l.threshold && 0 < most && m <= most && l.window > 0
    ensures Clean(l, most, all, path) && Stands(path[|all|], k + m, most - m)
    decreases m
  {
    hide Clean, Stands;
    if m == 0 {
      all, path := DialTogether(l, most, k, most);
    } else {
      all, path := FailTogether(l, most, k, m - 1);
      all, path := OneFails(l, most, all, path, k + m - 1, most - m + 1);
    }
  }

  /** So many calls, let through by a breaker that one more failure would open, can all
      fail: the bound is reached, for any limits and any number of calls at once. */
  lemma FailuresReached(l: Limits, most: nat) returns (steps: seq<Step>, states: seq<State>)
    requires l.threshold > 0 && l.window > 0 && most > 0
    ensures IsRun(l, 1, steps, states) && states[0] == START && AtMostInHand(states, 0, most)
    ensures RepeatCount(steps, states, 0, |steps|) == 0
    ensures FailuresIn(Log(states[|steps|], 0), 0, l.window) == l.threshold - 1 + most
  {
    hide HandCount, Do, Enabled;
    steps, states := FailTogether(l, most, l.threshold - 1, most);
    OnesCount(l.threshold - 1 + most, l.window);
    NoRepeats(steps, states, |steps|);
  }

  lemma {:induction false} NoRepeats(steps: seq<Step>, states: seq<State>, n: nat)
    requires n <= |steps| < |states| && forall m :: 0 <= m < |steps| ==> !steps[m].Report?
    ensures RepeatCount(steps, states, 0, n) == 0
  {
    if n > 0 {
      NoRepeats(steps, states, n - 1);
    }
  }
}
