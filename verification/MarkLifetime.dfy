/** How long a mark lasts in the admission protocol (internal/chatops/service.go), in
    nanoseconds: what two jobs with one key take. */
module MarkLifetime {
  import opened Admission
  import opened AdmissionProtocol
  import opened Tables

  /** Step m reaches the table with a key, at that call's time. */
  predicate Looks(s: State, step: Step) {
    step.Mark? && step.c < |s.calls| && s.calls[step.c].key != ""
  }

  /** The step neither takes the key's mark back, nor evicts it, nor looks at the table
      more than a day after the mark was made. */
  predicate Spares(s: State, step: Step, k: Key, made: int) {
    && (step.Unmark? ==> step.c < |s.calls| && s.calls[step.c].key != k)
    && (Looks(s, step) ==> k !in step.evicted && s.calls[step.c].at - made <= 24 * 3600 * 1_000_000_000)
  }

  lemma SparedStays(depth: nat, s: State, step: Step, k: Key, made: int)
    requires Enabled(depth, s, step) && Spares(s, step, k, made) && k in s.seen && s.seen[k] == made
    ensures k in Do(depth, s, step).seen && Do(depth, s, step).seen[k] == made
  {
    hide MayEvict, EnqueueAllows;
  }

  /** A mark stays, with its time, as long as no step takes it back or evicts it and none
      looks at the table more than a day later. */
  lemma {:induction false} MarkLives(depth: nat, steps: seq<Step>, states: seq<State>, i: nat, j: nat, k: Key,
                                      made: int)
    requires IsRun(depth, steps, states) && i <= j < |states| && k in states[i].seen && states[i].seen[k] == made
    requires forall m :: i <= m < j ==> Spares(states[m], steps[m], k, made)
    ensures k in states[j].seen && states[j].seen[k] == made
    decreases j
  {
    hide Enabled, Do, Spares;
    if i < j {
      MarkLives(depth, steps, states, i, j - 1, k, made);
      assert Enabled(depth, states[j - 1], steps[j - 1]);
      SparedStays(depth, states[j - 1], steps[j - 1], k, made);
    }
  }

  /** A call that reaches the table within a day of a mark of its key, which no step has
      taken back or evicted, is refused; more than a day later it is marked in its place. */
  lemma RefusedWithinADay(depth: nat, s: State, c: nat, evicted: set<Key>, made: int)
    requires Enabled(depth, s, Mark(c, evicted))
    requires c < |s.calls| && s.calls[c].key != "" && s.calls[c].key in s.seen && s.seen[s.calls[c].key] == made
    ensures var late, t := s.calls[c].at - made > 24 * 3600 * 1_000_000_000, Do(depth, s, Mark(c, evicted));
            && AtPhase(t, c, if late then Ready(true) else Rejected)
            && s.calls[c].key in t.seen && t.seen[s.calls[c].key] == if late then s.calls[c].at else made
  {
    hide MayEvict;
  }

  // ---- What two jobs with one key take ----

  /** The step from s to t marks the key, at this time. */
  predicate Marks(s: State, step: Step, t: State, k: Key, at: int) {
    step.Mark? && step.c < |s.calls| && s.calls[step.c].key == k && s.calls[step.c].at == at
    && AtPhase(t, step.c, Ready(true))
  }

  predicate MarksAt(steps: seq<Step>, states: seq<State>, m: nat, k: Key, at: int)
    requires |states| == |steps| + 1 && m < |steps|
  {
    Marks(states[m], steps[m], states[m + 1], k, at)
  }

  /** Nothing evicts the key's mark. */
  ghost predicate NeverEvicted(steps: seq<Step>, k: Key) {
    forall m :: 0 <= m < |steps| && steps[m].Mark? ==> k !in steps[m].evicted
  }

  /** No call looks at the table more than a day after an earlier mark of the key. */
  ghost predicate WithinADay(steps: seq<Step>, states: seq<State>, k: Key)
    requires |states| == |steps| + 1
  {
    forall m, n, at :: 0 <= m < n < |steps| && MarksAt(steps, states, m, k, at) && Looks(states[n], steps[n]) ==>
      states[n].calls[steps[n].c].at - at <= 24 * 3600 * 1_000_000_000
  }

  /** What the table holds for the key was marked by some step, and none was lost. */
  ghost predicate Kept(steps: seq<Step>, states: seq<State>, k: Key, n: nat)
    requires |states| == |steps| + 1 && n <= |steps|
  {
    && states[n].lost[k] == 0
    && (k in states[n].seen ==> exists m :: 0 <= m < n && MarksAt(steps, states, m, k, states[n].seen[k]))
  }

  lemma KeptStep(depth: nat, s: State, step: Step, k: Key)
    requires Enabled(depth, s, step) && k != "" && s.lost[k] == 0
    requires step.Mark? ==> k !in step.evicted
    requires Looks(s, step) && k in s.seen ==> s.calls[step.c].at - s.seen[k] <= 24 * 3600 * 1_000_000_000
    ensures var t := Do(depth, s, step);
            && t.lost[k] == 0
            && (k in t.seen ==> (k in s.seen && t.seen[k] == s.seen[k]) || Marks(s, step, t, k, t.seen[k]))
  {
    if step.Mark? {
      hide Enabled, DoMark, Looks;
      MarkIsThere(depth, s, step);
      LooksIff(s, step);
      KeptMark(s, step.c, step.evicted, k);
    } else {
      OthersKeep(depth, s, step, k);
    }
  }

  lemma LooksIff(s: State, step: Step)
    requires step.Mark? && step.c < |s.calls|
    ensures Looks(s, step) <==> s.calls[step.c].key != ""
  {
  }

  lemma MarkIsThere(depth: nat, s: State, step: Step)
    requires Enabled(depth, s, step) && step.Mark?
    ensures step.c < |s.calls|
  {
    hide MayEvict, Unexpired;
  }

  lemma OthersKeep(depth: nat, s: State, step: Step, k: Key)
    requires Enabled(depth, s, step) && !step.Mark?
    ensures var t := Do(depth, s, step);
            t.lost == s.lost && (k in t.seen ==> k in s.seen && t.seen[k] == s.seen[k])
  {
    hide DoMark, EnqueueAllows;
  }

  lemma KeptMark(s: State, c: nat, evicted: set<Key>, k: Key)
    requires c < |s.calls| && k != "" && s.lost[k] == 0 && k !in evicted
    requires s.calls[c].key != "" && k in s.seen ==> s.calls[c].at - s.seen[k] <= 24 * 3600 * 1_000_000_000
    ensures var t := DoMark(s, c, evicted);
            && t.lost[k] == 0
            && (k in t.seen ==> (k in s.seen && t.seen[k] == s.seen[k])
                                || Marks(s, Mark(c, evicted), t, k, t.seen[k]))
  {
    hide DoMark, Unexpired;
    if s.calls[c].key != "" {
      KeptLive(s.seen, s.calls[c].at, k);
      NoneLost(s, c, evicted, k);
    } else {
      Unlooked(s, c, evicted);
    }
    MarkedSeen(s, c, evicted, k);
  }

  lemma Unlooked(s: State, c: nat, evicted: set<Key>)
    requires c < |s.calls| && s.calls[c].key == ""
    ensures DoMark(s, c, evicted).lost == s.lost
  {
  }

  lemma NoneLost(s: State, c: nat, evicted: set<Key>, k: Key)
    requires c < |s.calls| && s.calls[c].key != "" && k !in evicted
    requires k in s.seen ==> k in Unexpired(s.seen, s.calls[c].at)
    ensures DoMark(s, c, evicted).lost[k] == s.lost[k]
  {
    hide Unexpired, Marked;
    var live := Unexpired(s.seen, s.calls[c].at);
    var gone := if s.calls[c].key in live then s.seen.Keys - live.Keys else s.seen.Keys - live.Keys + evicted;
    assert k !in gone && DoMark(s, c, evicted).lost == s.lost + multiset(gone);
  }

  lemma MarkedSeen(s: State, c: nat, evicted: set<Key>, k: Key)
    requires c < |s.calls|
    ensures var t := DoMark(s, c, evicted);
            k in t.seen ==> (k in s.seen && t.seen[k] == s.seen[k]) || Marks(s, Mark(c, evicted), t, k, t.seen[k])
  {
  }

  lemma KeptLive(seen: map<Key, int>, now: int, k: Key)
    requires k in seen ==> now - seen[k] <= 24 * 3600 * 1_000_000_000
    ensures k in seen <==> k in Unexpired(seen, now)
    ensures k in seen ==> Unexpired(seen, now)[k] == seen[k]
  {
  }

  lemma {:induction false} RunKeeps(depth: nat, workers: nat, steps: seq<Step>, states: seq<State>, k: Key, n: nat)
    requires IsRun(depth, steps, states) && states[0] == InitState(workers) && n <= |steps| && k != ""
    requires NeverEvicted(steps, k) && WithinADay(steps, states, k)
    ensures Kept(steps, states, k, n)
  {
    hide Enabled, Do, MarksAt, Marks, Looks;
    if n > 0 {
      var s, t, last := states[n - 1], states[n], n - 1;
      RunKeeps(depth, workers, steps, states, k, last);
      assert Enabled(depth, s, steps[last]) && t == Do(depth, s, steps[last]);
      if Looks(s, steps[last]) {
        LooksAtCall(s, steps[last]);
      }
      KeptStep(depth, s, steps[last], k);
      if k in t.seen && !(k in s.seen && t.seen[k] == s.seen[k]) {
        MarkedLast(steps, states, last, k, t.seen[k]);
      }
    }
  }

  lemma LooksAtCall(s: State, step: Step)
    requires Looks(s, step)
    ensures step.Mark? && step.c < |s.calls|
  {
  }

  lemma MarkedLast(steps: seq<Step>, states: seq<State>, m: nat, k: Key, at: int)
    requires |states| == |steps| + 1 && m < |steps| && Marks(states[m], steps[m], states[m + 1], k, at)
    ensures MarksAt(steps, states, m, k, at)
  {
  }

  lemma {:induction false} TwoAccepted(calls: seq<Call>, c: nat, d: nat, k: Key)
    requires c < d < |calls| && calls[c].key == k && calls[d].key == k
    requires calls[c].phase == Accepted && calls[d].phase == Accepted
    ensures CountAccepted(calls, k) >= 2
  {
    var n := |calls| - 1;
    if d < n {
      TwoAccepted(calls[..n], c, d, k);
    } else {
      OneAccepted(calls[..n], c, k);
    }
  }

  lemma {:induction false} OneAccepted(calls: seq<Call>, c: nat, k: Key)
    requires c < |calls| && calls[c].key == k && calls[c].phase == Accepted
    ensures CountAccepted(calls, k) >= 1
  {
    if c < |calls| - 1 {
      OneAccepted(calls[..|calls| - 1], c, k);
    }
  }

  /** Over any interleaving, two accepted calls with one key take an eviction of its mark or
      a call that looks at the table more than a day after one. */
  lemma {:induction false} OneJobWithinADay(depth: nat, workers: nat, steps: seq<Step>, states: seq<State>, k: Key,
                                            c: nat, d: nat)
    requires IsRun(depth, steps, states) && states[0] == InitState(workers) && k != ""
    requires NeverEvicted(steps, k) && WithinADay(steps, states, k)
    requires AtPhase(states[|steps|], c, Accepted) && states[|steps|].calls[c].key == k
    requires AtPhase(states[|steps|], d, Accepted) && states[|steps|].calls[d].key == k
    ensures c == d
  {
    hide CountAccepted, Enabled, Do;
    RunKeeps(depth, workers, steps, states, k, |steps|);
    AtMostOneJobPerKey(depth, workers, steps, states, |steps|, k);
    if c != d {
      TwoAccepted(states[|steps|].calls, if c < d then c else d, if c < d then d else c, k);
    }
  }
}
