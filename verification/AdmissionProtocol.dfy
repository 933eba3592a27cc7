/** Every interleaving of concurrent Handle calls, queue workers and shutdown
    (internal/chatops/service.go): one step per critical section or channel
    operation, and what all reachable states satisfy. */
module AdmissionProtocol {
  import opened Admission
  import opened Tables

  /** Where one Handle call has got to. */
  datatype Phase =
    | Arrived
    | Authorized
    | Ready(marked: bool)
    | RollingBack
    | Accepted
    | Rejected

  datatype Call = Call(key: Key, at: int, phase: Phase)

  datatype Worker = Idle | Running(call: nat) | Exited

  /** Calls are numbered in order of arrival. The last four fields only record
      what has happened: calls accepted, picked up and finished, in order, and
      every mark lost to expiry or eviction. */
  datatype State = State(
    seen: map<Key, int>,
    closed: bool,
    jobs: seq<nat>,
    calls: seq<Call>,
    workers: seq<Worker>,
    accepted: seq<nat>,
    started: seq<nat>,
    finished: seq<nat>,
    lost: multiset<Key>)

  datatype Step =
    | Arrive(key: Key, at: int)
    | Authorize(c: nat, ok: bool)
    | Mark(c: nat, evicted: set<Key>)
    | Enqueue(c: nat, ctxDone: bool, outcome: EnqueueOutcome)
    | Unmark(c: nat)
    | Close
    | Receive(w: nat)
    | Finish(w: nat)
    | Exit(w: nat)

  function InitState(workers: nat): State {
    State(map[], false, [], [], seq(workers, i => Idle), [], [], [], multiset{})
  }

  predicate AtPhase(s: State, c: nat, phase: Phase) {
    c < |s.calls| && s.calls[c].phase == phase
  }

  predicate Enabled(depth: nat, s: State, step: Step) {
    match step
    case Arrive(_, _) => true
    case Authorize(c, _) => AtPhase(s, c, Arrived)
    case Mark(c, evicted) =>
      AtPhase(s, c, Authorized)
      && (s.calls[c].key == "" || s.calls[c].key in Unexpired(s.seen, s.calls[c].at)
          || MayEvict(Unexpired(s.seen, s.calls[c].at), MAX_IDEMPOTENCY_ENTRIES, evicted))
    case Enqueue(c, ctxDone, outcome) =>
      c < |s.calls| && s.calls[c].phase.Ready? && EnqueueAllows(s.closed, |s.jobs|, depth, ctxDone, outcome)
    case Unmark(c) => AtPhase(s, c, RollingBack)
    case Close => true
    case Receive(w) => w < |s.workers| && s.workers[w].Idle? && s.jobs != []
    case Finish(w) => w < |s.workers| && s.workers[w].Running?
    case Exit(w) => w < |s.workers| && s.workers[w].Idle? && s.jobs == [] && s.closed
  }

  function WithPhase(s: State, c: nat, phase: Phase): State
    requires c < |s.calls|
  {
    s.(calls := s.calls[c := s.calls[c].(phase := phase)])
  }

  /** A call without a key skips the table. */
  function DoMark(s: State, c: nat, evicted: set<Key>): State
    requires c < |s.calls|
  {
    var call := s.calls[c];
    if call.key == "" then WithPhase(s, c, Ready(false))
    else
      var live := Unexpired(s.seen, call.at);
      var gone := if call.key in live then s.seen.Keys - live.Keys else s.seen.Keys - live.Keys + evicted;
      WithPhase(s, c, if call.key in live then Rejected else Ready(true))
        .(seen := Marked(s.seen, call.key, call.at, evicted), lost := s.lost + multiset(gone))
  }

  function DoEnqueue(s: State, c: nat, outcome: EnqueueOutcome): State
    requires c < |s.calls| && s.calls[c].phase.Ready?
  {
    if outcome == Queued then WithPhase(s, c, Accepted).(jobs := s.jobs + [c], accepted := s.accepted + [c])
    else WithPhase(s, c, if s.calls[c].phase.marked then RollingBack else Rejected)
  }

  function Do(depth: nat, s: State, step: Step): State
    requires Enabled(depth, s, step)
  {
    match step
    case Arrive(key, at) => s.(calls := s.calls + [Call(key, at, Arrived)])
    case Authorize(c, ok) => WithPhase(s, c, if ok then Authorized else Rejected)
    case Mark(c, evicted) => DoMark(s, c, evicted)
    case Enqueue(c, _, outcome) => DoEnqueue(s, c, outcome)
    case Unmark(c) => WithPhase(s, c, Rejected).(seen := s.seen - {s.calls[c].key})
    case Close => s.(closed := true)
    case Receive(w) =>
      s.(workers := s.workers[w := Running(s.jobs[0])], jobs := s.jobs[1..], started := s.started + [s.jobs[0]])
    case Finish(w) => s.(workers := s.workers[w := Idle], finished := s.finished + [s.workers[w].call])
    case Exit(w) => s.(workers := s.workers[w := Exited])
  }

  // ---- Claims on a key ----

  /** A call claims its key from its mark until its rollback, or for good once accepted. */
  predicate Claims(c: Call, k: Key) {
    c.key == k && (c.phase == Ready(true) || c.phase == RollingBack || c.phase == Accepted)
  }

  function CountClaims(calls: seq<Call>, k: Key): nat {
    if calls == [] then 0
    else CountClaims(calls[..|calls| - 1], k) + if Claims(calls[|calls| - 1], k) then 1 else 0
  }

  function CountAccepted(calls: seq<Call>, k: Key): nat {
    if calls == [] then 0
    else
      CountAccepted(calls[..|calls| - 1], k)
      + if calls[|calls| - 1].key == k && calls[|calls| - 1].phase == Accepted then 1 else 0
  }

  function Held(s: State, k: Key): nat { if k in s.seen then 1 else 0 }

  lemma {:induction false} ClaimsAfterUpdate(calls: seq<Call>, c: nat, call: Call, k: Key)
    requires c < |calls|
    ensures CountClaims(calls[c := call], k) + (if Claims(calls[c], k) then 1 else 0)
         == CountClaims(calls, k) + (if Claims(call, k) then 1 else 0)
  {
    var n := |calls| - 1;
    if c == n {
      assert calls[c := call][..n] == calls[..n];
    } else {
      ClaimsAfterUpdate(calls[..n], c, call, k);
      assert calls[c := call][..n] == calls[..n][c := call];
    }
  }

  lemma {:induction false} AcceptedAtMostClaims(calls: seq<Call>, k: Key)
    ensures CountAccepted(calls, k) <= CountClaims(calls, k)
  {
    if calls != [] {
      AcceptedAtMostClaims(calls[..|calls| - 1], k);
    }
  }

  // ---- The invariant ----

  /** Only calls with a key are marked, and those before they are enqueued. */
  predicate MarkedIffKeyed(c: Call) {
    && (c.phase.Ready? ==> c.phase.marked == (c.key != ""))
    && (c.phase == RollingBack ==> c.key != "")
  }

  /** Claims beyond the one the table holds are all paid for by lost marks. */
  ghost predicate ClaimsPaid(s: State) {
    && |s.seen| <= MAX_IDEMPOTENCY_ENTRIES
    && (forall k :: k != "" ==> Held(s, k) <= CountClaims(s.calls, k) <= Held(s, k) + s.lost[k])
    && (forall c :: 0 <= c < |s.calls| ==> MarkedIffKeyed(s.calls[c]))
  }

  ghost predicate Distinct(xs: seq<nat>) {
    forall i, j :: 0 <= i < j < |xs| ==> xs[i] != xs[j]
  }

  /** Jobs leave the channel in the order they were accepted, each call once. */
  ghost predicate Fifo(depth: nat, s: State) {
    && |s.jobs| <= depth
    && s.accepted == s.started + s.jobs
    && Distinct(s.accepted)
    && (forall c :: c in s.accepted <==> 0 <= c < |s.calls| && s.calls[c].phase == Accepted)
  }

  function InHand(w: Worker, c: nat): nat {
    if w == Running(c) then 1 else 0
  }

  /** How many workers are running call c. */
  function RunningCount(workers: seq<Worker>, c: nat): nat {
    if workers == [] then 0
    else RunningCount(workers[..|workers| - 1], c) + InHand(workers[|workers| - 1], c)
  }

  /** Nothing picked up is forgotten, and no worker leaves work behind. */
  ghost predicate NoneForgotten(s: State) {
    && (forall c: nat :: multiset(s.started)[c] == multiset(s.finished)[c] + RunningCount(s.workers, c))
    && ((exists w :: 0 <= w < |s.workers| && s.workers[w].Exited?) ==> s.closed && s.jobs == [])
  }

  ghost predicate Inv(depth: nat, s: State) {
    ClaimsPaid(s) && Fifo(depth, s) && NoneForgotten(s)
  }

  lemma {:induction false} RunningAfterUpdate(workers: seq<Worker>, w: nat, next: Worker, c: nat)
    requires w < |workers|
    ensures RunningCount(workers[w := next], c) + InHand(workers[w], c) == RunningCount(workers, c) + InHand(next, c)
  {
    var n := |workers| - 1;
    if w == n {
      assert workers[w := next][..n] == workers[..n];
    } else {
      RunningAfterUpdate(workers[..n], w, next, c);
      assert workers[w := next][..n] == workers[..n][w := next];
    }
  }

  lemma {:induction false} NoneRunning(workers: seq<Worker>, c: nat)
    requires forall w :: 0 <= w < |workers| ==> !workers[w].Running?
    ensures RunningCount(workers, c) == 0
  {
    if workers != [] {
      NoneRunning(workers[..|workers| - 1], c);
    }
  }

  lemma InitHolds(depth: nat, workers: nat)
    ensures Inv(depth, InitState(workers))
  {
    forall c: nat {
      NoneRunning(InitState(workers).workers, c);
    }
  }

  lemma ArrivalClaimsNothing(calls: seq<Call>, call: Call, k: Key)
    requires call.phase == Arrived
    ensures CountClaims(calls + [call], k) == CountClaims(calls, k)
  {
    assert (calls + [call])[..|calls|] == calls;
  }

  lemma MarkKeepsSize(seen: map<Key, int>, key: Key, at: int, evicted: set<Key>)
    requires |seen| <= MAX_IDEMPOTENCY_ENTRIES
    requires key !in Unexpired(seen, at) ==> MayEvict(Unexpired(seen, at), MAX_IDEMPOTENCY_ENTRIES, evicted)
    ensures |Marked(seen, key, at, evicted)| <= MAX_IDEMPOTENCY_ENTRIES
  {
    var live := Unexpired(seen, at);
    SubsetSize(live.Keys, seen.Keys);
    if key !in live {
      SizeAfterEvict(live, MAX_IDEMPOTENCY_ENTRIES, evicted);
      SizeAfterAdd(live - evicted, key, at);
    }
  }

  lemma MarkPaysClaims(s: State, c: nat, evicted: set<Key>, k: Key)
    requires AtPhase(s, c, Authorized) && s.calls[c].key != "" && k != ""
    requires var live := Unexpired(s.seen, s.calls[c].at); s.calls[c].key in live || evicted <= live.Keys
    requires Held(s, k) <= CountClaims(s.calls, k) <= Held(s, k) + s.lost[k]
    ensures var t := DoMark(s, c, evicted);
            Held(t, k) <= CountClaims(t.calls, k) <= Held(t, k) + t.lost[k]
  {
    var t := DoMark(s, c, evicted);
    ClaimsAfterUpdate(s.calls, c, t.calls[c], k);
  }

  /** A step that moves one call on, with its claims and the table as they were. */
  lemma SameClaims(s: State, t: State, c: nat)
    requires ClaimsPaid(s) && c < |s.calls| && |t.calls| == |s.calls| && t.calls == s.calls[c := t.calls[c]]
    requires t.calls[c].key == s.calls[c].key && t.seen == s.seen && t.lost == s.lost
    requires s.calls[c].key != "" ==> Claims(t.calls[c], s.calls[c].key) == Claims(s.calls[c], s.calls[c].key)
    requires MarkedIffKeyed(t.calls[c])
    ensures ClaimsPaid(t)
  {
    forall k | k != "" ensures CountClaims(t.calls, k) == CountClaims(s.calls, k) {
      ClaimsAfterUpdate(s.calls, c, t.calls[c], k);
    }
  }

  lemma UnmarkPaysClaims(s: State, t: State, c: nat, k: Key)
    requires AtPhase(s, c, RollingBack) && t.calls == s.calls[c := s.calls[c].(phase := Rejected)] && k != ""
    requires t.seen == s.seen - {s.calls[c].key} && t.lost == s.lost
    requires Held(s, k) <= CountClaims(s.calls, k) <= Held(s, k) + s.lost[k]
    ensures Held(t, k) <= CountClaims(t.calls, k) <= Held(t, k) + t.lost[k]
  {
    ClaimsAfterUpdate(s.calls, c, t.calls[c], k);
  }

  lemma UnmarkPaid(s: State, t: State, c: nat)
    requires ClaimsPaid(s) && AtPhase(s, c, RollingBack) && t.calls == s.calls[c := s.calls[c].(phase := Rejected)]
    requires t.seen == s.seen - {s.calls[c].key} && t.lost == s.lost
    ensures ClaimsPaid(t)
  {
    SubsetSize(t.seen.Keys, s.seen.Keys);
    forall k | k != "" ensures Held(t, k) <= CountClaims(t.calls, k) <= Held(t, k) + t.lost[k] {
      UnmarkPaysClaims(s, t, c, k);
    }
  }

  lemma ArrivePaid(s: State, t: State, call: Call)
    requires ClaimsPaid(s) && call.phase == Arrived && t.calls == s.calls + [call]
    requires t.seen == s.seen && t.lost == s.lost
    ensures ClaimsPaid(t)
  {
    forall k ensures CountClaims(t.calls, k) == CountClaims(s.calls, k) {
      ArrivalClaimsNothing(s.calls, call, k);
    }
  }

  lemma MarkPaid(s: State, c: nat, evicted: set<Key>)
    requires ClaimsPaid(s) && AtPhase(s, c, Authorized) && s.calls[c].key != ""
    requires var live := Unexpired(s.seen, s.calls[c].at);
             s.calls[c].key in live || MayEvict(live, MAX_IDEMPOTENCY_ENTRIES, evicted)
    ensures ClaimsPaid(DoMark(s, c, evicted))
  {
    var t := DoMark(s, c, evicted);
    MarkKeepsSize(s.seen, s.calls[c].key, s.calls[c].at, evicted);
    forall k | k != "" ensures Held(t, k) <= CountClaims(t.calls, k) <= Held(t, k) + t.lost[k] {
      MarkPaysClaims(s, c, evicted, k);
    }
  }

  lemma ClaimsStep(depth: nat, s: State, step: Step)
    requires ClaimsPaid(s) && Enabled(depth, s, step)
    ensures ClaimsPaid(Do(depth, s, step))
  {
    var t := Do(depth, s, step);
    match step
    case Arrive(key, at) => ArrivePaid(s, t, Call(key, at, Arrived));
    case Authorize(c, _) => SameClaims(s, t, c);
    case Mark(c, evicted) =>
      if s.calls[c].key == "" {
        SameClaims(s, t, c);
      } else {
        MarkPaid(s, c, evicted);
      }
    case Enqueue(c, _, _) => SameClaims(s, t, c);
    case Unmark(c) => UnmarkPaid(s, t, c);
    case _ =>
      assert t.calls == s.calls && t.seen == s.seen && t.lost == s.lost;
  }

  lemma FifoEnqueued(depth: nat, s: State, c: nat)
    requires Fifo(depth, s) && c < |s.calls| && s.calls[c].phase.Ready? && |s.jobs| < depth
    ensures Fifo(depth, DoEnqueue(s, c, Queued))
  {
    var t := DoEnqueue(s, c, Queued);
    assert c !in s.accepted;
    forall d ensures d in t.accepted <==> 0 <= d < |t.calls| && t.calls[d].phase == Accepted {
      assert d in t.accepted <==> d in s.accepted || d == c;
    }
    assert Distinct(t.accepted);
  }

  /** A call that moves on without being accepted leaves the queue alone. */
  lemma FifoMoved(depth: nat, s: State, t: State, c: nat)
    requires Fifo(depth, s) && c < |s.calls| && |t.calls| == |s.calls| && t.calls == s.calls[c := t.calls[c]]
    requires s.calls[c].phase != Accepted && t.calls[c].phase != Accepted
    requires t.jobs == s.jobs && t.accepted == s.accepted && t.started == s.started
    ensures Fifo(depth, t)
  {
    forall d ensures 0 <= d < |t.calls| && t.calls[d].phase == Accepted <==>
                     0 <= d < |s.calls| && s.calls[d].phase == Accepted
    {
    }
  }

  lemma FifoStep(depth: nat, s: State, step: Step)
    requires Fifo(depth, s) && Enabled(depth, s, step)
    ensures Fifo(depth, Do(depth, s, step))
  {
    var t := Do(depth, s, step);
    match step
    case Arrive(_, _) => FifoArrived(depth, s, t);
    case Authorize(c, _) => FifoMoved(depth, s, t, c);
    case Mark(c, _) => FifoMoved(depth, s, t, c);
    case Unmark(c) => FifoMoved(depth, s, t, c);
    case Enqueue(c, _, outcome) =>
      if outcome == Queued {
        FifoEnqueued(depth, s, c);
      } else {
        FifoMoved(depth, s, t, c);
      }
    case Receive(_) => FifoReceived(depth, s, t);
    case _ => assert t.calls == s.calls && t.jobs == s.jobs && t.accepted == s.accepted && t.started == s.started;
  }

  lemma FifoArrived(depth: nat, s: State, t: State)
    requires Fifo(depth, s) && |t.calls| == |s.calls| + 1 && t.calls == s.calls + [t.calls[|s.calls|]]
    requires t.calls[|s.calls|].phase == Arrived
    requires t.jobs == s.jobs && t.accepted == s.accepted && t.started == s.started
    ensures Fifo(depth, t)
  {
    forall d ensures 0 <= d < |t.calls| && t.calls[d].phase == Accepted <==>
                     0 <= d < |s.calls| && s.calls[d].phase == Accepted
    {
    }
  }

  lemma FifoReceived(depth: nat, s: State, t: State)
    requires Fifo(depth, s) && s.jobs != [] && t.calls == s.calls && t.accepted == s.accepted
    requires t.jobs == s.jobs[1..] && t.started == s.started + [s.jobs[0]]
    ensures Fifo(depth, t)
  {
    assert s.jobs == [s.jobs[0]] + s.jobs[1..];
  }

  lemma WorkerMoved(s: State, t: State, w: nat)
    requires NoneForgotten(s) && w < |s.workers| && |t.workers| == |s.workers|
    requires t.workers == s.workers[w := t.workers[w]]
    requires forall c: nat :: multiset(t.started)[c] + InHand(s.workers[w], c) + multiset(s.finished)[c] ==
                              multiset(s.started)[c] + InHand(t.workers[w], c) + multiset(t.finished)[c]
    requires t.workers[w].Exited? ==> t.closed && t.jobs == []
    requires s.closed && s.jobs == [] ==> t.closed && t.jobs == []
    ensures NoneForgotten(t)
  {
    forall c: nat ensures multiset(t.started)[c] == multiset(t.finished)[c] + RunningCount(t.workers, c) {
      RunningAfterUpdate(s.workers, w, t.workers[w], c);
    }
    forall v | 0 <= v < |t.workers| && t.workers[v].Exited? ensures t.closed && t.jobs == [] {
      assert v != w ==> s.workers[v].Exited?;
    }
  }

  lemma WorkersUnmoved(s: State, t: State)
    requires NoneForgotten(s) && t.workers == s.workers && t.started == s.started && t.finished == s.finished
    requires s.closed && s.jobs == [] ==> t.closed && t.jobs == []
    ensures NoneForgotten(t)
  {
  }

  lemma CallStep(depth: nat, s: State, step: Step)
    requires Enabled(depth, s, step) && !step.Receive? && !step.Finish? && !step.Exit?
    ensures var t := Do(depth, s, step);
            && t.workers == s.workers && t.started == s.started && t.finished == s.finished
            && (s.closed && s.jobs == [] ==> t.closed && t.jobs == [])
  {
    hide Unexpired, Marked, MayEvict;
  }

  lemma WorkersStep(depth: nat, s: State, step: Step)
    requires NoneForgotten(s) && Enabled(depth, s, step)
    ensures NoneForgotten(Do(depth, s, step))
  {
    hide NoneForgotten, DoMark, DoEnqueue, WithPhase, RunningCount;
    var t := Do(depth, s, step);
    if step.Receive? {
      assert multiset(t.started) == multiset(s.started) + multiset{s.jobs[0]};
      WorkerMoved(s, t, step.w);
    } else if step.Finish? {
      assert multiset(t.finished) == multiset(s.finished) + multiset{s.workers[step.w].call};
      WorkerMoved(s, t, step.w);
    } else if step.Exit? {
      WorkerMoved(s, t, step.w);
    } else {
      CallStep(depth, s, step);
      WorkersUnmoved(s, t);
    }
  }

  // ---- Whole runs ----

  /** The states a run passes through: any steps, in any order, each enabled when taken. */
  ghost predicate IsRun(depth: nat, steps: seq<Step>, states: seq<State>) {
    && |states| == |steps| + 1
    && forall i :: 0 <= i < |steps| ==>
         Enabled(depth, states[i], steps[i]) && states[i + 1] == Do(depth, states[i], steps[i])
  }

  lemma StepKeepsInv(depth: nat, s: State, step: Step)
    requires Inv(depth, s) && Enabled(depth, s, step)
    ensures Inv(depth, Do(depth, s, step))
  {
    ClaimsStep(depth, s, step);
    FifoStep(depth, s, step);
    WorkersStep(depth, s, step);
  }

  lemma StepKeepsWorkers(depth: nat, s: State, step: Step)
    requires Enabled(depth, s, step)
    ensures |Do(depth, s, step).workers| == |s.workers|
  {
  }

  lemma {:induction false} RunKeepsInv(depth: nat, workers: nat, steps: seq<Step>, states: seq<State>, i: nat)
    requires IsRun(depth, steps, states) && states[0] == InitState(workers) && i < |states|
    ensures Inv(depth, states[i]) && |states[i].workers| == workers
  {
    if i == 0 {
      InitHolds(depth, workers);
    } else {
      RunKeepsInv(depth, workers, steps, states, i - 1);
      assert Enabled(depth, states[i - 1], steps[i - 1]);
      StepKeepsInv(depth, states[i - 1], steps[i - 1]);
      StepKeepsWorkers(depth, states[i - 1], steps[i - 1]);
    }
  }

  /** In every reachable state a key has at most one accepted job more than it
      has lost marks; with no mark of it lost, at most one. */
  lemma AtMostOneJobPerKey(depth: nat, workers: nat, steps: seq<Step>, states: seq<State>, i: nat, k: Key)
    requires IsRun(depth, steps, states) && states[0] == InitState(workers) && i < |states| && k != ""
    ensures CountAccepted(states[i].calls, k) <= 1 + states[i].lost[k]
    ensures |states[i].seen| <= MAX_IDEMPOTENCY_ENTRIES
  {
    RunKeepsInv(depth, workers, steps, states, i);
    AcceptedAtMostClaims(states[i].calls, k);
  }

  /** Without a lost mark, a rollback removes only its own mark: no other call
      then has a claim on the key. */
  lemma RollbackRemovesOwnMark(depth: nat, workers: nat, steps: seq<Step>, states: seq<State>, i: nat, c: nat)
    requires IsRun(depth, steps, states) && states[0] == InitState(workers) && i < |steps|
    requires steps[i] == Unmark(c) && states[i].lost[states[i].calls[c].key] == 0
    ensures states[i + 1].seen == states[i].seen - {states[i].calls[c].key}
    ensures CountClaims(states[i + 1].calls, states[i].calls[c].key) == 0
  {
    RunKeepsInv(depth, workers, steps, states, i);
    RunKeepsInv(depth, workers, steps, states, i + 1);
    assert Enabled(depth, states[i], steps[i]);
  }

  lemma StepAddsNoMark(depth: nat, s: State, step: Step, k: Key)
    requires Enabled(depth, s, step) && k !in s.seen && !(step.Mark? && s.calls[step.c].key == k)
    ensures k !in Do(depth, s, step).seen
  {
    hide MayEvict, EnqueueAllows;
  }

  lemma {:induction false} StaysUnmarked(depth: nat, steps: seq<Step>, states: seq<State>, i: nat, j: nat, k: Key)
    requires IsRun(depth, steps, states) && i <= j < |states| && k !in states[i].seen
    requires forall m :: i <= m < j && steps[m].Mark? ==>
               steps[m].c < |states[m].calls| && states[m].calls[steps[m].c].key != k
    ensures k !in states[j].seen
    decreases j
  {
    hide Enabled, Do;
    if i < j {
      StaysUnmarked(depth, steps, states, i, j - 1, k);
      assert Enabled(depth, states[j - 1], steps[j - 1]);
      StepAddsNoMark(depth, states[j - 1], steps[j - 1], k);
    }
  }

  /** So the next call that carries the key to its mark, whatever happens before, is
      marked and not refused as a duplicate. */
  lemma RetryAfterRollback(depth: nat, steps: seq<Step>, states: seq<State>, i: nat, c: nat, j: nat, d: nat,
                           evicted: set<Key>)
    requires IsRun(depth, steps, states) && i < j < |steps| && steps[i] == Unmark(c) && steps[j] == Mark(d, evicted)
    requires c < |states[i].calls| && d < |states[j].calls|
    requires states[j].calls[d].key == states[i].calls[c].key != ""
    requires forall m :: i < m < j && steps[m].Mark? ==>
               steps[m].c < |states[m].calls| && states[m].calls[steps[m].c].key != states[i].calls[c].key
    ensures AtPhase(states[j + 1], d, Ready(true))
  {
    assert Enabled(depth, states[i], steps[i]);
    StaysUnmarked(depth, steps, states, i + 1, j, states[i].calls[c].key);
    assert Enabled(depth, states[j], steps[j]);
  }

  /** Jobs start in the order they were accepted, and none starts twice. */
  lemma StartedInOrderOnce(depth: nat, workers: nat, steps: seq<Step>, states: seq<State>, i: nat)
    requires IsRun(depth, steps, states) && states[0] == InitState(workers) && i < |states|
    ensures states[i].started <= states[i].accepted && Distinct(states[i].started)
    ensures multiset(states[i].finished) <= multiset(states[i].started)
  {
    RunKeepsInv(depth, workers, steps, states, i);
  }

  lemma {:induction false} NothingAcceptedAfterClose(depth: nat, steps: seq<Step>, states: seq<State>, i: nat, j: nat)
    requires IsRun(depth, steps, states) && i <= j < |states| && states[i].closed
    ensures states[j].closed && states[j].accepted == states[i].accepted
    decreases j
  {
    if i < j {
      NothingAcceptedAfterClose(depth, steps, states, i, j - 1);
      assert Enabled(depth, states[j - 1], steps[j - 1]);
    }
  }

  /** Once every worker has exited, exactly the accepted jobs have run. */
  lemma DrainedWhenAllExited(depth: nat, workers: nat, steps: seq<Step>, states: seq<State>, i: nat)
    requires IsRun(depth, steps, states) && states[0] == InitState(workers) && i < |states| && workers > 0
    requires forall w :: 0 <= w < |states[i].workers| ==> states[i].workers[w].Exited?
    ensures multiset(states[i].finished) == multiset(states[i].accepted)
  {
    RunKeepsInv(depth, workers, steps, states, i);
    var s := states[i];
    assert s.workers[0].Exited?;
    forall c: nat ensures multiset(s.finished)[c] == multiset(s.started)[c] {
      NoneRunning(s.workers, c);
    }
  }

  // ---- Draining ends ----

  function WorkerSteps(workers: seq<Worker>): nat {
    if workers == [] then 0
    else
      WorkerSteps(workers[..|workers| - 1])
      + match workers[|workers| - 1] case Idle => 1 case Running(_) => 2 case Exited => 0
  }

  lemma {:induction false} WorkerStepsAfterUpdate(workers: seq<Worker>, w: nat, next: Worker)
    requires w < |workers|
    ensures WorkerSteps(workers[w := next]) + (match workers[w] case Idle => 1 case Running(_) => 2 case Exited => 0)
         == WorkerSteps(workers) + (match next case Idle => 1 case Running(_) => 2 case Exited => 0)
  {
    var n := |workers| - 1;
    if w == n {
      assert workers[w := next][..n] == workers[..n];
    } else {
      WorkerStepsAfterUpdate(workers[..n], w, next);
      assert workers[w := next][..n] == workers[..n][w := next];
    }
  }

  function DrainMeasure(s: State): nat { 2 * |s.jobs| + WorkerSteps(s.workers) }

  /** After close every worker step brings the drain nearer and no other step
      sets it back, and until all workers have exited one of them can move. */
  lemma DrainEnds(depth: nat, s: State, step: Step)
    requires s.closed && Enabled(depth, s, step)
    ensures step.Receive? || step.Finish? || step.Exit? ==> DrainMeasure(Do(depth, s, step)) < DrainMeasure(s)
    ensures !(step.Receive? || step.Finish? || step.Exit?) ==> DrainMeasure(Do(depth, s, step)) == DrainMeasure(s)
    ensures forall w :: 0 <= w < |s.workers| && !s.workers[w].Exited? ==>
              Enabled(depth, s, Receive(w)) || Enabled(depth, s, Finish(w)) || Enabled(depth, s, Exit(w))
  {
    if step.Receive? || step.Finish? || step.Exit? {
      WorkerStepsAfterUpdate(s.workers, step.w, Do(depth, s, step).workers[step.w]);
    }
  }

  // ---- Lost marks do cost duplicates ----

  lemma FreshMark(s: State, c: nat)
    requires AtPhase(s, c, Authorized) && s.calls[c].key != "" && s.calls[c].key !in Unexpired(s.seen, s.calls[c].at)
    ensures var live := Unexpired(s.seen, s.calls[c].at);
            DoMark(s, c, {}) == WithPhase(s, c, Ready(true))
              .(seen := live[s.calls[c].key := s.calls[c].at], lost := s.lost + multiset(s.seen.Keys - live.Keys))
  {
    var live := Unexpired(s.seen, s.calls[c].at);
    assert s.seen.Keys - live.Keys + {} == s.seen.Keys - live.Keys;
    assert live - {} == live;
  }

  /** A key with no live mark is accepted while there is room. */
  lemma FreshKeyAccepted(depth: nat, s: State, k: Key, at: int) returns (steps: seq<Step>, states: seq<State>)
    requires k != "" && !s.closed && |s.jobs| < depth
    requires k !in Unexpired(s.seen, at) && |Unexpired(s.seen, at)| < MAX_IDEMPOTENCY_ENTRIES
    ensures IsRun(depth, steps, states) && |states| == 5 && states[0] == s
    ensures states[4].calls == s.calls + [Call(k, at, Accepted)] && states[4].seen == Unexpired(s.seen, at)[k := at]
    ensures states[4].jobs == s.jobs + [|s.calls|] && states[4].closed == s.closed
    ensures states[4].lost == s.lost + multiset(s.seen.Keys - Unexpired(s.seen, at).Keys)
  {
    var c := |s.calls|;
    var s1 := Do(depth, s, Arrive(k, at));
    var s2 := Do(depth, s1, Authorize(c, true));
    assert s2.calls == s.calls + [Call(k, at, Authorized)];
    FreshMark(s2, c);
    assert MayEvict(Unexpired(s2.seen, at), MAX_IDEMPOTENCY_ENTRIES, {});
    var s3 := Do(depth, s2, Mark(c, {}));
    assert s3.calls == s.calls + [Call(k, at, Ready(true))];
    var s4 := Do(depth, s3, Enqueue(c, false, Queued));
    assert s4.calls == s.calls + [Call(k, at, Accepted)];
    steps := [Arrive(k, at), Authorize(c, true), Mark(c, {}), Enqueue(c, false, Queued)];
    states := [s, s1, s2, s3, s4];
  }

  lemma MarkMoves(depth: nat, s: State, d: nat, evicted: set<Key>) returns (next: Call)
    requires Enabled(depth, s, Mark(d, evicted))
    ensures AtPhase(s, d, Authorized)
    ensures DoMark(s, d, evicted).calls == s.calls[d := next]
  {
    hide Unexpired, Marked, MayEvict;
    next := DoMark(s, d, evicted).calls[d];
  }

  lemma EnqueueMoves(depth: nat, s: State, d: nat, ctxDone: bool, outcome: EnqueueOutcome) returns (next: Call)
    requires Enabled(depth, s, Enqueue(d, ctxDone, outcome))
    ensures d < |s.calls| && s.calls[d].phase.Ready?
    ensures DoEnqueue(s, d, outcome).calls == s.calls[d := next]
  {
    hide EnqueueAllows;
    next := DoEnqueue(s, d, outcome).calls[d];
  }

  /** The call has been accepted or refused for good. */
  predicate Ended(s: State, c: nat, call: Call) {
    c < |s.calls| && s.calls[c] == call && (call.phase == Accepted || call.phase == Rejected)
  }

  lemma OtherMoves(depth: nat, s: State, step: Step, c: nat, call: Call)
    requires Ended(s, c, call) && Enabled(depth, s, step) && !step.Mark? && !step.Enqueue?
    ensures Ended(Do(depth, s, step), c, call)
  {
    hide DoMark, DoEnqueue;
  }

  lemma EndedStep(depth: nat, s: State, step: Step, c: nat, call: Call)
    requires Ended(s, c, call) && Enabled(depth, s, step)
    ensures Ended(Do(depth, s, step), c, call)
  {
    hide Enabled, DoMark, DoEnqueue;
    match step
    case Mark(d, evicted) => var next := MarkMoves(depth, s, d, evicted);
    case Enqueue(d, ctxDone, outcome) => var next := EnqueueMoves(depth, s, d, ctxDone, outcome);
    case _ => OtherMoves(depth, s, step, c, call);
  }

  lemma {:induction false} EndedStays(depth: nat, steps: seq<Step>, states: seq<State>, c: nat, call: Call, i: nat,
                                      j: nat)
    requires IsRun(depth, steps, states) && i <= j < |states| && Ended(states[i], c, call)
    ensures Ended(states[j], c, call)
    decreases j
  {
    hide Enabled, Do, Ended;
    if i < j {
      EndedStays(depth, steps, states, c, call, i, j - 1);
      assert Enabled(depth, states[j - 1], steps[j - 1]);
      EndedStep(depth, states[j - 1], steps[j - 1], c, call);
    }
  }

  /** A run from s that starts by marking call c and ends with it accepted. */
  ghost predicate AcceptedAfterMark(depth: nat, s: State, c: nat, steps: seq<Step>, states: seq<State>) {
    && IsRun(depth, steps, states) && states[0] == s && steps != []
    && steps[0].Mark? && steps[0].c == c && AtPhase(states[|steps|], c, Accepted)
  }

  lemma MarkThenEnqueue(depth: nat, s: State, c: nat) returns (steps: seq<Step>, states: seq<State>)
    requires AtPhase(s, c, Authorized) && s.calls[c].key != "" && !s.closed && |s.jobs| < depth
    requires s.calls[c].key !in Unexpired(s.seen, s.calls[c].at)
    ensures AcceptedAfterMark(depth, s, c, steps, states)
  {
    var live := Unexpired(s.seen, s.calls[c].at);
    var evicted := SubsetOfSize(live.Keys, Overflow(|live|, MAX_IDEMPOTENCY_ENTRIES));
    var s1 := Do(depth, s, Mark(c, evicted));
    var s2 := Do(depth, s1, Enqueue(c, false, Queued));
    steps, states := [Mark(c, evicted), Enqueue(c, false, Queued)], [s, s1, s2];
  }

  /** A keyed call that reaches its mark while the queue is open and has room can be
      accepted exactly when its key has no live mark; else it is refused for good. */
  lemma AcceptedIffNoLiveMark(depth: nat, s: State, c: nat)
    requires AtPhase(s, c, Authorized) && s.calls[c].key != "" && !s.closed && |s.jobs| < depth
    ensures (exists steps: seq<Step>, states: seq<State> :: AcceptedAfterMark(depth, s, c, steps, states)) <==>
            s.calls[c].key !in Unexpired(s.seen, s.calls[c].at)
  {
    if s.calls[c].key !in Unexpired(s.seen, s.calls[c].at) {
      var steps, states := MarkThenEnqueue(depth, s, c);
    } else {
      forall steps: seq<Step>, states: seq<State> ensures !AcceptedAfterMark(depth, s, c, steps, states) {
        if IsRun(depth, steps, states) && states[0] == s && steps != [] && steps[0].Mark? && steps[0].c == c {
          assert Enabled(depth, states[0], steps[0]);
          assert AtPhase(states[1], c, Rejected);
          EndedStays(depth, steps, states, c, states[1].calls[c], 1, |steps|);
        }
      }
    }
  }

  lemma JoinRuns(depth: nat, steps: seq<Step>, states: seq<State>, steps': seq<Step>, states': seq<State>)
    requires IsRun(depth, steps, states) && IsRun(depth, steps', states') && states[|steps|] == states'[0]
    ensures IsRun(depth, steps + steps', states + states'[1..])
  {
    var n := |steps|;
    var all, path := steps + steps', states + states'[1..];
    forall i | 0 <= i < |all| ensures Enabled(depth, path[i], all[i]) && path[i + 1] == Do(depth, path[i], all[i]) {
      if i >= n {
        assert path[i] == states'[i - n] && path[i + 1] == states'[i - n + 1] && all[i] == steps'[i - n];
      }
    }
  }

  lemma CountOfTwo(calls: seq<Call>, x: Call, y: Call, k: Key)
    requires calls == [x, y] && x.key == k && y.key == k && x.phase == Accepted && y.phase == Accepted
    ensures CountAccepted(calls, k) == 2
  {
    assert calls[..1] == [x] && calls[..1][..0] == [];
    assert CountAccepted([x], k) == CountAccepted([x][..0], k) + 1;
  }

  /** The bound is tight: a second delivery past the expiry is accepted again. */
  lemma ExpiredMarkAdmitsDuplicate(k: Key, depth: nat) returns (steps: seq<Step>, states: seq<State>)
    requires k != "" && depth >= 2
    ensures IsRun(depth, steps, states) && states[0] == InitState(1)
    ensures CountAccepted(states[|steps|].calls, k) == 2 && states[|steps|].lost[k] == 1
  {
    var late := IDEMPOTENCY_TTL + 1;
    var steps1, states1 := FreshKeyAccepted(depth, InitState(1), k, 0);
    var mid := states1[4];
    assert mid.seen == map[k := 0] && Unexpired(mid.seen, late) == map[];
    var steps2, states2 := FreshKeyAccepted(depth, mid, k, late);
    JoinRuns(depth, steps1, states1, steps2, states2);
    steps, states := steps1 + steps2, states1 + states2[1..];
    assert states[|steps|] == states2[4];
    assert mid.seen.Keys - Unexpired(mid.seen, late).Keys == {k};
    assert mid.calls == [Call(k, 0, Accepted)];
    CountOfTwo(states2[4].calls, Call(k, 0, Accepted), Call(k, late, Accepted), k);
  }
}
