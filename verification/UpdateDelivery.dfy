/** Updates of the Telegram poller on their way through the admission protocol. A
    webhook may carry the same updates under the same keys (internal/chatops/telegram.go,
    internal/chatops/service.go). */
module UpdateDelivery {
  import opened Admission
  import opened AdmissionProtocol
  import opened Tables
  import P = TelegramPoller

  // ---- Keys ----

  function Digit(d: nat): char
    requires d < 10
  {
    ('0' as int + d) as char
  }

  function Digits(n: nat): (s: string)
    ensures s != "" && forall i :: 0 <= i < |s| ==> s[i] != '-'
  {
    if n < 10 then [Digit(n)] else Digits(n / 10) + [Digit(n % 10)]
  }

  function Decimal(n: int): string { if n < 0 then "-" + Digits(-n) else Digits(n) }

  /** The key under which the update with this id is marked. */
  function KeyOf(id: int): Key { "telegram:" + Decimal(id) }

  lemma {:induction false} DigitsDiffer(m: nat, n: nat)
    requires Digits(m) == Digits(n)
    ensures m == n
  {
    var s := Digits(m);
    assert m >= 10 ==> s == Digits(m / 10) + [Digit(m % 10)] && s[..|s| - 1] == Digits(m / 10);
    assert n >= 10 ==> s == Digits(n / 10) + [Digit(n % 10)] && s[..|s| - 1] == Digits(n / 10);
    if m >= 10 && n >= 10 {
      DigitsDiffer(m / 10, n / 10);
    }
  }

  /** Two updates never share a key. */
  lemma KeysDiffer(m: int, n: int)
    requires KeyOf(m) == KeyOf(n)
    ensures m == n
  {
    var front := |"telegram:"|;
    assert KeyOf(m)[front..] == Decimal(m) && KeyOf(n)[front..] == Decimal(n);
    assert m < 0 ==> Decimal(m)[0] == '-' && Decimal(m)[1..] == Digits(-m);
    assert n < 0 ==> Decimal(n)[0] == '-' && Decimal(n)[1..] == Digits(-n);
    DigitsDiffer(if m < 0 then -m else m, if n < 0 then -n else n);
  }

  /** A key spells its id out in decimal digits. */
  lemma KeySpelled(id: int)
    ensures KeyOf(7) == "telegram:7" && KeyOf(-40) == "telegram:-40"
    ensures id >= 10 ==> exists d: char :: '0' <= d <= '9' && d as int - '0' as int == id % 10 &&
                           KeyOf(id) == KeyOf(id / 10) + [d]
  {
    assert Digits(40) == Digits(4) + [Digit(0)] && Digits(4) == ['4'];
    if id >= 10 {
      var d := Digit(id % 10);
      assert KeyOf(id) == KeyOf(id / 10) + [d];
    }
  }

  // ---- Marks, rollbacks and jobs of a key ----

  predicate Marks(s: State, step: Step, k: Key) {
    step.Mark? && step.c < |s.calls| && s.calls[step.c].key == k && k !in Unexpired(s.seen, s.calls[step.c].at)
  }

  predicate RollsBack(s: State, step: Step, k: Key) {
    step.Unmark? && step.c < |s.calls| && s.calls[step.c].key == k
  }

  /** How many of the first n steps mark the key. */
  function MarkCount(steps: seq<Step>, states: seq<State>, k: Key, n: nat): nat
    requires n <= |steps| < |states|
  {
    if n == 0 then 0
    else MarkCount(steps, states, k, n - 1) + if Marks(states[n - 1], steps[n - 1], k) then 1 else 0
  }

  /** How many of them take such a mark back. */
  function RollbackCount(steps: seq<Step>, states: seq<State>, k: Key, n: nat): nat
    requires n <= |steps| < |states|
  {
    if n == 0 then 0
    else RollbackCount(steps, states, k, n - 1) + if RollsBack(states[n - 1], steps[n - 1], k) then 1 else 0
  }

  function Gain(s: State, step: Step, k: Key): int {
    (if Marks(s, step, k) then 1 else 0) - if RollsBack(s, step, k) then 1 else 0
  }

  /** A step that moves one call on changes the claims by what that call's own claim changes. */
  lemma MovedClaims(s: State, t: State, c: nat, next: Call, k: Key)
    requires c < |s.calls| && t.calls == s.calls[c := next]
    ensures CountClaims(t.calls, k) - CountClaims(s.calls, k)
         == (if Claims(next, k) then 1 else 0) - if Claims(s.calls[c], k) then 1 else 0
  {
    ClaimsAfterUpdate(s.calls, c, next, k);
  }

  lemma MarkGains(depth: nat, s: State, step: Step, k: Key)
    requires Enabled(depth, s, step) && step.Mark? && k != ""
    ensures CountClaims(Do(depth, s, step).calls, k) == CountClaims(s.calls, k) + Gain(s, step, k)
  {
    hide Marked, MayEvict, CountClaims;
    var t := Do(depth, s, step);
    MovedClaims(s, t, step.c, t.calls[step.c], k);
  }

  lemma EnqueueGains(depth: nat, s: State, step: Step, k: Key)
    requires Enabled(depth, s, step) && step.Enqueue? && MarkedIffKeyed(s.calls[step.c]) && k != ""
    ensures CountClaims(Do(depth, s, step).calls, k) == CountClaims(s.calls, k) + Gain(s, step, k)
  {
    hide CountClaims, EnqueueAllows;
    var t := Do(depth, s, step);
    MovedClaims(s, t, step.c, t.calls[step.c], k);
  }

  lemma StepGains(depth: nat, s: State, step: Step, k: Key)
    requires Enabled(depth, s, step) && k != ""
    requires forall c :: 0 <= c < |s.calls| ==> MarkedIffKeyed(s.calls[c])
    ensures CountClaims(Do(depth, s, step).calls, k) == CountClaims(s.calls, k) + Gain(s, step, k)
  {
    hide CountClaims, DoMark, DoEnqueue;
    var t := Do(depth, s, step);
    match step
    case Arrive(key, at) => ArrivalClaimsNothing(s.calls, Call(key, at, Arrived), k);
    case Authorize(c, _) => MovedClaims(s, t, c, t.calls[c], k);
    case Mark(_, _) => MarkGains(depth, s, step, k);
    case Enqueue(_, _, _) => EnqueueGains(depth, s, step, k);
    case Unmark(c) => MovedClaims(s, t, c, t.calls[c], k);
    case _ => assert t.calls == s.calls;
  }

  /** The claims on a key are its marks less its rollbacks. */
  lemma {:induction false} ClaimsAreMarksLessRollbacks(depth: nat, workers: nat, steps: seq<Step>, states: seq<State>,
                                                       k: Key, n: nat)
    requires IsRun(depth, steps, states) && states[0] == InitState(workers) && n <= |steps| && k != ""
    ensures CountClaims(states[n].calls, k) == MarkCount(steps, states, k, n) - RollbackCount(steps, states, k, n)
  {
    hide CountClaims, Do, Enabled, Marks, RollsBack;
    if n == 0 {
      NoCallsNoClaims(k);
    } else {
      ClaimsAreMarksLessRollbacks(depth, workers, steps, states, k, n - 1);
      RunKeepsInv(depth, workers, steps, states, n - 1);
      assert Enabled(depth, states[n - 1], steps[n - 1]);
      StepGains(depth, states[n - 1], steps[n - 1], k);
    }
  }

  lemma NoCallsNoClaims(k: Key)
    ensures CountClaims([], k) == 0
  {
  }

  /** No call with the key is between its mark and its end. */
  predicate Quiet(calls: seq<Call>, k: Key) {
    forall c :: 0 <= c < |calls| && calls[c].key == k ==> calls[c].phase != Ready(true) && calls[c].phase != RollingBack
  }

  lemma {:induction false} QuietClaims(calls: seq<Call>, k: Key)
    requires Quiet(calls, k)
    ensures CountAccepted(calls, k) == CountClaims(calls, k)
  {
    if calls != [] {
      QuietClaims(calls[..|calls| - 1], k);
    }
  }

  /** Once no call with the key is under way, its accepted jobs are exactly the marks
      that were not taken back. */
  lemma {:induction false} JobsAreMarksLessRollbacks(depth: nat, workers: nat, steps: seq<Step>, states: seq<State>,
                                                   k: Key, n: nat)
    requires IsRun(depth, steps, states) && states[0] == InitState(workers) && n <= |steps| && k != ""
    requires Quiet(states[n].calls, k)
    ensures CountAccepted(states[n].calls, k) == MarkCount(steps, states, k, n) - RollbackCount(steps, states, k, n)
  {
    ClaimsAreMarksLessRollbacks(depth, workers, steps, states, k, n);
    QuietClaims(states[n].calls, k);
  }

  // ---- Redelivery ----

  lemma {:induction false} AcceptedCounts(calls: seq<Call>, c: nat, k: Key)
    requires c < |calls| && calls[c].key == k && calls[c].phase == Accepted
    ensures CountAccepted(calls, k) >= 1
  {
    if c < |calls| - 1 {
      AcceptedCounts(calls[..|calls| - 1], c, k);
    }
  }

  /** A call that carries the key of an accepted one is refused as a duplicate, and for
      good, unless a mark of the key has been lost by the time it looks. */
  lemma {:induction false} RedeliveryIsDuplicate(depth: nat, workers: nat, steps: seq<Step>, states: seq<State>,
                                                 i: nat, j: nat, c: nat)
    requires IsRun(depth, steps, states) && states[0] == InitState(workers) && i < j < |states| && steps[i].Mark?
    requires c < |states[i].calls| && states[i].calls[c].phase == Accepted
    requires steps[i].c < |states[i].calls| && states[i].calls[c].key == states[i].calls[steps[i].c].key != ""
    requires states[i + 1].lost[states[i].calls[c].key] == 0
    ensures AtPhase(states[j], steps[i].c, Rejected)
  {
    var s, k, d := states[i], states[i].calls[c].key, steps[i].c;
    RunKeepsInv(depth, workers, steps, states, i);
    AcceptedCounts(s.calls, c, k);
    AcceptedAtMostClaims(s.calls, k);
    assert Enabled(depth, s, steps[i]) && states[i + 1] == DoMark(s, d, steps[i].evicted);
    assert Held(s, k) == 1;
    EndedStays(depth, steps, states, d, states[i + 1].calls[d], i + 1, j);
  }

  /** Step i refuses call c as a duplicate. */
  predicate RefusedAt(steps: seq<Step>, states: seq<State>, i: nat, c: nat)
    requires |steps| < |states|
  {
    i < |steps| && steps[i].Mark? && steps[i].c == c && AtPhase(states[i + 1], c, Rejected)
  }

  /** The mark of call c would refuse it. */
  predicate Refuses(depth: nat, s: State, c: nat, evicted: set<Key>) {
    Enabled(depth, s, Mark(c, evicted)) && AtPhase(DoMark(s, c, evicted), c, Rejected)
  }

  lemma RefusalNeedsMark(depth: nat, s: State, c: nat, evicted: set<Key>)
    requires Refuses(depth, s, c, evicted)
    ensures AtPhase(s, c, Authorized) && s.calls[c].key != "" && Held(s, s.calls[c].key) == 1
    ensures Ended(DoMark(s, c, evicted), c, s.calls[c].(phase := Rejected))
    ensures DoMark(s, c, evicted).calls == s.calls[c := s.calls[c].(phase := Rejected)]
  {
    hide MayEvict;
  }

  lemma {:induction false} FindAccepted(calls: seq<Call>, k: Key) returns (c: nat)
    requires CountAccepted(calls, k) > 0
    ensures c < |calls| && calls[c].key == k && calls[c].phase == Accepted
  {
    var n := |calls| - 1;
    if calls[n].key == k && calls[n].phase == Accepted {
      c := n;
    } else {
      c := FindAccepted(calls[..n], k);
    }
  }

  /** If no other call with the key is under way, a refusal as a duplicate comes after
      a job was accepted, and the job stays. */
  lemma {:induction false} QuietRefusalHasJob(depth: nat, steps: seq<Step>, states: seq<State>, c: nat,
                                              evicted: set<Key>, j: nat)
    requires IsRun(depth, steps, states) && ClaimsPaid(states[0]) && Refuses(depth, states[0], c, evicted)
    requires Quiet(states[0].calls, states[0].calls[c].key) && j < |states|
    ensures CountAccepted(states[j].calls, states[0].calls[c].key) > 0
  {
    var s, k := states[0], states[0].calls[c].key;
    RefusalNeedsMark(depth, s, c, evicted);
    QuietClaims(s.calls, k);
    var first := FindAccepted(s.calls, k);
    EndedStays(depth, steps, states, first, s.calls[first], 0, j);
    AcceptedCounts(states[j].calls, first, k);
  }

  lemma {:induction false} NoClaims(calls: seq<Call>, k: Key)
    requires CountClaims(calls, k) == 0
    ensures CountAccepted(calls, k) == 0 && Quiet(calls, k)
  {
    if calls != [] {
      NoClaims(calls[..|calls| - 1], k);
    }
  }

  /** However a run goes on from here, once no call with the key is under way there is a
      job for it. */
  ghost predicate KeepsJob(depth: nat, s: State, k: Key) {
    forall steps: seq<Step>, states: seq<State> :: IsRun(depth, steps, states) && states[0] == s
                                                   && Quiet(states[|steps|].calls, k) ==>
      CountAccepted(states[|steps|].calls, k) > 0
  }

  /** The queue is closed under a call on its way, which then takes its mark back. */
  lemma RollsBackOnClose(depth: nat, s: State, h: nat, k: Key) returns (steps: seq<Step>, states: seq<State>)
    requires h < |s.calls| && s.calls[h].key == k
    requires s.calls[h].phase == Ready(true) || s.calls[h].phase == RollingBack
    ensures IsRun(depth, steps, states) && states[0] == s
    ensures states[|steps|].calls == s.calls[h := s.calls[h].(phase := Rejected)]
  {
    var s1 := s;
    steps, states := [], [s];
    if s.calls[h].phase == Ready(true) {
      var s0 := Do(depth, s, Close);
      s1 := Do(depth, s0, Enqueue(h, false, QueueClosed));
      steps, states := [Close, Enqueue(h, false, QueueClosed)], [s, s0, s1];
    }
    assert s1.calls == s.calls[h := s.calls[h].(phase := RollingBack)];
    var s2 := Do(depth, s1, Unmark(h));
    assert s2.calls == s.calls[h := s.calls[h].(phase := Rejected)];
    steps, states := steps + [Unmark(h)], states + [s2];
  }

  lemma RolledBackLeavesNothing(depth: nat, s: State, c: nat, evicted: set<Key>, h: nat)
    returns (steps: seq<Step>, states: seq<State>)
    requires ClaimsPaid(s) && Refuses(depth, s, c, evicted) && s.lost[s.calls[c].key] == 0
    requires h < |s.calls| && s.calls[h].key == s.calls[c].key
    requires s.calls[h].phase == Ready(true) || s.calls[h].phase == RollingBack
    ensures IsRun(depth, steps, states) && states[0] == DoMark(s, c, evicted)
    ensures Quiet(states[|steps|].calls, s.calls[c].key) && CountAccepted(states[|steps|].calls, s.calls[c].key) == 0
  {
    hide Enabled, Do, Quiet, CountAccepted, CountClaims, DoMark, IsRun;
    RefusalNeedsMark(depth, s, c, evicted);
    var k, t := s.calls[c].key, DoMark(s, c, evicted);
    MovedClaims(s, t, c, t.calls[c], k);
    steps, states := RollsBackOnClose(depth, t, h, k);
    MovedClaims(t, states[|steps|], h, t.calls[h].(phase := Rejected), k);
    NoClaims(states[|steps|].calls, k);
  }

  /** What a refusal as a duplicate is worth is decided at that moment. As long as no mark
      of the key has been lost, there will be a job for it, however the run goes on,
      exactly when no other call with the key is then between its mark and its end. */
  lemma {:induction false} RefusalIsSafeIff(depth: nat, s: State, c: nat, evicted: set<Key>)
    requires Inv(depth, s) && Refuses(depth, s, c, evicted) && s.lost[s.calls[c].key] == 0
    ensures KeepsJob(depth, DoMark(s, c, evicted), s.calls[c].key) <==> Quiet(s.calls, s.calls[c].key)
  {
    hide Inv, Refuses, ClaimsPaid, DoMark, Enabled, Do, CountAccepted;
    RefusalNeedsMark(depth, s, c, evicted);
    var k, t := s.calls[c].key, DoMark(s, c, evicted);
    InvHasClaimsPaid(depth, s);
    if Quiet(s.calls, k) {
      forall steps: seq<Step>, states: seq<State> | IsRun(depth, steps, states) && states[0] == t
        ensures CountAccepted(states[|steps|].calls, k) > 0
      {
        RefusalFirst(depth, s, c, evicted, steps, states);
        QuietRefusalHasJob(depth, [Mark(c, evicted)] + steps, [s] + states, c, evicted, |steps| + 1);
      }
    } else {
      var h: nat :| h < |s.calls| && s.calls[h].key == k
                    && (s.calls[h].phase == Ready(true) || s.calls[h].phase == RollingBack);
      var steps, states := RolledBackLeavesNothing(depth, s, c, evicted, h);
    }
  }

  lemma InvHasClaimsPaid(depth: nat, s: State)
    requires Inv(depth, s)
    ensures ClaimsPaid(s)
  {
  }

  lemma RefusalFirst(depth: nat, s: State, c: nat, evicted: set<Key>, steps: seq<Step>, states: seq<State>)
    requires Refuses(depth, s, c, evicted) && IsRun(depth, steps, states) && states[0] == DoMark(s, c, evicted)
    ensures IsRun(depth, [Mark(c, evicted)] + steps, [s] + states)
  {
    hide DoMark, AtPhase, MayEvict;
    assert IsRun(depth, [Mark(c, evicted)], [s, states[0]]);
    JoinRuns(depth, [Mark(c, evicted)], [s, states[0]], steps, states);
    assert [s, states[0]] + states[1..] == [s] + states;
  }

  // ---- The poller in front ----

  predicate Carries(s: State, c: nat, k: Key) {
    c < |s.calls| && s.calls[c].key == k
  }

  /** What the protocol did with the update's call is what the poller was told. The
      key of an update is KeyOf in the code; here any will do. */
  ghost predicate Answers(keyOf: int -> Key, u: P.Update, steps: seq<Step>, states: seq<State>, c: nat)
    requires |states| == |steps| + 1
  {
    var calls := states[|steps|].calls;
    && c < |calls| && calls[c].key == keyOf(u.id)
    && (u.outcome == P.Accepted ==> calls[c].phase == Accepted)
    && (u.outcome == P.Duplicate ==> exists i :: RefusedAt(steps, states, i, c))
    && (u.outcome == P.Failed ==> calls[c].phase != Accepted)
  }

  /** Each prompt the poller looked at was a call of this run, among any others. */
  ghost predicate Handles(keyOf: int -> Key, batches: seq<seq<P.Update>>, offsets: seq<int>, steps: seq<Step>,
                          states: seq<State>)
    requires |batches| < |offsets| && |states| == |steps| + 1
  {
    forall m, k :: 0 <= m < |batches| && 0 <= k < |batches[m]| && P.Reaches(offsets[m], batches[m], k)
                   && batches[m][k].outcome != P.NotPrompt ==>
      exists c :: Answers(keyOf, batches[m][k], steps, states, c)
  }

  ghost predicate SettledAs(batches: seq<seq<P.Update>>, offsets: seq<int>, id: int, outcome: P.Outcome)
    requires |batches| < |offsets|
  {
    exists m, k :: 0 <= m < |batches| && 0 <= k < |batches[m]| && P.Reaches(offsets[m], batches[m], k)
                   && batches[m][k] == P.Update(id, outcome)
  }

  /** An accepted update has one job, and one more at most for each lost mark of its key. */
  lemma {:induction false} AcceptedUpdateHasItsJob(depth: nat, workers: nat, steps: seq<Step>, states: seq<State>,
                                                   batches: seq<seq<P.Update>>, offsets: seq<int>, keyOf: int -> Key,
                                                   id: int)
    requires IsRun(depth, steps, states) && states[0] == InitState(workers) && keyOf(id) != ""
    requires |batches| < |offsets| && Handles(keyOf, batches, offsets, steps, states)
    requires SettledAs(batches, offsets, id, P.Accepted)
    ensures var last := states[|steps|];
            1 <= CountAccepted(last.calls, keyOf(id)) <= 1 + last.lost[keyOf(id)]
  {
    hide Enabled, Do, P.Reaches, CountAccepted;
    var last := states[|steps|];
    var m, k :| 0 <= m < |batches| && 0 <= k < |batches[m]| && P.Reaches(offsets[m], batches[m], k)
                && batches[m][k] == P.Update(id, P.Accepted);
    var c :| Answers(keyOf, batches[m][k], steps, states, c);
    AcceptedCounts(last.calls, c, keyOf(id));
    AtMostOneJobPerKey(depth, workers, steps, states, |steps|, keyOf(id));
  }

  /** Whenever a call with the key is refused as a duplicate, no other one is under way. */
  ghost predicate RefusedQuietly(steps: seq<Step>, states: seq<State>, k: Key)
    requires |states| == |steps| + 1
  {
    forall i: nat, c: nat :: RefusedAt(steps, states, i, c) && Carries(states[i], c, k) ==> Quiet(states[i].calls, k)
  }

  ghost predicate OneUnended(s: State, k: Key) {
    forall c, d :: 0 <= c < d < |s.calls| && s.calls[c].key == k && s.calls[d].key == k ==>
      Ended(s, c, s.calls[c]) || Ended(s, d, s.calls[d])
  }

  lemma OneUnendedIsQuiet(s: State, c: nat, k: Key)
    requires OneUnended(s, k) && AtPhase(s, c, Authorized) && s.calls[c].key == k
    ensures Quiet(s.calls, k)
  {
    forall d | 0 <= d < |s.calls| && s.calls[d].key == k && d != c ensures Ended(s, d, s.calls[d]) {
      if d < c {
        assert Ended(s, d, s.calls[d]) || Ended(s, c, s.calls[c]);
      }
    }
  }

  /** If at most one call with the key has started and not ended at any time, as with a
      poller that handles one update at a time and no webhook beside it, refusals are
      quiet. */
  lemma OneAtATimeIsQuiet(depth: nat, steps: seq<Step>, states: seq<State>, k: Key)
    requires IsRun(depth, steps, states) && forall i :: 0 <= i < |states| ==> OneUnended(states[i], k)
    ensures RefusedQuietly(steps, states, k)
  {
    hide Do, OneUnended, Quiet, Enabled;
    forall i: nat, c: nat | RefusedAt(steps, states, i, c) && Carries(states[i], c, k)
      ensures Quiet(states[i].calls, k)
    {
      assert Enabled(depth, states[i], steps[i]);
      MarkNeedsAuthorized(depth, states[i], c, steps[i].evicted);
      OneUnendedIsQuiet(states[i], c, k);
    }
  }

  lemma MarkNeedsAuthorized(depth: nat, s: State, c: nat, evicted: set<Key>)
    requires Enabled(depth, s, Mark(c, evicted))
    ensures AtPhase(s, c, Authorized)
  {
    hide MayEvict, Unexpired;
  }

  /** An update settled as a duplicate has its job, if every refusal was quiet. */
  lemma {:induction false} DuplicateHasItsJob(depth: nat, workers: nat, steps: seq<Step>, states: seq<State>, i: nat,
                                              c: nat, k: Key)
    requires IsRun(depth, steps, states) && states[0] == InitState(workers)
    requires RefusedAt(steps, states, i, c) && Carries(states[|steps|], c, k) && RefusedQuietly(steps, states, k)
    ensures CountAccepted(states[|steps|].calls, k) > 0
  {
    hide CountAccepted;
    var s := states[i];
    assert Enabled(depth, s, steps[i]) && states[i + 1] == Do(depth, s, steps[i]) == DoMark(s, c, steps[i].evicted);
    RefusalNeedsMark(depth, s, c, steps[i].evicted);
    EndedStays(depth, steps, states, c, s.calls[c].(phase := Rejected), i + 1, |steps|);
    RunKeepsInv(depth, workers, steps, states, i);
    RunTail(depth, steps, states, i);
    assert Carries(s, c, k) && Refuses(depth, s, c, steps[i].evicted);
    assert states[i..][0] == s && states[i..][|steps| - i] == states[|steps|];
    QuietRefusalHasJob(depth, steps[i..], states[i..], c, steps[i].evicted, |steps| - i);
  }

  lemma RunTail(depth: nat, steps: seq<Step>, states: seq<State>, i: nat)
    requires IsRun(depth, steps, states) && i <= |steps|
    ensures IsRun(depth, steps[i..], states[i..])
  {
    hide Enabled, Do;
  }

  /** Against an in-order server, every update served so far and now below the offset
      was no prompt or has its job, rolled back and retried or not, if refusals were
      quiet; and it has one job more at most for each lost mark. */
  lemma {:induction false} ServedUpdateHasItsJob(depth: nat, workers: nat, steps: seq<Step>, states: seq<State>,
                                                 batches: seq<seq<P.Update>>, offsets: seq<int>, keyOf: int -> Key,
                                                 id: int)
    requires IsRun(depth, steps, states) && states[0] == InitState(workers) && keyOf(id) != ""
    requires P.IsRun(batches, offsets) && P.ServesInOrder(batches, offsets)
    requires Handles(keyOf, batches, offsets, steps, states)
    requires P.ServedBefore(batches, |batches|, id) && id < offsets[|batches|]
    requires RefusedQuietly(steps, states, keyOf(id))
    ensures var last := states[|steps|];
            || SettledAs(batches, offsets, id, P.NotPrompt)
            || 1 <= CountAccepted(last.calls, keyOf(id)) <= 1 + last.lost[keyOf(id)]
  {
    hide Enabled, Do, P.AfterBatch, P.ServesInOrder, P.Reaches, CountAccepted, RefusedQuietly, RefusedAt, P.Settled;
    P.BelowOffsetIsSettled(batches, offsets, |batches|, id);
    var m :| 0 <= m < |batches| && id in P.Settled(offsets[m], batches[m]);
    var k := P.SettledAt(offsets[m], batches[m], id);
    assert SettledAs(batches, offsets, id, batches[m][k].outcome);
    match batches[m][k].outcome
    case NotPrompt =>
    case Accepted => AcceptedUpdateHasItsJob(depth, workers, steps, states, batches, offsets, keyOf, id);
    case Duplicate =>
      var c :| Answers(keyOf, batches[m][k], steps, states, c);
      var i :| RefusedAt(steps, states, i, c);
      DuplicateHasItsJob(depth, workers, steps, states, i, c, keyOf(id));
      AtMostOneJobPerKey(depth, workers, steps, states, |steps|, keyOf(id));
    case Failed =>
  }

  // ---- A duplicate that loses its update ----

  /** The queue has jobs without a key, each of its own call. */
  predicate Filled(s: State, n: nat) {
    && |s.jobs| == n == |s.calls| && s.seen == map[] && !s.closed
    && forall c :: 0 <= c < n ==> s.calls[c] == Call("", 0, Accepted)
  }

  lemma FillOne(depth: nat, s0: State, n: nat) returns (steps: seq<Step>, states: seq<State>)
    requires Filled(s0, n) && n < depth
    ensures IsRun(depth, steps, states) && states[0] == s0 && Filled(states[|steps|], n + 1)
  {
    var s1 := Do(depth, s0, Arrive("", 0));
    var s2 := Do(depth, s1, Authorize(n, true));
    assert s2.calls == s0.calls + [Call("", 0, Authorized)];
    var s3 := Do(depth, s2, Mark(n, {}));
    assert s3.calls == s0.calls + [Call("", 0, Ready(false))];
    var s4 := Do(depth, s3, Enqueue(n, false, Queued));
    assert s4.calls == s0.calls + [Call("", 0, Accepted)];
    steps := [Arrive("", 0), Authorize(n, true), Mark(n, {}), Enqueue(n, false, Queued)];
    states := [s0, s1, s2, s3, s4];
  }

  lemma {:induction false} Fill(depth: nat, n: nat) returns (steps: seq<Step>, states: seq<State>)
    requires n <= depth
    ensures IsRun(depth, steps, states) && states[0] == InitState(1) && Filled(states[|steps|], n)
  {
    hide Enabled, Do, Filled;
    if n == 0 {
      NothingFilled();
      steps, states := [], [InitState(1)];
    } else {
      var steps0, states0 := Fill(depth, n - 1);
      var steps1, states1 := FillOne(depth, states0[|steps0|], n - 1);
      JoinRuns(depth, steps0, states0, steps1, states1);
      steps, states := steps0 + steps1, states0 + states1[1..];
      assert states[|steps|] == states1[|steps1|];
    }
  }

  lemma NothingFilled()
    ensures Filled(InitState(1), 0)
  {
  }

  /** Whatever the depth of the queue: once it is full, a webhook's call marks an update,
      the poller's call is refused as its duplicate, and then the queue refuses the first
      one. The poller has moved on; no job exists. */
  lemma DuplicateOfRolledBackIsLost(depth: nat) returns (steps: seq<Step>, states: seq<State>)
    ensures IsRun(depth, steps, states) && states[0] == InitState(1)
    ensures var batches := [[P.Update(5, P.Duplicate)]];
            P.IsRun(batches, [0, 6]) && Handles(KeyOf, batches, [0, 6], steps, states)
    ensures Quiet(states[|steps|].calls, KeyOf(5)) && CountAccepted(states[|steps|].calls, KeyOf(5)) == 0
  {
    hide Enabled, Do, Quiet, CountAccepted, P.Reaches, P.AfterBatch, KeyOf, Filled;
    var k := KeyOf(5);
    KeyNotEmpty(5);
    var steps0, states0 := Fill(depth, depth);
    var s := states0[|steps0|];
    var steps1, states1 := MarkArrival(depth, s, k);
    var steps2, states2 := RefuseSecond(depth, states1[3], s.calls, k);
    var steps3, states3 := RollBackFirst(depth, states2[3], s.calls, k);
    JoinRuns(depth, steps0, states0, steps1, states1);
    JoinRuns(depth, steps0 + steps1, states0 + states1[1..], steps2, states2);
    var before, path := steps0 + steps1 + steps2, states0 + states1[1..] + states2[1..];
    JoinRuns(depth, before, path, steps3, states3);
    steps, states := before + steps3, path + states3[1..];
    assert steps[|before| - 1] == steps2[2] && states[|before|] == states2[3] && states[|steps|] == states3[2];
    NoneAccepted(s, depth, states[|steps|].calls, k);
    FiveIsPassed();
    assert RefusedAt(steps, states, |before| - 1, |s.calls| + 1);
    assert Answers(KeyOf, P.Update(5, P.Duplicate), steps, states, |s.calls| + 1);
  }

  lemma KeyNotEmpty(id: int)
    ensures KeyOf(id) != ""
  {
  }

  lemma MarkArrival(depth: nat, s0: State, k: Key) returns (steps: seq<Step>, states: seq<State>)
    requires k != "" && Filled(s0, depth)
    ensures IsRun(depth, steps, states) && |steps| == 3 && states[0] == s0
    ensures states[3].calls == s0.calls + [Call(k, 0, Ready(true))] && states[3].seen == map[k := 0]
    ensures |states[3].jobs| == depth && !states[3].closed
  {
    var n := |s0.calls|;
    var s1 := Do(depth, s0, Arrive(k, 0));
    var s2 := Do(depth, s1, Authorize(n, true));
    assert s2.calls == s0.calls + [Call(k, 0, Authorized)] && Unexpired(s2.seen, 0) == map[];
    FreshMark(s2, n);
    var s3 := Do(depth, s2, Mark(n, {}));
    assert s3.calls == s0.calls + [Call(k, 0, Ready(true))] && s3.seen == map[k := 0];
    steps, states := [Arrive(k, 0), Authorize(n, true), Mark(n, {})], [s0, s1, s2, s3];
  }

  lemma RefuseSecond(depth: nat, s0: State, others: seq<Call>, k: Key) returns (steps: seq<Step>, states: seq<State>)
    requires k != "" && s0.calls == others + [Call(k, 0, Ready(true))] && s0.seen == map[k := 0]
    requires !s0.closed && |s0.jobs| == depth
    ensures IsRun(depth, steps, states) && |steps| == 3 && states[0] == s0 && steps[2] == Mark(|others| + 1, {})
    ensures states[3].calls == others + [Call(k, 0, Ready(true)), Call(k, 0, Rejected)]
    ensures |states[3].jobs| == depth && !states[3].closed
  {
    var n := |others| + 1;
    var s1 := Do(depth, s0, Arrive(k, 0));
    var s2 := Do(depth, s1, Authorize(n, true));
    assert s2.calls == others + [Call(k, 0, Ready(true)), Call(k, 0, Authorized)] && k in Unexpired(s2.seen, 0);
    var s3 := Do(depth, s2, Mark(n, {}));
    assert s3.calls == others + [Call(k, 0, Ready(true)), Call(k, 0, Rejected)];
    steps, states := [Arrive(k, 0), Authorize(n, true), Mark(n, {})], [s0, s1, s2, s3];
  }

  lemma RollBackFirst(depth: nat, s0: State, others: seq<Call>, k: Key) returns (steps: seq<Step>, states: seq<State>)
    requires s0.calls == others + [Call(k, 0, Ready(true)), Call(k, 0, Rejected)]
    requires !s0.closed && |s0.jobs| == depth
    ensures IsRun(depth, steps, states) && |steps| == 2 && states[0] == s0
    ensures states[2].calls == others + [Call(k, 0, Rejected), Call(k, 0, Rejected)]
  {
    var n := |others|;
    var s1 := Do(depth, s0, Enqueue(n, false, QueueFull));
    assert s1.calls == others + [Call(k, 0, RollingBack), Call(k, 0, Rejected)];
    var s2 := Do(depth, s1, Unmark(n));
    assert s2.calls == others + [Call(k, 0, Rejected), Call(k, 0, Rejected)];
    steps, states := [Enqueue(n, false, QueueFull), Unmark(n)], [s0, s1, s2];
  }

  lemma {:induction false} NoneOfKey(calls: seq<Call>, k: Key)
    requires forall c :: 0 <= c < |calls| ==> calls[c].key != k || calls[c].phase == Rejected
    ensures CountAccepted(calls, k) == 0 && Quiet(calls, k)
  {
    if calls != [] {
      NoneOfKey(calls[..|calls| - 1], k);
    }
  }

  lemma NoneAccepted(s: State, n: nat, calls: seq<Call>, k: Key)
    requires k != "" && Filled(s, n) && calls == s.calls + [Call(k, 0, Rejected), Call(k, 0, Rejected)]
    ensures CountAccepted(calls, k) == 0 && Quiet(calls, k)
  {
    hide CountAccepted;
    NoneOfKey(calls, k);
  }

  lemma FiveIsPassed()
    ensures P.AfterBatch(0, [P.Update(5, P.Duplicate)]) == 6
  {
    var batch := [P.Update(5, P.Duplicate)];
    assert batch[1..] == [] && P.AfterBatch(6, []) == 6;
  }
}
