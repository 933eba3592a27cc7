/** The circuit breaker of internal/core/llm/circuit.go and the provider chain of
    internal/core/llm/fallback.go. The clock never goes back. */
module Fallback {

  // ---- One breaker ----

  predicate Ascending(log: seq<nat>) {
    forall i, j :: 0 <= i < j < |log| ==> log[i] <= log[j]
  }

  /** How many of the failures lie strictly after the cutoff. */
  function RecentCount(log: seq<nat>, cutoff: int): nat {
    if log == [] then 0
    else RecentCount(log[..|log| - 1], cutoff) + if log[|log| - 1] > cutoff then 1 else 0
  }

  lemma {:induction false} RecentSuffix(log: seq<nat>, d: nat, cutoff: int)
    requires d <= |log|
    requires forall i :: 0 <= i < d ==> log[i] <= cutoff
    requires forall i :: d <= i < |log| ==> log[i] > cutoff
    ensures RecentCount(log, cutoff) == |log| - d
  {
    if log != [] {
      var n := |log| - 1;
      RecentSuffix(log[..n], if d <= n then d else n, cutoff);
    }
  }

  /** The stamps kept are the end of all those recorded; what was dropped is too old. */
  ghost predicate Keeps(log: seq<nat>, failures: seq<nat>, cutoff: int) {
    && Ascending(log) && |failures| <= |log| && failures == log[|log| - |failures|..]
    && forall i :: 0 <= i < |log| - |failures| ==> log[i] <= cutoff
  }

  /** Dropping the front stamps up to the cutoff leaves exactly the recent ones. */
  lemma FrontDropped(log: seq<nat>, failures: seq<nat>, before: int, cutoff: int, n: nat)
    requires Keeps(log, failures, before) && before <= cutoff && n <= |failures|
    requires forall i :: 0 <= i < n ==> failures[i] <= cutoff
    requires n < |failures| ==> failures[n] > cutoff
    ensures Keeps(log, failures[n..], cutoff) && |failures[n..]| == RecentCount(log, cutoff)
  {
    var d := |log| - |failures|;
    assert forall i :: d <= i < |log| ==> log[i] == failures[i - d];
    assert n < |failures| ==> log[d + n] > cutoff;
    RecentSuffix(log, d + n, cutoff);
  }

  lemma StampAdded(log: seq<nat>, failures: seq<nat>, cutoff: int, now: nat)
    requires Keeps(log, failures, cutoff) && forall i :: 0 <= i < |log| ==> log[i] <= now
    ensures Keeps(log + [now], failures + [now], cutoff)
  {
    var d := |log| - |failures|;
    assert (log + [now])[d..] == log[d..] + [now];
  }

  class Breaker {
    const threshold: nat
    const window: nat
    var failures: seq<nat>
    ghost var log: seq<nat>
    ghost var clock: nat

    ghost predicate Valid()
      reads this
    {
      Keeps(log, failures, clock - window) && forall i :: 0 <= i < |log| ==> log[i] <= clock
    }

    constructor (threshold: nat, window: nat)
      ensures Valid() && this.threshold == threshold && this.window == window && log == [] && clock == 0
    {
      this.threshold, this.window := threshold, window;
      failures, log, clock := [], [], 0;
    }

    method Prune(now: nat)
      requires Keeps(log, failures, clock - window) && now >= clock
      requires forall i :: 0 <= i < |log| ==> log[i] <= now
      modifies `failures, `clock
      ensures Valid() && clock == now
      ensures |failures| == RecentCount(log, now - window)
    {
      hide Keeps;
      var cutoff := now - window;
      var i := 0;
      while i < |failures| && failures[i] <= cutoff
        invariant 0 <= i <= |failures| && forall k :: 0 <= k < i ==> failures[k] <= cutoff
      {
        i := i + 1;
      }
      FrontDropped(log, failures, clock - window, cutoff, i);
      failures := failures[i..];
      clock := now;
    }

    method RecordFailure(now: nat)
      requires Valid() && now >= clock
      modifies this
      ensures Valid() && clock == now && log == old(log) + [now]
    {
      hide Keeps;
      StampAdded(log, failures, clock - window, now);
      failures := failures + [now];
      log := log + [now];
      Prune(now);
    }

    /** Open exactly when enough of all the failures ever recorded are recent. */
    method IsOpen(now: nat) returns (open: bool)
      requires Valid() && now >= clock
      modifies `failures, `clock
      ensures Valid() && clock == now
      ensures open <==> RecentCount(log, now - window) >= threshold
    {
      Prune(now);
      open := |failures| >= threshold;
    }
  }

  // ---- The chain ----

  /** What happens if a candidate's turn comes: the context may be cancelled before;
      the breaker is asked; the dial succeeds or not; on failure the context may
      have been cancelled meanwhile, else the failure is stamped. */
  datatype Visit = Visit(cancelled: bool, asked: nat, connects: bool, cancelledMeanwhile: bool, stamped: nat)

  datatype Outcome = Connected(candidate: nat) | Cancelled | AllFailed(first: nat) | NoneAvailable

  ghost predicate ClockRuns(visits: seq<Visit>) {
    && (forall i :: 0 <= i < |visits| ==> visits[i].asked <= visits[i].stamped)
    && forall i, j :: 0 <= i < j < |visits| ==> visits[i].stamped <= visits[j].asked
  }

  /** What a chain's breakers share. */
  datatype Limits = Limits(threshold: nat, window: nat)

  /** A breaker with these failures recorded is closed when its turn comes. */
  ghost predicate Closed(l: Limits, log: seq<nat>, v: Visit) {
    RecentCount(log, v.asked - l.window) < l.threshold
  }

  /** The candidate ends the walk: the caller is gone, or it is dialed and connects. */
  ghost predicate Ends(l: Limits, log: seq<nat>, v: Visit) {
    v.cancelled || (Closed(l, log, v) && v.connects)
  }

  ghost predicate NoneEnds(l: Limits, logs: seq<seq<nat>>, visits: seq<Visit>, n: nat)
    requires n <= |visits| && |visits| == |logs|
  {
    forall i :: 0 <= i < n ==> !Ends(l, logs[i], visits[i])
  }

  /** The failures of a candidate the walk passed by: one more if it was dialed. */
  ghost function Passed(l: Limits, log: seq<nat>, v: Visit): seq<nat> {
    if Closed(l, log, v) && !v.cancelledMeanwhile then log + [v.stamped] else log
  }

  /** The candidate is dialed if fewer failures than the threshold are recent, and then its
      failure is recorded, unless the caller has gone; nothing else is. */
  ghost predicate Recorded(l: Limits, before: seq<nat>, after: seq<nat>, v: Visit, dialed: bool) {
    && (dialed <==> RecentCount(before, v.asked - l.window) < l.threshold)
    && after == before + if dialed && !v.cancelledMeanwhile then [v.stamped] else []
  }

  /** The candidates among the first n whose breakers are closed, in order. */
  ghost function Dialable(l: Limits, logs: seq<seq<nat>>, visits: seq<Visit>, n: nat): seq<nat>
    requires n <= |visits| && |visits| == |logs|
  {
    if n == 0 then []
    else Dialable(l, logs, visits, n - 1) + if Closed(l, logs[n - 1], visits[n - 1]) then [n - 1] else []
  }

  lemma {:induction false} DialableIff(l: Limits, logs: seq<seq<nat>>, visits: seq<Visit>, n: nat)
    requires n <= |visits| && |visits| == |logs|
    ensures var d := Dialable(l, logs, visits, n);
            && (forall i: nat :: i in d <==> i < n && Closed(l, logs[i], visits[i]))
            && forall i, j :: 0 <= i < j < |d| ==> d[i] < d[j]
  {
    hide Closed;
    if n > 0 {
      DialableIff(l, logs, visits, n - 1);
      var d, added := Dialable(l, logs, visits, n - 1), if Closed(l, logs[n - 1], visits[n - 1]) then [n - 1] else [];
      assert Dialable(l, logs, visits, n) == d + added;
      forall i: nat ensures i in d + added <==> i < n && Closed(l, logs[i], visits[i]) {
        assert i in d + added <==> i in d || i in added;
      }
      assert forall i :: 0 <= i < |d| ==> d[i] in d;
    }
  }

  lemma PassedBy(l: Limits, logs: seq<seq<nat>>, visits: seq<Visit>, n: nat)
    requires n < |visits| && |visits| == |logs| && NoneEnds(l, logs, visits, n)
    ensures var v := visits[n];
            if v.cancelled || (Closed(l, logs[n], v) && v.connects) then Ends(l, logs[n], v)
            else NoneEnds(l, logs, visits, n + 1)
    ensures Dialable(l, logs, visits, n + 1) ==
            Dialable(l, logs, visits, n) + if Closed(l, logs[n], visits[n]) then [n] else []
  {
  }

  lemma PassedIsRecorded(l: Limits, logs: seq<seq<nat>>, visits: seq<Visit>, n: nat, dialed: seq<nat>)
    requires n <= |visits| && |visits| == |logs|
    requires dialed == Dialable(l, logs, visits, n) || dialed == Dialable(l, logs, visits, n) + [n]
    ensures forall i :: 0 <= i < n ==> Recorded(l, logs[i], Passed(l, logs[i], visits[i]), visits[i], i in dialed)
  {
    hide Dialable, RecentCount;
    DialableIff(l, logs, visits, n);
  }

  lemma NonePassed(l: Limits, logs: seq<seq<nat>>, visits: seq<Visit>)
    requires |visits| == |logs|
    ensures NoneEnds(l, logs, visits, 0) && Dialable(l, logs, visits, 0) == []
  {
  }

  /** Unless the caller is gone, the walk stops before the end exactly when some
      candidate with a closed breaker connects. */
  lemma ConnectsIff(l: Limits, logs: seq<seq<nat>>, visits: seq<Visit>, reached: nat)
    requires reached <= |visits| && |visits| == |logs| && NoneEnds(l, logs, visits, reached)
    requires reached < |visits| ==> Ends(l, logs[reached], visits[reached])
    requires forall i :: 0 <= i < |visits| ==> !visits[i].cancelled
    ensures reached < |visits| <==>
            exists i :: 0 <= i < |visits| && Closed(l, logs[i], visits[i]) && visits[i].connects
  {
    hide Closed;
    if reached < |visits| {
      assert Closed(l, logs[reached], visits[reached]) && visits[reached].connects;
    } else {
      forall i | 0 <= i < |visits| ensures !(Closed(l, logs[i], visits[i]) && visits[i].connects) {
        assert !Ends(l, logs[i], visits[i]);
      }
    }
  }

  lemma {:induction false} LaterStampsCount(log: seq<nat>, stamps: seq<nat>, cutoff: int)
    requires forall k :: 0 <= k < |stamps| ==> stamps[k] > cutoff
    ensures RecentCount(log + stamps, cutoff) == RecentCount(log, cutoff) + |stamps|
  {
    if stamps == [] {
      assert log + stamps == log;
    } else {
      var n := |stamps| - 1;
      LaterStampsCount(log, stamps[..n], cutoff);
      assert (log + stamps)[..|log| + n] == log + stamps[..n];
    }
  }

  /** A candidate with as many failures in the window as the threshold is passed over. */
  lemma FailuresClose(l: Limits, log: seq<nat>, stamps: seq<nat>, v: Visit)
    requires |stamps| >= l.threshold && forall k :: 0 <= k < |stamps| ==> stamps[k] > v.asked - l.window
    ensures RecentCount(log + stamps, v.asked - l.window) >= l.threshold
  {
    LaterStampsCount(log, stamps, v.asked - l.window);
  }

  class FallbackProvider {
    const breakers: seq<Breaker>
    const limits: Limits

    ghost predicate Valid()
      reads breakers
    {
      && (forall i, j :: 0 <= i < j < |breakers| ==> breakers[i] != breakers[j])
      && forall i :: 0 <= i < |breakers| ==>
           breakers[i].Valid() && breakers[i].threshold == limits.threshold && breakers[i].window == limits.window
    }

    /** Limits that are not positive get their defaults, three failures in a minute. */
    constructor (size: nat, threshold: int, window: int)
      requires size > 0
      ensures Valid() && |breakers| == size && fresh(breakers)
      ensures limits == Limits(if threshold <= 0 then 3 else threshold, if window <= 0 then 60 else window)
      ensures forall i :: 0 <= i < size ==> breakers[i].log == [] && breakers[i].clock == 0
    {
      var l := Limits(if threshold <= 0 then 3 else threshold, if window <= 0 then 60 else window);
      var made: seq<Breaker> := [];
      for i := 0 to size
        invariant |made| == i && fresh(made)
        invariant forall k, j :: 0 <= k < j < i ==> made[k] != made[j]
        invariant forall k :: 0 <= k < i ==>
                    && made[k].Valid() && made[k].threshold == l.threshold && made[k].window == l.window
                    && made[k].log == [] && made[k].clock == 0
      {
        var b := new Breaker(l.threshold, l.window);
        made := made + [b];
      }
      breakers, limits := made, l;
    }

    ghost function Logs(): (logs: seq<seq<nat>>)
      reads breakers
      ensures |logs| == |breakers|
    {
      seq(|breakers|, i requires 0 <= i < |breakers| reads breakers => breakers[i].log)
    }

    /** One candidate's turn. */
    method Try(b: Breaker, v: Visit) returns (dialed: bool)
      requires b.Valid() && b.threshold == limits.threshold && b.window == limits.window
      requires b.clock <= v.asked <= v.stamped
      modifies b
      ensures b.Valid()
      ensures dialed <==> Closed(limits, old(b.log), v)
      ensures dialed <==> RecentCount(old(b.log), v.asked - limits.window) < limits.threshold
      ensures b.log == if dialed && v.connects then old(b.log) else Passed(limits, old(b.log), v)
      ensures b.log == old(b.log) + if dialed && !v.connects && !v.cancelledMeanwhile then [v.stamped] else []
    {
      var open := b.IsOpen(v.asked);
      if open {
        return false;
      }
      if !v.connects && !v.cancelledMeanwhile {
        b.RecordFailure(v.stamped);
      }
      dialed := true;
    }

    /** Candidates are dialed in order up to the first that connects: those, and only
        those, whose breakers are closed. Each failed dial is stamped once, unless
        the caller has gone. */
    method Stream(visits: seq<Visit>) returns (outcome: Outcome, dialed: seq<nat>, ghost reached: nat)
      requires Valid() && |visits| == |breakers| && ClockRuns(visits)
      requires forall i :: 0 <= i < |breakers| ==> breakers[i].clock <= visits[i].asked
      modifies breakers
      ensures Valid() && reached <= |visits| && NoneEnds(limits, old(Logs()), visits, reached)
      ensures forall i :: 0 <= i < reached ==> breakers[i].log == Passed(limits, old(Logs())[i], visits[i])
      ensures forall i :: reached <= i < |visits| ==> breakers[i].log == old(Logs())[i]
      ensures forall i :: 0 <= i < reached ==>
                Recorded(limits, old(Logs())[i], breakers[i].log, visits[i], i in dialed)
      ensures reached < |visits| ==> Ends(limits, old(Logs())[reached], visits[reached])
      ensures dialed == Dialable(limits, old(Logs()), visits, reached) + if outcome.Connected? then [reached] else []
      ensures if reached == |visits| then outcome == (if dialed == [] then NoneAvailable else AllFailed(dialed[0]))
              else outcome == (if visits[reached].cancelled then Cancelled else Connected(reached))
    {
      hide Closed, Breaker.Valid, NoneEnds, Passed, Dialable, Ends, Recorded, RecentCount;
      ghost var logs := Logs();
      NonePassed(limits, logs, visits);
      dialed := [];
      for i := 0 to |visits|
        invariant Valid() && NoneEnds(limits, logs, visits, i)
        invariant forall k :: 0 <= k < i ==> breakers[k].log == Passed(limits, logs[k], visits[k])
        invariant forall k :: i <= k < |breakers| ==> breakers[k].clock <= visits[k].asked && breakers[k].log == logs[k]
        invariant dialed == Dialable(limits, logs, visits, i)
      {
        var v := visits[i];
        PassedBy(limits, logs, visits, i);
        PassedIsRecorded(limits, logs, visits, i, dialed);
        if v.cancelled {
          return Cancelled, dialed, i;
        }
        var tried := Try(breakers[i], v);
        if tried {
          dialed := dialed + [i];
          if v.connects {
            PassedIsRecorded(limits, logs, visits, i, dialed);
            return Connected(i), dialed, i;
          }
        }
      }
      PassedIsRecorded(limits, logs, visits, |visits|, dialed);
      reached := |visits|;
      outcome := if dialed == [] then NoneAvailable else AllFailed(dialed[0]);
    }
  }
}
