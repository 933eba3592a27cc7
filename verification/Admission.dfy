/** ChatOps admission (internal/chatops/service.go): the idempotency table, the
    bounded queue, and their critical sections as one object each. */
module Admission {
  import opened Tables

  type Key = string

  /** 24 hours, in nanoseconds. */
  const IDEMPOTENCY_TTL := 24 * 3600 * 1_000_000_000
  const MAX_IDEMPOTENCY_ENTRIES := 10000

  // ---- What each critical section does to the state it guards ----

  function Unexpired(seen: map<Key, int>, now: int): map<Key, int> {
    map k | k in seen && seen[k] >= now - IDEMPOTENCY_TTL :: seen[k]
  }

  function Marked(seen: map<Key, int>, key: Key, now: int, evicted: set<Key>): map<Key, int> {
    var live := Unexpired(seen, now);
    if key in live then live else (live - evicted)[key := now]
  }

  datatype EnqueueOutcome = Queued | QueueClosed | Cancelled | QueueFull

  /** The select of an enqueue: a ready send and a done context race, and the
      default is taken only when neither is ready. */
  predicate EnqueueAllows(closed: bool, len: nat, depth: nat, ctxDone: bool, outcome: EnqueueOutcome) {
    match outcome
    case QueueClosed => closed
    case Queued => !closed && len < depth
    case Cancelled => !closed && ctxDone
    case QueueFull => !closed && !ctxDone && len >= depth
  }

  // ---- The objects ----

  class Queue<Job> {
    const depth: nat
    var jobs: seq<Job>
    var closed: bool
    /** How often the channel has been closed; a second time would panic. */
    ghost var closings: nat

    ghost predicate Valid()
      reads this
    {
      closings == if closed then 1 else 0
    }

    constructor (maxDepth: int)
      ensures depth == (if maxDepth <= 0 then 64 else maxDepth) && jobs == [] && !closed && Valid()
    {
      depth := if maxDepth <= 0 then 64 else maxDepth;
      jobs, closed, closings := [], false, 0;
    }

    method Enqueue(job: Job, ctxDone: bool) returns (outcome: EnqueueOutcome)
      requires Valid()
      modifies `jobs
      ensures EnqueueAllows(closed, |old(jobs)|, depth, ctxDone, outcome)
      ensures closed <==> outcome == QueueClosed
      ensures !closed && |old(jobs)| < depth ==> outcome == Queued || (outcome == Cancelled && ctxDone)
      ensures !closed && |old(jobs)| >= depth ==> outcome == if ctxDone then Cancelled else QueueFull
      ensures jobs == if outcome == Queued then old(jobs) + [job] else old(jobs)
    {
      if closed {
        return QueueClosed;
      }
      if {
        case |jobs| < depth =>
          assert closings == 0;
          jobs := jobs + [job];
          outcome := Queued;
        case ctxDone =>
          outcome := Cancelled;
        case |jobs| >= depth && !ctxDone =>
          outcome := QueueFull;
      }
    }

    method Close()
      requires Valid()
      modifies `closed, `closings
      ensures closed && Valid() && closings == 1
    {
      if !closed {
        closed := true;
        closings := closings + 1;
      }
    }
  }

  datatype HandleOutcome = Admitted | Unauthorized | Duplicate | NotQueued(why: EnqueueOutcome)

  class Service<Job> {
    const queue: Queue<Job>
    var seen: map<Key, int>

    constructor (queue: Queue<Job>)
      ensures this.queue == queue && seen == map[]
    {
      this.queue := queue;
      seen := map[];
    }

    method PruneSeen(now: int)
      modifies this
      ensures seen == Unexpired(old(seen), now)
      ensures forall k :: k in seen <==> k in old(seen) && now - old(seen)[k] <= 24 * 3600 * 1_000_000_000
      ensures forall k :: k in seen ==> seen[k] == old(seen)[k]
    {
      var cutoff := now - IDEMPOTENCY_TTL;
      var keys := seen.Keys;
      while keys != {}
        invariant keys <= seen.Keys <= old(seen).Keys
        invariant forall k :: k in seen ==> seen[k] == old(seen)[k]
        invariant forall k :: k in old(seen) && k !in keys ==> (k in seen <==> old(seen)[k] >= cutoff)
        decreases keys
      {
        var k :| k in keys;
        if seen[k] < cutoff {
          seen := seen - {k};
        }
        keys := keys - {k};
      }
    }

    method MarkSeen(key: Key, now: int) returns (ok: bool, ghost evicted: set<Key>)
      modifies this
      ensures ok <==> key !in Unexpired(old(seen), now)
      ensures ok <==> !(key in old(seen) && now - old(seen)[key] <= 24 * 3600 * 1_000_000_000)
      ensures key in seen && seen[key] == if ok then now else old(seen)[key]
      ensures forall k :: k in seen && k != key ==>
                k in old(seen) && seen[k] == old(seen)[k] && now - seen[k] <= 24 * 3600 * 1_000_000_000
      ensures forall k :: k in old(seen) && now - old(seen)[k] <= 24 * 3600 * 1_000_000_000 ==>
                k in seen || (ok && k in evicted)
      ensures |old(seen)| < 10000 ==> evicted == {}
      ensures ok ==> MayEvict(Unexpired(old(seen), now), MAX_IDEMPOTENCY_ENTRIES, evicted)
      ensures seen == Marked(old(seen), key, now, evicted)
      ensures ok ==> |seen| <= 10000
      ensures |old(seen)| <= MAX_IDEMPOTENCY_ENTRIES ==> |seen| <= MAX_IDEMPOTENCY_ENTRIES
    {
      hide Unexpired, MayEvict;
      PruneSeen(now);
      ghost var live := seen;
      SubsetSize(seen.Keys, old(seen).Keys);
      evicted := {};
      if key in seen {
        return false, {};
      }
      if |seen| >= MAX_IDEMPOTENCY_ENTRIES {
        seen, evicted := EvictForRoom(seen, MAX_IDEMPOTENCY_ENTRIES);
      } else {
        NoneToEvict(live, MAX_IDEMPOTENCY_ENTRIES);
        assert live - evicted == live;
      }
      assert seen == live - evicted;
      SizeAfterAdd(seen, key, now);
      seen := seen[key := now];
      ok := true;
    }

    method UnmarkSeen(key: Key)
      modifies this
      ensures seen == old(seen) - {key} && |seen| <= |old(seen)|
    {
      SubsetSize((seen - {key}).Keys, seen.Keys);
      seen := seen - {key};
    }

    /** One call with nothing interleaved: a key marked within the last day is refused as
        a duplicate, any other call is queued if the queue is open and has room, and a
        refused enqueue leaves no mark of its own. */
    method Handle(job: Job, key: Key, at: int, authorized: bool, ctxDone: bool)
      returns (outcome: HandleOutcome, ghost evicted: set<Key>)
      requires queue as object != this && queue.Valid()
      modifies this, queue`jobs
      ensures outcome == Unauthorized <==> !authorized
      ensures outcome == Duplicate <==> authorized && key != "" && key in Unexpired(old(seen), at)
      ensures queue.jobs == if outcome == Admitted then old(queue.jobs) + [job] else old(queue.jobs)
      ensures outcome == Duplicate <==>
                authorized && key != "" && key in old(seen) && at - old(seen)[key] <= 24 * 3600 * 1_000_000_000
      ensures outcome == Admitted ==> !queue.closed && |old(queue.jobs)| < queue.depth
      ensures outcome == Admitted && key != "" ==> key in seen && seen[key] == at
      ensures outcome == Duplicate ==> key in seen && seen[key] == old(seen)[key]
      ensures outcome.NotQueued? && key != "" ==> key !in seen
      ensures outcome.NotQueued? ==>
                outcome.why != Queued
                && EnqueueAllows(queue.closed, |old(queue.jobs)|, queue.depth, ctxDone, outcome.why)
                && (queue.closed || ctxDone || |old(queue.jobs)| >= queue.depth)
      ensures !authorized || key == "" ==> seen == old(seen)
      ensures authorized && key != "" ==>
                var marked := Marked(old(seen), key, at, evicted);
                seen == if outcome.NotQueued? then marked - {key} else marked
      ensures authorized && key != "" && key !in Unexpired(old(seen), at) ==>
                MayEvict(Unexpired(old(seen), at), MAX_IDEMPOTENCY_ENTRIES, evicted)
      ensures |old(seen)| <= MAX_IDEMPOTENCY_ENTRIES ==> |seen| <= MAX_IDEMPOTENCY_ENTRIES
    {
      evicted := {};
      if !authorized {
        return Unauthorized, {};
      }
      var marked := false;
      if key != "" {
        var ok;
        ok, evicted := MarkSeen(key, at);
        if !ok {
          return Duplicate, evicted;
        }
        marked := true;
      }
      var queued := queue.Enqueue(job, ctxDone);
      if queued != Queued {
        if marked {
          UnmarkSeen(key);
        }
        return NotQueued(queued), evicted;
      }
      outcome := Admitted;
    }
  }

  /** A delivery and its redelivery, one after the other: within a day of an admitted
      delivery the redelivery is a duplicate and queues nothing, later it is not. */
  method Redeliver<Job>(s: Service<Job>, job: Job, key: Key, at: int, again: int, ctxDone: bool)
    returns (first: HandleOutcome, second: HandleOutcome)
    requires s.queue as object != s && s.queue.Valid() && key != ""
    modifies s, s.queue`jobs
    ensures first == Admitted ==> (second == Duplicate <==> again - at <= 24 * 3600 * 1_000_000_000)
    ensures first == Admitted && second == Duplicate ==> s.queue.jobs == old(s.queue.jobs) + [job]
  {
    hide Unexpired, Marked, MayEvict;
    ghost var evicted;
    first, evicted := s.Handle(job, key, at, true, ctxDone);
    second, evicted := s.Handle(job, key, again, true, ctxDone);
  }
}
