/** The update loop of the Telegram poller (internal/chatops/telegram.go). What
    became of each update when it was handled is part of the batch. */
module TelegramPoller {

  datatype Outcome = NotPrompt | Accepted | Duplicate | Failed

  datatype Update = Update(id: int, outcome: Outcome)

  function Advance(offset: int, id: int): int {
    if id >= offset then id + 1 else offset
  }

  /** Updates below the offset are skipped, and the first failure ends the batch. */
  function AfterBatch(offset: int, batch: seq<Update>): int
    decreases |batch|
  {
    if batch == [] then offset
    else if batch[0].id < offset then AfterBatch(offset, batch[1..])
    else if batch[0].outcome == Failed then offset
    else AfterBatch(Advance(offset, batch[0].id), batch[1..])
  }

  /** The updates a batch settles: accepted, already seen, or not a prompt. */
  function Settled(offset: int, batch: seq<Update>): set<int>
    decreases |batch|
  {
    if batch == [] then {}
    else if batch[0].id < offset then Settled(offset, batch[1..])
    else if batch[0].outcome == Failed then {}
    else {batch[0].id} + Settled(Advance(offset, batch[0].id), batch[1..])
  }

  predicate Fails(offset: int, batch: seq<Update>)
    decreases |batch|
  {
    batch != []
    && if batch[0].id < offset then Fails(offset, batch[1..])
       else batch[0].outcome == Failed || Fails(Advance(offset, batch[0].id), batch[1..])
  }

  /** The update is at or above the offset and above every update before it. */
  predicate IsDue(offset: int, batch: seq<Update>, k: nat)
    requires k < |batch|
  {
    offset <= batch[k].id && forall j :: 0 <= j < k ==> batch[j].id < batch[k].id
  }

  lemma DueTail(offset: int, batch: seq<Update>, k: nat)
    requires k + 1 < |batch|
    ensures IsDue(offset, batch, k + 1) <==>
            IsDue(if batch[0].id < offset then offset else batch[0].id + 1, batch[1..], k)
  {
    var rest := batch[1..];
    assert forall j :: 0 <= j < |rest| ==> rest[j] == batch[j + 1];
    if IsDue(if batch[0].id < offset then offset else batch[0].id + 1, rest, k) {
      forall j | 0 <= j < k + 1 ensures batch[j].id < batch[k + 1].id {
        if j > 0 {
          assert rest[j - 1].id < rest[k].id;
        }
      }
    }
  }

  /** Where a batch ends: at the first due update that failed, or behind all. The offset
      is then the least that is past the updates before that point. */
  ghost predicate EndsAt(offset: int, batch: seq<Update>, n: nat, after: int, failed: bool) {
    && n <= |batch| && (failed <==> n < |batch|)
    && (forall k :: 0 <= k < n && IsDue(offset, batch, k) ==> batch[k].outcome != Failed)
    && (failed ==> IsDue(offset, batch, n) && batch[n].outcome == Failed)
    && offset <= after && (forall k :: 0 <= k < n ==> batch[k].id < after)
    && (after == offset || exists k :: 0 <= k < n && after == batch[k].id + 1)
  }

  lemma EndsTail(offset: int, batch: seq<Update>, n: nat, after: int, failed: bool)
    requires batch != []
    requires batch[0].id < offset || batch[0].outcome != Failed
    requires EndsAt(if batch[0].id < offset then offset else batch[0].id + 1, batch[1..], n, after, failed)
    ensures EndsAt(offset, batch, n + 1, after, failed)
  {
    hide IsDue;
    var rest := batch[1..];
    assert forall k :: 0 <= k < |rest| ==> rest[k] == batch[k + 1];
    forall k | 0 <= k < n + 1 && IsDue(offset, batch, k) ensures batch[k].outcome != Failed {
      if k == 0 {
        FirstDue(offset, batch);
      } else {
        DueTail(offset, batch, k - 1);
        assert IsDue(if batch[0].id < offset then offset else batch[0].id + 1, rest, k - 1);
      }
    }
    if failed {
      DueTail(offset, batch, n);
    }
    forall k | 0 <= k < n + 1 ensures batch[k].id < after {
      if k > 0 {
        assert rest[k - 1].id < after;
      }
    }
    var next := if batch[0].id < offset then offset else batch[0].id + 1;
    if after != next {
      var k :| 0 <= k < n && after == rest[k].id + 1;
      assert after == batch[k + 1].id + 1;
    }
  }

  lemma FirstDue(offset: int, batch: seq<Update>)
    requires batch != []
    ensures IsDue(offset, batch, 0) <==> offset <= batch[0].id
  {
  }

  lemma {:induction false} BatchEnds(offset: int, batch: seq<Update>) returns (n: nat)
    ensures EndsAt(offset, batch, n, AfterBatch(offset, batch), Fails(offset, batch))
    decreases |batch|
  {
    n := 0;
    if batch != [] {
      hide EndsAt;
      if batch[0].id < offset {
        n := BatchEnds(offset, batch[1..]);
        EndsTail(offset, batch, n, AfterBatch(offset, batch), Fails(offset, batch));
        n := n + 1;
      } else if batch[0].outcome == Failed {
        EndsAtOnce(offset, batch);
      } else {
        n := BatchEnds(batch[0].id + 1, batch[1..]);
        EndsTail(offset, batch, n, AfterBatch(offset, batch), Fails(offset, batch));
        n := n + 1;
      }
    }
  }

  lemma EndsAtOnce(offset: int, batch: seq<Update>)
    requires batch != [] && offset <= batch[0].id && batch[0].outcome == Failed
    ensures EndsAt(offset, batch, 0, offset, true)
  {
  }

  class Poller {
    var offset: int

    constructor (offset: int)
      ensures this.offset == offset
    {
      this.offset := offset;
    }

    method AdvanceOffset(id: int)
      modifies this
      ensures offset == Advance(old(offset), id)
    {
      if id >= offset {
        offset := id + 1;
      }
    }

    method PollOnce(batch: seq<Update>) returns (failed: bool, ghost n: nat)
      modifies this
      ensures offset == AfterBatch(old(offset), batch) && failed == Fails(old(offset), batch)
      ensures EndsAt(old(offset), batch, n, offset, failed)
    {
      n := BatchEnds(offset, batch);
      for i := 0 to |batch|
        invariant AfterBatch(offset, batch[i..]) == AfterBatch(old(offset), batch)
        invariant Fails(offset, batch[i..]) == Fails(old(offset), batch)
      {
        var update := batch[i];
        assert batch[i..][0] == update && batch[i..][1..] == batch[i + 1..];
        if update.id < offset {
          continue;
        }
        match update.outcome {
          case NotPrompt => AdvanceOffset(update.id);
          case Duplicate => AdvanceOffset(update.id);
          case Accepted => AdvanceOffset(update.id);
          case Failed => return true, n;
        }
      }
      failed := false;
    }
  }

  // ---- Runs ----

  ghost predicate IsRun(batches: seq<seq<Update>>, offsets: seq<int>) {
    && |offsets| == |batches| + 1
    && forall i :: 0 <= i < |batches| ==> offsets[i + 1] == AfterBatch(offsets[i], batches[i])
  }

  predicate Holds(batch: seq<Update>, id: int) {
    exists k :: 0 <= k < |batch| && batch[k].id == id
  }

  ghost predicate ServedBefore(batches: seq<seq<Update>>, i: nat, id: int)
    requires i <= |batches|
  {
    exists j :: 0 <= j < i && Holds(batches[j], id)
  }

  ghost predicate SettledBefore(batches: seq<seq<Update>>, offsets: seq<int>, i: nat, id: int)
    requires i <= |batches| < |offsets|
  {
    exists j :: 0 <= j < i && id in Settled(offsets[j], batches[j])
  }

  predicate Ascending(batch: seq<Update>) {
    forall j, k :: 0 <= j < k < |batch| ==> batch[j].id < batch[k].id
  }

  /** What the Bot API promises of getUpdates: ids from the offset on, in order,
      and no pending update left out below one that is served. */
  ghost predicate ServesInOrder(batches: seq<seq<Update>>, offsets: seq<int>)
    requires |offsets| == |batches| + 1
  {
    forall i :: 0 <= i < |batches| ==>
      && Ascending(batches[i])
      && (forall k :: 0 <= k < |batches[i]| ==> offsets[i] <= batches[i][k].id)
      && (forall id, k ::
            ServedBefore(batches, i, id) && 0 <= k < |batches[i]| && offsets[i] <= id < batches[i][k].id ==>
              Holds(batches[i], id))
  }

  lemma {:induction false} OffsetGrows(offset: int, batch: seq<Update>)
    ensures AfterBatch(offset, batch) >= offset
    decreases |batch|
  {
    if batch != [] && batch[0].id < offset {
      OffsetGrows(offset, batch[1..]);
    } else if batch != [] && batch[0].outcome != Failed {
      OffsetGrows(Advance(offset, batch[0].id), batch[1..]);
    }
  }

  lemma {:induction false} OffsetNeverDecreases(batches: seq<seq<Update>>, offsets: seq<int>, i: nat, j: nat)
    requires IsRun(batches, offsets) && i <= j < |offsets|
    ensures offsets[i] <= offsets[j]
    decreases j
  {
    if i < j {
      OffsetNeverDecreases(batches, offsets, i, j - 1);
      OffsetGrows(offsets[j - 1], batches[j - 1]);
    }
  }

  lemma HeldInTail(batch: seq<Update>, id: int)
    requires batch != []
    ensures Holds(batch, id) <==> batch[0].id == id || Holds(batch[1..], id)
  {
    if Holds(batch[1..], id) {
      var j :| 0 <= j < |batch[1..]| && batch[1..][j].id == id;
      assert batch[j + 1].id == id;
    }
  }

  lemma {:induction false} SettledBelow(offset: int, batch: seq<Update>, id: int)
    ensures id in Settled(offset, batch) ==> offset <= id < AfterBatch(offset, batch) && Holds(batch, id)
    decreases |batch|
  {
    if batch != [] {
      HeldInTail(batch, id);
      if batch[0].id < offset {
        SettledBelow(offset, batch[1..], id);
      } else if batch[0].outcome != Failed {
        var next := Advance(offset, batch[0].id);
        SettledBelow(next, batch[1..], id);
        OffsetGrows(next, batch[1..]);
        assert Holds(batch, batch[0].id);
      }
    }
  }

  /** In an ascending batch the new offset divides what is settled from what is not. */
  lemma {:induction false} BatchDivides(offset: int, batch: seq<Update>, k: nat)
    requires Ascending(batch) && k < |batch| && offset <= batch[k].id
    ensures batch[k].id in Settled(offset, batch) <==> batch[k].id < AfterBatch(offset, batch)
    decreases |batch|
  {
    var rest := batch[1..];
    if batch[0].id < offset {
      BatchDivides(offset, rest, k - 1);
    } else if batch[0].outcome != Failed {
      var next := Advance(offset, batch[0].id);
      OffsetGrows(next, rest);
      if k > 0 {
        BatchDivides(next, rest, k - 1);
      }
    }
  }

  lemma {:induction false} OffsetFollowsAnUpdate(offset: int, batch: seq<Update>)
    ensures AfterBatch(offset, batch) == offset || Holds(batch, AfterBatch(offset, batch) - 1)
    decreases |batch|
  {
    if batch != [] {
      HeldInTail(batch, AfterBatch(offset, batch) - 1);
      if batch[0].id < offset {
        OffsetFollowsAnUpdate(offset, batch[1..]);
      } else if batch[0].outcome != Failed {
        OffsetFollowsAnUpdate(Advance(offset, batch[0].id), batch[1..]);
      }
    }
  }

  /** Over any run against such a server, every update served so far and now
      below the offset has been settled. */
  lemma {:induction false} BelowOffsetIsSettled(batches: seq<seq<Update>>, offsets: seq<int>, i: nat, id: int)
    requires IsRun(batches, offsets) && ServesInOrder(batches, offsets) && i <= |batches|
    requires ServedBefore(batches, i, id) && id < offsets[i]
    ensures SettledBefore(batches, offsets, i, id)
  {
    var batch, offset := batches[i - 1], offsets[i - 1];
    if id < offset {
      assert !Holds(batch, id);
      BelowOffsetIsSettled(batches, offsets, i - 1, id);
    } else {
      OffsetFollowsAnUpdate(offset, batch);
      var m :| 0 <= m < |batch| && batch[m].id == offsets[i] - 1;
      assert Holds(batch, id) by {
        assert id < batch[m].id || id == batch[m].id;
        assert ServedBefore(batches, i - 1, id) || Holds(batch, id);
      }
      var k :| 0 <= k < |batch| && batch[k].id == id;
      BatchDivides(offset, batch, k);
    }
  }

  /** So an update whose handling failed stays at or above the offset, to be
      served again, until some later batch settles it. */
  lemma FailedUpdateStaysPending(batches: seq<seq<Update>>, offsets: seq<int>, i: nat, j: nat, k: nat)
    requires IsRun(batches, offsets) && ServesInOrder(batches, offsets) && j < i <= |batches|
    requires k < |batches[j]| && batches[j][k].outcome == Failed
    requires !SettledBefore(batches, offsets, i, batches[j][k].id)
    ensures offsets[i] <= batches[j][k].id
  {
    assert Holds(batches[j], batches[j][k].id);
    if batches[j][k].id < offsets[i] {
      BelowOffsetIsSettled(batches, offsets, i, batches[j][k].id);
    }
  }

  /** The loop comes to position k and looks at its update. */
  predicate Reaches(offset: int, batch: seq<Update>, k: nat)
    requires k < |batch|
  {
    !Fails(offset, batch[..k]) && batch[k].id >= AfterBatch(offset, batch[..k])
  }

  lemma ReachesTail(offset: int, batch: seq<Update>, k: nat)
    requires k + 1 < |batch| && (batch[0].id < offset || batch[0].outcome != Failed)
    ensures var next := if batch[0].id < offset then offset else Advance(offset, batch[0].id);
            Reaches(offset, batch, k + 1) <==> Reaches(next, batch[1..], k)
  {
    assert batch[..k + 1][1..] == batch[1..][..k];
  }

  /** What a batch settles it settles at some position, with an outcome other than a failure. */
  lemma {:induction false} SettledAt(offset: int, batch: seq<Update>, id: int) returns (k: nat)
    requires id in Settled(offset, batch)
    ensures k < |batch| && batch[k].id == id && batch[k].outcome != Failed && Reaches(offset, batch, k)
    decreases |batch|
  {
    hide Reaches;
    if batch[0].id >= offset && batch[0].id == id {
      FirstIsReached(offset, batch);
      k := 0;
    } else {
      var next := if batch[0].id < offset then offset else Advance(offset, batch[0].id);
      var j := SettledAt(next, batch[1..], id);
      ReachesTail(offset, batch, j);
      k := j + 1;
    }
  }

  lemma FirstIsReached(offset: int, batch: seq<Update>)
    requires batch != [] && batch[0].id >= offset
    ensures Reaches(offset, batch, 0)
  {
  }

  // ---- What blocks the poller ----

  lemma {:induction false} SettledIsPassed(batches: seq<seq<Update>>, offsets: seq<int>, i: nat, id: int)
    requires IsRun(batches, offsets) && i <= |batches| && SettledBefore(batches, offsets, i, id)
    ensures id < offsets[i]
  {
    hide Settled;
    var j :| 0 <= j < i && id in Settled(offsets[j], batches[j]);
    SettledBelow(offsets[j], batches[j], id);
    OffsetNeverDecreases(batches, offsets, j + 1, i);
  }

  /** Against an in-order server the offset has passed an update that was served exactly
      when some batch has settled it. */
  lemma PassedIffSettled(batches: seq<seq<Update>>, offsets: seq<int>, i: nat, id: int)
    requires IsRun(batches, offsets) && ServesInOrder(batches, offsets) && i <= |batches|
    requires ServedBefore(batches, i, id)
    ensures id < offsets[i] <==> SettledBefore(batches, offsets, i, id)
  {
    hide ServesInOrder, ServedBefore, SettledBefore;
    if id < offsets[i] {
      BelowOffsetIsSettled(batches, offsets, i, id);
    }
    if SettledBefore(batches, offsets, i, id) {
      SettledIsPassed(batches, offsets, i, id);
    }
  }

  /** Whenever the loop comes to the update, its handling fails. */
  ghost predicate AlwaysFails(batches: seq<seq<Update>>, offsets: seq<int>, id: int)
    requires |batches| < |offsets|
  {
    forall m, k ::
      0 <= m < |batches| && 0 <= k < |batches[m]| && batches[m][k].id == id && Reaches(offsets[m], batches[m], k) ==>
        batches[m][k].outcome == Failed
  }

  lemma NeverSettled(batches: seq<seq<Update>>, offsets: seq<int>, i: nat, id: int)
    requires i <= |batches| < |offsets| && AlwaysFails(batches, offsets, id)
    ensures !SettledBefore(batches, offsets, i, id)
  {
    hide Settled, Reaches;
    if j: nat :| j < i && id in Settled(offsets[j], batches[j]) {
      var k := SettledAt(offsets[j], batches[j], id);
    }
  }

  /** So an update whose handling always fails blocks the poller: from the batch that first
      serves it no offset passes it, and no larger id is settled. */
  lemma FailingUpdateBlocks(batches: seq<seq<Update>>, offsets: seq<int>, j: nat, i: nat, id: int)
    requires IsRun(batches, offsets) && ServesInOrder(batches, offsets) && AlwaysFails(batches, offsets, id)
    requires j <= i < |batches| && Holds(batches[j], id)
    ensures offsets[i + 1] <= id && forall later :: later in Settled(offsets[i], batches[i]) ==> later < id
  {
    hide ServesInOrder, AlwaysFails, SettledBefore, Holds, Settled;
    assert ServedBefore(batches, i + 1, id);
    PassedIffSettled(batches, offsets, i + 1, id);
    NeverSettled(batches, offsets, i + 1, id);
    forall later | later in Settled(offsets[i], batches[i]) ensures later < id {
      SettledBelow(offsets[i], batches[i], later);
    }
  }

  // ---- What exactly loses an update ----

  /** A larger id is settled at position k before the update itself has come up. */
  predicate PassedAt(offset: int, batch: seq<Update>, id: int, k: nat)
    requires k < |batch|
  {
    batch[k].id > id && !Holds(batch[..k], id) && !Fails(offset, batch[..k + 1])
  }

  predicate PassesOver(offset: int, batch: seq<Update>, id: int) {
    offset <= id && exists k :: 0 <= k < |batch| && PassedAt(offset, batch, id, k)
  }

  lemma PassedInTail(offset: int, batch: seq<Update>, id: int, k: nat)
    requires k + 1 < |batch| && batch[0].id != id && (batch[0].id < offset || batch[0].outcome != Failed)
    ensures var next := if batch[0].id < offset then offset else Advance(offset, batch[0].id);
            PassedAt(offset, batch, id, k + 1) <==> PassedAt(next, batch[1..], id, k)
  {
    HeldInTail(batch[..k + 1], id);
    assert batch[..k + 1][1..] == batch[1..][..k];
    assert batch[..k + 2][1..] == batch[1..][..k + 1];
  }

  lemma PassesOverTail(offset: int, batch: seq<Update>, id: int)
    requires batch != [] && batch[0].id != id && (batch[0].id < offset || batch[0].outcome != Failed)
    requires batch[0].id <= id
    ensures var next := if batch[0].id < offset then offset else Advance(offset, batch[0].id);
            offset <= id ==> (PassesOver(offset, batch, id) <==> PassesOver(next, batch[1..], id))
  {
    hide PassedAt;
    var next := if batch[0].id < offset then offset else Advance(offset, batch[0].id);
    assert !PassedAt(offset, batch, id, 0) by {
      NotPassedByLess(offset, batch, id);
    }
    forall k: nat | k + 1 < |batch|
      ensures PassedAt(offset, batch, id, k + 1) <==> PassedAt(next, batch[1..], id, k)
    {
      PassedInTail(offset, batch, id, k);
    }
    if k: nat :| k < |batch| && PassedAt(offset, batch, id, k) {
      assert PassedAt(next, batch[1..], id, k - 1);
    }
    if k: nat :| k < |batch[1..]| && PassedAt(next, batch[1..], id, k) {
      assert PassedAt(offset, batch, id, k + 1);
    }
  }

  lemma NotPassedByLess(offset: int, batch: seq<Update>, id: int)
    requires batch != [] && batch[0].id <= id
    ensures !PassedAt(offset, batch, id, 0)
  {
  }

  /** The first update ends the matter: the pending one is settled, passed or kept. */
  lemma PassesOverHead(offset: int, batch: seq<Update>, id: int)
    requires batch != [] && offset <= id
    ensures batch[0].id >= offset && batch[0].outcome == Failed ==> !PassesOver(offset, batch, id)
    ensures batch[0].id == id ==> !PassesOver(offset, batch, id)
    ensures batch[0].id > id && batch[0].outcome != Failed ==> PassesOver(offset, batch, id)
  {
    if batch[0].id > id && batch[0].outcome != Failed {
      assert batch[..1][1..] == [];
      assert PassedAt(offset, batch, id, 0);
    }
    forall k | 0 <= k < |batch| && PassedAt(offset, batch, id, k)
      ensures batch[0].id != id && !(batch[0].id >= offset && batch[0].outcome == Failed)
    {
      assert batch[..k + 1][0] == batch[0];
      assert k > 0 ==> batch[..k][0] == batch[0];
    }
  }

  /** A batch leaves a pending update behind, unsettled below the offset, exactly
      when it settles a larger id before the update comes up in it. */
  lemma {:induction false} LeftBehindIff(offset: int, batch: seq<Update>, id: int)
    requires offset <= id
    ensures id < AfterBatch(offset, batch) && id !in Settled(offset, batch) <==> PassesOver(offset, batch, id)
    decreases |batch|
  {
    hide PassesOver;
    if batch == [] {
      NothingPassed(offset, id);
    } else {
      PassesOverHead(offset, batch, id);
      if batch[0].id < offset {
        PassesOverTail(offset, batch, id);
        LeftBehindIff(offset, batch[1..], id);
      } else if batch[0].outcome != Failed {
        var next := Advance(offset, batch[0].id);
        if batch[0].id < id {
          PassesOverTail(offset, batch, id);
          LeftBehindIff(next, batch[1..], id);
        } else {
          SettledBelow(next, batch[1..], id);
          OffsetGrows(next, batch[1..]);
        }
      }
    }
  }

  lemma NothingPassed(offset: int, id: int)
    ensures !PassesOver(offset, [], id)
  {
  }

  /** The offset has passed the update since batch j, and no batch since settled it. */
  ghost predicate Lost(batches: seq<seq<Update>>, offsets: seq<int>, j: nat, i: nat, id: int)
    requires j <= i <= |batches| < |offsets|
  {
    id < offsets[i] && forall m :: j <= m < i ==> id !in Settled(offsets[m], batches[m])
  }

  ghost predicate PassedOverSince(batches: seq<seq<Update>>, offsets: seq<int>, j: nat, i: nat, id: int)
    requires j <= i <= |batches| < |offsets|
  {
    exists m :: j <= m < i && PassesOver(offsets[m], batches[m], id)
  }

  /** Whatever the server sends, an update pending at batch j, failed or not, is lost by
      batch i exactly when some batch in between settled a larger id before the update
      came up in it. */
  lemma {:induction false} LostIffPassedOver(batches: seq<seq<Update>>, offsets: seq<int>, j: nat, i: nat, id: int)
    requires IsRun(batches, offsets) && j <= i <= |batches| && offsets[j] <= id
    ensures Lost(batches, offsets, j, i, id) <==> PassedOverSince(batches, offsets, j, i, id)
    decreases i
  {
    if j < i {
      hide Settled, PassesOver, AfterBatch;
      var m := i - 1;
      LostIffPassedOver(batches, offsets, j, m, id);
      OffsetNeverDecreases(batches, offsets, m, i);
      SettledBelow(offsets[m], batches[m], id);
      assert offsets[i] == AfterBatch(offsets[m], batches[m]);
      PassedNeedsPending(offsets[m], batches[m], id);
      if offsets[m] <= id {
        LeftBehindIff(offsets[m], batches[m], id);
      }
      LostStep(batches, offsets, j, m, id);
    }
  }

  lemma PassedNeedsPending(offset: int, batch: seq<Update>, id: int)
    ensures PassesOver(offset, batch, id) ==> offset <= id
  {
  }

  lemma LostStep(batches: seq<seq<Update>>, offsets: seq<int>, j: nat, m: nat, id: int)
    requires IsRun(batches, offsets) && j <= m < |batches| && offsets[m] <= offsets[m + 1]
    requires Lost(batches, offsets, j, m, id) <==> PassedOverSince(batches, offsets, j, m, id)
    requires id in Settled(offsets[m], batches[m]) || PassesOver(offsets[m], batches[m], id) ==> offsets[m] <= id
    requires offsets[m] <= id ==> (id < offsets[m + 1] && id !in Settled(offsets[m], batches[m]) <==>
                                   PassesOver(offsets[m], batches[m], id))
    ensures Lost(batches, offsets, j, m + 1, id) <==> PassedOverSince(batches, offsets, j, m + 1, id)
  {
    hide Settled, AfterBatch, PassesOver;
    if id < offsets[m] {
      assert PassedOverSince(batches, offsets, j, m + 1, id) <==> PassedOverSince(batches, offsets, j, m, id);
    } else {
      forall k | j <= k < m
        ensures id !in Settled(offsets[k], batches[k]) && !PassesOver(offsets[k], batches[k], id)
      {
        StillPending(batches, offsets, k, m, id);
      }
      assert PassedOverSince(batches, offsets, j, m + 1, id) <==> PassesOver(offsets[m], batches[m], id);
    }
  }

  lemma StillPending(batches: seq<seq<Update>>, offsets: seq<int>, k: nat, m: nat, id: int)
    requires IsRun(batches, offsets) && k < m <= |batches| && offsets[m] <= id
    ensures id !in Settled(offsets[k], batches[k]) && !PassesOver(offsets[k], batches[k], id)
  {
    hide PassesOver;
    OffsetNeverDecreases(batches, offsets, k + 1, m);
    SettledBelow(offsets[k], batches[k], id);
    PassedNeedsPending(offsets[k], batches[k], id);
    if offsets[k] <= id {
      LeftBehindIff(offsets[k], batches[k], id);
    }
  }

  /** One poller settles an update in at most one batch, whatever the server repeats. */
  lemma SettledAtMostOnce(batches: seq<seq<Update>>, offsets: seq<int>, i: nat, j: nat, id: int)
    requires IsRun(batches, offsets) && i < |batches| && j < |batches|
    requires id in Settled(offsets[i], batches[i]) && id in Settled(offsets[j], batches[j])
    ensures i == j
  {
    hide Settled;
    SettledBelow(offsets[i], batches[i], id);
    SettledBelow(offsets[j], batches[j], id);
    if i < j {
      OffsetNeverDecreases(batches, offsets, i + 1, j);
    } else if j < i {
      OffsetNeverDecreases(batches, offsets, j + 1, i);
    }
  }

  /** Ascending batches alone are not enough: a server that leaves a failed
      update out of the next batch makes the poller lose it. */
  lemma OmittedUpdateIsLost()
    ensures var batches := [[Update(5, Failed)], [Update(7, Accepted)]];
            var offsets := [0, 0, 8];
            IsRun(batches, offsets) && Ascending(batches[0]) && Ascending(batches[1])
            && !SettledBefore(batches, offsets, 2, 5)
  {
    var batches := [[Update(5, Failed)], [Update(7, Accepted)]];
    assert batches[1][1..] == [] && AfterBatch(8, []) == 8;
    assert AfterBatch(0, batches[1]) == AfterBatch(8, batches[1][1..]);
    assert Settled(0, batches[0]) == {};
    assert Settled(0, batches[1]) == {7} + Settled(8, batches[1][1..]) == {7};
  }

  /** Nor is it enough that the batch holds the update, if a larger id comes first. */
  lemma UpdateOutOfOrderIsLost()
    ensures var batch := [Update(7, Accepted), Update(5, Accepted)];
            IsRun([batch], [0, 8]) && Holds(batch, 5) && !SettledBefore([batch], [0, 8], 1, 5)
  {
    var batch := [Update(7, Accepted), Update(5, Accepted)];
    assert batch[1].id == 5;
    PassesOverHead(0, batch, 5);
    LeftBehindIff(0, batch, 5);
    assert batch[1..][0] == Update(5, Accepted) && batch[1..][1..] == [] && AfterBatch(8, []) == 8;
    assert AfterBatch(0, batch) == AfterBatch(8, batch[1..]) == 8;
  }
}
