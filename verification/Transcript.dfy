/** Conversation messages (internal/core/llm/provider.go) and the pairing of
    tool calls with their results that every transcript has to keep. */
module Transcript {

  datatype ToolCall = ToolCall(id: string, name: string, args: string)

  datatype Message =
    | System(content: string)
    | User(content: string)
    | Assistant(content: string, calls: seq<ToolCall>)
    | ToolResult(content: string, callId: string)

  // ---- Pairing, as a scan ----

  /** Reading a transcript: nothing open, an assistant's calls with the first
      `answered` of them answered, or a transcript already broken. */
  datatype Pairing = Closed | Open(calls: seq<ToolCall>, answered: nat) | Broken

  /** Anything but a result may follow once at least one call is answered. */
  function Next(p: Pairing, m: Message): Pairing {
    if p == Broken then Broken
    else if m.ToolResult? then
      if p.Open? && p.answered < |p.calls| && m.callId == p.calls[p.answered].id
      then Open(p.calls, p.answered + 1) else Broken
    else if p.Open? && p.answered == 0 then Broken
    else if m.Assistant? && m.calls != [] then Open(m.calls, 0)
    else Closed
  }

  function ScanFrom(p: Pairing, msgs: seq<Message>): Pairing {
    if msgs == [] then p else Next(ScanFrom(p, msgs[..|msgs| - 1]), msgs[|msgs| - 1])
  }

  predicate Settled(p: Pairing) {
    p != Broken && (p.Open? ==> p.answered > 0)
  }

  /** Every assistant message with tool calls is followed at once by results for
      a non-empty prefix of its calls, in order, and no result stands elsewhere. */
  predicate WellPaired(msgs: seq<Message>) {
    Settled(ScanFrom(Closed, msgs))
  }

  lemma {:induction false} ScanConcat(p: Pairing, xs: seq<Message>, ys: seq<Message>)
    ensures ScanFrom(p, xs + ys) == ScanFrom(ScanFrom(p, xs), ys)
  {
    if ys == [] {
      assert xs + ys == xs;
    } else {
      var n := |ys| - 1;
      ScanConcat(p, xs, ys[..n]);
      assert (xs + ys)[..|xs + ys| - 1] == xs + ys[..n];
    }
  }

  lemma ScanSnoc(p: Pairing, msgs: seq<Message>, m: Message)
    ensures ScanFrom(p, msgs + [m]) == Next(ScanFrom(p, msgs), m)
  {
    assert (msgs + [m])[..|msgs|] == msgs;
  }

  lemma ScanHead(p: Pairing, msgs: seq<Message>)
    requires msgs != []
    ensures ScanFrom(p, msgs) == ScanFrom(Next(p, msgs[0]), msgs[1..])
  {
    assert msgs == [msgs[0]] + msgs[1..];
    ScanConcat(p, [msgs[0]], msgs[1..]);
    assert [msgs[0]][..0] == [];
  }

  lemma {:induction false} BrokenStaysBroken(msgs: seq<Message>)
    ensures ScanFrom(Broken, msgs) == Broken
  {
    if msgs != [] {
      BrokenStaysBroken(msgs[..|msgs| - 1]);
    }
  }

  // ---- Pairing, by position ----

  /** The result at i answers the assistant message at a, counting from it. */
  ghost predicate Answers(msgs: seq<Message>, a: nat, i: nat)
    requires a < i < |msgs|
  {
    && msgs[a].Assistant? && i - a <= |msgs[a].calls|
    && msgs[i].ToolResult? && msgs[i].callId == msgs[a].calls[i - a - 1].id
    && (forall j :: a < j < i ==> msgs[j].ToolResult?)
  }

  ghost predicate OwnedResults(msgs: seq<Message>) {
    forall i :: 0 <= i < |msgs| && msgs[i].ToolResult? ==> exists a :: 0 <= a < i && Answers(msgs, a, i)
  }

  ghost predicate CallsFollowedUp(msgs: seq<Message>, upTo: int) {
    forall i :: 0 <= i < upTo && i < |msgs| && msgs[i].Assistant? && msgs[i].calls != [] ==>
      i + 1 < |msgs| && msgs[i + 1].ToolResult?
  }

  ghost predicate PairedByPosition(msgs: seq<Message>) {
    OwnedResults(msgs) && CallsFollowedUp(msgs, |msgs|)
  }

  /** What the scan's state says about the end of the transcript. */
  ghost predicate EndsAs(msgs: seq<Message>, p: Pairing) {
    match p
    case Broken => false
    case Closed =>
      msgs == [] || !(msgs[|msgs| - 1].ToolResult? || (msgs[|msgs| - 1].Assistant? && msgs[|msgs| - 1].calls != []))
    case Open(calls, answered) =>
      && answered < |msgs| && answered <= |calls| && calls != []
      && msgs[|msgs| - 1 - answered].Assistant? && msgs[|msgs| - 1 - answered].calls == calls
      && forall j :: |msgs| - answered <= j < |msgs| ==> msgs[j].ToolResult?
  }

  lemma OwnersExtend(msgs: seq<Message>, m: Message, i: nat)
    requires OwnedResults(msgs) && i < |msgs| && msgs[i].ToolResult?
    ensures exists a :: 0 <= a < i && Answers(msgs + [m], a, i)
  {
    var a :| 0 <= a < i && Answers(msgs, a, i);
    assert forall j :: a <= j < |msgs| ==> (msgs + [m])[j] == msgs[j];
    assert Answers(msgs + [m], a, i);
  }

  /** Only the assistant message the open calls came from can own the next result. */
  lemma OwnerIsOpen(msgs: seq<Message>, m: Message, p: Pairing, a: nat)
    requires EndsAs(msgs, p) && a < |msgs| && Answers(msgs + [m], a, |msgs|)
    ensures p.Open? && a == |msgs| - 1 - p.answered
  {
    var all, n := msgs + [m], |msgs|;
    assert all[a] == msgs[a] && all[n - 1] == msgs[n - 1];
    assert a == n - 1 || all[n - 1].ToolResult?;
    assert p.Open?;
    var owner := n - 1 - p.answered;
    assert all[owner] == msgs[owner];
    assert a >= owner;
  }

  lemma ResultOwner(msgs: seq<Message>, m: Message, p: Pairing)
    requires OwnedResults(msgs) && EndsAs(msgs, p) && m.ToolResult?
    ensures OwnedResults(msgs + [m]) <==> Next(p, m) != Broken
    ensures Next(p, m) != Broken ==> EndsAs(msgs + [m], Next(p, m))
  {
    var all, n := msgs + [m], |msgs|;
    if OwnedResults(all) {
      assert all[n].ToolResult?;
      var a :| 0 <= a < n && Answers(all, a, n);
      OwnerIsOpen(msgs, m, p, a);
      assert Next(p, m) != Broken;
    }
    if Next(p, m) != Broken {
      assert Answers(all, n - 1 - p.answered, n);
      forall i | 0 <= i < |all| && all[i].ToolResult? ensures exists a :: 0 <= a < i && Answers(all, a, i) {
        if i < n {
          OwnersExtend(msgs, m, i);
        }
      }
    }
  }

  lemma OthersKeepOwners(msgs: seq<Message>, m: Message)
    requires !m.ToolResult?
    ensures OwnedResults(msgs + [m]) <==> OwnedResults(msgs)
  {
    var all := msgs + [m];
    if OwnedResults(msgs) {
      forall i | 0 <= i < |all| && all[i].ToolResult? ensures exists a :: 0 <= a < i && Answers(all, a, i) {
        OwnersExtend(msgs, m, i);
      }
    }
    if OwnedResults(all) {
      PrefixOwners(msgs, m);
    }
  }

  lemma PrefixOwners(msgs: seq<Message>, m: Message)
    requires OwnedResults(msgs + [m])
    ensures OwnedResults(msgs)
  {
    var all := msgs + [m];
    forall i | 0 <= i < |msgs| && msgs[i].ToolResult? ensures exists a :: 0 <= a < i && Answers(msgs, a, i) {
      assert all[i].ToolResult?;
      var a :| 0 <= a < i && Answers(all, a, i);
      assert forall j :: a <= j < |msgs| ==> msgs[j] == all[j];
      assert Answers(msgs, a, i);
    }
  }

  /** The last message leaves its calls unanswered. */
  predicate EndsUnanswered(msgs: seq<Message>) {
    msgs != [] && msgs[|msgs| - 1].Assistant? && msgs[|msgs| - 1].calls != []
  }

  lemma FollowUpSnoc(msgs: seq<Message>, m: Message)
    ensures CallsFollowedUp(msgs + [m], |msgs|) <==>
            CallsFollowedUp(msgs, |msgs| - 1) && (EndsUnanswered(msgs) ==> m.ToolResult?)
  {
    var all, n := msgs + [m], |msgs|;
    assert all[n] == m && forall i :: 0 <= i < n ==> all[i] == msgs[i];
    if CallsFollowedUp(all, n) {
      forall i | 0 <= i < n - 1 && msgs[i].Assistant? && msgs[i].calls != []
        ensures i + 1 < n && msgs[i + 1].ToolResult?
      {
        assert all[i].Assistant? && all[i + 1] == msgs[i + 1];
      }
      assert EndsUnanswered(msgs) ==> all[n - 1].Assistant? && all[n - 1].calls != [];
      assert CallsFollowedUp(msgs, n - 1);
    }
    if CallsFollowedUp(msgs, n - 1) && (EndsUnanswered(msgs) ==> m.ToolResult?) {
      forall i | 0 <= i < n && all[i].Assistant? && all[i].calls != []
        ensures i + 1 < |all| && all[i + 1].ToolResult?
      {
        assert msgs[i].Assistant?;
        assert i < n - 1 ==> all[i + 1] == msgs[i + 1];
      }
    }
  }

  lemma OtherEnds(msgs: seq<Message>, m: Message, p: Pairing)
    requires EndsAs(msgs, p) && !m.ToolResult?
    ensures Next(p, m) != Broken <==> !EndsUnanswered(msgs)
    ensures Next(p, m) != Broken ==> EndsAs(msgs + [m], Next(p, m))
  {
  }

  lemma {:induction false} ScanByPosition(msgs: seq<Message>)
    ensures ScanFrom(Closed, msgs) != Broken <==> OwnedResults(msgs) && CallsFollowedUp(msgs, |msgs| - 1)
    ensures ScanFrom(Closed, msgs) != Broken ==> EndsAs(msgs, ScanFrom(Closed, msgs))
  {
    if msgs != [] {
      var front, m := msgs[..|msgs| - 1], msgs[|msgs| - 1];
      assert msgs == front + [m];
      hide Answers, OwnedResults, CallsFollowedUp, EndsAs, EndsUnanswered;
      ScanByPosition(front);
      FollowUpSnoc(front, m);
      if OwnedResults(msgs) {
        PrefixOwners(front, m);
      }
      var p := ScanFrom(Closed, front);
      if p != Broken {
        if m.ToolResult? {
          ResultOwner(front, m, p);
        } else {
          OthersKeepOwners(front, m);
          OtherEnds(front, m, p);
        }
      }
    }
  }

  /** The scan accepts exactly the transcripts that are paired position by position. */
  lemma WellPairedByPosition(msgs: seq<Message>)
    ensures WellPaired(msgs) <==> PairedByPosition(msgs)
  {
    ScanByPosition(msgs);
    if msgs != [] && ScanFrom(Closed, msgs) != Broken {
      var p, m := ScanFrom(Closed, msgs), msgs[|msgs| - 1];
      assert p.Open? && p.answered == 0 <==> m.Assistant? && m.calls != [];
    }
  }

  // ---- Dropping system messages ----

  function StripSystem(msgs: seq<Message>): seq<Message> {
    if msgs == [] then []
    else
      var m := msgs[|msgs| - 1];
      StripSystem(msgs[..|msgs| - 1]) + if m.System? then [] else [m]
  }

  lemma {:induction false} StripJoins(xs: seq<Message>, ys: seq<Message>)
    ensures StripSystem(xs + ys) == StripSystem(xs) + StripSystem(ys)
  {
    if ys == [] {
      assert xs + ys == xs;
    } else {
      var n, all := |ys| - 1, xs + ys;
      StripJoins(xs, ys[..n]);
      StripLast(all);
      StripLast(ys);
      assert all[..|all| - 1] == xs + ys[..n];
      hide StripSystem;
      assert all[|all| - 1] == ys[n];
    }
  }

  lemma StripLast(msgs: seq<Message>)
    requires msgs != []
    ensures var m := msgs[|msgs| - 1];
            StripSystem(msgs) == StripSystem(msgs[..|msgs| - 1]) + if m.System? then [] else [m]
  {
  }

  /** Every message is kept or dropped on its own, and only system messages are dropped. */
  lemma StripEach(msgs: seq<Message>, m: Message, more: seq<Message>)
    ensures StripSystem(msgs + [m] + more) ==
            StripSystem(msgs) + (if m.System? then [] else [m]) + StripSystem(more)
  {
    var middle := msgs + [m];
    StripJoins(middle, more);
    StripLast(middle);
    assert middle[..|msgs|] == msgs;
  }

  predicate NoSystem(msgs: seq<Message>) {
    forall i :: 0 <= i < |msgs| ==> !msgs[i].System?
  }

  lemma {:induction false} StripRemovesSystem(msgs: seq<Message>)
    ensures NoSystem(StripSystem(msgs))
    ensures NoSystem(msgs) ==> StripSystem(msgs) == msgs
  {
    if msgs != [] {
      StripRemovesSystem(msgs[..|msgs| - 1]);
    }
  }

  /** A stripped system message may leave calls open that it had closed. */
  predicate StripRelated(p: Pairing, q: Pairing) {
    q == p || (p == Closed && q.Open? && q.answered > 0)
  }

  lemma StripStep(p: Pairing, q: Pairing, m: Message)
    requires StripRelated(p, q) && Next(p, m) != Broken
    ensures if m.System? then StripRelated(Next(p, m), q) else StripRelated(Next(p, m), Next(q, m))
  {
  }

  lemma {:induction false} StripScan(msgs: seq<Message>)
    requires ScanFrom(Closed, msgs) != Broken
    ensures StripRelated(ScanFrom(Closed, msgs), ScanFrom(Closed, StripSystem(msgs)))
  {
    if msgs != [] {
      var front, m := msgs[..|msgs| - 1], msgs[|msgs| - 1];
      StripScan(front);
      StripStep(ScanFrom(Closed, front), ScanFrom(Closed, StripSystem(front)), m);
      hide Next;
      if m.System? {
        assert StripSystem(msgs) == StripSystem(front);
      } else {
        ScanSnoc(Closed, StripSystem(front), m);
      }
    }
  }

  lemma StripKeepsPairing(msgs: seq<Message>)
    requires WellPaired(msgs)
    ensures WellPaired(StripSystem(msgs))
  {
    StripScan(msgs);
  }
}
