/** The shared conversation of the terminal UI (internal/ui/tui/compact.go and
    run.go): compaction, agent turns, /new and /resume over one guarded state. */
module Conversation {
  import opened Wrappers
  import opened Transcript

  const COMPACT_KEEP_MESSAGES := 6
  const SUMMARY_PREFIX := "[conversation-summary]\n"

  // ---- Folding a history ----

  /** Where the history is cut; the code only cuts histories longer than this keeps. */
  function Cut(history: seq<Message>): nat {
    if |history| < COMPACT_KEEP_MESSAGES then 0 else |history| - COMPACT_KEEP_MESSAGES
  }

  /** The part that is summarised, and the part that stays verbatim. */
  function Older(history: seq<Message>): seq<Message> { history[..Cut(history)] }
  function Recent(history: seq<Message>): seq<Message> { history[Cut(history)..] }

  function Folded(history: seq<Message>, summary: string): seq<Message> {
    [User(SUMMARY_PREFIX + summary)] + Recent(history)
  }

  /** The summary, announced as such, and the last six messages of what was read. */
  predicate IsCompacted(history: seq<Message>, read: seq<Message>, summary: string) {
    && |history| == 7 && |read| > 7
    && history[0] == User("[conversation-summary]\n" + summary) && history[1..] == read[|read| - 6..]
  }

  predicate TooShort(history: seq<Message>) {
    |history| <= COMPACT_KEEP_MESSAGES + 1
  }

  /** The cut ignores where tool results belong: folding a well-paired history
      gives a well-paired one exactly when the first kept message is no result. */
  lemma FoldKeepsPairingIff(history: seq<Message>, summary: string)
    requires WellPaired(history) && !TooShort(history)
    ensures WellPaired(Folded(history, summary)) <==> !Recent(history)[0].ToolResult?
  {
    var older, recent := Older(history), Recent(history);
    var p := ScanFrom(Closed, older);
    assert history == older + recent;
    ScanConcat(Closed, older, recent);
    ScanHead(p, recent);
    ScanHead(Closed, Folded(history, summary));
    assert Folded(history, summary)[1..] == recent;
    ScanHead(Closed, recent);
    BrokenStaysBroken(recent[1..]);
  }

  /** A well-paired history whose compaction orphans a tool result. */
  lemma FoldOrphansResult(summary: string)
    ensures var call := ToolCall("1", "k8s_list_pods", "{}");
            var history := [User("why?"), Assistant("", [call]), ToolResult("3 pods", "1"), Assistant("this", []),
                            User("and?"), Assistant("that", []), User("so?"), Assistant("done", [])];
            WellPaired(history) && !TooShort(history) && !WellPaired(Folded(history, summary))
  {
    var call := ToolCall("1", "k8s_list_pods", "{}");
    var history := [User("why?"), Assistant("", [call]), ToolResult("3 pods", "1"), Assistant("this", []),
                    User("and?"), Assistant("that", []), User("so?"), Assistant("done", [])];
    assert Answers(history, 1, 2);
    assert PairedByPosition(history);
    WellPairedByPosition(history);
    FoldKeepsPairingIff(history, summary);
  }

  // ---- The guarded state ----

  class ConvoState {
    var history: seq<Message>
    var version: nat
    var session: nat

    constructor (session: nat)
      ensures history == [] && version == 0 && this.session == session
    {
      history, version, this.session := [], 0, session;
    }

    method Snapshot() returns (history: seq<Message>, version: nat)
      ensures history == this.history && version == this.version
    {
      history, version := this.history, this.version;
    }

    /** The summariser's answer is folded in unless anything was written since. */
    method CommitCompaction(snapshot: seq<Message>, startVer: nat, summary: string) returns (committed: bool)
      requires !TooShort(snapshot)
      modifies this
      ensures committed <==> old(version) == startVer
      ensures history == if committed then Folded(snapshot, summary) else old(history)
      ensures committed ==> IsCompacted(history, snapshot, summary)
      ensures version == old(version) + (if committed then 1 else 0) && session == old(session)
    {
      var keep := snapshot[|snapshot| - COMPACT_KEEP_MESSAGES..];
      var newHistory := [User(SUMMARY_PREFIX + summary)] + keep;
      if version != startVer {
        return false;
      }
      history := newHistory;
      version := version + 1;
      committed := true;
    }

    /** A whole compaction that nothing interrupts; no summary means the summariser failed.
        What it leaves is too short to compact again. */
    method Compact(summary: Option<string>) returns (compacted: bool)
      modifies this
      ensures compacted <==> !TooShort(old(history)) && summary.Some?
      ensures history == if compacted then Folded(old(history), summary.value) else old(history)
      ensures compacted <==> |old(history)| > 7 && summary.Some?
      ensures compacted ==>
                && |history| == 7 && history[0] == User("[conversation-summary]\n" + summary.value)
                && history[1..] == old(history)[|old(history)| - 6..]
      ensures version == old(version) + (if compacted then 1 else 0) && session == old(session)
    {
      var snapshot, startVer := Snapshot();
      if |snapshot| <= COMPACT_KEEP_MESSAGES + 1 || summary.None? {
        return false;
      }
      compacted := CommitCompaction(snapshot, startVer, summary.value);
    }

    /** A turn writes its messages back whatever happened since it began. */
    method WriteBack(newMsgs: seq<Message>)
      modifies this
      ensures history == (if newMsgs == [] then old(history) else newMsgs)
      ensures version == old(version) + (if newMsgs == [] then 0 else 1) && session == old(session)
    {
      if |newMsgs| > 0 {
        history := newMsgs;
        version := version + 1;
      }
    }

    method SwapSession(session: nat, history: seq<Message>)
      modifies this
      ensures this.session == session && this.history == history && version == old(version) + 1
    {
      this.session := session;
      this.history := history;
      version := version + 1;
    }
  }

  // ---- Every interleaving ----

  datatype Compaction =
    | Summarizing(snapshot: seq<Message>, startVer: nat)
    | Summarized(snapshot: seq<Message>, startVer: nat, summary: string)
    | Committed
    | Aborted

  datatype Turn = Turn(snapshot: seq<Message>, startVer: nat, done: bool)

  datatype State = State(history: seq<Message>, version: nat, compactions: seq<Compaction>, turns: seq<Turn>)

  /** A failed summary is None; a turn that returns nothing writes nothing. */
  datatype Step =
    | StartCompaction
    | Summarize(c: nat, summary: Option<string>)
    | Commit(c: nat)
    | StartTurn
    | EndTurn(t: nat, newMsgs: seq<Message>)
    | Swap(history: seq<Message>)

  predicate Enabled(s: State, step: Step) {
    match step
    case StartCompaction => true
    case Summarize(c, _) => c < |s.compactions| && s.compactions[c].Summarizing?
    case Commit(c) => c < |s.compactions| && s.compactions[c].Summarized?
    case StartTurn => true
    case EndTurn(t, _) => t < |s.turns| && !s.turns[t].done
    case Swap(_) => true
  }

  predicate Commits(s: State, step: Step)
    requires Enabled(s, step)
  {
    step.Commit? && s.compactions[step.c].startVer == s.version
  }

  function Do(s: State, step: Step): State
    requires Enabled(s, step)
  {
    match step
    case StartCompaction =>
      s.(compactions := s.compactions + [if TooShort(s.history) then Aborted else Summarizing(s.history, s.version)])
    case Summarize(c, summary) =>
      var next := match summary
        case None => Aborted
        case Some(text) => Summarized(s.compactions[c].snapshot, s.compactions[c].startVer, text);
      s.(compactions := s.compactions[c := next])
    case Commit(c) =>
      var k := s.compactions[c];
      if k.startVer != s.version then s.(compactions := s.compactions[c := Aborted])
      else
        s.(compactions := s.compactions[c := Committed], history := Folded(k.snapshot, k.summary),
           version := s.version + 1)
    case StartTurn => s.(turns := s.turns + [Turn(s.history, s.version, false)])
    case EndTurn(t, newMsgs) =>
      var ended := s.(turns := s.turns[t := s.turns[t].(done := true)]);
      if newMsgs == [] then ended else ended.(history := newMsgs, version := s.version + 1)
    case Swap(history) => s.(history := history, version := s.version + 1)
  }

  predicate Writes(s: State, step: Step)
    requires Enabled(s, step)
  {
    Commits(s, step) || step.Swap? || (step.EndTurn? && step.newMsgs != [])
  }

  /** Whoever read the history at the current version read the current history. */
  ghost predicate Inv(s: State) {
    && (forall c :: 0 <= c < |s.compactions| && (s.compactions[c].Summarizing? || s.compactions[c].Summarized?) ==>
          && !TooShort(s.compactions[c].snapshot)
          && s.compactions[c].startVer <= s.version
          && (s.compactions[c].startVer == s.version ==> s.compactions[c].snapshot == s.history))
    && (forall t :: 0 <= t < |s.turns| ==>
          && s.turns[t].startVer <= s.version
          && (s.turns[t].startVer == s.version ==> s.turns[t].snapshot == s.history))
  }

  lemma StepKeepsInv(s: State, step: Step)
    requires Inv(s) && Enabled(s, step)
    ensures Inv(Do(s, step))
  {
  }

  ghost predicate IsRun(steps: seq<Step>, states: seq<State>) {
    && |states| == |steps| + 1 && states[0] == State([], 0, [], [])
    && forall i :: 0 <= i < |steps| ==>
         Enabled(states[i], steps[i]) && states[i + 1] == Do(states[i], steps[i])
  }

  lemma {:induction false} RunKeepsInv(steps: seq<Step>, states: seq<State>, i: nat)
    requires IsRun(steps, states) && i < |states|
    ensures Inv(states[i])
  {
    if i > 0 {
      RunKeepsInv(steps, states, i - 1);
      StepKeepsInv(states[i - 1], steps[i - 1]);
    }
  }

  /** A compaction that commits replaces exactly the history it read: the result
      is its summary and the last six messages of the history live just before, which
      is longer. One that does not commit leaves history and version alone. */
  lemma CommitReplacesWhatItRead(steps: seq<Step>, states: seq<State>, i: nat)
    requires IsRun(steps, states) && i < |steps| && steps[i].Commit?
    ensures var k, s, t := states[i].compactions[steps[i].c], states[i], states[i + 1];
            if Commits(s, steps[i])
            then
              && |s.history| > 7 && |t.history| == 7
              && t.history[0] == User("[conversation-summary]\n" + k.summary)
              && t.history[1..] == s.history[|s.history| - 6..]
            else t.history == s.history && t.version == s.version
  {
    RunKeepsInv(steps, states, i);
  }

  /** So what is left of the older messages is their summary: two commits of the same
      history leave the same behind only with the same summary. */
  lemma SummaryIsKept(read: seq<Message>, first: seq<Message>, summary: string, second: seq<Message>, other: string)
    requires IsCompacted(first, read, summary) && IsCompacted(second, read, other)
    ensures first == second <==> summary == other
  {
    var front := |"[conversation-summary]\n"|;
    assert first[0].content[front..] == summary && second[0].content[front..] == other;
    assert first == [first[0]] + first[1..] && second == [second[0]] + second[1..];
  }

  /** Only writes change the history, and every write moves the version on. */
  lemma {:induction false} VersionTellsWrites(steps: seq<Step>, states: seq<State>, i: nat, j: nat)
    requires IsRun(steps, states) && i <= j < |states|
    ensures states[i].version <= states[j].version
    ensures states[i].version == states[j].version ==> states[i].history == states[j].history
    ensures states[i].version == states[j].version <==>
            forall k :: i <= k < j ==> !Writes(states[k], steps[k])
    decreases j
  {
    if i < j {
      VersionTellsWrites(steps, states, i, j - 1);
      assert Enabled(states[j - 1], steps[j - 1]);
    }
  }

  /** A compaction commits exactly when nothing was written since it read the history. */
  lemma CommitsIffUndisturbed(steps: seq<Step>, states: seq<State>, i: nat, j: nat)
    requires IsRun(steps, states) && i < j < |steps|
    requires steps[i] == StartCompaction && !TooShort(states[i].history)
    requires steps[j] == Commit(|states[i].compactions|)
    ensures Commits(states[j], steps[j]) <==> forall k :: i <= k < j ==> !Writes(states[k], steps[k])
  {
    CompactionKeepsStart(steps, states, i, j);
    VersionTellsWrites(steps, states, i, j);
  }

  lemma {:induction false} CompactionKeepsStart(steps: seq<Step>, states: seq<State>, i: nat, j: nat)
    requires IsRun(steps, states) && i < j < |states|
    requires steps[i] == StartCompaction && !TooShort(states[i].history)
    ensures var c := |states[i].compactions|;
            c < |states[j].compactions|
            && (states[j].compactions[c].Summarizing? || states[j].compactions[c].Summarized? ==>
                  states[j].compactions[c].startVer == states[i].version)
    decreases j
  {
    assert Enabled(states[j - 1], steps[j - 1]);
    if i + 1 < j {
      CompactionKeepsStart(steps, states, i, j - 1);
    }
  }

  // ---- What the guard does not cover ----

  /** A turn's write-back replaces the history the turn read if nothing was
      written since; only then is nothing lost. */
  lemma TurnExtendsWhatItRead(steps: seq<Step>, states: seq<State>, i: nat)
    requires IsRun(steps, states) && i < |steps| && steps[i].EndTurn?
    requires states[i].turns[steps[i].t].startVer == states[i].version
    ensures states[i].history == states[i].turns[steps[i].t].snapshot
  {
    RunKeepsInv(steps, states, i);
  }

  lemma {:induction false} TurnKeepsStart(steps: seq<Step>, states: seq<State>, i: nat, j: nat)
    requires IsRun(steps, states) && i < j < |states| && steps[i] == StartTurn
    ensures var t := |states[i].turns|;
            t < |states[j].turns| && states[j].turns[t].startVer == states[i].version
            && states[j].turns[t].snapshot == states[i].history
    decreases j
  {
    assert Enabled(states[j - 1], steps[j - 1]);
    if i + 1 < j {
      TurnKeepsStart(steps, states, i, j - 1);
    }
  }

  /** The version a turn could have checked says exactly whether its write-back
      overwrites anything written since it began. */
  lemma WriteBackOverwritesNothingIff(steps: seq<Step>, states: seq<State>, i: nat, j: nat)
    requires IsRun(steps, states) && i < j < |steps|
    requires steps[i] == StartTurn && steps[j].EndTurn? && steps[j].t == |states[i].turns|
    ensures states[j].turns[steps[j].t].startVer == states[j].version <==>
            forall k :: i <= k < j ==> !Writes(states[k], steps[k])
  {
    TurnKeepsStart(steps, states, i, j);
    VersionTellsWrites(steps, states, i, j);
  }

  /** A turn begun while a summary is under way undoes the compaction: it has
      reported success, and the write-back restores the uncompacted history. */
  lemma TurnUndoesCompaction(history: seq<Message>, summary: string, reply: seq<Message>)
    returns (steps: seq<Step>, states: seq<State>)
    requires !TooShort(history)
    ensures IsRun(steps, states) && |steps| == 6 && states[1].history == history
    ensures steps[1] == StartCompaction && steps[2] == StartTurn
    ensures Commits(states[4], steps[4]) && states[5].history == Folded(history, summary)
    ensures steps[5] == EndTurn(0, history + reply) && states[6].history == history + reply
  {
    steps := [Swap(history), StartCompaction, StartTurn, Summarize(0, Some(summary)), Commit(0),
              EndTurn(0, history + reply)];
    var s0 := State([], 0, [], []);
    var s1 := Do(s0, steps[0]);
    var s2 := Do(s1, steps[1]);
    var s3 := Do(s2, steps[2]);
    var s4 := Do(s3, steps[3]);
    var s5 := Do(s4, steps[4]);
    var s6 := Do(s5, steps[5]);
    states := [s0, s1, s2, s3, s4, s5, s6];
  }
}
