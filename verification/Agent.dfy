/** The ReAct loop of internal/core/agent/agent.go with the duplicate-call hook
    of internal/core/agent/hook.go. What the provider, the clock, the tools and
    the other hooks do at each step is an input. */
module Agent {
  import opened Wrappers
  import opened Transcript
  import opened ToolStream

  // ---- Duplicate calls ----

  /** Two calls leave the same fingerprint. */
  predicate Alike(digest: string -> string, c: ToolCall, d: ToolCall) {
    digest(c.name + c.args) == digest(d.name + d.args)
  }

  /** The log ends in three calls with one fingerprint. */
  predicate Repeats(digest: string -> string, log: seq<ToolCall>) {
    var n := |log|;
    n >= 3 && Alike(digest, log[n - 1], log[n - 2]) && Alike(digest, log[n - 2], log[n - 3])
  }

  /** How many calls at the end of the log share its last fingerprint. */
  function TrailingRun(digest: string -> string, log: seq<ToolCall>): (r: nat)
    ensures log != [] ==> r > 0
  {
    var n := |log|;
    if n == 0 then 0
    else if n == 1 || !Alike(digest, log[n - 1], log[n - 2]) then 1
    else TrailingRun(digest, log[..n - 1]) + 1
  }

  lemma RunOfThree(digest: string -> string, log: seq<ToolCall>)
    ensures TrailingRun(digest, log) >= 3 <==> Repeats(digest, log)
  {
    var n := |log|;
    if n >= 2 {
      var front := log[..n - 1];
      assert TrailingRun(digest, front) >= 1;
      assert TrailingRun(digest, front) >= 2 <==> n >= 3 && Alike(digest, front[n - 2], front[n - 3]);
    }
  }

  predicate Injective(digest: string -> string, calls: seq<ToolCall>) {
    forall i, j :: 0 <= i < |calls| && 0 <= j < |calls| && Alike(digest, calls[i], calls[j]) ==>
      calls[i].name + calls[i].args == calls[j].name + calls[j].args
  }

  predicate IsJsonSpace(c: char) { c in [' ', '\t', '\n', '\r'] }

  /** White space, then a brace: how the text of a JSON object begins. */
  predicate BeginsObject(args: string) {
    args != "" && (args[0] == '{' || (IsJsonSpace(args[0]) && BeginsObject(args[1..])))
  }

  /** Names hold neither braces nor white space, and arguments are objects. */
  predicate NameThenObject(c: ToolCall) {
    && (forall i :: 0 <= i < |c.name| ==> c.name[i] != '{' && !IsJsonSpace(c.name[i]))
    && BeginsObject(c.args)
  }

  /** Name and arguments are hashed without a separator, yet without a hash
      collision the fingerprint still tells calls apart. */
  lemma AlikeIffSame(digest: string -> string, c: ToolCall, d: ToolCall)
    requires Injective(digest, [c, d]) && NameThenObject(c) && NameThenObject(d)
    ensures Alike(digest, c, d) <==> c.name == d.name && c.args == d.args
  {
    if Alike(digest, c, d) {
      assert [c, d][0] == c && [c, d][1] == d;
      var s := c.name + c.args;
      assert s == d.name + d.args;
      assert s[|c.name|] == c.args[0] && s[|d.name|] == d.args[0];
      assert forall k :: 0 <= k < |c.name| ==> s[k] == c.name[k];
      assert forall k :: 0 <= k < |d.name| ==> s[k] == d.name[k];
      assert |c.name| == |d.name|;
      assert s[..|c.name|] == c.name && s[|c.name|..] == c.args;
      assert s[..|d.name|] == d.name && s[|d.name|..] == d.args;
    }
  }

  /** A name that ends in white space would not be told from white space before
      the arguments, under any hash. */
  lemma SpacedNameCollides(digest: string -> string)
    ensures Alike(digest, ToolCall("1", "a ", "{}"), ToolCall("2", "a", " {}"))
  {
    assert "a " + "{}" == "a" + " {}";
  }

  class DupCallHook {
    const digest: string -> string
    var last: string
    var count: nat
    ghost var attempts: seq<ToolCall>

    ghost predicate Valid()
      reads this
    {
      && count == TrailingRun(digest, attempts)
      && (attempts != [] ==> var c := attempts[|attempts| - 1]; last == digest(c.name + c.args))
      && (attempts == [] ==> last == "")
    }

    constructor (digest: string -> string)
      ensures Valid() && this.digest == digest && attempts == []
    {
      this.digest := digest;
      last, count, attempts := "", 0, [];
    }

    /** A call is refused exactly when it is the third in a row with its fingerprint. */
    method BeforeToolCall(call: ToolCall) returns (refused: bool)
      requires Valid()
      modifies this
      ensures Valid() && attempts == old(attempts) + [call]
      ensures refused <==> Repeats(digest, attempts)
      ensures var n := |attempts|;
              refused <==>
                && n >= 3
                && (forall i, j :: n - 3 <= i < n && n - 3 <= j < n ==>
                      digest(attempts[i].name + attempts[i].args) == digest(attempts[j].name + attempts[j].args))
    {
      var hash := digest(call.name + call.args);
      RunOfThree(digest, attempts + [call]);
      assert (attempts + [call])[..|attempts|] == attempts;
      refused := false;
      if hash == last {
        count := count + 1;
        refused := count >= 3;
      } else {
        last := hash;
        count := 1;
      }
      attempts := attempts + [call];
    }
  }

  // ---- One run of the loop ----

  /** What becomes of a call the duplicate hook let through: another hook refuses
      it, the tool runs, or a hook aborts once it has run. */
  datatype Handling = Vetoed(reason: string) | Ran(text: string) | Rejected(reason: string)

  /** One loop step: the deadline has passed, the provider's stream (None if it
      does not start), which usage report hooks refuse, and each call's handling. */
  datatype Step = Step(late: bool, reply: Option<seq<Chunk>>, refused: Option<nat>, handling: nat -> Handling)

  /** One entry in steps for each step the run may take. */
  datatype Turn = Turn(prompt: Option<string>, input: string, steps: seq<Step>)

  datatype Ending =
    | NotStarted
    | Answered(step: nat)
    | Interrupted(step: nat)
    | Aborted(step: nat, call: nat, reason: string)
    | StepsExhausted

  const DUPLICATE := "agent: duplicate tool call detected (model stuck in loop)"

  function Reply(s: Step): Option<Message> {
    match s.reply
    case None => None
    case Some(ch) => TurnOf(ch, s.refused, "", [])
  }

  function CallsOf(s: Step): seq<ToolCall> {
    match Reply(s)
    case Some(Assistant(_, calls)) => calls
    case _ => []
  }

  function Opening(prompt: string, history: seq<Message>, input: string): seq<Message> {
    [System(prompt)] + StripSystem(history) + [User(input)]
  }

  function ResultText(h: Handling): string {
    match h
    case Vetoed(reason) => "error: " + reason
    case Ran(text) => text
    case Rejected(reason) => "error: " + reason
  }

  /** The results of the first n calls. */
  function Results(s: Step, n: nat): seq<Message>
    requires n <= |CallsOf(s)|
  {
    if n == 0 then []
    else
      Results(s, n - 1) + [ToolResult(ResultText(s.handling(n - 1)), CallsOf(s)[n - 1].id)]
  }

  /** The answer of a step and the results of all its calls. */
  function Round(s: Step): seq<Message> {
    match Reply(s)
    case None => []
    case Some(m) => [m] + Results(s, |CallsOf(s)|)
  }

  function Rounds(steps: seq<Step>, n: nat): seq<Message>
    requires n <= |steps|
  {
    if n == 0 then [] else Rounds(steps, n - 1) + Round(steps[n - 1])
  }

  /** The calls made in the first n steps. */
  function CallsIn(steps: seq<Step>, n: nat): seq<ToolCall>
    requires n <= |steps|
  {
    if n == 0 then [] else CallsIn(steps, n - 1) + CallsOf(steps[n - 1])
  }

  predicate AllRan(s: Step, n: nat) {
    forall j :: 0 <= j < n ==> s.handling(j).Ran?
  }

  /** The first n steps all answered with calls, and every call ran. */
  ghost predicate Continued(steps: seq<Step>, n: nat)
    requires n <= |steps|
  {
    forall i :: 0 <= i < n ==>
      var s := steps[i];
      !s.late && Reply(s).Some? && CallsOf(s) != [] && AllRan(s, |CallsOf(s)|)
  }

  /** Appending calls to the log never made it end in a repeat. */
  ghost predicate NoRepeats(digest: string -> string, log: seq<ToolCall>, from: nat) {
    forall n :: from < n <= |log| ==> !Repeats(digest, log[..n])
  }

  /** Call j ends the run: the calls before it ran, it is refused as a repeat, or
      handled with an error. */
  ghost predicate AbortsAt(digest: string -> string, log: seq<ToolCall>, from: nat, s: Step, j: nat, reason: string) {
    && j < |CallsOf(s)| && AllRan(s, j)
    && NoRepeats(digest, log + CallsOf(s)[..j], from)
    && if Repeats(digest, log + CallsOf(s)[..j + 1]) then reason == DUPLICATE
       else !s.handling(j).Ran? && reason == s.handling(j).reason
  }

  /** The steps that ended with all their calls answered. */
  function StepsDone(t: Turn, ending: Ending): nat {
    match ending
    case Answered(k) => k
    case Interrupted(k) => k
    case Aborted(k, _, _) => k
    case StepsExhausted => |t.steps|
    case NotStarted => 0
  }

  /** How the run ends, and that it could not have ended before. */
  ghost predicate Ends(digest: string -> string, log: seq<ToolCall>, t: Turn, ending: Ending) {
    var k := StepsDone(t, ending);
    && ending != NotStarted && k <= |t.steps| && Continued(t.steps, k)
    && NoRepeats(digest, log + CallsIn(t.steps, k), |log|)
    && match ending
       case Answered(_) => k < |t.steps| && !t.steps[k].late && Reply(t.steps[k]).Some? && CallsOf(t.steps[k]) == []
       case Interrupted(_) => k < |t.steps| && (t.steps[k].late || Reply(t.steps[k]).None?)
       case Aborted(_, j, reason) =>
         && k < |t.steps| && !t.steps[k].late && Reply(t.steps[k]).Some?
         && AbortsAt(digest, log + CallsIn(t.steps, k), |log|, t.steps[k], j, reason)
       case StepsExhausted => true
  }

  /** What the last step leaves behind its complete rounds. */
  function Tail(t: Turn, ending: Ending): seq<Message> {
    match ending
    case Answered(k) => if k < |t.steps| && Reply(t.steps[k]).Some? then [Reply(t.steps[k]).value] else []
    case Aborted(k, j, reason) =>
      if k < |t.steps| && Reply(t.steps[k]).Some? && j < |CallsOf(t.steps[k])| then
        var s := t.steps[k];
        [Reply(s).value] + (Results(s, j) + [ToolResult("error: " + reason, CallsOf(s)[j].id)])
      else []
    case _ => []
  }

  ghost predicate IsRun(digest: string -> string, log: seq<ToolCall>, history: seq<Message>, t: Turn,
                        msgs: seq<Message>, ending: Ending)
  {
    match t.prompt
    case None => ending == NotStarted && msgs == []
    case Some(prompt) =>
      && Ends(digest, log, t, ending)
      && msgs == Opening(prompt, history, t.input) + Rounds(t.steps, StepsDone(t, ending)) + Tail(t, ending)
  }

  /** The calls a run put to the duplicate hook. */
  function Attempted(t: Turn, ending: Ending): seq<ToolCall> {
    match ending
    case Answered(k) => if k <= |t.steps| then CallsIn(t.steps, k) else []
    case Interrupted(k) => if k <= |t.steps| then CallsIn(t.steps, k) else []
    case Aborted(k, j, _) =>
      if k < |t.steps| && j < |CallsOf(t.steps[k])| then CallsIn(t.steps, k) + CallsOf(t.steps[k])[..j + 1] else []
    case StepsExhausted => CallsIn(t.steps, |t.steps|)
    case NotStarted => []
  }

  lemma NothingDoneYet(digest: string -> string, log: seq<ToolCall>, steps: seq<Step>)
    ensures NoRepeats(digest, log, |log|)
    ensures Continued(steps, 0) && CallsIn(steps, 0) == [] && Rounds(steps, 0) == []
  {
  }

  lemma OneMoreStep(steps: seq<Step>, n: nat)
    requires n < |steps| && Continued(steps, n)
    requires var s := steps[n]; !s.late && Reply(s).Some? && CallsOf(s) != [] && AllRan(s, |CallsOf(s)|)
    ensures Continued(steps, n + 1)
    ensures CallsIn(steps, n + 1) == CallsIn(steps, n) + CallsOf(steps[n])
    ensures Rounds(steps, n + 1) ==
            Rounds(steps, n) + ([Reply(steps[n]).value] + Results(steps[n], |CallsOf(steps[n])|))
  {
  }

  lemma NoRepeatsSnoc(digest: string -> string, log: seq<ToolCall>, c: ToolCall, from: nat)
    requires NoRepeats(digest, log, from) && !Repeats(digest, log + [c])
    ensures NoRepeats(digest, log + [c], from)
  {
    forall n | from < n <= |log| + 1 ensures !Repeats(digest, (log + [c])[..n]) {
      if n <= |log| {
        assert (log + [c])[..n] == log[..n];
      } else {
        assert (log + [c])[..n] == log + [c];
      }
    }
  }

  lemma AbortTail(t: Turn, k: nat, j: nat, reason: string)
    requires k < |t.steps| && Reply(t.steps[k]).Some? && j < |CallsOf(t.steps[k])|
    ensures var s := t.steps[k];
            Tail(t, Aborted(k, j, reason)) ==
            [Reply(s).value] + (Results(s, j) + [ToolResult("error: " + reason, CallsOf(s)[j].id)])
  {
    hide TurnOf, Reply, CallsOf, Results;
  }

  lemma OtherTails(t: Turn, k: nat)
    requires k < |t.steps|
    ensures Tail(t, Interrupted(k)) == []
    ensures Reply(t.steps[k]).Some? ==> Tail(t, Answered(k)) == [Reply(t.steps[k]).value]
  {
  }

  lemma NothingLeft(t: Turn)
    ensures Tail(t, StepsExhausted) == []
  {
  }

  /** One call through the hooks and the tool; an error ends the run. */
  method DispatchTool(hook: DupCallHook, s: Step, j: nat) returns (result: Message, error: Option<string>)
    requires hook.Valid() && j < |CallsOf(s)|
    modifies hook
    ensures hook.Valid() && hook.attempts == old(hook.attempts) + [CallsOf(s)[j]]
    ensures Repeats(hook.digest, hook.attempts) ==>
              error == Some("agent: duplicate tool call detected (model stuck in loop)")
    ensures !Repeats(hook.digest, hook.attempts) ==> (error.None? <==> s.handling(j).Ran?)
    ensures !Repeats(hook.digest, hook.attempts) && error.Some? ==> error.value == s.handling(j).reason
    ensures error.Some? ==> result == ToolResult("error: " + error.value, CallsOf(s)[j].id)
    ensures error.None? ==> result == ToolResult(s.handling(j).text, CallsOf(s)[j].id)
  {
    var tc := CallsOf(s)[j];
    var refused := hook.BeforeToolCall(tc);
    if refused {
      return ToolResult("error: " + DUPLICATE, tc.id), Some(DUPLICATE);
    }
    match s.handling(j) {
      case Vetoed(reason) => return ToolResult("error: " + reason, tc.id), Some(reason);
      case Ran(text) => return ToolResult(text, tc.id), None;
      case Rejected(reason) => return ToolResult("error: " + reason, tc.id), Some(reason);
    }
  }

  lemma NoResultsYet(s: Step)
    ensures Results(s, 0) == []
  {
  }

  lemma ResultsNext(s: Step, n: nat)
    requires n < |CallsOf(s)| && s.handling(n).Ran?
    ensures Results(s, n + 1) == Results(s, n) + [ToolResult(s.handling(n).text, CallsOf(s)[n].id)]
  {
  }

  /** The calls of one answer, in order, up to the first error. */
  method DispatchAll(hook: DupCallHook, s: Step, ghost from: nat) returns (results: seq<Message>, error: Option<string>)
    requires hook.Valid() && NoRepeats(hook.digest, hook.attempts, from)
    modifies hook
    ensures hook.Valid()
    ensures error.None? ==>
              && AllRan(s, |CallsOf(s)|) && results == Results(s, |CallsOf(s)|)
              && hook.attempts == old(hook.attempts) + CallsOf(s) && NoRepeats(hook.digest, hook.attempts, from)
    ensures error.Some? ==> 0 < |results| <= |CallsOf(s)|
    ensures error.Some? ==> AbortsAt(hook.digest, old(hook.attempts), from, s, |results| - 1, error.value)
    ensures error.Some? ==>
              var j := |results| - 1;
              && results == Results(s, j) + [ToolResult("error: " + error.value, CallsOf(s)[j].id)]
              && hook.attempts == old(hook.attempts) + CallsOf(s)[..j + 1]
  {
    hide Repeats, NoRepeats, TurnOf, Reply, CallsOf, Results, TrailingRun, DupCallHook.Valid;
    NoResultsYet(s);
    var calls := CallsOf(s);
    results := [];
    ghost var asked := hook.attempts;
    for j := 0 to |calls|
      invariant hook.Valid() && hook.attempts == asked + calls[..j]
      invariant AllRan(s, j)
      invariant NoRepeats(hook.digest, hook.attempts, from)
      invariant results == Results(s, j) && |results| == j
    {
      ghost var before := hook.attempts;
      var result;
      result, error := DispatchTool(hook, s, j);
      assert before + [calls[j]] == asked + calls[..j + 1];
      results := results + [result];
      if error.Some? {
        return;
      }
      NoRepeatsSnoc(hook.digest, before, calls[j], from);
      ResultsNext(s, j);
    }
    error := None;
  }

  /** The provider's answer, if its stream starts and ends well. */
  method Ask(s: Step) returns (assistant: Option<Message>)
    ensures assistant == Reply(s)
    ensures assistant.Some? ==> assistant.value.Assistant? && assistant.value.calls == CallsOf(s)
  {
    if s.reply.None? {
      return None;
    }
    assistant := StreamAssistantTurn(s.reply.value, s.refused);
  }

  method OpenTranscript(prompt: string, history: seq<Message>, input: string) returns (msgs: seq<Message>)
    ensures msgs == Opening(prompt, history, input)
  {
    msgs := [System(prompt)];
    for i := 0 to |history|
      invariant msgs == [System(prompt)] + StripSystem(history[..i])
    {
      assert history[..i + 1][..i] == history[..i];
      if !history[i].System? {
        msgs := msgs + [history[i]];
      }
    }
    assert history[..|history|] == history;
    msgs := msgs + [User(input)];
  }

  method Run(hook: DupCallHook, history: seq<Message>, t: Turn)
    returns (msgs: seq<Message>, ending: Ending, requests: nat)
    requires hook.Valid()
    modifies hook
    ensures hook.Valid() && hook.attempts == old(hook.attempts) + Attempted(t, ending)
    ensures IsRun(hook.digest, old(hook.attempts), history, t, msgs, ending)
    ensures requests <= |t.steps| && Requested(t, ending, requests)
  {
    hide TurnOf, TrailingRun, Repeats, NoRepeats, Opening, Results, Reply, CallsOf, AllRan, AbortsAt, Continued,
      CallsIn, Rounds, Tail, StripSystem, DupCallHook.Valid;
    if t.prompt.None? {
      return [], NotStarted, 0;
    }
    msgs := OpenTranscript(t.prompt.value, history, t.input);
    ghost var opening := msgs;
    ghost var log := hook.attempts;
    NothingDoneYet(hook.digest, log, t.steps);
    requests := 0;
    for step := 0 to |t.steps|
      invariant requests == step
      invariant hook.Valid() && hook.attempts == log + CallsIn(t.steps, step)
      invariant Continued(t.steps, step)
      invariant NoRepeats(hook.digest, hook.attempts, |log|)
      invariant msgs == opening + Rounds(t.steps, step)
    {
      var s := t.steps[step];
      OtherTails(t, step);
      if s.late {
        return msgs, Interrupted(step), requests;
      }
      requests := requests + 1;
      var assistant := Ask(s);
      if assistant.None? {
        return msgs, Interrupted(step), requests;
      }
      msgs := msgs + [assistant.value];
      if assistant.value.calls == [] {
        return msgs, Answered(step), requests;
      }
      var results, error := DispatchAll(hook, s, |log|);
      msgs := msgs + results;
      if error.Some? {
        AbortTail(t, step, |results| - 1, error.value);
        return msgs, Aborted(step, |results| - 1, error.value), requests;
      }
      OneMoreStep(t.steps, step);
    }
    ending := StepsExhausted;
    NothingLeft(t);
  }

  // ---- What every run leaves behind ----

  lemma OpeningScan(prompt: string, history: seq<Message>, input: string)
    requires WellPaired(history)
    ensures ScanFrom(Closed, Opening(prompt, history, input)) == Closed
  {
    StripKeepsPairing(history);
    var start, middle := [System(prompt)], StripSystem(history);
    ScanSnoc(Closed, [], System(prompt));
    assert start == [] + [System(prompt)];
    ScanConcat(Closed, start, middle);
    ScanSnoc(Closed, start + middle, User(input));
  }

  lemma ResultsStep(s: Step, n: nat)
    requires n < |CallsOf(s)|
    requires ScanFrom(Open(CallsOf(s), 0), Results(s, n)) == Open(CallsOf(s), n)
    ensures ScanFrom(Open(CallsOf(s), 0), Results(s, n + 1)) == Open(CallsOf(s), n + 1)
  {
    hide TurnOf, CallsOf, ScanFrom;
    var m := Results(s, n + 1)[|Results(s, n)|];
    ScanSnoc(Open(CallsOf(s), 0), Results(s, n), m);
  }

  /** The results of the first n calls answer exactly those, in order. */
  lemma {:induction false} ResultsScan(s: Step, n: nat)
    requires n <= |CallsOf(s)|
    ensures ScanFrom(Open(CallsOf(s), 0), Results(s, n)) == Open(CallsOf(s), n)
    decreases n
  {
    hide TurnOf, CallsOf;
    if n > 0 {
      ResultsScan(s, n - 1);
      ResultsStep(s, n - 1);
    }
  }

  lemma {:induction false} ResultsNoSystem(s: Step, n: nat)
    requires n <= |CallsOf(s)|
    ensures NoSystem(Results(s, n))
    decreases n
  {
    hide TurnOf, CallsOf;
    if n > 0 {
      ResultsNoSystem(s, n - 1);
    }
  }

  /** An answer with calls and the results of the first n leave the calls open. */
  lemma AnswerScan(p: Pairing, s: Step, n: nat)
    requires Settled(p) && Reply(s).Some? && CallsOf(s) != [] && n <= |CallsOf(s)|
    ensures ScanFrom(p, [Reply(s).value] + Results(s, n)) == Open(CallsOf(s), n)
  {
    var m := Reply(s).value;
    ScanSnoc(p, [], m);
    assert [m] == [] + [m];
    ScanConcat(p, [m], Results(s, n));
    ResultsScan(s, n);
  }

  lemma RoundScan(p: Pairing, steps: seq<Step>, n: nat)
    requires n < |steps| && Continued(steps, n + 1)
    requires Settled(ScanFrom(p, Rounds(steps, n))) && NoSystem(Rounds(steps, n))
    ensures Settled(ScanFrom(p, Rounds(steps, n + 1))) && NoSystem(Rounds(steps, n + 1))
  {
    hide TurnOf, Results, ScanFrom, CallsOf, AllRan;
    var s := steps[n];
    ScanConcat(p, Rounds(steps, n), Round(s));
    AnswerScan(ScanFrom(p, Rounds(steps, n)), s, |CallsOf(s)|);
    ResultsNoSystem(s, |CallsOf(s)|);
  }

  lemma {:induction false} RoundsScan(p: Pairing, steps: seq<Step>, n: nat)
    requires Settled(p) && n <= |steps| && Continued(steps, n)
    ensures Settled(ScanFrom(p, Rounds(steps, n))) && NoSystem(Rounds(steps, n))
    decreases n
  {
    hide Round, Reply, CallsOf, AllRan;
    if n > 0 {
      RoundsScan(p, steps, n - 1);
      RoundScan(p, steps, n - 1);
    }
  }

  lemma TailScan(p: Pairing, t: Turn, ending: Ending)
    requires Settled(p)
    requires ending.Answered? ==> ending.step < |t.steps| && CallsOf(t.steps[ending.step]) == []
    ensures Settled(ScanFrom(p, Tail(t, ending))) && NoSystem(Tail(t, ending))
  {
    hide TurnOf, Results, CallsOf, ScanFrom;
    if Tail(t, ending) == [] {
      EmptyScan(p);
    } else if ending.Answered? {
      var m := Reply(t.steps[ending.step]).value;
      OneScan(p, m);
      CallsOfReply(t.steps[ending.step]);
    } else {
      var s, j := t.steps[ending.step], ending.call;
      CallsOfReply(s);
      var front := [Reply(s).value] + Results(s, j);
      AnswerScan(p, s, j);
      ResultsNoSystem(s, j);
      var last := ToolResult("error: " + ending.reason, CallsOf(s)[j].id);
      assert Tail(t, ending) == front + [last];
      ScanSnoc(p, front, last);
    }
  }

  lemma CallsOfReply(s: Step)
    requires Reply(s).Some?
    ensures Reply(s).value.Assistant? && Reply(s).value.calls == CallsOf(s)
  {
  }

  lemma EmptyScan(p: Pairing)
    ensures ScanFrom(p, []) == p
  {
  }

  lemma OneScan(p: Pairing, m: Message)
    ensures ScanFrom(p, [m]) == Next(p, m)
  {
    ScanSnoc(p, [], m);
    assert [m] == [] + [m];
  }

  // ---- The inputs fix the run ----

  lemma {:induction false} CallsPrefix(steps: seq<Step>, k: nat, n: nat)
    requires k < n <= |steps|
    ensures CallsIn(steps, k) + CallsOf(steps[k]) <= CallsIn(steps, n)
    decreases n
  {
    hide CallsOf;
    if k < n - 1 {
      CallsPrefix(steps, k, n - 1);
    }
  }

  /** A run that got past a call was not ended by it. */
  lemma PassedCall(digest: string -> string, log: seq<ToolCall>, from: nat, s: Step, j: nat, passed: seq<ToolCall>,
                   reason: string)
    requires from <= |log| && j < |CallsOf(s)| && log + CallsOf(s)[..j + 1] <= passed
    requires NoRepeats(digest, passed, from) && s.handling(j).Ran?
    ensures !AbortsAt(digest, log, from, s, j, reason)
  {
    hide Repeats, CallsOf, AllRan;
    var asked := log + CallsOf(s)[..j + 1];
    assert passed[..|asked|] == asked;
  }

  lemma LaterEndsDiffer(digest: string -> string, log: seq<ToolCall>, t: Turn, e: Ending, e': Ending)
    requires Ends(digest, log, t, e) && Ends(digest, log, t, e')
    ensures StepsDone(t, e) >= StepsDone(t, e')
  {
    hide Repeats, CallsOf, Reply, NoRepeats, AbortsAt;
    var k, k' := StepsDone(t, e), StepsDone(t, e');
    if k < k' && e.Aborted? {
      var s, before := t.steps[k], log + CallsIn(t.steps, k);
      CallsPrefix(t.steps, k, k');
      AbortsWithin(digest, before, |log|, s, e.call, e.reason);
      var calls := CallsOf(s);
      assert before + calls == log + (CallsIn(t.steps, k) + calls);
      assert calls[..e.call + 1] <= calls;
      assert before + calls[..e.call + 1] <= log + CallsIn(t.steps, k');
      PassedCall(digest, before, |log|, s, e.call, log + CallsIn(t.steps, k'), e.reason);
    }
  }

  lemma AbortsWithin(digest: string -> string, log: seq<ToolCall>, from: nat, s: Step, j: nat, reason: string)
    requires AbortsAt(digest, log, from, s, j, reason)
    ensures j < |CallsOf(s)| && AllRan(s, j) && NoRepeats(digest, log + CallsOf(s)[..j], from)
  {
  }

  lemma SameAbort(digest: string -> string, log: seq<ToolCall>, from: nat, s: Step, j: nat, r: string, j': nat,
                  r': string)
    requires from <= |log| && AbortsAt(digest, log, from, s, j, r) && AbortsAt(digest, log, from, s, j', r')
    ensures j >= j' && (j == j' ==> r == r')
  {
    hide Repeats, CallsOf, NoRepeats;
    if j < j' {
      PassedCall(digest, log, from, s, j, log + CallsOf(s)[..j'], r);
    }
  }

  /** The messages a run returns and the way it ends are fixed by its inputs. */
  lemma RunIsDetermined(digest: string -> string, log: seq<ToolCall>, history: seq<Message>, t: Turn,
                        msgs: seq<Message>, e: Ending, msgs': seq<Message>, e': Ending)
    requires IsRun(digest, log, history, t, msgs, e) && IsRun(digest, log, history, t, msgs', e')
    ensures msgs == msgs' && e == e'
  {
    hide AbortsAt, NoRepeats, Continued, Opening, Rounds, Tail, Reply, CallsOf, CallsIn;
    if t.prompt.Some? {
      LaterEndsDiffer(digest, log, t, e, e');
      LaterEndsDiffer(digest, log, t, e', e);
      if e.Aborted? && e'.Aborted? {
        var before := log + CallsIn(t.steps, e.step);
        SameAbort(digest, before, |log|, t.steps[e.step], e.call, e.reason, e'.call, e'.reason);
        SameAbort(digest, before, |log|, t.steps[e.step], e'.call, e'.reason, e.call, e.reason);
      }
      if e.Aborted? {
        AbortedReplies(digest, log, t, e);
      }
      if e'.Aborted? {
        AbortedReplies(digest, log, t, e');
      }
    }
  }

  lemma AbortedReplies(digest: string -> string, log: seq<ToolCall>, t: Turn, e: Ending)
    requires Ends(digest, log, t, e) && e.Aborted?
    ensures CallsOf(t.steps[e.step]) != []
  {
    hide CallsOf, NoRepeats, Repeats;
  }

  /** A run on a paired history returns a paired transcript. */
  lemma RunKeepsPairing(digest: string -> string, log: seq<ToolCall>, history: seq<Message>, t: Turn,
                        msgs: seq<Message>, ending: Ending)
    requires IsRun(digest, log, history, t, msgs, ending) && WellPaired(history)
    ensures WellPaired(msgs)
  {
    hide Rounds, Opening, Continued, NoRepeats, ScanFrom, Tail, CallsOf, Reply, AbortsAt;
    if t.prompt.None? {
      EmptyScan(Closed);
      return;
    }
    var opening, rounds := Opening(t.prompt.value, history, t.input), Rounds(t.steps, StepsDone(t, ending));
    OpeningScan(t.prompt.value, history, t.input);
    RoundsScan(Closed, t.steps, StepsDone(t, ending));
    TailScan(ScanFrom(Closed, rounds), t, ending);
    ScanConcat(Closed, opening, rounds);
    ScanConcat(Closed, opening + rounds, Tail(t, ending));
  }

  /** The transcript has one system message, the first. */
  lemma RunHasOneSystem(digest: string -> string, log: seq<ToolCall>, history: seq<Message>, t: Turn,
                        msgs: seq<Message>, ending: Ending)
    requires IsRun(digest, log, history, t, msgs, ending) && t.prompt.Some?
    ensures msgs != [] && msgs[0] == System(t.prompt.value) && NoSystem(msgs[1..])
    ensures StripSystem(history) + [User(t.input)] <= msgs[1..]
  {
    hide Rounds, Continued, NoRepeats, ScanFrom, Tail, CallsOf, Reply, AbortsAt, StripSystem;
    var kept, rounds, tail := StripSystem(history), Rounds(t.steps, StepsDone(t, ending)), Tail(t, ending);
    StripRemovesSystem(history);
    RoundsScan(Closed, t.steps, StepsDone(t, ending));
    TailScan(Closed, t, ending);
    assert msgs[1..] == (kept + [User(t.input)]) + (rounds + tail);
  }

  /** Three alike calls in a row end the run, and the third is refused. */
  lemma ThirdAlikeNeverRuns(digest: string -> string, log: seq<ToolCall>, history: seq<Message>, t: Turn,
                            msgs: seq<Message>, ending: Ending, n: nat)
    requires IsRun(digest, log, history, t, msgs, ending)
    requires |log| < n <= |log + Attempted(t, ending)|
    ensures Repeats(digest, (log + Attempted(t, ending))[..n]) ==>
              n == |log + Attempted(t, ending)| && ending.Aborted? &&
              ending.reason == "agent: duplicate tool call detected (model stuck in loop)"
  {
    hide TurnOf, Reply, Repeats, CallsOf, CallsIn, Rounds, Opening, Tail, Continued;
    var all := log + Attempted(t, ending);
    match ending {
      case Aborted(k, j, _) =>
        var calls := CallsOf(t.steps[k]);
        var asked := log + CallsIn(t.steps, k);
        assert all == asked + calls[..j + 1];
        if n < |all| {
          assert all[..n] == (asked + calls[..j])[..n];
        } else {
          assert all[..n] == all;
        }
      case _ =>
    }
  }

  // ---- The messages, one by one ----

  /** The messages from p to q are a step's answer and what each of its calls returned. */
  ghost predicate HoldsRound(msgs: seq<Message>, p: nat, q: nat, s: Step) {
    && !s.late && s.reply.Some? && p < q <= |msgs|
    && TurnOf(s.reply.value, s.refused, "", []) == Some(msgs[p])
    && msgs[p].Assistant? && msgs[p].calls != [] && q == p + 1 + |msgs[p].calls|
    && forall j :: 0 <= j < |msgs[p].calls| ==>
         s.handling(j).Ran? && msgs[p + 1 + j] == ToolResult(s.handling(j).text, msgs[p].calls[j].id)
  }

  /** The messages from p to the end are what a run leaves that ends this way at step k. */
  ghost predicate HoldsEnd(msgs: seq<Message>, p: nat, t: Turn, k: nat, ending: Ending) {
    p <= |msgs| &&
    match ending
    case NotStarted => false
    case StepsExhausted => k == |t.steps| && |msgs| == p
    case Interrupted(step) =>
      && k == step < |t.steps| && |msgs| == p
      && var s := t.steps[k];
         s.late || s.reply.None? || TurnOf(s.reply.value, s.refused, "", []).None?
    case Answered(step) =>
      && k == step < |t.steps| && |msgs| == p + 1
      && !t.steps[k].late && t.steps[k].reply.Some?
      && TurnOf(t.steps[k].reply.value, t.steps[k].refused, "", []) == Some(msgs[p])
      && msgs[p].Assistant? && msgs[p].calls == []
    case Aborted(step, j, reason) =>
      k == step < |t.steps| && HoldsAborted(msgs, p, t.steps[k], j, reason)
  }

  /** An answer, the results of its first j calls, and the error that ended the run. */
  ghost predicate HoldsAborted(msgs: seq<Message>, p: nat, s: Step, j: nat, reason: string) {
    && !s.late && s.reply.Some? && |msgs| == p + j + 2
    && TurnOf(s.reply.value, s.refused, "", []) == Some(msgs[p])
    && msgs[p].Assistant? && j < |msgs[p].calls|
    && (forall i :: 0 <= i < j ==>
          s.handling(i).Ran? && msgs[p + 1 + i] == ToolResult(s.handling(i).text, msgs[p].calls[i].id))
    && msgs[p + 1 + j] == ToolResult("error: " + reason, msgs[p].calls[j].id)
  }

  lemma {:induction false} ResultsAt(s: Step, n: nat)
    requires n <= |CallsOf(s)|
    ensures |Results(s, n)| == n
    ensures forall j :: 0 <= j < n ==> Results(s, n)[j] == ToolResult(ResultText(s.handling(j)), CallsOf(s)[j].id)
    decreases n
  {
    hide TurnOf, CallsOf, ResultText;
    if n > 0 {
      ResultsAt(s, n - 1);
    }
  }

  lemma RoundKept(msgs: seq<Message>, more: seq<Message>, p: nat, q: nat, s: Step)
    requires HoldsRound(msgs, p, q, s)
    ensures HoldsRound(msgs + more, p, q, s)
  {
    hide TurnOf;
  }

  lemma RanResults(s: Step, n: nat)
    requires n <= |CallsOf(s)| && AllRan(s, n)
    ensures |Results(s, n)| == n
    ensures forall j :: 0 <= j < n ==> Results(s, n)[j] == ToolResult(s.handling(j).text, CallsOf(s)[j].id)
  {
    hide TurnOf, CallsOf, Results;
    ResultsAt(s, n);
  }

  lemma RoundIs(s: Step)
    requires Reply(s).Some?
    ensures Round(s) == [Reply(s).value] + Results(s, |CallsOf(s)|)
    ensures s.reply.Some? && TurnOf(s.reply.value, s.refused, "", []) == Reply(s)
  {
    hide TurnOf, CallsOf, Results;
  }

  lemma RoundHeld(front: seq<Message>, s: Step)
    requires !s.late && Reply(s).Some? && CallsOf(s) != [] && AllRan(s, |CallsOf(s)|)
    ensures HoldsRound(front + Round(s), |front|, |front + Round(s)|, s)
  {
    hide TurnOf, CallsOf, Results, Reply, Round;
    CallsOfReply(s);
    RanResults(s, |CallsOf(s)|);
    RoundIs(s);
    var results := Results(s, |CallsOf(s)|);
    assert front + Round(s) == front + [Reply(s).value] + results;
  }

  /** Behind whatever opens the transcript, finished steps stand one after the other. */
  lemma {:induction false} RoundsHeld(front: seq<Message>, steps: seq<Step>, n: nat) returns (at: seq<nat>)
    requires n <= |steps| && Continued(steps, n)
    ensures |at| == n + 1 && at[0] == |front| && at[n] == |front + Rounds(steps, n)|
    ensures forall k: nat :: k < n ==> HoldsRound(front + Rounds(steps, n), at[k], at[k + 1], steps[k])
    decreases n
  {
    hide HoldsRound, Round, CallsOf, AllRan, Reply;
    if n == 0 {
      at := [|front|];
    } else {
      at := RoundsHeld(front, steps, n - 1);
      var before := front + Rounds(steps, n - 1);
      var after := front + Rounds(steps, n);
      assert after == before + Round(steps[n - 1]);
      forall k: nat | k < n - 1 ensures HoldsRound(after, at[k], at[k + 1], steps[k]) {
        RoundKept(before, Round(steps[n - 1]), at[k], at[k + 1], steps[k]);
      }
      RoundHeld(before, steps[n - 1]);
      at := at + [|after|];
    }
  }

  lemma AbortHeld(front: seq<Message>, s: Step, j: nat, reason: string)
    requires !s.late && Reply(s).Some? && j < |CallsOf(s)| && AllRan(s, j)
    ensures var last := ToolResult("error: " + reason, CallsOf(s)[j].id);
            HoldsAborted(front + ([Reply(s).value] + (Results(s, j) + [last])), |front|, s, j, reason)
  {
    hide TurnOf, CallsOf, Results, Reply, Round;
    CallsOfReply(s);
    RanResults(s, j);
    RoundIs(s);
    var results, last := Results(s, j), ToolResult("error: " + reason, CallsOf(s)[j].id);
    assert front + ([Reply(s).value] + (results + [last])) == front + [Reply(s).value] + results + [last];
  }

  lemma AnswerHeld(front: seq<Message>, t: Turn, k: nat)
    requires k < |t.steps| && !t.steps[k].late && Reply(t.steps[k]).Some? && CallsOf(t.steps[k]) == []
    ensures HoldsEnd(front + [Reply(t.steps[k]).value], |front|, t, k, Answered(k))
  {
    hide TurnOf;
    CallsOfReply(t.steps[k]);
  }

  lemma InterruptionHeld(front: seq<Message>, t: Turn, k: nat)
    requires k < |t.steps| && (t.steps[k].late || Reply(t.steps[k]).None?)
    ensures HoldsEnd(front, |front|, t, k, Interrupted(k))
  {
    hide TurnOf;
  }

  lemma EndHeld(digest: string -> string, log: seq<ToolCall>, front: seq<Message>, t: Turn, ending: Ending)
    requires Ends(digest, log, t, ending)
    ensures HoldsEnd(front + Tail(t, ending), |front|, t, StepsDone(t, ending), ending)
  {
    hide TurnOf, NoRepeats, Continued, Repeats, CallsIn, Reply, CallsOf, HoldsAborted, Results, Tail, AbortsAt;
    match ending {
      case Answered(k) =>
        OtherTails(t, k);
        AnswerHeld(front, t, k);
      case Interrupted(k) =>
        OtherTails(t, k);
        assert front + Tail(t, ending) == front;
        InterruptionHeld(front, t, k);
      case Aborted(k, j, reason) =>
        AbortsWithin(digest, log + CallsIn(t.steps, k), |log|, t.steps[k], j, reason);
        AbortTail(t, k, j, reason);
        AbortHeld(front, t.steps[k], j, reason);
      case StepsExhausted =>
        NothingLeft(t);
        assert front + Tail(t, ending) == front;
    }
  }

  /** The transcript of a run, message by message: the prompt, the history, the input, then
      for each finished step its answer and one result per call, then how the run ended. */
  lemma RunIsItsRounds(digest: string -> string, log: seq<ToolCall>, history: seq<Message>, t: Turn,
                       msgs: seq<Message>, ending: Ending) returns (at: seq<nat>)
    requires IsRun(digest, log, history, t, msgs, ending) && t.prompt.Some?
    ensures at != [] && |at| - 1 <= |t.steps| && at[0] <= |msgs|
    ensures msgs[..at[0]] == [System(t.prompt.value)] + StripSystem(history) + [User(t.input)]
    ensures forall k: nat :: k < |at| - 1 ==> HoldsRound(msgs, at[k], at[k + 1], t.steps[k])
    ensures HoldsEnd(msgs, at[|at| - 1], t, |at| - 1, ending)
  {
    hide HoldsRound, HoldsEnd, StripSystem, Rounds, Tail, Reply, CallsOf, AbortsAt, Continued, NoRepeats;
    var opening, n := Opening(t.prompt.value, history, t.input), StepsDone(t, ending);
    var front, tail := opening + Rounds(t.steps, n), Tail(t, ending);
    at := RoundsHeld(opening, t.steps, n);
    forall k: nat | k < n ensures HoldsRound(msgs, at[k], at[k + 1], t.steps[k]) {
      RoundKept(front, tail, at[k], at[k + 1], t.steps[k]);
    }
    EndHeld(digest, log, front, t, ending);
  }

  /** How many requests went out: none for a step that comes too late. */
  ghost predicate Requested(t: Turn, ending: Ending, requests: nat) {
    match ending
    case NotStarted => requests == 0
    case StepsExhausted => requests == |t.steps|
    case Answered(k) => requests == k + 1
    case Aborted(k, _, _) => requests == k + 1
    case Interrupted(k) => k < |t.steps| && requests == k + if t.steps[k].late then 0 else 1
  }

  // ---- Chained runs ----

  predicate OneSystemFirst(msgs: seq<Message>) {
    msgs == [] || (msgs[0].System? && NoSystem(msgs[1..]))
  }

  datatype Link = Link(log: seq<ToolCall>, turn: Turn, msgs: seq<Message>, ending: Ending)

  /** The history after a run; a run that did not start leaves it alone. */
  function After(history: seq<Message>, l: Link): seq<Message> {
    if l.msgs == [] then history else l.msgs
  }

  function Final(history: seq<Message>, links: seq<Link>): seq<Message>
    decreases |links|
  {
    if links == [] then history else Final(After(history, links[0]), links[1..])
  }

  /** Each run is given the history the one before it left. */
  ghost predicate Chains(digest: string -> string, history: seq<Message>, links: seq<Link>)
    decreases |links|
  {
    links != [] ==>
      && var l := links[0];
      && IsRun(digest, l.log, history, l.turn, l.msgs, l.ending)
      && Chains(digest, After(history, l), links[1..])
  }

  lemma {:induction false} StripOpening(system: Message, rest: seq<Message>)
    requires system.System? && NoSystem(rest)
    ensures StripSystem([system] + rest) == rest
  {
    var all := [system] + rest;
    if rest == [] {
      assert all[..0] == [];
    } else {
      assert all[..|rest|] == [system] + rest[..|rest| - 1];
      StripOpening(system, rest[..|rest| - 1]);
    }
  }

  /** Apart from the system message, a run only adds to its history. */
  lemma RunExtendsHistory(digest: string -> string, log: seq<ToolCall>, history: seq<Message>, t: Turn,
                          msgs: seq<Message>, ending: Ending)
    requires IsRun(digest, log, history, t, msgs, ending) && t.prompt.Some?
    ensures StripSystem(history) + [User(t.input)] <= StripSystem(msgs)
  {
    hide IsRun, StripSystem;
    RunHasOneSystem(digest, log, history, t, msgs, ending);
    assert msgs == [msgs[0]] + msgs[1..];
    StripOpening(msgs[0], msgs[1..]);
  }

  lemma LinkKeepsPairing(digest: string -> string, history: seq<Message>, l: Link)
    requires IsRun(digest, l.log, history, l.turn, l.msgs, l.ending) && WellPaired(history)
    ensures WellPaired(After(history, l))
  {
    hide IsRun, WellPaired;
    RunKeepsPairing(digest, l.log, history, l.turn, l.msgs, l.ending);
  }

  lemma LinkKeepsRest(digest: string -> string, history: seq<Message>, l: Link)
    requires IsRun(digest, l.log, history, l.turn, l.msgs, l.ending)
    ensures l.msgs != [] || OneSystemFirst(history) ==> OneSystemFirst(After(history, l))
    ensures StripSystem(history) <= StripSystem(After(history, l))
  {
    if l.turn.prompt.Some? {
      RunHasOneSystem(digest, l.log, history, l.turn, l.msgs, l.ending);
      RunExtendsHistory(digest, l.log, history, l.turn, l.msgs, l.ending);
    }
  }

  /** Any number of chained runs keep a paired transcript paired. */
  lemma {:induction false} ChainKeepsPairing(digest: string -> string, history: seq<Message>, links: seq<Link>)
    requires Chains(digest, history, links) && WellPaired(history)
    ensures WellPaired(Final(history, links))
    decreases |links|
  {
    hide WellPaired, IsRun, After;
    if links != [] {
      LinkKeepsPairing(digest, history, links[0]);
      ChainKeepsPairing(digest, After(history, links[0]), links[1..]);
    }
  }

  predicate SomeRunStarted(links: seq<Link>) {
    exists i :: 0 <= i < |links| && links[i].msgs != []
  }

  lemma StartedTail(links: seq<Link>)
    requires links != []
    ensures SomeRunStarted(links) <==> links[0].msgs != [] || SomeRunStarted(links[1..])
  {
    if SomeRunStarted(links[1..]) {
      var i :| 0 <= i < |links[1..]| && links[1..][i].msgs != [];
      assert links[i + 1].msgs != [];
    }
  }

  /** Whatever history they are given, paired or not, chained runs leave one system
      message in front once any of them has started, and lose nothing else of it. */
  lemma {:induction false} ChainKeepsTranscript(digest: string -> string, history: seq<Message>, links: seq<Link>)
    requires Chains(digest, history, links)
    ensures SomeRunStarted(links) || OneSystemFirst(history) ==> OneSystemFirst(Final(history, links))
    ensures StripSystem(history) <= StripSystem(Final(history, links))
    decreases |links|
  {
    hide StripSystem, OneSystemFirst, IsRun, After, SomeRunStarted;
    if links == [] {
      NoRunStarted();
    } else {
      StartedTail(links);
      LinkKeepsRest(digest, history, links[0]);
      ChainKeepsTranscript(digest, After(history, links[0]), links[1..]);
    }
  }

  lemma NoRunStarted()
    ensures !SomeRunStarted([])
  {
  }
}
