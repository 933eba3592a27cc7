/** From provider events to an assistant message: the per-block accumulation of
    internal/core/llm/anthropic/anthropic.go and the turn assembly of
    internal/core/agent/agent.go. Events are already decoded. */
module ToolStream {
  import opened Wrappers
  import opened Transcript

  datatype Event =
    | ToolStart(index: int, id: string, name: string)
    | TextDelta(text: string)
    | JsonDelta(index: int, part: string)
    | BlockStop(index: int)
    | UsageReport(tokens: nat)
    | MessageStop
    | Ignored

  datatype StreamError = Cancelled | ReadFailed

  datatype Chunk =
    | Text(text: string)
    | Tool(call: ToolCall)
    | Usage(tokens: nat)
    | Done
    | Failed(error: StreamError)

  predicate IsTerminal(c: Chunk) { c.Done? || c.Failed? }

  /** How the line scanner ends, if no message stop or cancellation comes first. */
  datatype Source = Source(events: seq<Event>, cancelAt: Option<nat>, readFails: bool)

  // ---- What the events mean, block by block ----

  datatype Block = Block(id: string, name: string, args: string)

  /** The tool block open at an index after the first n events, with the
      fragments that came since it started. */
  function OpenBlock(events: seq<Event>, n: nat, index: int): Option<Block>
    requires n <= |events|
  {
    if n == 0 then None
    else
      match events[n - 1]
      case ToolStart(i, id, name) => if i == index then Some(Block(id, name, "")) else OpenBlock(events, n - 1, index)
      case BlockStop(i) => if i == index then None else OpenBlock(events, n - 1, index)
      case JsonDelta(_, _) =>
        (match OpenBlock(events, n - 1, index)
         case None => None
         case Some(b) => Some(b.(args := b.args + FragmentOf(events[n - 1], index))))
      case _ => OpenBlock(events, n - 1, index)
  }

  /** The event starts or stops the block at an index. */
  predicate Delimits(e: Event, index: int) {
    match e
    case ToolStart(i, _, _) => i == index
    case BlockStop(i) => i == index
    case _ => false
  }

  function FragmentOf(e: Event, index: int): string {
    match e
    case JsonDelta(i, part) => if i == index then part else ""
    case _ => ""
  }

  /** Fragments for an index among events from..upTo, joined. */
  function Fragments(events: seq<Event>, from: nat, upTo: nat, index: int): string
    requires upTo <= |events|
    decreases upTo
  {
    if upTo <= from then "" else Fragments(events, from, upTo - 1, index) + FragmentOf(events[upTo - 1], index)
  }

  /** Block b started at event q and neither restarted nor stopped before n. */
  ghost predicate StartedAt(events: seq<Event>, q: nat, n: nat, index: int, b: Block)
    requires n <= |events|
  {
    && q < n && events[q] == ToolStart(index, b.id, b.name)
    && b.args == Fragments(events, q + 1, n, index)
    && forall j :: q < j < n ==> !Delimits(events[j], index)
  }

  lemma {:induction false} OpenBlockStarted(events: seq<Event>, n: nat, index: int)
    requires n <= |events| && OpenBlock(events, n, index).Some?
    ensures exists q :: 0 <= q < n && StartedAt(events, q, n, index, OpenBlock(events, n, index).value)
  {
    var b, e := OpenBlock(events, n, index).value, events[n - 1];
    if Delimits(e, index) {
      assert StartedAt(events, n - 1, n, index, b);
    } else {
      OpenBlockStarted(events, n - 1, index);
      var before := OpenBlock(events, n - 1, index).value;
      var q :| 0 <= q < n - 1 && StartedAt(events, q, n - 1, index, before);
      assert b.args == before.args + FragmentOf(e, index);
      assert StartedAt(events, q, n, index, b);
    }
  }

  lemma {:induction false} StartedIsOpen(events: seq<Event>, q: nat, n: nat, index: int, b: Block)
    requires n <= |events| && StartedAt(events, q, n, index, b)
    ensures OpenBlock(events, n, index) == Some(b)
    decreases n
  {
    if q < n - 1 {
      assert !Delimits(events[n - 1], index);
      assert Fragments(events, q + 1, n - 1, index) + "" == Fragments(events, q + 1, n - 1, index);
      StartedIsOpen(events, q, n - 1, index, b.(args := Fragments(events, q + 1, n - 1, index)));
    }
  }

  /** A block is open with given arguments exactly when it was started and those
      are all its own fragments since, in order. */
  lemma OpenBlockIff(events: seq<Event>, n: nat, index: int, b: Block)
    requires n <= |events|
    ensures OpenBlock(events, n, index) == Some(b) <==> exists q :: 0 <= q < n && StartedAt(events, q, n, index, b)
  {
    if OpenBlock(events, n, index) == Some(b) {
      OpenBlockStarted(events, n, index);
    }
    if q :| 0 <= q < n && StartedAt(events, q, n, index, b) {
      StartedIsOpen(events, q, n, index, b);
    }
  }

  // ---- The chunks of a stream ----

  /** Arguments that are not a JSON object become the empty object; `objects`
      stands for the texts that are one. */
  function Normalize(objects: iset<string>, raw: string): string {
    if raw in objects then raw else "{}"
  }

  /** The call of the block that event i stops, if it stops an open one. */
  function StoppedAt(events: seq<Event>, i: nat, objects: iset<string>): seq<ToolCall>
    requires i < |events|
  {
    match events[i]
    case BlockStop(index) =>
      (match OpenBlock(events, i, index)
       case None => []
       case Some(b) => [ToolCall(b.id, b.name, Normalize(objects, b.args))])
    case _ => []
  }

  function Emitted(events: seq<Event>, i: nat, objects: iset<string>): seq<Chunk>
    requires i < |events|
  {
    match events[i]
    case TextDelta(text) => if text != "" then [Text(text)] else []
    case UsageReport(tokens) => [Usage(tokens)]
    case BlockStop(index) =>
      var calls := StoppedAt(events, i, objects);
      if calls == [] then [] else [Tool(calls[0])]
    case _ => []
  }

  function EmittedUpTo(events: seq<Event>, n: nat, objects: iset<string>): seq<Chunk>
    requires n <= |events|
  {
    if n == 0 then [] else EmittedUpTo(events, n - 1, objects) + Emitted(events, n - 1, objects)
  }

  predicate CancelledAt(src: Source, i: nat) {
    src.cancelAt.Some? && src.cancelAt.value <= i
  }

  /** The first event not processed: where the stream stops or is cancelled. */
  function Length(src: Source, i: nat): nat
    requires i <= |src.events|
    ensures i <= Length(src, i) <= |src.events|
    decreases |src.events| - i
  {
    if i == |src.events| || CancelledAt(src, i) || src.events[i] == MessageStop then i else Length(src, i + 1)
  }

  function Terminal(src: Source): Chunk {
    var n := Length(src, 0);
    if n == |src.events| then if src.readFails then Failed(ReadFailed) else Done
    else if CancelledAt(src, n) then Failed(Cancelled) else Done
  }

  function Chunks(src: Source, objects: iset<string>): seq<Chunk> {
    EmittedUpTo(src.events, Length(src, 0), objects) + [Terminal(src)]
  }

  /** The maps mirror the open blocks. Arguments left over at other indices
      are dropped when a block starts there. */
  ghost predicate Mirrors(events: seq<Event>, n: nat, blocks: map<int, (string, string)>, args: map<int, string>)
    requires n <= |events|
  {
    forall index :: match OpenBlock(events, n, index)
      case None => index !in blocks
      case Some(b) => index in blocks && blocks[index] == (b.id, b.name)
                      && (if index in args then args[index] else "") == b.args
  }

  lemma MirrorsNothing(events: seq<Event>)
    ensures Mirrors(events, 0, map[], map[])
  {
  }

  lemma MirrorsStart(events: seq<Event>, n: nat, blocks: map<int, (string, string)>, args: map<int, string>)
    requires n < |events| && events[n].ToolStart? && Mirrors(events, n, blocks, args)
    ensures var e := events[n]; Mirrors(events, n + 1, blocks[e.index := (e.id, e.name)], args[e.index := ""])
  {
  }

  lemma MirrorsDelta(events: seq<Event>, n: nat, blocks: map<int, (string, string)>, args: map<int, string>)
    requires n < |events| && events[n].JsonDelta? && Mirrors(events, n, blocks, args)
    ensures var e := events[n];
            Mirrors(events, n + 1, blocks, args[e.index := (if e.index in args then args[e.index] else "") + e.part])
  {
  }

  lemma MirrorsStop(events: seq<Event>, n: nat, blocks: map<int, (string, string)>, args: map<int, string>)
    requires n < |events| && events[n].BlockStop? && Mirrors(events, n, blocks, args)
    ensures var i := events[n].index;
            if i in blocks then Mirrors(events, n + 1, blocks - {i}, args - {i})
            else Mirrors(events, n + 1, blocks, args)
  {
  }

  lemma MirrorsOther(events: seq<Event>, n: nat, blocks: map<int, (string, string)>, args: map<int, string>)
    requires n < |events| && !events[n].ToolStart? && !events[n].JsonDelta? && !events[n].BlockStop?
    requires Mirrors(events, n, blocks, args)
    ensures Mirrors(events, n + 1, blocks, args)
  {
  }

  lemma MirroredBlock(events: seq<Event>, n: nat, index: int, blocks: map<int, (string, string)>,
                      args: map<int, string>)
    requires n <= |events| && Mirrors(events, n, blocks, args)
    ensures index in blocks <==> OpenBlock(events, n, index).Some?
    ensures index in blocks ==>
              OpenBlock(events, n, index) ==
              Some(Block(blocks[index].0, blocks[index].1, if index in args then args[index] else ""))
  {
  }

  /** A message stop comes before any cancellation takes effect. */
  ghost predicate StopsInTime(src: Source) {
    exists i :: 0 <= i < |src.events| && src.events[i] == MessageStop && (src.cancelAt.None? || i < src.cancelAt.value)
  }

  /** There is no message stop, no cancellation within the events, and no failure after them. */
  ghost predicate RunsOut(src: Source) {
    && (forall i :: 0 <= i < |src.events| ==> src.events[i] != MessageStop)
    && (src.cancelAt.None? || src.cancelAt.value >= |src.events|) && !src.readFails
  }

  /** The stream is cancelled at an event before which there is no message stop. */
  ghost predicate IsCutOff(src: Source) {
    && src.cancelAt.Some? && src.cancelAt.value < |src.events|
    && forall i :: 0 <= i < src.cancelAt.value ==> src.events[i] != MessageStop
  }

  /** The stream goes on past event j. */
  ghost predicate GoesPast(src: Source, j: nat)
    requires j < |src.events|
  {
    src.events[j] != MessageStop && (src.cancelAt.None? || j < src.cancelAt.value)
  }

  lemma {:induction false} LengthStops(src: Source, i: nat)
    requires i <= |src.events|
    ensures forall j: nat :: i <= j < Length(src, i) ==> GoesPast(src, j)
    ensures Length(src, i) < |src.events| ==> !GoesPast(src, Length(src, i))
    decreases |src.events| - i
  {
    if i < |src.events| && !CancelledAt(src, i) && src.events[i] != MessageStop {
      LengthStops(src, i + 1);
      assert GoesPast(src, i);
    }
  }

  lemma {:induction false} LengthAtCut(src: Source, i: nat)
    requires IsCutOff(src) && i <= src.cancelAt.value
    ensures Length(src, i) == src.cancelAt.value
    decreases src.cancelAt.value - i
  {
    if i < src.cancelAt.value {
      LengthAtCut(src, i + 1);
    }
  }

  /** How a stream ends, from its events. */
  lemma TerminalIff(src: Source)
    ensures Terminal(src) == Done <==> StopsInTime(src) || RunsOut(src)
    ensures Terminal(src) == Failed(Cancelled) <==> IsCutOff(src)
    ensures Terminal(src).Done? || Terminal(src) == Failed(Cancelled) || Terminal(src) == Failed(ReadFailed)
  {
    LengthStops(src, 0);
    hide Length;
    var n := Length(src, 0);
    if n < |src.events| && !CancelledAt(src, n) {
      assert StopsInTime(src);
    }
    if i: nat :| i < |src.events| && src.events[i] == MessageStop && (src.cancelAt.None? || i < src.cancelAt.value) {
      assert !GoesPast(src, i) && n <= i;
    }
    if IsCutOff(src) {
      LengthAtCut(src, 0);
    }
  }

  /** The last chunk says how the stream ended: well exactly if it was stopped in time or
      ran out. */
  method ParseSse(src: Source, objects: iset<string>) returns (ch: seq<Chunk>)
    ensures ch == Chunks(src, objects)
    ensures ch != []
    ensures ch[|ch| - 1] == if StopsInTime(src) || RunsOut(src) then Done
                            else if IsCutOff(src) then Failed(Cancelled) else Failed(ReadFailed)
  {
    hide OpenBlock, Mirrors, StopsInTime, RunsOut, IsCutOff;
    TerminalIff(src);
    MirrorsNothing(src.events);
    ch := [];
    var toolBlocks: map<int, (string, string)> := map[];
    var argsBuf: map<int, string> := map[];
    for i := 0 to |src.events|
      invariant Length(src, i) == Length(src, 0)
      invariant ch == EmittedUpTo(src.events, i, objects)
      invariant Mirrors(src.events, i, toolBlocks, argsBuf)
    {
      if CancelledAt(src, i) {
        ch := ch + [Failed(Cancelled)];
        return;
      }
      match src.events[i] {
        case ToolStart(index, id, name) =>
          MirrorsStart(src.events, i, toolBlocks, argsBuf);
          toolBlocks, argsBuf := toolBlocks[index := (id, name)], argsBuf[index := ""];
        case TextDelta(text) =>
          MirrorsOther(src.events, i, toolBlocks, argsBuf);
          if text != "" {
            ch := ch + [Text(text)];
          }
        case JsonDelta(index, part) =>
          MirrorsDelta(src.events, i, toolBlocks, argsBuf);
          argsBuf := argsBuf[index := (if index in argsBuf then argsBuf[index] else "") + part];
        case BlockStop(index) =>
          MirroredBlock(src.events, i, index, toolBlocks, argsBuf);
          MirrorsStop(src.events, i, toolBlocks, argsBuf);
          if index in toolBlocks {
            var (id, name) := toolBlocks[index];
            var args := if index in argsBuf then argsBuf[index] else "";
            ch := ch + [Tool(ToolCall(id, name, Normalize(objects, args)))];
            toolBlocks, argsBuf := toolBlocks - {index}, argsBuf - {index};
          }
        case UsageReport(tokens) =>
          MirrorsOther(src.events, i, toolBlocks, argsBuf);
          ch := ch + [Usage(tokens)];
        case MessageStop =>
          ch := ch + [Done];
          return;
        case Ignored =>
          MirrorsOther(src.events, i, toolBlocks, argsBuf);
      }
    }
    ch := ch + [if src.readFails then Failed(ReadFailed) else Done];
  }

  lemma {:induction false} NothingTerminalEmitted(events: seq<Event>, n: nat, objects: iset<string>)
    requires n <= |events|
    ensures forall k :: 0 <= k < |EmittedUpTo(events, n, objects)| ==> !IsTerminal(EmittedUpTo(events, n, objects)[k])
  {
    if n > 0 {
      NothingTerminalEmitted(events, n - 1, objects);
    }
  }

  /** Every stream has exactly one terminal chunk, and it is the last. */
  lemma OneTerminalLast(src: Source, objects: iset<string>)
    ensures var ch := Chunks(src, objects);
            ch != [] && forall k :: 0 <= k < |ch| ==> (IsTerminal(ch[k]) <==> k == |ch| - 1)
  {
    NothingTerminalEmitted(src.events, Length(src, 0), objects);
  }

  // ---- Assembling a turn ----

  /** A tool chunk continues the call before it when the ids agree. */
  function Merge(calls: seq<ToolCall>, tc: ToolCall): seq<ToolCall> {
    if calls != [] && calls[|calls| - 1].id == tc.id then
      var last := calls[|calls| - 1];
      calls[..|calls| - 1] + [ToolCall(tc.id, if tc.name != "" then tc.name else last.name, last.args + tc.args)]
    else calls + [tc]
  }

  function Assemble(tools: seq<ToolCall>): seq<ToolCall> {
    if tools == [] then [] else Merge(Assemble(tools[..|tools| - 1]), tools[|tools| - 1])
  }

  predicate NeighboursDiffer(tools: seq<ToolCall>) {
    forall k :: 0 < k < |tools| ==> tools[k - 1].id != tools[k].id
  }

  lemma {:induction false} AssembleNeverLonger(tools: seq<ToolCall>)
    ensures |Assemble(tools)| <= |tools|
    ensures tools != [] ==> Assemble(tools) != [] && Assemble(tools)[|Assemble(tools)| - 1].id == tools[|tools| - 1].id
  {
    if tools != [] {
      AssembleNeverLonger(tools[..|tools| - 1]);
    }
  }

  lemma NeighboursSnoc(front: seq<ToolCall>, t: ToolCall)
    ensures NeighboursDiffer(front + [t]) <==>
            NeighboursDiffer(front) && (front != [] ==> front[|front| - 1].id != t.id)
  {
    var tools, n := front + [t], |front|;
    if NeighboursDiffer(tools) {
      forall k | 0 < k < n ensures front[k - 1].id != front[k].id {
        assert tools[k - 1].id != tools[k].id;
      }
      assert n > 0 ==> tools[n - 1].id != tools[n].id;
    }
  }

  /** Merging one more call keeps the rest exactly when the ids differ. */
  lemma MergeKeepsIff(merged: seq<ToolCall>, front: seq<ToolCall>, t: ToolCall)
    requires |merged| <= |front|
    requires front != [] ==> merged != [] && merged[|merged| - 1].id == front[|front| - 1].id
    ensures Merge(merged, t) == front + [t] <==> merged == front && (front != [] ==> front[|front| - 1].id != t.id)
  {
    if front != [] && front[|front| - 1].id == t.id {
      assert |Merge(merged, t)| == |merged|;
    } else {
      assert Merge(merged, t) == merged + [t];
      assert merged + [t] == front + [t] ==> (merged + [t])[..|merged|] == (front + [t])[..|front|];
    }
  }

  /** Assembly leaves the calls as they came exactly when no two neighbours share an id. */
  lemma {:induction false} AssembleIdentityIff(tools: seq<ToolCall>)
    ensures Assemble(tools) == tools <==> NeighboursDiffer(tools)
  {
    if tools != [] {
      var n := |tools| - 1;
      var front, t := tools[..n], tools[n];
      hide NeighboursDiffer, Merge;
      assert tools == front + [t];
      AssembleIdentityIff(front);
      AssembleNeverLonger(front);
      NeighboursSnoc(front, t);
      MergeKeepsIff(Assemble(front), front, t);
    }
  }

  /** Hooks may refuse a usage report. What they do with the reports of a turn comes
      down to how many they accept before the one they refuse, if any. */
  function OneReportOn(refused: Option<nat>): Option<nat> {
    match refused
    case Some(n) => if n > 0 then Some(n - 1) else refused
    case None => None
  }

  /** Draining the channel: an error or a refused usage report ends the turn. */
  function TurnOf(ch: seq<Chunk>, refused: Option<nat>, text: string, calls: seq<ToolCall>)
    : (assistant: Option<Message>)
    ensures assistant.Some? ==> assistant.value.Assistant?
  {
    if ch == [] then Some(Assistant(text, calls))
    else
      match ch[0]
      case Failed(_) => None
      case Done => Some(Assistant(text, calls))
      case Text(t) => TurnOf(ch[1..], refused, text + t, calls)
      case Usage(_) => if refused == Some(0) then None else TurnOf(ch[1..], OneReportOn(refused), text, calls)
      case Tool(tc) => TurnOf(ch[1..], refused, text, Merge(calls, tc))
  }

  method StreamAssistantTurn(ch: seq<Chunk>, refused: Option<nat>) returns (assistant: Option<Message>)
    ensures assistant == TurnOf(ch, refused, "", [])
  {
    var text := "";
    var toolCalls: seq<ToolCall> := [];
    var current: Option<ToolCall> := None;
    var left := refused;
    for i := 0 to |ch|
      invariant current.None? ==> toolCalls == []
      invariant TurnOf(ch[i..], left, text, if current.Some? then toolCalls + [current.value] else [])
             == TurnOf(ch, refused, "", [])
    {
      assert ch[i..][0] == ch[i] && ch[i..][1..] == ch[i + 1..];
      match ch[i] {
        case Failed(_) => return None;
        case Done => break;
        case Text(t) => text := text + t;
        case Usage(_) =>
          if left == Some(0) {
            return None;
          }
          left := OneReportOn(left);
        case Tool(tc) =>
          if current.None? || current.value.id != tc.id {
            if current.Some? {
              toolCalls := toolCalls + [current.value];
            }
            current := Some(tc);
          } else {
            current := Some(ToolCall(tc.id, if tc.name != "" then tc.name else current.value.name,
                                     current.value.args + tc.args));
          }
      }
    }
    if current.Some? {
      toolCalls := toolCalls + [current.value];
    }
    assistant := Some(Assistant(text, toolCalls));
  }

  // ---- Stream and assembly together ----

  function TextIn(c: Chunk): seq<string> { if c.Text? then [c.text] else [] }
  function ToolIn(c: Chunk): seq<ToolCall> { if c.Tool? then [c.call] else [] }
  function DeltaIn(e: Event): seq<string> { if e.TextDelta? && e.text != "" then [e.text] else [] }

  function TextsOf(ch: seq<Chunk>): seq<string> {
    if ch == [] then [] else TextsOf(ch[..|ch| - 1]) + TextIn(ch[|ch| - 1])
  }

  function ToolsOf(ch: seq<Chunk>): seq<ToolCall> {
    if ch == [] then [] else ToolsOf(ch[..|ch| - 1]) + ToolIn(ch[|ch| - 1])
  }

  /** The non-empty text deltas among the first n events. */
  function Deltas(events: seq<Event>, n: nat): seq<string>
    requires n <= |events|
  {
    if n == 0 then [] else Deltas(events, n - 1) + DeltaIn(events[n - 1])
  }

  /** The calls of the blocks stopped among the first n events, in stop order. */
  function StoppedCalls(events: seq<Event>, n: nat, objects: iset<string>): seq<ToolCall>
    requires n <= |events|
  {
    if n == 0 then [] else StoppedCalls(events, n - 1, objects) + StoppedAt(events, n - 1, objects)
  }

  lemma OneMore(ch: seq<Chunk>, c: Chunk)
    ensures TextsOf(ch + [c]) == TextsOf(ch) + TextIn(c)
    ensures ToolsOf(ch + [c]) == ToolsOf(ch) + ToolIn(c)
  {
    assert (ch + [c])[..|ch|] == ch;
  }

  /** An event emits its text delta, or the call of the block it stops. */
  lemma EmittedOne(events: seq<Event>, i: nat, objects: iset<string>, ch: seq<Chunk>)
    requires i < |events|
    ensures TextsOf(ch + Emitted(events, i, objects)) == TextsOf(ch) + DeltaIn(events[i])
    ensures ToolsOf(ch + Emitted(events, i, objects)) == ToolsOf(ch) + StoppedAt(events, i, objects)
  {
    var e := Emitted(events, i, objects);
    if e == [] {
      assert ch + e == ch;
    } else {
      assert e == [e[0]];
      OneMore(ch, e[0]);
    }
  }

  lemma EmittedContentsStep(events: seq<Event>, n: nat, objects: iset<string>)
    requires n < |events|
    requires TextsOf(EmittedUpTo(events, n, objects)) == Deltas(events, n)
    requires ToolsOf(EmittedUpTo(events, n, objects)) == StoppedCalls(events, n, objects)
    ensures TextsOf(EmittedUpTo(events, n + 1, objects)) == Deltas(events, n + 1)
    ensures ToolsOf(EmittedUpTo(events, n + 1, objects)) == StoppedCalls(events, n + 1, objects)
  {
    hide TextsOf, ToolsOf, Emitted, StoppedAt, DeltaIn;
    EmittedOne(events, n, objects, EmittedUpTo(events, n, objects));
  }

  lemma EmittedNothingYet(events: seq<Event>, objects: iset<string>)
    ensures TextsOf(EmittedUpTo(events, 0, objects)) == Deltas(events, 0)
    ensures ToolsOf(EmittedUpTo(events, 0, objects)) == StoppedCalls(events, 0, objects)
  {
  }

  lemma {:induction false} EmittedContents(events: seq<Event>, n: nat, objects: iset<string>)
    requires n <= |events|
    ensures TextsOf(EmittedUpTo(events, n, objects)) == Deltas(events, n)
    ensures ToolsOf(EmittedUpTo(events, n, objects)) == StoppedCalls(events, n, objects)
    decreases n
  {
    hide *;
    if n == 0 {
      EmittedNothingYet(events, objects);
    } else {
      EmittedContents(events, n - 1, objects);
      EmittedContentsStep(events, n - 1, objects);
    }
  }

  predicate NoTerminal(ch: seq<Chunk>) {
    forall k :: 0 <= k < |ch| ==> !IsTerminal(ch[k])
  }

  /** How many usage reports there are. */
  function Reports(ch: seq<Chunk>): nat {
    if ch == [] then 0 else Reports(ch[..|ch| - 1]) + if ch[|ch| - 1].Usage? then 1 else 0
  }

  predicate Refuses(refused: Option<nat>, reports: nat) {
    refused.Some? && refused.value < reports
  }

  /** What is left of the hooks' patience after some reports. */
  function ReportsOn(refused: Option<nat>, reports: nat): Option<nat> {
    match refused
    case Some(n) => if reports <= n then Some(n - reports) else Some(0)
    case None => None
  }

  lemma TurnOfNext(c: Chunk, rest: seq<Chunk>, refused: Option<nat>, texts: seq<string>, tools: seq<ToolCall>)
    requires !IsTerminal(c)
    ensures TurnOf([c] + rest, refused, Joined(texts), Assemble(tools)) ==
            if c.Usage? && refused == Some(0) then None
            else TurnOf(rest, if c.Usage? then OneReportOn(refused) else refused,
                        Joined(texts + TextIn(c)), Assemble(tools + ToolIn(c)))
  {
    assert ([c] + rest)[1..] == rest;
    if c.Text? {
      assert (texts + [c.text])[..|texts|] == texts;
    } else {
      assert texts + TextIn(c) == texts;
    }
    if c.Tool? {
      assert (tools + [c.call])[..|tools|] == tools;
    } else {
      assert tools + ToolIn(c) == tools;
    }
  }

  lemma FrontIsPlain(ch: seq<Chunk>)
    requires ch != [] && NoTerminal(ch)
    ensures NoTerminal(ch[..|ch| - 1]) && !IsTerminal(ch[|ch| - 1])
  {
  }

  lemma TurnOfBodyStep(front: seq<Chunk>, c: Chunk, rest: seq<Chunk>, refused: Option<nat>)
    requires !IsTerminal(c)
    requires TurnOf(front + ([c] + rest), refused, "", []) ==
             if Refuses(refused, Reports(front)) then None
             else TurnOf([c] + rest, ReportsOn(refused, Reports(front)),
                         Joined(TextsOf(front)), Assemble(ToolsOf(front)))
    ensures TurnOf((front + [c]) + rest, refused, "", []) ==
            if Refuses(refused, Reports(front + [c])) then None
            else TurnOf(rest, ReportsOn(refused, Reports(front + [c])),
                        Joined(TextsOf(front + [c])), Assemble(ToolsOf(front + [c])))
  {
    hide TurnOf, Joined, Assemble, TextsOf, ToolsOf, TextIn, ToolIn;
    assert (front + [c]) + rest == front + ([c] + rest);
    assert (front + [c])[..|front|] == front;
    TurnOfNext(c, rest, ReportsOn(refused, Reports(front)), TextsOf(front), ToolsOf(front));
    OneMore(front, c);
  }

  /** Plain chunks before the rest: a report refused among them ends the turn, else
      their texts and calls are gathered. */
  lemma {:induction false} TurnOfBody(ch: seq<Chunk>, rest: seq<Chunk>, refused: Option<nat>)
    requires NoTerminal(ch)
    ensures TurnOf(ch + rest, refused, "", []) ==
            if Refuses(refused, Reports(ch)) then None
            else TurnOf(rest, ReportsOn(refused, Reports(ch)), Joined(TextsOf(ch)), Assemble(ToolsOf(ch)))
    decreases |ch|
  {
    if ch == [] {
      assert ch + rest == rest;
      return;
    }
    var front, c := ch[..|ch| - 1], ch[|ch| - 1];
    FrontIsPlain(ch);
    assert ch == front + [c];
    hide *;
    TurnOfBody(front, [c] + rest, refused);
    TurnOfBodyStep(front, c, rest, refused);
  }

  lemma TurnAtEnd(c: Chunk, refused: Option<nat>, text: string, calls: seq<ToolCall>)
    requires IsTerminal(c)
    ensures TurnOf([c], refused, text, calls) == if c == Done then Some(Assistant(text, calls)) else None
  {
  }

  /** A turn succeeds exactly when its stream ends well and no usage report is
      refused. Its text is then all the text deltas, and its calls are those of
      the stopped blocks, joined where neighbours share an id. */
  lemma TurnFromEvents(src: Source, objects: iset<string>, refused: Option<nat>)
    ensures var n := Length(src, 0);
            TurnOf(Chunks(src, objects), refused, "", []) ==
            if Terminal(src) == Done && !Refuses(refused, ReportsIn(src.events, n))
            then Some(Assistant(Joined(Deltas(src.events, n)), Assemble(StoppedCalls(src.events, n, objects))))
            else None
  {
    hide Joined, Assemble, TextsOf, ToolsOf, Deltas, StoppedCalls, EmittedUpTo, TurnOf, Length, Reports, ReportsIn;
    var n := Length(src, 0);
    var body := EmittedUpTo(src.events, n, objects);
    NothingTerminalEmitted(src.events, n, objects);
    TurnOfBody(body, [Terminal(src)], refused);
    EmittedContents(src.events, n, objects);
    EmittedReports(src.events, n, objects);
    TurnAtEnd(Terminal(src), ReportsOn(refused, Reports(body)), Joined(Deltas(src.events, n)),
              Assemble(StoppedCalls(src.events, n, objects)));
  }

  /** The usage reports among the first n events. */
  function ReportsIn(events: seq<Event>, n: nat): nat
    requires n <= |events|
  {
    if n == 0 then 0 else ReportsIn(events, n - 1) + if events[n - 1].UsageReport? then 1 else 0
  }

  lemma ReportsOfOne(events: seq<Event>, i: nat, objects: iset<string>, ch: seq<Chunk>)
    requires i < |events|
    ensures Reports(ch + Emitted(events, i, objects)) == Reports(ch) + if events[i].UsageReport? then 1 else 0
  {
    var e := Emitted(events, i, objects);
    if e == [] {
      assert ch + e == ch;
    } else {
      assert e == [e[0]] && (ch + e)[..|ch|] == ch;
    }
  }

  lemma {:induction false} EmittedReports(events: seq<Event>, n: nat, objects: iset<string>)
    requires n <= |events|
    ensures Reports(EmittedUpTo(events, n, objects)) == ReportsIn(events, n)
    decreases n
  {
    hide Emitted;
    if n > 0 {
      EmittedReports(events, n - 1, objects);
      ReportsOfOne(events, n - 1, objects, EmittedUpTo(events, n - 1, objects));
    }
  }

  lemma {:induction false} ReportsHead(ch: seq<Chunk>)
    requires ch != []
    ensures Reports(ch) == Reports(ch[1..]) + if ch[0].Usage? then 1 else 0
  {
    var n := |ch| - 1;
    if n == 0 {
      assert ch[..0] == [] && ch[1..] == [];
    } else {
      ReportsHead(ch[..n]);
      assert ch[..n][1..] == ch[1..][..n - 1];
    }
  }

  /** A refused report fails the turn, whatever was gathered before. */
  lemma {:induction false} RefusedUsageFails(ch: seq<Chunk>, refused: Option<nat>, text: string, calls: seq<ToolCall>)
    requires NoTerminal(ch[..|ch| - (if ch == [] then 0 else 1)]) && Refuses(refused, Reports(ch))
    ensures TurnOf(ch, refused, text, calls) == None
    decreases |ch|
  {
    ReportsHead(ch);
    assert forall j :: 0 <= j < |ch| - 2 ==> ch[1..][j] == ch[..|ch| - 1][j + 1];
    assert |ch| > 1 ==> ch[0] == ch[..|ch| - 1][0];
    match ch[0]
    case Text(t) => RefusedUsageFails(ch[1..], refused, text + t, calls);
    case Tool(tc) => RefusedUsageFails(ch[1..], refused, text, Merge(calls, tc));
    case Usage(_) =>
      if refused != Some(0) {
        RefusedUsageFails(ch[1..], OneReportOn(refused), text, calls);
      }
    case _ =>
  }

  // ---- A turn, from its events ----

  ghost predicate Ascending(ps: seq<nat>) {
    forall j, k :: 0 <= j < k < |ps| ==> ps[j] < ps[k]
  }

  /** All the text deltas among the first n events, in order. */
  ghost predicate GathersTexts(events: seq<Event>, n: nat, ps: seq<nat>, texts: seq<string>)
    requires n <= |events|
  {
    && Ascending(ps) && |texts| == |ps|
    && (forall k :: 0 <= k < |ps| ==> ps[k] < n && events[ps[k]] == TextDelta(texts[k]))
    && (forall j :: 0 <= j < n && events[j].TextDelta? ==> j in ps)
  }

  lemma {:induction false} TextsGathered(events: seq<Event>, n: nat) returns (ps: seq<nat>, texts: seq<string>)
    requires n <= |events|
    ensures GathersTexts(events, n, ps, texts) && Joined(texts) == Joined(Deltas(events, n))
  {
    hide Joined, GathersTexts;
    if n == 0 {
      NoTextsYet(events);
      ps, texts := [], [];
    } else {
      ps, texts := TextsGathered(events, n - 1);
      OneMoreText(events, n, ps, texts);
      var e := events[n - 1];
      if e.TextDelta? {
        JoinedSnoc(texts, e.text);
        JoinedSnoc(Deltas(events, n - 1), e.text);
        ps, texts := ps + [n - 1], texts + [e.text];
      }
      assert (e.TextDelta? && e.text != "") || Deltas(events, n) == Deltas(events, n - 1);
    }
  }

  lemma NoTextsYet(events: seq<Event>)
    ensures GathersTexts(events, 0, [], []) && Deltas(events, 0) == []
  {
  }

  lemma OneMoreText(events: seq<Event>, n: nat, ps: seq<nat>, texts: seq<string>)
    requires 0 < n <= |events| && GathersTexts(events, n - 1, ps, texts)
    ensures var e := events[n - 1];
            if e.TextDelta? then GathersTexts(events, n, ps + [n - 1], texts + [e.text])
            else GathersTexts(events, n, ps, texts)
  {
    if events[n - 1].TextDelta? {
      var qs := ps + [n - 1];
      assert qs[|ps|] == n - 1;
      assert forall j :: j in ps ==> j in qs;
    }
  }

  /** All the fragments for an index between two events, in order. */
  ghost predicate GathersParts(events: seq<Event>, from: nat, n: nat, index: int, ps: seq<nat>, parts: seq<string>)
    requires n <= |events|
  {
    && Ascending(ps) && |parts| == |ps|
    && (forall k :: 0 <= k < |ps| ==> from <= ps[k] < n && events[ps[k]] == JsonDelta(index, parts[k]))
    && (forall j :: from <= j < n && events[j].JsonDelta? && events[j].index == index ==> j in ps)
  }

  lemma {:induction false} PartsGathered(events: seq<Event>, from: nat, n: nat, index: int)
    returns (ps: seq<nat>, parts: seq<string>)
    requires n <= |events|
    ensures GathersParts(events, from, n, index, ps, parts) && Joined(parts) == Fragments(events, from, n, index)
    decreases n
  {
    hide Joined, GathersParts;
    if n <= from {
      NoPartsYet(events, from, n, index);
      ps, parts := [], [];
    } else {
      ps, parts := PartsGathered(events, from, n - 1, index);
      OneMorePart(events, from, n, index, ps, parts);
      var e := events[n - 1];
      if e.JsonDelta? && e.index == index {
        JoinedSnoc(parts, e.part);
        ps, parts := ps + [n - 1], parts + [e.part];
      } else {
        assert Fragments(events, from, n - 1, index) + "" == Fragments(events, from, n - 1, index);
      }
    }
  }

  lemma NoPartsYet(events: seq<Event>, from: nat, n: nat, index: int)
    requires n <= |events| && n <= from
    ensures GathersParts(events, from, n, index, [], []) && Joined([]) == Fragments(events, from, n, index)
  {
  }

  lemma OneMorePart(events: seq<Event>, from: nat, n: nat, index: int, ps: seq<nat>, parts: seq<string>)
    requires from < n <= |events| && GathersParts(events, from, n - 1, index, ps, parts)
    ensures var e := events[n - 1];
            if e.JsonDelta? && e.index == index
            then GathersParts(events, from, n, index, ps + [n - 1], parts + [e.part])
            else GathersParts(events, from, n, index, ps, parts)
  {
    if events[n - 1].JsonDelta? && events[n - 1].index == index {
      var qs := ps + [n - 1];
      assert qs[|ps|] == n - 1;
      assert forall j :: j in ps ==> j in qs;
    }
  }

  /** The listing of some positions is unique, and so are the parts there. */
  lemma {:induction false} SameParts(events: seq<Event>, from: nat, n: nat, index: int,
                                     ps: seq<nat>, parts: seq<string>, qs: seq<nat>,
                                     others: seq<string>)
    requires n <= |events| && GathersParts(events, from, n, index, ps, parts)
    requires GathersParts(events, from, n, index, qs, others)
    ensures parts == others
    decreases |ps|
  {
    SomeParts(events, from, n, index, ps, parts, qs, others);
    SomeParts(events, from, n, index, qs, others, ps, parts);
    if ps != [] {
      var p := ps[|ps| - 1];
      SameLast(events, from, n, index, ps, parts, qs, others);
      FewerParts(events, from, n, index, ps, parts);
      FewerParts(events, from, n, index, qs, others);
      SameParts(events, from, p, index, ps[..|ps| - 1], parts[..|ps| - 1], qs[..|qs| - 1], others[..|qs| - 1]);
      assert parts == parts[..|ps| - 1] + [parts[|ps| - 1]] && others == others[..|qs| - 1] + [others[|qs| - 1]];
    }
  }

  lemma SomeParts(events: seq<Event>, from: nat, n: nat, index: int, ps: seq<nat>, parts: seq<string>,
                  qs: seq<nat>, others: seq<string>)
    requires n <= |events| && GathersParts(events, from, n, index, ps, parts)
    requires GathersParts(events, from, n, index, qs, others)
    ensures ps != [] ==> qs != []
  {
    if ps != [] {
      assert ps[0] in qs;
    }
  }

  lemma SameLast(events: seq<Event>, from: nat, n: nat, index: int, ps: seq<nat>, parts: seq<string>,
                 qs: seq<nat>, others: seq<string>)
    requires n <= |events| && GathersParts(events, from, n, index, ps, parts) && ps != []
    requires GathersParts(events, from, n, index, qs, others) && qs != []
    ensures ps[|ps| - 1] == qs[|qs| - 1]
  {
    var p, q := ps[|ps| - 1], qs[|qs| - 1];
    assert p in qs && q in ps;
  }

  lemma FewerParts(events: seq<Event>, from: nat, n: nat, index: int, ps: seq<nat>, parts: seq<string>)
    requires n <= |events| && GathersParts(events, from, n, index, ps, parts) && ps != []
    ensures GathersParts(events, from, ps[|ps| - 1], index, ps[..|ps| - 1], parts[..|ps| - 1])
  {
    var p, front := ps[|ps| - 1], ps[..|ps| - 1];
    forall j | from <= j < p && events[j].JsonDelta? && events[j].index == index ensures j in front {
      assert j in ps;
      assert ps == front + [p];
    }
  }

  /** The call of a stopped block: id and name from its start, and as arguments the
      fragments since then for its index joined in order, if they are a JSON object. */
  lemma StoppedCallIs(events: seq<Event>, q: nat, i: nat, index: int, id: string, name: string, ps: seq<nat>,
                      parts: seq<string>, objects: iset<string>)
    requires q < i < |events| && events[q] == ToolStart(index, id, name) && events[i] == BlockStop(index)
    requires forall j :: q < j < i ==>
               !(events[j].ToolStart? && events[j].index == index) && events[j] != BlockStop(index)
    requires GathersParts(events, q + 1, i, index, ps, parts)
    ensures StoppedAt(events, i, objects) ==
            [ToolCall(id, name, if Joined(parts) in objects then Joined(parts) else "{}")]
  {
    hide Fragments, GathersParts, Joined, OpenBlock;
    var qs, others := PartsGathered(events, q + 1, i, index);
    SameParts(events, q + 1, i, index, ps, parts, qs, others);
    assert StartedAt(events, q, i, index, Block(id, name, Joined(parts)));
    StartedIsOpen(events, q, i, index, Block(id, name, Joined(parts)));
  }

  /** An event that stops no started block yields no call. */
  lemma NothingStopped(events: seq<Event>, i: nat, objects: iset<string>)
    requires i < |events|
    requires events[i].BlockStop? ==>
               forall q :: 0 <= q < i && events[q].ToolStart? && events[q].index == events[i].index ==>
                 exists j :: q < j < i && events[j] == events[i]
    ensures StoppedAt(events, i, objects) == []
  {
    if events[i].BlockStop? && OpenBlock(events, i, events[i].index).Some? {
      OpenBlockStarted(events, i, events[i].index);
    }
  }

  /** The last name given, of those that are not empty. */
  ghost predicate LastName(run: seq<ToolCall>, name: string) {
    if forall k :: 0 <= k < |run| ==> run[k].name == "" then name == ""
    else
      name != "" && exists k :: 0 <= k < |run| && run[k].name == name && forall j :: k < j < |run| ==> run[j].name == ""
  }

  lemma LastNameSnoc(front: seq<ToolCall>, name: string, last: ToolCall)
    requires LastName(front, name)
    ensures LastName(front + [last], if last.name != "" then last.name else name)
  {
    var run := front + [last];
    assert run[|front|] == last;
    if last.name == "" && name != "" {
      var k :| 0 <= k < |front| && front[k].name == name && forall j :: k < j < |front| ==> front[j].name == "";
      assert run[k].name == name && forall j :: k < j < |run| ==> run[j].name == "";
    } else if last.name != "" {
      assert run[|front|].name == last.name;
    } else {
      assert forall k :: 0 <= k < |front| ==> front[k].name == "";
    }
  }

  /** Calls with one id in a row become one call: that id, the last name given, and the
      arguments of all of them joined in order. */
  lemma {:induction false} RunIsJoined(front: seq<ToolCall>, run: seq<ToolCall>)
    returns (name: string, args: seq<string>)
    requires run != [] && forall k :: 0 <= k < |run| ==> run[k].id == run[0].id
    requires front != [] ==> front[|front| - 1].id != run[0].id
    ensures LastName(run, name) && |args| == |run| && forall k :: 0 <= k < |run| ==> args[k] == run[k].args
    ensures Assemble(front + run) == Assemble(front) + [ToolCall(run[0].id, name, Joined(args))]
    decreases |run|
  {
    hide Assemble, Merge, Joined, LastName;
    var n := |run| - 1;
    var last := run[n];
    AssembleLast(front + run[..n], last);
    assert front + run == (front + run[..n]) + [last];
    if n == 0 {
      name, args := last.name, [last.args];
      assert front + run[..0] == front && run == [last];
      OneIsJoined(front, last);
    } else {
      name, args := RunIsJoined(front, run[..n]);
      JoinedSnoc(args, last.args);
      LastNameSnoc(run[..n], name, last);
      assert run[..n] + [last] == run;
      MergeSame(Assemble(front), ToolCall(last.id, name, Joined(args)), last);
      name, args := if last.name != "" then last.name else name, args + [last.args];
    }
  }

  lemma AssembleLast(front: seq<ToolCall>, last: ToolCall)
    ensures Assemble(front + [last]) == Merge(Assemble(front), last)
  {
    assert (front + [last])[..|front|] == front;
  }

  lemma OneIsJoined(front: seq<ToolCall>, last: ToolCall)
    requires front != [] ==> front[|front| - 1].id != last.id
    ensures Merge(Assemble(front), last) == Assemble(front) + [ToolCall(last.id, last.name, Joined([last.args]))]
    ensures LastName([last], last.name)
  {
    hide Assemble, Merge, Joined;
    AssembleNeverLonger(front);
    MergeOther(Assemble(front), last, front);
    JoinedOne(last.args);
    assert [last][0].name == last.name;
  }

  lemma MergeOther(calls: seq<ToolCall>, last: ToolCall, front: seq<ToolCall>)
    requires |calls| <= |front|
    requires front != [] ==> calls != [] && calls[|calls| - 1].id == front[|front| - 1].id != last.id
    ensures Merge(calls, last) == calls + [last]
  {
  }

  lemma JoinedOne(text: string)
    ensures Joined([text]) == text
  {
    JoinedSnoc([], text);
    assert [] + [text] == [text];
  }

  lemma MergeSame(calls: seq<ToolCall>, x: ToolCall, y: ToolCall)
    requires x.id == y.id
    ensures Merge(calls + [x], y) == calls + [ToolCall(y.id, if y.name != "" then y.name else x.name, x.args + y.args)]
  {
    assert (calls + [x])[..|calls|] == calls;
  }

  ghost function UsageAt(events: seq<Event>, n: nat): set<nat>
    requires n <= |events|
  {
    set i: nat | i < n && events[i].UsageReport?
  }

  lemma {:induction false} ReportsAreSet(events: seq<Event>, n: nat)
    requires n <= |events|
    ensures ReportsIn(events, n) == |UsageAt(events, n)|
  {
    if n == 0 {
      assert UsageAt(events, 0) == {};
    } else {
      ReportsAreSet(events, n - 1);
      assert UsageAt(events, n) == UsageAt(events, n - 1) + if events[n - 1].UsageReport? then {n - 1} else {};
    }
  }

  /** The stream is read up to event n: the first that stops it or comes after a cancellation. */
  ghost predicate ReadUpTo(src: Source, n: nat) {
    && n <= |src.events|
    && (forall j: nat :: j < n ==> GoesPast(src, j))
    && (n < |src.events| ==> !GoesPast(src, n))
  }

  lemma SameStop(src: Source, m: nat, n: nat)
    requires ReadUpTo(src, m) && ReadUpTo(src, n)
    ensures m == n
  {
  }

  lemma {:induction false} EmittedKept(events: seq<Event>, m: nat, n: nat, objects: iset<string>)
    requires m <= n <= |events|
    ensures EmittedUpTo(events, m, objects) <= EmittedUpTo(events, n, objects)
    decreases n
  {
    if m < n {
      EmittedKept(events, m, n - 1, objects);
    }
  }

  /** Every usage report read is passed on with its count of tokens, in its place. */
  lemma ReportIsPassedOn(src: Source, objects: iset<string>, n: nat, i: nat)
    requires ReadUpTo(src, n) && i < n && src.events[i].UsageReport?
    ensures EmittedUpTo(src.events, i, objects) + [Usage(src.events[i].tokens)] <= Chunks(src, objects)
  {
    LengthStops(src, 0);
    SameStop(src, n, Length(src, 0));
    EmittedKept(src.events, i + 1, n, objects);
    ReportEmits(src.events, i, objects);
  }

  lemma ReportEmits(events: seq<Event>, i: nat, objects: iset<string>)
    requires i < |events| && events[i].UsageReport?
    ensures Emitted(events, i, objects) == [Usage(events[i].tokens)]
  {
  }

  /** A turn succeeds exactly when its stream is stopped in time or runs out, and hooks
      refuse none of the usage reports read; its text is then all the text deltas read. */
  lemma TurnSucceedsIff(src: Source, objects: iset<string>, refused: Option<nat>, n: nat)
    returns (ps: seq<nat>, texts: seq<string>)
    requires ReadUpTo(src, n)
    ensures var turn := TurnOf(Chunks(src, objects), refused, "", []);
            && (turn.Some? <==>
                && (StopsInTime(src) || RunsOut(src))
                && (refused.None? || |set i: nat | i < n && src.events[i].UsageReport?| <= refused.value))
            && GathersTexts(src.events, n, ps, texts)
            && (turn.Some? ==> turn.value.content == Joined(texts))
  {
    hide Joined, Assemble, TextsOf, ToolsOf, Deltas, StoppedCalls, EmittedUpTo, TurnOf, Reports, ReportsIn, Terminal;
    LengthStops(src, 0);
    SameStop(src, n, Length(src, 0));
    TurnFromEvents(src, objects, refused);
    TerminalIff(src);
    ReportsAreSet(src.events, n);
    ps, texts := TextsGathered(src.events, n);
  }

  /** One call between and around two pieces of text: both texts in one, and the call's
      fragments in one. */
  lemma TurnWithOneCall(x: string, y: string, index: int, id: string, name: string, p: string, q: string,
                        objects: iset<string>)
    requires x != "" && y != "" && p + q in objects
    ensures var src := Source([TextDelta(x), ToolStart(index, id, name), JsonDelta(index, p), TextDelta(y),
                               JsonDelta(index, q), BlockStop(index), MessageStop], None, false);
            TurnOf(Chunks(src, objects), None, "", []) == Some(Assistant(x + y, [ToolCall(id, name, p + q)]))
  {
    var events := [TextDelta(x), ToolStart(index, id, name), JsonDelta(index, p), TextDelta(y),
                   JsonDelta(index, q), BlockStop(index), MessageStop];
    var src := Source(events, None, false);
    assert Chunks(src, objects) == [Text(x), Text(y), Tool(ToolCall(id, name, p + q)), Done] by {
      hide Length, Emitted, StoppedAt, TurnOf;
      LengthStops(src, 0);
      SameStop(src, 6, Length(src, 0));
      OneCallEmits(events, x, y, index, id, name, p, q, objects);
    }
    TurnOfFour(x, y, ToolCall(id, name, p + q));
  }

  lemma OneCallEmits(events: seq<Event>, x: string, y: string, index: int, id: string, name: string, p: string,
                     q: string, objects: iset<string>)
    requires x != "" && y != "" && p + q in objects
    requires events == [TextDelta(x), ToolStart(index, id, name), JsonDelta(index, p), TextDelta(y),
                        JsonDelta(index, q), BlockStop(index), MessageStop]
    ensures EmittedUpTo(events, 6, objects) == [Text(x), Text(y), Tool(ToolCall(id, name, p + q))]
  {
    assert OpenBlock(events, 2, index) == Some(Block(id, name, ""));
    assert OpenBlock(events, 3, index) == Some(Block(id, name, "" + p)) && "" + p == p;
    assert OpenBlock(events, 4, index) == Some(Block(id, name, p));
    assert OpenBlock(events, 5, index) == Some(Block(id, name, p + q));
    assert EmittedUpTo(events, 1, objects) == [Text(x)];
    assert EmittedUpTo(events, 2, objects) == [Text(x)];
    assert EmittedUpTo(events, 3, objects) == [Text(x)];
    assert EmittedUpTo(events, 4, objects) == [Text(x), Text(y)];
    assert EmittedUpTo(events, 5, objects) == [Text(x), Text(y)];
  }

  lemma TurnOfFour(x: string, y: string, tc: ToolCall)
    ensures TurnOf([Text(x), Text(y), Tool(tc), Done], None, "", []) == Some(Assistant(x + y, [tc]))
  {
    var ch := [Text(x), Text(y), Tool(tc), Done];
    assert ch[1..] == [Text(y), Tool(tc), Done] && ch[1..][1..] == [Tool(tc), Done] && ch[1..][1..][1..] == [Done];
    assert Merge([], tc) == [tc];
    assert TurnOf([Done], None, x + y, [tc]) == Some(Assistant(x + y, [tc]));
    assert TurnOf([Tool(tc), Done], None, x + y, []) == TurnOf([Done], None, x + y, [tc]);
    assert TurnOf(ch[1..], None, x, []) == TurnOf(ch[1..][1..], None, x + y, []);
    assert "" + x == x;
  }
}
