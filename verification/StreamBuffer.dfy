/** The live output buffer of internal/ui/tui/stream.go: tokens are batched,
    shown clause by clause, and re-rendered as one block when the block ends. */
module StreamBuffer {
  import opened Wrappers
  import opened Clauses

  /** A markdown renderer: texts it cannot render are shown as they are. */
  type Renderer = imap<string, string>

  function Render(r: Option<Renderer>, raw: string): string {
    if raw == "" || r.None? || raw !in r.value then raw else r.value[raw]
  }

  // ---- What the buffer means ----

  /** A finished piece of output: prose with the renderer that finished it, or
      text of the interface itself. */
  datatype Item = Prose(text: string, renderer: Option<Renderer>) | Chrome(text: string)

  datatype Msg =
    | Token(text: string)
    | FlushTick
    | Write(text: string)
    | ToolBegin(header: string)
    | ToolEnd(lines: string)
    | Resize(renderer: Option<Renderer>)
    | Clear
    | CommitTurn

  /** Turns already committed, the finished items of the live one, and the raw
      text of the block being streamed. */
  datatype Screen = Screen(turns: seq<seq<Item>>, live: seq<Item>, block: string,
                           renderer: Option<Renderer>, noColor: bool)

  function Shown(item: Item): string {
    match item
    case Prose(text, r) => Render(r, text)
    case Chrome(text) => text
  }

  function ShownAll(items: seq<Item>): string {
    if items == [] then "" else ShownAll(items[..|items| - 1]) + Shown(items[|items| - 1])
  }

  function CloseBlock(s: Screen): Screen {
    if s.block == "" then s else s.(live := s.live + [Prose(s.block, s.renderer)], block := "")
  }

  function AddChrome(s: Screen, text: string): Screen {
    var c := CloseBlock(s);
    c.(live := c.live + [Chrome(text)])
  }

  function Step(s: Screen, m: Msg): Screen {
    match m
    case Token(text) => s.(block := s.block + text)
    case FlushTick => s
    case Write(text) => AddChrome(s, text)
    case ToolBegin(header) => AddChrome(s, "\n" + header + "\n")
    case ToolEnd(lines) => AddChrome(s, lines)
    case Resize(r) => if s.noColor || r.None? then s else s.(renderer := r)
    case Clear => s.(live := [], block := "")
    case CommitTurn => var c := CloseBlock(s); c.(turns := c.turns + [c.live], live := [])
  }

  // ---- Whole runs of messages ----

  function Run(s: Screen, msgs: seq<Msg>): Screen {
    if msgs == [] then s else Step(Run(s, msgs[..|msgs| - 1]), msgs[|msgs| - 1])
  }

  lemma RunSnoc(s: Screen, msgs: seq<Msg>, m: Msg)
    ensures Run(s, msgs + [m]) == Step(Run(s, msgs), m)
  {
    assert (msgs + [m])[..|msgs|] == msgs;
  }

  lemma {:induction false} RunConcat(s: Screen, xs: seq<Msg>, ys: seq<Msg>)
    ensures Run(s, xs + ys) == Run(Run(s, xs), ys)
  {
    if ys == [] {
      assert xs + ys == xs;
    } else {
      var n := |ys| - 1;
      RunConcat(s, xs, ys[..n]);
      assert (xs + ys)[..|xs + ys| - 1] == xs + ys[..n];
    }
  }

  function WithoutTicks(msgs: seq<Msg>): seq<Msg> {
    if msgs == [] then []
    else
      var m := msgs[|msgs| - 1];
      WithoutTicks(msgs[..|msgs| - 1]) + if m.FlushTick? then [] else [m]
  }

  /** When flushes happen makes no difference to what is finished or committed. */
  lemma {:induction false} FlushTimingInvisible(s: Screen, msgs: seq<Msg>)
    ensures Run(s, msgs) == Run(s, WithoutTicks(msgs))
  {
    if msgs != [] {
      var front, m := msgs[..|msgs| - 1], msgs[|msgs| - 1];
      FlushTimingInvisible(s, front);
      hide Step;
      if m.FlushTick? {
        TickChangesNothing(Run(s, front), m);
        assert WithoutTicks(msgs) == WithoutTicks(front);
      } else {
        RunSnoc(s, WithoutTicks(front), m);
      }
    }
  }

  lemma TickChangesNothing(s: Screen, m: Msg)
    requires m.FlushTick?
    ensures Step(s, m) == s
  {
  }

  /** Nor does the way the provider cuts its text into tokens. */
  lemma ChunkingInvisible(s: Screen, before: seq<Msg>, x: string, y: string, after: seq<Msg>)
    ensures Run(s, before + [Token(x), Token(y)] + after) == Run(s, before + [Token(x + y)] + after)
  {
    var t := Run(s, before);
    RunConcat(s, before + [Token(x), Token(y)], after);
    RunConcat(s, before + [Token(x + y)], after);
    assert before + [Token(x), Token(y)] == before + [Token(x)] + [Token(y)];
    RunSnoc(s, before + [Token(x)], Token(y));
    RunSnoc(s, before, Token(x));
    RunSnoc(s, before, Token(x + y));
    assert (t.block + x) + y == t.block + (x + y);
  }

  function RawOf(item: Item): string {
    match item
    case Prose(text, _) => text
    case Chrome(text) => text
  }

  function RawAll(items: seq<Item>): string {
    if items == [] then "" else RawAll(items[..|items| - 1]) + RawOf(items[|items| - 1])
  }

  function RawTurns(turns: seq<seq<Item>>): string {
    if turns == [] then "" else RawTurns(turns[..|turns| - 1]) + RawAll(turns[|turns| - 1])
  }

  function RawScreen(s: Screen): string {
    RawTurns(s.turns) + RawAll(s.live) + s.block
  }

  /** The text a message brings. */
  function Brings(m: Msg): string {
    match m
    case Token(text) => text
    case Write(text) => text
    case ToolBegin(header) => "\n" + header + "\n"
    case ToolEnd(lines) => lines
    case _ => ""
  }

  function Said(msgs: seq<Msg>): string {
    if msgs == [] then "" else Said(msgs[..|msgs| - 1]) + Brings(msgs[|msgs| - 1])
  }

  lemma RawSnoc(items: seq<Item>, item: Item)
    ensures RawAll(items + [item]) == RawAll(items) + RawOf(item)
  {
    assert (items + [item])[..|items|] == items;
  }

  lemma RawTurnsSnoc(turns: seq<seq<Item>>, turn: seq<Item>)
    ensures RawTurns(turns + [turn]) == RawTurns(turns) + RawAll(turn)
  {
    assert (turns + [turn])[..|turns|] == turns;
  }

  lemma CloseKeepsRaw(s: Screen)
    ensures RawScreen(CloseBlock(s)) == RawScreen(s) && CloseBlock(s).block == ""
  {
    hide RawTurns;
    if s.block != "" {
      RawSnoc(s.live, Prose(s.block, s.renderer));
      assert RawTurns(s.turns) + (RawAll(s.live) + s.block) + "" == RawTurns(s.turns) + RawAll(s.live) + s.block;
    }
  }

  lemma ChromeKeepsRaw(s: Screen, text: string)
    ensures RawScreen(AddChrome(s, text)) == RawScreen(s) + text
  {
    hide RawTurns, CloseBlock, RawAll;
    var c := CloseBlock(s);
    CloseKeepsRaw(s);
    RawSnoc(c.live, Chrome(text));
    assert RawTurns(c.turns) + (RawAll(c.live) + text) + "" == (RawTurns(c.turns) + RawAll(c.live) + "") + text;
  }

  lemma CommitKeepsRaw(s: Screen)
    ensures RawScreen(Step(s, CommitTurn)) == RawScreen(s)
  {
    hide RawTurns, CloseBlock;
    var c := CloseBlock(s);
    CloseKeepsRaw(s);
    RawTurnsSnoc(c.turns, c.live);
    assert (RawTurns(c.turns) + RawAll(c.live)) + "" + "" == RawTurns(c.turns) + RawAll(c.live) + "";
  }

  lemma StepKeepsRaw(s: Screen, m: Msg)
    requires !m.Clear?
    ensures RawScreen(Step(s, m)) == RawScreen(s) + Brings(m)
  {
    hide RawTurns, RawAll;
    match m {
      case Token(text) =>
        assert RawTurns(s.turns) + RawAll(s.live) + (s.block + text) == RawScreen(s) + text;
      case Write(text) => ChromeKeepsRaw(s, text);
      case ToolBegin(header) => ChromeKeepsRaw(s, "\n" + header + "\n");
      case ToolEnd(lines) => ChromeKeepsRaw(s, lines);
      case CommitTurn => CommitKeepsRaw(s);
      case _ =>
    }
  }

  /** Over any run without a clear, the committed turns, the live one and the
      block together hold every text that came in, once and in order. */
  lemma {:induction false} NothingLost(s: Screen, msgs: seq<Msg>)
    requires forall i :: 0 <= i < |msgs| ==> !msgs[i].Clear?
    ensures RawScreen(Run(s, msgs)) == RawScreen(s) + Said(msgs)
    decreases |msgs|
  {
    hide RawScreen, Step, Brings;
    if msgs != [] {
      var front, m := msgs[..|msgs| - 1], msgs[|msgs| - 1];
      NothingLost(s, front);
      StepKeepsRaw(Run(s, front), m);
      assert (RawScreen(s) + Said(front)) + Brings(m) == RawScreen(s) + (Said(front) + Brings(m));
    }
  }

  predicate WithinBlock(m: Msg) { m.Token? || m.FlushTick? || m.Resize? }

  /** Between two block ends nothing is finished, and the block is all its tokens
      in order: closing it renders exactly that. */
  lemma {:induction false} BlockHoldsItsTokens(s: Screen, msgs: seq<Msg>)
    requires forall i :: 0 <= i < |msgs| ==> WithinBlock(msgs[i])
    ensures var t := Run(s, msgs);
            && t.block == s.block + Said(msgs) && t.live == s.live && t.turns == s.turns
            && (t.block != "" ==> CloseBlock(t).live == s.live + [Prose(s.block + Said(msgs), t.renderer)])
    decreases |msgs|
  {
    if msgs != [] {
      var front, m := msgs[..|msgs| - 1], msgs[|msgs| - 1];
      BlockHoldsItsTokens(s, front);
      assert (s.block + Said(front)) + Brings(m) == s.block + (Said(front) + Brings(m));
    }
  }

  /** No colour, no renderer: prose is shown as it came. */
  predicate PlainItems(items: seq<Item>) {
    forall i :: 0 <= i < |items| && items[i].Prose? ==> items[i].renderer == None
  }

  lemma {:induction false} PlainShowsRaw(items: seq<Item>)
    requires PlainItems(items)
    ensures ShownAll(items) == RawAll(items)
  {
    if items != [] {
      PlainShowsRaw(items[..|items| - 1]);
    }
  }

  ghost predicate PlainScreen(s: Screen) {
    s.noColor && s.renderer == None && PlainItems(s.live)
    && forall i :: 0 <= i < |s.turns| ==> PlainItems(s.turns[i])
  }

  lemma PlainStep(s: Screen, m: Msg)
    requires PlainScreen(s)
    ensures PlainScreen(Step(s, m))
  {
  }

  /** Without colour every turn is printed exactly as its text came in. */
  lemma {:induction false} PlainRun(s: Screen, msgs: seq<Msg>)
    requires PlainScreen(s)
    ensures PlainScreen(Run(s, msgs))
    ensures var turns := Run(s, msgs).turns; forall i :: 0 <= i < |turns| ==> ShownAll(turns[i]) == RawAll(turns[i])
  {
    hide ShownAll, RawAll, PlainScreen, Step;
    if msgs != [] {
      PlainRun(s, msgs[..|msgs| - 1]);
      PlainStep(Run(s, msgs[..|msgs| - 1]), msgs[|msgs| - 1]);
    }
    PlainTurns(Run(s, msgs));
  }

  lemma PlainTurns(s: Screen)
    requires PlainScreen(s)
    ensures forall i :: 0 <= i < |s.turns| ==> ShownAll(s.turns[i]) == RawAll(s.turns[i])
  {
    hide ShownAll, RawAll;
    forall i | 0 <= i < |s.turns| ensures ShownAll(s.turns[i]) == RawAll(s.turns[i]) {
      PlainShowsRaw(s.turns[i]);
    }
  }

  // ---- Clause boundaries ----

  ghost predicate NoBoundary(s: string, from: nat) {
    forall i :: from <= i < |s| ==> !IsBoundary(s, i)
  }

  /** The last boundary at or after minPos, or -1. */
  method LastSentenceEnd(s: string, minPos: nat) returns (bound: int)
    ensures bound == -1 ==> NoBoundary(s, minPos)
    ensures bound != -1 ==> minPos <= bound < |s| && IsBoundary(s, bound) && NoBoundary(s, bound + 1)
    ensures forall i :: (if bound == -1 then minPos else bound) <= i < |s| ==> (i == bound <==> EndsHere(s, i))
  {
    var i := |s| - 1;
    while i >= minPos
      invariant minPos - 1 <= i < |s| || i == |s| - 1 < minPos
      invariant NoBoundary(s, i + 1)
    {
      if s[i] == '\n' || (EndsClause(s[i]) && i + 1 < |s| && IsSpace(s[i + 1])) {
        BoundariesFrom(s, i, i);
        return i;
      }
      i := i - 1;
    }
    BoundariesFrom(s, minPos, -1);
    bound := -1;
  }

  /** What a boundary is. */
  predicate EndsHere(s: string, i: nat)
    requires i < |s|
  {
    || s[i] == '\n'
    || (s[i] in ['.', '!', '?', ',', ';', ':'] && i + 1 < |s| && s[i + 1] in [' ', '\t', '\n', '\r'])
  }

  lemma BoundariesFrom(s: string, from: nat, bound: int)
    requires bound == -1 ==> NoBoundary(s, from)
    requires bound != -1 ==> bound == from < |s| && IsBoundary(s, from) && NoBoundary(s, from + 1)
    ensures forall i :: from <= i < |s| ==> (i == bound <==> EndsHere(s, i))
  {
    forall i | from <= i < |s| ensures i == bound <==> EndsHere(s, i) {
      assert IsBoundary(s, i) <==> EndsHere(s, i);
    }
  }

  // ---- The buffer ----

  /** The committed text as it was rendered, piece by piece. */
  function Pieces(pieces: seq<string>, r: Option<Renderer>): string {
    if pieces == [] then "" else Pieces(pieces[..|pieces| - 1], r) + Render(r, pieces[|pieces| - 1])
  }

  lemma PiecesSnoc(pieces: seq<string>, r: Option<Renderer>, p: string)
    ensures Pieces(pieces + [p], r) == Pieces(pieces, r) + Render(r, p)
  {
    assert (pieces + [p])[..|pieces|] == pieces;
  }

  /** Without a renderer the pieces are the committed text, as a whole re-render is. */
  lemma {:induction false} PlainPieces(pieces: seq<string>)
    ensures Pieces(pieces, None) == Render(None, Joined(pieces))
  {
    if pieces != [] {
      PlainPieces(pieces[..|pieces| - 1]);
    }
  }

  lemma ShownSnoc(items: seq<Item>, item: Item)
    ensures ShownAll(items + [item]) == ShownAll(items) + Shown(item)
  {
    assert (items + [item])[..|items|] == items;
  }

  /** The first `committed` characters of raw are shown, as these pieces, in this
      many characters. */
  ghost predicate Tail(raw: string, committed: nat, pieces: seq<string>, r: Option<Renderer>, bytes: nat) {
    && committed <= |raw| && Joined(pieces) == raw[..committed]
    && bytes == |Pieces(pieces, r)| && (committed == 0 ==> pieces == [])
  }

  /** Content is the finished items and the visible part of the block. */
  ghost predicate Shows(content: string, live: seq<Item>, pieces: seq<string>, r: Option<Renderer>) {
    content == ShownAll(live) + Pieces(pieces, r)
  }

  /** Pending text ends the block; with none pending, what is still hidden holds
      no clause boundary. */
  ghost predicate Batched(raw: string, committed: nat, pending: string) {
    && |pending| <= |raw| && raw[|raw| - |pending|..] == pending
    && (pending == "" ==> NoBoundary(raw, committed))
  }

  lemma SliceAppended(raw: string, from: nat, to: nat, pieces: seq<string>, r: Option<Renderer>, bytes: nat,
                      content: string, live: seq<Item>)
    requires from < to <= |raw| && Tail(raw, from, pieces, r, bytes) && Shows(content, live, pieces, r)
    ensures var out := Render(r, raw[from..to]);
            && Tail(raw, to, pieces + [raw[from..to]], r, bytes + |out|)
            && Shows(content + out, live, pieces + [raw[from..to]], r)
  {
    hide Render;
    PiecesSnoc(pieces, r, raw[from..to]);
    JoinedSnoc(pieces, raw[from..to]);
    assert raw[..to] == raw[..from] + raw[from..to];
  }

  lemma ShownBefore(content: string, live: seq<Item>, pieces: seq<string>, r: Option<Renderer>, bytes: nat)
    requires Shows(content, live, pieces, r) && bytes == |Pieces(pieces, r)|
    ensures bytes <= |content| && content[..|content| - bytes] == ShownAll(live)
  {
    hide Pieces, ShownAll;
  }

  lemma WholeRendered(raw: string, committed: nat, r: Option<Renderer>, live: seq<Item>)
    requires 0 < committed <= |raw|
    ensures var out := Render(r, raw[..committed]);
            && Tail(raw, committed, [raw[..committed]], r, |out|)
            && Shows(ShownAll(live) + out, live, [raw[..committed]], r)
  {
    hide Render;
    PiecesSnoc([], r, raw[..committed]);
    JoinedSnoc([], raw[..committed]);
    assert [] + [raw[..committed]] == [raw[..committed]];
  }

  lemma NothingStreamed(live: seq<Item>, r: Option<Renderer>)
    ensures Tail("", 0, [], r, 0) && Batched("", 0, "")
    ensures Shows(ShownAll(live), live, [], r) && Shows("", [], [], r)
  {
  }

  lemma NothingShown(raw: string, committed: nat, pieces: seq<string>, r: Option<Renderer>, bytes: nat,
                     content: string, live: seq<Item>)
    requires Tail(raw, committed, pieces, r, bytes) && Shows(content, live, pieces, r) && raw == ""
    ensures content == ShownAll(live)
  {
  }

  lemma TokenAdded(raw: string, committed: nat, pending: string, pieces: seq<string>, r: Option<Renderer>, bytes: nat,
                   text: string)
    requires Tail(raw, committed, pieces, r, bytes) && Batched(raw, committed, pending)
    ensures Tail(raw + text, committed, pieces, r, bytes) && Batched(raw + text, committed, pending + text)
  {
    hide Pieces, Joined, NoBoundary;
    assert (raw + text)[..committed] == raw[..committed];
    var now, waiting := raw + text, pending + text;
    assert now[|now| - |waiting|..] == raw[|raw| - |pending|..] + text;
    if text == "" {
      assert now == raw && waiting == pending;
    }
  }

  lemma CommittedWithin(raw: string, committed: nat, pieces: seq<string>, r: Option<Renderer>, bytes: nat)
    requires Tail(raw, committed, pieces, r, bytes)
    ensures committed <= |raw| && bytes == |Pieces(pieces, r)|
  {
  }

  lemma NothingPending(raw: string, from: nat)
    requires NoBoundary(raw, from)
    ensures Batched(raw, from, "")
  {
  }

  lemma NothingCommitted(raw: string, pieces: seq<string>, r: Option<Renderer>, other: Option<Renderer>, bytes: nat,
                         content: string, live: seq<Item>)
    requires Tail(raw, 0, pieces, r, bytes) && Shows(content, live, pieces, r)
    ensures Tail(raw, 0, pieces, other, bytes) && Shows(content, live, pieces, other)
  {
  }

  class StreamModel {
    const noColor: bool
    var content: string
    var pendingTokens: string
    var flushScheduled: bool
    var raw: string
    var committed: nat
    var rendered: nat
    var renderedBytes: nat
    var renderer: Option<Renderer>
    var ready: bool
    var view: string
    ghost var screen: Screen
    ghost var pieces: seq<string>

    ghost predicate Valid()
      reads this
    {
      && rendered == committed
      && Tail(raw, committed, pieces, renderer, renderedBytes)
      && Batched(raw, committed, pendingTokens)
      && Shows(content, screen.live, pieces, renderer)
      && screen.block == raw && screen.renderer == renderer
      && screen.noColor == noColor && (noColor ==> renderer.None?)
      && (ready ==> view == content)
    }

    /** Text that waits always has a flush tick on its way. */
    ghost predicate Ticking()
      reads this
    {
      pendingTokens != "" ==> flushScheduled
    }

    /** In colour the buffer starts with a renderer, if one can be made. */
    constructor (noColor: bool, first: Option<Renderer>)
      ensures Valid() && Ticking() && this.noColor == noColor
      ensures screen == Screen([], [], "", if noColor then None else first, noColor)
    {
      this.noColor := noColor;
      content, pendingTokens, flushScheduled := "", "", false;
      raw, committed, rendered, renderedBytes := "", 0, 0, 0;
      renderer, ready, view := if noColor then None else first, false, "";
      screen, pieces := Screen([], [], "", if noColor then None else first, noColor), [];
      new;
      NothingStreamed([], renderer);
    }

    method ResetTail()
      modifies `raw, `committed, `rendered, `renderedBytes, `pieces
      ensures raw == "" && committed == rendered == renderedBytes == 0 && pieces == []
    {
      raw, committed, rendered, renderedBytes := "", 0, 0, 0;
      pieces := [];
    }

    /** Renders the newly committed slice and appends it. */
    method AppendMarkdownTail()
      requires rendered < committed <= |raw| && Tail(raw, rendered, pieces, renderer, renderedBytes)
      requires Shows(content, screen.live, pieces, renderer)
      modifies `content, `renderedBytes, `rendered, `view, `pieces
      ensures rendered == committed && Tail(raw, committed, pieces, renderer, renderedBytes)
      ensures Shows(content, screen.live, pieces, renderer)
      ensures ready ==> view == content
      ensures content == old(content) + Render(renderer, raw[old(rendered)..committed])
    {
      hide Tail, Shows, Render;
      var slice := raw[rendered..committed];
      SliceAppended(raw, rendered, committed, pieces, renderer, renderedBytes, content, screen.live);
      var out := Render(renderer, slice);
      content := content + out;
      renderedBytes := renderedBytes + |out|;
      pieces := pieces + [slice];
      rendered := committed;
      if ready {
        view := content;
      }
    }

    /** Replaces the visible part of the block, shown by some renderer before, with
        a render of all its committed text. */
    method RerenderMarkdownTail(ghost shownBy: Option<Renderer>)
      requires 0 < committed <= |raw|
      requires Shows(content, screen.live, pieces, shownBy) && renderedBytes == |Pieces(pieces, shownBy)|
      modifies `content, `renderedBytes, `rendered, `view, `pieces
      ensures rendered == committed && Tail(raw, committed, pieces, renderer, renderedBytes)
      ensures content == ShownAll(screen.live) + Render(renderer, raw[..committed])
      ensures Shows(content, screen.live, pieces, renderer)
      ensures ready ==> view == content
    {
      hide Tail, Shows, Render, ShownAll, Pieces;
      ShownBefore(content, screen.live, pieces, shownBy, renderedBytes);
      WholeRendered(raw, committed, renderer, screen.live);
      var out := Render(renderer, raw[..committed]);
      var cur := content;
      if renderedBytes > 0 && |cur| >= renderedBytes {
        cur := cur[..|cur| - renderedBytes];
      }
      content := cur + out;
      renderedBytes := |out|;
      rendered := committed;
      pieces := [raw[..committed]];
      if ready {
        view := content;
      }
    }

    /** Shows the batched text up to its last clause boundary; what the screen
        means does not change. */
    method DrainPending() returns (advanced: bool)
      requires Valid()
      modifies `content, `renderedBytes, `rendered, `committed, `pendingTokens, `view, `pieces
      ensures Valid() && pendingTokens == ""
      ensures advanced <==> committed > old(committed)
      ensures old(pendingTokens) != "" ==> NoBoundary(raw, committed)
      ensures advanced ==> IsBoundary(raw, committed - 1)
      ensures content == old(content) + if advanced then Render(renderer, raw[old(committed)..committed]) else ""
    {
      hide Tail, Shows, Batched, NoBoundary, IsBoundary;
      if pendingTokens == "" {
        return false;
      }
      var bound := LastSentenceEnd(raw, committed);
      pendingTokens := "";
      if bound < 0 {
        NothingPending(raw, committed);
        return false;
      }
      NothingPending(raw, bound + 1);
      committed := bound + 1;
      AppendMarkdownTail();
      return true;
    }

    /** Locks the whole block in as finished content. */
    method FinalizeAssistantBlock()
      requires Valid() && pendingTokens == ""
      modifies `content, `renderedBytes, `rendered, `committed, `raw, `view, `pieces, `screen
      ensures Valid() && raw == "" && committed == renderedBytes == 0 && pieces == []
      ensures screen == CloseBlock(old(screen)) && content == ShownAll(screen.live)
    {
      hide Tail, Shows, Batched, ShownAll, Pieces, Render;
      ghost var live := screen.live;
      if |raw| > 0 {
        CommittedWithin(raw, committed, pieces, renderer, renderedBytes);
        committed := |raw|;
        RerenderMarkdownTail(renderer);
        assert raw[..|raw|] == raw;
        ShownSnoc(live, Prose(raw, renderer));
      } else {
        NothingShown(raw, committed, pieces, renderer, renderedBytes, content, live);
      }
      screen := CloseBlock(screen);
      ResetTail();
      NothingStreamed(screen.live, renderer);
    }

    /** Text of the interface itself follows all the prose before it. */
    method AppendChrome(text: string)
      requires Valid()
      modifies `content, `renderedBytes, `rendered, `committed, `raw, `pendingTokens, `view, `pieces, `screen
      ensures Valid() && pendingTokens == "" && screen == AddChrome(old(screen), text)
      ensures content == ShownAll(screen.live)
    {
      hide Tail, Shows, Batched, ShownAll, Pieces;
      var _ := DrainPending();
      FinalizeAssistantBlock();
      ghost var live := screen.live;
      content := content + text;
      screen := screen.(live := live + [Chrome(text)]);
      ShownSnoc(live, Chrome(text));
      NothingStreamed(screen.live, renderer);
      if ready {
        view := content;
      }
    }

    method WriteToken(text: string)
      requires Valid()
      modifies `pendingTokens, `raw, `flushScheduled, `screen
      ensures Valid() && Ticking() && screen == Step(old(screen), Token(text))
    {
      hide Tail, Shows, Batched;
      TokenAdded(raw, committed, pendingTokens, pieces, renderer, renderedBytes, text);
      pendingTokens := pendingTokens + text;
      raw := raw + text;
      if !flushScheduled {
        flushScheduled := true;
      }
      screen := Step(screen, Token(text));
    }

    method ResizeTo(r: Option<Renderer>)
      requires Valid()
      modifies `ready, `view, `renderer, `content, `renderedBytes, `rendered, `pieces, `screen
      ensures Valid() && ready && screen == Step(old(screen), Resize(r))
    {
      hide Tail, Shows, Batched;
      if !ready {
        view := content;
        ready := true;
      }
      if !noColor && r.Some? {
        ghost var before := renderer;
        CommittedWithin(raw, committed, pieces, before, renderedBytes);
        if committed == 0 {
          NothingCommitted(raw, pieces, before, r, renderedBytes, content, screen.live);
        }
        renderer := r;
        screen := screen.(renderer := r);
        if committed > 0 {
          RerenderMarkdownTail(before);
        }
      }
    }

    method ClearAll()
      requires Valid()
      modifies this
      ensures Valid() && Ticking() && screen == Step(old(screen), Clear) && content == ""
    {
      hide Tail, Shows, Batched, ShownAll, Pieces, CloseBlock, AddChrome;
      content, pendingTokens, flushScheduled := "", "", false;
      ResetTail();
      screen := Step(screen, Clear);
      NothingStreamed(screen.live, renderer);
      if ready {
        view := "";
      }
    }

    /** The finished turn, which leaves the buffer empty. */
    method Commit() returns (out: string)
      requires Valid()
      modifies this
      ensures Valid() && Ticking() && screen == Step(old(screen), CommitTurn) && content == ""
      ensures out == ShownAll(screen.turns[|screen.turns| - 1])
    {
      hide Tail, Shows, Batched, ShownAll, Pieces, CloseBlock;
      var _ := DrainPending();
      FinalizeAssistantBlock();
      out := content;
      content, pendingTokens, flushScheduled := "", "", false;
      if ready {
        view := "";
      }
      screen := screen.(turns := screen.turns + [screen.live], live := []);
      NothingStreamed([], renderer);
    }

    /** One message; a commit also returns what it prints. */
    method Update(m: Msg) returns (out: string)
      requires Valid() && Ticking()
      modifies this
      ensures Valid() && Ticking() && screen == Step(old(screen), m)
      ensures out == if m.CommitTurn? then ShownAll(screen.turns[|screen.turns| - 1]) else ""
      ensures screen.block == "" ==> content == ShownAll(screen.live)
    {
      hide Tail, Shows, Batched, ShownAll, Pieces;
      out := "";
      match m {
        case Token(text) => WriteToken(text);
        case FlushTick =>
          flushScheduled := false;
          var _ := DrainPending();
        case Write(text) => AppendChrome(text);
        case ToolBegin(header) => AppendChrome("\n" + header + "\n");
        case ToolEnd(lines) => AppendChrome(lines);
        case Resize(r) => ResizeTo(r);
        case Clear => ClearAll();
        case CommitTurn => out := Commit();
      }
      if raw == "" {
        NothingShown(raw, committed, pieces, renderer, renderedBytes, content, screen.live);
      }
    }
  }

  // ---- What runs of the buffer print ----

  function ShownTurns(turns: seq<seq<Item>>): seq<string> {
    if turns == [] then [] else ShownTurns(turns[..|turns| - 1]) + [ShownAll(turns[|turns| - 1])]
  }

  lemma ShownTurnsSnoc(turns: seq<seq<Item>>, turn: seq<Item>)
    ensures ShownTurns(turns + [turn]) == ShownTurns(turns) + [ShownAll(turn)]
  {
    assert (turns + [turn])[..|turns|] == turns;
  }

  /** A step commits a turn exactly when it is told to. */
  lemma StepTurns(s: Screen, m: Msg)
    ensures var t := Step(s, m).turns;
            if m.CommitTurn? then t == s.turns + [CloseBlock(s).live] else t == s.turns
  {
    hide CloseBlock;
    CloseKeepsTurns(s);
  }

  lemma CloseKeepsTurns(s: Screen)
    ensures CloseBlock(s).turns == s.turns
  {
  }

  /** Messages handled one after the other by one buffer: it prints the turns that
      their meaning commits, shown. */
  method Feed(s: StreamModel, msgs: seq<Msg>) returns (printed: seq<string>)
    requires s.Valid() && s.Ticking()
    modifies s
    ensures s.Valid() && s.Ticking() && s.screen == Run(old(s.screen), msgs)
    ensures ShownTurns(old(s.screen).turns) + printed == ShownTurns(s.screen.turns)
    ensures s.screen.block == "" && msgs != [] ==> s.content == ShownAll(s.screen.live)
  {
    hide Step, ShownAll, StreamModel.Valid;
    printed := [];
    ghost var start := s.screen;
    for i := 0 to |msgs|
      invariant s.Valid() && s.Ticking() && s.screen == Run(start, msgs[..i])
      invariant ShownTurns(start.turns) + printed == ShownTurns(s.screen.turns)
      invariant s.screen.block == "" && i > 0 ==> s.content == ShownAll(s.screen.live)
    {
      ghost var before := s.screen;
      assert msgs[..i + 1] == msgs[..i] + [msgs[i]];
      RunSnoc(start, msgs[..i], msgs[i]);
      StepTurns(before, msgs[i]);
      var out := s.Update(msgs[i]);
      if msgs[i].CommitTurn? {
        ShownTurnsSnoc(before.turns, CloseBlock(before).live);
        printed := printed + [out];
      }
    }
    assert msgs[..|msgs|] == msgs;
  }

  /** What a buffer that shows s prints when it is fed the messages. */
  ghost predicate Prints(s: Screen, msgs: seq<Msg>, printed: seq<string>) {
    ShownTurns(s.turns) + printed == ShownTurns(Run(s, msgs).turns)
  }

  /** What a text looks like: as its renderer has it, or as it is. */
  predicate Looks(out: string, text: string, r: Renderer) {
    out == if text != "" && text in r then r[text] else text
  }

  lemma OneTurnMore(s: Screen, msgs: seq<Msg>, turn: seq<Item>, printed: seq<string>)
    requires Prints(s, msgs, printed) && Run(s, msgs).turns == s.turns + [turn]
    ensures printed == [ShownAll(turn)]
  {
    hide ShownAll, Run;
    ShownTurnsSnoc(s.turns, turn);
    var n := |ShownTurns(s.turns)|;
    assert (ShownTurns(s.turns) + printed)[n..] == printed;
    assert (ShownTurns(s.turns) + [ShownAll(turn)])[n..] == [ShownAll(turn)];
  }

  /** One message more. */
  lemma Goes(s: Screen, msgs: seq<Msg>, m: Msg, t: Screen, all: seq<Msg>)
    requires Run(s, msgs) == t && all == msgs + [m]
    ensures Run(s, all) == Step(t, m)
  {
    RunSnoc(s, msgs, m);
  }

  lemma NoMessage(s: Screen)
    ensures Run(s, []) == s
  {
  }

  /** Text of the interface ends the block there is. */
  lemma ChromeAdds(s: Screen, m: Msg, text: string)
    requires m == Write(text) || m == ToolEnd(text) || (m.ToolBegin? && text == "\n" + m.header + "\n")
    ensures Step(s, m) ==
            s.(live := if s.block == "" then s.live + [Chrome(text)]
                       else s.live + [Prose(s.block, s.renderer), Chrome(text)], block := "")
  {
    assert s.live + [Prose(s.block, s.renderer)] + [Chrome(text)] ==
           s.live + [Prose(s.block, s.renderer), Chrome(text)];
  }

  lemma TurnEnds(s: Screen)
    ensures Step(s, CommitTurn).turns ==
            s.turns + [if s.block == "" then s.live else s.live + [Prose(s.block, s.renderer)]]
  {
  }

  lemma TokenJoins(s: Screen, text: string)
    ensures Step(s, Token(text)) == s.(block := s.block + text)
  {
  }

  lemma Resizes(s: Screen, r: Renderer)
    requires !s.noColor
    ensures Step(s, Resize(Some(r))) == s.(renderer := Some(r))
  {
  }

  lemma Clears(s: Screen)
    ensures Step(s, Clear) == s.(live := [], block := "")
  {
  }

  /** In colour, a resize with a renderer decides how the block that is under way, and what
      joins it, is printed. */
  lemma ResizedBlockIsRendered(s: Screen, r: Renderer, x: string, printed: seq<string>)
    requires !s.noColor && s.block + x != ""
    requires Prints(s, [Resize(Some(r)), Token(x), CommitTurn], printed)
    ensures exists out :: Looks(out, s.block + x, r) && printed == [ShownAll(s.live) + out]
  {
    hide Run, Step, ShownAll, Prints, Shown;
    var s1 := s.(renderer := Some(r));
    var s2 := s1.(block := s.block + x);
    NoMessage(s);
    Goes(s, [], Resize(Some(r)), s, [Resize(Some(r))]);
    Resizes(s, r);
    Goes(s, [Resize(Some(r))], Token(x), s1, [Resize(Some(r)), Token(x)]);
    TokenJoins(s1, x);
    Goes(s, [Resize(Some(r)), Token(x)], CommitTurn, s2, [Resize(Some(r)), Token(x), CommitTurn]);
    TurnEnds(s2);
    OneTurnMore(s, [Resize(Some(r)), Token(x), CommitTurn], s.live + [Prose(s.block + x, Some(r))], printed);
    ShownSnoc(s.live, Prose(s.block + x, Some(r)));
    ProseLooks(s.block + x, r);
  }

  lemma ProseLooks(text: string, r: Renderer)
    ensures Looks(Shown(Prose(text, Some(r))), text, r)
  {
  }

  /** A turn prints its blocks as rendered and the text of the interface as it is, in the
      order in which they came. */
  lemma TurnPrintsInOrder(r: Renderer, x: string, header: string, lines: string, y: string, z: string,
                          printed: seq<string>)
    requires x != "" && y + z != ""
    requires Prints(Screen([], [], "", Some(r), false),
                    [Token(x), ToolBegin(header), ToolEnd(lines), Token(y), Token(z), CommitTurn], printed)
    ensures exists first, second :: Looks(first, x, r) && Looks(second, y + z, r)
              && printed == [first + ("\n" + header + "\n") + lines + second]
  {
    hide Run, Step, ShownAll, Prints, Looks;
    var s0, begin := Screen([], [], "", Some(r), false), "\n" + header + "\n";
    var one, two := [Prose(x, Some(r)), Chrome(begin)], [Prose(x, Some(r)), Chrome(begin), Chrome(lines)];
    var m := [Token(x), ToolBegin(header), ToolEnd(lines), Token(y), Token(z), CommitTurn];
    NoMessage(s0);
    Goes(s0, [], m[0], s0, m[..1]);
    TokenJoins(s0, x);
    Goes(s0, m[..1], m[1], s0.(block := x), m[..2]);
    ChromeAdds(s0.(block := x), m[1], begin);
    Goes(s0, m[..2], m[2], s0.(live := one), m[..3]);
    ChromeAdds(s0.(live := one), m[2], lines);
    assert one + [Chrome(lines)] == two;
    Goes(s0, m[..3], m[3], s0.(live := two), m[..4]);
    TokenJoins(s0.(live := two), y);
    Goes(s0, m[..4], m[4], s0.(live := two, block := y), m[..5]);
    TokenJoins(s0.(live := two, block := y), z);
    Goes(s0, m[..5], m[5], s0.(live := two, block := y + z), m);
    TurnEnds(s0.(live := two, block := y + z));
    OneTurnMore(s0, m, two + [Prose(y + z, Some(r))], printed);
    TurnShows(x, begin, lines, y + z, r);
    assert two + [Prose(y + z, Some(r))] == [Prose(x, Some(r)), Chrome(begin), Chrome(lines), Prose(y + z, Some(r))];
  }

  lemma TurnShows(x: string, begin: string, end: string, y: string, r: Renderer)
    ensures exists first, second :: Looks(first, x, r) && Looks(second, y, r)
              && ShownAll([Prose(x, Some(r)), Chrome(begin), Chrome(end), Prose(y, Some(r))])
                 == first + begin + end + second
  {
    var items := [Prose(x, Some(r)), Chrome(begin), Chrome(end), Prose(y, Some(r))];
    var first, second := Shown(items[0]), Shown(items[3]);
    NothingShownYet();
    hide ShownAll, Shown;
    assert items[..0] == [] && items[..1] == items[..0] + [items[0]] && items[..2] == items[..1] + [items[1]];
    assert items[..3] == items[..2] + [items[2]] && items == items[..3] + [items[3]];
    ShownSnoc(items[..0], items[0]);
    ShownSnoc(items[..1], items[1]);
    ShownSnoc(items[..2], items[2]);
    ShownSnoc(items[..3], items[3]);
    ProseLooks(x, r);
    ProseLooks(y, r);
    ChromeLooks(begin);
    ChromeLooks(end);
  }

  lemma ChromeLooks(text: string)
    ensures Shown(Chrome(text)) == text
  {
  }

  /** After a clear a turn prints only what comes then. */
  lemma ClearedTurnPrintsTheRest(s: Screen, text: string, printed: seq<string>)
    requires Prints(s, [Clear, Write(text), CommitTurn], printed)
    ensures printed == [text]
  {
    hide Run, Step, ShownAll, Prints;
    var s1 := s.(live := [], block := "");
    NoMessage(s);
    Goes(s, [], Clear, s, [Clear]);
    Clears(s);
    Goes(s, [Clear], Write(text), s1, [Clear, Write(text)]);
    ChromeAdds(s1, Write(text), text);
    assert [] + [Chrome(text)] == [Chrome(text)];
    Goes(s, [Clear, Write(text)], CommitTurn, s1.(live := [Chrome(text)]), [Clear, Write(text), CommitTurn]);
    TurnEnds(s1.(live := [Chrome(text)]));
    OneTurnMore(s, [Clear, Write(text), CommitTurn], [Chrome(text)], printed);
    ShownSnoc([], Chrome(text));
    NothingShownYet();
    ChromeLooks(text);
    assert s1.live + [Chrome(text)] == [Chrome(text)];
    assert "" + text == text;
  }

  lemma NothingShownYet()
    ensures ShownAll([]) == ""
  {
  }

  /** Two runs that differ only in when flushes happen print the same. */
  lemma TicksDoNotPrint(s: Screen, xs: seq<Msg>, ys: seq<Msg>, printed: seq<string>, printed': seq<string>)
    requires WithoutTicks(xs) == WithoutTicks(ys) && Prints(s, xs, printed) && Prints(s, ys, printed')
    ensures printed == printed'
  {
    hide Run, ShownTurns, WithoutTicks;
    FlushTimingInvisible(s, xs);
    FlushTimingInvisible(s, ys);
    var n := |ShownTurns(s.turns)|;
    assert (ShownTurns(s.turns) + printed)[n..] == printed;
    assert (ShownTurns(s.turns) + printed')[n..] == printed';
  }

  lemma {:induction false} PlainTurnsJoin(turns: seq<seq<Item>>)
    requires forall i :: 0 <= i < |turns| ==> ShownAll(turns[i]) == RawAll(turns[i])
    ensures Joined(ShownTurns(turns)) == RawTurns(turns)
  {
    hide ShownAll, RawAll;
    if turns != [] {
      PlainTurnsJoin(turns[..|turns| - 1]);
      JoinedSnoc(ShownTurns(turns[..|turns| - 1]), ShownAll(turns[|turns| - 1]));
    }
  }

  lemma CommittedHoldsAll(s: Screen)
    ensures RawScreen(Step(s, CommitTurn)) == RawTurns(Step(s, CommitTurn).turns)
  {
    hide RawTurns, CloseBlock;
    CloseKeepsRaw(s);
  }

  /** Without colour, the outputs of a new buffer up to a commit are, one after the
      other, exactly the texts that came in. */
  lemma PlainOutput(msgs: seq<Msg>, printed: seq<string>)
    requires forall i :: 0 <= i < |msgs| ==> !msgs[i].Clear?
    requires Prints(Screen([], [], "", None, true), msgs + [CommitTurn], printed)
    ensures Joined(printed) == Said(msgs)
  {
    var start, all := Screen([], [], "", None, true), msgs + [CommitTurn];
    assert RawScreen(start) == "";
    hide Step, RawScreen, PlainScreen;
    assert PlainStart(start);
    PlainFromStart(start, all);
    RunSnoc(start, msgs, CommitTurn);
    CommittedHoldsAll(Run(start, msgs));
    StepKeepsRaw(Run(start, msgs), CommitTurn);
    NothingLost(start, msgs);
    PlainTurnsJoin(Run(start, all).turns);
    assert ShownTurns([]) + printed == printed;
  }

  predicate PlainStart(s: Screen) { s == Screen([], [], "", None, true) }

  lemma PlainFromStart(s: Screen, msgs: seq<Msg>)
    requires PlainStart(s)
    ensures var turns := Run(s, msgs).turns; forall i :: 0 <= i < |turns| ==> ShownAll(turns[i]) == RawAll(turns[i])
  {
    PlainRun(s, msgs);
  }
}
