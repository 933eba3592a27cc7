/** The unified-diff printer of internal/render/diff.go: context windows around
    changes, their merging, the hunk headers, and what the printed hunks mean
    as a patch. */
module DiffHunks {
  import opened Wrappers
  import opened LineDiff

  const CONTEXT_LINES := 3

  /** A half-open range of edit indices. */
  datatype Hunk = Hunk(start: nat, end: nat)

  datatype PatchLine = Context(text: Line) | Removed(text: Line) | Added(text: Line)

  datatype PrintedHunk = PrintedHunk(aStart: nat, aCount: nat, bStart: nat, bCount: nat, lines: seq<PatchLine>)

  // ---- Where the windows lie ----

  /** One of the first `upTo` edits is a change within three positions of k. */
  ghost predicate NearChange(es: seq<Edit>, upTo: nat, k: int)
    requires upTo <= |es|
  {
    exists c :: 0 <= c < upTo && es[c].kind != Keep && c - CONTEXT_LINES <= k <= c + CONTEXT_LINES
  }

  lemma NearChangeStep(es: seq<Edit>, i: nat, k: int)
    requires i < |es|
    ensures NearChange(es, i + 1, k) <==>
            NearChange(es, i, k) || (es[i].kind != Keep && i - CONTEXT_LINES <= k <= i + CONTEXT_LINES)
  {
  }

  ghost predicate Covered(hs: seq<Hunk>, k: int) {
    exists h :: 0 <= h < |hs| && hs[h].start <= k < hs[h].end
  }

  ghost predicate StartsAscend(hs: seq<Hunk>) {
    forall h, h' :: 0 <= h <= h' < |hs| ==> hs[h].start <= hs[h'].start
  }

  ghost predicate WithinScript(hs: seq<Hunk>, n: nat) {
    forall h :: 0 <= h < |hs| ==> hs[h].start < hs[h].end <= n
  }

  /** At least one edit lies between any two hunks. */
  ghost predicate Separated(hs: seq<Hunk>) {
    forall h, h' :: 0 <= h < h' < |hs| ==> hs[h].end < hs[h'].start
  }

  lemma CoveredSnoc(hs: seq<Hunk>, h: Hunk, k: int)
    ensures Covered(hs + [h], k) <==> Covered(hs, k) || h.start <= k < h.end
  {
    if Covered(hs, k) {
      var i :| 0 <= i < |hs| && hs[i].start <= k < hs[i].end;
      assert (hs + [h])[i] == hs[i];
    }
    if h.start <= k < h.end {
      assert (hs + [h])[|hs|] == h;
    }
  }

  /** Position k is near one of the first i changes exactly when hunks or the open
      window cur hold it. */
  ghost predicate TracksAt(es: seq<Edit>, i: nat, hunks: seq<Hunk>, cur: Option<Hunk>, k: nat)
    requires i <= |es|
  {
    NearChange(es, i, k) <==> Covered(hunks, k) || (cur.Some? && cur.value.start <= k < cur.value.end)
  }

  ghost predicate Tracks(es: seq<Edit>, i: nat, hunks: seq<Hunk>, cur: Option<Hunk>)
    requires i <= |es|
  {
    forall k :: 0 <= k < |es| ==> TracksAt(es, i, hunks, cur, k)
  }

  lemma TracksNothing(es: seq<Edit>)
    ensures Tracks(es, 0, [], None)
  {
  }

  /** What the window of a change at i becomes: it opens three before, or goes on,
      and ends three behind. */
  ghost predicate Extends(n: nat, i: nat, cur: Option<Hunk>, next: Hunk) {
    && (cur.Some? ==> i <= cur.value.end <= next.end && cur.value.start == next.start)
    && (cur.Some? ==> cur.value.start == 0 || cur.value.start + CONTEXT_LINES < i)
    && (cur.None? ==> next.start == if i < CONTEXT_LINES then 0 else i - CONTEXT_LINES)
    && next.end == if i + CONTEXT_LINES + 1 > n then n else i + CONTEXT_LINES + 1
  }

  lemma TracksChangeAt(es: seq<Edit>, i: nat, hunks: seq<Hunk>, cur: Option<Hunk>, next: Hunk, k: nat)
    requires i < |es| && es[i].kind != Keep && Extends(|es|, i, cur, next) && k < |es|
    requires TracksAt(es, i, hunks, cur, k)
    ensures TracksAt(es, i + 1, hunks, Some(next), k)
  {
    NearChangeStep(es, i, k);
  }

  lemma TracksChange(es: seq<Edit>, i: nat, hunks: seq<Hunk>, cur: Option<Hunk>, next: Hunk)
    requires i < |es| && es[i].kind != Keep && Tracks(es, i, hunks, cur) && Extends(|es|, i, cur, next)
    ensures Tracks(es, i + 1, hunks, Some(next))
  {
    hide TracksAt;
    var j := i + 1;
    forall k: nat | k < |es| ensures TracksAt(es, j, hunks, Some(next), k) {
      TracksChangeAt(es, i, hunks, cur, next, k);
    }
  }

  lemma TracksKeepAt(es: seq<Edit>, i: nat, hunks: seq<Hunk>, cur: Option<Hunk>, k: nat)
    requires i < |es| && es[i].kind == Keep && TracksAt(es, i, hunks, cur, k)
    ensures TracksAt(es, i + 1, hunks, cur, k)
  {
    NearChangeStep(es, i, k);
  }

  lemma TracksKeep(es: seq<Edit>, i: nat, hunks: seq<Hunk>, cur: Option<Hunk>)
    requires i < |es| && es[i].kind == Keep && Tracks(es, i, hunks, cur)
    ensures Tracks(es, i + 1, hunks, cur)
  {
    hide TracksAt;
    var j := i + 1;
    forall k: nat | k < |es| ensures TracksAt(es, j, hunks, cur, k) {
      TracksKeepAt(es, i, hunks, cur, k);
    }
  }

  lemma TracksCloseAt(es: seq<Edit>, i: nat, hunks: seq<Hunk>, h: Hunk, k: nat)
    requires i <= |es| && TracksAt(es, i, hunks, Some(h), k)
    ensures TracksAt(es, i, hunks + [h], None, k)
  {
    CoveredSnoc(hunks, h, k);
  }

  lemma TracksClose(es: seq<Edit>, i: nat, hunks: seq<Hunk>, h: Hunk)
    requires i <= |es| && Tracks(es, i, hunks, Some(h))
    ensures Tracks(es, i, hunks + [h], None)
  {
    hide TracksAt;
    var more := hunks + [h];
    forall k: nat | k < |es| ensures TracksAt(es, i, more, None, k) {
      TracksCloseAt(es, i, hunks, h, k);
    }
  }

  method BuildHunks(es: seq<Edit>) returns (hunks: seq<Hunk>)
    ensures WithinScript(hunks, |es|) && StartsAscend(hunks) && Tracks(es, |es|, hunks, None)
  {
    hide Tracks;
    TracksNothing(es);
    hunks := [];
    var cur: Option<Hunk> := None;
    for i := 0 to |es|
      invariant cur.Some? ==> i <= cur.value.end <= |es| && cur.value.start < cur.value.end <= i + CONTEXT_LINES
      invariant cur.Some? ==> (cur.value.start == 0 || cur.value.start + CONTEXT_LINES < i) && cur.value.start < i
      invariant WithinScript(hunks, |es|) && StartsAscend(hunks)
      invariant forall h :: 0 <= h < |hunks| ==> hunks[h].start == 0 || hunks[h].start + CONTEXT_LINES < i
      invariant cur.Some? ==> forall h :: 0 <= h < |hunks| ==> hunks[h].start <= cur.value.start
      invariant Tracks(es, i, hunks, cur)
    {
      ghost var before := cur;
      if es[i].kind != Keep {
        if cur.None? {
          cur := Some(Hunk(if i < CONTEXT_LINES then 0 else i - CONTEXT_LINES, 0));
        }
        var end := i + CONTEXT_LINES + 1;
        if end > |es| {
          end := |es|;
        }
        cur := Some(Hunk(cur.value.start, end));
        TracksChange(es, i, hunks, before, cur.value);
      } else {
        TracksKeep(es, i, hunks, cur);
        if cur.Some? && i >= cur.value.end {
          TracksClose(es, i + 1, hunks, cur.value);
          hunks := hunks + [cur.value];
          cur := None;
        }
      }
    }
    if cur.Some? {
      TracksClose(es, |es|, hunks, cur.value);
      hunks := hunks + [cur.value];
    }
  }

  method MergeHunks(hunks: seq<Hunk>, n: nat) returns (merged: seq<Hunk>)
    requires WithinScript(hunks, n) && StartsAscend(hunks)
    ensures WithinScript(merged, n) && Separated(merged)
    ensures forall k :: Covered(merged, k) <==> Covered(hunks, k)
    ensures hunks == [] ==> merged == []
  {
    if |hunks| == 0 {
      return [];
    }
    merged := [hunks[0]];
    forall k ensures Covered(hunks[..1], k) <==> Covered(merged, k) {
      assert hunks[..1] == merged;
    }
    for i := 1 to |hunks|
      invariant merged != [] && WithinScript(merged, n) && Separated(merged)
      invariant merged[|merged| - 1].start <= hunks[i - 1].start
      invariant forall k :: Covered(merged, k) <==> Covered(hunks[..i], k)
    {
      var h, last := hunks[i], merged[|merged| - 1];
      ghost var rest := merged[..|merged| - 1];
      assert merged == rest + [last];
      assert hunks[..i + 1] == hunks[..i] + [h];
      assert hunks[i - 1].start <= h.start;
      if h.start <= last.end {
        if h.end > last.end {
          merged := merged[|merged| - 1 := Hunk(last.start, h.end)];
        }
        assert merged == rest + [Hunk(last.start, if h.end > last.end then h.end else last.end)];
        forall k ensures Covered(merged, k) <==> Covered(hunks[..i + 1], k) {
          CoveredSnoc(rest, last, k);
          CoveredSnoc(rest, merged[|merged| - 1], k);
          CoveredSnoc(hunks[..i], h, k);
        }
      } else {
        forall k ensures Covered(merged + [h], k) <==> Covered(hunks[..i + 1], k) {
          CoveredSnoc(merged, h, k);
          CoveredSnoc(hunks[..i], h, k);
        }
        merged := merged + [h];
      }
    }
    assert hunks[..|hunks|] == hunks;
  }

  // ---- How far a script has got ----

  /** Lines of a, and of b, consumed before each edit and at the end. */
  datatype Trail = Trail(pa: seq<nat>, pb: seq<nat>)

  /** Edit p is at its recorded place, within both sides, and keeps only equal lines. */
  ghost predicate StepOk(t: Trail, es: seq<Edit>, a: seq<Line>, b: seq<Line>, p: nat)
    requires p < |es| && |t.pa| == |t.pb| == |es| + 1
  {
    var e := es[p];
    && e.aIdx == t.pa[p] && e.bIdx == t.pb[p]
    && t.pa[p + 1] == t.pa[p] + (if e.kind == Insert then 0 else 1)
    && t.pb[p + 1] == t.pb[p] + (if e.kind == Delete then 0 else 1)
    && (e.kind == Keep ==> t.pa[p] < |a| && t.pb[p] < |b| && a[t.pa[p]] == b[t.pb[p]])
  }

  ghost predicate Follows(t: Trail, es: seq<Edit>, a: seq<Line>, b: seq<Line>) {
    && |t.pa| == |t.pb| == |es| + 1
    && t.pa[0] == t.pb[0] == 0 && t.pa[|es|] == |a| && t.pb[|es|] == |b|
    && (forall p :: 0 <= p <= |es| ==> t.pa[p] <= |a| && t.pb[p] <= |b|)
    && (forall p :: 0 <= p < |es| ==> StepOk(t, es, a, b, p))
  }

  lemma StepKept(u: Trail, front: seq<Edit>, a': seq<Line>, b': seq<Line>, e: Edit, a: seq<Line>, b: seq<Line>,
                 x: nat, y: nat, p: nat)
    requires p < |front| && |u.pa| == |u.pb| == |front| + 1 && StepOk(u, front, a', b', p) && a' <= a && b' <= b
    ensures StepOk(Trail(u.pa + [x], u.pb + [y]), front + [e], a, b, p)
  {
  }

  lemma TrailSnoc(u: Trail, front: seq<Edit>, a': seq<Line>, b': seq<Line>, e: Edit, a: seq<Line>, b: seq<Line>)
    requires Follows(u, front, a', b') && a' <= a && b' <= b && e.aIdx == |a'| && e.bIdx == |b'|
    requires |a| == |a'| + (if e.kind == Insert then 0 else 1) && |b| == |b'| + (if e.kind == Delete then 0 else 1)
    requires e.kind == Keep ==> Last(a) == Last(b)
    ensures Follows(Trail(u.pa + [|a|], u.pb + [|b|]), front + [e], a, b)
  {
    var es, t := front + [e], Trail(u.pa + [|a|], u.pb + [|b|]);
    forall p | 0 <= p < |es| ensures StepOk(t, es, a, b, p) {
      if p < |front| {
        StepKept(u, front, a', b', e, a, b, |a|, |b|, p);
      }
    }
  }

  /** Every edit's indices are exactly the numbers of lines consumed before it. */
  lemma {:induction false} TrailOf(es: seq<Edit>, a: seq<Line>, b: seq<Line>) returns (t: Trail)
    requires IsScript(es, a, b)
    ensures Follows(t, es, a, b)
  {
    if es == [] {
      t := Trail([0], [0]);
    } else {
      hide Follows, StepOk;
      var a', b' := if Last(es).kind == Insert then a else Init(a), if Last(es).kind == Delete then b else Init(b);
      var u := TrailOf(Init(es), a', b');
      t := Trail(u.pa + [|a|], u.pb + [|b|]);
      assert es == Init(es) + [Last(es)];
      TrailSnoc(u, Init(es), a', b', Last(es), a, b);
    }
  }

  /** The changes among edits p..q. */
  function ChangesIn(es: seq<Edit>, p: nat, q: nat): nat
    requires q <= |es|
  {
    if p >= q then 0 else ChangesIn(es, p, q - 1) + if es[q - 1].kind == Keep then 0 else 1
  }

  lemma {:induction false} ChangesInPrefix(es: seq<Edit>, p: nat)
    requires p <= |es|
    ensures ChangesIn(es, 0, p) == Changes(es[..p])
  {
    if p > 0 {
      ChangesInPrefix(es, p - 1);
      assert Init(es[..p]) == es[..p - 1] && Last(es[..p]) == es[p - 1];
    }
  }

  lemma {:induction false} ChangesInSplit(es: seq<Edit>, p: nat, q: nat, r: nat)
    requires p <= q <= r <= |es|
    ensures ChangesIn(es, p, r) == ChangesIn(es, p, q) + ChangesIn(es, q, r)
    decreases r
  {
    if q < r {
      ChangesInSplit(es, p, q, r - 1);
    }
  }

  // ---- Printing ----

  function PrintedLine(e: Edit, a: seq<Line>, b: seq<Line>): PatchLine
    requires e.kind == Insert || e.aIdx < |a|
    requires e.kind == Insert ==> e.bIdx < |b|
  {
    match e.kind
    case Keep => Context(a[e.aIdx])
    case Delete => Removed(a[e.aIdx])
    case Insert => Added(b[e.bIdx])
  }

  /** The lines printed for the edits in positions p..q. */
  ghost function Body(t: Trail, es: seq<Edit>, a: seq<Line>, b: seq<Line>, p: nat, q: nat): seq<PatchLine>
    requires Follows(t, es, a, b) && p <= q <= |es|
    decreases q - p
  {
    if p == q then []
    else
      assert StepOk(t, es, a, b, q - 1);
      Body(t, es, a, b, p, q - 1) + [PrintedLine(es[q - 1], a, b)]
  }

  /** Headers start one past the lines consumed before the hunk and count the
      lines it consumes, on both sides. */
  ghost function Printed(t: Trail, es: seq<Edit>, a: seq<Line>, b: seq<Line>, h: Hunk): PrintedHunk
    requires Follows(t, es, a, b) && h.start < h.end <= |es|
  {
    TrailAscends(t, es, a, b, h.start, h.end);
    PrintedHunk(t.pa[h.start] + 1, t.pa[h.end] - t.pa[h.start], t.pb[h.start] + 1, t.pb[h.end] - t.pb[h.start],
                Body(t, es, a, b, h.start, h.end))
  }

  lemma {:induction false} TrailAscends(t: Trail, es: seq<Edit>, a: seq<Line>, b: seq<Line>, p: nat, q: nat)
    requires Follows(t, es, a, b) && p <= q <= |es|
    ensures t.pa[p] <= t.pa[q] && t.pb[p] <= t.pb[q]
    decreases q
  {
    if p < q {
      TrailAscends(t, es, a, b, p, q - 1);
      assert StepOk(t, es, a, b, q - 1);
    }
  }

  /** The header counts come from one pass over the hunk, its starts from the
      indices of the first edit, whatever its kind. */
  method PrintHunk(ghost t: Trail, es: seq<Edit>, a: seq<Line>, b: seq<Line>, h: Hunk) returns (p: PrintedHunk)
    requires Follows(t, es, a, b) && h.start < h.end <= |es|
    ensures p == Printed(t, es, a, b, h)
  {
    var aStart, aCount, bStart, bCount := 0, 0, 0, 0;
    var first := true;
    for i := h.start to h.end
      invariant first <==> i == h.start
      invariant !first ==> aStart == t.pa[h.start] + 1 && bStart == t.pb[h.start] + 1
      invariant t.pa[h.start] + aCount == t.pa[i] && t.pb[h.start] + bCount == t.pb[i]
    {
      assert StepOk(t, es, a, b, i);
      var e := es[i];
      if first {
        aStart, bStart, first := e.aIdx + 1, e.bIdx + 1, false;
      }
      match e.kind {
        case Keep => aCount, bCount := aCount + 1, bCount + 1;
        case Delete => aCount := aCount + 1;
        case Insert => bCount := bCount + 1;
      }
    }
    var lines := [];
    for i := h.start to h.end
      invariant lines == Body(t, es, a, b, h.start, i)
    {
      assert StepOk(t, es, a, b, i);
      lines := lines + [PrintedLine(es[i], a, b)];
    }
    p := PrintedHunk(aStart, aCount, bStart, bCount, lines);
  }

  // ---- The printed hunks as a patch ----

  /** Where applying a patch stands: the lines of a consumed, the lines of b produced. */
  datatype Progress = Progress(pos: nat, out: seq<Line>)

  /** Context and removed lines must match a; context and added lines are produced. */
  function ApplyBody(lines: seq<PatchLine>, a: seq<Line>, s: Progress): Option<Progress>
  {
    if lines == [] then Some(s)
    else
      match ApplyBody(Init(lines), a, s)
      case None => None
      case Some(t) =>
        match Last(lines)
        case Added(x) => Some(Progress(t.pos, t.out + [x]))
        case Context(x) => if t.pos < |a| && a[t.pos] == x then Some(Progress(t.pos + 1, t.out + [x])) else None
        case Removed(x) => if t.pos < |a| && a[t.pos] == x then Some(Progress(t.pos + 1, t.out)) else None
  }

  /** Copies a up to the hunk, then applies its body. The header must name the
      exact line reached on both sides, and the exact number of lines used. */
  function ApplyHunk(h: PrintedHunk, a: seq<Line>, s: Progress): Option<Progress>
  {
    if !(s.pos < h.aStart <= |a| + 1) then None
    else
      var t := Progress(h.aStart - 1, s.out + a[s.pos..h.aStart - 1]);
      if |t.out| + 1 != h.bStart then None
      else
        match ApplyBody(h.lines, a, t)
        case None => None
        case Some(u) => if u.pos == t.pos + h.aCount && |u.out| == |t.out| + h.bCount then Some(u) else None
  }

  function ApplyPatch(patch: seq<PrintedHunk>, a: seq<Line>, s: Progress): Option<seq<Line>>
  {
    if patch == [] then if s.pos <= |a| then Some(s.out + a[s.pos..]) else None
    else
      match ApplyHunk(patch[0], a, s)
      case None => None
      case Some(t) => ApplyPatch(patch[1..], a, t)
  }

  function ChangedLines(lines: seq<PatchLine>): nat {
    if lines == [] then 0 else ChangedLines(Init(lines)) + if Last(lines).Context? then 0 else 1
  }

  function PatchChanges(patch: seq<PrintedHunk>): nat {
    if patch == [] then 0 else ChangedLines(patch[0].lines) + PatchChanges(patch[1..])
  }

  /** Progress once the first p edits are done. */
  ghost function At(t: Trail, es: seq<Edit>, a: seq<Line>, b: seq<Line>, p: nat): Progress
    requires Follows(t, es, a, b) && p <= |es|
  {
    Progress(t.pa[p], b[..t.pb[p]])
  }

  lemma ApplyBodySnoc(lines: seq<PatchLine>, line: PatchLine, a: seq<Line>, s: Progress, t: Progress)
    requires ApplyBody(lines, a, s) == Some(t)
    requires line.Added? || (t.pos < |a| && a[t.pos] == line.text)
    ensures ApplyBody(lines + [line], a, s) ==
            Some(Progress(if line.Added? then t.pos else t.pos + 1,
                          if line.Removed? then t.out else t.out + [line.text]))
    ensures ChangedLines(lines + [line]) == ChangedLines(lines) + if line.Context? then 0 else 1
  {
    assert Init(lines + [line]) == lines;
  }

  lemma BodyStep(t: Trail, es: seq<Edit>, a: seq<Line>, b: seq<Line>, lines: seq<PatchLine>, s: Progress, q: nat)
    requires Follows(t, es, a, b) && q < |es| && StepOk(t, es, a, b, q) && t.pa[q + 1] <= |a| && t.pb[q + 1] <= |b|
    requires ApplyBody(lines, a, s) == Some(At(t, es, a, b, q))
    ensures ApplyBody(lines + [PrintedLine(es[q], a, b)], a, s) == Some(At(t, es, a, b, q + 1))
    ensures ChangedLines(lines + [PrintedLine(es[q], a, b)]) ==
            ChangedLines(lines) + if es[q].kind == Keep then 0 else 1
  {
    hide ApplyBody, ChangedLines;
    var e, now := es[q], At(t, es, a, b, q);
    assert e.kind != Delete ==> b[..t.pb[q + 1]] == now.out + [b[e.bIdx]];
    ApplyBodySnoc(lines, PrintedLine(e, a, b), a, s, now);
  }

  lemma EmptyBody(a: seq<Line>, s: Progress)
    ensures ApplyBody([], a, s) == Some(s) && ChangedLines([]) == 0
  {
  }

  lemma {:induction false} BodyApplies(t: Trail, es: seq<Edit>, a: seq<Line>, b: seq<Line>, p: nat, q: nat)
    requires Follows(t, es, a, b) && p <= q <= |es|
    ensures ApplyBody(Body(t, es, a, b, p, q), a, At(t, es, a, b, p)) == Some(At(t, es, a, b, q))
    ensures ChangedLines(Body(t, es, a, b, p, q)) == ChangesIn(es, p, q)
    decreases q - p
  {
    hide ApplyBody, ChangedLines;
    if p == q {
      EmptyBody(a, At(t, es, a, b, p));
    } else {
      BodyApplies(t, es, a, b, p, q - 1);
      var lines := Body(t, es, a, b, p, q - 1);
      assert StepOk(t, es, a, b, q - 1);
      assert Body(t, es, a, b, p, q) == lines + [PrintedLine(es[q - 1], a, b)];
      BodyStep(t, es, a, b, lines, At(t, es, a, b, p), q - 1);
    }
  }

  /** Edits outside every hunk are keeps, so a and b run in step across a gap. */
  lemma {:induction false} GapCopies(t: Trail, es: seq<Edit>, a: seq<Line>, b: seq<Line>, p: nat, q: nat)
    requires Follows(t, es, a, b) && p <= q <= |es|
    requires forall k :: p <= k < q ==> es[k].kind == Keep
    ensures t.pa[p] <= t.pa[q]
    ensures b[..t.pb[q]] == b[..t.pb[p]] + a[t.pa[p]..t.pa[q]]
    ensures ChangesIn(es, p, q) == 0
    decreases q - p
  {
    if p < q {
      GapCopies(t, es, a, b, p, q - 1);
      assert StepOk(t, es, a, b, q - 1);
      var i, j := t.pa[q - 1], t.pb[q - 1];
      assert a[t.pa[p]..i + 1] == a[t.pa[p]..i] + [a[i]];
      assert b[..j + 1] == b[..j] + [b[j]];
    } else {
      assert b[..t.pb[p]] + [] == b[..t.pb[p]];
    }
  }

  lemma TrailBounds(t: Trail, es: seq<Edit>, a: seq<Line>, b: seq<Line>, p: nat, q: nat)
    requires Follows(t, es, a, b) && p <= q <= |es|
    ensures t.pa[p] <= t.pa[q] <= |a| && t.pb[p] <= t.pb[q] <= |b|
  {
    TrailAscends(t, es, a, b, p, q);
  }

  /** A hunk applies from any point that only keeps separate it from. */
  lemma HunkApplies(t: Trail, es: seq<Edit>, a: seq<Line>, b: seq<Line>, h: Hunk, p: nat)
    requires Follows(t, es, a, b) && p <= h.start < h.end <= |es|
    requires forall k :: p <= k < h.start ==> es[k].kind == Keep
    ensures ApplyHunk(Printed(t, es, a, b, h), a, At(t, es, a, b, p)) == Some(At(t, es, a, b, h.end))
    ensures ChangedLines(Printed(t, es, a, b, h).lines) == ChangesIn(es, p, h.end)
  {
    hide ApplyBody, ChangedLines, ChangesIn;
    GapCopies(t, es, a, b, p, h.start);
    BodyApplies(t, es, a, b, h.start, h.end);
    ChangesInSplit(es, p, h.start, h.end);
    TrailBounds(t, es, a, b, h.start, h.end);
    var from, at := At(t, es, a, b, p), At(t, es, a, b, h.start);
    assert from.out + a[from.pos..at.pos] == at.out;
  }

  ghost function PrintedAll(t: Trail, es: seq<Edit>, a: seq<Line>, b: seq<Line>, hs: seq<Hunk>): seq<PrintedHunk>
    requires Follows(t, es, a, b) && WithinScript(hs, |es|)
  {
    if hs == [] then [] else [Printed(t, es, a, b, hs[0])] + PrintedAll(t, es, a, b, hs[1..])
  }

  /** From any point between hunks on, the remaining hunks rebuild the rest of
      b and print every remaining change. */
  lemma {:induction false} HunksRebuild(t: Trail, es: seq<Edit>, a: seq<Line>, b: seq<Line>, hs: seq<Hunk>, p: nat)
    requires Follows(t, es, a, b) && WithinScript(hs, |es|) && Separated(hs) && p <= |es|
    requires forall h :: 0 <= h < |hs| ==> p <= hs[h].start
    requires forall k :: p <= k < |es| && es[k].kind != Keep ==> Covered(hs, k)
    ensures ApplyPatch(PrintedAll(t, es, a, b, hs), a, At(t, es, a, b, p)) == Some(b)
    ensures PatchChanges(PrintedAll(t, es, a, b, hs)) == ChangesIn(es, p, |es|)
    decreases |hs|
  {
    if hs == [] {
      LastGap(t, es, a, b, p);
    } else {
      hide Follows, At, ApplyHunk, ApplyBody, Printed, ChangedLines, ChangesIn, Covered;
      var h := hs[0];
      RestCovered(es, hs, p);
      HunkApplies(t, es, a, b, h, p);
      HunksRebuild(t, es, a, b, hs[1..], h.end);
      ChangesInSplit(es, p, h.end, |es|);
    }
  }

  lemma LastGap(t: Trail, es: seq<Edit>, a: seq<Line>, b: seq<Line>, p: nat)
    requires Follows(t, es, a, b) && p <= |es|
    requires forall k :: p <= k < |es| ==> es[k].kind == Keep
    ensures ApplyPatch([], a, At(t, es, a, b, p)) == Some(b) && ChangesIn(es, p, |es|) == 0
  {
    GapCopies(t, es, a, b, p, |es|);
    assert a[t.pa[p]..|a|] == a[t.pa[p]..] && b[..|b|] == b;
  }

  /** No change lies before the first hunk, and those past it are covered by the others. */
  lemma RestCovered(es: seq<Edit>, hs: seq<Hunk>, p: nat)
    requires hs != [] && WithinScript(hs, |es|) && Separated(hs) && p <= |es|
    requires forall h :: 0 <= h < |hs| ==> p <= hs[h].start
    requires forall k :: p <= k < |es| && es[k].kind != Keep ==> Covered(hs, k)
    ensures forall k :: p <= k < hs[0].start ==> es[k].kind == Keep
    ensures forall k :: hs[0].end <= k < |es| && es[k].kind != Keep ==> Covered(hs[1..], k)
    ensures WithinScript(hs[1..], |es|) && Separated(hs[1..])
    ensures forall h :: 0 <= h < |hs[1..]| ==> hs[0].end <= hs[1..][h].start
  {
    forall k | p <= k < |es| && es[k].kind != Keep
      ensures hs[0].start <= k && (hs[0].end <= k ==> Covered(hs[1..], k))
    {
      var i :| 0 <= i < |hs| && hs[i].start <= k < hs[i].end;
      if i > 0 {
        assert hs[1..][i - 1] == hs[i];
      }
    }
  }

  lemma {:induction false} PrintedAllSnoc(t: Trail, es: seq<Edit>, a: seq<Line>, b: seq<Line>, hs: seq<Hunk>, h: Hunk)
    requires Follows(t, es, a, b) && WithinScript(hs, |es|) && h.start < h.end <= |es|
    ensures WithinScript(hs + [h], |es|)
    ensures PrintedAll(t, es, a, b, hs + [h]) == PrintedAll(t, es, a, b, hs) + [Printed(t, es, a, b, h)]
  {
    if hs == [] {
      assert hs + [h] == [h];
    } else {
      PrintedAllSnoc(t, es, a, b, hs[1..], h);
      assert (hs + [h])[1..] == hs[1..] + [h];
    }
  }

  lemma {:induction false} SomeChange(es: seq<Edit>)
    ensures Changes(es) > 0 <==> exists k :: 0 <= k < |es| && es[k].kind != Keep
  {
    if es != [] {
      SomeChange(Init(es));
      assert forall k :: 0 <= k < |es| - 1 ==> Init(es)[k] == es[k];
    }
  }

  /** The windows to print: apart from one another, and together exactly the
      positions within three of a change. */
  ghost predicate ExactWindows(hs: seq<Hunk>, es: seq<Edit>) {
    && WithinScript(hs, |es|) && Separated(hs)
    && forall k :: 0 <= k < |es| ==> (Covered(hs, k) <==> NearChange(es, |es|, k))
  }

  /** An edit is in a window exactly when a change lies at most three edits away. */
  lemma ShownIffWithinThree(hs: seq<Hunk>, es: seq<Edit>, k: nat)
    requires ExactWindows(hs, es) && k < |es|
    ensures (exists h :: 0 <= h < |hs| && hs[h].start <= k < hs[h].end) <==>
            exists c :: 0 <= c < |es| && es[c].kind != Keep && -3 <= c - k <= 3
  {
    assert Covered(hs, k) <==> NearChange(es, |es|, k);
  }

  method Windows(es: seq<Edit>) returns (merged: seq<Hunk>)
    ensures ExactWindows(merged, es)
    ensures forall k: nat :: k < |es| ==>
              (Covered(merged, k) <==> exists c :: 0 <= c < |es| && es[c].kind != Keep && -3 <= c - k <= 3)
  {
    var hunks := BuildHunks(es);
    merged := MergeHunks(hunks, |es|);
    forall k | 0 <= k < |es| ensures Covered(merged, k) <==> NearChange(es, |es|, k) {
      assert TracksAt(es, |es|, hunks, None, k);
    }
    forall k: nat | k < |es|
      ensures Covered(merged, k) <==> exists c :: 0 <= c < |es| && es[c].kind != Keep && -3 <= c - k <= 3
    {
      ShownIffWithinThree(merged, es, k);
    }
  }

  lemma WindowsPatch(t: Trail, es: seq<Edit>, a: seq<Line>, b: seq<Line>, hs: seq<Hunk>)
    requires Follows(t, es, a, b) && ExactWindows(hs, es)
    ensures ApplyPatch(PrintedAll(t, es, a, b, hs), a, Progress(0, [])) == Some(b)
    ensures PatchChanges(PrintedAll(t, es, a, b, hs)) == Changes(es)
    ensures hs == [] <==> Changes(es) == 0
  {
    SomeChange(es);
    ChangesInPrefix(es, |es|);
    assert es[..|es|] == es;
    assert At(t, es, a, b, 0) == Progress(0, []);
    forall k | 0 <= k < |es| && es[k].kind != Keep ensures Covered(hs, k) {
      assert NearChange(es, |es|, k);
    }
    HunksRebuild(t, es, a, b, hs, 0);
    if hs != [] {
      assert Covered(hs, hs[0].start);
      assert NearChange(es, |es|, hs[0].start);
    }
  }

  method PrintWindows(ghost t: Trail, es: seq<Edit>, a: seq<Line>, b: seq<Line>, hs: seq<Hunk>)
    returns (patch: seq<PrintedHunk>)
    requires Follows(t, es, a, b) && WithinScript(hs, |es|)
    ensures patch == PrintedAll(t, es, a, b, hs)
  {
    patch := [];
    for i := 0 to |hs|
      invariant patch == PrintedAll(t, es, a, b, hs[..i])
    {
      var p := PrintHunk(t, es, a, b, hs[i]);
      PrintedAllSnoc(t, es, a, b, hs[..i], hs[i]);
      assert hs[..i + 1] == hs[..i] + [hs[i]];
      patch := patch + [p];
    }
    assert hs[..|hs|] == hs;
  }

  /** Printing a script's hunks, one per window. The patch turns a into b,
      prints every change once, and is empty exactly when the script only keeps. */
  method RenderDiff(es: seq<Edit>, a: seq<Line>, b: seq<Line>)
    returns (patch: seq<PrintedHunk>, ghost t: Trail, ghost hs: seq<Hunk>)
    requires IsScript(es, a, b)
    ensures ApplyPatch(patch, a, Progress(0, [])) == Some(b)
    ensures PatchChanges(patch) == Changes(es)
    ensures patch == [] <==> Changes(es) == 0
    ensures Follows(t, es, a, b) && ExactWindows(hs, es) && patch == PrintedAll(t, es, a, b, hs)
  {
    t := TrailOf(es, a, b);
    patch, hs := [], [];
    var hasChanges := false;
    for i := 0 to |es|
      invariant !hasChanges
      invariant forall k :: 0 <= k < i ==> es[k].kind == Keep
    {
      if es[i].kind != Keep {
        hasChanges := true;
        break;
      }
    }
    if !hasChanges {
      WindowsPatch(t, es, a, b, hs);
      return;
    }
    var merged := Windows(es);
    hs := merged;
    patch := PrintWindows(t, es, a, b, merged);
    WindowsPatch(t, es, a, b, hs);
  }

  /** The diff of two line lists: applied to a it yields b, it is empty exactly
      when they agree, and no script from a to b makes fewer changes than it prints. */
  method DiffLines(a: seq<Line>, b: seq<Line>) returns (patch: seq<PrintedHunk>)
    ensures ApplyPatch(patch, a, Progress(0, [])) == Some(b)
    ensures patch == [] <==> a == b
    ensures forall es :: IsScript(es, a, b) ==> PatchChanges(patch) <= Changes(es)
  {
    var edits := LcsDiff(a, b);
    ghost var t, hs;
    patch, t, hs := RenderDiff(edits, a, b);
    NoChangeIffEqual(a, b);
  }

  // ---- Lines of a text ----

  /** Text cut at every newline; never empty. */
  function Split(s: string): (parts: seq<Line>)
    ensures parts != []
  {
    if s == "" then [""]
    else if Last(s) == '\n' then Split(Init(s)) + [""]
    else WithChar(Split(Init(s)), Last(s))
  }

  /** The last line grown by a character. */
  function WithChar(parts: seq<Line>, c: char): (longer: seq<Line>)
    requires parts != []
    ensures |longer| == |parts| && Init(longer) == Init(parts) && Last(longer) == Last(parts) + [c]
  {
    Init(parts) + [Last(parts) + [c]]
  }

  /** The lines of a text; after a final newline no further line begins. */
  function SplitLines(s: string): seq<Line> {
    if s == "" then []
    else
      var lines := Split(s);
      if Last(lines) == "" then Init(lines) else lines
  }

  function Join(parts: seq<Line>): string
    requires parts != []
  {
    if |parts| == 1 then parts[0] else Join(Init(parts)) + "\n" + Last(parts)
  }

  lemma JoinNewline(parts: seq<Line>)
    requires parts != []
    ensures Join(parts + [""]) == Join(parts) + "\n"
  {
    assert Init(parts + [""]) == parts;
  }

  lemma JoinLonger(parts: seq<Line>, c: char)
    requires parts != []
    ensures Join(WithChar(parts, c)) == Join(parts) + [c]
  {
    hide WithChar;
    if |parts| > 1 {
      var front := Join(Init(parts)) + "\n";
      assert Join(WithChar(parts, c)) == front + (Last(parts) + [c]);
      assert front + (Last(parts) + [c]) == (front + Last(parts)) + [c];
    }
  }

  lemma SplitLast(s: string)
    requires s != ""
    ensures Split(s) == if Last(s) == '\n' then Split(Init(s)) + [""] else WithChar(Split(Init(s)), Last(s))
  {
    hide WithChar;
  }

  lemma {:induction false} JoinSplit(s: string)
    ensures Join(Split(s)) == s
  {
    if s != "" {
      hide Join, Split, WithChar;
      JoinSplit(Init(s));
      SplitLast(s);
      assert s == Init(s) + [Last(s)];
      if Last(s) == '\n' {
        JoinNewline(Split(Init(s)));
      } else {
        JoinLonger(Split(Init(s)), Last(s));
      }
    }
  }

  /** No line holds a newline. */
  lemma {:induction false} SplitHasNoNewline(s: string)
    ensures forall k :: 0 <= k < |Split(s)| ==> '\n' !in Split(s)[k]
  {
    if s != "" {
      SplitHasNoNewline(Init(s));
    }
  }

  lemma LinesHaveNoNewline(s: string)
    ensures forall k :: 0 <= k < |SplitLines(s)| ==> '\n' !in SplitLines(s)[k]
  {
    SplitHasNoNewline(s);
  }

  /** s without one final newline. */
  function Chomp(s: string): string {
    if s != "" && Last(s) == '\n' then Init(s) else s
  }

  lemma SplitLinesOfChomp(s: string)
    ensures SplitLines(s) == if s == "" then [] else Split(Chomp(s))
  {
    if s != "" && Last(s) == '\n' {
      assert Init(Split(Init(s)) + [""]) == Split(Init(s));
    }
  }

  /** s is t with one final newline that t itself lacks. */
  predicate OneNewlineMore(s: string, t: string) {
    t != "" && Last(t) != '\n' && s == t + "\n"
  }

  lemma EqualChomp(s: string, t: string)
    requires s != "" && t != ""
    ensures Chomp(s) == Chomp(t) <==> s == t || OneNewlineMore(s, t) || OneNewlineMore(t, s)
  {
    assert s == Init(s) + [Last(s)] && t == Init(t) + [Last(t)];
  }

  /** Two texts have the same lines exactly when they agree up to one final newline. */
  lemma SameLinesIff(s: string, t: string)
    ensures SplitLines(s) == SplitLines(t) <==> s == t || OneNewlineMore(s, t) || OneNewlineMore(t, s)
  {
    SplitLinesOfChomp(s);
    SplitLinesOfChomp(t);
    if s != "" && t != "" {
      JoinSplit(Chomp(s));
      JoinSplit(Chomp(t));
      EqualChomp(s, t);
    } else {
      assert !OneNewlineMore(s, t) && !OneNewlineMore(t, s);
    }
  }

  method DiffStrings(s: string, t: string) returns (patch: seq<PrintedHunk>)
    ensures ApplyPatch(patch, SplitLines(s), Progress(0, [])) == Some(SplitLines(t))
    ensures patch == [] <==> s == t || OneNewlineMore(s, t) || OneNewlineMore(t, s)
  {
    patch := DiffLines(SplitLines(s), SplitLines(t));
    SameLinesIff(s, t);
  }
}
