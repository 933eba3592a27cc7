/** The typewriter of internal/ui/tui/playback.go: a look-ahead window over the
    text still arriving, and bounded chunks of styled text that never cut an
    escape sequence. */
module Playback {
  import opened Clauses

  const ESC: char := '\U{1b}'

  // ---- Clause boundaries ----

  /** Where a boundary at i lets the window reach, 0 if there is none. */
  function BoundaryEnd(buf: string, i: nat): (e: nat)
    requires i < |buf|
    ensures e <= |buf|
  {
    if buf[i] == '\n' then i + 1
    else if EndsClause(buf[i]) && i + 1 < |buf| && IsSpace(buf[i + 1]) then i + 2
    else 0
  }

  /** The furthest boundary among the first n characters. */
  function Window(buf: string, n: nat): (w: nat)
    requires n <= |buf|
    ensures w <= |buf|
  {
    if n == 0 then 0
    else
      var before, e := Window(buf, n - 1), BoundaryEnd(buf, n - 1);
      if e > before then e else before
  }

  lemma {:induction false} WindowIsFurthest(buf: string, n: nat)
    requires n <= |buf|
    ensures forall i :: 0 <= i < n ==> BoundaryEnd(buf, i) <= Window(buf, n)
    ensures Window(buf, n) > 0 ==> exists i :: 0 <= i < n && BoundaryEnd(buf, i) == Window(buf, n)
    ensures Window(buf, n) <= n + 1
  {
    if n > 0 {
      WindowIsFurthest(buf, n - 1);
    }
  }

  /** A newline, or punctuation with white space after it, lets text go up to and with it. */
  predicate LetsGo(buf: string, i: nat, e: int)
    requires i < |buf|
  {
    || (buf[i] == '\n' && e == i + 1)
    || (buf[i] in ['.', '!', '?', ',', ';', ':'] && i + 1 < |buf| && buf[i + 1] in [' ', '\t', '\n', '\r']
        && e == i + 2)
  }

  /** The window reaches as far as any of these does, and no further. */
  ghost predicate IsWindow(buf: string, w: nat) {
    && (forall i, e :: 0 <= i < |buf| && LetsGo(buf, i, e) ==> e <= w)
    && (w == 0 || exists i :: 0 <= i < |buf| && LetsGo(buf, i, w))
  }

  lemma WindowIs(buf: string)
    ensures IsWindow(buf, Window(buf, |buf|))
  {
    WindowIsFurthest(buf, |buf|);
    forall i, e | 0 <= i < |buf| && LetsGo(buf, i, e) ensures e <= Window(buf, |buf|) {
      assert BoundaryEnd(buf, i) == e;
    }
    if i: nat :| i < |buf| && BoundaryEnd(buf, i) == Window(buf, |buf|) && Window(buf, |buf|) > 0 {
      assert LetsGo(buf, i, Window(buf, |buf|));
    }
  }

  /** The last boundary found is the furthest. */
  lemma LastBoundaryWins(buf: string, i: nat)
    requires i < |buf| && BoundaryEnd(buf, i) > 0
    ensures Window(buf, i + 1) == BoundaryEnd(buf, i)
  {
    WindowIsFurthest(buf, i);
  }

  lemma {:induction false} WindowOfPrefix(buf: string, more: string, n: nat)
    requires n < |buf|
    ensures Window(buf + more, n) == Window(buf, n)
  {
    if n > 0 {
      WindowOfPrefix(buf, more, n - 1);
      assert (buf + more)[n - 1] == buf[n - 1] && (buf + more)[n] == buf[n];
    }
  }

  /** More text moves no boundary inside the window, so a rescan may start there. */
  lemma WindowStaysPut(buf: string, more: string)
    ensures Window(buf + more, Window(buf, |buf|)) == Window(buf, |buf|)
  {
    var e := Window(buf, |buf|);
    if e > 0 {
      WindowIsFurthest(buf, |buf|);
      var i :| 0 <= i < |buf| && BoundaryEnd(buf, i) == e;
      LastBoundaryWins(buf, i);
      var all := buf + more;
      assert all[i] == buf[i] && (e == i + 2 ==> all[i + 1] == buf[i + 1]);
      assert BoundaryEnd(all, i) == e;
      LastBoundaryWins(all, i);
    }
  }

  // ---- Display units ----

  /** The bytes of a control sequence up to and including its final one, or all. */
  function FinalLen(t: string): (n: nat)
    ensures n <= |t|
  {
    if t == "" then 0 else if '@' <= t[0] <= '~' then 1 else 1 + FinalLen(t[1..])
  }

  /** One visible character, or a whole escape sequence. */
  function UnitLen(s: string): (n: nat)
    requires s != ""
    ensures 0 < n <= |s|
  {
    if s[0] != ESC || |s| == 1 || s[1] != '[' then 1 else 2 + FinalLen(s[2..])
  }

  function Units(s: string): seq<string>
    decreases |s|
  {
    if s == "" then [] else [s[..UnitLen(s)]] + Units(s[UnitLen(s)..])
  }

  function VisibleCount(units: seq<string>): nat {
    if units == [] then 0
    else VisibleCount(units[1..]) + if units[0] != "" && units[0][0] == ESC then 0 else 1
  }

  /** How far a pop of n visible characters reaches. */
  function TakeLen(s: string, n: nat): (k: nat)
    ensures k <= |s|
    decreases |s|
  {
    if s == "" || n == 0 then 0
    else if s[0] == ESC then UnitLen(s) + TakeLen(s[UnitLen(s)..], n)
    else 1 + TakeLen(s[1..], n - 1)
  }

  lemma {:induction false} FinalOfPrefix(t: string, k: nat)
    requires FinalLen(t) <= k <= |t|
    ensures FinalLen(t[..k]) == FinalLen(t)
  {
    if t != "" && !('@' <= t[0] <= '~') {
      FinalOfPrefix(t[1..], k - 1);
      assert t[..k][1..] == t[1..][..k - 1];
    }
  }

  lemma UnitOfPrefix(s: string, k: nat)
    requires s != "" && UnitLen(s) <= k <= |s|
    ensures UnitLen(s[..k]) == UnitLen(s)
  {
    if s[0] == ESC && |s| > 1 && s[1] == '[' {
      FinalOfPrefix(s[2..], k - 2);
      assert s[..k][2..] == s[2..][..k - 2];
    }
  }

  lemma UnitsOfPrefix(s: string, k: nat)
    requires s != "" && UnitLen(s) <= k <= |s|
    ensures Units(s[..k]) == [s[..UnitLen(s)]] + Units(s[UnitLen(s)..][..k - UnitLen(s)])
  {
    var u := UnitLen(s);
    UnitOfPrefix(s, k);
    assert s[..k][u..] == s[u..][..k - u] && s[..k][..u] == s[..u];
  }

  lemma UnitsFront(s: string)
    requires s != ""
    ensures Units(s) == [s[..UnitLen(s)]] + Units(s[UnitLen(s)..])
  {
  }

  lemma VisibleCons(u: string, units: seq<string>)
    ensures VisibleCount([u] + units) == VisibleCount(units) + if u != "" && u[0] == ESC then 0 else 1
  {
    assert ([u] + units)[1..] == units;
  }

  lemma TakeNext(s: string, n: nat)
    requires s != "" && n > 0
    ensures var u, m := UnitLen(s), if s[0] == ESC then n else n - 1;
            TakeLen(s, n) == u + TakeLen(s[u..], m) && (s[0] != ESC ==> u == 1)
  {
  }

  /** The first k characters are whole units, n visible ones unless that is all. */
  predicate WholeUnits(s: string, k: nat, n: nat)
    requires k <= |s|
  {
    && Units(s[..k]) + Units(s[k..]) == Units(s)
    && VisibleCount(Units(s[..k])) <= n
    && (k < |s| ==> VisibleCount(Units(s[..k])) == n)
  }

  lemma WholeUnitsNext(s: string, k: nat, n: nat)
    requires s != "" && n > 0 && k <= |s| - UnitLen(s)
    requires WholeUnits(s[UnitLen(s)..], k, if s[0] == ESC then n else n - 1)
    ensures WholeUnits(s, UnitLen(s) + k, n)
  {
    hide Units, UnitLen, VisibleCount;
    var u := UnitLen(s);
    var rest := s[u..];
    UnitsFront(s);
    UnitsOfPrefix(s, u + k);
    assert s[u + k..] == rest[k..];
    var first, taken, left := [s[..u]], Units(rest[..k]), Units(rest[k..]);
    VisibleCons(s[..u], taken);
    assert (first + taken) + left == first + (taken + left);
  }

  /** A pop never cuts a unit, and takes n visible ones unless there are no more. */
  lemma {:induction false} TakeKeepsUnits(s: string, n: nat)
    ensures WholeUnits(s, TakeLen(s, n), n)
    decreases |s|
  {
    hide WholeUnits;
    if s == "" || n == 0 {
      TakeNothing(s, n);
    } else {
      var u, m := UnitLen(s), if s[0] == ESC then n else n - 1;
      TakeNext(s, n);
      TakeKeepsUnits(s[u..], m);
      WholeUnitsNext(s, TakeLen(s[u..], m), n);
    }
  }

  lemma TakeNothing(s: string, n: nat)
    requires s == "" || n == 0
    ensures WholeUnits(s, TakeLen(s, n), n)
  {
    assert s[..0] == "" && s[0..] == s;
  }

  // ---- The chunks of a released buffer ----

  /** What ticks of n visible characters emit until nothing is left. */
  function Chunks(s: string, n: nat): seq<string>
    requires n > 0
    decreases |s|
  {
    if s == "" then [] else [s[..TakeLen(s, n)]] + Chunks(s[TakeLen(s, n)..], n)
  }

  function UnitsOfAll(chunks: seq<string>): seq<string> {
    if chunks == [] then [] else Units(chunks[0]) + UnitsOfAll(chunks[1..])
  }

  function Concat(chunks: seq<string>): string {
    if chunks == [] then "" else chunks[0] + Concat(chunks[1..])
  }

  lemma ChunksFront(s: string, n: nat)
    requires s != "" && n > 0
    ensures var k := TakeLen(s, n); 0 < k && Chunks(s, n) == [s[..k]] + Chunks(s[k..], n)
  {
  }

  predicate Full(chunk: string, n: nat) { VisibleCount(Units(chunk)) == n }

  /** The chunks are the text, at most n visible characters each and n in all but
      the last, and no escape sequence is split between them. */
  predicate Plays(chunks: seq<string>, s: string, n: nat) {
    && Concat(chunks) == s && UnitsOfAll(chunks) == Units(s)
    && (forall i :: 0 <= i < |chunks| ==> chunks[i] != "" && VisibleCount(Units(chunks[i])) <= n)
    && (forall i :: 0 <= i < |chunks| - 1 ==> Full(chunks[i], n))
  }

  lemma PlaysCons(s: string, k: nat, n: nat, later: seq<string>)
    requires 0 < k <= |s| && WholeUnits(s, k, n) && Plays(later, s[k..], n) && (later == [] || k < |s|)
    ensures Plays([s[..k]] + later, s, n)
  {
    hide Units, VisibleCount;
    var chunks := [s[..k]] + later;
    assert chunks[1..] == later && s[..k] + s[k..] == s;
  }

  /** Ticks end with exactly the text played. */
  lemma {:induction false} ChunksPlayTheText(s: string, n: nat)
    requires n > 0
    ensures Plays(Chunks(s, n), s, n)
    decreases |s|
  {
    if s != "" {
      var k := TakeLen(s, n);
      hide Plays, TakeLen;
      ChunksFront(s, n);
      ChunksPlayTheText(s[k..], n);
      TakeKeepsUnits(s, n);
      PlaysCons(s, k, n, Chunks(s[k..], n));
    }
  }

  // ---- Units, character by character ----

  /** A final byte: 0x40 to 0x7E. */
  predicate IsFinal(c: char) { '\U{40}' <= c <= '\U{7e}' }

  /** From a to b there is one unit. A visible character is one, and so is an escape that no
      bracket follows; an escape with a bracket goes on to the first final byte after
      that, or to the end if there is none. */
  ghost predicate IsUnit(s: string, a: nat, b: nat) {
    && a < b <= |s|
    && if s[a] == '\U{1b}' && a + 1 < |s| && s[a + 1] == '[' then
         && a + 2 <= b && (forall j :: a + 2 <= j < b - 1 ==> !IsFinal(s[j]))
         && (b == |s| || (a + 3 <= b && IsFinal(s[b - 1])))
       else b == a + 1
  }

  /** From a to b there are whole units, v of them visible characters. */
  ghost predicate Walks(s: string, a: nat, b: nat, v: nat)
    decreases b - a
  {
    if a >= b then a == b && v == 0
    else if b <= |s| && s[a] == '\U{1b}' then exists m :: a < m <= b && IsUnit(s, a, m) && Walks(s, m, b, v)
    else b <= |s| && v > 0 && Walks(s, a + 1, b, v - 1)
  }

  /** A cut at k after at most n visible characters: after the n-th at once, or at the end. */
  ghost predicate IsCut(s: string, k: nat, n: nat) {
    if n == 0 then k == 0
    else
      || (0 < k <= |s| && s[k - 1] != '\U{1b}' && Walks(s, 0, k - 1, n - 1) && Walks(s, 0, k, n))
      || (k == |s| && exists v :: 0 <= v < n && Walks(s, 0, k, v))
  }

  lemma FinalLenIs(t: string)
    ensures forall j :: 0 <= j < FinalLen(t) - 1 ==> !IsFinal(t[j])
    ensures FinalLen(t) == |t| || (FinalLen(t) > 0 && IsFinal(t[FinalLen(t) - 1]))
  {
  }

  lemma UnitLenIs(s: string)
    requires s != ""
    ensures IsUnit(s, 0, UnitLen(s))
  {
    if s[0] == ESC && |s| > 1 && s[1] == '[' {
      FinalLenIs(s[2..]);
    }
  }

  lemma UnitShifts(s: string, u: nat, a: nat, b: nat)
    requires u <= |s|
    ensures IsUnit(s[u..], a, b) <==> IsUnit(s, u + a, u + b)
  {
    if IsUnit(s, u + a, u + b) {
      assert forall j :: a <= j < b ==> s[u..][j] == s[u + j];
    }
  }

  lemma {:induction false} WalksShift(s: string, u: nat, a: nat, b: nat, v: nat)
    requires u <= |s| && Walks(s[u..], a, b, v)
    ensures Walks(s, u + a, u + b, v)
    decreases b - a
  {
    if a < b {
      if s[u..][a] == ESC {
        var m :| a < m <= b && IsUnit(s[u..], a, m) && Walks(s[u..], m, b, v);
        UnitShifts(s, u, a, m);
        WalksShift(s, u, m, b, v);
      } else {
        WalksShift(s, u, a + 1, b, v - 1);
      }
    }
  }

  /** A walk of the rest, with the unit before it. */
  lemma WalksFirst(s: string, b: nat, v: nat)
    requires s != "" && Walks(s[UnitLen(s)..], 0, b, v)
    ensures Walks(s, 0, UnitLen(s) + b, if s[0] == ESC then v else v + 1)
  {
    hide UnitLen;
    UnitLenIs(s);
    WalksShift(s, UnitLen(s), 0, b, v);
  }

  /** A pop takes whole units, and stops right after the n-th visible character, or at the end. */
  lemma {:induction false} TakeIsCut(s: string, n: nat)
    ensures IsCut(s, TakeLen(s, n), n)
    decreases |s|
  {
    hide Walks, UnitLen;
    if s == "" {
      NothingWalked(s);
    } else if n > 0 {
      var u, m := UnitLen(s), if s[0] == ESC then n else n - 1;
      TakeNext(s, n);
      TakeIsCut(s[u..], m);
      CutFirst(s, TakeLen(s[u..], m), n);
    }
  }

  lemma NothingWalked(s: string)
    ensures Walks(s, 0, 0, 0)
  {
  }

  lemma CutFirst(s: string, k: nat, n: nat)
    requires s != "" && n > 0 && (s[0] != ESC ==> UnitLen(s) == 1)
    requires IsCut(s[UnitLen(s)..], k, if s[0] == ESC then n else n - 1)
    ensures IsCut(s, UnitLen(s) + k, n)
  {
    hide Walks, UnitLen;
    var u, m := UnitLen(s), if s[0] == ESC then n else n - 1;
    var rest := s[u..];
    if m == 0 {
      NothingWalked(s);
      NothingWalked(rest);
      WalksFirst(s, 0, 0);
    } else if 0 < k <= |rest| && rest[k - 1] != ESC && Walks(rest, 0, k - 1, m - 1) && Walks(rest, 0, k, m) {
      WalksFirst(s, k - 1, m - 1);
      WalksFirst(s, k, m);
      assert s[u + k - 1] == rest[k - 1];
    } else {
      var v :| 0 <= v < m && Walks(rest, 0, k, v);
      WalksFirst(s, k, v);
    }
  }

  /** The chunks are cut one after the other. */
  ghost predicate AreCuts(chunks: seq<string>, s: string, n: nat)
    decreases |chunks|
  {
    if chunks == [] then s == ""
    else
      && chunks[0] != "" && chunks[0] <= s && IsCut(s, |chunks[0]|, n)
      && AreCuts(chunks[1..], s[|chunks[0]|..], n)
  }

  lemma {:induction false} ChunksAreCuts(s: string, n: nat)
    requires n > 0
    ensures AreCuts(Chunks(s, n), s, n)
    decreases |s|
  {
    hide IsCut, TakeLen;
    if s != "" {
      ChunksFront(s, n);
      TakeIsCut(s, n);
      ChunksAreCuts(s[TakeLen(s, n)..], n);
    }
  }

  /** The end of the escape sequence that starts at i. */
  method EscapeEnd(win: string, i: nat) returns (e: nat)
    requires i < |win| && win[i] == ESC
    ensures e == i + UnitLen(win[i..])
    ensures IsUnit(win, i, e)
  {
    UnitLenIs(win[i..]);
    UnitShifts(win, i, 0, UnitLen(win[i..]));
    e := i + 1;
    if e < |win| && win[e] == '[' {
      e := e + 1;
      assert win[i..][2..] == win[e..];
      while e < |win|
        invariant i + 2 <= e <= |win| && e + FinalLen(win[e..]) == i + UnitLen(win[i..])
      {
        var c := win[e];
        e := e + 1;
        assert win[e - 1..][1..] == win[e..];
        if '@' <= c <= '~' {
          return;
        }
      }
    }
  }

  lemma TakeNextAt(win: string, i: nat, n: nat)
    requires i < |win| && n > 0
    ensures var u := UnitLen(win[i..]);
            && i + u <= |win| && (win[i] != ESC ==> u == 1)
            && TakeLen(win[i..], n) == u + TakeLen(win[i + u..], if win[i] == ESC then n else n - 1)
  {
    TakeNext(win[i..], n);
    var u := UnitLen(win[i..]);
    assert win[i..][u..] == win[i + u..];
  }

  /** Walks whole units until n visible characters are taken or the text ends. */
  method WalkUnits(win: string, n: nat) returns (i: nat)
    ensures i == TakeLen(win, n)
  {
    hide TakeLen, UnitLen;
    var visible := 0;
    i := 0;
    assert win[0..] == win;
    while i < |win| && visible < n
      invariant i <= |win| && visible <= n
      invariant i + TakeLen(win[i..], n - visible) == TakeLen(win, n)
    {
      TakeNextAt(win, i, n - visible);
      if win[i] == ESC {
        i := EscapeEnd(win, i);
      } else {
        visible := visible + 1;
        i := i + 1;
      }
    }
    TakeDone(win[i..], n - visible);
  }

  lemma TakeDone(s: string, n: nat)
    requires s == "" || n == 0
    ensures TakeLen(s, n) == 0
  {
  }

  class Playback {
    var playbackBuf: string
    var playbackEmittable: nat
    ghost var buffering: bool

    /** While text is only being buffered the window is that of a full rescan. */
    ghost predicate Valid()
      reads this
    {
      && playbackEmittable <= |playbackBuf|
      && (buffering ==> playbackEmittable == Window(playbackBuf, |playbackBuf|))
    }

    constructor ()
      ensures Valid() && buffering && playbackBuf == ""
    {
      playbackBuf, playbackEmittable, buffering := "", 0, true;
    }

    method RefreshEmittableWindow()
      requires playbackEmittable <= |playbackBuf|
      requires buffering ==> Window(playbackBuf, playbackEmittable) == playbackEmittable
      modifies `playbackEmittable
      ensures Valid() && playbackEmittable >= old(playbackEmittable)
    {
      for i := playbackEmittable to |playbackBuf|
        invariant old(playbackEmittable) <= playbackEmittable <= |playbackBuf|
        invariant buffering ==> playbackEmittable == Window(playbackBuf, i)
        invariant playbackEmittable <= i + 1
      {
        if BoundaryEnd(playbackBuf, i) > 0 {
          LastBoundaryWins(playbackBuf, i);
        }
        var r := playbackBuf[i];
        if r == '\n' {
          playbackEmittable := i + 1;
        } else if EndsClause(r) && i + 1 < |playbackBuf| && IsSpace(playbackBuf[i + 1]) {
          playbackEmittable := i + 2;
        }
      }
    }

    method BufferAssistantToken(token: string)
      requires Valid()
      modifies this
      ensures Valid() && playbackBuf == old(playbackBuf) + token && buffering == old(buffering)
      ensures buffering ==> IsWindow(playbackBuf, playbackEmittable)
    {
      WindowIs(playbackBuf + token);
      WindowStaysPut(playbackBuf, token);
      playbackBuf := playbackBuf + token;
      RefreshEmittableWindow();
    }

    method DrainPlaybackBuffer() returns (out: string)
      requires Valid()
      modifies this
      ensures Valid() && buffering && out == old(playbackBuf) && playbackBuf == ""
    {
      out := playbackBuf;
      playbackBuf, playbackEmittable, buffering := "", 0, true;
    }

    /** The turn is done: its rendered text, if any, replaces the buffer, all of it
        free to go. */
    method ReleasePlaybackTail(rendered: string)
      requires Valid()
      modifies this
      ensures Valid() && playbackEmittable == |playbackBuf|
      ensures playbackBuf == if old(playbackBuf) == "" then "" else rendered
    {
      if |playbackBuf| > 0 {
        playbackBuf := rendered;
      }
      playbackEmittable := |playbackBuf|;
      buffering := false;
    }

    method PopPlaybackRunes(n: nat) returns (head: string)
      requires Valid()
      modifies this
      ensures Valid() && head + playbackBuf == old(playbackBuf)
      ensures head == old(playbackBuf[..TakeLen(playbackBuf[..playbackEmittable], n)])
      ensures IsCut(old(playbackBuf[..playbackEmittable]), |head|, n)
      ensures playbackEmittable == old(playbackEmittable) - |head|
      ensures head != "" ==> (buffering <==> playbackBuf == "")
    {
      TakeIsCut(playbackBuf[..playbackEmittable], n);
      if |playbackBuf| == 0 || playbackEmittable == 0 {
        return "";
      }
      var limit := playbackEmittable;
      if limit > |playbackBuf| {
        limit := |playbackBuf|;
      }
      var i := WalkUnits(playbackBuf[..limit], n);
      head := playbackBuf[..i];
      playbackBuf := playbackBuf[i..];
      var left := playbackEmittable - i;
      playbackEmittable := if left > 0 then left else 0;
      buffering := |playbackBuf| == 0;
    }

    /** Ticks keep popping n characters until the buffer is empty. */
    method PlayOut(n: nat) returns (emitted: seq<string>)
      requires Valid() && n > 0 && playbackEmittable == |playbackBuf|
      modifies this
      ensures emitted == Chunks(old(playbackBuf), n) && playbackBuf == "" && Valid()
      ensures AreCuts(emitted, old(playbackBuf), n)
      ensures old(playbackBuf) != "" ==> buffering
    {
      ChunksAreCuts(playbackBuf, n);
      emitted := [];
      while playbackBuf != ""
        invariant Valid() && playbackEmittable == |playbackBuf|
        invariant playbackBuf == "" && old(playbackBuf) != "" ==> buffering
        invariant emitted + Chunks(playbackBuf, n) == Chunks(old(playbackBuf), n)
        decreases |playbackBuf|
      {
        ghost var before := playbackBuf;
        assert before[..|before|] == before;
        ChunksFront(before, n);
        var chunk := PopPlaybackRunes(n);
        assert chunk == before[..TakeLen(before, n)] && playbackBuf == before[TakeLen(before, n)..];
        assert Chunks(before, n) == [chunk] + Chunks(playbackBuf, n);
        emitted := emitted + [chunk];
      }
    }
  }
}
