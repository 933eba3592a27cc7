/** The longest-common-subsequence line diff of internal/render/diff.go: the
    length table, the edit script recovered from it, and its optimality. */
module LineDiff {

  type Line = string

  datatype EditKind = Keep | Insert | Delete

  /** aIdx and bIdx count the lines of either side consumed before this edit. */
  datatype Edit = Edit(kind: EditKind, aIdx: nat, bIdx: nat)

  function Init<T>(s: seq<T>): seq<T>
    requires s != []
  {
    s[..|s| - 1]
  }

  function Last<T>(s: seq<T>): T
    requires s != []
  {
    s[|s| - 1]
  }

  // ---- Common subsequences ----

  /** f lists, in increasing order, positions of s that spell out c. */
  ghost predicate Embeds(c: seq<Line>, s: seq<Line>, f: seq<nat>) {
    && |f| == |c|
    && (forall i :: 0 <= i < |f| ==> f[i] < |s| && s[f[i]] == c[i])
    && (forall i, j :: 0 <= i < j < |f| ==> f[i] < f[j])
  }

  ghost predicate CommonSubsequence(c: seq<Line>, a: seq<Line>, b: seq<Line>) {
    && (exists f: seq<nat> :: Embeds(c, a, f))
    && (exists g: seq<nat> :: Embeds(c, b, g))
  }

  /** The recurrence the table is filled by. */
  function LcsLen(a: seq<Line>, b: seq<Line>): nat
    decreases |a| + |b|
  {
    if a == [] || b == [] then 0
    else if Last(a) == Last(b) then LcsLen(Init(a), Init(b)) + 1
    else if LcsLen(Init(a), b) >= LcsLen(a, Init(b)) then LcsLen(Init(a), b)
    else LcsLen(a, Init(b))
  }

  lemma {:induction false} CommonAtMost(c: seq<Line>, a: seq<Line>, b: seq<Line>, f: seq<nat>, g: seq<nat>)
    requires Embeds(c, a, f) && Embeds(c, b, g)
    ensures |c| <= LcsLen(a, b)
    decreases |a| + |b|
  {
    if c == [] {
    } else {
      assert f[|c| - 1] < |a| && g[|c| - 1] < |b|;
      assert a[Last(f)] == Last(c) == b[Last(g)];
      if Last(a) == Last(b) {
        CommonAtMost(Init(c), Init(a), Init(b), Init(f), Init(g));
      } else if Last(f) < |a| - 1 {
        CommonAtMost(c, Init(a), b, f, g);
      } else {
        CommonAtMost(c, a, Init(b), f, g);
      }
    }
  }

  // ---- Edit scripts ----

  /** es turns a into b, and every edit records its exact place on both sides. */
  predicate IsScript(es: seq<Edit>, a: seq<Line>, b: seq<Line>) {
    if es == [] then a == [] && b == []
    else
      var e := Last(es);
      match e.kind
      case Keep =>
        a != [] && b != [] && e.aIdx == |a| - 1 && e.bIdx == |b| - 1 && Last(a) == Last(b)
        && IsScript(Init(es), Init(a), Init(b))
      case Delete =>
        a != [] && e.aIdx == |a| - 1 && e.bIdx == |b| && IsScript(Init(es), Init(a), b)
      case Insert =>
        b != [] && e.aIdx == |a| && e.bIdx == |b| - 1 && IsScript(Init(es), a, Init(b))
  }

  function CountKind(es: seq<Edit>, kind: EditKind): nat {
    if es == [] then 0
    else CountKind(Init(es), kind) + if Last(es).kind == kind then 1 else 0
  }

  /** Lines of a, and of b, that es consumes. */
  function CountA(es: seq<Edit>): nat { CountKind(es, Keep) + CountKind(es, Delete) }
  function CountB(es: seq<Edit>): nat { CountKind(es, Keep) + CountKind(es, Insert) }

  function Changes(es: seq<Edit>): nat { CountKind(es, Insert) + CountKind(es, Delete) }

  lemma {:induction false} ScriptConsumesBoth(es: seq<Edit>, a: seq<Line>, b: seq<Line>)
    requires IsScript(es, a, b)
    ensures CountA(es) == |a| && CountB(es) == |b|
  {
    if es != [] {
      match Last(es).kind
      case Keep => ScriptConsumesBoth(Init(es), Init(a), Init(b));
      case Delete => ScriptConsumesBoth(Init(es), Init(a), b);
      case Insert => ScriptConsumesBoth(Init(es), a, Init(b));
    }
  }

  /** The lines any script keeps are a common subsequence of both sides. */
  lemma {:induction false} KeptLines(es: seq<Edit>, a: seq<Line>, b: seq<Line>)
    returns (c: seq<Line>, f: seq<nat>, g: seq<nat>)
    requires IsScript(es, a, b)
    ensures |c| == CountKind(es, Keep) && Embeds(c, a, f) && Embeds(c, b, g)
  {
    if es == [] {
      c, f, g := [], [], [];
    } else {
      match Last(es).kind
      case Keep =>
        c, f, g := KeptLines(Init(es), Init(a), Init(b));
        c, f, g := c + [Last(a)], f + [|a| - 1], g + [|b| - 1];
      case Delete =>
        c, f, g := KeptLines(Init(es), Init(a), b);
      case Insert =>
        c, f, g := KeptLines(Init(es), a, Init(b));
    }
  }

  /** The script the backtracking recovers. */
  function Script(a: seq<Line>, b: seq<Line>): seq<Edit>
    decreases |a| + |b|
  {
    if a == [] && b == [] then []
    else if a == [] then Script(a, Init(b)) + [Edit(Insert, 0, |b| - 1)]
    else if b == [] then Script(Init(a), b) + [Edit(Delete, |a| - 1, 0)]
    else if Last(a) == Last(b) then Script(Init(a), Init(b)) + [Edit(Keep, |a| - 1, |b| - 1)]
    else if LcsLen(Init(a), b) >= LcsLen(a, Init(b)) then Script(Init(a), b) + [Edit(Delete, |a| - 1, |b|)]
    else Script(a, Init(b)) + [Edit(Insert, |a|, |b| - 1)]
  }

  lemma {:induction false} ScriptTransforms(a: seq<Line>, b: seq<Line>)
    ensures IsScript(Script(a, b), a, b)
    ensures CountKind(Script(a, b), Keep) == LcsLen(a, b)
    decreases |a| + |b|
  {
    var es := Script(a, b);
    if es != [] {
      if a != [] && (b == [] || (Last(a) != Last(b) && LcsLen(Init(a), b) >= LcsLen(a, Init(b)))) {
        ScriptTransforms(Init(a), b);
        assert Init(es) == Script(Init(a), b);
      } else if a != [] && Last(a) == Last(b) {
        ScriptTransforms(Init(a), Init(b));
        assert Init(es) == Script(Init(a), Init(b));
      } else {
        ScriptTransforms(a, Init(b));
        assert Init(es) == Script(a, Init(b));
      }
    }
  }

  /** The recurrence computes the length of a longest common subsequence. */
  lemma LcsLenIsLongest(a: seq<Line>, b: seq<Line>)
    ensures exists c :: CommonSubsequence(c, a, b) && |c| == LcsLen(a, b)
    ensures forall c :: CommonSubsequence(c, a, b) ==> |c| <= LcsLen(a, b)
  {
    ScriptTransforms(a, b);
    var c, f, g := KeptLines(Script(a, b), a, b);
    assert CommonSubsequence(c, a, b);
    forall d | CommonSubsequence(d, a, b) ensures |d| <= LcsLen(a, b) {
      var f :| Embeds(d, a, f);
      var g :| Embeds(d, b, g);
      CommonAtMost(d, a, b, f, g);
    }
  }

  /** No script from a to b inserts and deletes fewer lines. */
  lemma ScriptIsMinimal(a: seq<Line>, b: seq<Line>, es: seq<Edit>)
    requires IsScript(es, a, b)
    ensures Changes(Script(a, b)) <= Changes(es)
  {
    ScriptTransforms(a, b);
    ScriptConsumesBoth(es, a, b);
    ScriptConsumesBoth(Script(a, b), a, b);
    var c, f, g := KeptLines(es, a, b);
    CommonAtMost(c, a, b, f, g);
  }

  lemma {:induction false} EqualSidesOnlyKeep(a: seq<Line>)
    ensures Changes(Script(a, a)) == 0
  {
    if a != [] {
      EqualSidesOnlyKeep(Init(a));
      assert Init(Script(a, a)) == Script(Init(a), Init(a));
    }
  }

  lemma {:induction false} OnlyKeepMeansEqual(es: seq<Edit>, a: seq<Line>, b: seq<Line>)
    requires IsScript(es, a, b) && Changes(es) == 0
    ensures a == b
  {
    if es != [] {
      OnlyKeepMeansEqual(Init(es), Init(a), Init(b));
      assert a == Init(a) + [Last(a)];
      assert b == Init(b) + [Last(b)];
    }
  }

  /** The script changes nothing exactly when the two sides agree. */
  lemma NoChangeIffEqual(a: seq<Line>, b: seq<Line>)
    ensures Changes(Script(a, b)) == 0 <==> a == b
  {
    ScriptTransforms(a, b);
    if a == b {
      EqualSidesOnlyKeep(a);
    } else if Changes(Script(a, b)) == 0 {
      OnlyKeepMeansEqual(Script(a, b), a, b);
    }
  }

  // ---- The table and the backtracking over it ----

  lemma PrefixStep(a: seq<Line>, b: seq<Line>, i: nat, j: nat)
    requires 0 < i <= |a| && 0 < j <= |b|
    ensures Init(a[..i]) == a[..i - 1] && Init(b[..j]) == b[..j - 1]
    ensures LcsLen(a[..i], b[..j]) ==
            if a[i - 1] == b[j - 1] then LcsLen(a[..i - 1], b[..j - 1]) + 1
            else if LcsLen(a[..i - 1], b[..j]) >= LcsLen(a[..i], b[..j - 1]) then LcsLen(a[..i - 1], b[..j])
            else LcsLen(a[..i], b[..j - 1])
  {
    assert Init(a[..i]) == a[..i - 1] && Init(b[..j]) == b[..j - 1];
  }

  ghost predicate IsTable(dp: array2<nat>, a: seq<Line>, b: seq<Line>)
    reads dp
  {
    && dp.Length0 == |a| + 1 && dp.Length1 == |b| + 1
    && forall i, j :: 0 <= i <= |a| && 0 <= j <= |b| ==> dp[i, j] == LcsLen(a[..i], b[..j])
  }

  method LcsTable(a: seq<Line>, b: seq<Line>) returns (dp: array2<nat>)
    ensures IsTable(dp, a, b)
  {
    var n, m := |a|, |b|;
    dp := new nat[n + 1, m + 1]((i, j) => 0);
    for i := 1 to n + 1
      invariant forall x, y :: 0 <= x <= n && 0 <= y <= m && (x < i || y == 0) ==> dp[x, y] == LcsLen(a[..x], b[..y])
    {
      for j := 1 to m + 1
        invariant forall x, y :: 0 <= x <= n && 0 <= y <= m && (x < i || y == 0 || (x == i && y < j))
                    ==> dp[x, y] == LcsLen(a[..x], b[..y])
      {
        PrefixStep(a, b, i, j);
        if a[i - 1] == b[j - 1] {
          dp[i, j] := dp[i - 1, j - 1] + 1;
        } else if dp[i - 1, j] >= dp[i, j - 1] {
          dp[i, j] := dp[i - 1, j];
        } else {
          dp[i, j] := dp[i, j - 1];
        }
      }
    }
  }

  /** The slice the recursive backtracking appends through. */
  class EditList {
    var items: seq<Edit>

    constructor ()
      ensures items == []
    {
      items := [];
    }
  }

  lemma ScriptStep(a: seq<Line>, b: seq<Line>, i: nat, j: nat)
    requires i <= |a| && j <= |b|
    ensures Script(a[..i], b[..j]) ==
            if i == 0 && j == 0 then []
            else if i == 0 then Script(a[..i], b[..j - 1]) + [Edit(Insert, 0, j - 1)]
            else if j == 0 then Script(a[..i - 1], b[..j]) + [Edit(Delete, i - 1, 0)]
            else if a[i - 1] == b[j - 1] then Script(a[..i - 1], b[..j - 1]) + [Edit(Keep, i - 1, j - 1)]
            else if LcsLen(a[..i - 1], b[..j]) >= LcsLen(a[..i], b[..j - 1]) then
              Script(a[..i - 1], b[..j]) + [Edit(Delete, i - 1, j)]
            else Script(a[..i], b[..j - 1]) + [Edit(Insert, i, j - 1)]
  {
    hide LcsLen;
    assert i > 0 ==> Init(a[..i]) == a[..i - 1];
    assert j > 0 ==> Init(b[..j]) == b[..j - 1];
  }

  method Backtrack(dp: array2<nat>, a: seq<Line>, b: seq<Line>, i: nat, j: nat, edits: EditList)
    requires i <= |a| && j <= |b| && IsTable(dp, a, b)
    modifies edits
    ensures edits.items == old(edits.items) + Script(a[..i], b[..j])
    decreases i + j
  {
    hide LcsLen, Script;
    ScriptStep(a, b, i, j);
    if i == 0 && j == 0 {
      return;
    }
    if i == 0 {
      Backtrack(dp, a, b, i, j - 1, edits);
      edits.items := edits.items + [Edit(Insert, i, j - 1)];
      return;
    }
    if j == 0 {
      Backtrack(dp, a, b, i - 1, j, edits);
      edits.items := edits.items + [Edit(Delete, i - 1, j)];
      return;
    }
    if a[i - 1] == b[j - 1] {
      Backtrack(dp, a, b, i - 1, j - 1, edits);
      edits.items := edits.items + [Edit(Keep, i - 1, j - 1)];
      return;
    }
    if dp[i - 1, j] >= dp[i, j - 1] {
      Backtrack(dp, a, b, i - 1, j, edits);
      edits.items := edits.items + [Edit(Delete, i - 1, j)];
    } else {
      Backtrack(dp, a, b, i, j - 1, edits);
      edits.items := edits.items + [Edit(Insert, i, j - 1)];
    }
  }

  /** The recovered script turns a into b with the fewest possible changes. */
  method LcsDiff(a: seq<Line>, b: seq<Line>) returns (edits: seq<Edit>)
    ensures edits == Script(a, b)
    ensures IsScript(edits, a, b)
    ensures forall es :: IsScript(es, a, b) ==> Changes(edits) <= Changes(es)
  {
    var dp := LcsTable(a, b);
    var list := new EditList();
    Backtrack(dp, a, b, |a|, |b|, list);
    edits := list.items;
    assert a[..|a|] == a && b[..|b|] == b;
    assert edits == Script(a, b);
    ScriptTransforms(a, b);
    forall es | IsScript(es, a, b) ensures Changes(edits) <= Changes(es) {
      ScriptIsMinimal(a, b, es);
    }
  }
}
