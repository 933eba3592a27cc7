/** Skill suggestions of internal/core/skills/registry.go. Inputs and triggers are
    already lower-cased and trimmed; `word` holds the letters and digits. */
module TriggerSearch {

  predicate OccursAt(s: string, t: string, p: nat) {
    p + |t| <= |s| && s[p..p + |t|] == t
  }

  /** Character by character. */
  predicate SpelledAt(s: string, t: string, p: nat) {
    p + |t| <= |s| && forall k :: p <= k < p + |t| ==> s[k] == t[k - p]
  }

  lemma SpelledIff(s: string, t: string, p: nat)
    ensures OccursAt(s, t, p) <==> SpelledAt(s, t, p)
  {
    if SpelledAt(s, t, p) {
      assert s[p..p + |t|] == t;
    }
    if OccursAt(s, t, p) {
      assert forall k :: p <= k < p + |t| ==> s[p..p + |t|][k - p] == s[k];
    }
  }

  ghost predicate Occurs(s: string, t: string) {
    exists p: nat :: OccursAt(s, t, p)
  }

  predicate HasSeparator(trigger: string, word: iset<char>) {
    exists i :: 0 <= i < |trigger| && trigger[i] !in word
  }

  /** An occurrence that starts a word and, if the trigger is short, ends one. */
  predicate MatchesAt(input: string, trigger: string, word: iset<char>, p: nat) {
    && OccursAt(input, trigger, p)
    && (p == 0 || input[p - 1] !in word)
    && (p + |trigger| == |input| || |trigger| > 2 || input[p + |trigger|] !in word)
  }

  /** What a trigger being contained in an input means. */
  ghost predicate Contains(input: string, trigger: string, word: iset<char>) {
    if HasSeparator(trigger, word) then Occurs(input, trigger)
    else exists p: nat :: MatchesAt(input, trigger, word, p)
  }

  /** The first occurrence at or after `from`, or -1. */
  method Index(s: string, t: string, from: nat) returns (p: int)
    requires from <= |s|
    ensures p == -1 ==> forall q: nat :: from <= q ==> !OccursAt(s, t, q)
    ensures p != -1 ==> from <= p && OccursAt(s, t, p) && forall q: nat :: from <= q < p ==> !OccursAt(s, t, q)
    ensures p != -1 ==> SpelledAt(s, t, p)
    ensures forall q: nat :: from <= q && (p == -1 || q < p) ==> !SpelledAt(s, t, q)
  {
    forall q: nat ensures OccursAt(s, t, q) <==> SpelledAt(s, t, q) {
      SpelledIff(s, t, q);
    }
    p := from;
    while p + |t| <= |s|
      invariant from <= p
      invariant forall q: nat :: from <= q < p ==> !OccursAt(s, t, q)
    {
      if s[p..p + |t|] == t {
        return;
      }
      p := p + 1;
    }
    p := -1;
  }

  method IndexOf(s: string, t: string) returns (found: bool)
    ensures found <==> Occurs(s, t)
  {
    var p := Index(s, t, 0);
    found := p >= 0;
  }

  method FindSeparator(trigger: string, word: iset<char>) returns (found: bool)
    ensures found <==> HasSeparator(trigger, word)
  {
    for i := 0 to |trigger|
      invariant forall k :: 0 <= k < i ==> trigger[k] in word
    {
      if trigger[i] !in word {
        return true;
      }
    }
    found := false;
  }

  /** A match that overlaps an occurrence would start inside a word. */
  lemma OverlapNeverMatches(input: string, trigger: string, word: iset<char>, idx: nat, p: nat)
    requires !HasSeparator(trigger, word) && OccursAt(input, trigger, idx) && idx < p < idx + |trigger|
    ensures !MatchesAt(input, trigger, word, p)
  {
    assert input[p - 1] == input[idx..idx + |trigger|][p - 1 - idx];
    assert trigger[p - 1 - idx] in word;
  }

  /** Skipping a whole trigger length after a failed hit loses no match. */
  lemma SkipLosesNothing(input: string, trigger: string, word: iset<char>, idx: nat)
    requires !HasSeparator(trigger, word) && OccursAt(input, trigger, idx) && !MatchesAt(input, trigger, word, idx)
    requires forall q: nat :: q < idx ==> !MatchesAt(input, trigger, word, q)
    ensures forall q: nat :: q < idx + |trigger| ==> !MatchesAt(input, trigger, word, q)
  {
    forall q: nat | idx < q < idx + |trigger| ensures !MatchesAt(input, trigger, word, q) {
      OverlapNeverMatches(input, trigger, word, idx, q);
    }
  }

  lemma ContainsIs(input: string, trigger: string, word: iset<char>)
    ensures (exists i :: 0 <= i < |trigger| && trigger[i] !in word) ==>
              (Contains(input, trigger, word) <==> exists p: nat :: OccursAt(input, trigger, p))
    ensures (forall i :: 0 <= i < |trigger| ==> trigger[i] in word) ==>
              (Contains(input, trigger, word) <==>
               exists p: nat :: OccursAt(input, trigger, p) && (p == 0 || input[p - 1] !in word)
                 && (|trigger| > 2 || p + |trigger| == |input| || input[p + |trigger|] !in word))
  {
    if p: nat :| OccursAt(input, trigger, p) && (p == 0 || input[p - 1] !in word)
                 && (|trigger| > 2 || p + |trigger| == |input| || input[p + |trigger|] !in word) {
      assert MatchesAt(input, trigger, word, p);
    }
    if p: nat :| MatchesAt(input, trigger, word, p) {
      assert OccursAt(input, trigger, p);
    }
  }

  method ContainsTrigger(input: string, trigger: string, word: iset<char>) returns (found: bool)
    requires trigger != ""
    ensures found <==> Contains(input, trigger, word)
    ensures (exists i :: 0 <= i < |trigger| && trigger[i] !in word) ==>
              (found <==> exists p: nat :: OccursAt(input, trigger, p))
    ensures (forall i :: 0 <= i < |trigger| ==> trigger[i] in word) ==>
              (found <==> exists p: nat :: OccursAt(input, trigger, p) && (p == 0 || input[p - 1] !in word)
                            && (|trigger| > 2 || p + |trigger| == |input| || input[p + |trigger|] !in word))
  {
    ContainsIs(input, trigger, word);
    var separated := FindSeparator(trigger, word);
    if separated {
      found := IndexOf(input, trigger);
      return;
    }
    var idx := Index(input, trigger, 0);
    while idx >= 0
      invariant -1 <= idx && (idx >= 0 ==> OccursAt(input, trigger, idx))
      invariant forall q: nat :: (idx < 0 || q < idx) ==> !MatchesAt(input, trigger, word, q)
      decreases |input| - idx, idx >= 0
    {
      var beforeOK := idx == 0 || input[idx - 1] !in word;
      var after := idx + |trigger|;
      var afterOK := after == |input| || |trigger| > 2 || input[after] !in word;
      if beforeOK && afterOK {
        assert MatchesAt(input, trigger, word, idx);
        return true;
      }
      SkipLosesNothing(input, trigger, word, idx);
      if after >= |input| {
        break;
      }
      var next := Index(input, trigger, after);
      if next < 0 {
        break;
      }
      idx := next;
    }
    found := false;
  }

  // ---- Ranking ----

  datatype Skill = Skill(name: string, triggers: seq<string>)

  /** 3 for the trigger itself, 2 for an input that contains it, 1 for an input
      that is part of it, else 0; blank triggers do not count. */
  ghost function Tier(input: string, trigger: string, word: iset<char>): (t: nat)
    ensures t <= 3
  {
    if trigger == "" then 0
    else if trigger == input then 3
    else if Contains(input, trigger, word) then 2
    else if Occurs(trigger, input) then 1
    else 0
  }

  /** The best tier of any trigger. */
  ghost function ScoreOf(input: string, triggers: seq<string>, word: iset<char>): nat {
    if triggers == [] then 0
    else
      var before, t := ScoreOf(input, triggers[..|triggers| - 1], word), Tier(input, triggers[|triggers| - 1], word);
      if t > before then t else before
  }

  lemma {:induction false} ScoreIsBestTier(input: string, triggers: seq<string>, word: iset<char>)
    ensures forall k :: 0 <= k < |triggers| ==> Tier(input, triggers[k], word) <= ScoreOf(input, triggers, word)
    ensures var score := ScoreOf(input, triggers, word);
            score > 0 ==> exists k :: 0 <= k < |triggers| && Tier(input, triggers[k], word) == score
  {
    if triggers != [] {
      var n := |triggers| - 1;
      ScoreIsBestTier(input, triggers[..n], word);
      assert forall k :: 0 <= k < n ==> triggers[k] == triggers[..n][k];
      var before := ScoreOf(input, triggers[..n], word);
      if before > 0 {
        var k :| 0 <= k < n && Tier(input, triggers[..n][k], word) == before;
        assert Tier(input, triggers[k], word) == before;
      }
    }
  }

  method Score(input: string, triggers: seq<string>, word: iset<char>) returns (best: nat)
    ensures best == ScoreOf(input, triggers, word)
  {
    best := 0;
    for k := 0 to |triggers|
      invariant best == ScoreOf(input, triggers[..k], word) && best <= 3
    {
      var lt := triggers[k];
      assert triggers[..k + 1][..k] == triggers[..k];
      if lt == "" {
        continue;
      }
      if lt == input {
        best := 3;
        continue;
      }
      if best < 2 {
        var contained := ContainsTrigger(input, lt, word);
        if contained {
          best := 2;
          continue;
        }
      }
      if best < 1 {
        var partial := IndexOf(lt, input);
        if partial {
          best := 1;
        }
      }
    }
    assert triggers[..|triggers|] == triggers;
  }

  /** A skill by its place in the alphabetical list, with its score. */
  datatype Scored = Scored(place: nat, score: nat)

  predicate Before(x: Scored, y: Scored) {
    x.score > y.score || (x.score == y.score && x.place < y.place)
  }

  predicate Ranked(s: seq<Scored>) {
    forall i, j :: 0 <= i < j < |s| ==> Before(s[i], s[j])
  }

  /** One step of a stable sort: x comes later in the list than all of s. */
  method InsertScored(s: seq<Scored>, x: Scored) returns (r: seq<Scored>)
    requires Ranked(s) && forall i :: 0 <= i < |s| ==> s[i].place < x.place
    ensures Ranked(r) && forall y :: y in r <==> y in s || y == x
  {
    var i := |s|;
    while i > 0 && s[i - 1].score < x.score
      invariant 0 <= i <= |s| && forall j :: i <= j < |s| ==> s[j].score < x.score
    {
      i := i - 1;
    }
    r := s[..i] + [x] + s[i..];
    InsertedMembers(s, i, x);
  }

  lemma InsertedMembers(s: seq<Scored>, i: nat, x: Scored)
    requires i <= |s|
    ensures forall y :: y in s[..i] + [x] + s[i..] <==> y in s || y == x
  {
    assert s == s[..i] + s[i..];
  }

  ghost predicate IsScored(input: string, skills: seq<Skill>, word: iset<char>, x: Scored) {
    x.place < |skills| && x.score > 0 && x.score == ScoreOf(input, skills[x.place].triggers, word)
  }

  /** The scored skills of the first n, and nothing else. */
  ghost predicate HoldsScored(input: string, skills: seq<Skill>, word: iset<char>, n: nat, s: seq<Scored>)
  {
    forall x :: x in s <==> x.place < n && IsScored(input, skills, word, x)
  }

  /** At most three scored skills in ranking order, and any other scored skill
      ranks behind three. */
  ghost predicate TopThree(input: string, skills: seq<Skill>, word: iset<char>, picks: seq<Scored>) {
    && |picks| <= 3 && Ranked(picks)
    && (forall x :: x in picks ==> IsScored(input, skills, word, x))
    && (forall x :: IsScored(input, skills, word, x) && x !in picks ==>
          |picks| == 3 && forall k :: 0 <= k < |picks| ==> Before(picks[k], x))
  }

  // ---- What the suggestions are, trigger by trigger ----

  ghost predicate HasExact(input: string, skill: Skill) {
    exists k :: 0 <= k < |skill.triggers| && skill.triggers[k] == input
  }

  ghost predicate HasContained(input: string, skill: Skill, word: iset<char>) {
    exists k :: 0 <= k < |skill.triggers| && skill.triggers[k] != "" && Contains(input, skill.triggers[k], word)
  }

  /** The input is a part of one of the triggers. */
  ghost predicate HasPart(input: string, skill: Skill) {
    exists k :: 0 <= k < |skill.triggers| && skill.triggers[k] != "" && Occurs(skill.triggers[k], input)
  }

  /** 3 for a skill with the input as a trigger, 2 for one with a trigger that the input
      contains, 1 for one with a trigger of which the input is a part, each only if no
      better applies. */
  ghost predicate Ranks(input: string, skill: Skill, word: iset<char>, rank: nat) {
    if HasExact(input, skill) then rank == 3
    else if HasContained(input, skill, word) then rank == 2
    else HasPart(input, skill) && rank == 1
  }

  lemma ScoreRanks(input: string, skill: Skill, word: iset<char>)
    requires input != ""
    ensures var score := ScoreOf(input, skill.triggers, word);
            if score > 0 then Ranks(input, skill, word, score) else forall r :: !Ranks(input, skill, word, r)
  {
    hide Contains, Occurs, ScoreOf;
    var triggers := skill.triggers;
    var score := ScoreOf(input, triggers, word);
    ScoreIsBestTier(input, triggers, word);
    if k: nat :| k < |triggers| && triggers[k] == input {
      assert Tier(input, triggers[k], word) == 3;
    }
    if k: nat :| k < |triggers| && triggers[k] != "" && Contains(input, triggers[k], word) {
      assert Tier(input, triggers[k], word) >= 2;
    }
    if k: nat :| k < |triggers| && triggers[k] != "" && Occurs(triggers[k], input) {
      assert Tier(input, triggers[k], word) >= 1;
    }
    if score > 0 {
      var k :| 0 <= k < |triggers| && Tier(input, triggers[k], word) == score;
      assert triggers[k] != "";
    }
  }

  /** At most three skills, each with its rank, best first and alphabetical within a rank;
      a skill with a rank that is not among them comes after three that are. */
  ghost predicate Suggested(input: string, skills: seq<Skill>, word: iset<char>, picks: seq<Scored>) {
    && |picks| <= 3
    && (forall j, k :: 0 <= j < k < |picks| ==>
          picks[j].score > picks[k].score || (picks[j].score == picks[k].score && picks[j].place < picks[k].place))
    && (forall k :: 0 <= k < |picks| ==>
          picks[k].place < |skills| && Ranks(input, skills[picks[k].place], word, picks[k].score))
    && (forall i: nat, r: nat :: i < |skills| && Ranks(input, skills[i], word, r) && Scored(i, r) !in picks ==>
          |picks| == 3 && forall k :: 0 <= k < |picks| ==>
            picks[k].score > r || (picks[k].score == r && picks[k].place < i))
  }

  lemma TopThreeIsSuggested(input: string, skills: seq<Skill>, word: iset<char>, picks: seq<Scored>)
    requires input != "" && TopThree(input, skills, word, picks)
    ensures Suggested(input, skills, word, picks)
  {
    hide Ranks, ScoreOf;
    forall k | 0 <= k < |picks|
      ensures picks[k].place < |skills| && Ranks(input, skills[picks[k].place], word, picks[k].score)
    {
      assert picks[k] in picks;
      ScoreRanks(input, skills[picks[k].place], word);
    }
    forall i: nat, r: nat | i < |skills| && Ranks(input, skills[i], word, r) && Scored(i, r) !in picks
      ensures |picks| == 3 && forall k :: 0 <= k < |picks| ==>
                picks[k].score > r || (picks[k].score == r && picks[k].place < i)
    {
      ScoreRanks(input, skills[i], word);
      OneRank(input, skills[i], word, r, ScoreOf(input, skills[i].triggers, word));
      assert IsScored(input, skills, word, Scored(i, r));
    }
  }

  lemma OneRank(input: string, skill: Skill, word: iset<char>, r: nat, score: nat)
    requires Ranks(input, skill, word, r)
    ensures r > 0 && (Ranks(input, skill, word, score) ==> score == r)
  {
  }

  /** The skills, in name order, whose triggers match best. */
  method Suggest(input: string, skills: seq<Skill>, word: iset<char>) returns (picks: seq<Scored>)
    ensures if input == "" then picks == [] else TopThree(input, skills, word, picks)
    ensures input != "" ==> Suggested(input, skills, word, picks)
  {
    if input == "" {
      return [];
    }
    hide ScoreOf, Suggested;
    var ranked: seq<Scored> := [];
    for i := 0 to |skills|
      invariant Ranked(ranked) && HoldsScored(input, skills, word, i, ranked)
    {
      var best := Score(input, skills[i].triggers, word);
      if best > 0 {
        ranked := InsertScored(ranked, Scored(i, best));
      }
    }
    picks := if |ranked| <= 3 then ranked else ranked[..3];
    forall x | IsScored(input, skills, word, x) && x !in picks
      ensures |picks| == 3 && forall k :: 0 <= k < |picks| ==> Before(picks[k], x)
    {
      assert x in ranked;
      var j :| 0 <= j < |ranked| && ranked[j] == x;
      assert j >= 3;
    }
    TopThreeIsSuggested(input, skills, word, picks);
  }

  /** Two rankings that agree before k: q's next is not ahead of p's. */
  lemma NextNotAhead(input: string, skills: seq<Skill>, word: iset<char>, p: seq<Scored>, q: seq<Scored>, k: nat)
    requires TopThree(input, skills, word, p) && TopThree(input, skills, word, q)
    requires k < |p| && k < |q| && p[..k] == q[..k]
    ensures !Before(q[k], p[k])
  {
    hide ScoreOf, IsScored;
    assert q[k] in q && forall i :: 0 <= i < k ==> q[..k][i] != q[k];
    assert q[k] !in p[..k];
    assert forall i :: 0 <= i < k ==> p[..k][i] == p[i];
  }

  lemma NextExists(input: string, skills: seq<Skill>, word: iset<char>, p: seq<Scored>, q: seq<Scored>, k: nat)
    requires TopThree(input, skills, word, p) && TopThree(input, skills, word, q)
    requires k < |p| && k <= |q| && p[..k] == q[..k]
    ensures k < |q|
  {
    hide ScoreOf, IsScored;
    assert p[k] in p && forall i :: 0 <= i < k ==> p[..k][i] != p[k];
    assert p[k] !in q[..k];
    assert q[..|q|] == q;
  }

  /** That fixes the suggestions. */
  lemma {:induction false} TopThreeUnique(input: string, skills: seq<Skill>, word: iset<char>, p: seq<Scored>,
                                          q: seq<Scored>, k: nat)
    requires TopThree(input, skills, word, p) && TopThree(input, skills, word, q) && k <= |p|
    ensures k <= |q| && p[..k] == q[..k]
    decreases k
  {
    hide TopThree;
    if k > 0 {
      TopThreeUnique(input, skills, word, p, q, k - 1);
      NextExists(input, skills, word, p, q, k - 1);
      NextNotAhead(input, skills, word, p, q, k - 1);
      NextNotAhead(input, skills, word, q, p, k - 1);
      assert p[..k] == p[..k - 1] + [p[k - 1]] && q[..k] == q[..k - 1] + [q[k - 1]];
      SameScored(input, skills, word, p, q, k - 1);
    }
  }

  lemma SameScored(input: string, skills: seq<Skill>, word: iset<char>, p: seq<Scored>, q: seq<Scored>, k: nat)
    requires k < |p| && k < |q| && !Before(p[k], q[k]) && !Before(q[k], p[k])
    ensures p[k] == q[k]
  {
  }
}
