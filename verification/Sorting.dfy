/** The library's byte-wise string sort, over the keys of a map. For text in UTF-8
    that is the order of code points. */
module Sorting {

  predicate Less(a: string, b: string) {
    b != "" && (a == "" || a[0] < b[0] || (a[0] == b[0] && Less(a[1..], b[1..])))
  }

  /** Lexicographic: up to some place the two agree, and there a ends or has the smaller
      character. */
  lemma {:induction false} LessIff(a: string, b: string)
    ensures Less(a, b) <==>
            exists n :: 0 <= n <= |a| && n < |b| && AgreeUpTo(a, b, n) && (n == |a| || a[n] < b[n])
  {
    if a != "" && b != "" && a[0] == b[0] {
      LessIff(a[1..], b[1..]);
      if n: nat :| n <= |a| && n < |b| && AgreeUpTo(a, b, n) && (n == |a| || a[n] < b[n]) {
        assert n > 0;
        assert AgreeUpTo(a[1..], b[1..], n - 1);
      }
      if n: nat :| n <= |a[1..]| && n < |b[1..]| && AgreeUpTo(a[1..], b[1..], n)
                   && (n == |a[1..]| || a[1..][n] < b[1..][n]) {
        assert forall i :: 1 <= i < n + 1 ==> a[i] == a[1..][i - 1] && b[i] == b[1..][i - 1];
        assert AgreeUpTo(a, b, n + 1);
      }
    } else if Less(a, b) {
      assert AgreeUpTo(a, b, 0);
    }
  }

  predicate AgreeUpTo(a: string, b: string, n: nat)
    requires n <= |a| && n <= |b|
  {
    forall i :: 0 <= i < n ==> a[i] == b[i]
  }

  lemma {:induction false} LessTransitive(a: string, b: string, c: string)
    requires Less(a, b) && Less(b, c)
    ensures Less(a, c)
  {
    if a != "" && a[0] == b[0] == c[0] {
      LessTransitive(a[1..], b[1..], c[1..]);
    }
  }

  lemma {:induction false} LessTotal(a: string, b: string)
    ensures (Less(a, b) || Less(b, a) || a == b) && !(Less(a, b) && (Less(b, a) || a == b))
  {
    if a != "" && b != "" && a[0] == b[0] {
      LessTotal(a[1..], b[1..]);
      assert a == [a[0]] + a[1..] && b == [b[0]] + b[1..];
    }
  }

  predicate Sorted(keys: seq<string>) {
    forall i, j :: 0 <= i < j < |keys| ==> Less(keys[i], keys[j])
  }

  /** Inserting one key into a sorted list. */
  method InsertKey(keys: seq<string>, k: string) returns (r: seq<string>)
    requires Sorted(keys) && k !in keys
    ensures Sorted(r) && forall x :: x in r <==> x in keys || x == k
  {
    hide Less;
    var i := |keys|;
    while i > 0 && Less(k, keys[i - 1])
      invariant 0 <= i <= |keys| && forall j :: i <= j < |keys| ==> Less(k, keys[j])
    {
      i := i - 1;
      forall j | i <= j < |keys| ensures Less(k, keys[j]) {
        if j > i {
          LessTransitive(k, keys[i], keys[j]);
        }
      }
    }
    forall j | 0 <= j < i ensures Less(keys[j], k) {
      LessTotal(keys[i - 1], k);
      assert keys[i - 1] in keys;
      if j < i - 1 {
        LessTransitive(keys[j], keys[i - 1], k);
      }
    }
    r := keys[..i] + [k] + keys[i..];
    KeyInserted(keys, i, k);
  }

  lemma KeyInserted(keys: seq<string>, i: nat, k: string)
    requires i <= |keys|
    ensures forall x :: x in keys[..i] + [k] + keys[i..] <==> x in keys || x == k
  {
    assert keys == keys[..i] + keys[i..];
  }

  /** The keys in order, whatever order the map yields them in. */
  method SortedKeys(entries: set<string>) returns (keys: seq<string>)
    ensures Sorted(keys) && forall k :: k in keys <==> k in entries
  {
    keys := [];
    var left := entries;
    while left != {}
      invariant Sorted(keys) && left <= entries
      invariant forall k :: k in keys <==> k in entries && k !in left
      decreases |left|
    {
      var k :| k in left;
      keys := InsertKey(keys, k);
      left := left - {k};
    }
  }

  /** A set of keys has one sorted list. */
  lemma {:induction false} SortedUnique(p: seq<string>, q: seq<string>)
    requires Sorted(p) && Sorted(q) && forall k :: k in p <==> k in q
    ensures p == q
    decreases |p|
  {
    hide Less;
    EmptyTogether(p, q);
    if p != [] {
      SameHead(p, q);
      TailWithout(p);
      TailWithout(q);
      SortedUnique(p[1..], q[1..]);
      assert p == [p[0]] + p[1..] && q == [q[0]] + q[1..];
    }
  }

  lemma EmptyTogether(p: seq<string>, q: seq<string>)
    requires forall k :: k in p <==> k in q
    ensures p == [] <==> q == []
  {
    assert p != [] ==> p[0] in p;
    assert q != [] ==> q[0] in q;
  }

  lemma SameHead(p: seq<string>, q: seq<string>)
    requires p != [] && q != [] && Sorted(p) && Sorted(q) && forall k :: k in p <==> k in q
    ensures p[0] == q[0]
  {
    hide Less;
    assert p[0] in q && q[0] in p;
    LessTotal(p[0], q[0]);
  }

  lemma TailWithout(p: seq<string>)
    requires p != [] && Sorted(p)
    ensures Sorted(p[1..]) && forall k :: k in p[1..] <==> k in p && k != p[0]
  {
    hide Less;
    LessTotal(p[0], p[0]);
    forall k | k in p[1..] ensures k != p[0] {
      var i :| 0 <= i < |p[1..]| && p[1..][i] == k;
      assert Less(p[0], p[i + 1]);
    }
    assert p == [p[0]] + p[1..];
  }
}
