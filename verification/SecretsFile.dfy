/** The dotenv file of internal/secrets/store.go: its text, the entries read from
    it, and the sorted rewrite. */
module SecretsFile {
  import opened Sorting
  import opened Wrappers

  // ---- Reading ----

  /** White space as the Go unicode package defines it. */
  predicate IsSpace(c: char) {
    || '\t' <= c <= '\r' || c == ' ' || c == '\U{85}' || c == '\U{a0}' || c == '\U{1680}'
    || '\U{2000}' <= c <= '\U{200a}' || '\U{2028}' <= c <= '\U{2029}' || c == '\U{202f}' || c == '\U{205f}'
    || c == '\U{3000}'
  }

  function TrimRight(s: string): (r: string)
    ensures r <= s && (r != "" ==> !IsSpace(r[|r| - 1]))
  {
    if s != "" && IsSpace(s[|s| - 1]) then TrimRight(s[..|s| - 1]) else s
  }

  function TrimLeft(s: string): (r: string)
    ensures |r| <= |s| && (forall i :: 0 <= i < |r| ==> r[i] == s[|s| - |r| + i]) && (r != "" ==> !IsSpace(r[0]))
  {
    if s != "" && IsSpace(s[0]) then TrimLeft(s[1..]) else s
  }

  function Trim(s: string): string { TrimRight(TrimLeft(s)) }

  /** The place of the first c, or the length if there is none. */
  function Find(s: string, c: char): (i: nat)
    ensures i <= |s| && (i < |s| ==> s[i] == c) && forall k :: 0 <= k < i ==> s[k] != c
  {
    if s == "" || s[0] == c then 0 else 1 + Find(s[1..], c)
  }

  function Lines(text: string): seq<string> {
    if text == "" then []
    else
      var n := Find(text, '\n');
      [text[..n]] + if n < |text| then Lines(text[n + 1..]) else []
  }

  /** The entry of a line; blank lines, comments, lines without an equals sign and
      empty keys have none. */
  function Parse(line: string): Option<(string, string)> {
    var l := Trim(line);
    var e := Find(l, '=');
    if l == "" || l[0] == '#' || e == |l| then None
    else
      var key := Trim(l[..e]);
      if key == "" then None else Some((key, l[e + 1..]))
  }

  function Put(entries: map<string, string>, line: string): map<string, string> {
    match Parse(line)
    case None => entries
    case Some((k, v)) => entries[k := v]
  }

  /** Later lines win. */
  function Entries(lines: seq<string>): map<string, string> {
    if lines == [] then map[] else Put(Entries(lines[..|lines| - 1]), lines[|lines| - 1])
  }

  function EntriesOf(text: string): map<string, string> { Entries(Lines(text)) }

  // ---- What a line can hold ----

  predicate GoodKey(k: string) {
    && k != "" && '=' !in k && '\n' !in k && k[0] != '#'
    && !IsSpace(k[0]) && !IsSpace(k[|k| - 1])
  }

  predicate OneLine(v: string) { '\n' !in v }

  lemma TrimRightKeeps(a: string, b: string)
    requires a != "" && !IsSpace(a[|a| - 1])
    ensures TrimRight(a + b) == a + TrimRight(b)
    decreases |b|
  {
    if b == "" {
      assert a + b == a;
    } else {
      assert (a + b)[..|a + b| - 1] == a + b[..|b| - 1];
      if IsSpace(b[|b| - 1]) {
        TrimRightKeeps(a, b[..|b| - 1]);
      }
    }
  }

  lemma {:induction false} FindFirst(a: string, c: char, b: string)
    requires c !in a
    ensures Find(a + [c] + b, c) == |a|
  {
    var s := a + [c] + b;
    assert s[|a|] == c && forall k :: 0 <= k < |a| ==> s[k] == a[k];
  }

  lemma TrimGoodKey(k: string)
    requires GoodKey(k)
    ensures Trim(k) == k
  {
  }

  lemma TrimPrinted(k: string, v: string)
    requires GoodKey(k)
    ensures Trim(k + "=" + v) == k + "=" + TrimRight(v)
  {
    assert !IsSpace('=');
    hide IsSpace;
    var line := k + "=" + v;
    assert line[0] == k[0];
    assert TrimLeft(line) == line;
    TrimRightKeeps(k + "=", v);
  }

  /** A printed entry is read back, its value without trailing white space. */
  lemma ParsePrinted(k: string, v: string)
    requires GoodKey(k)
    ensures Parse(k + "=" + v) == Some((k, TrimRight(v)))
  {
    hide IsSpace, Trim, TrimRight, Find;
    TrimPrinted(k, v);
    TrimGoodKey(k);
    var w := TrimRight(v);
    var l := k + "=" + w;
    assert l == k + ['='] + w;
    FindFirst(k, '=', w);
    assert l[..|k|] == k && l[|k| + 1..] == w && l[0] == k[0];
  }

  lemma PartOneLine(s: string, from: nat, to: nat)
    requires OneLine(s) && from <= to <= |s|
    ensures OneLine(s[from..to])
  {
    assert forall i :: 0 <= i < to - from ==> s[from..to][i] == s[from + i];
  }

  lemma TrimOneLine(s: string)
    requires OneLine(s)
    ensures OneLine(Trim(s))
    ensures var t := Trim(s); t != "" ==> !IsSpace(t[0]) && !IsSpace(t[|t| - 1])
  {
    hide IsSpace;
    var l := TrimLeft(s);
    assert forall i :: 0 <= i < |Trim(s)| ==> Trim(s)[i] == l[i];
  }

  lemma KeyIsGood(l: string, e: nat)
    requires OneLine(l) && e < |l| && e == Find(l, '=') && l[0] != '#' && !IsSpace(l[0])
    ensures var k := Trim(l[..e]); k == "" || GoodKey(k)
  {
    hide IsSpace, Find, Trim;
    var before := l[..e];
    TrimOneLine(before);
    TrimOfSolid(before);
    var k := Trim(before);
    assert forall i :: 0 <= i < |k| ==> k[i] == l[i];
  }

  lemma TrimOfSolid(s: string)
    requires s == "" || !IsSpace(s[0])
    ensures Trim(s) <= s
  {
  }

  /** What a line yields can be printed again. */
  lemma ParsedIsGood(line: string)
    requires OneLine(line) && Parse(line).Some?
    ensures var (k, v) := Parse(line).value; GoodKey(k) && OneLine(v) && TrimRight(v) == v
  {
    hide IsSpace, GoodKey, Trim;
    var l := Trim(line);
    TrimOneLine(line);
    var e := Find(l, '=');
    KeyIsGood(l, e);
    var v := l[e + 1..];
    PartOneLine(l, e + 1, |l|);
    assert v == l[e + 1..|l|];
    assert v != "" ==> v[|v| - 1] == l[|l| - 1];
  }

  /** The blanks a line may have around its parts. */
  predicate AllBlank(s: string) {
    forall i :: 0 <= i < |s| ==> s[i] in [' ', '\t', '\U{b}', '\U{c}', '\r']
  }

  /** Nothing to take off at either end. */
  predicate Bare(s: string) {
    s != "" && !IsSpace(s[0]) && !IsSpace(s[|s| - 1])
  }

  lemma {:induction false} TrimLeftBlank(blank: string, s: string)
    requires AllBlank(blank) && s != "" && !IsSpace(s[0])
    ensures TrimLeft(blank + s) == s
    decreases |blank|
  {
    if blank == "" {
      assert blank + s == s;
    } else {
      hide IsSpace;
      BlankIsSpace(blank[0]);
      assert blank + s == [blank[0]] + (blank[1..] + s) && (blank + s)[1..] == blank[1..] + s;
      TrimLeftBlank(blank[1..], s);
    }
  }

  lemma {:induction false} TrimRightBlank(s: string, blank: string)
    requires AllBlank(blank) && (s == "" || !IsSpace(s[|s| - 1]))
    ensures TrimRight(s + blank) == s
    decreases |blank|
  {
    hide IsSpace, TrimRight;
    if blank == "" {
      assert s + blank == s;
      TrimRightStops(s);
    } else {
      var n := |blank| - 1;
      assert (s + blank)[..|s| + n] == s + blank[..n];
      BlankIsSpace(blank[n]);
      TrimRightGoes(s + blank);
      TrimRightBlank(s, blank[..n]);
    }
  }

  lemma BlankIsSpace(c: char)
    requires c in [' ', '\t', '\U{b}', '\U{c}', '\r']
    ensures IsSpace(c)
  {
  }

  lemma TrimRightStops(s: string)
    requires s == "" || !IsSpace(s[|s| - 1])
    ensures TrimRight(s) == s
  {
  }

  lemma TrimRightGoes(s: string)
    requires s != "" && IsSpace(s[|s| - 1])
    ensures TrimRight(s) == TrimRight(s[..|s| - 1])
  {
  }

  lemma TrimBlanks(left: string, s: string, right: string)
    requires AllBlank(left) && AllBlank(right) && Bare(s)
    ensures Trim(left + s + right) == s
  {
    hide IsSpace, TrimLeft, TrimRight;
    assert left + s + right == left + (s + right);
    TrimLeftBlank(left, s + right);
    TrimRightBlank(s, right);
  }

  /** A line that is a comment holds no entry, whatever follows the sign. */
  lemma CommentHasNoEntry(left: string, comment: string)
    requires AllBlank(left)
    ensures Parse(left + "#" + comment) == None
  {
    hide TrimRight, TrimLeft, Find, IsSpace;
    assert left + "#" + comment == left + ("#" + comment);
    HashIsBare();
    TrimLeftBlank(left, "#" + comment);
    TrimRightKeeps("#", comment);
  }

  lemma HashIsBare()
    ensures Bare("#") && Bare("=")
  {
  }

  /** Blanks around the key, before and behind the sign, and at the end of the line are
      taken off; those that begin the value are kept. */
  lemma BlanksAroundKey(left: string, k: string, middle: string, v: string, right: string)
    requires AllBlank(left) && AllBlank(middle) && AllBlank(right) && GoodKey(k)
    requires v == "" || !IsSpace(v[|v| - 1])
    ensures Parse(left + k + middle + "=" + v + right) == Some((k, v))
  {
    hide TrimRight, TrimLeft, Find, IsSpace, Trim;
    var l := k + middle + "=" + v;
    assert left + k + middle + "=" + v + right == left + l + right;
    HashIsBare();
    assert l[0] == k[0] && l[|l| - 1] == if v == "" then '=' else v[|v| - 1];
    TrimBlanks(left, l, right);
    assert '=' !in middle;
    FindFirst(k + middle, '=', v);
    assert l == (k + middle) + ['='] + v;
    assert l[..|k + middle|] == k + middle && l[|k + middle| + 1..] == v;
    TrimBlanks("", k, middle);
    assert "" + k + middle == k + middle;
  }

  lemma TrimKeepsOut(s: string, c: char)
    requires c !in s
    ensures c !in Trim(s)
  {
    hide IsSpace;
    var l := TrimLeft(s);
    assert forall i :: 0 <= i < |Trim(s)| ==> Trim(s)[i] == l[i];
  }

  /** A line without the sign, or with nothing before it, holds no entry. */
  lemma SignlessHasNoEntry(line: string)
    requires '=' !in line
    ensures Parse(line) == None
  {
    hide IsSpace, Trim;
    TrimKeepsOut(line, '=');
  }

  lemma KeylessHasNoEntry(left: string, v: string)
    requires AllBlank(left) && v != "" && !IsSpace(v[|v| - 1])
    ensures Parse(left + "=" + v) == None
  {
    hide IsSpace, TrimRight, TrimLeft, Trim, Find;
    HashIsBare();
    assert left + "=" + v == left + ("=" + v) + "";
    TrimBlanks(left, "=" + v, "");
    FindFirst("", '=', v);
    assert "" + ['='] + v == "=" + v && ("=" + v)[..0] == "";
    NothingTrimmed();
  }

  lemma NothingTrimmed()
    ensures Trim("") == ""
  {
  }

  ghost predicate Good(entries: map<string, string>) {
    forall k :: k in entries ==> GoodKey(k) && OneLine(entries[k]) && TrimRight(entries[k]) == entries[k]
  }

  lemma FirstLine(text: string)
    ensures OneLine(text[..Find(text, '\n')])
  {
    hide Find;
  }

  lemma {:induction false} LinesAreSingle(text: string)
    ensures forall i :: 0 <= i < |Lines(text)| ==> OneLine(Lines(text)[i])
    decreases |text|
  {
    hide Find, OneLine;
    if text != "" {
      var n := Find(text, '\n');
      FirstLine(text);
      if n < |text| {
        LinesAreSingle(text[n + 1..]);
      }
    }
  }

  lemma {:induction false} EntriesAreGood(lines: seq<string>)
    requires forall i :: 0 <= i < |lines| ==> OneLine(lines[i])
    ensures Good(Entries(lines))
  {
    hide Parse, GoodKey, TrimRight;
    if lines != [] {
      var n := |lines| - 1;
      EntriesAreGood(lines[..n]);
      if Parse(lines[n]).Some? {
        ParsedIsGood(lines[n]);
      }
    }
  }

  // ---- The sorted rewrite ----

  /** The entries, one line each. */
  function TextOf(keys: seq<string>, entries: map<string, string>): string
    requires forall i :: 0 <= i < |keys| ==> keys[i] in entries
  {
    if keys == [] then "" else keys[0] + "=" + entries[keys[0]] + "\n" + TextOf(keys[1..], entries)
  }

  /** The file that holds exactly these entries, in key order. */
  ghost predicate IsFile(text: string, entries: map<string, string>) {
    exists keys: seq<string> :: IsKeys(keys, entries) && text == TextOf(keys, entries)
  }

  ghost predicate IsKeys(keys: seq<string>, entries: map<string, string>) {
    Sorted(keys) && forall k :: k in keys <==> k in entries
  }

  lemma TextOfPut(keys: seq<string>, i: nat, entries: map<string, string>)
    requires i < |keys| && forall j :: 0 <= j < |keys| ==> keys[j] in entries
    ensures TextOf(keys[i..], entries) == keys[i] + "=" + entries[keys[i]] + "\n" + TextOf(keys[i + 1..], entries)
  {
    assert keys[i..][1..] == keys[i + 1..];
  }

  method WriteFile(entries: map<string, string>) returns (text: string)
    ensures IsFile(text, entries)
  {
    hide TextOf, Less, Sorted;
    var keys := SortedKeys(entries.Keys);
    assert forall i :: 0 <= i < |keys| ==> keys[i] in keys;
    text := "";
    assert keys[0..] == keys;
    for i := 0 to |keys|
      invariant text + TextOf(keys[i..], entries) == TextOf(keys, entries)
    {
      TextOfPut(keys, i, entries);
      var line := keys[i] + "=" + entries[keys[i]] + "\n";
      assert text + (line + TextOf(keys[i + 1..], entries)) == (text + line) + TextOf(keys[i + 1..], entries);
      text := text + line;
    }
    NoText(entries);
    assert keys[|keys|..] == [];
  }

  lemma NoText(entries: map<string, string>)
    ensures TextOf([], entries) == ""
  {
  }

  // ---- Round trip ----

  lemma LinesCons(line: string, rest: string)
    requires OneLine(line)
    ensures Lines(line + "\n" + rest) == [line] + Lines(rest)
  {
    var text := line + "\n" + rest;
    FindFirst(line, '\n', rest);
    assert text[..|line|] == line && text[|line| + 1..] == rest;
  }

  function Printed(keys: seq<string>, entries: map<string, string>): seq<string>
    requires forall i :: 0 <= i < |keys| ==> keys[i] in entries
  {
    if keys == [] then [] else [keys[0] + "=" + entries[keys[0]]] + Printed(keys[1..], entries)
  }

  lemma {:induction false} PrintedAt(keys: seq<string>, entries: map<string, string>)
    requires forall i :: 0 <= i < |keys| ==> keys[i] in entries
    ensures |Printed(keys, entries)| == |keys|
    ensures forall i :: 0 <= i < |keys| ==> Printed(keys, entries)[i] == keys[i] + "=" + entries[keys[i]]
  {
    if keys != [] {
      PrintedAt(keys[1..], entries);
    }
  }

  /** Keys that can be read back and values on one line. */
  ghost predicate Printable(entries: map<string, string>) {
    forall k :: k in entries ==> GoodKey(k) && OneLine(entries[k])
  }

  lemma {:induction false} LinesOfText(keys: seq<string>, entries: map<string, string>)
    requires Printable(entries) && forall i :: 0 <= i < |keys| ==> keys[i] in entries
    ensures Lines(TextOf(keys, entries)) == Printed(keys, entries)
  {
    if keys != [] {
      var line, rest := keys[0] + "=" + entries[keys[0]], TextOf(keys[1..], entries);
      LinesOfText(keys[1..], entries);
      assert forall i :: 0 <= i < |line| ==> line[i] in keys[0] || line[i] == '=' || line[i] in entries[keys[0]];
      LinesCons(line, rest);
      assert TextOf(keys, entries) == line + "\n" + rest;
    }
  }

  /** The entries with trailing white space gone from the values. */
  function Stripped(entries: map<string, string>): map<string, string> {
    map k | k in entries :: TrimRight(entries[k])
  }

  /** Holds exactly these keys, each with its stripped value. */
  ghost predicate Reads(read: map<string, string>, keys: seq<string>, entries: map<string, string>) {
    && (forall k :: k in read <==> k in keys)
    && forall k :: k in read ==> k in entries && read[k] == TrimRight(entries[k])
  }

  lemma ReadsOneMore(keys: seq<string>, entries: map<string, string>, read: map<string, string>, k: string)
    requires Reads(read, keys, entries) && k in entries && GoodKey(k)
    ensures Reads(Put(read, k + "=" + entries[k]), keys + [k], entries)
  {
    hide TrimRight, Parse, GoodKey;
    ParsePrinted(k, entries[k]);
  }

  /** Reading the first n printed lines gives the first n entries. */
  lemma {:induction false} EntriesOfPrinted(keys: seq<string>, entries: map<string, string>, lines: seq<string>, n: nat)
    requires n <= |keys| == |lines| && Printable(entries) && (forall i :: 0 <= i < |keys| ==> keys[i] in entries)
    requires forall i :: 0 <= i < |keys| ==> lines[i] == keys[i] + "=" + entries[keys[i]]
    ensures Reads(Entries(lines[..n]), keys[..n], entries)
  {
    hide TrimRight, Put;
    if n > 0 {
      hide Reads;
      EntriesOfPrinted(keys, entries, lines, n - 1);
      assert lines[..n][..n - 1] == lines[..n - 1] && keys[..n] == keys[..n - 1] + [keys[n - 1]];
      ReadsOneMore(keys[..n - 1], entries, Entries(lines[..n - 1]), keys[n - 1]);
    }
  }

  lemma ReadsAll(read: map<string, string>, keys: seq<string>, entries: map<string, string>)
    requires Reads(read, keys, entries) && forall k :: k in keys <==> k in entries
    ensures read == Stripped(entries)
  {
    hide TrimRight;
    assert forall k :: k in read <==> k in Stripped(entries);
  }

  /** Reading the rewritten file gives the entries, values without trailing white space. */
  lemma RoundTrip(text: string, entries: map<string, string>)
    requires IsFile(text, entries) && Printable(entries)
    ensures EntriesOf(text) == Stripped(entries)
  {
    hide TrimRight, Put, Less, Reads, Find, Lines, Printable;
    var keys :| IsKeys(keys, entries) && text == TextOf(keys, entries);
    assert forall i :: 0 <= i < |keys| ==> keys[i] in keys;
    var lines := Printed(keys, entries);
    LinesOfText(keys, entries);
    PrintedAt(keys, entries);
    EntriesOfPrinted(keys, entries, lines, |keys|);
    assert lines[..|keys|] == lines && keys[..|keys|] == keys;
    ReadsAll(EntriesOf(text), keys, entries);
  }

  /** The last line counts also without a newline behind it. */
  lemma LastLine(line: string)
    requires OneLine(line)
    ensures Lines(line) == if line == "" then [] else [line]
  {
    if line != "" {
      assert Find(line, '\n') == |line|;
      assert line[..|line|] == line;
    }
  }

  /** A later line for a key replaces what the lines before it say, and nothing else. */
  lemma LaterLineWins(lines: seq<string>, k: string, v: string)
    requires GoodKey(k)
    ensures Entries(lines + [k + "=" + v]) == Entries(lines)[k := TrimRight(v)]
  {
    hide Parse, TrimRight, GoodKey;
    ParsePrinted(k, v);
    assert (lines + [k + "=" + v])[..|lines|] == lines;
  }

  lemma TwoKeys(keys: seq<string>, k: string, l: string)
    requires Sorted(keys) && (forall x :: x in keys <==> x == k || x == l) && Less(k, l)
    ensures keys == [k, l]
  {
    hide Less;
    LessTotal(k, l);
    LessTotal(k, k);
    LessTotal(l, l);
    assert Sorted([k, l]);
    SortedUnique(keys, [k, l]);
  }

  /** The keys of the file ascend. */
  lemma FileIsInOrder(text: string, k: string, v: string, l: string, w: string)
    requires Less(k, l) && IsFile(text, map[k := v, l := w])
    ensures text == k + "=" + v + "\n" + (l + "=" + w + "\n")
  {
    hide Less, Sorted;
    LessTotal(k, l);
    var entries := map[k := v, l := w];
    var keys :| IsKeys(keys, entries) && text == TextOf(keys, entries);
    TwoKeys(keys, k, l);
    assert [k, l][1..] == [l] && [l][1..] == [];
    assert TextOf([l], entries) == l + "=" + w + "\n" + TextOf([l][1..], entries);
    assert TextOf(keys, entries) == k + "=" + v + "\n" + TextOf([k, l][1..], entries);
    NoText(entries);
  }

  // ---- Load and Add ----

  /** Upper-case letters, digits and underscores, not starting with a digit. */
  predicate ValidKey(k: string) {
    k != "" && !('0' <= k[0] <= '9') &&
    forall i :: 0 <= i < |k| ==> 'A' <= k[i] <= 'Z' || '0' <= k[i] <= '9' || k[i] == '_'
  }

  predicate ValidValue(v: string) { '\n' !in v && '\r' !in v }

  datatype Outcome = Written(text: string) | InvalidKey | InvalidValue

  /** The text of a file that may be missing. */
  function TextIn(file: Option<string>): string {
    match file
    case None => ""
    case Some(text) => text
  }

  lemma EntriesNext(lines: seq<string>, i: nat)
    requires i < |lines|
    ensures Entries(lines[..i + 1]) == Put(Entries(lines[..i]), lines[i])
  {
    hide Put;
    assert lines[..i + 1][..i] == lines[..i];
  }

  lemma PutOverwrites(env: map<string, string>, entries: map<string, string>, key: string, value: string)
    ensures env + entries[key := value] == (env + entries)[key := value]
    ensures entries[key := value].Keys == entries.Keys + {key}
  {
  }

  method ReadEntries(text: string) returns (entries: map<string, string>)
    ensures entries == EntriesOf(text)
  {
    hide Parse, Lines, Entries;
    var lines := Lines(text);
    NoEntriesYet(lines);
    entries := map[];
    for i := 0 to |lines|
      invariant entries == Entries(lines[..i])
    {
      EntriesNext(lines, i);
      var entry := Parse(lines[i]);
      if entry.Some? {
        entries := entries[entry.value.0 := entry.value.1];
      }
    }
    assert lines[..|lines|] == lines;
  }

  lemma NoEntriesYet(lines: seq<string>)
    ensures Entries(lines[..0]) == map[]
  {
  }

  class Store {
    var env: map<string, string>
    var loaded: set<string>

    /** Every entry of the file is exported; a missing file changes nothing. */
    method Load(file: Option<string>)
      modifies this
      ensures file.None? ==> env == old(env) && loaded == old(loaded)
      ensures file.Some? ==> env == old(env) + EntriesOf(file.value) && loaded == EntriesOf(file.value).Keys
    {
      if file.None? {
        return;
      }
      hide Parse, Lines, Entries;
      var lines := Lines(file.value);
      NoEntriesYet(lines);
      loaded := {};
      for i := 0 to |lines|
        invariant env == old(env) + Entries(lines[..i]) && loaded == Entries(lines[..i]).Keys
      {
        EntriesNext(lines, i);
        var entry := Parse(lines[i]);
        if entry.Some? {
          var (key, value) := entry.value;
          PutOverwrites(old(env), Entries(lines[..i]), key, value);
          env := env[key := value];
          loaded := loaded + {key};
        }
      }
      assert lines[..|lines|] == lines;
    }

    /** The rewritten file holds the entries there were with the new one, and the
        new value is exported. */
    method Add(file: Option<string>, key: string, value: string) returns (outcome: Outcome)
      modifies this
      ensures outcome == InvalidKey <==> !ValidKey(key)
      ensures outcome != InvalidKey <==>
                && key != "" && !('0' <= key[0] <= '9')
                && forall i :: 0 <= i < |key| ==>
                     'A' <= key[i] <= 'Z' || '0' <= key[i] <= '9' || key[i] == '_'
      ensures outcome == InvalidValue <==> ValidKey(key) && ('\n' in value || '\r' in value)
      ensures outcome.Written? ==>
                && IsFile(outcome.text, EntriesOf(TextIn(file))[key := value])
                && env == old(env)[key := value] && loaded == old(loaded) + {key}
      ensures !outcome.Written? ==> env == old(env) && loaded == old(loaded)
    {
      hide EntriesOf, IsFile;
      if !ValidKey(key) {
        return InvalidKey;
      }
      if !ValidValue(value) {
        return InvalidValue;
      }
      var entries := ReadEntries(TextIn(file));
      var text := WriteFile(entries[key := value]);
      env := env[key := value];
      loaded := loaded + {key};
      outcome := Written(text);
    }
  }

  lemma ValidKeyIsGood(k: string)
    requires ValidKey(k)
    ensures GoodKey(k)
  {
  }

  lemma PrintablePut(entries: map<string, string>, k: string, v: string)
    requires Good(entries) && ValidKey(k) && ValidValue(v)
    ensures Printable(entries[k := v])
  {
    ValidKeyIsGood(k);
    hide GoodKey, TrimRight, ValidKey;
  }

  lemma StrippedGood(entries: map<string, string>)
    requires Good(entries)
    ensures Stripped(entries) == entries
  {
    hide GoodKey, TrimRight;
    assert Stripped(entries).Keys == entries.Keys;
  }

  lemma StrippedPut(entries: map<string, string>, k: string, v: string)
    ensures Stripped(entries[k := v]) == Stripped(entries)[k := TrimRight(v)]
  {
    hide TrimRight;
    assert Stripped(entries[k := v]).Keys == Stripped(entries)[k := TrimRight(v)].Keys;
  }

  /** Whatever the old file held, reading the new one gives its entries updated at
      the key with the value stripped of trailing white space. */
  lemma AddThenRead(before: string, k: string, v: string, text: string)
    requires ValidKey(k) && ValidValue(v) && IsFile(text, EntriesOf(before)[k := v])
    ensures EntriesOf(text) == EntriesOf(before)[k := TrimRight(v)]
  {
    LinesAreSingle(before);
    EntriesAreGood(Lines(before));
    hide *;
    PrintablePut(EntriesOf(before), k, v);
    StrippedGood(EntriesOf(before));
    StrippedPut(EntriesOf(before), k, v);
    RoundTrip(text, EntriesOf(before)[k := v]);
  }

  /** The entries fix the file, whatever order they are visited in. */
  lemma FileIsCanonical(text: string, other: string, entries: map<string, string>)
    requires IsFile(text, entries) && IsFile(other, entries)
    ensures text == other
  {
    hide Sorted;
    var p :| IsKeys(p, entries) && text == TextOf(p, entries);
    var q :| IsKeys(q, entries) && other == TextOf(q, entries);
    SortedUnique(p, q);
  }

  /** Adding two stripped values to different keys gives the same file either way. */
  lemma AddsCommute(before: string, k: string, v: string, l: string, w: string,
                    afterK: string, afterL: string, kl: string, lk: string)
    requires ValidKey(k) && ValidValue(v) && ValidKey(l) && ValidValue(w) && k != l
    requires TrimRight(v) == v && TrimRight(w) == w
    requires IsFile(afterK, EntriesOf(before)[k := v]) && IsFile(kl, EntriesOf(afterK)[l := w])
    requires IsFile(afterL, EntriesOf(before)[l := w]) && IsFile(lk, EntriesOf(afterL)[k := v])
    ensures kl == lk
  {
    hide *;
    AddThenRead(before, k, v, afterK);
    AddThenRead(before, l, w, afterL);
    assert EntriesOf(before)[k := v][l := w] == EntriesOf(before)[l := w][k := v];
    FileIsCanonical(kl, lk, EntriesOf(before)[k := v][l := w]);
  }

  /** Adding the same stripped value again leaves the file as it is. */
  lemma AddAgain(before: string, k: string, v: string, text: string, again: string)
    requires ValidKey(k) && ValidValue(v) && TrimRight(v) == v
    requires IsFile(text, EntriesOf(before)[k := v]) && IsFile(again, EntriesOf(text)[k := v])
    ensures again == text
  {
    hide *;
    AddThenRead(before, k, v, text);
    assert EntriesOf(before)[k := v][k := v] == EntriesOf(before)[k := v];
    FileIsCanonical(again, text, EntriesOf(before)[k := v]);
  }

  /** The exported value agrees with what a later load exports exactly when it has
      no trailing white space. */
  lemma ExportedAgreesIff(before: string, k: string, v: string, text: string)
    requires ValidKey(k) && ValidValue(v) && IsFile(text, EntriesOf(before)[k := v])
    ensures k in EntriesOf(text) && (EntriesOf(text)[k] == v <==> v == "" || !IsSpace(v[|v| - 1]))
  {
    hide EntriesOf, IsFile, IsSpace;
    AddThenRead(before, k, v, text);
  }

  /** Adding "v " for K exports "v ", and a later load exports "v". */
  lemma TrailingSpaceIsLost(text: string)
    requires IsFile(text, EntriesOf("")["K" := "v "])
    ensures "K" in EntriesOf(text) && EntriesOf(text)["K"] == "v"
  {
    hide EntriesOf, IsFile;
    AddThenRead("", "K", "v ", text);
    assert "v "[..1] == "v";
  }
}
