/** The tool registry of internal/core/tools/registry.go: names made safe for a
    provider, the aliases that lead back, and filtered copies. */
module ToolRegistry {
  import opened Sorting
  import opened Wrappers

  datatype Tool = Tool(name: string, description: string)

  /** The name with every dot made an underscore. */
  function Safe(name: string): (s: string)
    ensures |s| == |name| && forall i :: 0 <= i < |s| ==> s[i] == if name[i] == '.' then '_' else name[i]
  {
    if name == "" then "" else Safe(name[..|name| - 1]) + [if name[|name| - 1] == '.' then '_' else name[|name| - 1]]
  }

  predicate NeedsSafeNames(provider: string) {
    provider in ["anthropic", "openai", "codex", "google", "moonshot"]
  }

  function Advertised(name: string, provider: string): string {
    if NeedsSafeNames(provider) then Safe(name) else name
  }

  /** Two stages: the name as registered, then its alias. */
  function Resolve(items: map<string, Tool>, alias: map<string, string>, name: string): Option<Tool> {
    if name in items then Some(items[name])
    else if name in alias && alias[name] in items then Some(items[alias[name]])
    else None
  }

  ghost predicate NoCollisions(names: set<string>) {
    forall a, b :: a in names && b in names && Safe(a) == Safe(b) ==> a == b
  }

  /** Aliases lead from safe names to the names they were made from. */
  ghost predicate AliasesSound(known: set<string>, alias: map<string, string>) {
    forall s :: s in alias ==> alias[s] in known && Safe(alias[s]) == s && s != alias[s]
  }

  lemma SafeTwice(name: string)
    ensures Safe(Safe(name)) == Safe(name)
  {
    assert forall i :: 0 <= i < |name| ==> Safe(Safe(name))[i] == Safe(name)[i];
  }

  /** Without collisions no alias is itself the name of a tool. */
  lemma AliasIsNoName(known: set<string>, alias: map<string, string>, s: string)
    requires NoCollisions(known) && AliasesSound(known, alias) && s in alias
    ensures s !in known
  {
    SafeTwice(alias[s]);
  }

  /** Without collisions an advertised name leads to its own tool, or nowhere if a
      filter dropped it. */
  lemma AdvertisedResolves(known: set<string>, items: map<string, Tool>, alias: map<string, string>,
                           shown: string, name: string)
    requires NoCollisions(known) && items.Keys <= known && AliasesSound(known, alias) && name in known
    requires shown == name || (shown == Safe(name) && shown in alias)
    ensures Resolve(items, alias, shown) == if name in items then Some(items[name]) else None
  {
    SafeTwice(name);
    if shown in alias {
      AliasIsNoName(known, alias, shown);
      assert shown != name ==> Safe(alias[shown]) == Safe(name);
    }
  }

  /** Every tool whose name is not safe has an alias under its safe name, which leads
      to some tool at hand. */
  ghost predicate LedBack(items: map<string, Tool>, alias: map<string, string>) {
    forall n :: n in items && Safe(n) != n ==> Safe(n) in alias && alias[Safe(n)] in items
  }

  ghost predicate AllResolve(items: map<string, Tool>, alias: map<string, string>) {
    forall n :: n in items ==> Resolve(items, alias, Safe(n)) == Some(items[n])
  }

  /** Then all tools resolve by their safe names exactly when no two of their names
      collide, whatever other aliases were inherited. */
  lemma AllResolveIff(known: set<string>, items: map<string, Tool>, alias: map<string, string>)
    requires AliasesSound(known, alias) && LedBack(items, alias) && forall n :: n in items ==> items[n].name == n
    ensures AllResolve(items, alias) <==> NoCollisions(items.Keys)
  {
    if NoCollisions(items.Keys) {
      forall n | n in items ensures Resolve(items, alias, Safe(n)) == Some(items[n]) {
        SafeTwice(n);
        assert n in items.Keys && (Safe(n) in items ==> Safe(n) in items.Keys);
        assert Safe(n) != n ==> alias[Safe(n)] in items.Keys && Safe(alias[Safe(n)]) == Safe(n);
      }
    }
    if AllResolve(items, alias) {
      forall a, b | a in items && b in items && Safe(a) == Safe(b) ensures a == b {
        assert Some(items[a]) == Some(items[b]);
        assert items[a].name == a && items[b].name == b;
      }
    }
  }

  lemma DotBecomesUnderscore()
    ensures Safe("a.b") == "a_b"
  {
    assert Safe("a.b") == ['a', '_', 'b'];
  }

  /** Two tools whose names collide: under its safe name the first leads to the second. */
  lemma CollidingNames(items: map<string, Tool>, alias: map<string, string>)
    requires items == map["a.b" := Tool("a.b", "one"), "a_b" := Tool("a_b", "other")]
    ensures !NoCollisions(items.Keys)
    ensures Resolve(items, alias, Safe("a.b")) == Some(Tool("a_b", "other"))
  {
    DotBecomesUnderscore();
    SafeTwice("a.b");
    assert "a.b" in items.Keys && "a_b" in items.Keys && "a.b"[1] != "a_b"[1];
  }

  // ---- Patterns ----

  /** A trailing star matches any suffix; otherwise the name itself is meant. */
  predicate Matches(name: string, pattern: string) {
    if pattern != "" && pattern[|pattern| - 1] == '*' then pattern[..|pattern| - 1] <= name else name == pattern
  }

  /** The pattern is the name, or a star behind characters with which the name begins. */
  predicate PatternAllows(name: string, pattern: string) {
    var n := |pattern|;
    if n > 0 && pattern[n - 1] == '*' then
      n - 1 <= |name| && forall k :: 0 <= k < n - 1 ==> name[k] == pattern[k]
    else n == |name| && forall k :: 0 <= k < n ==> name[k] == pattern[k]
  }

  lemma MatchesIff(name: string, pattern: string)
    ensures Matches(name, pattern) <==> PatternAllows(name, pattern)
  {
    if pattern != "" && pattern[|pattern| - 1] == '*' {
      assert pattern[..|pattern| - 1] <= name <==> PatternAllows(name, pattern);
    }
  }

  method MatchesAny(name: string, patterns: seq<string>) returns (matched: bool)
    ensures matched <==> exists i :: 0 <= i < |patterns| && Matches(name, patterns[i])
    ensures matched <==> exists i :: 0 <= i < |patterns| && PatternAllows(name, patterns[i])
  {
    forall i | 0 <= i < |patterns| ensures Matches(name, patterns[i]) <==> PatternAllows(name, patterns[i]) {
      MatchesIff(name, patterns[i]);
    }
    for i := 0 to |patterns|
      invariant forall k :: 0 <= k < i ==> !Matches(name, patterns[k])
    {
      if Matches(name, patterns[i]) {
        return true;
      }
    }
    matched := false;
  }

  ghost predicate Allowed(name: string, allow: seq<string>) {
    exists i :: 0 <= i < |allow| && Matches(name, allow[i])
  }

  // ---- The registry ----

  /** Each name shown to a provider, with the tool name it stands for, is that name
      or an alias made from it. */
  ghost predicate ShownSound(known: set<string>, alias: map<string, string>, shown: set<(string, string)>) {
    forall p :: p in shown ==> p.1 in known && (p.0 == p.1 || (p.0 == Safe(p.1) && p.0 in alias))
  }

  lemma ShownOneMore(known: set<string>, alias: map<string, string>, shown: set<(string, string)>, name: string,
                     provider: string)
    requires AliasesSound(known, alias) && ShownSound(known, alias, shown) && name in known
    ensures var s := Advertised(name, provider);
            var after := if s != name then alias[s := name] else alias;
            AliasesSound(known, after) && ShownSound(known, after, shown + {(s, name)})
  {
    hide Safe;
  }

  lemma AliasesMerge(known: set<string>, alias: map<string, string>, shown: set<(string, string)>,
                     few: set<string>, more: map<string, string>, moreShown: set<(string, string)>)
    requires AliasesSound(known, alias) && ShownSound(known, alias, shown)
    requires few <= known && AliasesSound(few, more) && ShownSound(few, more, moreShown)
    ensures AliasesSound(known, alias + more) && ShownSound(known, alias + more, shown + moreShown)
  {
    hide Safe;
  }

  lemma MergedLeadBack(items: map<string, Tool>, alias: map<string, string>, more: map<string, string>,
                       list: seq<string>)
    requires AliasesSound(items.Keys, more) && forall n :: n in items ==> n in list
    requires forall k :: 0 <= k < |list| ==> Safe(list[k]) == list[k] || Safe(list[k]) in more
    ensures LedBack(items, alias + more)
  {
    hide Safe;
  }

  lemma NothingShown(known: set<string>)
    ensures AliasesSound(known, map[]) && ShownSound(known, map[], {})
  {
  }

  function Descriptor(t: Tool, provider: string): Tool { Tool(Advertised(t.name, provider), t.description) }

  lemma DescriptorOf(t: Tool, provider: string)
    ensures Descriptor(t, provider) == Tool(if NeedsSafeNames(provider) then Safe(t.name) else t.name, t.description)
    ensures Advertised(t.name, provider) == Descriptor(t, provider).name
  {
  }

  /** No dot reaches the five hosted providers; all else of a tool is shown as it is. */
  lemma DescriptorIs(t: Tool, provider: string)
    ensures var d := Descriptor(t, provider);
            && d.description == t.description && |d.name| == |t.name|
            && forall k :: 0 <= k < |t.name| ==>
                 d.name[k] == if t.name[k] == '.' && provider in ["anthropic", "openai", "codex", "google", "moonshot"]
                              then '_' else t.name[k]
  {
  }

  lemma DescriptorsAre(items: map<string, Tool>, provider: string, names: seq<string>, out: seq<Tool>)
    requires |out| == |names| && forall n :: n in items ==> items[n].name == n
    requires forall i :: 0 <= i < |names| ==> names[i] in items && out[i] == Descriptor(items[names[i]], provider)
    ensures forall i :: 0 <= i < |names| ==>
              && out[i].description == items[names[i]].description && |out[i].name| == |names[i]|
              && forall k :: 0 <= k < |names[i]| ==>
                   out[i].name[k] ==
                   if names[i][k] == '.' && provider in ["anthropic", "openai", "codex", "google", "moonshot"]
                   then '_' else names[i][k]
  {
    hide Descriptor;
    forall i | 0 <= i < |names|
      ensures out[i].description == items[names[i]].description && |out[i].name| == |names[i]|
      ensures forall k :: 0 <= k < |names[i]| ==>
                out[i].name[k] ==
                if names[i][k] == '.' && provider in ["anthropic", "openai", "codex", "google", "moonshot"]
                then '_' else names[i][k]
    {
      DescriptorIs(items[names[i]], provider);
    }
  }

  class Registry {
    var items: map<string, Tool>
    var llmAlias: map<string, string>
    /** Every name this registry or the ones it was filtered from ever held. */
    ghost var known: set<string>
    /** Each name ever shown to a provider, with the tool name it stands for. */
    ghost var advertised: set<(string, string)>

    ghost predicate Valid()
      reads this
    {
      && items.Keys <= known && (forall n :: n in items ==> items[n].name == n)
      && AliasesSound(known, llmAlias) && ShownSound(known, llmAlias, advertised)
    }

    constructor ()
      ensures Valid() && items == map[] && llmAlias == map[] && known == {} && advertised == {}
    {
      items, llmAlias, known, advertised := map[], map[], {}, {};
    }

    /** False stands for the panic on a duplicate name. */
    method Register(t: Tool) returns (ok: bool)
      requires Valid()
      modifies this
      ensures Valid() && llmAlias == old(llmAlias) && advertised == old(advertised)
      ensures ok <==> t.name !in old(items)
      ensures items == (if ok then old(items)[t.name := t] else old(items))
      ensures known == (if ok then old(known) + {t.name} else old(known))
    {
      if t.name in items {
        return false;
      }
      items := items[t.name := t];
      known := known + {t.name};
      return true;
    }

    /** Resolves a name the model sent back. */
    method Get(name: string) returns (t: Option<Tool>)
      requires Valid()
      ensures t == Resolve(items, llmAlias, name)
      ensures name in items ==> t == Some(items[name])
      ensures name !in items ==>
                if name in llmAlias && llmAlias[name] in items then t == Some(items[llmAlias[name]]) else t == None
      ensures t.Some? ==> t.value.name in items && items[t.value.name] == t.value
      ensures NoCollisions(known) ==>
                forall p :: p in advertised && p.0 == name ==> t == if p.1 in items then Some(items[p.1]) else None
    {
      if name in items {
        t := Some(items[name]);
      } else if name in llmAlias && llmAlias[name] in items {
        t := Some(items[llmAlias[name]]);
      } else {
        t := None;
      }
      hide Safe, AliasesSound;
      forall p | NoCollisions(known) && p in advertised && p.0 == name
        ensures t == if p.1 in items then Some(items[p.1]) else None
      {
        AdvertisedResolves(known, items, llmAlias, p.0, p.1);
      }
    }

    /** A copy with the allowed tools and all aliases. */
    method Filter(allow: seq<string>) returns (sub: Registry)
      requires Valid()
      ensures sub.Valid() && fresh(sub)
      ensures forall n :: n in sub.items <==> n in items && Allowed(n, allow)
      ensures forall n :: n in sub.items ==> exists i :: 0 <= i < |allow| && PatternAllows(n, allow[i])
      ensures forall n, i :: n in items && 0 <= i < |allow| && PatternAllows(n, allow[i]) ==> n in sub.items
      ensures forall n :: n in sub.items ==> sub.items[n] == items[n]
      ensures sub.llmAlias == llmAlias && sub.known == known && sub.advertised == advertised
    {
      sub := new Registry();
      var names := SortedKeys(items.Keys);
      var kept: map<string, Tool> := map[];
      for i := 0 to |names|
        invariant forall n :: n in kept <==> n in names[..i] && Allowed(n, allow)
        invariant forall n :: n in kept ==> n in items && kept[n] == items[n]
      {
        assert names[i] in names;
        var matched := MatchesAny(names[i], allow);
        if matched {
          kept := kept[names[i] := items[names[i]]];
        }
      }
      assert names[..|names|] == names;
      sub.items, sub.llmAlias, sub.known, sub.advertised := kept, llmAlias, known, advertised;
    }

    /** One descriptor per tool, in name order; safe names leave an alias behind. */
    method ToolsFor(provider: string) returns (out: seq<Tool>, ghost names: seq<string>)
      requires Valid()
      modifies `llmAlias, `advertised
      ensures Valid() && Sorted(names) && forall n :: n in names <==> n in items
      ensures |out| == |names| && forall i :: 0 <= i < |names| ==>
                && names[i] in items && out[i] == Descriptor(items[names[i]], provider)
                && (out[i].name, names[i]) in advertised
      ensures forall i :: 0 <= i < |names| ==>
                && out[i].description == items[names[i]].description && |out[i].name| == |names[i]|
                && forall k :: 0 <= k < |names[i]| ==>
                     out[i].name[k] ==
                     if names[i][k] == '.' && provider in ["anthropic", "openai", "codex", "google", "moonshot"]
                     then '_' else names[i][k]
      ensures old(advertised) <= advertised
      ensures NeedsSafeNames(provider) ==>
                LedBack(items, llmAlias) && (AllResolve(items, llmAlias) <==> NoCollisions(items.Keys))
    {
      hide Safe, AliasesSound, ShownSound, Less, LedBack, AllResolve, NoCollisions, Descriptor, NeedsSafeNames;
      var list := SortedKeys(items.Keys);
      names := list;
      out := [];
      var sanitize := NeedsSafeNames(provider);
      var aliases: map<string, string> := map[];
      ghost var shown: set<(string, string)> := {};
      NothingShown(items.Keys);
      assert forall i :: 0 <= i < |list| ==> list[i] in list;
      for i := 0 to |list|
        invariant unchanged(this) && |out| == i
        invariant AliasesSound(items.Keys, aliases) && ShownSound(items.Keys, aliases, shown)
        invariant forall k :: 0 <= k < i ==>
                    out[k] == Descriptor(items[list[k]], provider) && (out[k].name, list[k]) in shown
        invariant sanitize ==> forall k :: 0 <= k < i ==> Safe(list[k]) == list[k] || Safe(list[k]) in aliases
      {
        var t := items[list[i]];
        ShownOneMore(items.Keys, aliases, shown, t.name, provider);
        var name := t.name;
        if sanitize {
          var safe := Safe(name);
          if safe != name {
            aliases := aliases[safe := name];
          }
          name := safe;
        }
        DescriptorOf(t, provider);
        out := out + [Tool(name, t.description)];
        shown := shown + {(name, t.name)};
      }
      AliasesMerge(known, llmAlias, advertised, items.Keys, aliases, shown);
      llmAlias := llmAlias + aliases;
      advertised := advertised + shown;
      DescriptorsAre(items, provider, list, out);
      if sanitize {
        MergedLeadBack(items, old(llmAlias), aliases, list);
        AllResolveIff(known, items, llmAlias);
      }
    }
  }
}
