/** The command-scope store of `cogs/guildSync/core/config/lib.py`: the alias
    table of managed guilds, the per-command visibility rules, and the set of
    guilds that declined the sync prompt. The JSON files behind them are
    abstracted to write counters. */
module ScopeStore {
  import opened Wrappers
  import opened Text
  import opened Sorting
  import opened Dicts

  /** The JSON value stored for one command key in commands.json. Numbers and
      booleans behave in every operation exactly as the `Scalar` of their
      `str()`, so they are not a variant of their own. */
  datatype ScopeValue =
    | Null                                      // JSON null, which `dict.get` reads as absent
    | Object(fields: map<string, seq<string>>)  // {"exclude": [...]}, {"include": [...]}, {"guilds": [...]}
    | Array(items: seq<string>)                 // a plain list; "*" in it means everywhere, [] nowhere
    | Scalar(text: string)                      // a bare value such as "*"

  /** `command_scopes`: normalized command key to scope value. */
  type Rules = map<string, ScopeValue>

  /** What each enable/disable operation reports and leaves behind. */
  datatype Change = Change(changed: bool, rules: Rules)

  datatype RegisterError = EmptyName | AliasConflict(existing: int)

  // ---------------------------------------------------------------------
  // Keys

  /** `_normalize_command_key`: spaces become dots, letters lower case. */
  function NormalizeKey(key: string): (r: string)
  {
    Lower(SpacesToDots(key))
  }

  /** A normalized key has the length of the input, no spaces and no
      upper-case letters, and normalizing it again changes nothing. */
  lemma NormalizeKeyProperties(key: string)
    ensures |NormalizeKey(key)| == |key|
    ensures forall i :: 0 <= i < |key| ==> NormalizeKey(key)[i] != ' ' && !('A' <= NormalizeKey(key)[i] <= 'Z')
    ensures NormalizeKey(NormalizeKey(key)) == NormalizeKey(key)
  {
    var n := NormalizeKey(key);
    assert forall i :: 0 <= i < |n| ==> NormalizeKey(n)[i] == n[i];
  }

  // ---------------------------------------------------------------------
  // Reading a rule

  /** `command_scopes.get(key)`; a stored JSON null reads as `None`. */
  function Lookup(rules: Rules, key: string): (r: Option<ScopeValue>)
    ensures r.Some? ==> r.value != Null && key in rules && rules[key] == r.value
    ensures r.None? ==> key !in rules || rules[key] == Null
  {
    if key in rules && rules[key] != Null then Some(rules[key]) else None
  }

  /** `get_command_scope` */
  function GetCommandScope(rules: Rules, key: string): Option<ScopeValue>
  {
    Lookup(rules, NormalizeKey(key))
  }

  function Elements(xs: seq<string>): set<string>
  {
    set x | x in xs
  }

  /** `_coerce_guild_list` */
  function CoerceGuildList(raw: ScopeValue): (r: set<string>)
  {
    match raw
    case Null => {}
    case Object(f) =>
      if "guilds" in f then Elements(f["guilds"])
      else if "include" in f then Elements(f["include"])
      else {}
    case Array(xs) => Elements(xs)
    case Scalar(s) => {s}
  }

  /** `is_command_enabled_for_guild` */
  function IsEnabled(rules: Rules, key: string, g: int): bool
  {
    var gs := IdStr(g);
    match Lookup(rules, NormalizeKey(key))
    case None => true
    case Some(v) =>
      if v.Object? && "exclude" in v.fields then gs !in v.fields["exclude"]
      else if v.Object? && "include" in v.fields then gs in v.fields["include"]
      else if v.Object? && "guilds" in v.fields then gs in v.fields["guilds"]
      else
        var guilds := CoerceGuildList(v);
        if guilds == {} then false
        else if "*" in guilds then true
        else gs in guilds
  }

  /** What each shape of rule means for one guild. */
  lemma IsEnabledByShape(rules: Rules, key: string, g: int)
    ensures var k := NormalizeKey(key);
      && (k !in rules ==> IsEnabled(rules, key, g))
      && (forall xs :: Lookup(rules, k) == Some(Object(map["exclude" := xs])) ==>
            (IsEnabled(rules, key, g) <==> IdStr(g) !in xs))
      && (forall xs :: Lookup(rules, k) == Some(Object(map["include" := xs])) ==>
            (IsEnabled(rules, key, g) <==> IdStr(g) in xs))
      && (forall xs :: Lookup(rules, k) == Some(Object(map["guilds" := xs])) ==>
            (IsEnabled(rules, key, g) <==> IdStr(g) in xs))
      && (Lookup(rules, k) == Some(Array([])) ==> !IsEnabled(rules, key, g))
      && (forall xs :: Lookup(rules, k) == Some(Array(xs)) && "*" in xs ==> IsEnabled(rules, key, g))
      && (forall xs :: Lookup(rules, k) == Some(Array(xs)) && "*" !in xs ==>
            (IsEnabled(rules, key, g) <==> IdStr(g) in xs))
  {
    var k := NormalizeKey(key);
    forall xs | Lookup(rules, k) == Some(Array(xs))
      ensures "*" in xs ==> IsEnabled(rules, key, g)
      ensures "*" !in xs ==> (IsEnabled(rules, key, g) <==> IdStr(g) in xs)
    {
      assert |xs| > 0 ==> xs[0] in Elements(xs);
      assert "*" in xs ==> "*" in Elements(xs);
    }
  }

  // ---------------------------------------------------------------------
  // The four transitions

  /** Only the rule for `k` may differ between `a` and `b`. */
  ghost predicate OnlyKeyChanged(a: Rules, b: Rules, k: string) {
    forall k' :: k' != k ==> (k' in a <==> k' in b) && (k' in a ==> a[k'] == b[k'])
  }

  /** `current.get("include") or current.get("guilds") or []`: an empty list
      counts as missing. */
  function IncludeOrGuilds(f: map<string, seq<string>>): seq<string>
  {
    if "include" in f && f["include"] != [] then f["include"]
    else if "guilds" in f && f["guilds"] != [] then f["guilds"]
    else []
  }

  /** The list without any occurrence of `x` (`set.discard`). */
  function Without(xs: seq<string>, x: string): (r: seq<string>)
    ensures forall y :: y in r <==> y in xs && y != x
    ensures (forall y :: y in xs ==> y == x) ==> r == []
  {
    if xs == [] then []
    else
      assert xs[0] in xs;
      if xs[0] == x then Without(xs[1..], x)
      else [xs[0]] + Without(xs[1..], x)
  }

  /** `disable_command_for_guild` */
  function DisableForGuild(rules: Rules, key: string, g: int): (r: Change)
    ensures OnlyKeyChanged(rules, r.rules, NormalizeKey(key))
    ensures !r.changed ==> r.rules == rules
    ensures r.changed ==> NormalizeKey(key) in r.rules && r.rules[NormalizeKey(key)] != Null
  {
    var k := NormalizeKey(key);
    var gs := IdStr(g);
    match Lookup(rules, k)
    case None => Change(true, rules[k := Object(map["exclude" := [gs]])])
    case Some(v) =>
      if v == Scalar("*") then
        Change(true, rules[k := Object(map["exclude" := [gs]])])
      else if v.Object? && "exclude" in v.fields then
        var xs := v.fields["exclude"];
        if gs in xs then Change(false, rules)
        else Change(true, rules[k := Object(map["exclude" := SortedUnique(xs + [gs])])])
      else if v.Object? then
        var included := IncludeOrGuilds(v.fields);
        if gs !in included then Change(false, rules)
        else Change(true, rules[k := Array(SortedUnique(Without(included, gs)))])
      else if v.Array? then
        if gs !in v.items then Change(false, rules)
        else Change(true, rules[k := Array(SortedUnique(Without(v.items, gs)))])
      else
        Change(false, rules)
  }

  /** `enable_command_for_guild`. The source's branch for `current == []`
      cannot be reached (an empty list is a list) and gives the same result
      as the list branch, so it has no counterpart here. */
  function EnableForGuild(rules: Rules, key: string, g: int): (r: Change)
    ensures OnlyKeyChanged(rules, r.rules, NormalizeKey(key))
    ensures !r.changed ==> r.rules == rules
  {
    var k := NormalizeKey(key);
    var gs := IdStr(g);
    match Lookup(rules, k)
    case None => Change(false, rules)
    case Some(v) =>
      if v.Object? && "exclude" in v.fields then
        var xs := v.fields["exclude"];
        if gs !in xs then Change(false, rules)
        else
          var rest := Without(xs, gs);
          if rest != [] then Change(true, rules[k := Object(map["exclude" := SortedUnique(rest)])])
          else Change(true, rules - {k})
      else if v.Object? then
        var included := IncludeOrGuilds(v.fields);
        if gs in included then Change(false, rules)
        else Change(true, rules[k := Array(SortedUnique(included + [gs]))])
      else if v.Array? then
        if gs in v.items then Change(false, rules)
        else Change(true, rules[k := Array(SortedUnique(v.items + [gs]))])
      else
        Change(false, rules)
  }

  /** `disable_command_globally` */
  function DisableGlobally(rules: Rules, key: string): (r: Change)
    ensures OnlyKeyChanged(rules, r.rules, NormalizeKey(key))
    ensures r.changed <==> Lookup(rules, NormalizeKey(key)) != Some(Array([]))
    ensures NormalizeKey(key) in r.rules && r.rules[NormalizeKey(key)] == Array([])
  {
    var k := NormalizeKey(key);
    if Lookup(rules, k) == Some(Array([])) then Change(false, rules)
    else Change(true, rules[k := Array([])])
  }

  /** `enable_command_globally`: the key is checked with `in`, so a stored
      JSON null is present and gets deleted. */
  function EnableGlobally(rules: Rules, key: string): (r: Change)
    ensures OnlyKeyChanged(rules, r.rules, NormalizeKey(key))
    ensures r.changed <==> NormalizeKey(key) in rules
    ensures r.rules == rules - {NormalizeKey(key)}
  {
    var k := NormalizeKey(key);
    if k !in rules then Change(false, rules) else Change(true, rules - {k})
  }

  // ---------------------------------------------------------------------
  // Properties of the transitions

  /** The cases of `disable_command_for_guild` for an unset, wildcard or
      exclude rule. */
  lemma DisableForGuildCases(rules: Rules, key: string, g: int)
    ensures var k, gs, r := NormalizeKey(key), IdStr(g), DisableForGuild(rules, key, g);
      && (Lookup(rules, k).None? || Lookup(rules, k) == Some(Scalar("*")) ==>
            r == Change(true, rules[k := Object(map["exclude" := [gs]])]))
      && (forall xs :: Lookup(rules, k) == Some(Object(map["exclude" := xs])) && gs in xs ==>
            r == Change(false, rules))
      && (forall xs :: Lookup(rules, k) == Some(Object(map["exclude" := xs])) && gs !in xs ==>
            r.changed && r.rules[k].Object? && r.rules[k].fields.Keys == {"exclude"}
            && StrictlySorted(r.rules[k].fields["exclude"])
            && forall y :: y in r.rules[k].fields["exclude"] <==> y in xs || y == gs)
  {
  }

  /** After `disable_command_for_guild` the command is still enabled for the
      guild exactly when the rule left behind is a plain list containing
      "*" or the bare string of that very guild id: the two shapes the source
      cannot narrow. */
  lemma DisableForGuildOutcome(rules: Rules, key: string, g: int)
    ensures var k, gs, r := NormalizeKey(key), IdStr(g), DisableForGuild(rules, key, g);
      IsEnabled(r.rules, key, g) <==>
        (Lookup(r.rules, k).Some? && Lookup(r.rules, k).value.Array? && "*" in Lookup(r.rules, k).value.items)
        || Lookup(r.rules, k) == Some(Scalar(gs))
  {
    var k, gs, r := NormalizeKey(key), IdStr(g), DisableForGuild(rules, key, g);
    IdStrNotWildcard(g);
    match Lookup(r.rules, k)
    case None =>
    case Some(v) =>
      if v.Array? && "*" in v.items {
        assert "*" in Elements(v.items);
      }
      if v.Array? && "*" !in v.items && v.items != [] {
        assert v.items[0] in Elements(v.items);
      }
      if v.Object? && !("exclude" in v.fields) && !("include" in v.fields) && !("guilds" in v.fields) {
        assert CoerceGuildList(v) == {};
      }
  }

  /** Whenever `enable_command_for_guild` reports a change, the command is
      enabled for that guild afterwards. */
  lemma EnableForGuildEnables(rules: Rules, key: string, g: int)
    requires EnableForGuild(rules, key, g).changed
    ensures IsEnabled(EnableForGuild(rules, key, g).rules, key, g)
  {
    var k, gs, r := NormalizeKey(key), IdStr(g), EnableForGuild(rules, key, g);
    IdStrNotWildcard(g);
    match Lookup(r.rules, k)
    case None =>
    case Some(v) =>
      assert v.Array? ==> gs in v.items && gs in Elements(v.items);
  }

  /** `enable_command_for_guild` without a rule reports no change; removing
      the last excluded guild deletes the key, returning it to unset. */
  lemma EnableForGuildCases(rules: Rules, key: string, g: int)
    ensures var k, gs, r := NormalizeKey(key), IdStr(g), EnableForGuild(rules, key, g);
      && (Lookup(rules, k).None? ==> r == Change(false, rules))
      && (forall xs :: Lookup(rules, k) == Some(Object(map["exclude" := xs])) && gs !in xs ==>
            r == Change(false, rules))
      && (forall xs :: Lookup(rules, k) == Some(Object(map["exclude" := xs])) && Elements(xs) == {gs} ==>
            r == Change(true, rules - {k}) && k !in r.rules)
  {
    var k, gs := NormalizeKey(key), IdStr(g);
    forall xs | Lookup(rules, k) == Some(Object(map["exclude" := xs])) && Elements(xs) == {gs}
      ensures Without(xs, gs) == []
    {
      assert forall y :: y in xs ==> y in Elements(xs);
    }
  }

  /** Disabling and then re-enabling one guild restores the exact rule table
      when the command had no rule. */
  lemma DisableEnableRoundTripUnset(rules: Rules, key: string, g: int)
    requires NormalizeKey(key) !in rules
    ensures var d := DisableForGuild(rules, key, g);
      d.changed && EnableForGuild(d.rules, key, g) == Change(true, rules)
  {
    var k, gs := NormalizeKey(key), IdStr(g);
    var d := DisableForGuild(rules, key, g);
    assert d.rules == rules[k := Object(map["exclude" := [gs]])];
    assert Without([gs], gs) == [];
    assert d.rules - {k} == rules;
  }

  /** Disabling a guild an exclude rule does not name adds it to the list. */
  lemma DisableExcludeUnlisted(rules: Rules, key: string, g: int, xs: seq<string>)
    requires Lookup(rules, NormalizeKey(key)) == Some(Object(map["exclude" := xs])) && IdStr(g) !in xs
    ensures DisableForGuild(rules, key, g) ==
      Change(true, rules[NormalizeKey(key) := Object(map["exclude" := SortedUnique(xs + [IdStr(g)])])])
  {
    var v := Object(map["exclude" := xs]);
    assert v != Scalar("*") && v.fields["exclude"] == xs;
  }

  /** Enabling a guild an exclude rule names removes it from the list, which
      stays in place while other guilds remain. */
  lemma EnableExcludeListed(rules: Rules, key: string, g: int, xs: seq<string>)
    requires Lookup(rules, NormalizeKey(key)) == Some(Object(map["exclude" := xs])) && IdStr(g) in xs
    requires Without(xs, IdStr(g)) != []
    ensures EnableForGuild(rules, key, g) ==
      Change(true, rules[NormalizeKey(key) := Object(map["exclude" := SortedUnique(Without(xs, IdStr(g)))])])
  {
  }

  /** The same for a non-empty exclude list that does not name the guild and
      is kept sorted and duplicate-free, as the store writes it. */
  lemma DisableEnableRoundTripExclude(rules: Rules, key: string, g: int, xs: seq<string>)
    requires NormalizeKey(key) in rules && rules[NormalizeKey(key)] == Object(map["exclude" := xs])
    requires xs != [] && StrictlySorted(xs) && IdStr(g) !in xs
    ensures var d := DisableForGuild(rules, key, g);
      d.changed && EnableForGuild(d.rules, key, g) == Change(true, rules)
  {
    DisableExcludeUnlisted(rules, key, g, xs);
    EnableUndoesExcludeAdd(rules, key, g, xs);
  }

  lemma EnableUndoesExcludeAdd(rules: Rules, key: string, g: int, xs: seq<string>)
    requires NormalizeKey(key) in rules && rules[NormalizeKey(key)] == Object(map["exclude" := xs])
    requires xs != [] && StrictlySorted(xs) && IdStr(g) !in xs
    ensures EnableForGuild(rules[NormalizeKey(key) := Object(map["exclude" := SortedUnique(xs + [IdStr(g)])])], key, g)
      == Change(true, rules)
  {
    var k, gs := NormalizeKey(key), IdStr(g);
    var ys := SortedUnique(xs + [gs]);
    var d := rules[k := Object(map["exclude" := ys])];
    AddThenRemove(xs, gs);
    EnableExcludeListed(d, key, g, ys);
    RestoreRule(rules, k, Object(map["exclude" := ys]));
  }

  /** Writing a rule and then writing back the old one changes nothing. */
  lemma RestoreRule(rules: Rules, k: string, v: ScopeValue)
    requires k in rules
    ensures rules[k := v][k := rules[k]] == rules
  {
  }

  /** Adding a guild to a canonical list and removing it again gives back
      the list. */
  lemma AddThenRemove(xs: seq<string>, x: string)
    requires xs != [] && StrictlySorted(xs) && x !in xs
    ensures x in SortedUnique(xs + [x])
    ensures Without(SortedUnique(xs + [x]), x) != []
    ensures SortedUnique(Without(SortedUnique(xs + [x]), x)) == xs
  {
    var rest := Without(SortedUnique(xs + [x]), x);
    assert xs[0] in rest;
    StrictlySortedUnique(SortedUnique(rest), xs);
  }

  /** A guild for which the command was enabled is enabled again after
      disabling and re-enabling it, whatever shape the rule had. */
  lemma DisableEnableKeepsEnabled(rules: Rules, key: string, g: int)
    requires IsEnabled(rules, key, g)
    ensures IsEnabled(EnableForGuild(DisableForGuild(rules, key, g).rules, key, g).rules, key, g)
  {
    var d := DisableForGuild(rules, key, g);
    var e := EnableForGuild(d.rules, key, g);
    if e.changed {
      EnableForGuildEnables(d.rules, key, g);
    } else {
      var k, gs := NormalizeKey(key), IdStr(g);
      IdStrNotWildcard(g);
      match Lookup(rules, k)
      case None =>
      case Some(v) =>
        if v.Array? {
          assert gs in v.items || "*" in v.items by {
            assert gs in Elements(v.items) || "*" in Elements(v.items);
          }
        }
    }
  }

  /** `disable_command_globally` disables the command for every guild and
      reports no change only when it was already `[]`. */
  lemma DisableGloballyDisables(rules: Rules, key: string, g: int)
    ensures !IsEnabled(DisableGlobally(rules, key).rules, key, g)
  {
  }

  /** `enable_command_globally` leaves the command unset, hence enabled for
      every guild. */
  lemma EnableGloballyEnables(rules: Rules, key: string, g: int)
    ensures IsEnabled(EnableGlobally(rules, key).rules, key, g)
  {
  }

  // ---------------------------------------------------------------------
  // Loading

  /** `{_normalize_command_key(k): v for k, v in loaded.items()}`: later
      entries win when two keys normalize alike. */
  function LoadRules(loaded: seq<(string, ScopeValue)>): (r: Rules)
    ensures forall k :: k in r ==> NormalizeKey(k) == k
    ensures forall i :: 0 <= i < |loaded| ==> NormalizeKey(loaded[i].0) in r
  {
    if loaded == [] then map[]
    else
      var last := loaded[|loaded| - 1];
      NormalizeKeyProperties(last.0);
      LoadRules(loaded[..|loaded| - 1])[NormalizeKey(last.0) := last.1]
  }

  /** The loaded table has exactly the normalized keys of the file. */
  lemma {:induction false} LoadRulesKeys(loaded: seq<(string, ScopeValue)>)
    ensures LoadRules(loaded).Keys == LoadedKeys(loaded)
  {
    if loaded != [] {
      var init := loaded[..|loaded| - 1];
      LoadRulesKeys(init);
      LoadedKeysSnoc(loaded);
    }
  }

  /** The normalized keys of the entries of `loaded`. */
  function LoadedKeys(loaded: seq<(string, ScopeValue)>): set<string>
  {
    set i | 0 <= i < |loaded| :: NormalizeKey(loaded[i].0)
  }

  lemma LoadedKeysSnoc(loaded: seq<(string, ScopeValue)>)
    requires loaded != []
    ensures LoadedKeys(loaded) == LoadedKeys(loaded[..|loaded| - 1]) + {NormalizeKey(loaded[|loaded| - 1].0)}
  {
    var init := loaded[..|loaded| - 1];
    var n := NormalizeKey(loaded[|loaded| - 1].0);
    forall k | k in LoadedKeys(loaded) ensures k in LoadedKeys(init) + {n} {
      var i :| 0 <= i < |loaded| && k == NormalizeKey(loaded[i].0);
      if i < |init| {
        assert init[i] == loaded[i];
      }
    }
    forall k | k in LoadedKeys(init) ensures k in LoadedKeys(loaded) {
      var i :| 0 <= i < |init| && k == NormalizeKey(init[i].0);
      assert init[i] == loaded[i];
    }
    assert n in LoadedKeys(loaded);
  }

  /** Each key of the loaded table holds the value of the last entry that
      normalizes to it. */
  lemma {:induction false} LoadRulesLastWins(loaded: seq<(string, ScopeValue)>, i: int)
    requires 0 <= i < |loaded| && LastWithKey(loaded, i)
    ensures NormalizeKey(loaded[i].0) in LoadRules(loaded)
    ensures LoadRules(loaded)[NormalizeKey(loaded[i].0)] == loaded[i].1
  {
    if i < |loaded| - 1 {
      var init := loaded[..|loaded| - 1];
      assert init[i] == loaded[i];
      assert LastWithKey(init, i) by {
        forall j | i < j < |init| ensures NormalizeKey(init[j].0) != NormalizeKey(init[i].0) {
          assert init[j] == loaded[j];
        }
      }
      LoadRulesLastWins(init, i);
      assert NormalizeKey(loaded[|loaded| - 1].0) != NormalizeKey(loaded[i].0);
    }
  }

  /** No later entry of `loaded` normalizes like entry `i`. */
  predicate LastWithKey(loaded: seq<(string, ScopeValue)>, i: int)
    requires 0 <= i < |loaded|
  {
    forall j :: i < j < |loaded| ==> NormalizeKey(loaded[j].0) != NormalizeKey(loaded[i].0)
  }

  // ---------------------------------------------------------------------
  // The module-level state

  class Store {
    /** `loaded_guilds`: alias to guild id, in file order. */
    var guilds: Dict<string, int>
    /** `command_scopes` */
    var rules: Rules
    /** `_suppressed_guilds`, as the strings of the ids. */
    var suppressed: set<string>
    /** How often guilds.json, commands.json and unmanaged.json were rewritten. */
    ghost var guildWrites: nat
    ghost var ruleWrites: nat
    ghost var suppressedWrites: nat

    ghost predicate Valid()
      reads this
    {
      Wf(guilds) && forall k :: k in rules ==> NormalizeKey(k) == k
    }

    /** The state read from the three files at import time. */
    constructor (loadedGuilds: Dict<string, int>, loadedRules: seq<(string, ScopeValue)>, loadedSuppressed: seq<string>)
      requires Wf(loadedGuilds)
      ensures Valid()
      ensures guilds == loadedGuilds && rules == LoadRules(loadedRules)
      ensures suppressed == Elements(loadedSuppressed)
      ensures guildWrites == 0 && ruleWrites == 0 && suppressedWrites == 0
    {
      guilds := loadedGuilds;
      rules := LoadRules(loadedRules);
      suppressed := Elements(loadedSuppressed);
      guildWrites, ruleWrites, suppressedWrites := 0, 0, 0;
    }

    /** `is_guild_suppressed` */
    function IsGuildSuppressed(g: int): bool
      reads this
    {
      IdStr(g) in suppressed
    }

    /** `suppress_guild`: an idempotent insert that rewrites the file only
        when the set grows. */
    method SuppressGuild(g: int)
      requires Valid()
      modifies this
      ensures Valid()
      ensures suppressed == old(suppressed) + {IdStr(g)}
      ensures suppressedWrites == old(suppressedWrites) + if IdStr(g) in old(suppressed) then 0 else 1
      ensures guilds == old(guilds) && rules == old(rules)
      ensures guildWrites == old(guildWrites) && ruleWrites == old(ruleWrites)
    {
      var key := IdStr(g);
      if key in suppressed {
        return;
      }
      suppressed := suppressed + {key};
      suppressedWrites := suppressedWrites + 1;
    }

    /** `clear_suppressed_guild`: an idempotent removal. */
    method ClearSuppressedGuild(g: int)
      requires Valid()
      modifies this
      ensures Valid()
      ensures suppressed == old(suppressed) - {IdStr(g)}
      ensures suppressedWrites == old(suppressedWrites) + if IdStr(g) in old(suppressed) then 1 else 0
      ensures guilds == old(guilds) && rules == old(rules)
      ensures guildWrites == old(guildWrites) && ruleWrites == old(ruleWrites)
    {
      var key := IdStr(g);
      if key !in suppressed {
        return;
      }
      suppressed := suppressed - {key};
      suppressedWrites := suppressedWrites + 1;
    }

    /** `register_guild`: rejects a blank alias and, without `overwrite`, an
        alias bound to another id; reports no change for the same binding;
        otherwise binds the alias and lifts the guild's suppression. */
    method RegisterGuild(name: string, g: int, overwrite: bool) returns (r: Result<bool, RegisterError>)
      requires Valid()
      modifies this
      ensures Valid()
      ensures var n := Strip(name);
        && (n == [] ==> r == Failure(EmptyName))
        && (n != [] && Get(old(guilds), n) == Some(g) ==> r == Success(false))
        && (n != [] && Get(old(guilds), n).Some? && Get(old(guilds), n) != Some(g) && !overwrite ==>
              r == Failure(AliasConflict(Get(old(guilds), n).value)))
        && (n != [] && (Get(old(guilds), n).None? || (Get(old(guilds), n) != Some(g) && overwrite)) ==>
              r == Success(true))
      ensures r != Success(true) ==>
        guilds == old(guilds) && suppressed == old(suppressed)
        && guildWrites == old(guildWrites) && suppressedWrites == old(suppressedWrites)
      ensures r == Success(true) ==>
        guilds == Put(old(guilds), Strip(name), g) && suppressed == old(suppressed) - {IdStr(g)}
        && guildWrites == old(guildWrites) + 1
        && suppressedWrites == old(suppressedWrites) + if IdStr(g) in old(suppressed) then 1 else 0
      ensures rules == old(rules) && ruleWrites == old(ruleWrites)
    {
      var n := Strip(name);
      if n == [] {
        return Failure(EmptyName);
      }
      var existing := Get(guilds, n);
      if existing == Some(g) {
        return Success(false);
      }
      if existing.Some? && !overwrite {
        return Failure(AliasConflict(existing.value));
      }
      guilds := Put(guilds, n, g);
      ClearSuppressedGuild(g);
      guildWrites := guildWrites + 1;
      return Success(true);
    }

    /** `get_guild_id`: a plain lookup of the alias as given. */
    function GetGuildId(name: string): Option<int>
      reads this
    {
      Get(guilds, name)
    }

    /** `disable_command_for_guild` on the live table. */
    method DisableCommandForGuild(key: string, g: int) returns (changed: bool)
      requires Valid()
      modifies this
      ensures Valid()
      ensures Change(changed, rules) == DisableForGuild(old(rules), key, g)
      ensures ruleWrites == old(ruleWrites) + if changed then 1 else 0
      ensures guilds == old(guilds) && suppressed == old(suppressed)
      ensures guildWrites == old(guildWrites) && suppressedWrites == old(suppressedWrites)
    {
      NormalizeKeyProperties(key);
      var r := DisableForGuild(rules, key, g);
      changed, rules := r.changed, r.rules;
      if changed {
        ruleWrites := ruleWrites + 1;
      }
    }

    /** `enable_command_for_guild` on the live table. */
    method EnableCommandForGuild(key: string, g: int) returns (changed: bool)
      requires Valid()
      modifies this
      ensures Valid()
      ensures Change(changed, rules) == EnableForGuild(old(rules), key, g)
      ensures ruleWrites == old(ruleWrites) + if changed then 1 else 0
      ensures guilds == old(guilds) && suppressed == old(suppressed)
      ensures guildWrites == old(guildWrites) && suppressedWrites == old(suppressedWrites)
    {
      NormalizeKeyProperties(key);
      var r := EnableForGuild(rules, key, g);
      changed, rules := r.changed, r.rules;
      if changed {
        ruleWrites := ruleWrites + 1;
      }
    }

    /** `disable_command_globally` on the live table. */
    method DisableCommandGlobally(key: string) returns (changed: bool)
      requires Valid()
      modifies this
      ensures Valid()
      ensures Change(changed, rules) == DisableGlobally(old(rules), key)
      ensures ruleWrites == old(ruleWrites) + if changed then 1 else 0
      ensures guilds == old(guilds) && suppressed == old(suppressed)
      ensures guildWrites == old(guildWrites) && suppressedWrites == old(suppressedWrites)
    {
      NormalizeKeyProperties(key);
      var r := DisableGlobally(rules, key);
      changed, rules := r.changed, r.rules;
      if changed {
        ruleWrites := ruleWrites + 1;
      }
    }

    /** `enable_command_globally` on the live table. */
    method EnableCommandGlobally(key: string) returns (changed: bool)
      requires Valid()
      modifies this
      ensures Valid()
      ensures Change(changed, rules) == EnableGlobally(old(rules), key)
      ensures ruleWrites == old(ruleWrites) + if changed then 1 else 0
      ensures guilds == old(guilds) && suppressed == old(suppressed)
      ensures guildWrites == old(guildWrites) && suppressedWrites == old(suppressedWrites)
    {
      var r := EnableGlobally(rules, key);
      changed, rules := r.changed, r.rules;
      if changed {
        ruleWrites := ruleWrites + 1;
      }
    }
  }
}
