/** The administrator commands of `cogs/guildSync/main.py`: the two
    autocompletes, the admin check, the resolution of a target guild, and
    `disable-command` / `enable-command`, which change the rules of the
    command-scope store for the commands a key names and resync only the
    guilds concerned. As written, the commands change the rule of the
    literal key, so a `group.*` key changes a rule no command is looked up
    under; the model expands the key first, as `expand_command_key` does. */
module Admin {
  import opened Wrappers
  import opened Text
  import Catalog
  import opened Sorting
  import opened Dicts
  import opened Platform
  import opened ScopeStore
  import opened Remote
  import opened SyncStates
  import opened Synchroniser
  import opened CommandsEngine
  import opened GuildEngine

  // ---------------------------------------------------------------------
  // Autocomplete

  /** `app_commands.Choice(name=..., value=...)` */
  datatype Choice = Choice(name: string, value: string)

  /** Discord's limits: 25 choices, 100 characters per display name. */
  const MaxChoices: nat := 25
  const MaxName: nat := 100

  /** A candidate choice: its display text and its value. */
  type Candidate = (string, string)

  /** The candidate is kept: an empty query keeps everything, any other
      query must occur in the display text, both lower-cased. */
  predicate Matches(query: string, display: string) {
    Lower(query) == [] || Contains(Lower(display), Lower(query))
  }

  /** The choices of the kept candidates, in order, with truncated names. */
  function Matching(cands: seq<Candidate>, query: string): (r: seq<Choice>)
    ensures |r| <= |cands|
  {
    if cands == [] then []
    else
      var c := cands[|cands| - 1];
      Matching(cands[..|cands| - 1], query) + if Matches(query, c.0) then [Choice(Truncate(c.0, MaxName), c.1)] else []
  }

  /** The first `MaxChoices` elements. */
  function Cap(s: seq<Choice>): (r: seq<Choice>)
    ensures |r| <= MaxChoices && |r| <= |s| && r == s[..|r|]
    ensures |s| <= MaxChoices ==> r == s
  {
    if |s| <= MaxChoices then s else s[..MaxChoices]
  }

  /** `f"{label} ({key})"` for each `(key, label)` entry. */
  function KeyCandidates(entries: seq<(string, string)>): (r: seq<Candidate>)
    ensures |r| == |entries|
    ensures forall i :: 0 <= i < |entries| ==> r[i] == (entries[i].1 + " (" + entries[i].0 + ")", entries[i].0)
  {
    seq(|entries|, i requires 0 <= i < |entries| => (entries[i].1 + " (" + entries[i].0 + ")", entries[i].0))
  }

  /** `f"{guild.name} ({guild_id})"` with value `str(guild_id)`. */
  function GuildCandidates(items: Dict<int, Guild>): (r: seq<Candidate>)
    ensures |r| == |items|
    ensures forall i :: 0 <= i < |items| ==> r[i] == (items[i].1.name + " (" + IdStr(items[i].0) + ")", IdStr(items[i].0))
  {
    seq(|items|, i requires 0 <= i < |items| => (items[i].1.name + " (" + IdStr(items[i].0) + ")", IdStr(items[i].0)))
  }

  /** The key of `sorted(synced.items(), key=lambda item: item[1].name.lower())`. */
  function NameKey(item: (int, Guild)): string {
    Lower(item.1.name)
  }

  /** `sorted(synced.items(), key=lambda item: item[1].name.lower())` */
  function SortedGuilds(synced: Dict<int, Guild>): Dict<int, Guild>
  {
    SortBy(synced, NameKey)
  }

  /** The choice that targets every managed guild. */
  const AllGuilds := Choice("All guilds", "global")

  /** `not current or "global".startswith(current_lower)` */
  predicate OffersAll(current: string) {
    current == [] || StartsWith("global", Lower(current))
  }

  /** What `_command_key_autocomplete` offers. */
  function KeyChoices(entries: seq<(string, string)>, current: string): seq<Choice> {
    Cap(Matching(KeyCandidates(entries), current))
  }

  /** What `_guild_target_autocomplete` offers. */
  function GuildChoices(synced: Dict<int, Guild>, current: string): (r: seq<Choice>)
    ensures |r| <= MaxChoices
  {
    Cap((if OffersAll(current) then [AllGuilds] else []) + Matching(GuildCandidates(SortedGuilds(synced)), current))
  }

  /** The loop both autocompletes share: after the choices in `head`, each
      candidate whose display text holds the query, until there are 25. */
  method TakeMatching(head: seq<Choice>, cands: seq<Candidate>, current: string) returns (choices: seq<Choice>)
    requires |head| < MaxChoices
    ensures choices == Cap(head + Matching(cands, current))
  {
    var currentLower := Lower(current);
    choices := head;
    for i := 0 to |cands|
      invariant choices == head + Matching(cands[..i], current) && |choices| < MaxChoices
    {
      var display, value := cands[i].0, cands[i].1;
      MatchingSnoc(cands, current, i);
      if currentLower != [] && !Contains(Lower(display), currentLower) {
        continue;
      }
      choices := choices + [Choice(Truncate(display, MaxName), value)];
      if |choices| >= MaxChoices {
        MatchingPrefix(cands, current, i + 1);
        CapOfPrefix(head, Matching(cands[..i + 1], current), Matching(cands, current));
        return;
      }
    }
    assert cands[..|cands|] == cands;
  }

  /** `_command_key_autocomplete` over the entries of
      `list_available_command_keys`; nothing when the cog is not loaded. */
  method CommandKeyAutocomplete(cogLoaded: bool, entries: seq<(string, string)>, current: string) returns (choices: seq<Choice>)
    ensures choices == if cogLoaded then KeyChoices(entries, current) else []
  {
    if !cogLoaded {
      return [];
    }
    choices := TakeMatching([], KeyCandidates(entries), current);
  }

  /** `_guild_target_autocomplete` over the managed guilds; nothing when the
      cog is not loaded. */
  method GuildTargetAutocomplete(cogLoaded: bool, synced: Dict<int, Guild>, current: string) returns (choices: seq<Choice>)
    ensures choices == if cogLoaded then GuildChoices(synced, current) else []
  {
    if !cogLoaded {
      return [];
    }
    var head := [];
    if current == [] || StartsWith("global", Lower(current)) {
      head := [AllGuilds];
    }
    choices := TakeMatching(head, GuildCandidates(SortedGuilds(synced)), current);
  }

  // ---------------------------------------------------------------------
  // Admin check and target resolution

  /** `interaction.user`: a guild member with or without the administrator
      permission, or a user who is not a member. */
  datatype User = Member(administrator: bool) | NotMember

  /** `_ensure_admin` */
  function EnsureAdmin(inGuild: bool, user: User): (r: bool)
    ensures r ==> inGuild && user.Member?
  {
    inGuild && user.Member? && user.administrator
  }

  /** `_resolve_target_guilds`: every managed guild for `"global"`;
      otherwise the guild of that id, managed or in the bot's cache, or
      nothing when the target is not an integer or no such guild is known. */
  function ResolveTargets(synced: Dict<int, Guild>, cache: map<int, Guild>, target: string): (r: Dict<int, Guild>)
    ensures target == "global" ==> r == synced
    ensures target != "global" ==> |r| <= 1
    ensures target != "global" && r != [] ==>
      ParseInt(target) == Some(r[0].0)
      && (Get(synced, r[0].0) == Some(r[0].1) || (Get(synced, r[0].0) == None && r[0].0 in cache && cache[r[0].0] == r[0].1))
    ensures (target != "global" && ParseInt(target).Some?
             && (Get(synced, ParseInt(target).value).Some? || ParseInt(target).value in cache)) ==> r != []
  {
    if target == "global" then synced
    else match ParseInt(target)
      case None => []
      case Some(id) =>
        var found := if Get(synced, id).Some? then Get(synced, id) else if id in cache then Some(cache[id]) else None;
        if found.Some? then [(id, found.value)] else []
  }

  /** `"all guilds"`, or `f"{guild.name} ({guild_id})"` for one guild. */
  function TargetLabel(target: string, targets: Dict<int, Guild>): string {
    if target == "global" then "all guilds"
    else if targets == [] then ""
    else targets[0].1.name + " (" + IdStr(targets[0].0) + ")"
  }

  // ---------------------------------------------------------------------
  // disable-command and enable-command

  /** What the command answers: the admin refusal, an unknown target, "is
      already disabled/enabled", or the change together with the key's new
      scope. */
  datatype Reply =
    | NotAdmin
    | Unresolved
    | Unchanged(key: string, targetLabel: string)
    | Changed(key: string, targetLabel: string, scope: Option<ScopeValue>)

  /** The rule change a command makes of one key, as written: globally for
      `"global"`, else for the one target guild. */
  function RuleChange(rules: Rules, key: string, target: string, targets: Dict<int, Guild>, disable: bool): Change
    requires targets != []
  {
    if target == "global" then
      if disable then DisableGlobally(rules, key) else EnableGlobally(rules, key)
    else if disable then DisableForGuild(rules, key, targets[0].0) else EnableForGuild(rules, key, targets[0].0)
  }

  /** The rule change for every key a requested key expands to, in turn;
      something changed when any key's rule did. */
  function RuleChanges(rules: Rules, keys: seq<string>, target: string, targets: Dict<int, Guild>, disable: bool): Change
    requires targets != []
  {
    if keys == [] then Change(false, rules)
    else
      var first := RuleChanges(rules, keys[..|keys| - 1], target, targets, disable);
      var last := RuleChange(first.rules, keys[|keys| - 1], target, targets, disable);
      Change(first.changed || last.changed, last.rules)
  }

  /** `a` and `b` hold the same rule for `k`. */
  predicate SameRule(a: Rules, b: Rules, k: string) {
    (k in a <==> k in b) && (k in a ==> a[k] == b[k])
  }

  class GuildSyncCog {
    const bot: Bot
    const commandsEngine: SyncCommandsEngine
    const guildEngine: GuildSyncEngine

    constructor (bot: Bot, commandsEngine: SyncCommandsEngine, guildEngine: GuildSyncEngine)
      ensures this.bot == bot && this.commandsEngine == commandsEngine && this.guildEngine == guildEngine
    {
      this.bot := bot;
      this.commandsEngine := commandsEngine;
      this.guildEngine := guildEngine;
    }

    /** `disable_command` (`disable` set) and `enable_command`: refuse
        non-administrators and unknown targets without any change; change
        the rule of every key the requested key expands to; resync the
        targets only when a rule changed, removing the global commands and
        every snapshot first for `"global"`. */
    method SetCommand(inGuild: bool, user: User, key: string, target: string, disable: bool,
                      adds: AddOracles, submit: SubmitOracle, globalSubmitted: Option<seq<AppCommand>>)
      returns (reply: Reply)
      requires guildEngine.store.Valid()
      modifies guildEngine.store, commandsEngine.synchroniser.tree, commandsEngine.synchroniser.state
      ensures guildEngine.store.Valid()
      ensures guildEngine.store.guilds == old(guildEngine.store.guilds) && guildEngine.store.suppressed == old(guildEngine.store.suppressed)
      ensures var targets := ResolveTargets(guildEngine.state.guilds, bot.cache, target);
        if !EnsureAdmin(inGuild, user) || targets == [] then
          && reply == (if !EnsureAdmin(inGuild, user) then NotAdmin else Unresolved)
          && guildEngine.store.rules == old(guildEngine.store.rules)
          && Unsynced(old(commandsEngine.synchroniser.tree.State()), old(commandsEngine.synchroniser.state.guilds))
        else
          Applied(old(guildEngine.store.rules), old(commandsEngine.synchroniser.tree.State()), old(commandsEngine.synchroniser.state.guilds),
                  key, target, targets, disable, adds, submit, reply)
    {
      if !EnsureAdmin(inGuild, user) {
        return NotAdmin;
      }
      var targets := ResolveTargets(guildEngine.state.Snapshot(), bot.cache, target);
      if targets == [] {
        return Unresolved;
      }
      reply := Apply(key, target, targets, disable, adds, submit, globalSubmitted);
    }

    /** What the command does with the targets it resolved: the rule
        change, and the resync when the rule changed. */
    ghost predicate Applied(rules: Rules, tree: Tree, snap: map<int, GuildSyncState>, key: string, target: string,
                            targets: Dict<int, Guild>, disable: bool, adds: AddOracles, submit: SubmitOracle, reply: Reply)
      requires targets != []
      reads commandsEngine.synchroniser, commandsEngine.synchroniser.tree, commandsEngine.synchroniser.state, guildEngine.store
    {
      var change := RuleChanges(rules, Catalog.ExpandedKeys(commandsEngine.synchroniser.roots, key), target, targets, disable);
      && guildEngine.store.rules == change.rules
      && (!change.changed ==> reply == Unchanged(key, TargetLabel(target, targets)) && Unsynced(tree, snap))
      && (change.changed ==>
            reply == Changed(key, TargetLabel(target, targets), GetCommandScope(change.rules, key))
            && SyncedFrom(tree, snap, targets, target == "global", adds, submit))
    }

    /** The part of the command after the targets are known. */
    method Apply(key: string, target: string, targets: Dict<int, Guild>, disable: bool,
                 adds: AddOracles, submit: SubmitOracle, globalSubmitted: Option<seq<AppCommand>>)
      returns (reply: Reply)
      requires guildEngine.store.Valid() && targets != []
      modifies guildEngine.store, commandsEngine.synchroniser.tree, commandsEngine.synchroniser.state
      ensures guildEngine.store.Valid()
      ensures guildEngine.store.guilds == old(guildEngine.store.guilds) && guildEngine.store.suppressed == old(guildEngine.store.suppressed)
      ensures Applied(old(guildEngine.store.rules), old(commandsEngine.synchroniser.tree.State()), old(commandsEngine.synchroniser.state.guilds),
                      key, target, targets, disable, adds, submit, reply)
    {
      var targetLabel := TargetLabel(target, targets);
      var keys := Catalog.ExpandKey(commandsEngine.synchroniser.roots, key);
      var changed := ChangeRules(keys, target, targets, disable);
      if !changed {
        return Unchanged(key, targetLabel);
      }
      var env := Env(commandsEngine.synchroniser.roots, guildEngine.store.rules, adds, submit, false);
      var results, updates := commandsEngine.SyncSelectedGuilds(targets, target == "global", target == "global", env, globalSubmitted);
      reply := Changed(key, targetLabel, GetCommandScope(guildEngine.store.rules, key));
    }

    /** The store call of the command: `disable_command_globally` and the
        like. */
    method ChangeRule(key: string, target: string, targets: Dict<int, Guild>, disable: bool) returns (changed: bool)
      requires guildEngine.store.Valid() && targets != []
      modifies guildEngine.store
      ensures guildEngine.store.Valid()
      ensures Change(changed, guildEngine.store.rules) == RuleChange(old(guildEngine.store.rules), key, target, targets, disable)
      ensures guildEngine.store.guilds == old(guildEngine.store.guilds) && guildEngine.store.suppressed == old(guildEngine.store.suppressed)
    {
      if target == "global" {
        if disable {
          changed := guildEngine.store.DisableCommandGlobally(key);
        } else {
          changed := guildEngine.store.EnableCommandGlobally(key);
        }
      } else if disable {
        changed := guildEngine.store.DisableCommandForGuild(key, targets[0].0);
      } else {
        changed := guildEngine.store.EnableCommandForGuild(key, targets[0].0);
      }
    }

    /** The store calls for every expanded key, in order. */
    method ChangeRules(keys: seq<string>, target: string, targets: Dict<int, Guild>, disable: bool) returns (changed: bool)
      requires guildEngine.store.Valid() && targets != []
      modifies guildEngine.store
      ensures guildEngine.store.Valid()
      ensures Change(changed, guildEngine.store.rules) == RuleChanges(old(guildEngine.store.rules), keys, target, targets, disable)
      ensures guildEngine.store.guilds == old(guildEngine.store.guilds) && guildEngine.store.suppressed == old(guildEngine.store.suppressed)
    {
      changed := false;
      for i := 0 to |keys|
        invariant guildEngine.store.Valid()
        invariant Change(changed, guildEngine.store.rules) == RuleChanges(old(guildEngine.store.rules), keys[..i], target, targets, disable)
        invariant guildEngine.store.guilds == old(guildEngine.store.guilds) && guildEngine.store.suppressed == old(guildEngine.store.suppressed)
      {
        assert keys[..i + 1][..i] == keys[..i];
        var c := ChangeRule(keys[i], target, targets, disable);
        changed := changed || c;
      }
      assert keys[..|keys|] == keys;
    }

    /** Neither the command tree nor the snapshots changed. */
    ghost predicate Unsynced(tree: Tree, snap: map<int, GuildSyncState>)
      reads commandsEngine.synchroniser, commandsEngine.synchroniser.tree, commandsEngine.synchroniser.state
    {
      commandsEngine.synchroniser.tree.State() == tree && commandsEngine.synchroniser.state.guilds == snap
    }

    /** The tree and the snapshots are what `sync_selected_guilds(targets,
        clear_global=global, reset_snapshots=global)` makes of `tree` and
        `snap` under the current rules. */
    ghost predicate SyncedFrom(tree: Tree, snap: map<int, GuildSyncState>, targets: Dict<int, Guild>, global: bool,
                               adds: AddOracles, submit: SubmitOracle)
      reads commandsEngine.synchroniser, commandsEngine.synchroniser.tree, commandsEngine.synchroniser.state, guildEngine.store
    {
      var env := Env(commandsEngine.synchroniser.roots, guildEngine.store.rules, adds, submit, false);
      var r := Selected(tree, snap, targets, global, global, env);
      commandsEngine.synchroniser.tree.State() == r.tree && commandsEngine.synchroniser.state.guilds == r.snap
    }
  }

  // ---------------------------------------------------------------------
  // Properties

  /** The choices of a prefix of the candidates are a prefix of the
      choices of all of them. */
  lemma {:induction false} MatchingPrefix(cands: seq<Candidate>, query: string, k: nat)
    requires k <= |cands|
    ensures var p, m := Matching(cands[..k], query), Matching(cands, query);
      |p| <= |m| && m[..|p|] == p
    decreases |cands|
  {
    if k < |cands| {
      var init := cands[..|cands| - 1];
      assert init[..k] == cands[..k];
      MatchingPrefix(init, query, k);
    } else {
      assert cands[..k] == cands;
    }
  }

  lemma MatchingSnoc(cands: seq<Candidate>, query: string, i: nat)
    requires i < |cands|
    ensures Matching(cands[..i + 1], query) == Matching(cands[..i], query)
      + if Matches(query, cands[i].0) then [Choice(Truncate(cands[i].0, MaxName), cands[i].1)] else []
  {
    assert cands[..i + 1][..i] == cands[..i];
  }

  lemma CapOfPrefix(head: seq<Choice>, p: seq<Choice>, m: seq<Choice>)
    requires |p| <= |m| && m[..|p|] == p && |head + p| == MaxChoices
    ensures Cap(head + m) == head + p
  {
    assert (head + m)[..MaxChoices] == head + p;
  }

  /** Every choice comes from a kept candidate, with its value unchanged
      and its name the first 100 characters of the display text; and when
      there are no more than 25 kept candidates, each of them is offered. */
  lemma {:induction false} MatchingSound(cands: seq<Candidate>, query: string)
    ensures forall c :: c in Matching(cands, query) ==>
      exists i :: 0 <= i < |cands| && Matches(query, cands[i].0) && c == Choice(Truncate(cands[i].0, MaxName), cands[i].1)
    ensures forall i :: 0 <= i < |cands| && Matches(query, cands[i].0) ==>
      Choice(Truncate(cands[i].0, MaxName), cands[i].1) in Matching(cands, query)
  {
    if cands != [] {
      var init := cands[..|cands| - 1];
      MatchingSound(init, query);
      forall c | c in Matching(cands, query)
        ensures exists i :: 0 <= i < |cands| && Matches(query, cands[i].0) && c == Choice(Truncate(cands[i].0, MaxName), cands[i].1)
      {
        if c in Matching(init, query) {
          var i :| 0 <= i < |init| && Matches(query, init[i].0) && c == Choice(Truncate(init[i].0, MaxName), init[i].1);
          assert cands[i] == init[i];
        }
      }
      forall i | 0 <= i < |cands| && Matches(query, cands[i].0)
        ensures Choice(Truncate(cands[i].0, MaxName), cands[i].1) in Matching(cands, query)
      {
        if i < |init| {
          assert cands[i] == init[i];
        }
      }
    }
  }

  /** The positions in `cands` of the kept candidates, in order. */
  function MatchedIndices(cands: seq<Candidate>, query: string): seq<nat>
  {
    if cands == [] then []
    else MatchedIndices(cands[..|cands| - 1], query) + if Matches(query, cands[|cands| - 1].0) then [|cands| - 1] else []
  }

  /** `Matching` keeps candidates in their order: its k-th choice is the
      candidate at the k-th of a strictly increasing run of positions. */
  lemma {:induction false} MatchingIndexed(cands: seq<Candidate>, query: string)
    ensures var m, idx := Matching(cands, query), MatchedIndices(cands, query);
      && |idx| == |m|
      && (forall k :: 0 <= k < |idx| ==> idx[k] < |cands| && m[k] == Choice(Truncate(cands[idx[k]].0, MaxName), cands[idx[k]].1))
      && (forall k, l :: 0 <= k < l < |idx| ==> idx[k] < idx[l])
  {
    if cands != [] {
      var init := cands[..|cands| - 1];
      MatchingIndexed(init, query);
      assert forall i :: 0 <= i < |init| ==> cands[i] == init[i];
    }
  }

  /** The empty query keeps every candidate. */
  lemma {:induction false} MatchingEmptyQuery(cands: seq<Candidate>)
    ensures |Matching(cands, "")| == |cands|
  {
    if cands != [] {
      MatchingEmptyQuery(cands[..|cands| - 1]);
    }
  }

  /** At most 25 command-key choices, each naming an entry whose display
      text holds the query, with a name of at most 100 characters and the
      key as value; an empty query offers the first 25 entries. */
  lemma KeyChoicesSpec(entries: seq<(string, string)>, current: string)
    ensures var r := KeyChoices(entries, current);
      && |r| <= MaxChoices
      && (forall c :: c in r ==>
            (&& |c.name| <= MaxName
             && exists i :: 0 <= i < |entries| && c.value == entries[i].0
                  && Matches(current, entries[i].1 + " (" + entries[i].0 + ")")))
      && (current == "" ==> |r| == if |entries| <= MaxChoices then |entries| else MaxChoices)
  {
    var cands := KeyCandidates(entries);
    var m := Matching(cands, current);
    MatchingSound(cands, current);
    if current == "" {
      MatchingEmptyQuery(cands);
    }
    forall c | c in KeyChoices(entries, current)
      ensures |c.name| <= MaxName
      ensures exists i :: 0 <= i < |entries| && c.value == entries[i].0
                 && Matches(current, entries[i].1 + " (" + entries[i].0 + ")")
    {
      assert c in m;
      var i :| 0 <= i < |cands| && Matches(current, cands[i].0) && c == Choice(Truncate(cands[i].0, MaxName), cands[i].1);
    }
  }

  /** The "All guilds" choice is offered, and then first, exactly when the
      query is empty or a prefix of `global`: no guild choice has the value
      `global`. */
  lemma AllGuildsFirst(synced: Dict<int, Guild>, current: string)
    ensures var r := GuildChoices(synced, current);
      (r != [] && r[0] == AllGuilds) <==> OffersAll(current)
    ensures AllGuilds in GuildChoices(synced, current) <==> OffersAll(current)
  {
    var items := SortedGuilds(synced);
    var cands := GuildCandidates(items);
    var m := Matching(cands, current);
    MatchingSound(cands, current);
    var r := GuildChoices(synced, current);
    forall c | c in m ensures c.value != "global" {
      var i :| 0 <= i < |cands| && Matches(current, cands[i].0) && c == Choice(Truncate(cands[i].0, MaxName), cands[i].1);
      assert c.value == IdStr(items[i].0);
    }
    if !OffersAll(current) {
      forall c | c in r ensures c != AllGuilds {
        assert c in m;
      }
    }
  }

  /** The guild choices after "All guilds" follow the guilds sorted by
      lower-cased name: of any two, the earlier one's guild comes earlier in
      that order and its lower-cased name is no greater. */
  lemma GuildChoicesOrdered(synced: Dict<int, Guild>, current: string, i: int, j: int)
    requires var r := GuildChoices(synced, current); 0 <= i < j < |r| && r[i] != AllGuilds && r[j] != AllGuilds
    ensures exists a, b ::
              && 0 <= a < b < |SortedGuilds(synced)|
              && GuildChoices(synced, current)[i].value == IdStr(SortedGuilds(synced)[a].0)
              && GuildChoices(synced, current)[j].value == IdStr(SortedGuilds(synced)[b].0)
              && StrLe(NameKey(SortedGuilds(synced)[a]), NameKey(SortedGuilds(synced)[b]))
  {
    var items := SortedGuilds(synced);
    var head := if OffersAll(current) then [AllGuilds] else [];
    assert SortedBy(items, NameKey);
    assert GuildChoices(synced, current) == Cap(head + Matching(GuildCandidates(items), current));
    var a, b := ChoicesOrdered(items, head, current, i, j);
  }

  /** `GuildChoicesOrdered` for any list of guilds sorted by name. */
  lemma ChoicesOrdered(items: Dict<int, Guild>, head: seq<Choice>, current: string, i: int, j: int) returns (a: int, b: int)
    requires SortedBy(items, NameKey) && (head == [] || head == [AllGuilds])
    requires var r := Cap(head + Matching(GuildCandidates(items), current)); 0 <= i < j < |r| && r[i] != AllGuilds && r[j] != AllGuilds
    ensures 0 <= a < b < |items|
    ensures var r := Cap(head + Matching(GuildCandidates(items), current));
      r[i].value == IdStr(items[a].0) && r[j].value == IdStr(items[b].0)
    ensures StrLe(NameKey(items[a]), NameKey(items[b]))
  {
    var m := Matching(GuildCandidates(items), current);
    CapPositions(head, m, i, j);
    a, b := GuildMatchesOrdered(items, current, i - |head|, j - |head|);
  }

  /** Below the cap, a choice other than a leading "All guilds" is the
      matching choice at its position less the head. */
  lemma CapPositions(head: seq<Choice>, m: seq<Choice>, i: int, j: int)
    requires head == [] || head == [AllGuilds]
    requires var r := Cap(head + m); 0 <= i < j < |r| && r[i] != AllGuilds && r[j] != AllGuilds
    ensures |head| <= i && j - |head| < |m|
    ensures Cap(head + m)[i] == m[i - |head|] && Cap(head + m)[j] == m[j - |head|]
  {
    var r := Cap(head + m);
    assert r == (head + m)[..|r|];
    assert head != [] ==> r[0] == AllGuilds;
  }

  /** Matching guild candidates keep the order of the sorted guilds. */
  lemma GuildMatchesOrdered(items: Dict<int, Guild>, current: string, k: int, l: int) returns (a: int, b: int)
    requires SortedBy(items, NameKey)
    requires 0 <= k < l < |Matching(GuildCandidates(items), current)|
    ensures 0 <= a < b < |items|
    ensures var m := Matching(GuildCandidates(items), current);
      m[k].value == IdStr(items[a].0) && m[l].value == IdStr(items[b].0)
    ensures StrLe(NameKey(items[a]), NameKey(items[b]))
  {
    var cands := GuildCandidates(items);
    MatchingIndexed(cands, current);
    var idx := MatchedIndices(cands, current);
    a, b := idx[k], idx[l];
  }

  /** A guild id written as its numeral resolves to that guild, managed or
      cached, and to nothing when the bot does not know it. */
  lemma ResolveById(synced: Dict<int, Guild>, cache: map<int, Guild>, g: int)
    ensures var r := ResolveTargets(synced, cache, IdStr(g));
      && (Get(synced, g).Some? ==> r == [(g, Get(synced, g).value)])
      && (Get(synced, g).None? && g in cache ==> r == [(g, cache[g])])
      && (Get(synced, g).None? && g !in cache ==> r == [])
  {
    IdStrRoundTrip(g);
    assert IdStr(g) != "global" by {
      assert IdStr(g)[0] != 'g';
    }
  }

  // ---------------------------------------------------------------------
  // Wildcard keys

  /** What a rule change makes of the rule of its own normalized key
      depends on nothing else. */
  lemma RuleChangeLocal(a: Rules, b: Rules, key: string, target: string, targets: Dict<int, Guild>, disable: bool)
    requires targets != [] && SameRule(a, b, NormalizeKey(key))
    ensures var ca, cb := RuleChange(a, key, target, targets, disable), RuleChange(b, key, target, targets, disable);
      && ca.changed == cb.changed
      && SameRule(ca.rules, cb.rules, NormalizeKey(key))
  {
    if target != "global" {
      var g := targets[0].0;
      if disable {
        DisableForGuildLocal(a, b, key, g);
      } else {
        EnableForGuildLocal(a, b, key, g);
      }
    }
  }

  /** A rule change leaves the rule of any other key as it was. */
  lemma RuleChangeElsewhere(a: Rules, key: string, target: string, targets: Dict<int, Guild>, disable: bool, k: string)
    requires targets != [] && k != NormalizeKey(key)
    ensures SameRule(RuleChange(a, key, target, targets, disable).rules, a, k)
  {
  }

  lemma DisableForGuildLocal(a: Rules, b: Rules, key: string, g: int)
    requires SameRule(a, b, NormalizeKey(key))
    ensures var ca, cb := DisableForGuild(a, key, g), DisableForGuild(b, key, g);
      ca.changed == cb.changed && SameRule(ca.rules, cb.rules, NormalizeKey(key))
  {
    assert Lookup(a, NormalizeKey(key)) == Lookup(b, NormalizeKey(key));
  }

  lemma EnableForGuildLocal(a: Rules, b: Rules, key: string, g: int)
    requires SameRule(a, b, NormalizeKey(key))
    ensures var ca, cb := EnableForGuild(a, key, g), EnableForGuild(b, key, g);
      ca.changed == cb.changed && SameRule(ca.rules, cb.rules, NormalizeKey(key))
  {
    assert Lookup(a, NormalizeKey(key)) == Lookup(b, NormalizeKey(key));
  }

  /** Whether a command is enabled for a guild depends only on the rule of
      its normalized key. */
  lemma IsEnabledLocal(a: Rules, b: Rules, key: string, g: int)
    requires SameRule(a, b, NormalizeKey(key))
    ensures IsEnabled(a, key, g) == IsEnabled(b, key, g)
  {
  }

  /** Changing the rules of a sequence of keys leaves every rule of a key
      outside the sequence alone. */
  lemma {:induction false} RuleChangesElsewhere(rules: Rules, keys: seq<string>, target: string, targets: Dict<int, Guild>, disable: bool, k: string)
    requires targets != []
    requires forall i :: 0 <= i < |keys| ==> NormalizeKey(keys[i]) != k
    ensures SameRule(RuleChanges(rules, keys, target, targets, disable).rules, rules, k)
  {
    if keys != [] {
      var n := |keys| - 1;
      assert forall i :: 0 <= i < n ==> keys[..n][i] == keys[i];
      RuleChangesElsewhere(rules, keys[..n], target, targets, disable, k);
      var first := RuleChanges(rules, keys[..n], target, targets, disable);
      RuleChangeElsewhere(first.rules, keys[n], target, targets, disable, k);
    }
  }

  /** Changing the rules of keys with distinct normalized forms one after
      the other gives each key the rule its own change gives it. */
  lemma {:induction false} RuleChangesOwn(rules: Rules, keys: seq<string>, target: string, targets: Dict<int, Guild>, disable: bool, i: nat)
    requires targets != [] && i < |keys|
    requires forall i, j :: 0 <= i < j < |keys| ==> NormalizeKey(keys[i]) != NormalizeKey(keys[j])
    ensures SameRule(RuleChanges(rules, keys, target, targets, disable).rules,
                     RuleChange(rules, keys[i], target, targets, disable).rules, NormalizeKey(keys[i]))
  {
    var n := |keys| - 1;
    var init := keys[..n];
    var first := RuleChanges(rules, init, target, targets, disable);
    if i < n {
      assert init[i] == keys[i];
      assert forall a, b :: 0 <= a < b < |init| ==> init[a] == keys[a] && init[b] == keys[b];
      RuleChangesOwn(rules, init, target, targets, disable, i);
      RuleChangeElsewhere(first.rules, keys[n], target, targets, disable, NormalizeKey(keys[i]));
    } else {
      assert forall a :: 0 <= a < n ==> init[a] == keys[a];
      RuleChangesElsewhere(rules, init, target, targets, disable, NormalizeKey(keys[n]));
      RuleChangeLocal(first.rules, rules, keys[n], target, targets, disable);
    }
  }

  /** Changing the rules of keys with distinct normalized forms one after
      the other changes something exactly when one of the single changes
      does. */
  lemma {:induction false} RuleChangesChanged(rules: Rules, keys: seq<string>, target: string, targets: Dict<int, Guild>, disable: bool)
    requires targets != []
    requires forall i, j :: 0 <= i < j < |keys| ==> NormalizeKey(keys[i]) != NormalizeKey(keys[j])
    ensures RuleChanges(rules, keys, target, targets, disable).changed <==>
      exists i :: 0 <= i < |keys| && RuleChange(rules, keys[i], target, targets, disable).changed
  {
    if keys != [] {
      var n := |keys| - 1;
      var init := keys[..n];
      assert forall a :: 0 <= a < n ==> init[a] == keys[a];
      RuleChangesChanged(rules, init, target, targets, disable);
      RuleChangesElsewhere(rules, init, target, targets, disable, NormalizeKey(keys[n]));
      var first := RuleChanges(rules, init, target, targets, disable);
      RuleChangeLocal(first.rules, rules, keys[n], target, targets, disable);
    }
  }

  /** What `disable-command` and `enable-command` are meant to do with a
      key: every command the key expands to (every leaf under the group for
      `group.*`) ends up enabled for each guild exactly as if its own key
      had been changed alone, no other rule changes, and a change is
      reported exactly when one of those keys' rules changed. */
  lemma ExpandedRuleChange(roots: seq<Catalog.Group>, rules: Rules, key: string, target: string, targets: Dict<int, Guild>, disable: bool)
    requires targets != []
    ensures var keys := Catalog.ExpandedKeys(roots, key);
      var r := RuleChanges(rules, keys, target, targets, disable);
      && (forall k, g :: k in keys ==>
            IsEnabled(r.rules, k, g) == IsEnabled(RuleChange(rules, k, target, targets, disable).rules, k, g))
      && (forall k :: (forall k' :: k' in keys ==> NormalizeKey(k') != k) ==> SameRule(r.rules, rules, k))
      && (r.changed <==> exists k :: k in keys && RuleChange(rules, k, target, targets, disable).changed)
  {
    var keys := Catalog.ExpandedKeys(roots, key);
    Catalog.ExpandedKeysNormalized(roots, key);
    var r := RuleChanges(rules, keys, target, targets, disable);
    forall k, g | k in keys
      ensures IsEnabled(r.rules, k, g) == IsEnabled(RuleChange(rules, k, target, targets, disable).rules, k, g)
    {
      var i :| 0 <= i < |keys| && keys[i] == k;
      RuleChangesOwn(rules, keys, target, targets, disable, i);
      IsEnabledLocal(r.rules, RuleChange(rules, k, target, targets, disable).rules, k, g);
    }
    forall k | forall k' :: k' in keys ==> NormalizeKey(k') != k
      ensures SameRule(r.rules, rules, k)
    {
      assert forall i :: 0 <= i < |keys| ==> keys[i] in keys;
      RuleChangesElsewhere(rules, keys, target, targets, disable, k);
    }
    RuleChangesChanged(rules, keys, target, targets, disable);
    if r.changed {
      var i :| 0 <= i < |keys| && RuleChange(rules, keys[i], target, targets, disable).changed;
      assert keys[i] in keys;
    }
  }

  /** A key without `.*` gets exactly the change the command makes of it
      as written. */
  lemma PlainKeyChange(roots: seq<Catalog.Group>, rules: Rules, key: string, target: string, targets: Dict<int, Guild>, disable: bool)
    requires targets != [] && !EndsWith(NormalizeKey(key), ".*")
    ensures RuleChanges(rules, Catalog.ExpandedKeys(roots, key), target, targets, disable) == RuleChange(rules, key, target, targets, disable)
  {
    var keys := Catalog.ExpandedKeys(roots, key);
    NormalizeKeyProperties(key);
    assert keys == [NormalizeKey(key)];
    assert keys[..0] == [];
  }

  /** `disable-command` for `"global"` with a group key disables every
      command under the group in every guild; `enable-command` enables
      them all again. */
  lemma ExpandedGlobalChange(roots: seq<Catalog.Group>, rules: Rules, key: string, targets: Dict<int, Guild>, disable: bool, k: string, g: int)
    requires targets != [] && k in Catalog.ExpandedKeys(roots, key)
    ensures IsEnabled(RuleChanges(rules, Catalog.ExpandedKeys(roots, key), "global", targets, disable).rules, k, g) == !disable
  {
    ExpandedRuleChange(roots, rules, key, "global", targets, disable);
    if disable {
      DisableGloballyDisables(rules, k, g);
    } else {
      EnableGloballyEnables(rules, k, g);
    }
  }

  /** The group `p` holding the one command `c`. */
  const WildcardGroup := Catalog.Group("p", "", false, None, false, [Catalog.Leaf(Catalog.Command("c", "", Catalog.ChatInput, true))])

  /** `p.*` and `p.c` are already normalized. */
  lemma WildcardKeysNormalized()
    ensures NormalizeKey("p.*") == "p.*" && NormalizeKey("p.c") == "p.c"
  {
  }

  /** The one leaf of `WildcardGroup` is `p c`, with the key `p.c`. */
  lemma WildcardGroupLeaves()
    ensures Catalog.Leaves([WildcardGroup]) == [Catalog.LeafRef("p c", WildcardGroup.children[0].command)]
    ensures Catalog.CommandKey(Catalog.LeafRef("p c", WildcardGroup.children[0].command)) == "p.c"
  {
    var cs := WildcardGroup.children;
    assert |cs| == 1 && cs[..|cs| - 1] == [];
    assert Catalog.NodesLeaves(cs, "p") == Catalog.NodeLeaves(cs[0], "p");
    assert "p" + " " + "c" == "p c";
    assert [WildcardGroup][..0] == [];
    assert Catalog.Leaves([WildcardGroup]) == Catalog.GroupLeaves(WildcardGroup, None);
    assert Catalog.CommandKey(Catalog.LeafRef("p c", cs[0].command)) == NormalizeKey("p c");
  }

  /** `p.*` expands to a list holding `p.c`. */
  lemma WildcardExpands()
    ensures "p.c" in Catalog.ExpandedKeys([WildcardGroup], "p.*")
  {
    WildcardKeysNormalized();
    WildcardGroupLeaves();
    Catalog.ExpandedKeysMembers([WildcardGroup], "p.*");
    assert "p.*"[..1] == "p";
    assert Catalog.UnderPrefix("p.c", "p") by {
      assert "p.c"[..2] == "p.";
    }
  }

  /** As the command is written, `disable-command p.*` for guild 1 stores
      a rule for the key `p.*` and reports a change, yet `p.c`, the one
      command under `p`, stays enabled for guild 1, since the clone only
      ever looks up leaf keys. */
  lemma RawWildcardRuleIgnored(guild: Guild)
    ensures var c := RuleChange(map[], "p.*", "1", [(1, guild)], true);
      && c.changed
      && "p.c" in Catalog.ExpandedKeys([WildcardGroup], "p.*")
      && IsEnabled(c.rules, "p.c", 1)
  {
    WildcardKeysNormalized();
    WildcardExpands();
  }

  /** As written, for every rule table, target and guild: a rule change on a
      key of the form `group.*` leaves whether any command is enabled, and
      whether the clone keeps it, exactly as before. Discord command names
      cannot contain '*', so no command's key ends in ".*". */
  lemma RawWildcardRuleInert(rules: Rules, key: string, target: string, targets: Dict<int, Guild>, disable: bool, l: Catalog.LeafRef, g: int)
    requires targets != []
    requires EndsWith(NormalizeKey(key), ".*") && !EndsWith(Catalog.CommandKey(l), ".*")
    ensures var after := RuleChange(rules, key, target, targets, disable).rules;
      && IsEnabled(after, Catalog.CommandKey(l), g) == IsEnabled(rules, Catalog.CommandKey(l), g)
      && Catalog.Keep(after, g, l) == Catalog.Keep(rules, g, l)
  {
    var k := Catalog.CommandKey(l);
    NormalizeKeyProperties(l.qualified);
    assert NormalizeKey(k) == k;
    var after := RuleChange(rules, key, target, targets, disable).rules;
    RuleChangeElsewhere(rules, key, target, targets, disable, k);
    IsEnabledLocal(after, rules, k, g);
  }

  /** With the key expanded, the same command disables `p.c` for guild 1. */
  lemma ExpandedWildcardDisables(guild: Guild)
    ensures var c := RuleChanges(map[], Catalog.ExpandedKeys([WildcardGroup], "p.*"), "1", [(1, guild)], true);
      c.changed && !IsEnabled(c.rules, "p.c", 1)
  {
    WildcardExpands();
    var one := RuleChange(map[], "p.c", "1", [(1, guild)], true);
    assert one == DisableForGuild(map[], "p.c", 1);
    DisableForGuildOutcome(map[], "p.c", 1);
    assert one.changed && !IsEnabled(one.rules, "p.c", 1);
    ExpandedRuleChange([WildcardGroup], map[], "p.*", "1", [(1, guild)], true);
  }
}
