/** `GuildSyncEngine` of `syncGuilds/main.py`: keeps the managed guilds in
    step with the configured ones, prompts the guilds the bot joined but
    nobody configured, and adds guilds on request. */
module GuildEngine {
  import opened Wrappers
  import opened Text
  import opened Sorting
  import opened Dicts
  import opened Platform
  import opened ScopeStore
  import opened ConfiguredGuilds
  import opened Collector
  import opened Registrar

  // ---------------------------------------------------------------------
  // Choosing the channel of a prompt

  /** The bot may both send and view in the channel. */
  predicate Usable(c: Channel) {
    c.canSend && c.canView
  }

  /** The first usable channel of `sorted(cs, key=position)`: the usable
      channel of lowest position, the earliest one among equal positions
      since the sort is stable. */
  function LowestUsable(cs: seq<Channel>): Option<Channel> {
    if cs == [] then None
    else
      var rest := LowestUsable(cs[1..]);
      if Usable(cs[0]) && (rest.None? || cs[0].position <= rest.value.position) then Some(cs[0]) else rest
  }

  /** `_select_notification_channel`: nothing without a bot user or member;
      else the system channel when the bot may send there; else the first
      usable text channel by position. */
  function SelectChannel(hasUser: bool, guild: Guild): Option<Channel> {
    if !hasUser || !guild.botMember then None
    else if guild.systemChannel.Some? && guild.systemChannel.value.canSend then guild.systemChannel
    else LowestUsable(guild.textChannels)
  }

  // ---------------------------------------------------------------------
  // Prompting unmanaged guilds

  /** What `channel.send` does in each guild; a guild not listed is sent
      to. */
  type SendOracle = map<int, SendOutcome>

  function SendFor(sends: SendOracle, g: int): SendOutcome {
    if g in sends then sends[g] else Sent
  }

  /** `_active_invites` and the prompts sent so far, as (guild id, channel
      id) pairs. */
  datatype Prompting = Prompting(invites: set<int>, sent: seq<(int, int)>)

  /** The guilds that may be prompted at all: not managed, not suppressed,
      and with a channel to prompt in. */
  predicate Promptable(managed: set<int>, suppressed: set<string>, hasUser: bool, guild: Guild) {
    guild.id !in managed && IdStr(guild.id) !in suppressed && SelectChannel(hasUser, guild).Some?
  }

  /** One guild of `_prompt_unmanaged_guilds`. */
  function PromptOne(p: Prompting, managed: set<int>, suppressed: set<string>, hasUser: bool, guild: Guild, sends: SendOracle): Prompting {
    if !Promptable(managed, suppressed, hasUser, guild) || guild.id in p.invites then p
    else
      var c := SelectChannel(hasUser, guild).value;
      Prompting(if SendFor(sends, guild.id) == Sent then p.invites + {guild.id} else p.invites, p.sent + [(guild.id, c.id)])
  }

  function PromptAll(p: Prompting, managed: set<int>, suppressed: set<string>, hasUser: bool, gs: seq<Guild>, sends: SendOracle): Prompting {
    if gs == [] then p
    else PromptOne(PromptAll(p, managed, suppressed, hasUser, gs[..|gs| - 1], sends), managed, suppressed, hasUser, gs[|gs| - 1], sends)
  }

  /** The keys of a dict, as a set. */
  function KeySet<K, V>(d: Dict<K, V>): set<K> {
    set i | 0 <= i < |d| :: d[i].0
  }

  // ---------------------------------------------------------------------
  // Adding a guild

  /** The guild `add_guild` stores, None when it fails: the managed guild
      itself or the resolved one, which with `persist` must also be
      accepted by the registrar. */
  function AddedGuild(known: Option<Guild>, cache: map<int, Guild>, fetch: FetchOracle, g: int,
                      aliases: Dict<string, int>, alias: Option<string>, persist: bool, overwrite: bool): Option<Guild>
  {
    var guild := if known.Some? then known else Resolve(cache, fetch, g);
    if guild.None? then None
    else if persist && !Accepts(aliases, PreferredName(alias, guild.value.name), guild.value.id, overwrite) then None
    else guild
  }

  /** The aliases `add_guild` leaves in the store: the preferred name bound
      to the guild when `persist` is set and registration binds it. */
  function AddedAliases(known: Option<Guild>, cache: map<int, Guild>, fetch: FetchOracle, g: int,
                        aliases: Dict<string, int>, alias: Option<string>, persist: bool, overwrite: bool): Dict<string, int>
    requires Wf(aliases)
  {
    var guild := if known.Some? then known else Resolve(cache, fetch, g);
    if !persist || guild.None? then aliases
    else Registered(aliases, PreferredName(alias, guild.value.name), guild.value.id, overwrite)
  }

  /** The aliases after a registration of `g` under `n`. */
  function Registered(aliases: Dict<string, int>, n: string, g: int, overwrite: bool): Dict<string, int>
    requires Wf(aliases)
  {
    if Binds(aliases, n, g, overwrite) then Put(aliases, n, g) else aliases
  }

  class GuildSyncEngine {
    const bot: Bot
    const store: Store
    const collector: ConfiguredGuildsCollector
    const registrar: ConfiguredGuildRegistrar
    const state: ConfiguredGuildsState
    var activeInvites: set<int>
    var removedIds: set<int>
    /** The prompts sent, as (guild id, channel id). */
    ghost var prompts: seq<(int, int)>
    /** The guilds whose commands `_sync_commands_for_guild` was asked to
        sync, in order. */
    ghost var commandSyncs: seq<int>

    ghost predicate Valid()
      reads this, store, state
    {
      collector.bot == bot && registrar.collector == collector && registrar.store == store
      && store.Valid() && state.Valid()
    }

    constructor (bot: Bot, store: Store)
      requires store.Valid()
      ensures Valid() && this.bot == bot && this.store == store && fresh(state)
      ensures state.guilds == [] && activeInvites == {} && removedIds == {} && prompts == [] && commandSyncs == []
    {
      this.bot := bot;
      this.store := store;
      var c := new ConfiguredGuildsCollector(bot);
      collector := c;
      registrar := new ConfiguredGuildRegistrar(c, store);
      state := new ConfiguredGuildsState();
      activeInvites, removedIds, prompts, commandSyncs := {}, {}, [], [];
    }

    /** `mark_invite_complete`: an idempotent removal. */
    method MarkInviteComplete(g: int)
      modifies this
      ensures activeInvites == old(activeInvites) - {g}
      ensures removedIds == old(removedIds) && prompts == old(prompts) && commandSyncs == old(commandSyncs)
    {
      activeInvites := activeInvites - {g};
    }

    /** `get_removed_guild_ids`: a copy of `_removed_ids`. */
    function GetRemovedGuildIds(): set<int>
      reads this
    {
      removedIds
    }

    /** `_prompt_unmanaged_guilds`: each guild that is not managed, not
        suppressed, not already prompted and has a usable channel gets a
        prompt; its id is marked before the send and unmarked when the send
        fails. */
    method PromptUnmanaged(gs: seq<Guild>, sends: SendOracle)
      requires Valid()
      modifies this
      ensures Prompting(activeInvites, prompts)
        == PromptAll(Prompting(old(activeInvites), old(prompts)), KeySet(state.guilds), store.suppressed, bot.hasUser, gs, sends)
      ensures removedIds == old(removedIds) && commandSyncs == old(commandSyncs)
    {
      ghost var start := Prompting(activeInvites, prompts);
      var managed := KeySet(state.guilds);
      for i := 0 to |gs|
        invariant Prompting(activeInvites, prompts) == PromptAll(start, managed, store.suppressed, bot.hasUser, gs[..i], sends)
        invariant removedIds == old(removedIds) && commandSyncs == old(commandSyncs)
      {
        assert gs[..i + 1][..i] == gs[..i];
        var guild := gs[i];
        if InState(guild.id) || store.IsGuildSuppressed(guild.id) || guild.id in activeInvites {
          continue;
        }
        var channel := SelectChannel(bot.hasUser, guild);
        if channel.None? {
          continue;
        }
        activeInvites := activeInvites + {guild.id};
        prompts := prompts + [(guild.id, channel.value.id)];
        var outcome := SendFor(sends, guild.id);
        if outcome != Sent {
          activeInvites := activeInvites - {guild.id};
        }
      }
      assert gs[..|gs|] == gs;
    }

    /** `guild.id in self.state.guilds` */
    function InState(g: int): (r: bool)
      reads this, state
      ensures r <==> g in KeySet(state.guilds)
    {
      Dicts.Get(state.guilds, g).Some?
    }

    /** `sync_guilds`: with nothing configured the managed guilds are
        cleared and every joined guild may be prompted; otherwise the
        configured guilds are resolved and become the managed ones, the ids
        that were managed and no longer are become `_removed_ids`, and the
        joined guilds that are not configured may be prompted. Returns a
        snapshot of the managed guilds. */
    method SyncGuilds(fetch: FetchOracle, sends: SendOracle) returns (snapshot: Dict<int, Guild>)
      requires Valid()
      modifies this, state, bot
      ensures Valid() && snapshot == state.guilds
      ensures bot.cache == old(bot.cache) && bot.joined == old(bot.joined) && bot.hasUser == old(bot.hasUser)
      ensures bot.extensions == old(bot.extensions) && bot.coglist == old(bot.coglist)
      ensures store.guilds == [] ==>
        && state.guilds == [] && removedIds == old(removedIds) && bot.fetches == old(bot.fetches)
        && Prompting(activeInvites, prompts)
             == PromptAll(Prompting(old(activeInvites), old(prompts)), {}, store.suppressed, bot.hasUser, bot.joined, sends)
      ensures store.guilds != [] ==>
        var c := Collected(old(bot.cache), fetch, store.guilds);
        && state.guilds == c.resolved
        && removedIds == KeySet(old(state.guilds)) - KeySet(c.resolved)
        && bot.fetches == old(bot.fetches) + Fetches(old(bot.cache), Values(store.guilds))
        && Prompting(activeInvites, prompts)
             == PromptAll(Prompting(old(activeInvites), old(prompts)), KeySet(c.resolved), store.suppressed, bot.hasUser,
                          Unmanaged(bot.joined, Values(store.guilds)), sends)
      ensures commandSyncs == old(commandSyncs)
    {
      if store.guilds == [] {
        state.Clear();
        assert KeySet(state.guilds) == {};
        PromptUnmanaged(bot.joined, sends);
        return state.Snapshot();
      }
      var previous := KeySet(state.guilds);
      var result := collector.Collect(store.guilds, fetch);
      state.Replace(result.resolved);
      removedIds := previous - KeySet(result.resolved);
      var unmanaged := collector.ReportUnmanaged(Values(store.guilds));
      PromptUnmanaged(unmanaged, sends);
      snapshot := state.Snapshot();
    }

    /** `add_guild`: stores the managed guild, or the resolved one, after
        registering it when `persist` is set; on success clears its invite
        mark and syncs its commands; on failure changes nothing of the
        managed guilds. */
    method AddGuild(g: int, alias: Option<string>, persist: bool, overwrite: bool, fetch: FetchOracle) returns (ok: bool)
      requires Valid()
      modifies this, state, store, bot
      ensures Valid()
      ensures var added := AddedGuild(Dicts.Get(old(state.guilds), g), old(bot.cache), fetch, g, old(store.guilds), alias, persist, overwrite);
        && ok == added.Some?
        && (ok ==> state.guilds == Put(old(state.guilds), g, added.value)
                   && activeInvites == old(activeInvites) - {g} && commandSyncs == old(commandSyncs) + [g])
        && (!ok ==> state.guilds == old(state.guilds) && activeInvites == old(activeInvites) && commandSyncs == old(commandSyncs))
      ensures removedIds == old(removedIds) && prompts == old(prompts)
      ensures store.guilds == AddedAliases(Dicts.Get(old(state.guilds), g), old(bot.cache), fetch, g, old(store.guilds), alias, persist, overwrite)
      ensures store.rules == old(store.rules) && store.ruleWrites == old(store.ruleWrites)
      ensures bot.cache == old(bot.cache) && bot.joined == old(bot.joined)
    {
      var guild := Acquire(g, alias, persist, overwrite, fetch);
      if guild.None? {
        return false;
      }
      state.Update(g, guild.value);
      MarkInviteComplete(g);
      commandSyncs := commandSyncs + [g];
      return true;
    }

    /** The lookup and registration steps of `add_guild`: the guild to
        store, None when `add_guild` fails. */
    method Acquire(g: int, alias: Option<string>, persist: bool, overwrite: bool, fetch: FetchOracle) returns (guild: Option<Guild>)
      requires Valid()
      modifies store, bot
      ensures Valid()
      ensures guild == AddedGuild(Dicts.Get(state.guilds, g), old(bot.cache), fetch, g, old(store.guilds), alias, persist, overwrite)
      ensures store.guilds == AddedAliases(Dicts.Get(state.guilds, g), old(bot.cache), fetch, g, old(store.guilds), alias, persist, overwrite)
      ensures store.rules == old(store.rules) && store.ruleWrites == old(store.ruleWrites)
      ensures bot.cache == old(bot.cache) && bot.joined == old(bot.joined)
    {
      guild := state.Get(g);
      if guild.Some? {
        guild := Confirm(guild.value, alias, persist, overwrite);
      } else {
        guild := Lookup(g, alias, persist, overwrite, fetch);
      }
    }

    /** `add_guild` for a managed guild: registered again when `persist`
        is set. */
    method Confirm(known: Guild, alias: Option<string>, persist: bool, overwrite: bool) returns (guild: Option<Guild>)
      requires Valid()
      modifies store
      ensures Valid()
      ensures guild == if persist && !Accepts(old(store.guilds), PreferredName(alias, known.name), known.id, overwrite) then None else Some(known)
      ensures store.guilds == if persist then Registered(old(store.guilds), PreferredName(alias, known.name), known.id, overwrite) else old(store.guilds)
      ensures store.rules == old(store.rules) && store.ruleWrites == old(store.ruleWrites)
    {
      guild := Some(known);
      if persist {
        var registered := registrar.RegisterGuild(known, alias, overwrite);
        if !registered {
          guild := None;
        }
      }
    }

    /** `add_guild` for a guild not managed yet: resolved, and registered
        when `persist` is set. */
    method Lookup(g: int, alias: Option<string>, persist: bool, overwrite: bool, fetch: FetchOracle) returns (guild: Option<Guild>)
      requires Valid()
      modifies store, bot
      ensures Valid()
      ensures var found := Resolve(old(bot.cache), fetch, g);
        guild == if found.None? || (persist && !Accepts(old(store.guilds), PreferredName(alias, found.value.name), found.value.id, overwrite))
                 then None else found
      ensures var found := Resolve(old(bot.cache), fetch, g);
        store.guilds == if persist && found.Some? then Registered(old(store.guilds), PreferredName(alias, found.value.name), found.value.id, overwrite)
                        else old(store.guilds)
      ensures store.rules == old(store.rules) && store.ruleWrites == old(store.ruleWrites)
      ensures bot.cache == old(bot.cache) && bot.joined == old(bot.joined)
    {
      if persist {
        guild := registrar.AddGuildById(g, alias, overwrite, fetch);
      } else {
        guild := collector.ResolveSingle(g, alias, fetch);
      }
    }
  }

  // ---------------------------------------------------------------------
  // Properties

  /** `LowestUsable` finds a usable channel exactly when there is one, and
      then the one of lowest position that comes first among those of that
      position. */
  lemma {:induction false} LowestUsableSpec(cs: seq<Channel>)
    ensures var r := LowestUsable(cs);
      && (r.None? <==> forall j :: 0 <= j < |cs| ==> !Usable(cs[j]))
      && (r.Some? ==> exists i :: 0 <= i < |cs| && cs[i] == r.value && Usable(cs[i])
                        && (forall j :: 0 <= j < |cs| && Usable(cs[j]) ==> r.value.position <= cs[j].position)
                        && (forall j :: 0 <= j < i && Usable(cs[j]) ==> r.value.position < cs[j].position))
  {
    if cs != [] {
      var tail := cs[1..];
      LowestUsableSpec(tail);
      var rest := LowestUsable(tail);
      assert forall j :: 1 <= j < |cs| ==> cs[j] == tail[j - 1];
      if Usable(cs[0]) && (rest.None? || cs[0].position <= rest.value.position) {
        assert cs[0] == LowestUsable(cs).value;
      } else if rest.Some? {
        var i :| 0 <= i < |tail| && tail[i] == rest.value && Usable(tail[i])
          && (forall j :: 0 <= j < |tail| && Usable(tail[j]) ==> rest.value.position <= tail[j].position)
          && (forall j :: 0 <= j < i && Usable(tail[j]) ==> rest.value.position < tail[j].position);
        assert cs[i + 1] == rest.value;
      }
    }
  }

  /** The channel of a prompt: none without a bot user or member; the
      system channel whenever the bot may send there; else a usable text
      channel. */
  lemma SelectChannelSpec(hasUser: bool, guild: Guild)
    ensures var r := SelectChannel(hasUser, guild);
      && (!hasUser || !guild.botMember ==> r.None?)
      && (hasUser && guild.botMember && guild.systemChannel.Some? && guild.systemChannel.value.canSend ==> r == guild.systemChannel)
      && (r.Some? && r != guild.systemChannel ==> r.value in guild.textChannels && Usable(r.value))
      && (hasUser && guild.botMember && (guild.systemChannel.None? || !guild.systemChannel.value.canSend) ==>
            (r.None? <==> forall c :: c in guild.textChannels ==> !Usable(c)))
  {
    LowestUsableSpec(guild.textChannels);
  }

  /** Prompting only adds invite marks, and a guild ends up marked exactly
      when it was marked before or it is one of the guilds, may be prompted,
      and its prompt was sent. */
  lemma {:induction false} PromptAllInvites(p: Prompting, managed: set<int>, suppressed: set<string>, hasUser: bool, gs: seq<Guild>, sends: SendOracle, g: int)
    ensures var r := PromptAll(p, managed, suppressed, hasUser, gs, sends);
      g in r.invites <==>
        g in p.invites
        || exists i :: 0 <= i < |gs| && gs[i].id == g && Promptable(managed, suppressed, hasUser, gs[i]) && SendFor(sends, g) == Sent
  {
    if gs != [] {
      var init, last := gs[..|gs| - 1], gs[|gs| - 1];
      PromptAllInvites(p, managed, suppressed, hasUser, init, sends, g);
      var prev := PromptAll(p, managed, suppressed, hasUser, init, sends);
      if exists i :: 0 <= i < |init| && init[i].id == g && Promptable(managed, suppressed, hasUser, init[i]) && SendFor(sends, g) == Sent {
        var i :| 0 <= i < |init| && init[i].id == g && Promptable(managed, suppressed, hasUser, init[i]) && SendFor(sends, g) == Sent;
        assert gs[i] == init[i];
      }
      if exists i :: 0 <= i < |gs| && gs[i].id == g && Promptable(managed, suppressed, hasUser, gs[i]) && SendFor(sends, g) == Sent {
        var i :| 0 <= i < |gs| && gs[i].id == g && Promptable(managed, suppressed, hasUser, gs[i]) && SendFor(sends, g) == Sent;
        if i < |init| {
          assert init[i] == gs[i];
        }
      }
    }
  }

  /** `sent` is a prompt to `guild`, which may be prompted and was not
      marked, in the channel chosen for it. */
  predicate PromptedTo(managed: set<int>, suppressed: set<string>, hasUser: bool, guild: Guild, invites: set<int>, sent: (int, int)) {
    Promptable(managed, suppressed, hasUser, guild) && guild.id !in invites
    && sent == (guild.id, SelectChannel(hasUser, guild).value.id)
  }

  /** `sent` is a prompt to one of the guilds `gs`. */
  predicate PromptedAmong(managed: set<int>, suppressed: set<string>, hasUser: bool, gs: seq<Guild>, invites: set<int>, sent: (int, int)) {
    exists guild :: guild in gs && PromptedTo(managed, suppressed, hasUser, guild, invites, sent)
  }

  /** Every prompt goes to a guild that may be prompted, in its chosen
      channel, and no guild is prompted while it is marked. */
  lemma {:induction false} PromptAllSent(p: Prompting, managed: set<int>, suppressed: set<string>, hasUser: bool, gs: seq<Guild>, sends: SendOracle)
    ensures var r := PromptAll(p, managed, suppressed, hasUser, gs, sends);
      && |p.sent| <= |r.sent| && r.sent[..|p.sent|] == p.sent
      && p.invites <= r.invites
      && forall j :: |p.sent| <= j < |r.sent| ==> PromptedAmong(managed, suppressed, hasUser, gs, p.invites, r.sent[j])
  {
    if gs != [] {
      var init, last := gs[..|gs| - 1], gs[|gs| - 1];
      PromptAllSent(p, managed, suppressed, hasUser, init, sends);
      var prev := PromptAll(p, managed, suppressed, hasUser, init, sends);
      var r := PromptOne(prev, managed, suppressed, hasUser, last, sends);
      assert r.sent[..|p.sent|] == prev.sent[..|p.sent|];
      forall j | |p.sent| <= j < |r.sent|
        ensures PromptedAmong(managed, suppressed, hasUser, gs, p.invites, r.sent[j])
      {
        if j < |prev.sent| {
          assert r.sent[j] == prev.sent[j];
          assert PromptedAmong(managed, suppressed, hasUser, init, p.invites, prev.sent[j]);
          var guild :| guild in init && PromptedTo(managed, suppressed, hasUser, guild, p.invites, prev.sent[j]);
          assert guild in gs;
        } else {
          assert r != prev && last in gs && last.id !in prev.invites;
          assert r.sent[j] == (last.id, SelectChannel(hasUser, last).value.id);
        }
      }
    }
  }

  /** A guild that is already managed is stored as it is without
      persisting, and persisting only ever stores the same guild. */
  lemma AddedGuildCases(known: Option<Guild>, cache: map<int, Guild>, fetch: FetchOracle, g: int,
                        aliases: Dict<string, int>, alias: Option<string>, persist: bool, overwrite: bool)
    ensures var r := AddedGuild(known, cache, fetch, g, aliases, alias, persist, overwrite);
      && (known.Some? && !persist ==> r == known)
      && (known.None? ==> (r.Some? ==> r == Resolve(cache, fetch, g)) && (Resolve(cache, fetch, g).None? ==> r.None?))
      && (known.Some? && persist ==> (r.Some? <==> Accepts(aliases, PreferredName(alias, known.value.name), known.value.id, overwrite)))
      && (r.Some? ==> r == known || r == Resolve(cache, fetch, g))
  {
  }

  /** After `add_guild` with `persist`, the guild it goes on with is the one
      its preferred name is bound to; without `persist`, or when it fails,
      the alias table is as it was. */
  lemma AddedAliasesBind(known: Option<Guild>, cache: map<int, Guild>, fetch: FetchOracle, g: int,
                         aliases: Dict<string, int>, alias: Option<string>, persist: bool, overwrite: bool)
    requires Wf(aliases)
    ensures var r := AddedGuild(known, cache, fetch, g, aliases, alias, persist, overwrite);
      var after := AddedAliases(known, cache, fetch, g, aliases, alias, persist, overwrite);
      && Wf(after)
      && (persist && r.Some? ==> Get(after, PreferredName(alias, r.value.name)) == Some(r.value.id))
      && (!persist || r.None? ==> after == aliases)
  {
    var guild := if known.Some? then known else Resolve(cache, fetch, g);
    var r := AddedGuild(known, cache, fetch, g, aliases, alias, persist, overwrite);
    var after := AddedAliases(known, cache, fetch, g, aliases, alias, persist, overwrite);
    if persist && guild.Some? {
      var n, id := PreferredName(alias, guild.value.name), guild.value.id;
      assert r == if Accepts(aliases, n, id, overwrite) then guild else None;
      assert after == Registered(aliases, n, id, overwrite);
      RegisteredBinds(aliases, n, id, overwrite);
    } else {
      assert after == aliases;
    }
  }

  /** A registration keeps the table well formed, and an accepted one
      leaves the name bound to the id. */
  lemma RegisteredBinds(aliases: Dict<string, int>, n: string, g: int, overwrite: bool)
    requires Wf(aliases)
    ensures Wf(Registered(aliases, n, g, overwrite))
    ensures Accepts(aliases, n, g, overwrite) ==> Get(Registered(aliases, n, g, overwrite), n) == Some(g)
    ensures !Accepts(aliases, n, g, overwrite) ==> Registered(aliases, n, g, overwrite) == aliases
  {
    if Accepts(aliases, n, g, overwrite) {
      AcceptedBinds(aliases, n, g, overwrite);
    }
  }
}
