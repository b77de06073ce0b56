/** `ConfiguredGuildRegistrar` of `syncGuilds/modules/registrar.py`: writes
    a guild into the alias table, turning the store's errors into `false`. */
module Registrar {
  import opened Wrappers
  import opened Text
  import opened Dicts
  import opened Platform
  import opened ScopeStore
  import opened Collector

  /** `(alias or guild.name).strip()` */
  function PreferredName(alias: Option<string>, guildName: string): string {
    Strip(if alias.Some? && alias.value != "" then alias.value else guildName)
  }

  /** The store binds alias `n` to `g`: `n` is not blank and is unbound, or
      bound to another id with `overwrite`. */
  predicate Binds(guilds: Dict<string, int>, n: string, g: int, overwrite: bool) {
    n != [] && (Get(guilds, n).None? || (Get(guilds, n) != Some(g) && overwrite))
  }

  /** `register_guild` of the registrar succeeds: the store bound the alias,
      or it was already bound to `g`. */
  predicate Accepts(guilds: Dict<string, int>, n: string, g: int, overwrite: bool) {
    Binds(guilds, n, g, overwrite) || (n != [] && Get(guilds, n) == Some(g))
  }

  class ConfiguredGuildRegistrar {
    const collector: ConfiguredGuildsCollector
    const store: Store

    constructor (collector: ConfiguredGuildsCollector, store: Store)
      ensures this.collector == collector && this.store == store
    {
      this.collector := collector;
      this.store := store;
    }

    /** `register_guild`: false for a blank preferred name, without asking
        the store; false when the store raises; true when the store bound
        the alias or found it already bound to the guild. */
    method RegisterGuild(guild: Guild, alias: Option<string>, overwrite: bool) returns (ok: bool)
      requires store.Valid()
      modifies store
      ensures store.Valid()
      ensures var n := PreferredName(alias, guild.name);
        ok == Accepts(old(store.guilds), n, guild.id, overwrite)
      ensures var n := PreferredName(alias, guild.name);
        if Binds(old(store.guilds), n, guild.id, overwrite) then
          && store.guilds == Put(old(store.guilds), n, guild.id)
          && store.suppressed == old(store.suppressed) - {IdStr(guild.id)}
          && store.guildWrites == old(store.guildWrites) + 1
          && store.suppressedWrites == old(store.suppressedWrites) + if IdStr(guild.id) in old(store.suppressed) then 1 else 0
        else
          && store.guilds == old(store.guilds) && store.suppressed == old(store.suppressed)
          && store.guildWrites == old(store.guildWrites) && store.suppressedWrites == old(store.suppressedWrites)
      ensures store.rules == old(store.rules) && store.ruleWrites == old(store.ruleWrites)
    {
      var n := PreferredName(alias, guild.name);
      if n == [] {
        return false;
      }
      StripIdempotent(if alias.Some? && alias.value != "" then alias.value else guild.name);
      var r := store.RegisterGuild(n, guild.id, overwrite);
      ok := r.Success?;
    }

    /** `add_guild_by_id`: resolves the guild, then registers it; None when
        either step fails. */
    method AddGuildById(g: int, alias: Option<string>, overwrite: bool, fetch: FetchOracle) returns (r: Option<Guild>)
      requires store.Valid()
      modifies collector.bot, store
      ensures store.Valid()
      ensures var found := Resolve(old(collector.bot.cache), fetch, g);
        && (found.None? ==> r.None? && store.guilds == old(store.guilds) && store.suppressed == old(store.suppressed))
        && (found.Some? ==>
              var n := PreferredName(alias, found.value.name);
              r == (if Accepts(old(store.guilds), n, found.value.id, overwrite) then found else None)
              && store.guilds == (if Binds(old(store.guilds), n, found.value.id, overwrite) then Put(old(store.guilds), n, found.value.id) else old(store.guilds)))
      ensures collector.bot.fetches == old(collector.bot.fetches) + if g in old(collector.bot.cache) then [] else [g]
      ensures collector.bot.cache == old(collector.bot.cache) && collector.bot.joined == old(collector.bot.joined)
      ensures collector.bot.hasUser == old(collector.bot.hasUser)
      ensures collector.bot.extensions == old(collector.bot.extensions) && collector.bot.coglist == old(collector.bot.coglist)
      ensures store.rules == old(store.rules) && store.ruleWrites == old(store.ruleWrites)
    {
      var guild := collector.ResolveSingle(g, alias, fetch);
      if guild.None? {
        return None;
      }
      var ok := RegisterGuild(guild.value, alias, overwrite);
      if !ok {
        return None;
      }
      return guild;
    }
  }

  // ---------------------------------------------------------------------
  // Properties of registration

  /** A blank preferred name is refused, a name already bound to the guild
      is accepted without change, and a name bound to another guild is
      accepted only with `overwrite`. */
  lemma AcceptsCases(guilds: Dict<string, int>, n: string, g: int, overwrite: bool)
    ensures n == [] ==> !Accepts(guilds, n, g, overwrite)
    ensures n != [] && Get(guilds, n) == Some(g) ==> Accepts(guilds, n, g, overwrite) && !Binds(guilds, n, g, overwrite)
    ensures n != [] && Get(guilds, n).Some? && Get(guilds, n) != Some(g) ==> (Accepts(guilds, n, g, overwrite) <==> overwrite)
    ensures n != [] && Get(guilds, n).None? ==> Binds(guilds, n, g, overwrite)
  {
  }

  /** After an accepted registration the preferred name is bound to the
      guild. */
  lemma AcceptedBinds(guilds: Dict<string, int>, n: string, g: int, overwrite: bool)
    requires Wf(guilds) && Accepts(guilds, n, g, overwrite)
    ensures var after := if Binds(guilds, n, g, overwrite) then Put(guilds, n, g) else guilds;
      Get(after, n) == Some(g)
  {
    if Binds(guilds, n, g, overwrite) {
      PutGet(guilds, n, g, n);
    }
  }

  /** The preferred name has no surrounding whitespace, and it is blank
      exactly when the alias (or, without one, the guild name) is. */
  lemma PreferredNameStripped(alias: Option<string>, guildName: string)
    ensures var n := PreferredName(alias, guildName);
      && Strip(n) == n
      && (n == [] <==> AllSpace(if alias.Some? && alias.value != "" then alias.value else guildName))
  {
    StripIdempotent(if alias.Some? && alias.value != "" then alias.value else guildName);
    StripEmptyIff(if alias.Some? && alias.value != "" then alias.value else guildName);
  }
}
