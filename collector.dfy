/** `ConfiguredGuildsCollector` of `syncGuilds/modules/collector.py`: turns
    the configured guild ids into guilds, from the bot's cache or by
    fetching them. */
module Collector {
  import opened Wrappers
  import opened Sorting
  import opened Dicts
  import opened Platform

  /** What `fetch_guild` answers for each guild id; an id not listed is
      answered with `NotFound`. */
  type FetchOracle = map<int, FetchOutcome>

  function FetchFor(fetch: FetchOracle, g: int): FetchOutcome {
    if g in fetch then fetch[g] else NotFound
  }

  /** `_resolve_guild`: the cached guild, else the fetched one; every
      fetch error gives None. */
  function Resolve(cache: map<int, Guild>, fetch: FetchOracle, g: int): (r: Option<Guild>)
    ensures g in cache ==> r == Some(cache[g])
    ensures g !in cache ==> (r.Some? <==> FetchFor(fetch, g).Fetched?)
  {
    if g in cache then Some(cache[g])
    else match FetchFor(fetch, g)
      case Fetched(guild) => Some(guild)
      case _ => None
  }

  /** `CollectionResult` */
  datatype Collection = Collection(resolved: Dict<int, Guild>, missing: seq<(string, int)>)

  /** One pair of the loop of `collect`. */
  function CollectStep(prev: Collection, cache: map<int, Guild>, fetch: FetchOracle, p: (string, int)): (r: Collection)
    requires Wf(prev.resolved)
    ensures Wf(r.resolved)
  {
    match Resolve(cache, fetch, p.1)
    case None => Collection(prev.resolved, prev.missing + [p])
    case Some(guild) => Collection(Put(prev.resolved, p.1, guild), prev.missing)
  }

  /** The loop of `collect` over the configured (alias, id) pairs. */
  function Collected(cache: map<int, Guild>, fetch: FetchOracle, configured: seq<(string, int)>): (r: Collection)
    ensures Wf(r.resolved)
  {
    if configured == [] then Collection([], [])
    else CollectStep(Collected(cache, fetch, configured[..|configured| - 1]), cache, fetch, configured[|configured| - 1])
  }

  /** The ids `collect` fetches: those not in the cache, in order. */
  function Fetches(cache: map<int, Guild>, ids: seq<int>): (r: seq<int>)
  {
    if ids == [] then []
    else Fetches(cache, ids[..|ids| - 1]) + if ids[|ids| - 1] in cache then [] else [ids[|ids| - 1]]
  }

  /** `report_unmanaged`: the joined guilds whose id is not configured, in
      the bot's order. */
  function Unmanaged(joined: seq<Guild>, configuredIds: seq<int>): seq<Guild> {
    Filter(joined, (guild: Guild) => guild.id !in configuredIds)
  }

  class ConfiguredGuildsCollector {
    const bot: Bot

    constructor (bot: Bot)
      ensures this.bot == bot
    {
      this.bot := bot;
    }

    /** `_resolve_guild`: a cache hit is returned without fetching. */
    method ResolveGuild(g: int, fetch: FetchOracle) returns (r: Option<Guild>)
      modifies bot
      ensures r == Resolve(old(bot.cache), fetch, g)
      ensures bot.fetches == old(bot.fetches) + if g in old(bot.cache) then [] else [g]
      ensures bot.hasUser == old(bot.hasUser) && bot.cache == old(bot.cache) && bot.joined == old(bot.joined)
      ensures bot.extensions == old(bot.extensions) && bot.coglist == old(bot.coglist)
    {
      var cached := bot.GetGuild(g);
      if cached.Some? {
        return cached;
      }
      var outcome := bot.FetchGuild(g, FetchFor(fetch, g));
      r := if outcome.Fetched? then Some(outcome.guild) else None;
    }

    /** `collect`: each configured guild in order, into `resolved` or
        `missing`. */
    method Collect(configured: Dict<string, int>, fetch: FetchOracle) returns (r: Collection)
      modifies bot
      ensures r == Collected(old(bot.cache), fetch, configured)
      ensures bot.fetches == old(bot.fetches) + Fetches(old(bot.cache), Values(configured))
      ensures bot.hasUser == old(bot.hasUser) && bot.cache == old(bot.cache) && bot.joined == old(bot.joined)
      ensures bot.extensions == old(bot.extensions) && bot.coglist == old(bot.coglist)
    {
      var resolved: Dict<int, Guild>, missing: seq<(string, int)> := [], [];
      ghost var cache, log := bot.cache, bot.fetches;
      for i := 0 to |configured|
        invariant Collection(resolved, missing) == Collected(cache, fetch, configured[..i])
        invariant bot.fetches == log + Fetches(cache, Values(configured)[..i])
        invariant bot.hasUser == old(bot.hasUser) && bot.cache == cache && bot.joined == old(bot.joined)
        invariant bot.extensions == old(bot.extensions) && bot.coglist == old(bot.coglist)
      {
        var name, g := configured[i].0, configured[i].1;
        CollectSnoc(cache, fetch, configured, i);
        ghost var before := bot.fetches;
        var guild := ResolveGuild(g, fetch);
        AppendAssoc(log, Fetches(cache, Values(configured)[..i]), bot.fetches[|before|..]);
        if guild.None? {
          missing := missing + [(name, g)];
        } else {
          resolved := Put(resolved, g, guild.value);
        }
      }
      assert configured[..|configured|] == configured;
      assert Values(configured)[..|configured|] == Values(configured);
      r := Collection(resolved, missing);
    }

    /** `resolve_single`: `_resolve_guild`; the label only names the guild
        in the log. */
    method ResolveSingle(g: int, given: Option<string>, fetch: FetchOracle) returns (r: Option<Guild>)
      modifies bot
      ensures r == Resolve(old(bot.cache), fetch, g)
      ensures bot.fetches == old(bot.fetches) + if g in old(bot.cache) then [] else [g]
      ensures bot.hasUser == old(bot.hasUser) && bot.cache == old(bot.cache) && bot.joined == old(bot.joined)
      ensures bot.extensions == old(bot.extensions) && bot.coglist == old(bot.coglist)
    {
      r := ResolveGuild(g, fetch);
    }

    /** `report_unmanaged` on the bot's joined guilds. */
    function ReportUnmanaged(configuredIds: seq<int>): seq<Guild>
      reads bot
    {
      Unmanaged(bot.joined, configuredIds)
    }
  }

  // ---------------------------------------------------------------------
  // Properties of collection

  lemma AppendAssoc<T>(a: seq<T>, b: seq<T>, c: seq<T>)
    ensures (a + b) + c == a + (b + c)
  {
  }

  lemma CollectSnoc(cache: map<int, Guild>, fetch: FetchOracle, configured: seq<(string, int)>, i: nat)
    requires i < |configured|
    ensures Collected(cache, fetch, configured[..i + 1]) == CollectStep(Collected(cache, fetch, configured[..i]), cache, fetch, configured[i])
    ensures Fetches(cache, Values(configured)[..i + 1])
      == Fetches(cache, Values(configured)[..i]) + if configured[i].1 in cache then [] else [configured[i].1]
  {
    assert configured[..i + 1][..i] == configured[..i];
    assert Values(configured)[..i + 1][..i] == Values(configured)[..i];
  }

  /** `missing` is the configured pairs whose guild could not be resolved,
      in configuration order. */
  lemma {:induction false} CollectedMissing(cache: map<int, Guild>, fetch: FetchOracle, configured: seq<(string, int)>)
    ensures Collected(cache, fetch, configured).missing
      == Filter(configured, (p: (string, int)) => Resolve(cache, fetch, p.1).None?)
  {
    if configured != [] {
      CollectedMissing(cache, fetch, configured[..|configured| - 1]);
    }
  }

  /** `resolved` maps exactly the configured ids that could be resolved, each
      to its resolved guild. */
  lemma {:induction false} CollectedResolved(cache: map<int, Guild>, fetch: FetchOracle, configured: seq<(string, int)>, g: int)
    ensures Get(Collected(cache, fetch, configured).resolved, g)
      == if g in Values(configured) then Resolve(cache, fetch, g) else None
  {
    if configured != [] {
      var init, p := configured[..|configured| - 1], configured[|configured| - 1];
      CollectedResolved(cache, fetch, init, g);
      assert Values(configured) == Values(init) + [p.1];
      var prev := Collected(cache, fetch, init);
      if Resolve(cache, fetch, p.1).Some? {
        PutGet(prev.resolved, p.1, Resolve(cache, fetch, p.1).value, g);
      }
    }
  }

  /** Each configured pair lands in exactly one of the two buckets. */
  lemma CollectedPartition(cache: map<int, Guild>, fetch: FetchOracle, configured: seq<(string, int)>, p: (string, int))
    requires p in configured
    ensures var r := Collected(cache, fetch, configured);
      p in r.missing <==> p.1 !in Keys(r.resolved)
  {
    CollectedMissing(cache, fetch, configured);
    FilterMembers(configured, (q: (string, int)) => Resolve(cache, fetch, q.1).None?);
    CollectedResolved(cache, fetch, configured, p.1);
    var i :| 0 <= i < |configured| && configured[i] == p;
    assert Values(configured)[i] == p.1;
  }

  /** An id in the cache is never fetched. */
  lemma {:induction false} FetchesSkipCache(cache: map<int, Guild>, ids: seq<int>)
    ensures forall g :: g in Fetches(cache, ids) <==> g in ids && g !in cache
  {
    if ids != [] {
      var init := ids[..|ids| - 1];
      FetchesSkipCache(cache, init);
      assert ids == init + [ids[|ids| - 1]];
    }
  }

  /** `report_unmanaged` returns exactly the joined guilds that are not
      configured, and nothing when every joined guild is configured. */
  lemma UnmanagedMembers(joined: seq<Guild>, configuredIds: seq<int>)
    ensures forall guild :: guild in Unmanaged(joined, configuredIds) <==> guild in joined && guild.id !in configuredIds
    ensures Unmanaged(joined, configuredIds) == [] <==> forall guild :: guild in joined ==> guild.id in configuredIds
  {
    FilterMembers(joined, (guild: Guild) => guild.id !in configuredIds);
    FilterEmptyIff(joined, (guild: Guild) => guild.id !in configuredIds);
  }
}
