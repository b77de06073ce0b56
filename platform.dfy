/** The parts of Discord and of the `commands.Bot` object that the engine
    reads or calls. Every network call is a method whose outcome is a
    parameter, recorded in a ghost log. */
module Platform {
  import opened Wrappers
  import opened Sorting

  /** A text channel and what the bot's member may do in it. */
  datatype Channel = Channel(id: int, position: int, canSend: bool, canView: bool)

  /** A guild as the engine sees it. `botMember` says whether `guild.me or
      guild.get_member(bot.user.id)` finds the bot's member. */
  datatype Guild = Guild(
    id: int,
    name: string,
    botMember: bool,
    systemChannel: Option<Channel>,
    textChannels: seq<Channel>)

  /** What `bot.fetch_guild` does: returns the guild or raises `Forbidden`,
      `NotFound` or another `HTTPException`. */
  datatype FetchOutcome = Fetched(guild: Guild) | Forbidden | NotFound | HttpError

  /** What `channel.send` does. */
  datatype SendOutcome = Sent | SendForbidden | SendHttpError

  /** What `bot.load_extension`, `reload_extension` and `unload_extension`
      do: succeed or raise one of the extension errors. */
  datatype LoadOutcome =
    | LoadOk
    | ExtensionNotLoaded
    | ExtensionAlreadyLoaded
    | ExtensionNotFound
    | NoEntryPoint
    | ExtensionFailed
    | OtherError

  class Bot {
    /** `bot.user is not None` */
    var hasUser: bool
    /** `bot.get_guild`: the guild cache. */
    var cache: map<int, Guild>
    /** `bot.guilds`: the joined guilds, in the client's order. */
    var joined: seq<Guild>
    /** `bot.extensions.keys()`, in load order. */
    var extensions: seq<string>
    /** `bot.coglist`: the configured extensions. */
    var coglist: seq<string>
    /** The ids passed to `fetch_guild`, in call order. */
    ghost var fetches: seq<int>

    ghost predicate Valid()
      reads this
    {
      Distinct(extensions)
    }

    constructor (hasUser: bool, cache: map<int, Guild>, joined: seq<Guild>, extensions: seq<string>, coglist: seq<string>)
      requires Distinct(extensions)
      ensures Valid()
      ensures this.hasUser == hasUser && this.cache == cache && this.joined == joined
      ensures this.extensions == extensions && this.coglist == coglist && fetches == []
    {
      this.hasUser, this.cache, this.joined := hasUser, cache, joined;
      this.extensions, this.coglist := extensions, coglist;
      fetches := [];
    }

    /** `bot.get_guild` */
    function GetGuild(g: int): Option<Guild>
      reads this
    {
      if g in cache then Some(cache[g]) else None
    }

    /** `await bot.fetch_guild(g)`; the answer is `outcome`. */
    method FetchGuild(g: int, outcome: FetchOutcome) returns (r: FetchOutcome)
      modifies this
      ensures r == outcome
      ensures fetches == old(fetches) + [g]
      ensures hasUser == old(hasUser) && cache == old(cache) && joined == old(joined)
      ensures extensions == old(extensions) && coglist == old(coglist)
    {
      fetches := fetches + [g];
      r := outcome;
    }

    /** `bot.load_extension(e)`; on success `e` is loaded. */
    method LoadExtension(e: string, outcome: LoadOutcome) returns (r: LoadOutcome)
      requires Valid()
      modifies this
      ensures Valid()
      ensures r == outcome
      ensures extensions == if outcome == LoadOk && e !in old(extensions) then old(extensions) + [e] else old(extensions)
      ensures hasUser == old(hasUser) && cache == old(cache) && joined == old(joined)
      ensures coglist == old(coglist) && fetches == old(fetches)
    {
      r := outcome;
      if outcome == LoadOk && e !in extensions {
        extensions := extensions + [e];
      }
    }

    /** `bot.reload_extension(e)`; the extension stays loaded whatever the
        outcome, since a failed reload keeps the old module. */
    method ReloadExtension(e: string, outcome: LoadOutcome) returns (r: LoadOutcome)
      modifies this
      ensures r == outcome
      ensures extensions == old(extensions)
      ensures hasUser == old(hasUser) && cache == old(cache) && joined == old(joined)
      ensures coglist == old(coglist) && fetches == old(fetches)
    {
      r := outcome;
    }

    /** `bot.unload_extension(e)`; on success `e` is no longer loaded. */
    method UnloadExtension(e: string, outcome: LoadOutcome) returns (r: LoadOutcome)
      requires Valid()
      modifies this
      ensures Valid()
      ensures r == outcome
      ensures extensions == if outcome == LoadOk then Omit(old(extensions), e) else old(extensions)
      ensures hasUser == old(hasUser) && cache == old(cache) && joined == old(joined)
      ensures coglist == old(coglist) && fetches == old(fetches)
    {
      r := outcome;
      if outcome == LoadOk {
        OmitDistinct(extensions, e);
        extensions := Omit(extensions, e);
      }
    }
  }

  /** `s` without `x`, in order. */
  function Omit(s: seq<string>, x: string): (r: seq<string>)
    ensures forall y :: y in r <==> y in s && y != x
  {
    if s == [] then []
    else
      var rest := Omit(s[..|s| - 1], x);
      assert s == s[..|s| - 1] + [s[|s| - 1]];
      if s[|s| - 1] == x then rest else rest + [s[|s| - 1]]
  }

  lemma {:induction false} OmitDistinct(s: seq<string>, x: string)
    requires Distinct(s)
    ensures Distinct(Omit(s, x))
  {
    if s != [] {
      var init := s[..|s| - 1];
      assert Distinct(init);
      OmitDistinct(init, x);
      assert s[|s| - 1] !in init;
    }
  }
}
