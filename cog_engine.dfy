/** `SyncCogEngine` of `syncCog/main.py`: lists the bot's extensions and
    loads, reloads or unloads one, resyncing the managed guilds' commands
    after every change that succeeded. */
module CogEngine {
  import opened Wrappers
  import opened Text
  import opened Sorting
  import opened Dicts
  import opened Platform
  import opened Remote
  import opened SyncStates
  import opened Synchroniser
  import opened CommandsEngine
  import opened GuildEngine

  // ---------------------------------------------------------------------
  // Extension lists

  /** `list_loaded_extensions`: the loaded extensions, sorted. */
  function LoadedList(extensions: seq<string>): (r: seq<string>)
    ensures SortedBy(r, x => x) && multiset(r) == multiset(extensions)
  {
    SortStrings(extensions)
  }

  /** `list_known_extensions`: every loaded or configured extension, once,
      in increasing order. */
  function KnownList(extensions: seq<string>, coglist: seq<string>): (r: seq<string>)
    ensures StrictlySorted(r)
    ensures forall x :: x in r <==> x in extensions || x in coglist
  {
    var loaded := LoadedList(extensions);
    forall x ensures x in loaded <==> x in extensions {
      assert x in loaded <==> x in multiset(loaded);
    }
    SortedUnique(loaded + Dedup(coglist))
  }

  /** `list_unloaded_extensions`: the known extensions that are not
      loaded, in the same order. */
  function UnloadedList(extensions: seq<string>, coglist: seq<string>): (r: seq<string>)
    ensures StrictlySorted(r)
    ensures forall x :: x in r <==> x in coglist && x !in extensions
  {
    var known := KnownList(extensions, coglist);
    FilterMembers(known, x => x !in extensions);
    FilterStrictlySorted(known, x => x !in extensions);
    Filter(known, x => x !in extensions)
  }

  lemma {:induction false} FilterStrictlySorted(s: seq<string>, p: string -> bool)
    requires StrictlySorted(s)
    ensures StrictlySorted(Filter(s, p))
  {
    if s != [] {
      var init := s[..|s| - 1];
      assert StrictlySorted(init);
      FilterStrictlySorted(init, p);
      FilterMembers(init, p);
      var f := Filter(init, p);
      if p(s[|s| - 1]) {
        forall i | 0 <= i < |f| ensures StrLt(f[i], s[|s| - 1]) {
          assert f[i] in init;
        }
      }
    }
  }

  // ---------------------------------------------------------------------
  // Replies

  function Quoted(e: string): string {
    "`" + e + "`"
  }

  /** `_format_resync_message` */
  function ResyncNote(resynced: int): string {
    if resynced <= 0 then " Command resync skipped (no managed guilds)."
    else if resynced == 1 then " Resynced commands for 1 guild."
    else " Resynced commands for " + NatStr(resynced) + " guilds."
  }

  function NotLoadedReply(e: string): string {
    Quoted(e) + " is not currently loaded."
  }

  function AlreadyLoadedReply(e: string): string {
    Quoted(e) + " is already loaded."
  }

  /** "Reloaded `e`." and the like, followed by the resync note. */
  function DoneReply(done: string, e: string, resynced: int): string {
    done + " " + Quoted(e) + "." + ResyncNote(resynced)
  }

  /** The reply to an `ExtensionFailed` raised while `doing` the change. */
  function FailedReply(doing: string, e: string, detail: string): string {
    doing + " " + Quoted(e) + " failed: " + detail + "."
  }

  /** The reply to any other exception. */
  function UnexpectedReply(doing: string, e: string, detail: string): string {
    "Unexpected error while " + doing + " " + Quoted(e) + ": " + detail + "."
  }

  /** The reply of `reload_extension`; `detail` is the text of the
      exception raised. */
  function ReloadReply(e: string, loaded: bool, outcome: LoadOutcome, detail: string, resynced: int): string {
    if !loaded then NotLoadedReply(e)
    else match outcome
      case LoadOk => DoneReply("Reloaded", e, resynced)
      case ExtensionNotLoaded => NotLoadedReply(e)
      case ExtensionFailed => FailedReply("Reloading", e, detail)
      case _ => UnexpectedReply("reloading", e, detail)
  }

  /** The reply of `enable_extension`. */
  function EnableReply(e: string, loaded: bool, outcome: LoadOutcome, detail: string, resynced: int): string {
    if loaded then AlreadyLoadedReply(e)
    else match outcome
      case LoadOk => DoneReply("Enabled", e, resynced)
      case ExtensionAlreadyLoaded => AlreadyLoadedReply(e)
      case ExtensionNotFound => "Extension " + Quoted(e) + " was not found."
      case NoEntryPoint => "Extension " + Quoted(e) + " is missing a setup entry point."
      case ExtensionFailed => FailedReply("Enabling", e, detail)
      case _ => UnexpectedReply("enabling", e, detail)
  }

  /** The reply of `disable_extension`. */
  function DisableReply(e: string, loaded: bool, outcome: LoadOutcome, detail: string, resynced: int): string {
    if !loaded then NotLoadedReply(e)
    else match outcome
      case LoadOk => DoneReply("Disabled", e, resynced)
      case ExtensionNotLoaded => NotLoadedReply(e)
      case _ => UnexpectedReply("disabling", e, detail)
  }

  // ---------------------------------------------------------------------
  // The engine

  class SyncCogEngine {
    const bot: Bot
    const guildEngine: GuildSyncEngine
    const commandsEngine: SyncCommandsEngine

    constructor (bot: Bot, guildEngine: GuildSyncEngine, commandsEngine: SyncCommandsEngine)
      ensures this.bot == bot && this.guildEngine == guildEngine && this.commandsEngine == commandsEngine
    {
      this.bot := bot;
      this.guildEngine := guildEngine;
      this.commandsEngine := commandsEngine;
    }

    /** The batch a resync runs: the root groups, the current rules, and
        no progress. */
    ghost function ResyncEnv(adds: AddOracles, submit: SubmitOracle): Env
      reads commandsEngine.synchroniser, guildEngine.store
    {
      Env(commandsEngine.synchroniser.roots, guildEngine.store.rules, adds, submit, false)
    }

    /** The command tree and the snapshots are what a resync of the managed
        guilds makes of `tree` and `snap`. */
    ghost predicate ResyncedFrom(tree: Tree, snap: map<int, GuildSyncState>, adds: AddOracles, submit: SubmitOracle)
      reads commandsEngine.synchroniser, commandsEngine.synchroniser.tree, commandsEngine.synchroniser.state
      reads guildEngine.store, guildEngine.state
    {
      var r := Selected(tree, snap, guildEngine.state.guilds, false, false, ResyncEnv(adds, submit));
      commandsEngine.synchroniser.tree.State() == r.tree && commandsEngine.synchroniser.state.guilds == r.snap
    }

    /** `list_configured_extensions`: the configured extensions without
        repeats, each where it first occurs. */
    method ConfiguredList() returns (ordered: seq<string>)
      ensures ordered == Dedup(bot.coglist)
    {
      var configured := bot.coglist;
      ordered := [];
      for i := 0 to |configured|
        invariant ordered == Dedup(configured[..i])
      {
        assert configured[..i + 1][..i] == configured[..i];
        if configured[i] !in ordered {
          ordered := ordered + [configured[i]];
        }
      }
      assert configured[..|configured|] == configured;
    }

    /** `_resync_commands`: nothing without managed guilds; otherwise a
        batch over the managed guilds that keeps the global commands and the
        other snapshots. Returns how many guilds were resynced. */
    method ResyncCommands(adds: AddOracles, submit: SubmitOracle) returns (resynced: int)
      modifies commandsEngine.synchroniser.tree, commandsEngine.synchroniser.state
      ensures resynced == |guildEngine.state.guilds|
      ensures ResyncedFrom(old(commandsEngine.synchroniser.tree.State()), old(commandsEngine.synchroniser.state.guilds), adds, submit)
    {
      var guilds := guildEngine.state.Snapshot();
      if guilds == [] {
        return 0;
      }
      var env := Env(commandsEngine.synchroniser.roots, guildEngine.store.rules, adds, submit, false);
      var results, updates := commandsEngine.SyncSelectedGuilds(guilds, false, false, env, None);
      resynced := |guilds|;
    }

    /** `reload_extension`: refused when the extension is not loaded, and a
        resync only after a reload that succeeded. */
    method ReloadExtension(e: string, outcome: LoadOutcome, detail: string, adds: AddOracles, submit: SubmitOracle)
      returns (ok: bool, message: string)
      modifies bot, commandsEngine.synchroniser.tree, commandsEngine.synchroniser.state
      ensures ok <==> e in old(bot.extensions) && outcome == LoadOk
      ensures message == ReloadReply(e, e in old(bot.extensions), outcome, detail, |guildEngine.state.guilds|)
      ensures bot.extensions == old(bot.extensions)
      ensures if ok then ResyncedFrom(old(commandsEngine.synchroniser.tree.State()), old(commandsEngine.synchroniser.state.guilds), adds, submit)
        else (commandsEngine.synchroniser.tree.State() == old(commandsEngine.synchroniser.tree.State())
              && commandsEngine.synchroniser.state.guilds == old(commandsEngine.synchroniser.state.guilds))
    {
      if e !in bot.extensions {
        return false, NotLoadedReply(e);
      }
      var r := bot.ReloadExtension(e, outcome);
      if r == ExtensionNotLoaded {
        return false, NotLoadedReply(e);
      } else if r == ExtensionFailed {
        return false, FailedReply("Reloading", e, detail);
      } else if r != LoadOk {
        return false, UnexpectedReply("reloading", e, detail);
      }
      var resynced := ResyncCommands(adds, submit);
      return true, DoneReply("Reloaded", e, resynced);
    }

    /** `enable_extension`: refused when the extension is already loaded;
        on success the extension is loaded and the guilds resynced. */
    method EnableExtension(e: string, outcome: LoadOutcome, detail: string, adds: AddOracles, submit: SubmitOracle)
      returns (ok: bool, message: string)
      requires bot.Valid()
      modifies bot, commandsEngine.synchroniser.tree, commandsEngine.synchroniser.state
      ensures bot.Valid()
      ensures ok <==> e !in old(bot.extensions) && outcome == LoadOk
      ensures message == EnableReply(e, e in old(bot.extensions), outcome, detail, |guildEngine.state.guilds|)
      ensures bot.extensions == if ok then old(bot.extensions) + [e] else old(bot.extensions)
      ensures if ok then ResyncedFrom(old(commandsEngine.synchroniser.tree.State()), old(commandsEngine.synchroniser.state.guilds), adds, submit)
        else (commandsEngine.synchroniser.tree.State() == old(commandsEngine.synchroniser.tree.State())
              && commandsEngine.synchroniser.state.guilds == old(commandsEngine.synchroniser.state.guilds))
    {
      if e in bot.extensions {
        return false, AlreadyLoadedReply(e);
      }
      var r := bot.LoadExtension(e, outcome);
      if r == ExtensionAlreadyLoaded {
        return false, AlreadyLoadedReply(e);
      } else if r == ExtensionNotFound {
        return false, "Extension " + Quoted(e) + " was not found.";
      } else if r == NoEntryPoint {
        return false, "Extension " + Quoted(e) + " is missing a setup entry point.";
      } else if r == ExtensionFailed {
        return false, FailedReply("Enabling", e, detail);
      } else if r != LoadOk {
        return false, UnexpectedReply("enabling", e, detail);
      }
      var resynced := ResyncCommands(adds, submit);
      return true, DoneReply("Enabled", e, resynced);
    }

    /** `disable_extension`: refused when the extension is not loaded; on
        success the extension is unloaded and the guilds resynced. */
    method DisableExtension(e: string, outcome: LoadOutcome, detail: string, adds: AddOracles, submit: SubmitOracle)
      returns (ok: bool, message: string)
      requires bot.Valid()
      modifies bot, commandsEngine.synchroniser.tree, commandsEngine.synchroniser.state
      ensures bot.Valid()
      ensures ok <==> e in old(bot.extensions) && outcome == LoadOk
      ensures message == DisableReply(e, e in old(bot.extensions), outcome, detail, |guildEngine.state.guilds|)
      ensures bot.extensions == if ok then Omit(old(bot.extensions), e) else old(bot.extensions)
      ensures if ok then ResyncedFrom(old(commandsEngine.synchroniser.tree.State()), old(commandsEngine.synchroniser.state.guilds), adds, submit)
        else (commandsEngine.synchroniser.tree.State() == old(commandsEngine.synchroniser.tree.State())
              && commandsEngine.synchroniser.state.guilds == old(commandsEngine.synchroniser.state.guilds))
    {
      if e !in bot.extensions {
        return false, NotLoadedReply(e);
      }
      var r := bot.UnloadExtension(e, outcome);
      if r == ExtensionNotLoaded {
        return false, NotLoadedReply(e);
      } else if r != LoadOk {
        return false, UnexpectedReply("disabling", e, detail);
      }
      var resynced := ResyncCommands(adds, submit);
      return true, DoneReply("Disabled", e, resynced);
    }
  }

  // ---------------------------------------------------------------------
  // Properties

  /** The unloaded extensions are the configured ones that are not loaded:
      there are some only when a configured extension is not loaded, and loading one
      removes exactly it from the list. */
  lemma UnloadedAfterLoad(extensions: seq<string>, coglist: seq<string>, e: string)
    requires e !in extensions
    ensures forall x :: x in UnloadedList(extensions + [e], coglist) <==> x in UnloadedList(extensions, coglist) && x != e
    ensures UnloadedList(extensions, coglist) != [] ==> exists x :: x in coglist && x !in extensions
  {
    var u, v := UnloadedList(extensions, coglist), UnloadedList(extensions + [e], coglist);
    forall x ensures x in v <==> x in u && x != e {
      assert x in extensions + [e] <==> x in extensions || x == e;
    }
    if u != [] {
      assert u[0] in u;
    }
  }

  /** Different resync counts give different notes, so the note tells how
      many guilds were resynced. */
  lemma ResyncNoteDistinct(a: int, b: int)
    requires a != b && (a > 0 || b > 0)
    ensures ResyncNote(a) != ResyncNote(b)
  {
    var prefix := " Resynced commands for ";
    if a > 1 && b > 1 {
      var sa, sb := NatStr(a), NatStr(b);
      if ResyncNote(a) == ResyncNote(b) {
        assert |sa| == |sb|;
        assert ResyncNote(a)[|prefix|..|prefix| + |sa|] == sa;
        assert ResyncNote(b)[|prefix|..|prefix| + |sb|] == sb;
        NatStrValue(a);
        NatStrValue(b);
      }
    } else if a > 1 || b > 1 {
      var n := if a > 1 then a else b;
      var s := ResyncNote(n);
      assert s[|s| - 2] == 's';
    }
  }
}
