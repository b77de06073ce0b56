# Guild and command synchronisation of a Discord bot, in Dafny

This project models the guild-sync cog of a discord.py bot. The cog keeps the
bot's slash commands in step with the guilds (Discord servers) it manages:

- **Configuration store.** It holds three tables: the alias table (guild name
  to guild id), the per-command visibility rules, and the guilds that turned
  the sync prompt down.
- **Command cloner.** It walks the bot's root command groups and builds a
  per-guild copy of each group. The copy keeps only the commands the rules
  enable for that guild.
- **Synchroniser.** It registers those copies on discord.py's command tree,
  submits the tree guild by guild, and keeps a snapshot of what Discord
  confirmed.
- **Guild engine.** It resolves the configured guilds and adds single guilds.
  It prompts unmanaged guilds in a suitable channel to opt in.
- **Extension engine.** It loads, reloads and unloads extensions and resyncs
  the managed guilds afterwards.
- **Administrator commands.** `disable-command` and `enable-command`, with
  their two autocompletes. The model expands a `group.*` key to the commands
  under the group before it changes any rule (see Findings).

Discord and the bot object appear as classes whose network calls take their
outcome as a parameter (`Platform.Bot`, `Remote.CommandTree`):

- what `fetch_guild`, `add_command`, `tree.sync`, `channel.send` and the
  extension loader answer is an input of the operation;
- every call is recorded in a ghost log, so contracts can state which calls
  were made and in what order.

The shape of each part follows the source:

- **Pure code** becomes datatypes, functions and lemmas: key normalisation,
  rule lookup and rule changes, group cloning, labels, channel choice and the
  reply texts.
- **Objects whose fields change** become classes with `modifies` clauses: the
  stores, the state holders, the engines and the cog.
- **Loops** become methods with loop invariants, each proved against a
  function: the group loop of a guild sync, the batch loop over guilds, the
  prompt loop, the collector, the autocomplete loops and the
  configured-extension loop.

Helper modules:

- `Wrappers`: Option and Result.
- `Text`: lower-casing, stripping, decimal rendering of ids and its parse, and
  string order.
- `Sorting`: a stable sort by key, order-keeping de-duplication, sorted sets
  and filtering.
- `Dicts`: Python's insertion-ordered dict, as a sequence of pairs with
  distinct keys.

Insertion order is modelled wherever code of the core can observe it:

- the order in which configured guilds are collected;
- the order of the batch over the managed guilds;
- the order of the results;
- how ties are broken in the autocomplete.

## Model

| member | source | states |
|---|---|---|
| ScopeStore.NormalizeKeyProperties | cogs/guildSync/core/config/lib.py:36-37 | a normalised key has the input's length, contains no space and no upper-case letter, and normalising it again changes nothing |
| ScopeStore.IsEnabledByShape | cogs/guildSync/core/config/lib.py:155-180 | the verdict for each rule shape: no rule enables; an exclude list enables the guilds not in it; an include or guilds list enables the guilds in it; an empty list enables none; a list holding `"*"` enables every guild; any other list enables its members |
| ScopeStore.Without | cogs/guildSync/core/config/lib.py:208 | removing an id keeps every other member and nothing else |
| ScopeStore.DisableForGuild | cogs/guildSync/core/config/lib.py:183-222 | only the normalised key's rule can change; an unchanged result leaves the table as it was; a changed result leaves a non-null rule |
| ScopeStore.EnableForGuild | cogs/guildSync/core/config/lib.py:225-271 | only the normalised key's rule can change; an unchanged result leaves the table as it was |
| ScopeStore.DisableGlobally | cogs/guildSync/core/config/lib.py:274-281 | the key's rule becomes the empty list; this counts as a change unless the rule already was the empty list; no other key changes |
| ScopeStore.EnableGlobally | cogs/guildSync/core/config/lib.py:284-290 | the key's rule is removed; this counts as a change exactly when a rule was stored; no other key changes |
| ScopeStore.DisableForGuildCases | cogs/guildSync/core/config/lib.py:188-200 | no rule or `"*"` becomes `{"exclude": [id]}`; an exclude list that already holds the id is unchanged; otherwise the id joins the exclude list, which is written sorted and without duplicates |
| ScopeStore.DisableForGuildOutcome | cogs/guildSync/core/config/lib.py:183-222 | after a disable the guild is still enabled exactly when the stored rule is a list holding `"*"` or the guild's own id as a scalar |
| ScopeStore.EnableForGuildEnables | cogs/guildSync/core/config/lib.py:225-271 | an enable that reports a change leaves the command enabled for the guild |
| ScopeStore.EnableForGuildCases | cogs/guildSync/core/config/lib.py:230-243 | no rule, or an exclude list without the id, is unchanged; removing the last excluded id deletes the rule |
| ScopeStore.DisableEnableRoundTripUnset | cogs/guildSync/core/config/lib.py:188-191 | disabling a key that has no rule, then enabling it for the same guild, restores the original table |
| ScopeStore.DisableExcludeUnlisted | cogs/guildSync/core/config/lib.py:193-200 | disabling an id absent from an exclude list writes the sorted, de-duplicated list with the id added |
| ScopeStore.EnableExcludeListed | cogs/guildSync/core/config/lib.py:233-243 | enabling a listed id writes the sorted list without it when other ids remain |
| ScopeStore.DisableEnableRoundTripExclude | cogs/guildSync/core/config/lib.py:193-243 | for a non-empty, strictly sorted exclude list without the id, disable then enable restores the original table |
| ScopeStore.EnableUndoesExcludeAdd | cogs/guildSync/core/config/lib.py:233-243 | enabling undoes the exclusion that disabling added |
| ScopeStore.AddThenRemove | cogs/guildSync/core/config/lib.py:197-198 | adding an id to a sorted list and removing it again gives back the list |
| ScopeStore.DisableEnableKeepsEnabled | cogs/guildSync/core/config/lib.py:183-271 | a command that was enabled for a guild is enabled again after disable then enable |
| ScopeStore.DisableGloballyDisables | cogs/guildSync/core/config/lib.py:274-281 | after a global disable, no guild has the command |
| ScopeStore.EnableGloballyEnables | cogs/guildSync/core/config/lib.py:284-290 | after a global enable, every guild has the command |
| ScopeStore.LoadRules | cogs/guildSync/core/config/lib.py:68-72 | every key of the loaded table is normalised, and every loaded key appears in normalised form |
| ScopeStore.LoadRulesKeys | cogs/guildSync/core/config/lib.py:68-72 | the keys of the loaded table are exactly the normalised keys of the file's entries |
| ScopeStore.LoadRulesLastWins | cogs/guildSync/core/config/lib.py:68-72 | when several entries normalise to one key, the key holds the value of the last of them |
| ScopeStore.Store.constructor | cogs/guildSync/core/config/lib.py:62-77 | the three tables as loaded, with the rule keys normalised and the suppressed ids as a set |
| ScopeStore.Store.SuppressGuild | cogs/guildSync/core/config/lib.py:89-95 | the id joins the suppressed set; the file is written only when the id is new; nothing else changes |
| ScopeStore.Store.ClearSuppressedGuild | cogs/guildSync/core/config/lib.py:98-104 | the id leaves the suppressed set; the file is written only when the id was there |
| ScopeStore.Store.RegisterGuild | cogs/guildSync/core/config/lib.py:121-138 | an empty stripped name fails; a name already bound to this id gives False; a name bound to another id fails unless `overwrite` is set; otherwise the name is bound, the id is unsuppressed, the table is written, and the result is True |
| ScopeStore.Store.DisableCommandForGuild | cogs/guildSync/core/config/lib.py:183-222 | the rule table and the result are `DisableForGuild`'s; the file is written once exactly when the table changed |
| ScopeStore.Store.EnableCommandForGuild | cogs/guildSync/core/config/lib.py:225-271 | as above, for `EnableForGuild` |
| ScopeStore.Store.DisableCommandGlobally | cogs/guildSync/core/config/lib.py:274-281 | as above, for `DisableGlobally` |
| ScopeStore.Store.EnableCommandGlobally | cogs/guildSync/core/config/lib.py:284-290 | as above, for `EnableGlobally` |
| Catalog.GroupGroupsStartWithGroup | cogs/guildSync/core/engine/syncCommands/modules/commands.py:32-36 | the group walk yields the group first, and each subgroup's walk appears as a contiguous block after it |
| Catalog.NodesGroupsBlock | cogs/guildSync/core/engine/syncCommands/modules/commands.py:34-36 | the walk of each subgroup child is a contiguous block of the children's walk |
| Catalog.KeyAndLabelShapes | cogs/guildSync/core/engine/syncCommands/modules/commands.py:38-57 | a command key is the qualified name with spaces turned to dots and letters lowered; the label is `/name`, `name [user]`, `name [message]` or `name [type]` by command type |
| Catalog.LabelNamesCommand | cogs/guildSync/core/engine/syncCommands/modules/commands.py:46-57 | every label shows the qualified name in full |
| Catalog.CloneOf | cogs/guildSync/core/engine/syncCommands/modules/commands.py:83-113 | a clone keeps the source group's own attributes and has at least one child |
| Catalog.CloneOfLeaves | cogs/guildSync/core/engine/syncCommands/modules/commands.py:83-113 | the clone is None exactly when no leaf is enabled and cloneable; otherwise its leaves are exactly those leaves, in order |
| Catalog.CloneOfNoneIff | cogs/guildSync/core/engine/syncCommands/modules/commands.py:94-113 | no clone exactly when every leaf is disabled for the guild or cannot be copied |
| Catalog.CloneOfOnlyEnabled | cogs/guildSync/core/engine/syncCommands/modules/commands.py:102-111 | every leaf of a clone is a source leaf enabled for the guild |
| Catalog.CloneNodesLeaves | cogs/guildSync/core/engine/syncCommands/modules/commands.py:94-111 | the cloned children's leaves are the kept leaves of the source children |
| Catalog.CloneOfNoEmptyGroup | cogs/guildSync/core/engine/syncCommands/modules/commands.py:96-99 | no group in a clone is empty, since empty nested clones are dropped |
| Catalog.CloneGroup | cogs/guildSync/core/engine/syncCommands/modules/commands.py:83-113 | the loop with its `added` flag computes `CloneOf` |
| Catalog.ListAvailableKeys | cogs/guildSync/core/engine/syncCommands/modules/commands.py:115-133 | the entries are the candidate entries stably sorted by key |
| Catalog.CollectGroupEntries | cogs/guildSync/core/engine/syncCommands/modules/commands.py:118-125 | the group loop collects `(groupkey.*, label)` for every group that has a leaf below it |
| Catalog.CollectLeafEntries | cogs/guildSync/core/engine/syncCommands/modules/commands.py:127-130 | the leaf loop collects `(key, label)` for every leaf |
| Catalog.GroupEntries | cogs/guildSync/core/engine/syncCommands/modules/commands.py:118-125 | a group entry exists exactly for each group that has at least one leaf |
| Catalog.LeafEntries | cogs/guildSync/core/engine/syncCommands/modules/commands.py:127-130 | one entry for each leaf, and only those |
| Catalog.AvailableKeysSortedCount | cogs/guildSync/core/engine/syncCommands/modules/commands.py:115-133 | the list is sorted by key and has one entry per leaf, plus one per non-empty group when groups are asked for |
| Catalog.AvailableKeysMembers | cogs/guildSync/core/engine/syncCommands/modules/commands.py:115-133 | an entry is listed exactly when it is a leaf entry, or (when groups are asked for) the entry of a group with a leaf |
| Catalog.UnderPrefixWholeSegments | cogs/guildSync/core/engine/syncCommands/modules/commands.py:142 | a key that merely starts with the prefix, such as `moderationx` for `moderation`, is not under it |
| Catalog.KeysUnderMembers | cogs/guildSync/core/engine/syncCommands/modules/commands.py:139-143 | the loop collects a key exactly when it is a leaf's key lying under the prefix |
| Catalog.ExpandedKeysMembers | cogs/guildSync/core/engine/syncCommands/modules/commands.py:135-146 | a key without `.*` expands to itself normalised; `p.*` expands to the strictly sorted leaf keys that equal `p` or start with `p.` |
| Catalog.ExpandedKeysNormalized | cogs/guildSync/core/engine/syncCommands/modules/commands.py:38-39 | every expanded key is already normalised, so distinct expanded keys name distinct rules |
| Catalog.ExpandKey | cogs/guildSync/core/engine/syncCommands/modules/commands.py:135-146 | normalises the key, then computes `ExpandedKeys` |
| Catalog.ExpandNormalized | cogs/guildSync/core/engine/syncCommands/modules/commands.py:137-146 | the loop over the leaves, then `sorted(set(...))`, computes the expansion of a normalised key |
| Remote.Unregister | cogs/guildSync/core/engine/syncCommands/modules/sync.py:34 | `remove_command` drops the name from its scope only |
| Remote.RegisterAt | cogs/guildSync/core/engine/syncCommands/modules/sync.py:116 | `add_command` registers the group under its name in its scope only |
| Remote.CopyGlobal | cogs/guildSync/core/engine/syncCommands/modules/sync.py:157 | `copy_global_to` overlays the global commands on the guild's, and no other scope changes |
| Remote.CommandTree.RemoveCommand | cogs/guildSync/core/engine/syncCommands/modules/sync.py:51-56 | returns the removed command, or None when nothing was registered; the call is logged |
| Synchroniser.Passes | cogs/guildSync/core/engine/syncCommands/modules/sync.py:102-105 | one pass per root group |
| Synchroniser.PassesAgree | cogs/guildSync/core/engine/syncCommands/modules/sync.py:105 | every clone carries the name of its root group |
| Synchroniser.GuildSynchroniser.RemoveRoots | cogs/guildSync/core/engine/syncCommands/modules/sync.py:47-56 | removes every root group's name from the scope; reports whether any of them had been registered there |
| Synchroniser.GuildSynchroniser.RemoveGlobalCommands | cogs/guildSync/core/engine/syncCommands/modules/sync.py:32-41 | removes the root groups globally, then submits the global tree |
| Synchroniser.GuildSynchroniser.DesyncGuild | cogs/guildSync/core/engine/syncCommands/modules/sync.py:47-73 | the guild is submitted only when something was removed, and its snapshot is dropped only when the submission succeeds |
| Synchroniser.GuildSynchroniser.DesyncGuilds | cogs/guildSync/core/engine/syncCommands/modules/sync.py:43-73 | the guilds are desynced in order |
| Synchroniser.GuildSynchroniser.AddCloneTo | cogs/guildSync/core/engine/syncCommands/modules/sync.py:114-148 | after "already registered", the group is removed and added once more; the result is True exactly when one of the two adds registered it |
| Synchroniser.GuildSynchroniser.SyncGroup | cogs/guildSync/core/engine/syncCommands/modules/sync.py:102-151 | one pass of the group loop |
| Synchroniser.GuildSynchroniser.RunGroups | cogs/guildSync/core/engine/syncCommands/modules/sync.py:102-155 | the group loop: the tree after every pass, the enabled and disabled names, and one progress note per pass |
| Synchroniser.GuildSynchroniser.SyncGuild | cogs/guildSync/core/engine/syncCommands/modules/sync.py:75-232 | the group loop, `copy_global_to` and the submission; the snapshot entry is written only on success; the notes sent |
| Synchroniser.TotalSteps | cogs/guildSync/core/engine/syncCommands/modules/sync.py:99 | at least two steps, and more steps than root groups, so no per-group progress note reaches 100% |
| Synchroniser.StepNotes | cogs/guildSync/core/engine/syncCommands/modules/sync.py:153-155 | the j-th pass reports `(j+1) / total` |
| Synchroniser.DesyncClearsGuilds | cogs/guildSync/core/engine/syncCommands/modules/sync.py:43-56 | after desync, no root group is registered in any of the guilds |
| Synchroniser.DesyncKeepsOthers | cogs/guildSync/core/engine/syncCommands/modules/sync.py:43-73 | scopes and snapshots of other guilds are left alone |
| Synchroniser.DesyncOneSnapshot | cogs/guildSync/core/engine/syncCommands/modules/sync.py:58-73 | the snapshot is dropped exactly when a root group was registered and the submission succeeded |
| Synchroniser.RemoveGlobalClears | cogs/guildSync/core/engine/syncCommands/modules/sync.py:32-36 | no root group remains global; guild scopes are untouched |
| Synchroniser.RemoveAllIn | cogs/guildSync/core/engine/syncCommands/modules/sync.py:33-34 | after removing names, a name is registered exactly when it was registered before and is not among them |
| Synchroniser.LoopPartition | cogs/guildSync/core/engine/syncCommands/modules/sync.py:108-151 | every root group ends up in exactly one of the enabled and disabled lists |
| Synchroniser.LoopEnabled | cogs/guildSync/core/engine/syncCommands/modules/sync.py:150-151 | a name is enabled exactly when one of its passes registered its clone |
| Synchroniser.AfterGroupCalls | cogs/guildSync/core/engine/syncCommands/modules/sync.py:103-120 | the tree calls of one pass: a removal, then one add or, after "already registered", two adds with a removal between them |
| Synchroniser.AfterGroupRegisters | cogs/guildSync/core/engine/syncCommands/modules/sync.py:103-151 | after a pass, the group is registered with its clone exactly when the pass registered it, and absent otherwise |
| Synchroniser.LoopRegistration | cogs/guildSync/core/engine/syncCommands/modules/sync.py:102-155 | the last pass over a name decides whether it is registered after the loop |
| Synchroniser.LoopKeepsOtherScopes | cogs/guildSync/core/engine/syncCommands/modules/sync.py:102-155 | the loop touches only the guild's own scope |
| Synchroniser.LoopKeepsOtherNames | cogs/guildSync/core/engine/syncCommands/modules/sync.py:102-155 | commands other than the root groups keep their registration |
| Synchroniser.SyncGuildScopes | cogs/guildSync/core/engine/syncCommands/modules/sync.py:157 | after the sync, the guild's scope is the loop's result overlaid with the global commands; other scopes are unchanged |
| Synchroniser.GuildNotesShape | cogs/guildSync/core/engine/syncCommands/modules/sync.py:93-207 | the notes are 0, then each step, then the capped submission, then 100 on success or the failure note; 100 appears only on success |
| Synchroniser.EntryShape | cogs/guildSync/core/engine/syncCommands/modules/sync.py:209-211 | the snapshot's labels and disabled groups are strictly sorted sets of the confirmed labels and the disabled names |
| SyncStates.SyncState.UpdateGuild | cogs/guildSync/core/engine/syncCommands/modules/state.py:17-18 | the guild's entry is overwritten |
| SyncStates.SyncState.RemoveGuild | cogs/guildSync/core/engine/syncCommands/modules/state.py:20-21 | the guild's entry is dropped, and removing an absent guild does nothing |
| SyncStates.SyncState.Reset | cogs/guildSync/core/engine/syncCommands/modules/state.py:23-24 | no entries remain |
| SyncStates.UpdateOnlyTouchesGuild | cogs/guildSync/core/engine/syncCommands/modules/state.py:17-18 | after `update_guild`, both snapshots hold the new lists for the guild and every other guild's entries are unchanged |
| SyncStates.RemoveOnlyTouchesGuild | cogs/guildSync/core/engine/syncCommands/modules/state.py:20-21 | `remove_guild` drops one entry only, and doing it twice is the same as once |
| CommandsEngine.BatchOne | cogs/guildSync/core/engine/syncCommands/main.py:72-87 | one guild of the batch keeps the results a well-formed ordered dict |
| CommandsEngine.SyncCommandsEngine.DesyncCommands | cogs/guildSync/core/engine/syncCommands/main.py:26-31 | an empty list does nothing; otherwise the global root groups are removed and submitted, then every guild is desynced |
| CommandsEngine.SyncCommandsEngine.SyncOne | cogs/guildSync/core/engine/syncCommands/main.py:72-87 | one guild: on success its result is stored; on failure its snapshot entry is dropped; the final note is sent on failure, or when several guilds are synced |
| CommandsEngine.SyncCommandsEngine.SyncSelectedGuilds | cogs/guildSync/core/engine/syncCommands/main.py:39-95 | an empty selection changes nothing; otherwise the global commands are cleared when asked, the snapshots are reset when asked, and the guilds are synced in insertion order |
| CommandsEngine.SyncCommandsEngine.RunBatch | cogs/guildSync/core/engine/syncCommands/main.py:63-87 | the batch loop computes `BatchAll` |
| CommandsEngine.SyncCommandsEngine.SyncCommands | cogs/guildSync/core/engine/syncCommands/main.py:97-103 | `sync_selected_guilds` with the global commands cleared and the snapshots reset |
| CommandsEngine.BatchResults | cogs/guildSync/core/engine/syncCommands/main.py:78-79 | a guild has a result exactly when it is selected and Discord confirmed its sync, and the result is what Discord returned |
| CommandsEngine.BatchResultOrder | cogs/guildSync/core/engine/syncCommands/main.py:63-79 | the results' keys are the confirmed guilds in selection order |
| CommandsEngine.BatchSnapshot | cogs/guildSync/core/engine/syncCommands/main.py:72-83 | a confirmed guild's snapshot holds its labels and disabled groups; a failed guild has none; unselected guilds keep theirs |
| CommandsEngine.ResetBatchKeys | cogs/guildSync/core/engine/syncCommands/main.py:55-83 | after a reset, the snapshot holds exactly the confirmed guilds |
| CommandsEngine.BatchKeepsOtherScopes | cogs/guildSync/core/engine/syncCommands/main.py:63-87 | scopes of unselected guilds and the global scope are untouched by the batch |
| CommandsEngine.NoCallbackNoUpdates | cogs/guildSync/core/engine/syncCommands/main.py:85-87 | no progress is reported without a callback |
| CommandsEngine.GuildUpdatesShape | cogs/guildSync/core/engine/syncCommands/main.py:64-87 | a guild's updates are its notes, followed by the final update exactly when it failed or more than one guild is synced |
| CommandsEngine.BatchUpdatesIndexed | cogs/guildSync/core/engine/syncCommands/main.py:63-87 | every update names a guild of the selection at its 1-based index, with the batch total |
| ConfiguredGuilds.ConfiguredGuildsState.Replace | cogs/guildSync/core/engine/syncGuilds/modules/state.py:13-15 | the entries become the given ones |
| ConfiguredGuilds.ConfiguredGuildsState.Update | cogs/guildSync/core/engine/syncGuilds/modules/state.py:17-18 | dict assignment: the value is overwritten in place, or the key is appended |
| ConfiguredGuilds.ConfiguredGuildsState.Get | cogs/guildSync/core/engine/syncGuilds/modules/state.py:20-21 | found exactly when the id is a key, and the value is the stored one |
| ConfiguredGuilds.ConfiguredGuildsState.Remove | cogs/guildSync/core/engine/syncGuilds/modules/state.py:23-24 | `pop(g, None)` |
| ConfiguredGuilds.ConfiguredGuildsState.Clear | cogs/guildSync/core/engine/syncGuilds/modules/state.py:26-27 | no entries remain |
| ConfiguredGuilds.PutNew | cogs/guildSync/core/engine/syncGuilds/modules/state.py:17-18 | assigning a new key appends it at the end |
| Dicts.PutGet | cogs/guildSync/core/engine/syncGuilds/modules/state.py:17-18 | after assignment, the key reads the new value and every other key reads its old value |
| Dicts.PopGet | cogs/guildSync/core/engine/syncGuilds/modules/state.py:23-24 | after `pop`, the key is absent and every other key is unchanged |
| Dicts.PopIdempotent | cogs/guildSync/core/engine/syncGuilds/modules/state.py:23-24 | popping twice is the same as popping once |
| Collector.Resolve | cogs/guildSync/core/engine/syncGuilds/modules/collector.py:41-64 | a cached guild is used without a fetch; otherwise the guild is found exactly when the fetch succeeds |
| Collector.ConfiguredGuildsCollector.ResolveGuild | cogs/guildSync/core/engine/syncGuilds/modules/collector.py:41-64 | returns `Resolve`'s guild and fetches only guilds that are not cached |
| Collector.ConfiguredGuildsCollector.Collect | cogs/guildSync/core/engine/syncGuilds/modules/collector.py:22-39 | the loop over the configured guilds computes `Collected` and makes one fetch for each uncached id, in order |
| Collector.ConfiguredGuildsCollector.ResolveSingle | cogs/guildSync/core/engine/syncGuilds/modules/collector.py:66-75 | the same resolution for one guild |
| Collector.CollectedMissing | cogs/guildSync/core/engine/syncGuilds/modules/collector.py:27-31 | the missing list is exactly the configured pairs that did not resolve, in order |
| Collector.CollectedResolved | cogs/guildSync/core/engine/syncGuilds/modules/collector.py:27-33 | an id is resolved exactly when it is configured and its resolution succeeds |
| Collector.CollectedPartition | cogs/guildSync/core/engine/syncGuilds/modules/collector.py:22-39 | each configured pair is either missing or resolved, never both |
| Collector.FetchesSkipCache | cogs/guildSync/core/engine/syncGuilds/modules/collector.py:41-47 | the fetched ids are exactly the configured ids not in the cache |
| Collector.UnmanagedMembers | cogs/guildSync/core/engine/syncGuilds/modules/collector.py:91-101 | the unmanaged guilds are the joined guilds whose id is not configured, and there are none exactly when every joined guild is configured |
| Registrar.ConfiguredGuildRegistrar.RegisterGuild | cogs/guildSync/core/engine/syncGuilds/modules/registrar.py:35-70 | the preferred name (the alias, else the guild name) goes to the store; the result is True when the store accepts it, and the store's errors give False |
| Registrar.ConfiguredGuildRegistrar.AddGuildById | cogs/guildSync/core/engine/syncGuilds/modules/registrar.py:19-33 | resolves the guild, then registers it; the guild is returned only when it resolved and was accepted |
| Registrar.AcceptsCases | cogs/guildSync/core/engine/syncGuilds/modules/registrar.py:35-70 | the registrar's verdict for each case of the alias table |
| Registrar.AcceptedBinds | cogs/guildSync/core/engine/syncGuilds/modules/registrar.py:35-70 | after an accepted registration the name is bound to the guild |
| Registrar.PreferredNameStripped | cogs/guildSync/core/engine/syncGuilds/modules/registrar.py:42-43 | the stored name is stripped, and it is empty exactly when the chosen name is blank |
| GuildEngine.LowestUsableSpec | cogs/guildSync/core/engine/syncGuilds/main.py:166-171 | None exactly when no channel is usable; otherwise a usable channel of lowest position, which among equal positions is the first in channel order, as a stable sort gives |
| GuildEngine.SelectChannelSpec | cogs/guildSync/core/engine/syncGuilds/main.py:153-171 | none without a bot user or member; the system channel when the bot may send there; otherwise a usable text channel, or none when no channel is usable |
| GuildEngine.PromptAllInvites | cogs/guildSync/core/engine/syncGuilds/main.py:106-148 | a guild holds an active invite after prompting exactly when it held one before, or it was promptable and its send succeeded |
| GuildEngine.PromptAllSent | cogs/guildSync/core/engine/syncGuilds/main.py:110-132 | the prompt log only grows; every new prompt went to an unmanaged, unsuppressed, not-yet-invited guild in its selected channel |
| GuildEngine.AddedAliasesBind | cogs/guildSync/core/engine/syncGuilds/main.py:65-92 | after a successful `add_guild` with `persist`, the guild's preferred name is bound to its id; without `persist`, or on failure, the alias table is as it was |
| GuildEngine.AddedGuildCases | cogs/guildSync/core/engine/syncGuilds/main.py:65-87 | a known guild is kept without `persist`, and kept with `persist` exactly when the registrar accepts it; an unknown guild is the resolved one or nothing |
| GuildEngine.GuildSyncEngine.MarkInviteComplete | cogs/guildSync/core/engine/syncGuilds/main.py:150-151 | the guild's invite is discarded |
| GuildEngine.GuildSyncEngine.PromptUnmanaged | cogs/guildSync/core/engine/syncGuilds/main.py:106-148 | the prompt loop computes `PromptAll` over the managed ids and suppressed guilds |
| GuildEngine.GuildSyncEngine.InState | cogs/guildSync/core/engine/syncGuilds/main.py:111 | membership in the managed guilds |
| GuildEngine.GuildSyncEngine.SyncGuilds | cogs/guildSync/core/engine/syncGuilds/main.py:36-55 | no configured guild: the state is cleared and every joined guild is considered for a prompt; otherwise the state becomes the collection result, the removed ids are the previous ids minus the current ones, and the unmanaged guilds are prompted |
| GuildEngine.GuildSyncEngine.AddGuild | cogs/guildSync/core/engine/syncGuilds/main.py:57-92 | on success the guild is stored, its invite is cleared and its commands are synced; on failure the managed guilds, invites and syncs stay as they were; the alias table is `AddedAliases`, that is, with `persist` the preferred name is bound when registration binds it; the rules and their file are untouched |
| GuildEngine.GuildSyncEngine.Acquire | cogs/guildSync/core/engine/syncGuilds/main.py:65-87 | the guild `add_guild` goes on with, as `AddedGuild` gives it, and the alias table `AddedAliases` leaves; the rules and their file are untouched |
| GuildEngine.GuildSyncEngine.Confirm | cogs/guildSync/core/engine/syncGuilds/main.py:76-82 | a known guild is kept unless `persist` is set and the registrar refuses it; with `persist` the alias table is that of the registration, otherwise untouched; the rules are untouched |
| GuildEngine.GuildSyncEngine.Lookup | cogs/guildSync/core/engine/syncGuilds/main.py:68-87 | an unknown guild is the resolved one, refused when `persist` is set and the registrar refuses it; with `persist` and a resolved guild the alias table is that of the registration, otherwise untouched; the rules are untouched |
| CogEngine.LoadedList | cogs/guildSync/core/engine/syncCog/main.py:25-26 | the loaded extensions, sorted |
| CogEngine.SyncCogEngine.ConfiguredList | cogs/guildSync/core/engine/syncCog/main.py:28-34 | the configured list without repeats, in first-occurrence order |
| Sorting.DedupFirstOccurrenceOrder | cogs/guildSync/core/engine/syncCog/main.py:28-34 | the de-duplicated list keeps first-occurrence order |
| CogEngine.KnownList | cogs/guildSync/core/engine/syncCog/main.py:36-39 | strictly sorted, holding exactly the loaded and configured extensions |
| CogEngine.UnloadedList | cogs/guildSync/core/engine/syncCog/main.py:41-43 | strictly sorted, holding exactly the configured extensions that are not loaded |
| CogEngine.UnloadedAfterLoad | cogs/guildSync/core/engine/syncCog/main.py:41-43 | loading an extension removes exactly it from the unloaded list; a non-empty unloaded list means some configured extension is not loaded |
| CogEngine.SyncCogEngine.ResyncCommands | cogs/guildSync/core/engine/syncCog/main.py:111-128 | the managed guilds are resynced without clearing global commands or snapshots, and their number is returned |
| CogEngine.SyncCogEngine.ReloadExtension | cogs/guildSync/core/engine/syncCog/main.py:45-64 | succeeds exactly when the extension is loaded and the reload succeeds; the reply for each outcome; a resync only on success; the loaded set never changes |
| CogEngine.SyncCogEngine.EnableExtension | cogs/guildSync/core/engine/syncCog/main.py:66-91 | succeeds exactly when the extension is not loaded and loading succeeds, after which it is loaded; the reply for each loader error; a resync only on success |
| CogEngine.SyncCogEngine.DisableExtension | cogs/guildSync/core/engine/syncCog/main.py:93-109 | succeeds exactly when the extension is loaded and unloading succeeds, after which it is gone; the reply for each outcome; a resync only on success |
| CogEngine.ResyncNoteDistinct | cogs/guildSync/core/engine/syncCog/main.py:130-136 | different guild counts, at least one of them positive, give different resync notes |
| Platform.Bot.LoadExtension | cogs/guildSync/core/engine/syncCog/main.py:71 | a successful load adds the extension; every other outcome leaves the loaded set as it was |
| Platform.Bot.UnloadExtension | cogs/guildSync/core/engine/syncCog/main.py:98 | a successful unload removes the extension |
| Platform.Omit | cogs/guildSync/core/engine/syncCog/main.py:98 | the extension list without the unloaded one |
| Admin.Matching | cogs/guildSync/main.py:78-85 | at most one choice per candidate |
| Admin.MatchingIndexed | cogs/guildSync/main.py:78-82 | the choices keep the candidates' order: the k-th choice is the candidate at the k-th of a strictly increasing run of positions |
| Admin.MatchingSound | cogs/guildSync/main.py:78-85 | every choice comes from a candidate whose display matches the query, truncated to 100 characters; every matching candidate has its choice |
| Admin.MatchingEmptyQuery | cogs/guildSync/main.py:80 | an empty query matches every candidate |
| Admin.Cap | cogs/guildSync/main.py:83-84 | a prefix of at most 25 choices, and the whole list when it is short enough |
| Admin.TakeMatching | cogs/guildSync/main.py:76-86 | the loop with its break at 25 gives the first 25 of the head followed by the matching choices |
| Admin.CommandKeyAutocomplete | cogs/guildSync/main.py:66-86 | nothing when the cog is not loaded; otherwise the first 25 matching key choices |
| Admin.KeyChoicesSpec | cogs/guildSync/main.py:66-86 | at most 25 choices, each at most 100 characters and the key of a matching entry; an empty query gives `min(25, n)` |
| Admin.GuildTargetAutocomplete | cogs/guildSync/main.py:89-112 | nothing when the cog is not loaded; otherwise "All guilds" when offered, then the matching guilds by lower-cased name, at most 25 |
| Admin.GuildChoices | cogs/guildSync/main.py:89-112 | at most 25 choices |
| Admin.GuildChoicesOrdered | cogs/guildSync/main.py:104-108 | of any two guild choices, the earlier one's guild comes earlier in the guilds sorted by lower-cased name, and its lower-cased name is no greater |
| Admin.AllGuildsFirst | cogs/guildSync/main.py:101-102 | "All guilds" is offered, and comes first, exactly when the query is empty or a prefix of `global` |
| Admin.EnsureAdmin | cogs/guildSync/main.py:115-119 | only a member inside a guild can pass |
| Admin.ResolveTargets | cogs/guildSync/main.py:122-137 | `global` resolves to every managed guild; any other target resolves to at most one guild, whose id is the target parsed as an integer and which is the managed guild of that id or else the cached one; a parsed id that is managed or cached always resolves |
| Admin.ResolveById | cogs/guildSync/main.py:131-137 | a decimal id resolves to the managed guild, else the cached guild, else nothing |
| Admin.GuildSyncCog.SetCommand | cogs/guildSync/main.py:152-276 | refuses non-administrators and unresolved targets without any change; otherwise changes the rule of every key the requested key expands to (see Findings), globally or for the one guild; answers "unchanged" without a resync, or resyncs the targets and reports the new scope; clears global commands and snapshots only for `global` |
| Admin.GuildSyncCog.Apply | cogs/guildSync/main.py:179-209 | the expansion of the key and the rule changes, then the resync only when a rule changed, under the changed rules |
| Admin.GuildSyncCog.ChangeRule | cogs/guildSync/main.py:183-187 | the global or per-guild store call, chosen by the target |
| Admin.GuildSyncCog.ChangeRules | cogs/guildSync/main.py:183-187 | the store calls for the expanded keys in turn compute `RuleChanges` |
| Admin.RuleChangesElsewhere | cogs/guildSync/main.py:183-187 | changing a sequence of keys leaves the rule of every other key as it was |
| Admin.RuleChangesOwn | cogs/guildSync/main.py:183-187 | each of several distinct keys ends with the rule its own change gives it |
| Admin.RuleChangesChanged | cogs/guildSync/main.py:189 | a change is reported exactly when one key's change is a change |
| Admin.ExpandedRuleChange | cogs/guildSync/main.py:146-187 | every command a key expands to is enabled for each guild exactly as if its own key had been changed alone; no other rule changes; a change is reported exactly when one of them changed |
| Admin.PlainKeyChange | cogs/guildSync/main.py:183-187 | a key without `.*` gets exactly the change the command makes of it as written |
| Admin.ExpandedGlobalChange | cogs/guildSync/main.py:183-184 | disabling a key globally disables every command it expands to in every guild; enabling enables them all |
| Admin.RawWildcardRuleInert | cogs/guildSync/main.py:183-187 | as written, for every rule table, target and guild, a rule change on a `group.*` key leaves every command whose key does not end in `.*` enabled or disabled, and kept or dropped by the clone (commands.py:100-105), exactly as before |
| Admin.RawWildcardRuleIgnored | cogs/guildSync/main.py:183-187 | as written, `disable-command p.*` for a guild reports a change, yet the command `p.c` under `p` stays enabled there |
| Admin.ExpandedWildcardDisables | cogs/guildSync/main.py:183-187 | with the key expanded, the same command disables `p.c` for that guild |
| Text.IdStrRoundTrip | cogs/guildSync/main.py:131-132 | `int(str(g)) == g` for every id |
| Text.IdStrInjective | cogs/guildSync/core/config/lib.py:185 | distinct ids have distinct decimal strings |
| Text.IdStrNotWildcard | cogs/guildSync/core/config/lib.py:177-180 | no id is rendered as `"*"` |
| Text.StripIdempotent | cogs/guildSync/core/config/lib.py:122 | stripping twice is stripping once |
| Text.StripEmptyIff | cogs/guildSync/core/config/lib.py:122-124 | the stripped name is empty exactly when the name is blank |
| Sorting.SortedUnique | cogs/guildSync/core/engine/syncCommands/modules/sync.py:209-210 | `sorted(set(...))`: strictly sorted, with the same members |
| Sorting.SortBy | cogs/guildSync/core/engine/syncCommands/modules/commands.py:132 | `sort(key=...)`: sorted by the key, and a permutation of the input |
| Sorting.SortByStable | cogs/guildSync/core/engine/syncCommands/modules/commands.py:132 | the sort is stable: the elements of any one key come out in the order they went in |

## Left out

- JSON files: loading them and writing them. The stores start from given
  tables, and each write of a file is counted, not performed.
- Concurrency and waiting: the event loop and tasks. They change no state of
  the model. The notes of the countdown task are the next item.
- Synchroniser.GuildNotes: the notes of the countdown task
  (`_wait_with_logs`, started when a progress callback is given) are not
  modelled. These are the "~Ns" waiting notes and the "Discord finished …"
  note, each at the capped percentage. So GuildNotes, GuildNotesShape and
  CommandsEngine.GuildUpdatesShape omit them. The task adds zero or more
  capped notes after the `Capped` note. When the submission fails, the
  failure note precedes the cancellation in `finally`, so one more capped
  note can follow the failure note.
- Synchroniser.GuildSynchroniser.AddCloneTo: assumes that the exception
  class named at sync.py:117, `app_commands.AppCommandAlreadyRegistered`,
  exists in the Discord library and is the one `add_command` raises for a
  taken name. The library is not part of this model. If that name were
  missing, evaluating the `except` clause would raise `AttributeError`,
  which escapes `sync_guild` and `sync_selected_guilds`. An add failure
  would then abort the sync instead of being retried or disabling the group.
- `ScopeValue`: rule objects whose `exclude`, `include` or `guilds` field is
  not a list of values are not modelled. For example, a string is iterated
  character by character by `_stringify_ids`, so `{"exclude": "123"}`
  excludes the guilds 1, 2 and 3. A `null` field raises `TypeError`. Fields
  are lists of strings, the `str()` of each stored value.
- Percentages as floats. A progress value is a `Note` carrying its numerator
  and denominator. The `min(99.0, …)` cap is a separate variant of it.
- Log lines, `report_missing` and the message texts passed to the progress
  notifier. These are logs or UI text.
- UI views: the invite view, the success view and the `synced` listing
  command (`show_synced_guilds`).
- `include_progress` without a callback. It only starts the countdown task,
  which only logs.
- Keys of context-menu commands. Cloning walks only chat-input groups, as in
  the source; label formats for the other command types are modelled.
- `int()` of a target: modelled for an optional '+' or '-' followed by ASCII
  digits. Python's `int()` also accepts surrounding whitespace, underscores
  between digits and Unicode digits.
- `str.lower()`: modelled for ASCII letters only. `str.strip()`: modelled for
  Unicode whitespace code points, without Unicode case rules.
- `_sync_commands_for_guild` and `syncGuilds/modules/commands.py`, a wrapper
  with a fallback path. `GuildSyncEngine.commandSyncs` records the guilds
  whose commands were synced after `add_guild` instead.
- CogEngine.SyncCogEngine.ResyncCommands: the failure note of its safety-net
  `except` is not modelled, because the modelled sync cannot raise.
  Consequently no reply carries " Note: …".
- Reply texts of the extension commands carry the exception text as a
  `detail` parameter.
- Admin.GuildSyncCog.SetCommand: the replies are a datatype, not the exact
  message text.
- Admin.GuildSyncCog.SetCommand: models the corrected command of Findings. It
  changes the rule of every key the requested key expands to, while the
  source stores a rule for the literal key. The as-written behaviour is
  `RuleChange` on the literal key (Admin.RawWildcardRuleInert).
- Admin.GuildSyncCog.Apply: expands the key before the rule changes, which
  the source does not; see Admin.GuildSyncCog.SetCommand above.
- Admin.GuildSyncCog.ChangeRules: a loop over the expanded keys, which the
  source does not have; it makes one store call for a key without `.*`.
- Admin.GuildSyncCog.SetCommand: for a `group.*` key the reply reports the
  scope of the literal key, as the source does.
- Admin.GuildSyncCog.SetCommand: the "cog is not loaded" path is not
  modelled. The cog object exists in the model whenever the command runs.
- `_sync_on_ready`: the start-up orchestration. Its parts are modelled one by
  one (`SyncGuilds`, `SyncCommands`, `DesyncCommands`); their sequencing is
  not.
- `list_available_command_keys` and `expand_command_key` delegate to
  `ListAvailableKeys` and `ExpandKey`. `get_guild_commands` and
  `get_disabled_groups` are the snapshot functions. `ensure_guilds` and
  `get_synced_guilds` return the state's snapshot (`Snapshot`). None of them
  is modelled separately.
- GuildEngine.SelectChannel: stated as "the earliest usable channel of
  lowest position". This is equivalent to the stable
  `sorted(key=position)` followed by the first usable channel. The sort
  itself is not modelled.
- Admin.EnsureAdmin: the contract states only the refusal side; the
  administrator flag itself is the body.

## Findings

| source | as written | input that shows it | evidently intended | confidence | as-written member | corrected member |
|---|---|---|---|---|---|---|
| cogs/guildSync/main.py:183-187 | `disable-command` and `enable-command` hand the key to the store unchanged. The key autocomplete offers `p.*` as "/p (all commands)", but that is stored as a rule for the literal key `p.*`. `clone_group` looks up leaf keys only, and `expand_command_key` is never called, so the rule has no effect (the same holds for lines 249-253). Admin.RawWildcardRuleInert states this for every rule table, target and guild. | `disable-command p.*` for guild 1 with no rules, where group `p` holds the one command `c`: the reply says the key was disabled, yet `p.c` stays enabled for guild 1 | the change applies to every key `expand_command_key` gives, that is, to every leaf under `p` | medium; not executed | Admin.RawWildcardRuleIgnored | Admin.ExpandedRuleChange |
