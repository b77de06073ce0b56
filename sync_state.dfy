/** `SyncState` of `syncCommands/modules/state.py`: what the last successful
    sync of each guild confirmed. */
module SyncStates {

  /** `GuildSyncState`: the labels of the confirmed commands and the root
      groups left out for the guild. */
  datatype GuildSyncState = GuildSyncState(labels: seq<string>, disabled: seq<string>)

  /** The label lists of every guild (`snapshot`). */
  function Labels(m: map<int, GuildSyncState>): (r: map<int, seq<string>>)
    ensures r.Keys == m.Keys
    ensures forall g :: g in r ==> r[g] == m[g].labels
  {
    map g | g in m :: m[g].labels
  }

  /** The disabled-group lists of every guild (`disabled_snapshot`). */
  function DisabledLists(m: map<int, GuildSyncState>): (r: map<int, seq<string>>)
    ensures r.Keys == m.Keys
    ensures forall g :: g in r ==> r[g] == m[g].disabled
  {
    map g | g in m :: m[g].disabled
  }

  class SyncState {
    /** `guilds`: guild id to its last confirmed state. */
    var guilds: map<int, GuildSyncState>

    constructor ()
      ensures guilds == map[]
    {
      guilds := map[];
    }

    /** `update_guild`: overwrites the guild's entry. */
    method UpdateGuild(g: int, labels: seq<string>, disabled: seq<string>)
      modifies this
      ensures guilds == old(guilds)[g := GuildSyncState(labels, disabled)]
    {
      guilds := guilds[g := GuildSyncState(labels, disabled)];
    }

    /** `remove_guild`: `pop(g, None)`, a no-op for an absent guild. */
    method RemoveGuild(g: int)
      modifies this
      ensures guilds == old(guilds) - {g}
    {
      guilds := guilds - {g};
    }

    /** `reset` */
    method Reset()
      modifies this
      ensures guilds == map[]
    {
      guilds := map[];
    }

    /** `snapshot`: a fresh mapping from guild to its labels. */
    function Snapshot(): map<int, seq<string>>
      reads this
    {
      Labels(guilds)
    }

    /** `disabled_snapshot` */
    function DisabledSnapshot(): map<int, seq<string>>
      reads this
    {
      DisabledLists(guilds)
    }
  }

  /** `update_guild` sets exactly the guild's entry and leaves every other
      guild's entry as it was. */
  lemma UpdateOnlyTouchesGuild(m: map<int, GuildSyncState>, g: int, labels: seq<string>, disabled: seq<string>)
    ensures var m' := m[g := GuildSyncState(labels, disabled)];
      && Labels(m')[g] == labels && DisabledLists(m')[g] == disabled
      && Labels(m').Keys == m.Keys + {g}
      && forall h :: h in m && h != g ==> Labels(m')[h] == Labels(m)[h] && DisabledLists(m')[h] == DisabledLists(m)[h]
  {
  }

  /** `remove_guild` drops only the guild's entry, and removing twice is the
      same as removing once. */
  lemma RemoveOnlyTouchesGuild(m: map<int, GuildSyncState>, g: int)
    ensures g !in Labels(m - {g}) && g !in DisabledLists(m - {g})
    ensures forall h :: h in m && h != g ==> Labels(m - {g})[h] == Labels(m)[h]
    ensures (m - {g}) - {g} == m - {g}
    ensures g !in m ==> m - {g} == m
  {
  }
}
