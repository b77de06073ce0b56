/** `ConfiguredGuildsState` of `syncGuilds/modules/state.py`: the managed
    guilds, by id, in insertion order. */
module ConfiguredGuilds {
  import opened Wrappers
  import opened Dicts
  import opened Platform

  class ConfiguredGuildsState {
    var guilds: Dict<int, Guild>

    ghost predicate Valid()
      reads this
    {
      Wf(guilds)
    }

    constructor ()
      ensures Valid() && guilds == []
    {
      guilds := [];
    }

    /** `replace`: `clear()` then `update(entries)`, so the map becomes
        `entries`, in its order. */
    method Replace(entries: Dict<int, Guild>)
      requires Wf(entries)
      modifies this
      ensures Valid() && guilds == entries
    {
      guilds := [];
      for i := 0 to |entries|
        invariant Wf(guilds) && guilds == entries[..i]
      {
        assert entries[i].0 !in Keys(guilds) by {
          assert Keys(guilds) == Keys(entries)[..i];
        }
        PutNew(guilds, entries[i].0, entries[i].1);
        guilds := Put(guilds, entries[i].0, entries[i].1);
        assert entries[..i + 1] == entries[..i] + [entries[i]];
      }
      assert entries[..|entries|] == entries;
    }

    /** `update`: `guilds[g] = guild`. */
    method Update(g: int, guild: Guild)
      requires Valid()
      modifies this
      ensures Valid() && guilds == Put(old(guilds), g, guild)
    {
      guilds := Put(guilds, g, guild);
    }

    /** `get`: the stored guild, None when absent. */
    function Get(g: int): (r: Option<Guild>)
      reads this
      ensures r.Some? <==> g in Keys(guilds)
      ensures r.Some? ==> (g, r.value) in guilds
    {
      Dicts.Get(guilds, g)
    }

    /** `remove`: `pop(g, None)`. */
    method Remove(g: int)
      requires Valid()
      modifies this
      ensures Valid() && guilds == Pop(old(guilds), g)
    {
      guilds := Pop(guilds, g);
    }

    /** `clear` */
    method Clear()
      modifies this
      ensures Valid() && guilds == []
    {
      guilds := [];
    }

    /** `snapshot`: `dict(self.guilds)`, an equal copy that later updates
        of the state do not affect. */
    function Snapshot(): Dict<int, Guild>
      reads this
    {
      guilds
    }
  }

  /** Putting a key that is not there yet appends the pair. */
  lemma {:induction false} PutNew<K(!new), V(!new)>(d: Dict<K, V>, k: K, v: V)
    requires Wf(d) && k !in Keys(d)
    ensures Put(d, k, v) == d + [(k, v)]
  {
    if d != [] {
      ConsKeys(d);
      PutNew(d[1..], k, v);
      assert [d[0]] + (d[1..] + [(k, v)]) == d + [(k, v)];
    }
  }
}
