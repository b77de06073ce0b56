/** `SyncCommandsEngine` of `syncCommands/main.py`: syncs a batch of guilds
    one after the other through the `GuildSynchroniser`, collects what
    Discord confirmed for each, and forwards the progress of every guild to
    one callback. */
module CommandsEngine {
  import opened Wrappers
  import opened Sorting
  import opened Dicts
  import opened ScopeStore
  import opened Catalog
  import opened Remote
  import opened SyncStates
  import opened Platform
  import opened Synchroniser

  /** What the `add_command` calls of each guild's sync do; a guild not
      listed registers every clone at the first attempt. */
  type AddOracles = map<int, AddOracle>

  function AddsFor(adds: AddOracles, g: int): AddOracle {
    if g in adds then adds[g] else map[]
  }

  /** What the batch callback receives: `guild_progress(percent, message)`
      of guild number `idx` of `total`, either a notification of the
      guild's sync or the final 100 that says whether the guild synced. */
  datatype Step = Progress(note: Note) | Final(ok: bool)
  datatype Update = Update(idx: nat, total: nat, gid: int, step: Step)

  /** The notifications of guild number `idx`, as the batch callback
      receives them. */
  function Tag(idx: nat, total: nat, g: int, ns: seq<Note>): (r: seq<Update>)
    ensures |r| == |ns| && forall j :: 0 <= j < |ns| ==> r[j] == Update(idx, total, g, Progress(ns[j]))
  {
    seq(|ns|, j requires 0 <= j < |ns| => Update(idx, total, g, Progress(ns[j])))
  }

  /** The updates of guild number `idx`: when a callback is given, the
      guild's own notifications and then the final one when the guild
      failed or the batch has more than one guild; nothing otherwise. */
  function GuildUpdates(idx: nat, total: nat, g: int, n: nat, ok: bool, callback: bool): seq<Update> {
    Tag(idx, total, g, if callback then GuildNotes(n, ok) else [])
    + if callback && (!ok || total > 1) then [Update(idx, total, g, Final(ok))] else []
  }

  /** The parts of the state a batch changes, and what it returns. */
  datatype Batch = Batch(tree: Tree, snap: map<int, GuildSyncState>, results: Dict<int, seq<AppCommand>>, updates: seq<Update>)

  /** What one batch works with besides the guilds: the root groups, the
      rule table, and what Discord does with each call. */
  datatype Env = Env(roots: seq<Group>, rules: Rules, adds: AddOracles, submit: SubmitOracle, callback: bool)

  /** The sync of guild `g` in a batch. */
  function GuildJob(env: Env, g: int): Job {
    Job(Passes(env.roots, env.rules, g), g, AddsFor(env.adds, g))
  }

  /** One iteration of the guild loop: the guild's sync, then its result
      stored on success or its snapshot entry dropped on failure, then the
      updates sent. */
  function BatchOne(b: Batch, env: Env, total: nat, idx: nat, g: int): (r: Batch)
    requires Wf(b.results)
    ensures Wf(r.results)
  {
    var job, s, ok := GuildJob(env, g), InGuild(g), g in env.submit;
    var disabled := DisabledNames(job, |env.roots|);
    Batch(
      TreeSync(TreeCopyGlobal(LoopTree(b.tree, job, |env.roots|), s), s),
      if ok then b.snap[g := Entry(env.submit[g], disabled)] else b.snap - {g},
      if ok then Put(b.results, g, env.submit[g]) else b.results,
      b.updates + GuildUpdates(idx, total, g, |env.roots|, ok, env.callback))
  }

  /** The guild loop over `gs`, numbering the guilds from 1. */
  function BatchAll(b: Batch, env: Env, total: nat, gs: seq<int>): (r: Batch)
    requires Wf(b.results)
    ensures Wf(r.results)
  {
    if gs == [] then b
    else BatchOne(BatchAll(b, env, total, gs[..|gs| - 1]), env, total, |gs|, gs[|gs| - 1])
  }

  /** What `sync_selected_guilds(guilds, clear_global, reset_snapshots)`
      makes of the tree and the snapshots: nothing for no guilds; otherwise
      the batch over the guilds in order, after removing the global commands
      and clearing the snapshots when asked to. */
  function Selected(tree: Tree, snap: map<int, GuildSyncState>, guilds: Dict<int, Guild>,
                    clearGlobal: bool, resetSnapshots: bool, env: Env): Batch
  {
    if guilds == [] then Batch(tree, snap, [], [])
    else
      var start := Batch(
        if clearGlobal then TreeSync(RemoveAll(tree, Global, RootNames(env.roots)), Global) else tree,
        if resetSnapshots then map[] else snap, [], []);
      BatchAll(start, env, |guilds|, Keys(guilds))
  }

  /** The ids of a list of guilds. */
  function GuildIds(gs: seq<Guild>): (r: seq<int>)
    ensures |r| == |gs| && forall i :: 0 <= i < |gs| ==> r[i] == gs[i].id
  {
    seq(|gs|, i requires 0 <= i < |gs| => gs[i].id)
  }

  class SyncCommandsEngine {
    const synchroniser: GuildSynchroniser

    constructor (synchroniser: GuildSynchroniser)
      ensures this.synchroniser == synchroniser
    {
      this.synchroniser := synchroniser;
    }

    /** `desync_commands`: nothing for an empty list; otherwise the root
        groups are removed globally and from each guild. */
    method DesyncCommands(guilds: seq<Guild>, globalSubmitted: Option<seq<AppCommand>>, submit: SubmitOracle)
      modifies synchroniser.tree, synchroniser.state
      ensures var tree0, names := old(synchroniser.tree.State()), RootNames(synchroniser.roots);
        Desync(synchroniser.tree.State(), synchroniser.state.guilds) ==
          if guilds == [] then Desync(tree0, old(synchroniser.state.guilds))
          else DesyncAll(Desync(TreeSync(RemoveAll(tree0, Global, names), Global), old(synchroniser.state.guilds)), GuildIds(guilds), names, submit)
    {
      if guilds == [] {
        return;
      }
      synchroniser.RemoveGlobalCommands(globalSubmitted);
      synchroniser.DesyncGuilds(GuildIds(guilds), submit);
    }

    /** One iteration of the guild loop of `sync_selected_guilds`, from
        the state `b` describes. */
    method SyncOne(ghost b: Batch, env: Env, total: nat, idx: nat, g: int, results: Dict<int, seq<AppCommand>>)
      returns (results': Dict<int, seq<AppCommand>>, updates: seq<Update>)
      requires env.roots == synchroniser.roots && Wf(results)
      requires b.tree == synchroniser.tree.State() && b.snap == synchroniser.state.guilds && b.results == results
      modifies synchroniser.tree, synchroniser.state
      ensures Batch(synchroniser.tree.State(), synchroniser.state.guilds, results', b.updates + updates) == BatchOne(b, env, total, idx, g)
    {
      var synced, _, _, notes := synchroniser.SyncGuild(g, env.rules, AddsFor(env.adds, g), Submit(env.submit, g), env.callback);
      if synced.Some? {
        results' := Put(results, g, synced.value);
      } else {
        results' := results;
        synchroniser.state.RemoveGuild(g);
      }
      updates := Tag(idx, total, g, notes) + if env.callback && (synced.None? || total > 1) then [Update(idx, total, g, Final(synced.Some?))] else [];
    }

    /** `sync_selected_guilds`: nothing for an empty map; otherwise the
        optional global removal and snapshot reset, then each guild in map
        order. Returns what Discord confirmed for each guild that synced,
        and the updates sent to the callback. */
    method SyncSelectedGuilds(guilds: Dict<int, Guild>, clearGlobal: bool, resetSnapshots: bool, env: Env,
                              globalSubmitted: Option<seq<AppCommand>>)
      returns (results: Dict<int, seq<AppCommand>>, updates: seq<Update>)
      requires env.roots == synchroniser.roots
      modifies synchroniser.tree, synchroniser.state
      ensures Batch(synchroniser.tree.State(), synchroniser.state.guilds, results, updates)
        == Selected(old(synchroniser.tree.State()), old(synchroniser.state.guilds), guilds, clearGlobal, resetSnapshots, env)
    {
      results, updates := [], [];
      if guilds == [] {
        return;
      }
      if clearGlobal {
        synchroniser.RemoveGlobalCommands(globalSubmitted);
      }
      if resetSnapshots {
        synchroniser.state.Reset();
      }
      ghost var start := Batch(synchroniser.tree.State(), synchroniser.state.guilds, [], []);
      results, updates := RunBatch(start, env, |guilds|, Keys(guilds));
    }

    /** The guild loop of `sync_selected_guilds` over the guild ids `gs`,
        from the state `start` describes. */
    method RunBatch(ghost start: Batch, env: Env, total: nat, gs: seq<int>)
      returns (results: Dict<int, seq<AppCommand>>, updates: seq<Update>)
      requires env.roots == synchroniser.roots
      requires start == Batch(synchroniser.tree.State(), synchroniser.state.guilds, [], [])
      modifies synchroniser.tree, synchroniser.state
      ensures Batch(synchroniser.tree.State(), synchroniser.state.guilds, results, updates) == BatchAll(start, env, total, gs)
    {
      results, updates := [], [];
      for k := 0 to |gs|
        invariant Wf(results)
        invariant Batch(synchroniser.tree.State(), synchroniser.state.guilds, results, updates) == BatchAll(start, env, total, gs[..k])
      {
        BatchAllSnoc(start, env, total, gs, k);
        var more;
        results, more := SyncOne(BatchAll(start, env, total, gs[..k]), env, total, k + 1, gs[k], results);
        updates := updates + more;
      }
      assert gs[..|gs|] == gs;
    }

    /** `sync_commands`: a batch that first removes the global commands and
        resets every snapshot, without progress. */
    method SyncCommands(guilds: Dict<int, Guild>, rules: Rules, adds: AddOracles, submit: SubmitOracle,
                        globalSubmitted: Option<seq<AppCommand>>)
      returns (results: Dict<int, seq<AppCommand>>)
      modifies synchroniser.tree, synchroniser.state
      ensures var env := Env(synchroniser.roots, rules, adds, submit, false);
        var r := Selected(old(synchroniser.tree.State()), old(synchroniser.state.guilds), guilds, true, true, env);
        synchroniser.tree.State() == r.tree && synchroniser.state.guilds == r.snap && results == r.results
    {
      var env := Env(synchroniser.roots, rules, adds, submit, false);
      var updates;
      results, updates := SyncSelectedGuilds(guilds, true, true, env, globalSubmitted);
    }
  }

  lemma BatchAllSnoc(b: Batch, env: Env, total: nat, gs: seq<int>, k: nat)
    requires Wf(b.results) && k < |gs|
    ensures BatchAll(b, env, total, gs[..k + 1]) == BatchOne(BatchAll(b, env, total, gs[..k]), env, total, k + 1, gs[k])
  {
    assert gs[..k + 1][..k] == gs[..k];
  }

  // ---------------------------------------------------------------------
  // Properties of a batch

  /** Guild `g` is among the results of `BatchAll` exactly when it was
      before or it is one of `gs` and its sync succeeded; its value is what
      Discord confirmed for it. */
  lemma {:induction false} BatchResults(b: Batch, env: Env, total: nat, gs: seq<int>, g: int)
    requires Wf(b.results)
    ensures var r := BatchAll(b, env, total, gs).results;
      Get(r, g) == if g in gs && g in env.submit then Some(env.submit[g]) else Get(b.results, g)
  {
    if gs != [] {
      var init, last := gs[..|gs| - 1], gs[|gs| - 1];
      assert gs == init + [last];
      BatchResults(b, env, total, init, g);
      if last in env.submit {
        PutGet(BatchAll(b, env, total, init).results, last, env.submit[last], g);
      }
    }
  }

  /** Starting from no results, the result keys are the guilds whose sync
      succeeded, in the order of the batch. */
  lemma {:induction false} BatchResultOrder(b: Batch, env: Env, total: nat, gs: seq<int>)
    requires b.results == [] && Distinct(gs)
    ensures Keys(BatchAll(b, env, total, gs).results) == Filter(gs, g => g in env.submit)
  {
    if gs != [] {
      var init, last := gs[..|gs| - 1], gs[|gs| - 1];
      assert gs == init + [last];
      assert Distinct(init);
      BatchResultOrder(b, env, total, init);
      FilterConcat(init, [last], g => g in env.submit);
      if last in env.submit {
        FilterMembers(init, g => g in env.submit);
        assert last !in init;
      }
    }
  }

  /** With distinct guilds, each guild of the batch ends with the entry of
      its own confirmed sync, or with no entry when its sync failed; every
      other guild's entry is as it was. */
  lemma {:induction false} BatchSnapshot(b: Batch, env: Env, total: nat, gs: seq<int>, g: int)
    requires Wf(b.results) && Distinct(gs)
    ensures var snap := BatchAll(b, env, total, gs).snap;
      && (g in gs && g in env.submit ==>
            g in snap && snap[g] == Entry(env.submit[g], DisabledNames(GuildJob(env, g), |env.roots|)))
      && (g in gs && g !in env.submit ==> g !in snap)
      && (g !in gs ==> (g in snap <==> g in b.snap) && (g in snap ==> snap[g] == b.snap[g]))
  {
    if gs != [] {
      var init, last := gs[..|gs| - 1], gs[|gs| - 1];
      assert gs == init + [last];
      assert Distinct(init);
      BatchSnapshot(b, env, total, init, g);
      BatchOneSnapshot(BatchAll(b, env, total, init), env, total, |gs|, last, g);
    }
  }

  /** One guild's sync sets or drops its own snapshot entry only. */
  lemma BatchOneSnapshot(b: Batch, env: Env, total: nat, idx: nat, g: int, h: int)
    requires Wf(b.results)
    ensures var snap := BatchOne(b, env, total, idx, g).snap;
      && (h == g && g in env.submit ==> h in snap && snap[h] == Entry(env.submit[g], DisabledNames(GuildJob(env, g), |env.roots|)))
      && (h == g && g !in env.submit ==> h !in snap)
      && (h != g ==> (h in snap <==> h in b.snap) && (h in snap ==> snap[h] == b.snap[h]))
  {
  }

  /** After a batch that reset the snapshots, exactly the guilds that synced
      have an entry. */
  lemma ResetBatchKeys(b: Batch, env: Env, total: nat, gs: seq<int>)
    requires Wf(b.results) && Distinct(gs) && b.snap == map[]
    ensures BatchAll(b, env, total, gs).snap.Keys == set g | g in gs && g in env.submit
  {
    var snap := BatchAll(b, env, total, gs).snap;
    forall g | g in snap
      ensures g in gs && g in env.submit
    {
      BatchSnapshot(b, env, total, gs, g);
    }
    forall g | g in gs && g in env.submit
      ensures g in snap
    {
      BatchSnapshot(b, env, total, gs, g);
    }
  }

  /** The batch leaves the scope of every guild outside it, and the global
      scope, as they were. */
  lemma {:induction false} BatchKeepsOtherScopes(b: Batch, env: Env, total: nat, gs: seq<int>, u: Scope)
    requires Wf(b.results)
    requires forall g :: g in gs ==> u != InGuild(g)
    ensures In(BatchAll(b, env, total, gs).tree.reg, u) == In(b.tree.reg, u)
  {
    if gs != [] {
      var init, last := gs[..|gs| - 1], gs[|gs| - 1];
      assert forall g :: g in init ==> g in gs;
      BatchKeepsOtherScopes(b, env, total, init, u);
      var job := GuildJob(env, last);
      LoopKeepsOtherScopes(BatchAll(b, env, total, init).tree, job, |env.roots|, u);
    }
  }

  /** Without a callback nothing is sent. */
  lemma {:induction false} NoCallbackNoUpdates(b: Batch, env: Env, total: nat, gs: seq<int>)
    requires Wf(b.results) && !env.callback
    ensures BatchAll(b, env, total, gs).updates == b.updates
  {
    if gs != [] {
      NoCallbackNoUpdates(b, env, total, gs[..|gs| - 1]);
    }
  }

  /** With a callback, guild number `idx` sends its `n + 3` notifications
      tagged with its number, the batch size and its id, and then the final
      100 exactly when it failed or the batch has more than one guild. */
  lemma GuildUpdatesShape(idx: nat, total: nat, g: int, n: nat, ok: bool)
    ensures var us := GuildUpdates(idx, total, g, n, ok, true);
      var extra := if !ok || total > 1 then 1 else 0;
      && |us| == n + 3 + extra
      && (forall j :: 0 <= j < |us| ==> us[j].idx == idx && us[j].total == total && us[j].gid == g)
      && (forall j :: 0 <= j < n + 3 ==> us[j].step == Progress(GuildNotes(n, ok)[j]))
      && (extra == 1 ==> us[n + 3].step == Final(ok))
  {
    GuildNotesShape(n, ok);
  }

  /** The updates from `from` on name a guild of `gs` by its position. */
  predicate Indexed(us: seq<Update>, from: nat, gs: seq<int>, total: nat) {
    forall j :: from <= j < |us| ==> 1 <= us[j].idx <= |gs| && us[j].total == total && us[j].gid == gs[us[j].idx - 1]
  }

  /** Every update of a guild carries its number, the batch size and its id. */
  lemma GuildUpdatesTagged(idx: nat, total: nat, g: int, n: nat, ok: bool, callback: bool)
    ensures var us := GuildUpdates(idx, total, g, n, ok, callback);
      forall j :: 0 <= j < |us| ==> us[j].idx == idx && us[j].total == total && us[j].gid == g
  {
  }

  lemma IndexedAppend(prev: seq<Update>, more: seq<Update>, from: nat, gs: seq<int>, total: nat)
    requires gs != [] && from <= |prev| && Indexed(prev, from, gs[..|gs| - 1], total)
    requires forall j :: 0 <= j < |more| ==> more[j].idx == |gs| && more[j].total == total && more[j].gid == gs[|gs| - 1]
    ensures Indexed(prev + more, from, gs, total)
  {
    var us := prev + more;
    forall j | from <= j < |us|
      ensures 1 <= us[j].idx <= |gs| && us[j].total == total && us[j].gid == gs[us[j].idx - 1]
    {
      if j < |prev| {
        assert us[j] == prev[j];
      } else {
        assert us[j] == more[j - |prev|];
      }
    }
  }

  /** Every update of a batch names a guild of the batch by its position,
      after the updates that were there before. */
  lemma {:induction false} BatchUpdatesIndexed(b: Batch, env: Env, total: nat, gs: seq<int>)
    requires Wf(b.results)
    ensures var us := BatchAll(b, env, total, gs).updates;
      |b.updates| <= |us| && us[..|b.updates|] == b.updates && Indexed(us, |b.updates|, gs, total)
  {
    if gs != [] {
      var init, last := gs[..|gs| - 1], gs[|gs| - 1];
      BatchUpdatesIndexed(b, env, total, init);
      var prev := BatchAll(b, env, total, init).updates;
      var ok := last in env.submit;
      GuildUpdatesTagged(|gs|, total, last, |env.roots|, ok, env.callback);
      IndexedAppend(prev, GuildUpdates(|gs|, total, last, |env.roots|, ok, env.callback), |b.updates|, gs, total);
    }
  }
}
