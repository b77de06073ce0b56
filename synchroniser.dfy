/** `GuildSynchroniser` of `syncCommands/modules/sync.py`: registers the
    per-guild clone of every root group, submits the guild's tree, and keeps
    the snapshot of what Discord confirmed. */
module Synchroniser {
  import opened Wrappers
  import opened Sorting
  import opened ScopeStore
  import opened Catalog
  import opened Remote
  import opened SyncStates

  /** What the `add_command` calls of one guild's sync do, by root-group
      index and attempt (0 for the first call, 1 for the retry); a call not
      listed registers the command. */
  type AddOracle = map<(nat, nat), AddOutcome>

  function Attempt(add: AddOracle, i: nat, k: nat): AddOutcome {
    if (i, k) in add then add[(i, k)] else Added
  }

  /** What Discord confirms when a guild's tree is submitted, by guild; a
      guild not listed makes `tree.sync` raise. */
  type SubmitOracle = map<int, seq<AppCommand>>

  function Submit(submit: SubmitOracle, g: int): Option<seq<AppCommand>> {
    if g in submit then Some(submit[g]) else None
  }

  /** What one pass of the group loop works on: the root group's name and
      what `clone_group` returns for it. */
  datatype Pass = Pass(name: string, clone: Option<Group>)

  /** Everything one guild's sync depends on. */
  datatype Job = Job(passes: seq<Pass>, gid: int, add: AddOracle)

  /** The passes of a sync of guild `gid` under `rules`. */
  function Passes(roots: seq<Group>, rules: Rules, gid: int): (r: seq<Pass>)
    ensures |r| == |roots|
  {
    seq(|roots|, i requires 0 <= i < |roots| => Pass(roots[i].name, CloneOf(roots[i], None, rules, gid)))
  }

  /** A clone keeps its root group's name. */
  predicate NamesAgree(passes: seq<Pass>) {
    forall i | 0 <= i < |passes| :: passes[i].clone.Some? ==> passes[i].clone.value.name == passes[i].name
  }

  lemma PassesAgree(roots: seq<Group>, rules: Rules, gid: int)
    ensures NamesAgree(Passes(roots, rules, gid))
  {
    var ps := Passes(roots, rules, gid);
    forall i | 0 <= i < |ps| && ps[i].clone.Some?
      ensures ps[i].clone.value.name == ps[i].name
    {
      assert ps[i] == Pass(roots[i].name, CloneOf(roots[i], None, rules, gid));
    }
  }

  function PassNames(passes: seq<Pass>): (r: seq<string>)
    ensures |r| == |passes| && forall i :: 0 <= i < |passes| ==> r[i] == passes[i].name
  {
    seq(|passes|, i requires 0 <= i < |passes| => passes[i].name)
  }

  /** How a root group ends for the guild. */
  datatype GroupOutcome = Skipped | Registered(clone: Group) | Failed

  /** A progress notification: `Percent(n, d)` is `n / d * 100`, `Capped(n, d)`
      the same value passed through `min(99.0, ...)`, `Confirmed` the 100
      sent once Discord confirmed the sync. */
  datatype Note = Percent(num: nat, den: nat) | Capped(num: nat, den: nat) | Confirmed

  // ---------------------------------------------------------------------
  // The group loop, one root group at a time

  /** Registering root group `i`'s clone succeeds: the first `add_command`
      succeeds, or it raises "already registered" and the one retry
      succeeds. */
  predicate Registers(add: AddOracle, i: nat) {
    Attempt(add, i, 0) == Added || (Attempt(add, i, 0) == AlreadyRegistered && Attempt(add, i, 1) == Added)
  }

  /** The outcome of root group `i`: skipped when its clone is None,
      registered or failed otherwise. */
  function Outcome(job: Job, i: nat): GroupOutcome
    requires i < |job.passes|
  {
    match job.passes[i].clone
    case None => Skipped
    case Some(c) => if Registers(job.add, i) then Registered(c) else Failed
  }

  /** The `add_command` calls for clone `c` of root group `i` in scope `s`:
      one call, and after "already registered" a removal and one retry. */
  function AddClone(t: Tree, s: Scope, add: AddOracle, i: nat, c: Group): Tree {
    var t1 := TreeAdd(t, s, c, Attempt(add, i, 0));
    if Attempt(add, i, 0) == AlreadyRegistered then TreeAdd(TreeRemove(t1, s, c.name), s, c, Attempt(add, i, 1))
    else t1
  }

  /** The tree after processing root group `i`. */
  function AfterGroup(t: Tree, job: Job, i: nat): Tree
    requires i < |job.passes|
  {
    var s := InGuild(job.gid);
    var t1 := TreeRemove(t, s, job.passes[i].name);
    match job.passes[i].clone
    case None => t1
    case Some(c) => AddClone(t1, s, job.add, i, c)
  }

  /** The tree after the first `k` passes of the group loop. */
  function LoopTree(t: Tree, job: Job, k: nat): Tree
    requires k <= |job.passes|
  {
    if k == 0 then t else AfterGroup(LoopTree(t, job, k - 1), job, k - 1)
  }

  /** `enabled_groups` after the first `k` passes of the group loop. */
  function EnabledNames(job: Job, k: nat): seq<string>
    requires k <= |job.passes|
  {
    if k == 0 then []
    else if Outcome(job, k - 1).Registered? then EnabledNames(job, k - 1) + [job.passes[k - 1].name]
    else EnabledNames(job, k - 1)
  }

  /** `disabled_groups` after the first `k` passes of the group loop. */
  function DisabledNames(job: Job, k: nat): seq<string>
    requires k <= |job.passes|
  {
    if k == 0 then []
    else if Outcome(job, k - 1).Registered? then DisabledNames(job, k - 1)
    else DisabledNames(job, k - 1) + [job.passes[k - 1].name]
  }

  function RootNames(roots: seq<Group>): (r: seq<string>)
    ensures |r| == |roots| && forall i :: 0 <= i < |roots| ==> r[i] == roots[i].name
  {
    seq(|roots|, i requires 0 <= i < |roots| => roots[i].name)
  }

  // ---------------------------------------------------------------------
  // Progress and the snapshot

  /** `total_steps = max(1, len(root_groups)) + 1`: at least two steps, and
      more than there are root groups, so no group step reaches 100%. */
  function TotalSteps(n: nat): (r: nat)
    ensures r >= 2 && r > n
  {
    (if n < 1 then 1 else n) + 1
  }

  /** The notification after each of the first `k` root groups. */
  function StepNotes(k: nat, total: nat): (r: seq<Note>)
    ensures |r| == k && forall j :: 0 <= j < k ==> r[j] == Percent(j + 1, total)
  {
    if k == 0 then [] else StepNotes(k - 1, total) + [Percent(k, total)]
  }

  /** The notifications `sync_guild` itself sends for one guild with `n`
      root groups; the countdown task's notes are not among them. */
  function GuildNotes(n: nat, ok: bool): seq<Note> {
    var t := TotalSteps(n);
    [Percent(0, t)] + StepNotes(n, t) + [Capped(n, t)] + if ok then [Confirmed] else [Percent(n, t)]
  }

  /** `format_label` of each confirmed command. */
  function ConfirmedLabels(cs: seq<AppCommand>): (r: seq<string>)
    ensures |r| == |cs| && forall i :: 0 <= i < |cs| ==> r[i] == LabelFor(cs[i].name, cs[i].kind)
  {
    seq(|cs|, i requires 0 <= i < |cs| => LabelFor(cs[i].name, cs[i].kind))
  }

  /** The snapshot entry written after a confirmed sync. */
  function Entry(confirmed: seq<AppCommand>, disabled: seq<string>): GuildSyncState {
    GuildSyncState(SortedUnique(ConfirmedLabels(confirmed)), SortedUnique(disabled))
  }

  // ---------------------------------------------------------------------
  // Desync and global removal

  /** `remove_command` for each of `names` in turn, in scope `s`. */
  function RemoveAll(t: Tree, s: Scope, names: seq<string>): Tree {
    if names == [] then t
    else TreeRemove(RemoveAll(t, s, names[..|names| - 1]), s, names[|names| - 1])
  }

  /** `removed_any`: some name was registered in the scope. */
  predicate AnyRegistered(m: map<string, Node>, names: seq<string>) {
    exists i | 0 <= i < |names| :: names[i] in m
  }

  /** The tree and the snapshot of every guild. */
  datatype Desync = Desync(tree: Tree, snap: map<int, GuildSyncState>)

  /** One guild of `desync_guilds`: the guild is submitted only when some
      root group was registered there, and its snapshot is dropped only when
      that submission succeeds. */
  function DesyncOne(d: Desync, g: int, names: seq<string>, submit: SubmitOracle): Desync {
    var s := InGuild(g);
    var t := RemoveAll(d.tree, s, names);
    if !AnyRegistered(In(d.tree.reg, s), names) then Desync(t, d.snap)
    else if g !in submit then Desync(TreeSync(t, s), d.snap)
    else Desync(TreeSync(t, s), d.snap - {g})
  }

  /** `desync_guilds` on the guilds `gs`, in order. */
  function DesyncAll(d: Desync, gs: seq<int>, names: seq<string>, submit: SubmitOracle): Desync {
    if gs == [] then d
    else DesyncOne(DesyncAll(d, gs[..|gs| - 1], names, submit), gs[|gs| - 1], names, submit)
  }

  class GuildSynchroniser {
    /** `cloner.root_groups` */
    const roots: seq<Group>
    const tree: CommandTree
    const state: SyncState

    constructor (roots: seq<Group>, tree: CommandTree)
      ensures this.roots == roots && this.tree == tree
      ensures fresh(state) && state.guilds == map[]
    {
      this.roots := roots;
      this.tree := tree;
      state := new SyncState();
    }

    /** The root-group loop of `desync_guilds` and `remove_global_commands`. */
    method RemoveRoots(s: Scope) returns (removedAny: bool)
      modifies tree
      ensures tree.State() == RemoveAll(old(tree.State()), s, RootNames(roots))
      ensures removedAny == AnyRegistered(In(old(tree.commands), s), RootNames(roots))
    {
      var names := RootNames(roots);
      ghost var start := tree.State();
      removedAny := false;
      for i := 0 to |roots|
        invariant tree.State() == RemoveAll(start, s, names[..i])
        invariant removedAny == AnyRegistered(In(start.reg, s), names[..i])
      {
        RemoveAllSnoc(start, s, names[..i], names[i]);
        RemovedAnyStep(start, s, names[..i], names[i]);
        var removed := tree.RemoveCommand(names[i], s);
        removedAny := removedAny || removed.Some?;
        assert names[..i + 1] == names[..i] + [names[i]];
      }
      assert names[..|roots|] == names;
    }

    /** `remove_global_commands`: removes every root group from the global
        scope, then submits the global tree; a failed submission is only
        logged. */
    method RemoveGlobalCommands(submitted: Option<seq<AppCommand>>)
      modifies tree
      ensures tree.State() == TreeSync(RemoveAll(old(tree.State()), Global, RootNames(roots)), Global)
    {
      var _ := RemoveRoots(Global);
      var _ := tree.Sync(Global, submitted);
    }

    /** The body of the guild loop of `desync_guilds`. */
    method DesyncGuild(g: int, submit: SubmitOracle)
      modifies tree, state
      ensures Desync(tree.State(), state.guilds) == DesyncOne(Desync(old(tree.State()), old(state.guilds)), g, RootNames(roots), submit)
    {
      var s := InGuild(g);
      var removedAny := RemoveRoots(s);
      if removedAny {
        var confirmed := tree.Sync(s, Submit(submit, g));
        if confirmed.Some? {
          state.RemoveGuild(g);
        }
      }
    }

    /** `desync_guilds`: for each guild, removes every root group from its
        scope; when something was removed, submits the guild and, once that
        succeeds, drops its snapshot. */
    method DesyncGuilds(gs: seq<int>, submit: SubmitOracle)
      modifies tree, state
      ensures Desync(tree.State(), state.guilds) == DesyncAll(Desync(old(tree.State()), old(state.guilds)), gs, RootNames(roots), submit)
    {
      ghost var start := Desync(tree.State(), state.guilds);
      for k := 0 to |gs|
        invariant Desync(tree.State(), state.guilds) == DesyncAll(start, gs[..k], RootNames(roots), submit)
      {
        assert gs[..k + 1][..k] == gs[..k];
        DesyncGuild(gs[k], submit);
      }
      assert gs[..|gs|] == gs;
    }

    /** The `add_command` calls of one pass of the group loop, with the
        retry after "already registered". */
    method AddCloneTo(c: Group, s: Scope, add: AddOracle, i: nat) returns (added: bool)
      modifies tree
      ensures added == Registers(add, i)
      ensures tree.State() == AddClone(old(tree.State()), s, add, i, c)
    {
      var first := tree.AddCommand(c, s, Attempt(add, i, 0));
      if first == AlreadyRegistered {
        var _ := tree.RemoveCommand(c.name, s);
        var second := tree.AddCommand(c, s, Attempt(add, i, 1));
        added := second == Added;
      } else {
        added := first == Added;
      }
    }

    /** One pass of the group loop of `sync_guild`; says whether the
        group's clone was registered. */
    method SyncGroup(job: Job, rules: Rules, i: nat) returns (added: bool)
      requires job.passes == Passes(roots, rules, job.gid) && i < |roots|
      modifies tree
      ensures added == Outcome(job, i).Registered?
      ensures tree.State() == AfterGroup(old(tree.State()), job, i)
    {
      var s, group := InGuild(job.gid), roots[i];
      var _ := tree.RemoveCommand(group.name, s);
      var clone := CloneGroup(group, None, rules, job.gid);
      assert clone == job.passes[i].clone;
      added := false;
      if clone.Some? {
        added := AddCloneTo(clone.value, s, job.add, i);
      }
    }

    /** The group loop of `sync_guild`, with the notification after each
        group. */
    method RunGroups(job: Job, rules: Rules) returns (enabled: seq<string>, disabled: seq<string>, steps: seq<Note>)
      requires job.passes == Passes(roots, rules, job.gid)
      modifies tree
      ensures tree.State() == LoopTree(old(tree.State()), job, |roots|)
      ensures enabled == EnabledNames(job, |roots|) && disabled == DisabledNames(job, |roots|)
      ensures steps == StepNotes(|roots|, TotalSteps(|roots|))
    {
      ghost var start := tree.State();
      var total := TotalSteps(|roots|);
      var current := 0;
      enabled, disabled, steps := [], [], [];
      for i := 0 to |roots|
        invariant current == i
        invariant tree.State() == LoopTree(start, job, i)
        invariant enabled == EnabledNames(job, i) && disabled == DisabledNames(job, i)
        invariant steps == StepNotes(i, total)
      {
        var added := SyncGroup(job, rules, i);
        if added {
          enabled := enabled + [roots[i].name];
        } else {
          disabled := disabled + [roots[i].name];
        }
        current := current + 1;
        steps := steps + [Percent(current, total)];
      }
    }

    /** `sync_guild`: the group loop, the copy of the global commands, then
        the submission. Returns Discord's confirmation (None when the
        submission raised) together with the two lists the loop builds and
        the notifications sent when a progress notifier is given. */
    method SyncGuild(gid: int, rules: Rules, add: AddOracle, submitted: Option<seq<AppCommand>>, notify: bool)
      returns (synced: Option<seq<AppCommand>>, enabled: seq<string>, disabled: seq<string>, notes: seq<Note>)
      modifies tree, state
      ensures var job := Job(Passes(roots, rules, gid), gid, add);
        && synced == submitted
        && enabled == EnabledNames(job, |roots|) && disabled == DisabledNames(job, |roots|)
        && tree.State() == TreeSync(TreeCopyGlobal(LoopTree(old(tree.State()), job, |roots|), InGuild(gid)), InGuild(gid))
        && state.guilds == (if submitted.None? then old(state.guilds) else old(state.guilds)[gid := Entry(submitted.value, disabled)])
        && notes == (if notify then GuildNotes(|roots|, submitted.Some?) else [])
    {
      var job := Job(Passes(roots, rules, gid), gid, add);
      var s := InGuild(gid);
      var total := TotalSteps(|roots|);
      var steps;
      enabled, disabled, steps := RunGroups(job, rules);
      var all := [Percent(0, total)] + steps;
      tree.CopyGlobalTo(s);
      all := all + [Capped(|roots|, total)];
      synced := tree.Sync(s, submitted);
      if synced.None? {
        all := all + [Percent(|roots|, total)];
      } else {
        all := all + [Confirmed];
        var labels := SortedUnique(ConfirmedLabels(synced.value));
        var disabledUnique := SortedUnique(disabled);
        state.UpdateGuild(gid, labels, disabledUnique);
      }
      notes := if notify then all else [];
    }
  }

  // ---------------------------------------------------------------------
  // Helpers for the loops

  lemma RemoveAllSnoc(t: Tree, s: Scope, names: seq<string>, x: string)
    ensures RemoveAll(t, s, names + [x]) == TreeRemove(RemoveAll(t, s, names), s, x)
  {
    assert (names + [x])[..|names|] == names;
  }

  lemma AnyRegisteredHas(m: map<string, Node>, names: seq<string>, x: string)
    requires x in names && x in m
    ensures AnyRegistered(m, names)
  {
    var i :| 0 <= i < |names| && names[i] == x;
  }

  lemma AnyRegisteredSnoc(m: map<string, Node>, names: seq<string>, x: string)
    ensures AnyRegistered(m, names + [x]) <==> AnyRegistered(m, names) || x in m
  {
    var t := names + [x];
    if AnyRegistered(m, names) {
      var i :| 0 <= i < |names| && names[i] in m;
      assert t[i] == names[i];
    }
    if x in m {
      assert t[|names|] == x;
    }
    if AnyRegistered(m, t) {
      var i :| 0 <= i < |t| && t[i] in m;
      if i < |names| {
        assert names[i] == t[i];
      }
    }
  }

  /** `removed_any` after one more `remove_command`: the call finds the name
      still registered exactly when it was registered at the start and not
      removed earlier in the loop. */
  lemma RemovedAnyStep(t: Tree, s: Scope, names: seq<string>, x: string)
    ensures AnyRegistered(In(t.reg, s), names + [x])
      <==> AnyRegistered(In(t.reg, s), names) || x in In(RemoveAll(t, s, names).reg, s)
  {
    RemoveAllIn(t, s, names, x);
    AnyRegisteredSnoc(In(t.reg, s), names, x);
    if x in names && x in In(t.reg, s) {
      AnyRegisteredHas(In(t.reg, s), names, x);
    }
  }

  // ---------------------------------------------------------------------
  // Properties of removal

  /** Removing `names` in scope `s` unregisters exactly those names there
      and leaves the other registrations of the scope as they were. */
  lemma {:induction false} RemoveAllIn(t: Tree, s: Scope, names: seq<string>, x: string)
    ensures x in In(RemoveAll(t, s, names).reg, s) <==> x in In(t.reg, s) && x !in names
    ensures x in In(RemoveAll(t, s, names).reg, s) ==> In(RemoveAll(t, s, names).reg, s)[x] == In(t.reg, s)[x]
  {
    if names != [] {
      var init := names[..|names| - 1];
      RemoveAllIn(t, s, init, x);
      assert names == init + [names[|names| - 1]];
    }
  }

  /** Removing names in scope `s` leaves every other scope as it was, and
      only appends one removal call per name to the log. */
  lemma {:induction false} RemoveAllElsewhere(t: Tree, s: Scope, names: seq<string>, u: Scope)
    requires u != s
    ensures In(RemoveAll(t, s, names).reg, u) == In(t.reg, u)
    ensures |RemoveAll(t, s, names).calls| == |t.calls| + |names|
    ensures RemoveAll(t, s, names).calls[..|t.calls|] == t.calls
  {
    if names != [] {
      RemoveAllElsewhere(t, s, names[..|names| - 1], u);
    }
  }

  /** After `desync_guilds`, no root group is registered in any of the
      desynced guilds' scopes. */
  lemma {:induction false} DesyncClearsGuilds(d: Desync, gs: seq<int>, names: seq<string>, submit: SubmitOracle, g: int, x: string)
    requires g in gs && x in names
    ensures x !in In(DesyncAll(d, gs, names, submit).tree.reg, InGuild(g))
  {
    var init, last := gs[..|gs| - 1], gs[|gs| - 1];
    var prev := DesyncAll(d, init, names, submit);
    if g == last {
      DesyncOneClears(prev, g, names, submit, x);
    } else {
      assert g in init by {
        assert gs == init + [last];
      }
      DesyncClearsGuilds(d, init, names, submit, g, x);
      DesyncOneElsewhere(prev, last, names, submit, InGuild(g));
    }
  }

  /** One guild's desync unregisters every root group in its scope. */
  lemma DesyncOneClears(d: Desync, g: int, names: seq<string>, submit: SubmitOracle, x: string)
    requires x in names
    ensures x !in In(DesyncOne(d, g, names, submit).tree.reg, InGuild(g))
  {
    RemoveAllIn(d.tree, InGuild(g), names, x);
  }

  /** `desync_guilds` leaves the global scope, and the scope and snapshot
      of every guild it was not given, as they were. */
  lemma {:induction false} DesyncKeepsOthers(d: Desync, gs: seq<int>, names: seq<string>, submit: SubmitOracle, u: Scope)
    requires forall g :: g in gs ==> u != InGuild(g)
    ensures In(DesyncAll(d, gs, names, submit).tree.reg, u) == In(d.tree.reg, u)
    ensures u.InGuild? && u.id in d.snap ==>
      u.id in DesyncAll(d, gs, names, submit).snap && DesyncAll(d, gs, names, submit).snap[u.id] == d.snap[u.id]
  {
    if gs != [] {
      var init := gs[..|gs| - 1];
      assert forall g :: g in init ==> g in gs;
      DesyncKeepsOthers(d, init, names, submit, u);
      DesyncOneElsewhere(DesyncAll(d, init, names, submit), gs[|gs| - 1], names, submit, u);
    }
  }

  /** One guild's desync leaves every other scope and snapshot entry alone. */
  lemma DesyncOneElsewhere(d: Desync, g: int, names: seq<string>, submit: SubmitOracle, u: Scope)
    requires u != InGuild(g)
    ensures In(DesyncOne(d, g, names, submit).tree.reg, u) == In(d.tree.reg, u)
    ensures u.InGuild? && u.id in d.snap ==>
      u.id in DesyncOne(d, g, names, submit).snap && DesyncOne(d, g, names, submit).snap[u.id] == d.snap[u.id]
  {
    RemoveAllElsewhere(d.tree, InGuild(g), names, u);
  }

  /** A guild's snapshot entry is dropped exactly when one of its root
      groups was registered there and the submission succeeded. */
  lemma DesyncOneSnapshot(d: Desync, g: int, names: seq<string>, submit: SubmitOracle)
    ensures var d' := DesyncOne(d, g, names, submit);
      (g !in d'.snap <==> g !in d.snap || (AnyRegistered(In(d.tree.reg, InGuild(g)), names) && g in submit))
  {
  }

  /** After `remove_global_commands`, no root group is registered globally,
      and no guild's registrations changed. */
  lemma RemoveGlobalClears(t: Tree, roots: seq<Group>, x: string, u: Scope)
    requires u != Global
    ensures var t' := TreeSync(RemoveAll(t, Global, RootNames(roots)), Global);
      (x in RootNames(roots) ==> x !in In(t'.reg, Global)) && In(t'.reg, u) == In(t.reg, u)
  {
    RemoveAllIn(t, Global, RootNames(roots), x);
    RemoveAllElsewhere(t, Global, RootNames(roots), u);
  }

  // ---------------------------------------------------------------------
  // Properties of the group loop

  /** Each root group ends up in exactly one of `enabled_groups` and
      `disabled_groups`. */
  lemma {:induction false} LoopPartition(job: Job, k: nat)
    requires k <= |job.passes|
    ensures multiset(EnabledNames(job, k)) + multiset(DisabledNames(job, k)) == multiset(PassNames(job.passes[..k]))
  {
    if k > 0 {
      LoopPartition(job, k - 1);
      PassNamesSnoc(job.passes, k);
      PartitionStep(EnabledNames(job, k - 1), DisabledNames(job, k - 1), PassNames(job.passes[..k - 1]), job.passes[k - 1].name);
      LoopStep(job, k);
    }
  }

  lemma PassNamesSnoc(passes: seq<Pass>, k: nat)
    requires 0 < k <= |passes|
    ensures PassNames(passes[..k]) == PassNames(passes[..k - 1]) + [passes[k - 1].name]
  {
  }

  /** One pass appends the group's name to exactly one of the two lists. */
  lemma LoopStep(job: Job, k: nat)
    requires 0 < k <= |job.passes|
    ensures var name := job.passes[k - 1].name;
      || (EnabledNames(job, k) == EnabledNames(job, k - 1) + [name] && DisabledNames(job, k) == DisabledNames(job, k - 1))
      || (EnabledNames(job, k) == EnabledNames(job, k - 1) && DisabledNames(job, k) == DisabledNames(job, k - 1) + [name])
  {
  }

  lemma PartitionStep(e: seq<string>, d: seq<string>, n: seq<string>, x: string)
    requires multiset(e) + multiset(d) == multiset(n)
    ensures multiset(e + [x]) + multiset(d) == multiset(n + [x])
    ensures multiset(e) + multiset(d + [x]) == multiset(n + [x])
  {
  }

  /** A name is in `enabled_groups` exactly when some root group of that
      name was registered. */
  lemma {:induction false} LoopEnabled(job: Job, k: nat, x: string)
    requires k <= |job.passes|
    ensures x in EnabledNames(job, k) <==> exists i | 0 <= i < k :: job.passes[i].name == x && Outcome(job, i).Registered?
  {
    if k > 0 {
      LoopEnabled(job, k - 1, x);
      if Outcome(job, k - 1).Registered? && job.passes[k - 1].name == x {
        assert x in EnabledNames(job, k);
      }
    }
  }

  /** One pass touches only the guild's scope. */
  lemma AfterGroupElsewhere(t: Tree, job: Job, k: nat, u: Scope)
    requires 0 < k <= |job.passes| && u != InGuild(job.gid)
    ensures In(LoopTree(t, job, k).reg, u) == In(LoopTree(t, job, k - 1).reg, u)
  {
  }

  /** `m` and `m0` agree on the name `y`. */
  predicate SameAt(m: map<string, Node>, m0: map<string, Node>, y: string) {
    (y in m <==> y in m0) && (y in m ==> m[y] == m0[y])
  }

  /** In the guild's scope, one pass touches only the group's own name. */
  lemma AfterGroupOtherName(t: Tree, job: Job, k: nat, y: string)
    requires NamesAgree(job.passes)
    requires 0 < k <= |job.passes| && y != job.passes[k - 1].name
    ensures SameAt(In(LoopTree(t, job, k).reg, InGuild(job.gid)), In(LoopTree(t, job, k - 1).reg, InGuild(job.gid)), y)
  {
    var c := job.passes[k - 1].clone;
    if c.Some? {
      assert c.value.name == job.passes[k - 1].name;
    }
  }

  /** One pass only appends to the call log: one removal for a skipped
      group, a removal and an add when the first attempt settles it, and a
      removal, an add, a removal and the retry after "already registered". */
  lemma AfterGroupCalls(t: Tree, job: Job, i: nat)
    requires NamesAgree(job.passes)
    requires i < |job.passes|
    ensures var t', s, name := AfterGroup(t, job, i), InGuild(job.gid), job.passes[i].name;
      t'.calls == t.calls + match Outcome(job, i)
        case Skipped => [RemoveCall(s, name)]
        case _ =>
          if Attempt(job.add, i, 0) == AlreadyRegistered
          then [RemoveCall(s, name), AddCall(s, name), RemoveCall(s, name), AddCall(s, name)]
          else [RemoveCall(s, name), AddCall(s, name)]
  {
    var c := job.passes[i].clone;
    if c.Some? {
      assert c.value.name == job.passes[i].name;
    }
  }

  /** After its pass, a registered group's clone is registered under the
      group's name in the guild's scope, and a skipped or failed group has
      no registration there. */
  lemma AfterGroupRegisters(t: Tree, job: Job, i: nat)
    requires NamesAgree(job.passes)
    requires i < |job.passes|
    ensures var m := In(AfterGroup(t, job, i).reg, InGuild(job.gid));
      match Outcome(job, i)
      case Registered(c) => job.passes[i].name in m && m[job.passes[i].name] == Sub(c)
      case _ => job.passes[i].name !in m
  {
    var c := job.passes[i].clone;
    if c.Some? {
      assert c.value.name == job.passes[i].name;
    }
  }

  /** The group loop leaves every other scope as it was. */
  lemma {:induction false} LoopKeepsOtherScopes(t: Tree, job: Job, k: nat, u: Scope)
    requires k <= |job.passes| && u != InGuild(job.gid)
    ensures In(LoopTree(t, job, k).reg, u) == In(t.reg, u)
  {
    if k > 0 {
      LoopKeepsOtherScopes(t, job, k - 1, u);
      AfterGroupElsewhere(t, job, k, u);
    }
  }

  /** For a root group whose name no later root group shares, the loop
      leaves its registration in the guild's scope as its own pass set it:
      its clone when registered, nothing when skipped or failed. */
  lemma {:induction false} LoopRegistration(t: Tree, job: Job, k: nat, i: nat)
    requires NamesAgree(job.passes)
    requires i < k <= |job.passes|
    requires forall j :: i < j < k ==> job.passes[j].name != job.passes[i].name
    ensures var m := In(LoopTree(t, job, k).reg, InGuild(job.gid));
      match Outcome(job, i)
      case Registered(c) => job.passes[i].name in m && m[job.passes[i].name] == Sub(c)
      case _ => job.passes[i].name !in m
  {
    if k - 1 == i {
      AfterGroupRegisters(LoopTree(t, job, i), job, i);
    } else {
      LoopRegistration(t, job, k - 1, i);
      AfterGroupOtherName(t, job, k, job.passes[i].name);
    }
  }

  /** A name that is not a root group's is left alone by the loop. */
  lemma {:induction false} LoopKeepsOtherNames(t: Tree, job: Job, k: nat, y: string)
    requires NamesAgree(job.passes)
    requires k <= |job.passes| && y !in PassNames(job.passes)
    ensures SameAt(In(LoopTree(t, job, k).reg, InGuild(job.gid)), In(t.reg, InGuild(job.gid)), y)
  {
    if k > 0 {
      LoopKeepsOtherNames(t, job, k - 1, y);
      assert PassNames(job.passes)[k - 1] == job.passes[k - 1].name;
      AfterGroupOtherName(t, job, k, y);
    }
  }

  /** After `sync_guild`, the guild's scope holds what the loop registered
      overlaid by the global commands, and no other scope changed. */
  lemma SyncGuildScopes(t: Tree, job: Job, u: Scope)
    ensures var l := LoopTree(t, job, |job.passes|);
      var t' := TreeSync(TreeCopyGlobal(l, InGuild(job.gid)), InGuild(job.gid));
      && In(t'.reg, InGuild(job.gid)) == In(l.reg, InGuild(job.gid)) + In(t.reg, Global)
      && (u != InGuild(job.gid) ==> In(t'.reg, u) == In(t.reg, u))
  {
    LoopKeepsOtherScopes(t, job, |job.passes|, Global);
    if u != InGuild(job.gid) {
      LoopKeepsOtherScopes(t, job, |job.passes|, u);
    }
  }

  // ---------------------------------------------------------------------
  // Properties of progress and the snapshot

  /** A sync with `n` root groups sends `n + 3` notifications: 0 first,
      then one increasing step per group, each below 100, the capped
      submission value, and last 100 exactly when Discord confirmed. */
  lemma GuildNotesShape(n: nat, ok: bool)
    ensures var ns, t := GuildNotes(n, ok), TotalSteps(n);
      && |ns| == n + 3 && t > n
      && ns[0] == Percent(0, t)
      && (forall j :: 1 <= j <= n ==> ns[j] == Percent(j, t))
      && ns[n + 1] == Capped(n, t)
      && ns[n + 2] == (if ok then Confirmed else Percent(n, t))
      && (Confirmed in ns <==> ok)
  {
    var ns, t := GuildNotes(n, ok), TotalSteps(n);
    if Confirmed in ns {
      var j :| 0 <= j < |ns| && ns[j] == Confirmed;
      assert j == n + 2;
    }
  }

  /** The snapshot entry lists each confirmed command's label once, sorted,
      and each disabled root group once, sorted. */
  lemma EntryShape(confirmed: seq<AppCommand>, disabled: seq<string>, x: string)
    ensures var e := Entry(confirmed, disabled);
      && StrictlySorted(e.labels) && StrictlySorted(e.disabled)
      && (x in e.labels <==> exists c | c in confirmed :: x == LabelFor(c.name, c.kind))
      && (x in e.disabled <==> x in disabled)
  {
    var ls := ConfirmedLabels(confirmed);
    if x in ls {
      var i :| 0 <= i < |ls| && ls[i] == x;
      assert confirmed[i] in confirmed;
    }
    if exists c | c in confirmed :: x == LabelFor(c.name, c.kind) {
      var c :| c in confirmed && x == LabelFor(c.name, c.kind);
      var i :| 0 <= i < |confirmed| && confirmed[i] == c;
      assert ls[i] == x;
    }
  }
}
