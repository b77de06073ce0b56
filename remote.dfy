/** discord.py's `CommandTree` as the synchroniser uses it: the chat-input
    commands registered locally per scope, and the calls made on it. What
    Discord answers to a submission, and whether a registration succeeds,
    are parameters of the calls. */
module Remote {
  import opened Wrappers
  import opened Catalog

  /** The global scope or one guild's scope. */
  datatype Scope = Global | InGuild(id: int)

  /** A command as Discord confirms it after `tree.sync`. */
  datatype AppCommand = AppCommand(name: string, kind: CommandType)

  /** What one `tree.add_command` call does: registers the command, raises
      `AppCommandAlreadyRegistered`, or raises another `DiscordException`. */
  datatype AddOutcome = Added | AlreadyRegistered | AddFailed

  datatype TreeCall =
    | RemoveCall(scope: Scope, name: string)
    | AddCall(scope: Scope, name: string)
    | CopyGlobalCall(scope: Scope)
    | SyncCall(scope: Scope)

  /** The local registrations of the tree, by scope and command name. */
  type Registry = map<Scope, map<string, Node>>

  /** The commands registered in one scope. */
  function In(reg: Registry, s: Scope): map<string, Node> {
    if s in reg then reg[s] else map[]
  }

  /** `remove_command(name, guild=...)` */
  function Unregister(reg: Registry, s: Scope, name: string): (r: Registry)
    ensures In(r, s) == In(reg, s) - {name}
    ensures forall t :: t != s ==> In(r, t) == In(reg, t)
  {
    reg[s := In(reg, s) - {name}]
  }

  /** A successful `add_command(group, guild=...)` */
  function RegisterAt(reg: Registry, s: Scope, g: Group): (r: Registry)
    ensures In(r, s) == In(reg, s)[g.name := Sub(g)]
    ensures forall t :: t != s ==> In(r, t) == In(reg, t)
  {
    reg[s := In(reg, s)[g.name := Sub(g)]]
  }

  /** `copy_global_to(guild=...)`: the global commands are copied over the
      guild's, a global command replacing a guild command of the same name. */
  function CopyGlobal(reg: Registry, s: Scope): (r: Registry)
    ensures In(r, s) == In(reg, s) + In(reg, Global)
    ensures forall t :: t != s ==> In(r, t) == In(reg, t)
  {
    reg[s := In(reg, s) + In(reg, Global)]
  }

  /** The tree's local registrations together with the calls made on it
      so far. */
  datatype Tree = Tree(reg: Registry, calls: seq<TreeCall>)

  /** `remove_command(name, guild=...)` on the tree. */
  function TreeRemove(t: Tree, s: Scope, name: string): Tree {
    Tree(Unregister(t.reg, s, name), t.calls + [RemoveCall(s, name)])
  }

  /** `add_command(g, guild=...)`, which registers `g` exactly when the
      outcome is `Added`. */
  function TreeAdd(t: Tree, s: Scope, g: Group, outcome: AddOutcome): Tree {
    Tree(if outcome == Added then RegisterAt(t.reg, s, g) else t.reg, t.calls + [AddCall(s, g.name)])
  }

  function TreeCopyGlobal(t: Tree, s: Scope): Tree {
    Tree(CopyGlobal(t.reg, s), t.calls + [CopyGlobalCall(s)])
  }

  /** `sync(guild=...)` leaves the local registrations as they are. */
  function TreeSync(t: Tree, s: Scope): Tree {
    Tree(t.reg, t.calls + [SyncCall(s)])
  }

  class CommandTree {
    var commands: Registry
    /** Every call made on the tree, in order. */
    ghost var calls: seq<TreeCall>

    ghost function State(): Tree
      reads this
    {
      Tree(commands, calls)
    }

    constructor (commands: Registry)
      ensures this.commands == commands && calls == []
    {
      this.commands := commands;
      calls := [];
    }

    /** `remove_command(name, type=chat_input, guild=...)`: returns the
        removed command, None when there was none. */
    method RemoveCommand(name: string, s: Scope) returns (removed: Option<Node>)
      modifies this
      ensures removed == if name in In(old(commands), s) then Some(In(old(commands), s)[name]) else None
      ensures State() == TreeRemove(old(State()), s, name)
    {
      var m := In(commands, s);
      removed := if name in m then Some(m[name]) else None;
      commands := Unregister(commands, s, name);
      calls := calls + [RemoveCall(s, name)];
    }

    /** `add_command(group, guild=...)`, which does what `outcome` says. */
    method AddCommand(g: Group, s: Scope, outcome: AddOutcome) returns (r: AddOutcome)
      modifies this
      ensures r == outcome
      ensures State() == TreeAdd(old(State()), s, g, outcome)
    {
      if outcome == Added {
        commands := RegisterAt(commands, s, g);
      }
      calls := calls + [AddCall(s, g.name)];
      r := outcome;
    }

    /** `copy_global_to(guild=...)` */
    method CopyGlobalTo(s: Scope)
      modifies this
      ensures State() == TreeCopyGlobal(old(State()), s)
    {
      commands := CopyGlobal(commands, s);
      calls := calls + [CopyGlobalCall(s)];
    }

    /** `await sync(guild=...)`: Discord answers with the confirmed commands,
        or the call raises (None). */
    method Sync(s: Scope, outcome: Option<seq<AppCommand>>) returns (r: Option<seq<AppCommand>>)
      modifies this
      ensures r == outcome
      ensures State() == TreeSync(old(State()), s)
    {
      calls := calls + [SyncCall(s)];
      r := outcome;
    }
  }
}
