/** `CommandCloner` of `syncCommands/modules/commands.py`: the tree of
    slash-command groups the bot declares, its enumerations, the keys and
    labels derived from qualified names, and the per-guild filtered clone. */
module Catalog {
  import opened Wrappers
  import opened Text
  import opened Sorting
  import opened ScopeStore

  /** `AppCommandType`; any other type is kept with its name. */
  datatype CommandType = ChatInput | User | Message | OtherType(typeName: string)

  /** A leaf command. `cloneable` says whether `clone_command` can copy it
      (it returns None otherwise). */
  datatype Command = Command(name: string, description: string, kind: CommandType, cloneable: bool)

  /** `app_commands.Group` with the attributes `clone_group` copies. */
  datatype Group = Group(
    name: string,
    description: string,
    nsfw: bool,
    defaultPermissions: Option<int>,
    guildOnly: bool,
    children: seq<Node>)

  /** An entry of `group.commands`. */
  datatype Node = Leaf(command: Command) | Sub(group: Group)

  /** A command or group together with its `qualified_name`. */
  datatype LeafRef = LeafRef(qualified: string, command: Command)
  datatype GroupRef = GroupRef(qualified: string, group: Group)

  /** `qualified_name`: the parent's qualified name, a space, the name. */
  function Qualify(parent: Option<string>, name: string): (r: string)
    ensures parent.None? ==> r == name
    ensures parent.Some? ==> r == parent.value + " " + name
  {
    match parent
    case None => name
    case Some(p) => p + " " + name
  }

  /** `a or b` on strings. */
  function OrElse(a: string, b: string): string {
    if a != [] then a else b
  }

  // ---------------------------------------------------------------------
  // Enumerations

  /** `_iter_commands(group)`: the leaves under `g`, in pre-order. */
  function GroupLeaves(g: Group, parent: Option<string>): seq<LeafRef>
    decreases g
  {
    NodesLeaves(g.children, Qualify(parent, g.name))
  }

  function NodesLeaves(cs: seq<Node>, q: string): seq<LeafRef>
    decreases cs
  {
    if cs == [] then []
    else
      var last := cs[|cs| - 1];
      assert last in cs;
      NodesLeaves(cs[..|cs| - 1], q) + NodeLeaves(last, q)
  }

  function NodeLeaves(n: Node, q: string): seq<LeafRef>
    decreases n
  {
    match n
    case Leaf(c) => [LeafRef(q + " " + c.name, c)]
    case Sub(h) => GroupLeaves(h, Some(q))
  }

  /** `_iter_groups(group)`: `g` itself, then the groups under it. */
  function GroupGroups(g: Group, parent: Option<string>): seq<GroupRef>
    decreases g
  {
    [GroupRef(Qualify(parent, g.name), g)] + NodesGroups(g.children, Qualify(parent, g.name))
  }

  function NodesGroups(cs: seq<Node>, q: string): seq<GroupRef>
    decreases cs
  {
    if cs == [] then []
    else
      var last := cs[|cs| - 1];
      assert last in cs;
      NodesGroups(cs[..|cs| - 1], q) + NodeGroups(last, q)
  }

  function NodeGroups(n: Node, q: string): seq<GroupRef>
    decreases n
  {
    match n
    case Leaf(_) => []
    case Sub(h) => GroupGroups(h, Some(q))
  }

  /** `iter_commands()`: the leaves of every root group in turn. */
  function Leaves(roots: seq<Group>): seq<LeafRef>
  {
    if roots == [] then []
    else Leaves(roots[..|roots| - 1]) + GroupLeaves(roots[|roots| - 1], None)
  }

  /** `iter_groups()`: the groups of every root group in turn. */
  function Groups(roots: seq<Group>): seq<GroupRef>
  {
    if roots == [] then []
    else Groups(roots[..|roots| - 1]) + GroupGroups(roots[|roots| - 1], None)
  }

  /** Every group ever yielded for `g` is `g` or lies under one of its
      nested groups: `g` comes first, then the groups of each nested group
      as one block, in declaration order. */
  lemma {:induction false} GroupGroupsStartWithGroup(g: Group, parent: Option<string>)
    ensures |GroupGroups(g, parent)| >= 1
    ensures GroupGroups(g, parent)[0] == GroupRef(Qualify(parent, g.name), g)
    ensures forall i :: 0 <= i < |g.children| && g.children[i].Sub? ==>
      IsBlock(GroupGroups(g.children[i].group, Some(Qualify(parent, g.name))), GroupGroups(g, parent)[1..])
  {
    var q := Qualify(parent, g.name);
    forall i | 0 <= i < |g.children| && g.children[i].Sub?
      ensures IsBlock(GroupGroups(g.children[i].group, Some(q)), GroupGroups(g, parent)[1..])
    {
      var at := NodesGroupsBlock(g.children, q, i);
      assert GroupGroups(g, parent)[1..] == NodesGroups(g.children, q);
      assert BlockAt(GroupGroups(g.children[i].group, Some(q)), GroupGroups(g, parent)[1..], at);
    }
  }

  /** `b` occurs in `s` as a contiguous block. */
  predicate IsBlock<T(==)>(b: seq<T>, s: seq<T>) {
    exists i | 0 <= i <= |s| - |b| :: BlockAt(b, s, i)
  }

  predicate BlockAt<T(==)>(b: seq<T>, s: seq<T>, i: int) {
    0 <= i <= |s| - |b| && s[i..i + |b|] == b
  }

  lemma {:induction false} NodesGroupsBlock(cs: seq<Node>, q: string, i: int) returns (at: int)
    requires 0 <= i < |cs| && cs[i].Sub?
    ensures BlockAt(GroupGroups(cs[i].group, Some(q)), NodesGroups(cs, q), at)
    decreases cs
  {
    var b := GroupGroups(cs[i].group, Some(q));
    var init := cs[..|cs| - 1];
    var s0 := NodesGroups(init, q);
    var s := NodesGroups(cs, q);
    assert s == s0 + NodeGroups(cs[|cs| - 1], q);
    if i == |cs| - 1 {
      at := |s0|;
      assert NodeGroups(cs[|cs| - 1], q) == b;
    } else {
      assert init[i] == cs[i];
      at := NodesGroupsBlock(init, q, i);
      assert s[..|s0|] == s0;
      assert s[at..at + |b|] == s0[at..at + |b|];
    }
  }

  // ---------------------------------------------------------------------
  // Keys and labels

  /** `command_key`: the qualified name, normalized like a scope key. */
  function CommandKey(l: LeafRef): string {
    NormalizeKey(l.qualified)
  }

  /** `group_key`: `qualified_name or name`, normalized. */
  function GroupKey(gr: GroupRef): string {
    NormalizeKey(OrElse(gr.qualified, gr.group.name))
  }

  /** `format_label` */
  function FormatLabel(l: LeafRef): (r: string)
  {
    LabelFor(OrElse(l.qualified, l.command.name), l.command.kind)
  }

  /** The label `format_label` gives a command with this name and type. */
  function LabelFor(name: string, kind: CommandType): string
  {
    match kind
    case ChatInput => "/" + name
    case User => name + " [user]"
    case Message => name + " [message]"
    case OtherType(t) => name + " [" + Lower(t) + "]"
  }

  /** `format_group_label` */
  function FormatGroupLabel(gr: GroupRef): string {
    "/" + OrElse(gr.qualified, gr.group.name) + " (all commands)"
  }

  /** A command key is the qualified name with dots for spaces and lower-case
      letters; a label shows the qualified name and the command type. */
  lemma KeyAndLabelShapes(l: LeafRef)
    requires l.qualified != []
    ensures |CommandKey(l)| == |l.qualified|
    ensures forall i :: 0 <= i < |l.qualified| ==>
      CommandKey(l)[i] == (if l.qualified[i] == ' ' then '.' else LowerChar(l.qualified[i]))
    ensures l.command.kind == ChatInput ==> FormatLabel(l) == "/" + l.qualified
    ensures l.command.kind == User ==> FormatLabel(l) == l.qualified + " [user]"
    ensures l.command.kind == Message ==> FormatLabel(l) == l.qualified + " [message]"
    ensures l.command.kind.OtherType? ==>
      FormatLabel(l) == l.qualified + " [" + Lower(l.command.kind.typeName) + "]"
  {
  }

  /** Every label names its command's qualified name: after the slash of a
      chat-input command, before the bracketed type otherwise. */
  lemma LabelNamesCommand(l: LeafRef)
    requires l.qualified != []
    ensures l.command.kind == ChatInput ==> FormatLabel(l)[1..] == l.qualified
    ensures l.command.kind != ChatInput ==>
      StartsWith(FormatLabel(l), l.qualified + " [") && EndsWith(FormatLabel(l), "]")
  {
    var r := FormatLabel(l);
    if l.command.kind != ChatInput {
      assert r[..|l.qualified| + 2] == l.qualified + " [";
    }
  }

  // ---------------------------------------------------------------------
  // The per-guild clone

  /** Whether `clone_group` keeps a leaf: enabled for the guild by the scope
      rules, and copyable. */
  predicate Keep(rules: Rules, gid: int, l: LeafRef) {
    IsEnabled(rules, CommandKey(l), gid) && l.command.cloneable
  }

  /** The kept leaves, in order. */
  function Kept(ls: seq<LeafRef>, rules: Rules, gid: int): seq<LeafRef>
  {
    Filter(ls, (l: LeafRef) => Keep(rules, gid, l))
  }

  /** The specification of `clone_group(source, guild_id)`. */
  function CloneOf(src: Group, parent: Option<string>, rules: Rules, gid: int): (r: Option<Group>)
    ensures r.Some? ==> r.value == src.(children := r.value.children) && r.value.children != []
    decreases src
  {
    var kids := CloneNodes(src.children, Qualify(parent, src.name), rules, gid);
    if kids == [] then None else Some(src.(children := kids))
  }

  function CloneNodes(cs: seq<Node>, q: string, rules: Rules, gid: int): seq<Node>
    decreases cs
  {
    if cs == [] then []
    else
      var last := cs[|cs| - 1];
      assert last in cs;
      CloneNodes(cs[..|cs| - 1], q, rules, gid) + CloneNode(last, q, rules, gid)
  }

  function CloneNode(n: Node, q: string, rules: Rules, gid: int): seq<Node>
    decreases n
  {
    match n
    case Leaf(c) => if Keep(rules, gid, LeafRef(q + " " + c.name, c)) then [n] else []
    case Sub(h) =>
      match CloneOf(h, Some(q), rules, gid)
      case None => []
      case Some(k) => [Sub(k)]
  }

  /** The clone holds exactly the kept leaves of the source, in source
      order, and it is None exactly when no leaf is kept, however deeply the
      leaves are nested and however many groups on the way are empty. */
  lemma {:induction false} CloneOfLeaves(src: Group, parent: Option<string>, rules: Rules, gid: int)
    ensures var c := CloneOf(src, parent, rules, gid);
      && (c.None? <==> Kept(GroupLeaves(src, parent), rules, gid) == [])
      && (c.Some? ==> GroupLeaves(c.value, parent) == Kept(GroupLeaves(src, parent), rules, gid))
    decreases src
  {
    CloneNodesLeaves(src.children, Qualify(parent, src.name), rules, gid);
  }

  /** `clone_group` returns None exactly when no leaf under the source,
      at any depth, is enabled for the guild and copyable; when every leaf
      can be copied, exactly when none is enabled. */
  lemma CloneOfNoneIff(src: Group, parent: Option<string>, rules: Rules, gid: int)
    ensures CloneOf(src, parent, rules, gid).None? <==>
      forall l :: l in GroupLeaves(src, parent) ==> !Keep(rules, gid, l)
    ensures (forall l :: l in GroupLeaves(src, parent) ==> l.command.cloneable) ==>
      (CloneOf(src, parent, rules, gid).None? <==>
        forall l :: l in GroupLeaves(src, parent) ==> !IsEnabled(rules, CommandKey(l), gid))
  {
    CloneOfLeaves(src, parent, rules, gid);
    FilterEmptyIff(GroupLeaves(src, parent), (l: LeafRef) => Keep(rules, gid, l));
  }

  /** Every leaf of a clone is enabled for the guild. */
  lemma CloneOfOnlyEnabled(src: Group, parent: Option<string>, rules: Rules, gid: int)
    requires CloneOf(src, parent, rules, gid).Some?
    ensures forall l :: l in GroupLeaves(CloneOf(src, parent, rules, gid).value, parent) ==>
      l in GroupLeaves(src, parent) && IsEnabled(rules, CommandKey(l), gid)
  {
    CloneOfLeaves(src, parent, rules, gid);
    FilterMembers(GroupLeaves(src, parent), (l: LeafRef) => Keep(rules, gid, l));
  }

  lemma {:induction false} CloneNodesLeaves(cs: seq<Node>, q: string, rules: Rules, gid: int)
    ensures NodesLeaves(CloneNodes(cs, q, rules, gid), q) == Kept(NodesLeaves(cs, q), rules, gid)
    ensures CloneNodes(cs, q, rules, gid) == [] <==> Kept(NodesLeaves(cs, q), rules, gid) == []
    decreases cs
  {
    if cs != [] {
      var init, last := cs[..|cs| - 1], cs[|cs| - 1];
      assert last in cs;
      CloneNodesLeaves(init, q, rules, gid);
      CloneNodeLeaves(last, q, rules, gid);
      NodesLeavesConcat(CloneNodes(init, q, rules, gid), CloneNode(last, q, rules, gid), q);
      FilterConcat(NodesLeaves(init, q), NodeLeaves(last, q), (l: LeafRef) => Keep(rules, gid, l));
    }
  }

  lemma {:induction false} CloneNodeLeaves(n: Node, q: string, rules: Rules, gid: int)
    ensures NodesLeaves(CloneNode(n, q, rules, gid), q) == Kept(NodeLeaves(n, q), rules, gid)
    ensures CloneNode(n, q, rules, gid) == [] <==> Kept(NodeLeaves(n, q), rules, gid) == []
    decreases n
  {
    match n
    case Leaf(c) =>
      assert NodesLeaves([n], q) == NodeLeaves(n, q);
      assert Kept([LeafRef(q + " " + c.name, c)], rules, gid)
        == if Keep(rules, gid, LeafRef(q + " " + c.name, c)) then [LeafRef(q + " " + c.name, c)] else [];
    case Sub(h) =>
      CloneOfLeaves(h, Some(q), rules, gid);
      match CloneOf(h, Some(q), rules, gid)
      case None =>
      case Some(k) =>
        assert NodesLeaves([Sub(k)], q) == NodeLeaves(Sub(k), q);
  }

  lemma {:induction false} NodesLeavesConcat(a: seq<Node>, b: seq<Node>, q: string)
    ensures NodesLeaves(a + b, q) == NodesLeaves(a, q) + NodesLeaves(b, q)
    decreases |b|
  {
    if b != [] {
      assert (a + b)[..|a + b| - 1] == a + b[..|b| - 1];
      NodesLeavesConcat(a, b[..|b| - 1], q);
    } else {
      assert a + b == a;
    }
  }

  /** Every group of a tree has at least one child. */
  predicate NoEmptyGroup(g: Group)
    decreases g
  {
    g.children != [] && forall i :: 0 <= i < |g.children| ==> NoEmptyNode(g.children[i])
  }

  predicate NoEmptyNode(n: Node)
    decreases n
  {
    match n
    case Leaf(_) => true
    case Sub(h) => NoEmptyGroup(h)
  }

  /** A clone never contains an empty group: nested clones that came back
      None were left out. */
  lemma {:induction false} CloneOfNoEmptyGroup(src: Group, parent: Option<string>, rules: Rules, gid: int)
    requires CloneOf(src, parent, rules, gid).Some?
    ensures NoEmptyGroup(CloneOf(src, parent, rules, gid).value)
    decreases src
  {
    CloneNodesNoEmpty(src.children, Qualify(parent, src.name), rules, gid);
  }

  lemma {:induction false} CloneNodesNoEmpty(cs: seq<Node>, q: string, rules: Rules, gid: int)
    ensures forall i :: 0 <= i < |CloneNodes(cs, q, rules, gid)| ==> NoEmptyNode(CloneNodes(cs, q, rules, gid)[i])
    decreases cs
  {
    if cs != [] {
      var init, last := cs[..|cs| - 1], cs[|cs| - 1];
      assert last in cs;
      CloneNodesNoEmpty(init, q, rules, gid);
      CloneNodeNoEmpty(last, q, rules, gid);
    }
  }

  lemma {:induction false} CloneNodeNoEmpty(n: Node, q: string, rules: Rules, gid: int)
    ensures forall i :: 0 <= i < |CloneNode(n, q, rules, gid)| ==> NoEmptyNode(CloneNode(n, q, rules, gid)[i])
    decreases n
  {
    match n
    case Leaf(_) =>
    case Sub(h) =>
      if CloneOf(h, Some(q), rules, gid).Some? {
        CloneOfNoEmptyGroup(h, Some(q), rules, gid);
      }
  }

  /** One more child extends the clone of the children before it by the
      clone of that child. */
  lemma CloneNodesSnoc(cs: seq<Node>, i: int, q: string, rules: Rules, gid: int)
    requires 0 <= i < |cs|
    ensures CloneNodes(cs[..i + 1], q, rules, gid)
      == CloneNodes(cs[..i], q, rules, gid) + CloneNode(cs[i], q, rules, gid)
  {
    assert cs[..i + 1][..i] == cs[..i];
  }

  /** `clone_group`: builds the clone child by child with an `added` flag. */
  method CloneGroup(src: Group, parent: Option<string>, rules: Rules, gid: int) returns (r: Option<Group>)
    ensures r == CloneOf(src, parent, rules, gid)
    decreases src
  {
    var q := Qualify(parent, src.name);
    var kids: seq<Node> := [];
    var added := false;
    for i := 0 to |src.children|
      invariant kids == CloneNodes(src.children[..i], q, rules, gid)
      invariant added <==> kids != []
    {
      var child := src.children[i];
      assert child in src.children;
      CloneNodesSnoc(src.children, i, q, rules, gid);
      match child {
        case Sub(h) =>
          var nested := CloneGroup(h, Some(q), rules, gid);
          if nested.Some? {
            kids := kids + [Sub(nested.value)];
            added := true;
          }
        case Leaf(c) =>
          var key := CommandKey(LeafRef(q + " " + c.name, c));
          if IsEnabled(rules, key, gid) && c.cloneable {
            kids := kids + [child];
            added := true;
          }
      }
    }
    assert src.children[..|src.children|] == src.children;
    r := if added then Some(src.(children := kids)) else None;
  }

  // ---------------------------------------------------------------------
  // Available keys and wildcard expansion

  /** The leaves under a yielded group, with their qualified names. */
  function LeavesUnder(gr: GroupRef): seq<LeafRef> {
    NodesLeaves(gr.group.children, gr.qualified)
  }

  function GroupEntry(gr: GroupRef): (string, string) {
    (GroupKey(gr) + ".*", FormatGroupLabel(gr))
  }

  function LeafEntry(l: LeafRef): (string, string) {
    (CommandKey(l), FormatLabel(l))
  }

  function EntryKey(e: (string, string)): string {
    e.0
  }

  /** True when `e` is one of the entries `list_available_keys` offers. */
  ghost predicate IsAvailable(roots: seq<Group>, includeGroups: bool, e: (string, string)) {
    (includeGroups && exists gr :: gr in Groups(roots) && LeavesUnder(gr) != [] && e == GroupEntry(gr))
    || (exists l :: l in Leaves(roots) && e == LeafEntry(l))
  }

  /** The entries before sorting: the wildcard entries of the groups with a
      leaf under them (when asked), then one entry per leaf. */
  function Candidates(roots: seq<Group>, includeGroups: bool): seq<(string, string)> {
    (if includeGroups then GroupEntries(Groups(roots)) else []) + LeafEntries(Leaves(roots))
  }

  /** `list_available_keys`: collects the entries and sorts them by key. */
  method ListAvailableKeys(roots: seq<Group>, includeGroups: bool) returns (entries: seq<(string, string)>)
    ensures entries == SortBy(Candidates(roots, includeGroups), EntryKey)
  {
    var acc: seq<(string, string)> := [];
    if includeGroups {
      acc := CollectGroupEntries(Groups(roots));
    }
    var leafEntries := CollectLeafEntries(Leaves(roots));
    entries := SortBy(acc + leafEntries, EntryKey);
  }

  /** The loop over `iter_groups`: one wildcard entry per group that has a
      leaf under it, in pre-order. */
  method CollectGroupEntries(groups: seq<GroupRef>) returns (acc: seq<(string, string)>)
    ensures acc == GroupEntries(groups)
  {
    acc := [];
    for i := 0 to |groups|
      invariant acc == GroupEntries(groups[..i])
    {
      assert groups[..i + 1][..i] == groups[..i];
      if LeavesUnder(groups[i]) != [] {
        acc := acc + [GroupEntry(groups[i])];
      }
    }
    assert groups[..|groups|] == groups;
  }

  /** The loop over `walk_commands`: one entry per leaf, in order. */
  method CollectLeafEntries(leaves: seq<LeafRef>) returns (acc: seq<(string, string)>)
    ensures acc == LeafEntries(leaves)
  {
    acc := [];
    for i := 0 to |leaves|
      invariant acc == LeafEntries(leaves[..i])
    {
      assert leaves[..i + 1][..i] == leaves[..i];
      acc := acc + [LeafEntry(leaves[i])];
    }
    assert leaves[..|leaves|] == leaves;
  }

  /** The listing is sorted by key and has one entry per leaf plus one per
      group with a leaf under it. */
  lemma AvailableKeysSortedCount(roots: seq<Group>, includeGroups: bool)
    ensures SortedBy(SortBy(Candidates(roots, includeGroups), EntryKey), EntryKey)
    ensures |SortBy(Candidates(roots, includeGroups), EntryKey)|
      == |Leaves(roots)| + (if includeGroups then |GroupEntries(Groups(roots))| else 0)
  {
  }

  /** The listing offers exactly the available entries. */
  lemma AvailableKeysMembers(roots: seq<Group>, includeGroups: bool, e: (string, string))
    ensures e in SortBy(Candidates(roots, includeGroups), EntryKey) <==> IsAvailable(roots, includeGroups, e)
  {
    var c := Candidates(roots, includeGroups);
    SortByMembers(c, EntryKey);
    CandidatesAvailable(roots, includeGroups, e);
  }

  lemma CandidatesAvailable(roots: seq<Group>, includeGroups: bool, e: (string, string))
    ensures e in Candidates(roots, includeGroups) <==> IsAvailable(roots, includeGroups, e)
  {
    var ge := if includeGroups then GroupEntries(Groups(roots)) else [];
    var le := LeafEntries(Leaves(roots));
    assert e in ge + le <==> e in ge || e in le;
  }

  function GroupEntries(grs: seq<GroupRef>): (r: seq<(string, string)>)
    ensures |r| <= |grs|
    ensures forall e :: e in r <==> exists gr :: gr in grs && LeavesUnder(gr) != [] && e == GroupEntry(gr)
  {
    if grs == [] then []
    else
      var last := grs[|grs| - 1];
      var init := grs[..|grs| - 1];
      assert grs == init + [last];
      GroupEntries(init) + (if LeavesUnder(last) != [] then [GroupEntry(last)] else [])
  }

  function LeafEntries(ls: seq<LeafRef>): (r: seq<(string, string)>)
    ensures |r| == |ls|
    ensures forall e :: e in r <==> exists l :: l in ls && e == LeafEntry(l)
  {
    if ls == [] then []
    else
      var init := ls[..|ls| - 1];
      assert ls == init + [ls[|ls| - 1]];
      LeafEntries(init) + [LeafEntry(ls[|ls| - 1])]
  }

  /** A key matched by the wildcard for `prefix`: the prefix itself or
      anything below it after a dot. */
  predicate UnderPrefix(key: string, prefix: string) {
    key == prefix || StartsWith(key, prefix + ".")
  }

  /** The prefix match is on whole segments: `moderationx.ban` is not under
      `moderation`. */
  lemma UnderPrefixWholeSegments(key: string, prefix: string)
    requires StartsWith(key, prefix) && |key| > |prefix| && key[|prefix|] != '.'
    ensures !UnderPrefix(key, prefix)
  {
    assert (prefix + ".")[|prefix|] == '.';
  }

  /** The keys of the leaves in `ls` that lie under `prefix`, in order. */
  function KeysUnder(ls: seq<LeafRef>, prefix: string): seq<string>
  {
    if ls == [] then []
    else
      var last := ls[|ls| - 1];
      KeysUnder(ls[..|ls| - 1], prefix) + if UnderPrefix(CommandKey(last), prefix) then [CommandKey(last)] else []
  }

  /** A key is collected exactly when it lies under the prefix and is the
      key of one of the leaves. */
  lemma {:induction false} KeysUnderMembers(ls: seq<LeafRef>, prefix: string)
    ensures forall k :: k in KeysUnder(ls, prefix) <==> UnderPrefix(k, prefix) && exists l :: l in ls && CommandKey(l) == k
  {
    if ls != [] {
      var init := ls[..|ls| - 1];
      KeysUnderMembers(init, prefix);
      assert ls == init + [ls[|ls| - 1]];
    }
  }

  /** What `expand_key` returns: a trailing `.*` stands for the sorted,
      duplicate-free keys of the leaves under the prefix; any other key
      stands for itself, normalized. */
  function ExpandedKeys(roots: seq<Group>, requested: string): seq<string>
  {
    Expansion(roots, NormalizeKey(requested))
  }

  /** The expansion of an already normalized key. */
  function Expansion(roots: seq<Group>, n: string): seq<string>
  {
    if !EndsWith(n, ".*") then [n]
    else SortedUnique(KeysUnder(Leaves(roots), n[..|n| - 2]))
  }

  /** A key without `.*` expands to itself normalized; `p.*` expands to
      the strictly sorted keys of the leaves equal to `p` or below `p.`. */
  lemma ExpandedKeysMembers(roots: seq<Group>, requested: string)
    ensures var n, r := NormalizeKey(requested), ExpandedKeys(roots, requested);
      && (!EndsWith(n, ".*") ==> r == [n])
      && (EndsWith(n, ".*") ==>
            && StrictlySorted(r)
            && forall k :: k in r <==>
                 UnderPrefix(k, n[..|n| - 2]) && exists l :: l in Leaves(roots) && CommandKey(l) == k)
  {
    var n := NormalizeKey(requested);
    if EndsWith(n, ".*") {
      KeysUnderMembers(Leaves(roots), n[..|n| - 2]);
    }
  }

  /** Every expanded key is already normalized, so distinct expanded keys
      name distinct rules. */
  lemma ExpandedKeysNormalized(roots: seq<Group>, requested: string)
    ensures var r := ExpandedKeys(roots, requested);
      && (forall k :: k in r ==> NormalizeKey(k) == k)
      && forall i, j :: 0 <= i < j < |r| ==> NormalizeKey(r[i]) != NormalizeKey(r[j])
  {
    var n := NormalizeKey(requested);
    var r := ExpandedKeys(roots, requested);
    ExpandedKeysMembers(roots, requested);
    NormalizeKeyProperties(requested);
    forall k | k in r
      ensures NormalizeKey(k) == k
    {
      if EndsWith(n, ".*") {
        var l :| l in Leaves(roots) && CommandKey(l) == k;
        NormalizeKeyProperties(l.qualified);
      }
    }
    forall i, j | 0 <= i < j < |r|
      ensures NormalizeKey(r[i]) != NormalizeKey(r[j])
    {
      assert r[i] in r && r[j] in r;
      StrLtAsymmetric(r[i], r[j]);
    }
  }

  lemma KeysUnderSnoc(ls: seq<LeafRef>, prefix: string, i: nat)
    requires i < |ls|
    ensures KeysUnder(ls[..i + 1], prefix) == KeysUnder(ls[..i], prefix)
      + if UnderPrefix(CommandKey(ls[i]), prefix) then [CommandKey(ls[i])] else []
  {
    assert ls[..i + 1][..i] == ls[..i];
  }

  /** `expand_key` */
  method ExpandKey(roots: seq<Group>, requested: string) returns (r: seq<string>)
    ensures r == ExpandedKeys(roots, requested)
  {
    var normalized := NormalizeKey(requested);
    r := ExpandNormalized(roots, normalized);
  }

  /** `expand_key` once the key is normalized. */
  method ExpandNormalized(roots: seq<Group>, normalized: string) returns (r: seq<string>)
    ensures r == Expansion(roots, normalized)
  {
    if !EndsWith(normalized, ".*") {
      return [normalized];
    }
    var prefix := normalized[..|normalized| - 2];
    var leaves := Leaves(roots);
    var matches: seq<string> := [];
    for i := 0 to |leaves|
      invariant matches == KeysUnder(leaves[..i], prefix)
    {
      KeysUnderSnoc(leaves, prefix, i);
      var key := CommandKey(leaves[i]);
      if UnderPrefix(key, prefix) {
        matches := matches + [key];
      }
    }
    assert leaves[..|leaves|] == leaves;
    r := SortedUnique(matches);
  }
}
