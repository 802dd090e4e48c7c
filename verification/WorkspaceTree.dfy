/**
 Workspace listing and search (crates/liz-app-server/src/executor/workspace.rs).

 A directory is the list of its children in path order, which is what the source has after
 `read_dir` and `sort`. `Full` is the simple uncapped listing; the capped, early-exiting
 `CollectEntries` is proved to show a prefix of it.
 */
module WorkspaceTrees {
  import opened Common
  import opened WorkspaceText

  datatype Node = File(name: string) | Dir(name: string, children: seq<Node>)

  datatype Entry = Entry(path: string, isDir: bool)

  predicate IsHidden(name: string) {
    "." <= name
  }

  function ChildPath(prefix: string, name: string): string {
    if prefix == "" then name else prefix + "/" + name
  }

  /** `relative_display`: backslashes become slashes. */
  function Display(path: string): string {
    seq(|path|, i requires 0 <= i < |path| => if path[i] == '\\' then '/' else path[i])
  }

  function EntryOf(prefix: string, n: Node): Entry {
    Entry(Display(ChildPath(prefix, n.name)), n.Dir?)
  }

  // ---------------------------------------------------------------------------------------
  // The uncapped listing
  // ---------------------------------------------------------------------------------------

  /** Preorder over visible nodes; hidden subtrees are pruned. */
  function Full(nodes: seq<Node>, prefix: string, recursive: bool, includeHidden: bool): seq<Entry>
    decreases nodes, 1
  {
    if nodes == [] then []
    else
      FullNode(nodes[0], prefix, recursive, includeHidden) + Full(nodes[1..], prefix, recursive, includeHidden)
  }

  function FullNode(n: Node, prefix: string, recursive: bool, includeHidden: bool): seq<Entry>
    decreases n, 0
  {
    if !includeHidden && IsHidden(n.name) then []
    else [EntryOf(prefix, n)]
         + if recursive && n.Dir? then Full(n.children, ChildPath(prefix, n.name), recursive, includeHidden) else []
  }

  /** `path` leads, through visible directories only, to the node that `e` shows. */
  ghost predicate Shows(nodes: seq<Node>, prefix: string, recursive: bool, includeHidden: bool, path: seq<nat>,
      e: Entry)
    decreases path
  {
    && path != [] && path[0] < |nodes|
    && (includeHidden || !IsHidden(nodes[path[0]].name))
    && var n := nodes[path[0]];
       if |path| == 1 then e == EntryOf(prefix, n)
       else recursive && n.Dir? && Shows(n.children, ChildPath(prefix, n.name), recursive, includeHidden, path[1..], e)
  }

  ghost predicate Reachable(nodes: seq<Node>, prefix: string, recursive: bool, includeHidden: bool, e: Entry) {
    exists path :: Shows(nodes, prefix, recursive, includeHidden, path, e)
  }

  /** The listing shows exactly the nodes that a path of visible names leads to. */
  lemma ListingShowsExactlyTheVisible(nodes: seq<Node>, prefix: string, recursive: bool, includeHidden: bool, e: Entry)
    ensures e in Full(nodes, prefix, recursive, includeHidden)
       <==> Reachable(nodes, prefix, recursive, includeHidden, e)
  {
    if e in Full(nodes, prefix, recursive, includeHidden) {
      var path := PathTo(nodes, prefix, recursive, includeHidden, e);
      assert Shows(nodes, prefix, recursive, includeHidden, path, e);
    }
    if Reachable(nodes, prefix, recursive, includeHidden, e) {
      var path :| Shows(nodes, prefix, recursive, includeHidden, path, e);
      ShownIsListed(nodes, prefix, recursive, includeHidden, path, e);
    }
  }

  lemma {:induction false} PathTo(nodes: seq<Node>, prefix: string, recursive: bool, includeHidden: bool, e: Entry)
    returns (path: seq<nat>)
    requires e in Full(nodes, prefix, recursive, includeHidden)
    ensures Shows(nodes, prefix, recursive, includeHidden, path, e)
    decreases nodes
  {
    var n := nodes[0];
    if e in FullNode(n, prefix, recursive, includeHidden) {
      path := [0];
      if e != EntryOf(prefix, n) {
        var inner := PathTo(n.children, ChildPath(prefix, n.name), recursive, includeHidden, e);
        path := [0] + inner;
        assert path[1..] == inner;
      }
    } else {
      var rest := PathTo(nodes[1..], prefix, recursive, includeHidden, e);
      path := [rest[0] + 1] + rest[1..];
      assert path[1..] == rest[1..];
    }
  }

  lemma {:induction false} NodeIsListed(nodes: seq<Node>, i: nat, prefix: string, recursive: bool,
      includeHidden: bool, e: Entry)
    requires i < |nodes| && e in FullNode(nodes[i], prefix, recursive, includeHidden)
    ensures e in Full(nodes, prefix, recursive, includeHidden)
    decreases i
  {
    if i > 0 {
      NodeIsListed(nodes[1..], i - 1, prefix, recursive, includeHidden, e);
    }
  }

  lemma {:induction false} ShownIsListed(nodes: seq<Node>, prefix: string, recursive: bool, includeHidden: bool,
      path: seq<nat>, e: Entry)
    requires Shows(nodes, prefix, recursive, includeHidden, path, e)
    ensures e in Full(nodes, prefix, recursive, includeHidden)
    decreases path
  {
    var n := nodes[path[0]];
    if |path| > 1 {
      ShownIsListed(n.children, ChildPath(prefix, n.name), recursive, includeHidden, path[1..], e);
    }
    NodeIsListed(nodes, path[0], prefix, recursive, includeHidden, e);
  }

  /** The names of the nodes that a path goes through, from the root on. */
  function NamesAlong(nodes: seq<Node>, path: seq<nat>): seq<string> {
    if path == [] || path[0] >= |nodes| then []
    else
      var n := nodes[path[0]];
      [n.name] + if n.Dir? then NamesAlong(n.children, path[1..]) else []
  }

  /** `shown` is the text with every backslash as a slash, and nothing else changed. */
  predicate IsSlashed(text: string, shown: string) {
    |shown| == |text| && forall i | 0 <= i < |text| :: shown[i] == if text[i] == '\\' then '/' else text[i]
  }

  function Below(prefix: string, names: seq<string>): string {
    if prefix == "" then Join(names, "/") else prefix + "/" + Join(names, "/")
  }

  lemma BelowChild(prefix: string, name: string, rest: seq<string>)
    requires name != "" && rest != []
    ensures Below(ChildPath(prefix, name), rest) == Below(prefix, [name] + rest)
  {
    JoinCons(name, rest, "/");
    assert name + "/" + Join(rest, "/") == Join([name] + rest, "/");
  }

  /** What a listed path reads: the names on the way to the node, joined with slashes. */
  lemma {:induction false} ShownPathIsNames(nodes: seq<Node>, prefix: string, recursive: bool, includeHidden: bool,
      path: seq<nat>, e: Entry)
    requires Shows(nodes, prefix, recursive, includeHidden, path, e)
    requires forall name <- NamesAlong(nodes, path) :: name != ""
    ensures |NamesAlong(nodes, path)| == |path|
    ensures IsSlashed(Below(prefix, NamesAlong(nodes, path)), e.path)
    decreases path
  {
    var n := nodes[path[0]];
    var names := NamesAlong(nodes, path);
    assert names[0] == n.name && n.name in names;
    if |path| == 1 {
      assert path[1..] == [];
      assert names == [n.name] && Join(names, "/") == n.name;
    } else {
      var rest := NamesAlong(n.children, path[1..]);
      assert names == [n.name] + rest;
      assert forall name <- rest :: name in names;
      ShownPathIsNames(n.children, ChildPath(prefix, n.name), recursive, includeHidden, path[1..], e);
      BelowChild(prefix, n.name, rest);
    }
  }

  /** The node that a path leads to. */
  function NodeAt(nodes: seq<Node>, path: seq<nat>): Option<Node> {
    if path == [] || path[0] >= |nodes| then None
    else if |path| == 1 then Some(nodes[path[0]])
    else if nodes[path[0]].Dir? then NodeAt(nodes[path[0]].children, path[1..])
    else None
  }

  predicate NoneHidden(names: seq<string>) {
    forall name <- names :: !("." <= name)
  }

  lemma NoneHiddenCons(name: string, rest: seq<string>)
    ensures NoneHidden([name] + rest) <==> !("." <= name) && NoneHidden(rest)
  {
    assert name in [name] + rest;
    assert forall other <- rest :: other in [name] + rest;
  }

  lemma {:induction false} ShownIsNode(nodes: seq<Node>, prefix: string, recursive: bool, includeHidden: bool,
      path: seq<nat>, e: Entry)
    requires Shows(nodes, prefix, recursive, includeHidden, path, e)
    ensures NodeAt(nodes, path).Some? && e.isDir == NodeAt(nodes, path).value.Dir?
    ensures recursive || |path| == 1
    ensures includeHidden || NoneHidden(NamesAlong(nodes, path))
    decreases path
  {
    var n := nodes[path[0]];
    if |path| > 1 {
      ShownIsNode(n.children, ChildPath(prefix, n.name), recursive, includeHidden, path[1..], e);
      NoneHiddenCons(n.name, NamesAlong(n.children, path[1..]));
    } else {
      assert path[1..] == [] && NamesAlong(nodes, path) == [n.name] + [];
      NoneHiddenCons(n.name, []);
    }
  }

  lemma {:induction false} NodeIsShown(nodes: seq<Node>, prefix: string, recursive: bool, includeHidden: bool,
      path: seq<nat>) returns (e: Entry)
    requires NodeAt(nodes, path).Some? && (recursive || |path| == 1)
    requires includeHidden || NoneHidden(NamesAlong(nodes, path))
    ensures Shows(nodes, prefix, recursive, includeHidden, path, e)
    decreases path
  {
    var n := nodes[path[0]];
    if |path| == 1 {
      assert path[1..] == [] && NamesAlong(nodes, path) == [n.name] + [];
      NoneHiddenCons(n.name, []);
      e := EntryOf(prefix, n);
    } else {
      NoneHiddenCons(n.name, NamesAlong(n.children, path[1..]));
      e := NodeIsShown(n.children, ChildPath(prefix, n.name), recursive, includeHidden, path[1..]);
    }
  }

  /** The path leads to a node that a listing from the root may show, and `e` names it. */
  ghost predicate Names(nodes: seq<Node>, recursive: bool, includeHidden: bool, path: seq<nat>, e: Entry) {
    && NodeAt(nodes, path).Some? && e.isDir == NodeAt(nodes, path).value.Dir?
    && (recursive || |path| == 1)
    && (includeHidden || NoneHidden(NamesAlong(nodes, path)))
    && IsSlashed(Join(NamesAlong(nodes, path), "/"), e.path)
  }

  lemma {:induction false} NoEmptyNames(nodes: seq<Node>, path: seq<nat>)
    requires AllNamed(nodes)
    ensures forall name <- NamesAlong(nodes, path) :: name != ""
    decreases path
  {
    if path != [] && path[0] < |nodes| {
      var n := nodes[path[0]];
      assert Named(n);
      if n.Dir? {
        NoEmptyNames(n.children, path[1..]);
      }
    }
  }

  /** No node has an empty name, as in every file system. */
  predicate AllNamed(nodes: seq<Node>)
    decreases nodes, 1
  {
    forall n <- nodes :: Named(n)
  }

  predicate Named(n: Node)
    decreases n, 0
  {
    n.name != "" && (n.Dir? ==> AllNamed(n.children))
  }

  lemma SlashedIsUnique(text: string, a: string, b: string)
    requires IsSlashed(text, a) && IsSlashed(text, b)
    ensures a == b
  {
  }

  /**
   A listing holds exactly the nodes that no name on the way to hides, only those right below the
   root unless it is recursive, each under its names joined with slashes.
   */
  lemma ListingNamesTheNodes(nodes: seq<Node>, recursive: bool, includeHidden: bool, e: Entry)
    requires AllNamed(nodes)
    ensures e in Full(nodes, "", recursive, includeHidden)
       <==> exists path :: Names(nodes, recursive, includeHidden, path, e)
  {
    ListingShowsExactlyTheVisible(nodes, "", recursive, includeHidden, e);
    if path :| Shows(nodes, "", recursive, includeHidden, path, e) {
      NoEmptyNames(nodes, path);
      ShownPathIsNames(nodes, "", recursive, includeHidden, path, e);
      ShownIsNode(nodes, "", recursive, includeHidden, path, e);
      assert Names(nodes, recursive, includeHidden, path, e);
    }
    if path :| Names(nodes, recursive, includeHidden, path, e) {
      var f := NodeIsShown(nodes, "", recursive, includeHidden, path);
      NoEmptyNames(nodes, path);
      ShownPathIsNames(nodes, "", recursive, includeHidden, path, f);
      ShownIsNode(nodes, "", recursive, includeHidden, path, f);
      SlashedIsUnique(Join(NamesAlong(nodes, path), "/"), e.path, f.path);
      assert e == f;
    }
  }

  /** Whether the last path the traversal would look at is a hidden one. */
  predicate EndsHidden(nodes: seq<Node>, recursive: bool, includeHidden: bool)
    decreases nodes, 1
  {
    nodes != [] && EndsHiddenNode(nodes[|nodes| - 1], recursive, includeHidden)
  }

  predicate EndsHiddenNode(n: Node, recursive: bool, includeHidden: bool)
    decreases n, 0
  {
    if !includeHidden && IsHidden(n.name) then true
    else recursive && n.Dir? && EndsHidden(n.children, recursive, includeHidden)
  }

  /** When a traversal with room for `room` more entries reports that it was cut short. */
  predicate Overflows(nodes: seq<Node>, prefix: string, recursive: bool, includeHidden: bool, room: nat) {
    var full := |Full(nodes, prefix, recursive, includeHidden)|;
    full > room || (full == room && EndsHidden(nodes, recursive, includeHidden))
  }

  function Room(cap: nat, used: nat): nat {
    if used <= cap then cap - used else 0
  }

  lemma {:induction false} FullSnoc(nodes: seq<Node>, n: Node, prefix: string, recursive: bool, includeHidden: bool)
    ensures Full(nodes + [n], prefix, recursive, includeHidden)
         == Full(nodes, prefix, recursive, includeHidden) + FullNode(n, prefix, recursive, includeHidden)
  {
    if nodes == [] {
      assert nodes + [n] == [n] && [n][1..] == [];
    } else {
      assert (nodes + [n])[1..] == nodes[1..] + [n];
      FullSnoc(nodes[1..], n, prefix, recursive, includeHidden);
    }
  }

  lemma {:induction false} FullGrows(nodes: seq<Node>, i: nat, prefix: string, recursive: bool, includeHidden: bool)
    requires i <= |nodes|
    ensures Full(nodes[..i], prefix, recursive, includeHidden) <= Full(nodes, prefix, recursive, includeHidden)
    decreases |nodes|
  {
    if i < |nodes| {
      var front, last := nodes[..|nodes| - 1], nodes[|nodes| - 1];
      assert nodes == front + [last] && nodes[..i] == front[..i];
      FullSnoc(front, last, prefix, recursive, includeHidden);
      FullGrows(front, i, prefix, recursive, includeHidden);
    } else {
      assert nodes[..i] == nodes;
    }
  }

  /** A traversal that still has a path to look at when the room is used up overflows. */
  lemma {:induction false} RestOverflows(nodes: seq<Node>, i: nat, prefix: string, recursive: bool, includeHidden: bool)
    requires i < |nodes|
    ensures var full := |Full(nodes, prefix, recursive, includeHidden)|;
      var shown := |Full(nodes[..i], prefix, recursive, includeHidden)|;
      full > shown || (full == shown && EndsHidden(nodes, recursive, includeHidden))
    decreases |nodes|
  {
    var front, last := nodes[..|nodes| - 1], nodes[|nodes| - 1];
    assert nodes == front + [last];
    FullSnoc(front, last, prefix, recursive, includeHidden);
    FullGrows(front, i, prefix, recursive, includeHidden);
    assert front[..i] == nodes[..i];
  }

  // ---------------------------------------------------------------------------------------
  // The capped traversal
  // ---------------------------------------------------------------------------------------

  class Listing {
    var entries: seq<Entry>
    var truncated: bool

    constructor ()
      ensures entries == [] && !truncated
    {
      entries, truncated := [], false;
    }
  }

  /** The loop state after the first `i` nodes, none of which was cut short. */
  ghost predicate Uncut(nodes: seq<Node>, i: nat, prefix: string, recursive: bool, includeHidden: bool, room: nat)
    requires i <= |nodes|
  {
    !Overflows(nodes[..i], prefix, recursive, includeHidden, room)
  }

  lemma NextSkipped(nodes: seq<Node>, i: nat, prefix: string, recursive: bool, includeHidden: bool, room: nat)
    requires i < |nodes| && Uncut(nodes, i, prefix, recursive, includeHidden, room)
    requires |Full(nodes[..i], prefix, recursive, includeHidden)| < room
    requires !includeHidden && IsHidden(nodes[i].name)
    ensures Uncut(nodes, i + 1, prefix, recursive, includeHidden, room)
    ensures Full(nodes[..i + 1], prefix, recursive, includeHidden) == Full(nodes[..i], prefix, recursive, includeHidden)
  {
    assert nodes[..i + 1] == nodes[..i] + [nodes[i]];
    FullSnoc(nodes[..i], nodes[i], prefix, recursive, includeHidden);
  }

  lemma NextShown(nodes: seq<Node>, i: nat, prefix: string, recursive: bool, includeHidden: bool, room: nat)
    requires i < |nodes| && Uncut(nodes, i, prefix, recursive, includeHidden, room)
    requires |Full(nodes[..i], prefix, recursive, includeHidden)| < room
    requires (includeHidden || !IsHidden(nodes[i].name)) && !(recursive && nodes[i].Dir?)
    ensures Uncut(nodes, i + 1, prefix, recursive, includeHidden, room)
    ensures Full(nodes[..i + 1], prefix, recursive, includeHidden)
         == Full(nodes[..i], prefix, recursive, includeHidden) + [EntryOf(prefix, nodes[i])]
  {
    assert nodes[..i + 1] == nodes[..i] + [nodes[i]];
    FullSnoc(nodes[..i], nodes[i], prefix, recursive, includeHidden);
    assert FullNode(nodes[i], prefix, recursive, includeHidden) == [EntryOf(prefix, nodes[i])];
    assert EndsHidden(nodes[..i + 1], recursive, includeHidden) == EndsHiddenNode(nodes[i], recursive, includeHidden);
  }

  /** The traversal up to and including a directory: what came before, the directory, and its content. */
  lemma ThroughDirectory(nodes: seq<Node>, i: nat, prefix: string, recursive: bool, includeHidden: bool)
    requires i < |nodes| && recursive && nodes[i].Dir? && (includeHidden || !IsHidden(nodes[i].name))
    ensures Full(nodes[..i + 1], prefix, recursive, includeHidden)
         == Full(nodes[..i], prefix, recursive, includeHidden) + [EntryOf(prefix, nodes[i])]
            + Full(nodes[i].children, ChildPath(prefix, nodes[i].name), recursive, includeHidden)
    ensures EndsHidden(nodes[..i + 1], recursive, includeHidden)
        == EndsHidden(nodes[i].children, recursive, includeHidden)
  {
    assert nodes[..i + 1] == nodes[..i] + [nodes[i]];
    FullSnoc(nodes[..i], nodes[i], prefix, recursive, includeHidden);
    assert EndsHidden(nodes[..i + 1], recursive, includeHidden) == EndsHiddenNode(nodes[i], recursive, includeHidden);
  }

  lemma NextDescended(nodes: seq<Node>, i: nat, prefix: string, recursive: bool, includeHidden: bool, room: nat)
    requires i < |nodes| && Uncut(nodes, i, prefix, recursive, includeHidden, room)
    requires |Full(nodes[..i], prefix, recursive, includeHidden)| < room
    requires (includeHidden || !IsHidden(nodes[i].name)) && recursive && nodes[i].Dir?
    requires !Overflows(nodes[i].children, ChildPath(prefix, nodes[i].name), recursive, includeHidden,
                        room - |Full(nodes[..i], prefix, recursive, includeHidden)| - 1)
    ensures Uncut(nodes, i + 1, prefix, recursive, includeHidden, room)
    ensures var shown := Full(nodes[..i], prefix, recursive, includeHidden);
      var inner := Full(nodes[i].children, ChildPath(prefix, nodes[i].name), recursive, includeHidden);
      && Full(nodes[..i + 1], prefix, recursive, includeHidden) == shown + [EntryOf(prefix, nodes[i])] + inner
      && Take(inner, room - |shown| - 1) == inner
  {
    ThroughDirectory(nodes, i, prefix, recursive, includeHidden);
  }

  /** Whatever is left to look at once the room is used up makes the whole overflow. */
  lemma CutHere(nodes: seq<Node>, i: nat, prefix: string, recursive: bool, includeHidden: bool, room: nat)
    requires i < |nodes| && |Full(nodes[..i], prefix, recursive, includeHidden)| == room
    ensures Overflows(nodes, prefix, recursive, includeHidden, room)
    ensures Take(Full(nodes, prefix, recursive, includeHidden), room)
        == Full(nodes[..i], prefix, recursive, includeHidden)
  {
    RestOverflows(nodes, i, prefix, recursive, includeHidden);
    FullGrows(nodes, i, prefix, recursive, includeHidden);
  }

  lemma TakeThrough<T>(whole: seq<T>, a: seq<T>, e: T, b: seq<T>, room: nat)
    requires a + [e] + b <= whole && |a| < room <= |a| + 1 + |b|
    ensures Take(whole, room) == a + [e] + Take(b, room - |a| - 1)
  {
  }

  /** An overflow of a part of the traversal is an overflow of the whole. */
  lemma PartOverflows(nodes: seq<Node>, i: nat, prefix: string, recursive: bool, includeHidden: bool, room: nat)
    requires i <= |nodes| && Overflows(nodes[..i], prefix, recursive, includeHidden, room)
    ensures Overflows(nodes, prefix, recursive, includeHidden, room)
  {
    if i < |nodes| {
      FullGrows(nodes, i, prefix, recursive, includeHidden);
      RestOverflows(nodes, i, prefix, recursive, includeHidden);
    } else {
      assert nodes[..i] == nodes;
    }
  }

  /** An overflow inside the directory at `i` is an overflow of the whole. */
  lemma CutInside(nodes: seq<Node>, i: nat, prefix: string, recursive: bool, includeHidden: bool, room: nat)
    requires i < |nodes| && recursive && nodes[i].Dir? && (includeHidden || !IsHidden(nodes[i].name))
    requires |Full(nodes[..i], prefix, recursive, includeHidden)| < room
    requires Overflows(nodes[i].children, ChildPath(prefix, nodes[i].name), recursive, includeHidden,
                       room - |Full(nodes[..i], prefix, recursive, includeHidden)| - 1)
    ensures Overflows(nodes, prefix, recursive, includeHidden, room)
    ensures var shown := Full(nodes[..i], prefix, recursive, includeHidden);
      var inner := Full(nodes[i].children, ChildPath(prefix, nodes[i].name), recursive, includeHidden);
      Take(Full(nodes, prefix, recursive, includeHidden), room)
      == shown + [EntryOf(prefix, nodes[i])] + Take(inner, room - |shown| - 1)
  {
    ThroughDirectory(nodes, i, prefix, recursive, includeHidden);
    PartOverflows(nodes, i + 1, prefix, recursive, includeHidden, room);
    FullGrows(nodes, i + 1, prefix, recursive, includeHidden);
    TakeThrough(Full(nodes, prefix, recursive, includeHidden), Full(nodes[..i], prefix, recursive, includeHidden),
                EntryOf(prefix, nodes[i]),
                Full(nodes[i].children, ChildPath(prefix, nodes[i].name), recursive, includeHidden), room);
  }

  lemma BehindStart<T>(start: seq<T>, shown: seq<T>, e: T, inner: seq<T>)
    ensures start + shown + [e] + inner == start + (shown + [e] + inner)
  {
  }

  lemma NothingCut(nodes: seq<Node>, prefix: string, recursive: bool, includeHidden: bool, room: nat)
    requires !Overflows(nodes, prefix, recursive, includeHidden, room)
    ensures Take(Full(nodes, prefix, recursive, includeHidden), room) == Full(nodes, prefix, recursive, includeHidden)
  {
  }

  method CollectEntries(nodes: seq<Node>, prefix: string, recursive: bool, includeHidden: bool, cap: nat, out: Listing)
    requires !out.truncated
    modifies out
    ensures out.entries == old(out.entries)
                         + Take(Full(nodes, prefix, recursive, includeHidden), Room(cap, |old(out.entries)|))
    ensures out.truncated <==> Overflows(nodes, prefix, recursive, includeHidden, Room(cap, |old(out.entries)|))
    decreases nodes
  {
    ghost var start, room := out.entries, Room(cap, |out.entries|);
    ghost var shown: seq<Entry> := [];
    var i := 0;
    while i < |nodes|
      invariant i <= |nodes| && !out.truncated
      invariant shown == Full(nodes[..i], prefix, recursive, includeHidden) && out.entries == start + shown
      invariant Uncut(nodes, i, prefix, recursive, includeHidden, room)
    {
      var n := nodes[i];
      if |out.entries| >= cap {
        CutHere(nodes, i, prefix, recursive, includeHidden, room);
        out.truncated := true;
        return;
      }
      if !includeHidden && IsHidden(n.name) {
        NextSkipped(nodes, i, prefix, recursive, includeHidden, room);
        i := i + 1;
        continue;
      }
      var e := EntryOf(prefix, n);
      out.entries := out.entries + [e];
      if recursive && n.Dir? {
        ghost var inner := Full(n.children, ChildPath(prefix, n.name), recursive, includeHidden);
        assert Room(cap, |out.entries|) == room - |shown| - 1;
        CollectEntries(n.children, ChildPath(prefix, n.name), recursive, includeHidden, cap, out);
        BehindStart(start, shown, e, Take(inner, room - |shown| - 1));
        if out.truncated {
          CutInside(nodes, i, prefix, recursive, includeHidden, room);
          return;
        }
        NextDescended(nodes, i, prefix, recursive, includeHidden, room);
        shown := shown + [e] + inner;
      } else {
        NextShown(nodes, i, prefix, recursive, includeHidden, room);
        shown := shown + [e];
      }
      i := i + 1;
    }
    NothingCut(nodes[..i], prefix, recursive, includeHidden, room);
    assert nodes[..i] == nodes;
  }

  /** `usize::MAX`, the cap when a request names none. */
  const NO_CAP := 0xFFFF_FFFF_FFFF_FFFF

  function CapOf(requested: Option<nat>): nat {
    requested.Or(NO_CAP)
  }

  /** A cap that is asked for counts; a missing one is the largest 64-bit number. */
  lemma CapIsTheRequest(n: nat)
    ensures CapOf(Some(n)) == n && CapOf(None) == 0x1_0000_0000_0000_0000 - 1
  {
  }

  method List(nodes: seq<Node>, recursive: bool, includeHidden: bool, maxEntries: Option<nat>)
    returns (entries: seq<Entry>, truncated: bool)
    ensures entries == Take(Full(nodes, "", recursive, includeHidden), CapOf(maxEntries))
    ensures truncated <==> Overflows(nodes, "", recursive, includeHidden, CapOf(maxEntries))
  {
    var out := new Listing();
    CollectEntries(nodes, "", recursive, includeHidden, CapOf(maxEntries), out);
    entries, truncated := out.entries, out.truncated;
  }

  /** What a caller may conclude from the two results of `List`. */
  lemma TruncationTellsLength(nodes: seq<Node>, recursive: bool, includeHidden: bool, cap: nat)
    ensures var full := Full(nodes, "", recursive, includeHidden);
      var truncated := Overflows(nodes, "", recursive, includeHidden, cap);
      && (truncated ==> |Take(full, cap)| == cap)
      && (|full| > cap ==> truncated)
      && (!truncated ==> Take(full, cap) == full)
      && (truncated && Take(full, cap) == full <==> |full| == cap && EndsHidden(nodes, recursive, includeHidden))
  {
  }

  /** A complete listing is reported as truncated when a hidden path comes last. */
  lemma TruncatedCanBeComplete()
    ensures var nodes := [File("a"), Dir("b", [File(".c")])];
      && Full(nodes, "", true, false) == [Entry("a", false), Entry("b", true)]
      && Overflows(nodes, "", true, false, 2)
  {
    var nodes := [File("a"), Dir("b", [File(".c")])];
    assert nodes[1..] == [nodes[1]] && [nodes[1]][1..] == [];
    var children := nodes[1].children;
    assert children == [File(".c")] && children[1..] == [];
    assert FullNode(File(".c"), "b", true, false) == [];
    assert Full(children, "b", true, false) == [];
    assert Display("a") == "a" && Display("b") == "b";
    assert ChildPath("", "b") == "b" && "b"[0] != "."[0] && "a"[0] != "."[0];
    assert FullNode(nodes[1], "", true, false) == [EntryOf("", nodes[1])] + Full(children, "b", true, false);
    assert EndsHidden(children, true, false);
  }

  // ---------------------------------------------------------------------------------------
  // The files that search scans
  // ---------------------------------------------------------------------------------------

  function FilePaths(nodes: seq<Node>, prefix: string, includeHidden: bool): seq<string>
    decreases nodes, 1
  {
    if nodes == [] then []
    else FilePathsOf(nodes[0], prefix, includeHidden) + FilePaths(nodes[1..], prefix, includeHidden)
  }

  function FilePathsOf(n: Node, prefix: string, includeHidden: bool): seq<string>
    decreases n, 0
  {
    if !includeHidden && IsHidden(n.name) then []
    else if n.Dir? then FilePaths(n.children, ChildPath(prefix, n.name), includeHidden)
    else [Display(ChildPath(prefix, n.name))]
  }

  lemma {:induction false} FilePathsSnoc(nodes: seq<Node>, n: Node, prefix: string, includeHidden: bool)
    ensures FilePaths(nodes + [n], prefix, includeHidden)
         == FilePaths(nodes, prefix, includeHidden) + FilePathsOf(n, prefix, includeHidden)
  {
    if nodes == [] {
      assert nodes + [n] == [n] && [n][1..] == [];
    } else {
      assert (nodes + [n])[1..] == nodes[1..] + [n];
      FilePathsSnoc(nodes[1..], n, prefix, includeHidden);
    }
  }

  class FileList {
    var paths: seq<string>

    constructor ()
      ensures paths == []
    {
      paths := [];
    }
  }

  method CollectFiles(nodes: seq<Node>, prefix: string, includeHidden: bool, out: FileList)
    modifies out
    ensures out.paths == old(out.paths) + FilePaths(nodes, prefix, includeHidden)
    decreases nodes
  {
    var i := 0;
    while i < |nodes|
      invariant i <= |nodes|
      invariant out.paths == old(out.paths) + FilePaths(nodes[..i], prefix, includeHidden)
    {
      var n := nodes[i];
      assert nodes[..i + 1] == nodes[..i] + [n];
      FilePathsSnoc(nodes[..i], n, prefix, includeHidden);
      if includeHidden || !IsHidden(n.name) {
        if n.Dir? {
          CollectFiles(n.children, ChildPath(prefix, n.name), includeHidden, out);
        } else {
          out.paths := out.paths + [Display(ChildPath(prefix, n.name))];
        }
      }
      i := i + 1;
    }
    assert nodes[..i] == nodes;
  }

  function NonDirectories(entries: seq<Entry>): seq<string> {
    if entries == [] then []
    else (if entries[0].isDir then [] else [entries[0].path]) + NonDirectories(entries[1..])
  }

  lemma {:induction false} NonDirectoriesConcat(a: seq<Entry>, b: seq<Entry>)
    ensures NonDirectories(a + b) == NonDirectories(a) + NonDirectories(b)
  {
    if a == [] {
      assert a + b == b;
    } else {
      assert (a + b)[1..] == a[1..] + b;
      NonDirectoriesConcat(a[1..], b);
    }
  }

  /** Search scans exactly the non-directories of the uncapped recursive listing, in its order. */
  lemma {:induction false} ScannedFilesAreListedFiles(nodes: seq<Node>, prefix: string, includeHidden: bool)
    ensures FilePaths(nodes, prefix, includeHidden) == NonDirectories(Full(nodes, prefix, true, includeHidden))
    decreases nodes, 1
  {
    if nodes != [] {
      ScannedFilesOfNode(nodes[0], prefix, includeHidden);
      ScannedFilesAreListedFiles(nodes[1..], prefix, includeHidden);
      NonDirectoriesConcat(
        FullNode(nodes[0], prefix, true, includeHidden), Full(nodes[1..], prefix, true, includeHidden));
    }
  }

  lemma {:induction false} ScannedFilesOfNode(n: Node, prefix: string, includeHidden: bool)
    ensures FilePathsOf(n, prefix, includeHidden) == NonDirectories(FullNode(n, prefix, true, includeHidden))
    decreases n, 0
  {
    if includeHidden || !IsHidden(n.name) {
      var e := EntryOf(prefix, n);
      if n.Dir? {
        var inner := Full(n.children, ChildPath(prefix, n.name), true, includeHidden);
        ScannedFilesAreListedFiles(n.children, ChildPath(prefix, n.name), includeHidden);
        NonDirectoriesConcat([e], inner);
        assert [e][1..] == [];
      } else {
        assert [e][1..] == [] && [e] + [] == [e];
      }
    }
  }

  // ---------------------------------------------------------------------------------------
  // Text search
  // ---------------------------------------------------------------------------------------

  datatype Match = Match(path: string, lineNumber: nat, line: string)

  function Needle(pattern: string, caseSensitive: bool): string {
    if caseSensitive then pattern else AsciiLower(pattern)
  }

  /** Whether a line holds the pattern. */
  function Finder(pattern: string, caseSensitive: bool): string -> bool {
    (line: string) => Contains(if caseSensitive then line else AsciiLower(line), Needle(pattern, caseSensitive))
  }

  /** Hits among the first `count` lines of one file. */
  function LineMatches(path: string, lines: seq<string>, count: nat, hit: string -> bool): seq<Match>
    requires count <= |lines|
  {
    if count == 0 then []
    else
      LineMatches(path, lines, count - 1, hit)
      + if hit(lines[count - 1]) then [Match(path, count, lines[count - 1])] else []
  }

  function TextMatches(path: string, content: string, hit: string -> bool): seq<Match> {
    var lines := Lines(content);
    LineMatches(path, lines, |lines|, hit)
  }

  /** `contents` holds the files that can be read as text. */
  function FileMatches(path: string, contents: map<string, string>, hit: string -> bool): seq<Match> {
    if path in contents then TextMatches(path, contents[path], hit) else []
  }

  /** Every match, in file-then-line order. */
  function AllMatches(files: seq<string>, contents: map<string, string>, hit: string -> bool): seq<Match> {
    if files == [] then []
    else
      AllMatches(files[..|files| - 1], contents, hit)
      + FileMatches(files[|files| - 1], contents, hit)
  }

  lemma {:induction false} AllMatchesGrows(files: seq<string>, i: nat, contents: map<string, string>,
      hit: string -> bool)
    requires i <= |files|
    ensures AllMatches(files[..i], contents, hit) <= AllMatches(files, contents, hit)
    decreases |files|
  {
    if i < |files| {
      var front := files[..|files| - 1];
      assert front[..i] == files[..i];
      AllMatchesGrows(front, i, contents, hit);
    } else {
      assert files[..i] == files;
    }
  }

  lemma {:induction false} LineMatchesGrows(path: string, lines: seq<string>, i: nat, j: nat, hit: string -> bool)
    requires i <= j <= |lines|
    ensures LineMatches(path, lines, i, hit) <= LineMatches(path, lines, j, hit)
    decreases j
  {
    if i < j {
      LineMatchesGrows(path, lines, i, j - 1, hit);
    }
  }

  /** Once the cap is reached, the rest of the file does not matter. */
  lemma ScanStops(path: string, lines: seq<string>, i: nat, hit: string -> bool, cap: nat, before: seq<Match>)
    requires i <= |lines| && |before + LineMatches(path, lines, i, hit)| == cap
    ensures var all := before + LineMatches(path, lines, |lines|, hit);
      |all| >= cap && Take(all, cap) == before + LineMatches(path, lines, i, hit)
  {
    LineMatchesGrows(path, lines, i, |lines|, hit);
  }

  method ScanFile(path: string, content: string, hit: string -> bool, cap: nat, before: seq<Match>)
    returns (matches: seq<Match>, full: bool)
    requires |before| < cap
    ensures var all := before + TextMatches(path, content, hit);
      matches == Take(all, cap) && (full <==> |all| >= cap)
  {
    var lines := Lines(content);
    matches, full := before, false;
    var i := 0;
    while i < |lines|
      invariant i <= |lines|
      invariant matches == before + LineMatches(path, lines, i, hit)
      invariant |matches| < cap
    {
      if hit(lines[i]) {
        matches := matches + [Match(path, i + 1, lines[i])];
        if |matches| >= cap {
          assert matches == before + LineMatches(path, lines, i + 1, hit);
          ScanStops(path, lines, i + 1, hit, cap, before);
          full := true;
          return;
        }
      }
      i := i + 1;
    }
  }

  lemma TakeMore<T>(a: seq<T>, b: seq<T>, cap: nat)
    ensures a <= b && |a| >= cap ==> Take(b, cap) == Take(a, cap)
    ensures |a| < cap ==> Take(a, cap) == a
  {
  }

  lemma NextFile(files: seq<string>, i: nat, contents: map<string, string>, hit: string -> bool)
    requires i < |files|
    ensures AllMatches(files[..i + 1], contents, hit) == AllMatches(files[..i], contents, hit)
         + if files[i] in contents then TextMatches(files[i], contents[files[i]], hit) else []
  {
    assert files[..i + 1][..i] == files[..i];
  }

  method ScanFiles(files: seq<string>, contents: map<string, string>, hit: string -> bool, cap: nat)
    returns (matches: seq<Match>, truncated: bool)
    ensures var all := AllMatches(files, contents, hit);
      && matches == Take(all, cap)
      && (truncated <==> if cap == 0 then files != [] else |all| >= cap)
  {
    matches, truncated := [], false;
    var i := 0;
    while i < |files|
      invariant i <= |files|
      invariant matches == Take(AllMatches(files[..i], contents, hit), cap)
      invariant truncated <==> i > 0 && |AllMatches(files[..i], contents, hit)| >= cap
      invariant i > 0 ==> cap > 0
    {
      ghost var sofar := AllMatches(files[..i], contents, hit);
      if |matches| >= cap {
        AllMatchesGrows(files, i, contents, hit);
        TakeMore(sofar, AllMatches(files, contents, hit), cap);
        truncated := true;
        return;
      }
      TakeMore(sofar, sofar, cap);
      NextFile(files, i, contents, hit);
      if files[i] in contents {
        matches, truncated := ScanFile(files[i], contents[files[i]], hit, cap, matches);
      }
      i := i + 1;
    }
    assert files[..i] == files;
  }

  method Search(nodes: seq<Node>, contents: map<string, string>, pattern: string, caseSensitive: bool,
                includeHidden: bool, maxResults: Option<nat>)
    returns (matches: seq<Match>, truncated: bool)
    ensures var files, cap := FilePaths(nodes, "", includeHidden), CapOf(maxResults);
      var all := AllMatches(files, contents, Finder(pattern, caseSensitive));
      && matches == Take(all, cap)
      && (truncated <==> if cap == 0 then files != [] else |all| >= cap)
    ensures forall m <- matches :: AgreesSomewhere(m.line, pattern, !caseSensitive)
  {
    var out := new FileList();
    CollectFiles(nodes, "", includeHidden, out);
    assert out.paths == FilePaths(nodes, "", includeHidden);
    matches, truncated := ScanFiles(out.paths, contents, Finder(pattern, caseSensitive), CapOf(maxResults));
    TakenMatchesAgree(out.paths, contents, pattern, caseSensitive, CapOf(maxResults));
  }

  ghost predicate IsMatch(m: Match, files: seq<string>, contents: map<string, string>, hit: string -> bool) {
    && m.path in files && m.path in contents
    && 1 <= m.lineNumber <= |Lines(contents[m.path])|
    && m.line == Lines(contents[m.path])[m.lineNumber - 1]
    && hit(m.line)
  }

  lemma {:induction false} LineMatchesExactly(path: string, lines: seq<string>, count: nat, hit: string -> bool,
      m: Match)
    requires count <= |lines|
    ensures m in LineMatches(path, lines, count, hit)
       <==> m.path == path && 1 <= m.lineNumber <= count && m.line == lines[m.lineNumber - 1] && hit(m.line)
  {
    if count > 0 {
      LineMatchesExactly(path, lines, count - 1, hit, m);
    }
  }

  /** `AllMatches` holds exactly the hits: every hitting line of every readable scanned file. */
  lemma {:induction false} MatchesAreTheHits(files: seq<string>, contents: map<string, string>, hit: string -> bool,
      m: Match)
    ensures m in AllMatches(files, contents, hit) <==> IsMatch(m, files, contents, hit)
  {
    if files != [] {
      var front, path := files[..|files| - 1], files[|files| - 1];
      assert files == front + [path];
      MatchesAreTheHits(front, contents, hit, m);
      if path in contents {
        LineMatchesExactly(path, Lines(contents[path]), |Lines(contents[path])|, hit, m);
      }
    }
  }

  /** Within one file, matches come in line order and each line matches once. */
  lemma {:induction false} LineMatchesAreOrdered(path: string, lines: seq<string>, count: nat, hit: string -> bool,
      i: nat, j: nat)
    requires count <= |lines| && i < j < |LineMatches(path, lines, count, hit)|
    ensures var ms := LineMatches(path, lines, count, hit); ms[i].lineNumber < ms[j].lineNumber
  {
    var before := LineMatches(path, lines, count - 1, hit);
    if j < |before| {
      LineMatchesAreOrdered(path, lines, count - 1, hit, i, j);
    } else {
      LineMatchesExactly(path, lines, count - 1, hit, before[i]);
    }
  }

  /** A hit is a line that agrees with the pattern somewhere, up to ASCII case unless asked to mind it. */
  lemma FinderIffAgrees(pattern: string, caseSensitive: bool, line: string)
    ensures Finder(pattern, caseSensitive)(line) <==> AgreesSomewhere(line, pattern, !caseSensitive)
  {
    ContainsIffAgrees(line, pattern);
    LowerContainsIffAgrees(line, pattern);
  }

  lemma TakenMatchesAgree(files: seq<string>, contents: map<string, string>, pattern: string, caseSensitive: bool,
      cap: nat)
    ensures forall m <- Take(AllMatches(files, contents, Finder(pattern, caseSensitive)), cap) ::
      AgreesSomewhere(m.line, pattern, !caseSensitive)
  {
    var all := AllMatches(files, contents, Finder(pattern, caseSensitive));
    forall m <- Take(all, cap) ensures AgreesSomewhere(m.line, pattern, !caseSensitive) {
      assert m in all;
      SearchFindsExactly(files, contents, pattern, caseSensitive, m);
    }
  }

  lemma HitsThatAgree(files: seq<string>, contents: map<string, string>, hit: string -> bool, m: Match, agrees: bool)
    requires hit(m.line) == agrees
    ensures m in AllMatches(files, contents, hit)
       <==> && m.path in files && m.path in contents
            && 1 <= m.lineNumber <= |Lines(contents[m.path])|
            && m.line == Lines(contents[m.path])[m.lineNumber - 1]
            && agrees
  {
    MatchesAreTheHits(files, contents, hit, m);
  }

  /**
   The matches that `search` cuts off at the cap are exactly the lines, as they stand in the file,
   of readable scanned files that agree with the pattern somewhere.
   */
  lemma SearchFindsExactly(files: seq<string>, contents: map<string, string>, pattern: string, caseSensitive: bool,
      m: Match)
    ensures m in AllMatches(files, contents, Finder(pattern, caseSensitive))
       <==> && m.path in files && m.path in contents
            && 1 <= m.lineNumber <= |Lines(contents[m.path])|
            && m.line == Lines(contents[m.path])[m.lineNumber - 1]
            && AgreesSomewhere(m.line, pattern, !caseSensitive)
  {
    FinderIffAgrees(pattern, caseSensitive, m.line);
    HitsThatAgree(files, contents, Finder(pattern, caseSensitive), m, AgreesSomewhere(m.line, pattern, !caseSensitive));
  }
}
