/**
 The visible host tree of components/HostTreeView.tsx: a forest of groups and
 hosts is flattened into one list of rows by nested visitors, and the arrow
 keys later recover the tree from the rows' depths alone.
 */
module HostTree {

  datatype Host = Host(id: string, title: string)

  datatype Group = Group(path: string, name: string, children: seq<Group>, hosts: seq<Host>)

  datatype Row =
    | GroupRow(node: Group, depth: nat, posInSet: nat, setSize: nat)
    | HostRow(host: Host, depth: nat, posInSet: nat, setSize: nat)

  ghost predicate Permutes<T(!new)>(f: seq<T> -> seq<T>) {
    forall s :: multiset(f(s)) == multiset(s)
  }

  /** Sorting, whatever the mode and the comparator: JavaScript's sort always permutes. */
  type GroupOrder = f: seq<Group> -> seq<Group> | Permutes(f) witness (s: seq<Group>) => s
  type HostOrder = f: seq<Host> -> seq<Host> | Permutes(f) witness (s: seq<Host>) => s

  /** The sort mode and the expanded set of one rendering. */
  datatype View = View(groupOrder: GroupOrder, hostOrder: HostOrder, expanded: set<string>)

  lemma OrderKeepsMembers<T(!new)>(f: seq<T> -> seq<T>, s: seq<T>)
    requires Permutes(f)
    ensures |f(s)| == |s|
    ensures forall x :: x in f(s) <==> x in s
  {
    assert |multiset(f(s))| == |multiset(s)|;
    forall x
      ensures x in f(s) <==> x in s
    {
      assert x in f(s) <==> x in multiset(f(s));
      assert x in s <==> x in multiset(s);
    }
  }

  /** Every listed group is a proper part of `parent`; the recursion descends along it. */
  ghost predicate Below(gs: seq<Group>, parent: Group) {
    forall i :: 0 <= i < |gs| ==> gs[i] < parent
  }

  function SortedChildren(view: View, g: Group): (gs: seq<Group>)
    ensures |gs| == |g.children|
    ensures forall x :: x in gs <==> x in g.children
    ensures Below(gs, g)
    ensures multiset(gs) == multiset(g.children)
  {
    OrderKeepsMembers(view.groupOrder, g.children);
    assert forall i | 0 <= i < |g.children| :: view.groupOrder(g.children)[i] in view.groupOrder(g.children);
    view.groupOrder(g.children)
  }

  function SortedHosts(view: View, g: Group): (hs: seq<Host>)
    ensures |hs| == |g.hosts|
    ensures forall x :: x in hs <==> x in g.hosts
    ensures multiset(hs) == multiset(g.hosts)
  {
    OrderKeepsMembers(view.hostOrder, g.hosts);
    view.hostOrder(g.hosts)
  }

  /** The children of a group, numbered together: sub-groups first, then hosts. */
  function SetSize(g: Group): nat {
    |g.children| + |g.hosts|
  }

  /** The rows that show `g` and, when it is expanded, everything visible below it. */
  function GroupRows(view: View, g: Group, depth: nat, pos: nat, size: nat): (rows: seq<Row>)
    decreases g, 2, 0
  {
    [GroupRow(g, depth, pos, size)] + (if g.path in view.expanded then ChildRows(view, g, depth + 1) else [])
  }

  /** The rows below an expanded group: the sub-groups' blocks, then the hosts. */
  function ChildRows(view: View, g: Group, depth: nat): (rows: seq<Row>)
    decreases g, 1, 0
  {
    ListRows(view, g, SortedChildren(view, g), depth, 0, SetSize(g))
    + HostRows(SortedHosts(view, g), depth, |g.children|, SetSize(g))
  }

  function ListRows(view: View, ghost parent: Group, gs: seq<Group>, depth: nat, before: nat, size: nat): (rows: seq<Row>)
    requires Below(gs, parent)
    decreases parent, 0, |gs|
  {
    if gs == [] then []
    else GroupRows(view, gs[0], depth, before + 1, size) + ListRows(view, parent, gs[1..], depth, before + 1, size)
  }

  function HostRows(hs: seq<Host>, depth: nat, before: nat, size: nat): (rows: seq<Row>) {
    if hs == [] then []
    else [HostRow(hs[0], depth, before + 1, size)] + HostRows(hs[1..], depth, before + 1, size)
  }

  /** The whole tree hangs below a root that is never shown and always expanded. */
  function Root(forest: seq<Group>, ungrouped: seq<Host>): Group {
    Group("", "", forest, ungrouped)
  }

  function VisibleRows(view: View, forest: seq<Group>, ungrouped: seq<Host>): (rows: seq<Row>) {
    ChildRows(view, Root(forest, ungrouped), 0)
  }

  lemma {:induction false} ListRowsSnoc(view: View, parent: Group, gs: seq<Group>, k: nat, depth: nat, before: nat, size: nat)
    requires Below(gs, parent)
    requires k < |gs|
    ensures ListRows(view, parent, gs[..k + 1], depth, before, size)
         == ListRows(view, parent, gs[..k], depth, before, size)
            + GroupRows(view, gs[k], depth, before + k + 1, size)
    decreases k
  {
    if k == 0 {
      assert gs[..1] == [gs[0]];
    } else {
      assert gs[..k + 1][1..] == gs[1..][..k];
      assert gs[..k][1..] == gs[1..][..k - 1];
      ListRowsSnoc(view, parent, gs[1..], k - 1, depth, before + 1, size);
    }
  }

  lemma {:induction false} HostRowsSnoc(hs: seq<Host>, k: nat, depth: nat, before: nat, size: nat)
    requires k < |hs|
    ensures HostRows(hs[..k + 1], depth, before, size)
         == HostRows(hs[..k], depth, before, size) + [HostRow(hs[k], depth, before + k + 1, size)]
  {
    if k == 0 {
      assert hs[..1] == [hs[0]];
    } else {
      assert hs[..k + 1][1..] == hs[1..][..k];
      assert hs[..k][1..] == hs[1..][..k - 1];
      HostRowsSnoc(hs[1..], k - 1, depth, before + 1, size);
    }
  }

  /** The builder of the source: nested visitors that push onto one list. */
  class TreeBuilder {
    var items: seq<Row>

    constructor ()
      ensures items == []
    {
      items := [];
    }

    method PushHosts(hs: seq<Host>, depth: nat, before: nat, size: nat)
      modifies this
      ensures items == old(items) + HostRows(hs, depth, before, size)
    {
      var i := 0;
      while i < |hs|
        invariant 0 <= i <= |hs|
        invariant items == old(items) + HostRows(hs[..i], depth, before, size)
      {
        HostRowsSnoc(hs, i, depth, before, size);
        items := items + [HostRow(hs[i], depth, before + i + 1, size)];
        i := i + 1;
      }
      assert hs[..i] == hs;
    }

    method VisitChildGroups(view: View, ghost parent: Group, sorted: seq<Group>, depth: nat, size: nat)
      requires Below(sorted, parent)
      modifies this
      ensures items == old(items) + ListRows(view, parent, sorted, depth, 0, size)
      decreases parent, 0
    {
      var i := 0;
      while i < |sorted|
        invariant 0 <= i <= |sorted|
        invariant items == old(items) + ListRows(view, parent, sorted[..i], depth, 0, size)
      {
        ListRowsSnoc(view, parent, sorted, i, depth, 0, size);
        VisitGroup(view, sorted[i], depth, i + 1, size);
        i := i + 1;
      }
      assert sorted[..i] == sorted;
    }

    /** One group: its own row, then, if it is expanded, nested groups before its hosts. */
    method VisitGroup(view: View, node: Group, depth: nat, pos: nat, size: nat)
      modifies this
      ensures items == old(items) + GroupRows(view, node, depth, pos, size)
      decreases node, 2
    {
      items := items + [GroupRow(node, depth, pos, size)];
      if node.path in view.expanded {
        VisitBelow(view, node, depth + 1);
      }
    }

    /** The rows below an expanded group: nested groups before the group's own hosts. */
    method VisitBelow(view: View, node: Group, depth: nat)
      modifies this
      ensures items == old(items) + ChildRows(view, node, depth)
      decreases node, 1
    {
      var childGroups := SortedChildren(view, node);
      var childHosts := SortedHosts(view, node);
      var childSize := |childGroups| + |childHosts|;
      ghost var nested := ListRows(view, node, childGroups, depth, 0, childSize);
      ghost var own := HostRows(childHosts, depth, |childGroups|, childSize);
      VisitChildGroups(view, node, childGroups, depth, childSize);
      PushHosts(childHosts, depth, |childGroups|, childSize);
      assert old(items) + nested + own == old(items) + (nested + own);
    }

    /** The entry visit: root-level hosts are siblings of the top-level groups. */
    method VisitGroups(view: View, forest: seq<Group>, ungrouped: seq<Host>)
      modifies this
      ensures items == old(items) + VisibleRows(view, forest, ungrouped)
    {
      VisitBelow(view, Root(forest, ungrouped), 0);
    }
  }

  method BuildVisibleHostTreeItems(view: View, forest: seq<Group>, ungrouped: seq<Host>) returns (rows: seq<Row>)
    ensures rows == VisibleRows(view, forest, ungrouped)
  {
    var builder := new TreeBuilder();
    builder.VisitGroups(view, forest, ungrouped);
    rows := builder.items;
  }
}
