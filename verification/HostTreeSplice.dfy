/**
 Expanding and collapsing: toggling one path of the expanded set inserts or
 deletes exactly one contiguous block of rows, or changes nothing at all.
 */
module HostTreeSplice {
  import opened HostTree

  /** How often each path occurs among `gs` and below. */
  ghost function PathsBelow(gs: seq<Group>): (ps: multiset<string>) {
    if gs == [] then multiset{} else PathsOf(gs[0]) + PathsBelow(gs[1..])
  }

  ghost function PathsOf(g: Group): (ps: multiset<string>) {
    multiset{g.path} + PathsBelow(g.children)
  }

  ghost predicate DistinctPaths(forest: seq<Group>) {
    forall p :: PathsBelow(forest)[p] <= 1
  }

  lemma PathsBelowCons(g: Group, gs: seq<Group>)
    ensures PathsBelow([g] + gs) == PathsOf(g) + PathsBelow(gs)
  {
    assert ([g] + gs)[1..] == gs;
  }

  lemma SumsSwap(a: multiset<string>, b: multiset<string>, c: multiset<string>)
    ensures a + (b + c) == b + (a + c)
  {
  }

  lemma {:induction false} PathsBelowRemove(gs: seq<Group>, k: nat)
    requires k < |gs|
    ensures PathsBelow(gs) == PathsOf(gs[k]) + PathsBelow(gs[..k] + gs[k + 1..])
  {
    if k == 0 {
      assert gs[..0] + gs[1..] == gs[1..];
    } else {
      var rest := gs[1..][..k - 1] + gs[1..][k..];
      PathsBelowRemove(gs[1..], k - 1);
      assert gs[1..][k - 1] == gs[k];
      assert gs[..k] + gs[k + 1..] == [gs[0]] + rest by {
        RemovedTail(gs, k);
      }
      PathsBelowCons(gs[0], rest);
      SumsSwap(PathsOf(gs[0]), PathsOf(gs[k]), PathsBelow(rest));
    }
  }

  lemma RemovedTail<T>(s: seq<T>, k: nat)
    requires 0 < k < |s|
    ensures s[..k] + s[k + 1..] == [s[0]] + (s[1..][..k - 1] + s[1..][k..])
  {
  }

  lemma RemovedMultiset<T>(s: seq<T>, k: nat)
    requires k < |s|
    ensures multiset(s[..k] + s[k + 1..]) == multiset(s) - multiset{s[k]}
  {
    assert s == s[..k] + [s[k]] + s[k + 1..];
  }

  /** A permutation of `a` contains `a`'s head, and removing it leaves a permutation of the tail. */
  lemma MatchHead<T>(a: seq<T>, b: seq<T>) returns (k: nat)
    requires a != [] && multiset(a) == multiset(b)
    ensures k < |b| && b[k] == a[0]
    ensures multiset(a[1..]) == multiset(b[..k] + b[k + 1..])
  {
    assert a[0] in multiset(b);
    k :| 0 <= k < |b| && b[k] == a[0];
    RemovedMultiset(a, 0);
    assert a[..0] + a[1..] == a[1..];
    RemovedMultiset(b, k);
  }

  /** Sorting a list of siblings does not change which paths it contains. */
  lemma {:induction false} PathsBelowPermuted(a: seq<Group>, b: seq<Group>)
    requires multiset(a) == multiset(b)
    ensures PathsBelow(a) == PathsBelow(b)
  {
    if a == [] {
      assert |multiset(b)| == 0;
    } else {
      var k := MatchHead(a, b);
      PathsBelowRemove(b, k);
      PathsBelowPermuted(a[1..], b[..k] + b[k + 1..]);
    }
  }

  /** Row `i` shows the group with path `p`. */
  predicate Shows(row: Row, p: string) {
    row.GroupRow? && row.node.path == p
  }

  function Expand(view: View, p: string): View {
    view.(expanded := view.expanded + {p})
  }

  function Collapse(view: View, p: string): View {
    view.(expanded := view.expanded - {p})
  }

  /** `after` is `rows` with `block` inserted behind row `i`. */
  ghost predicate InsertedAt(rows: seq<Row>, after: seq<Row>, block: seq<Row>, i: nat)
    requires i < |rows|
  {
    after == rows[..i + 1] + block + rows[i + 1..]
  }

  /** `after` is `rows` with the block below one row showing `p` spliced in. */
  ghost predicate SplicedAt(view: View, rows: seq<Row>, after: seq<Row>, i: nat)
    requires i < |rows| && rows[i].GroupRow?
  {
    InsertedAt(rows, after, ChildRows(view, rows[i].node, rows[i].depth + 1), i)
  }

  ghost predicate Spliced(view: View, rows: seq<Row>, after: seq<Row>, p: string) {
    && (Hidden(rows, p) ==> after == rows)
    && (forall i :: 0 <= i < |rows| && Shows(rows[i], p) ==> SplicedAt(view, rows, after, i))
  }

  ghost predicate Hidden(rows: seq<Row>, p: string) {
    forall i :: 0 <= i < |rows| ==> !Shows(rows[i], p)
  }

  lemma HiddenConcat(a: seq<Row>, b: seq<Row>, p: string)
    ensures Hidden(a + b, p) <==> Hidden(a, p) && Hidden(b, p)
  {
    assert forall i :: 0 <= i < |a| ==> (a + b)[i] == a[i];
    assert forall i :: 0 <= i < |b| ==> (a + b)[|a| + i] == b[i];
  }

  lemma InsertedLeft(a: seq<Row>, a': seq<Row>, b: seq<Row>, block: seq<Row>, i: nat)
    requires i < |a| && InsertedAt(a, a', block, i)
    ensures InsertedAt(a + b, a' + b, block, i)
  {
    assert (a + b)[..i + 1] == a[..i + 1];
    assert (a + b)[i + 1..] == a[i + 1..] + b;
  }

  lemma InsertedRight(a: seq<Row>, b: seq<Row>, b': seq<Row>, block: seq<Row>, i: nat)
    requires i < |b| && InsertedAt(b, b', block, i)
    ensures InsertedAt(a + b, a + b', block, |a| + i)
  {
    assert (a + b)[..|a| + i + 1] == a + b[..i + 1];
    assert (a + b)[|a| + i + 1..] == b[i + 1..];
  }

  lemma InsertedBack(rows: seq<Row>, after: seq<Row>, block: seq<Row>, i: nat)
    requires i < |rows| && InsertedAt(rows, after, block, i)
    ensures i + 1 + |block| <= |after| && after[i] == rows[i]
    ensures after[..i + 1] + after[i + 1 + |block|..] == rows
  {
    assert after[i + 1 + |block|..] == rows[i + 1..];
    assert after[..i + 1] == rows[..i + 1];
  }

  lemma SplicedLeft(view: View, a: seq<Row>, a': seq<Row>, b: seq<Row>, p: string)
    requires Spliced(view, a, a', p) && Hidden(b, p)
    ensures Spliced(view, a + b, a' + b, p)
  {
    HiddenConcat(a, b, p);
    forall i | 0 <= i < |a + b| && Shows((a + b)[i], p)
      ensures SplicedAt(view, a + b, a' + b, i)
    {
      assert i < |a| && SplicedAt(view, a, a', i);
      InsertedLeft(a, a', b, ChildRows(view, a[i].node, a[i].depth + 1), i);
    }
  }

  lemma SplicedRight(view: View, a: seq<Row>, b: seq<Row>, b': seq<Row>, p: string)
    requires Spliced(view, b, b', p) && Hidden(a, p)
    ensures Spliced(view, a + b, a + b', p)
  {
    HiddenConcat(a, b, p);
    forall i | 0 <= i < |a + b| && Shows((a + b)[i], p)
      ensures SplicedAt(view, a + b, a + b', i)
    {
      ShownRight(a, b, p, i);
      var k := i - |a|;
      assert SplicedAt(view, b, b', k);
      InsertedRight(a, b, b', ChildRows(view, b[k].node, b[k].depth + 1), k);
    }
  }

  /** A block without the path `p` neither shows `p` nor depends on it. */
  lemma {:induction false} GroupIgnores(view: View, g: Group, depth: nat, pos: nat, size: nat, p: string)
    requires p !in PathsOf(g)
    ensures GroupRows(Expand(view, p), g, depth, pos, size) == GroupRows(view, g, depth, pos, size)
    ensures Hidden(GroupRows(view, g, depth, pos, size), p)
    decreases g, 2, 0
  {
    if g.path in view.expanded {
      ChildrenIgnore(view, g, depth + 1, p);
      HiddenConcat([GroupRow(g, depth, pos, size)], ChildRows(view, g, depth + 1), p);
    }
  }

  lemma {:induction false} ChildrenIgnore(view: View, g: Group, depth: nat, p: string)
    requires p !in PathsBelow(g.children)
    ensures ChildRows(Expand(view, p), g, depth) == ChildRows(view, g, depth)
    ensures Hidden(ChildRows(view, g, depth), p)
    decreases g, 1, 0
  {
    PathsBelowPermuted(SortedChildren(view, g), g.children);
    assert SortedChildren(Expand(view, p), g) == SortedChildren(view, g);
    assert SortedHosts(Expand(view, p), g) == SortedHosts(view, g);
    ListIgnores(view, g, SortedChildren(view, g), depth, 0, SetSize(g), p);
    HostsNeverShow(SortedHosts(view, g), depth, |g.children|, SetSize(g), p);
    HiddenConcat(ListRows(view, g, SortedChildren(view, g), depth, 0, SetSize(g)),
                 HostRows(SortedHosts(view, g), depth, |g.children|, SetSize(g)), p);
  }

  lemma {:induction false} ListIgnores(view: View, parent: Group, gs: seq<Group>, depth: nat, before: nat, size: nat, p: string)
    requires Below(gs, parent) && p !in PathsBelow(gs)
    ensures ListRows(Expand(view, p), parent, gs, depth, before, size) == ListRows(view, parent, gs, depth, before, size)
    ensures Hidden(ListRows(view, parent, gs, depth, before, size), p)
    decreases parent, 0, |gs|
  {
    if gs != [] {
      GroupIgnores(view, gs[0], depth, before + 1, size, p);
      ListIgnores(view, parent, gs[1..], depth, before + 1, size, p);
      HiddenConcat(GroupRows(view, gs[0], depth, before + 1, size), ListRows(view, parent, gs[1..], depth, before + 1, size), p);
    }
  }

  lemma {:induction false} HostsNeverShow(hs: seq<Host>, depth: nat, before: nat, size: nat, p: string)
    ensures Hidden(HostRows(hs, depth, before, size), p)
  {
    if hs != [] {
      HostsNeverShow(hs[1..], depth, before + 1, size, p);
      HiddenConcat([HostRow(hs[0], depth, before + 1, size)], HostRows(hs[1..], depth, before + 1, size), p);
    }
  }

  lemma {:induction false} GroupSplices(view: View, g: Group, depth: nat, pos: nat, size: nat, p: string)
    requires p !in view.expanded
    requires PathsOf(g)[p] <= 1
    ensures Spliced(view, GroupRows(view, g, depth, pos, size), GroupRows(Expand(view, p), g, depth, pos, size), p)
    decreases g, 2, 0
  {
    var row := GroupRow(g, depth, pos, size);
    if g.path == p {
      assert p !in PathsBelow(g.children);
      ChildrenIgnore(view, g, depth + 1, p);
      assert GroupRows(view, g, depth, pos, size) == [row];
      assert SplicedAt(view, [row], GroupRows(Expand(view, p), g, depth, pos, size), 0);
    } else if g.path in view.expanded {
      ChildrenSplice(view, g, depth + 1, p);
      SplicedRight(view, [row], ChildRows(view, g, depth + 1), ChildRows(Expand(view, p), g, depth + 1), p);
    }
  }

  lemma {:induction false} ChildrenSplice(view: View, g: Group, depth: nat, p: string)
    requires p !in view.expanded
    requires PathsBelow(g.children)[p] <= 1
    ensures Spliced(view, ChildRows(view, g, depth), ChildRows(Expand(view, p), g, depth), p)
    decreases g, 1, 0
  {
    var gs, hs, n := SortedChildren(view, g), SortedHosts(view, g), SetSize(g);
    PathsBelowPermuted(gs, g.children);
    assert SortedChildren(Expand(view, p), g) == gs && SortedHosts(Expand(view, p), g) == hs;
    ListSplices(view, g, gs, depth, 0, n, p);
    HostsNeverShow(hs, depth, |g.children|, n, p);
    SplicedLeft(view, ListRows(view, g, gs, depth, 0, n), ListRows(Expand(view, p), g, gs, depth, 0, n),
                HostRows(hs, depth, |g.children|, n), p);
  }

  lemma {:induction false} ListSplices(view: View, parent: Group, gs: seq<Group>, depth: nat, before: nat, size: nat, p: string)
    requires Below(gs, parent) && p !in view.expanded
    requires PathsBelow(gs)[p] <= 1
    ensures Spliced(view, ListRows(view, parent, gs, depth, before, size),
                    ListRows(Expand(view, p), parent, gs, depth, before, size), p)
    decreases parent, 0, |gs|
  {
    if gs != [] {
      var head, tail := GroupRows(view, gs[0], depth, before + 1, size), ListRows(view, parent, gs[1..], depth, before + 1, size);
      if p in PathsOf(gs[0]) {
        assert p !in PathsBelow(gs[1..]);
        GroupSplices(view, gs[0], depth, before + 1, size, p);
        ListIgnores(view, parent, gs[1..], depth, before + 1, size, p);
        SplicedLeft(view, head, GroupRows(Expand(view, p), gs[0], depth, before + 1, size), tail, p);
      } else {
        GroupIgnores(view, gs[0], depth, before + 1, size, p);
        ListSplices(view, parent, gs[1..], depth, before + 1, size, p);
        SplicedRight(view, head, tail, ListRows(Expand(view, p), parent, gs[1..], depth, before + 1, size), p);
      }
    }
  }

  /**
   Expanding a closed group splices that group's visible subtree after its row
   and leaves every other row as it was, depth and sibling number included.
   */
  lemma ExpandSplices(view: View, forest: seq<Group>, ungrouped: seq<Host>, p: string, i: nat)
    requires DistinctPaths(forest) && p !in view.expanded
    requires i < |VisibleRows(view, forest, ungrouped)| && Shows(VisibleRows(view, forest, ungrouped)[i], p)
    ensures var rows := VisibleRows(view, forest, ungrouped);
      VisibleRows(Expand(view, p), forest, ungrouped)
        == rows[..i + 1] + ChildRows(view, rows[i].node, rows[i].depth + 1) + rows[i + 1..]
  {
    var root := Root(forest, ungrouped);
    ChildrenSplice(view, root, 0, p);
    assert SplicedAt(view, ChildRows(view, root, 0), ChildRows(Expand(view, p), root, 0), i);
  }

  /** The one row that shows `p` after a splice is the row the block went in behind. */
  lemma OpenRowWasShown(view: View, closed: seq<Row>, rows: seq<Row>, p: string, i: nat)
    requires Spliced(view, closed, rows, p)
    requires i < |rows| && Shows(rows[i], p)
    requires forall k :: 0 <= k < |rows| && Shows(rows[k], p) ==> k == i
    ensures i < |closed| && Shows(closed[i], p) && SplicedAt(view, closed, rows, i)
  {
    if !Hidden(closed, p) {
      var k :| 0 <= k < |closed| && Shows(closed[k], p);
      assert SplicedAt(view, closed, rows, k);
      InsertedBack(closed, rows, ChildRows(view, closed[k].node, closed[k].depth + 1), k);
    }
  }

  lemma RowIsUnique(view: View, forest: seq<Group>, ungrouped: seq<Host>, p: string, i: nat)
    requires DistinctPaths(forest)
    requires i < |VisibleRows(view, forest, ungrouped)| && Shows(VisibleRows(view, forest, ungrouped)[i], p)
    ensures forall k :: 0 <= k < |VisibleRows(view, forest, ungrouped)| && Shows(VisibleRows(view, forest, ungrouped)[k], p) ==> k == i
  {
    var root, rows := Root(forest, ungrouped), VisibleRows(view, forest, ungrouped);
    forall k | 0 <= k < |rows| && Shows(rows[k], p)
      ensures k == i
    {
      OnlyOneShows(view, root, 0, p, i, k);
    }
  }

  /** Collapsing an open group deletes exactly the block that expanding it inserted. */
  lemma CollapseUndoes(view: View, forest: seq<Group>, ungrouped: seq<Host>, p: string, i: nat)
    requires DistinctPaths(forest) && p in view.expanded
    requires i < |VisibleRows(view, forest, ungrouped)| && Shows(VisibleRows(view, forest, ungrouped)[i], p)
    ensures var rows := VisibleRows(view, forest, ungrouped);
      var block := |ChildRows(Collapse(view, p), rows[i].node, rows[i].depth + 1)|;
      && i + 1 + block <= |rows|
      && VisibleRows(Collapse(view, p), forest, ungrouped) == rows[..i + 1] + rows[i + 1 + block..]
  {
    var collapsed := Collapse(view, p);
    assert Expand(collapsed, p) == view;
    var closed, rows := VisibleRows(collapsed, forest, ungrouped), VisibleRows(view, forest, ungrouped);
    ChildrenSplice(collapsed, Root(forest, ungrouped), 0, p);
    RowIsUnique(view, forest, ungrouped, p, i);
    OpenRowWasShown(collapsed, closed, rows, p, i);
    InsertedBack(closed, rows, ChildRows(collapsed, closed[i].node, closed[i].depth + 1), i);
  }

  /** `p` lies below `g` with every group on the way to it expanded. */
  ghost predicate Reachable(expanded: set<string>, g: Group, p: string) {
    exists c :: c in g.children && (c.path == p || (c.path in expanded && Reachable(expanded, c, p)))
  }

  /** A path is shown exactly when all of its ancestors are expanded. */
  lemma {:induction false} ShownIffReachable(view: View, g: Group, depth: nat, p: string)
    ensures !Hidden(ChildRows(view, g, depth), p) <==> Reachable(view.expanded, g, p)
    decreases g, 1, 0
  {
    var gs, n := SortedChildren(view, g), SetSize(g);
    ListShownIff(view, g, gs, depth, 0, n, p);
    HostsNeverShow(SortedHosts(view, g), depth, |g.children|, n, p);
    HiddenConcat(ListRows(view, g, gs, depth, 0, n), HostRows(SortedHosts(view, g), depth, |g.children|, n), p);
  }

  lemma {:induction false} ListShownIff(view: View, parent: Group, gs: seq<Group>, depth: nat, before: nat, size: nat, p: string)
    requires Below(gs, parent)
    ensures !Hidden(ListRows(view, parent, gs, depth, before, size), p)
        <==> exists c :: c in gs && (c.path == p || (c.path in view.expanded && Reachable(view.expanded, c, p)))
    decreases parent, 0, |gs|
  {
    if gs != [] {
      var row := GroupRow(gs[0], depth, before + 1, size);
      var below := if gs[0].path in view.expanded then ChildRows(view, gs[0], depth + 1) else [];
      ShownIffReachable(view, gs[0], depth + 1, p);
      HiddenConcat([row], below, p);
      assert Shows([row][0], p) <==> gs[0].path == p;
      ListShownIff(view, parent, gs[1..], depth, before + 1, size, p);
      HiddenConcat([row] + below, ListRows(view, parent, gs[1..], depth, before + 1, size), p);
    }
  }

  lemma SpliceKeepsShown(view: View, rows: seq<Row>, after: seq<Row>, p: string)
    requires Spliced(view, rows, after, p) && !Hidden(rows, p)
    ensures !Hidden(after, p)
  {
    var i :| 0 <= i < |rows| && Shows(rows[i], p);
    assert SplicedAt(view, rows, after, i);
    assert after[i] == rows[i];
  }

  /** Toggling a group under a collapsed ancestor changes no row, in either direction. */
  lemma HiddenToggleChangesNothing(view: View, forest: seq<Group>, ungrouped: seq<Host>, p: string)
    requires DistinctPaths(forest)
    requires !Reachable(view.expanded, Root(forest, ungrouped), p)
    ensures VisibleRows(Expand(view, p), forest, ungrouped) == VisibleRows(view, forest, ungrouped)
    ensures VisibleRows(Collapse(view, p), forest, ungrouped) == VisibleRows(view, forest, ungrouped)
  {
    var root, rows := Root(forest, ungrouped), VisibleRows(view, forest, ungrouped);
    ShownIffReachable(view, root, 0, p);
    if p in view.expanded {
      var collapsed := Collapse(view, p);
      var closed := ChildRows(collapsed, root, 0);
      assert Expand(collapsed, p) == view && Expand(view, p) == view;
      ChildrenSplice(collapsed, root, 0, p);
      if !Hidden(closed, p) {
        SpliceKeepsShown(collapsed, closed, rows, p);
      }
    } else {
      assert view.expanded - {p} == view.expanded;
      ChildrenSplice(view, root, 0, p);
    }
  }

  /** With distinct paths a path is shown by at most one row. */
  lemma {:induction false} OnlyOneShows(view: View, g: Group, depth: nat, p: string, i: nat, j: nat)
    requires PathsBelow(g.children)[p] <= 1
    requires i < |ChildRows(view, g, depth)| && Shows(ChildRows(view, g, depth)[i], p)
    requires j < |ChildRows(view, g, depth)| && Shows(ChildRows(view, g, depth)[j], p)
    ensures i == j
    decreases g, 1, 0
  {
    var gs, n := SortedChildren(view, g), SetSize(g);
    PathsBelowPermuted(gs, g.children);
    HostsNeverShow(SortedHosts(view, g), depth, |g.children|, n, p);
    var a, b := ListRows(view, g, gs, depth, 0, n), HostRows(SortedHosts(view, g), depth, |g.children|, n);
    ShownLeft(a, b, p, i);
    ShownLeft(a, b, p, j);
    OnlyOneListed(view, g, gs, depth, 0, n, p, i, j);
  }

  lemma ShownLeft(a: seq<Row>, b: seq<Row>, p: string, i: nat)
    requires i < |a + b| && Shows((a + b)[i], p) && Hidden(b, p)
    ensures i < |a| && Shows(a[i], p)
  {
    HiddenConcat([], b, p);
  }

  lemma ShownRight(a: seq<Row>, b: seq<Row>, p: string, i: nat)
    requires i < |a + b| && Shows((a + b)[i], p) && Hidden(a, p)
    ensures |a| <= i && Shows(b[i - |a|], p)
  {
    HiddenConcat(a, [], p);
  }

  lemma {:induction false} OnlyOneInBlock(view: View, g: Group, depth: nat, pos: nat, size: nat, p: string, i: nat, j: nat)
    requires PathsOf(g)[p] <= 1
    requires var rows := GroupRows(view, g, depth, pos, size);
      i < |rows| && j < |rows| && Shows(rows[i], p) && Shows(rows[j], p)
    ensures i == j
    decreases g, 2, 0
  {
    var row := GroupRow(g, depth, pos, size);
    if g.path in view.expanded {
      var below := ChildRows(view, g, depth + 1);
      if g.path == p {
        ChildrenIgnore(view, g, depth + 1, p);
        ShownLeft([row], below, p, i);
        ShownLeft([row], below, p, j);
      } else {
        assert Hidden([row], p);
        ShownRight([row], below, p, i);
        ShownRight([row], below, p, j);
        OnlyOneShows(view, g, depth + 1, p, i - 1, j - 1);
      }
    }
  }

  lemma {:induction false} OnlyOneListed(view: View, parent: Group, gs: seq<Group>, depth: nat, before: nat, size: nat, p: string, i: nat, j: nat)
    requires Below(gs, parent) && PathsBelow(gs)[p] <= 1
    requires var rows := ListRows(view, parent, gs, depth, before, size);
      i < |rows| && j < |rows| && Shows(rows[i], p) && Shows(rows[j], p)
    ensures i == j
    decreases parent, 0, |gs|
  {
    var head, tail := GroupRows(view, gs[0], depth, before + 1, size), ListRows(view, parent, gs[1..], depth, before + 1, size);
    if p in PathsOf(gs[0]) {
      ListIgnores(view, parent, gs[1..], depth, before + 1, size, p);
      ShownLeft(head, tail, p, i);
      ShownLeft(head, tail, p, j);
      OnlyOneInBlock(view, gs[0], depth, before + 1, size, p, i, j);
    } else {
      GroupIgnores(view, gs[0], depth, before + 1, size, p);
      ShownRight(head, tail, p, i);
      ShownRight(head, tail, p, j);
      OnlyOneListed(view, parent, gs[1..], depth, before + 1, size, p, i - |head|, j - |head|);
    }
  }
}
