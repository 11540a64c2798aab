/**
 The manual order of host-tree groups (sortHostTreeGroups in
 components/HostTreeView.tsx): when its comparator is a strict order at all,
 and what the sorted list then is.
 */
module ManualOrder {
  import opened Prelude

  datatype Node = Node(path: string, name: string)

  /** The finite orders of the group configurations, by path. */
  type Orders = map<string, real>

  /** Where a path stands in the list to be sorted; of equal paths the last one counts. */
  function OriginalIndex(nodes: seq<Node>, path: string): (i: int)
    ensures -1 <= i < |nodes|
    ensures i >= 0 ==> nodes[i].path == path && forall k :: i < k < |nodes| ==> nodes[k].path != path
    ensures i < 0 ==> forall k :: 0 <= k < |nodes| ==> nodes[k].path != path
  {
    if nodes == [] then -1
    else if nodes[|nodes| - 1].path == path then |nodes| - 1
    else OriginalIndex(nodes[..|nodes| - 1], path)
  }

  function Compare(orders: Orders, nodes: seq<Node>, a: string, b: string): real {
    if a in orders && b in orders && orders[a] != orders[b] then orders[a] - orders[b]
    else if a in orders then -1.0
    else if b in orders then 1.0
    else (OriginalIndex(nodes, a) - OriginalIndex(nodes, b)) as real
  }

  predicate Before(orders: Orders, nodes: seq<Node>, a: string, b: string) {
    Compare(orders, nodes, a, b) < 0.0
  }

  predicate Listed(nodes: seq<Node>, path: string) {
    OriginalIndex(nodes, path) >= 0
  }

  ghost predicate DistinctOrders(orders: Orders, nodes: seq<Node>) {
    forall a, b :: Listed(nodes, a) && Listed(nodes, b) && a in orders && b in orders && orders[a] == orders[b] ==> a == b
  }

  /** The comparator never puts two paths before each other. */
  ghost predicate Antisymmetric(orders: Orders, nodes: seq<Node>) {
    forall a, b :: Listed(nodes, a) && Listed(nodes, b) && a != b ==> (Before(orders, nodes, a, b) <==> !Before(orders, nodes, b, a))
  }

  /** The comparator is consistent exactly when the configured orders of the listed groups are pairwise distinct. */
  lemma ConsistentIffDistinct(orders: Orders, nodes: seq<Node>)
    ensures Antisymmetric(orders, nodes) <==> DistinctOrders(orders, nodes)
  {
    if Antisymmetric(orders, nodes) {
      forall a, b | Listed(nodes, a) && Listed(nodes, b) && a in orders && b in orders && orders[a] == orders[b]
        ensures a == b
      {
        assert Before(orders, nodes, a, b) && Before(orders, nodes, b, a);
      }
    }
  }

  /** With distinct orders it is a strict total order on the listed paths. */
  lemma Transitive(orders: Orders, nodes: seq<Node>, a: string, b: string, c: string)
    requires DistinctOrders(orders, nodes) && Listed(nodes, a) && Listed(nodes, b) && Listed(nodes, c)
    requires a != b && b != c && a != c && Before(orders, nodes, a, b) && Before(orders, nodes, b, c)
    ensures Before(orders, nodes, a, c)
  {
  }

  ghost predicate DistinctPaths(nodes: seq<Node>) {
    forall i, j :: 0 <= i < j < |nodes| ==> nodes[i].path != nodes[j].path
  }

  /** What a sort by this comparator may return. */
  ghost predicate Sorted(orders: Orders, nodes: seq<Node>, sorted: seq<Node>) {
    && multiset(sorted) == multiset(nodes)
    && forall i, j :: 0 <= i < j < |sorted| ==> !Before(orders, nodes, sorted[j].path, sorted[i].path)
  }

  lemma ListedMembers(nodes: seq<Node>, sorted: seq<Node>, i: nat)
    requires multiset(sorted) == multiset(nodes) && i < |sorted|
    ensures sorted[i] in nodes && Listed(nodes, sorted[i].path)
  {
    assert sorted[i] in multiset(sorted);
    assert sorted[i] in multiset(nodes);
  }

  /**
   The sorted list shows the configured groups first, in ascending order, and
   then the others exactly as they stood.
   */
  lemma ConfiguredFirst(orders: Orders, nodes: seq<Node>, sorted: seq<Node>, i: nat, j: nat)
    requires Sorted(orders, nodes, sorted) && DistinctPaths(nodes) && DistinctOrders(orders, nodes)
    requires i < j < |sorted| && sorted[i].path != sorted[j].path
    ensures sorted[j].path in orders ==> sorted[i].path in orders && orders[sorted[i].path] < orders[sorted[j].path]
    ensures sorted[i].path !in orders ==> OriginalIndex(nodes, sorted[i].path) < OriginalIndex(nodes, sorted[j].path)
  {
    ListedMembers(nodes, sorted, i);
    ListedMembers(nodes, sorted, j);
  }

  lemma {:induction false} DistinctCount(nodes: seq<Node>, x: Node)
    requires DistinctPaths(nodes)
    ensures multiset(nodes)[x] <= 1
  {
    if nodes != [] {
      DistinctCount(nodes[..|nodes| - 1], x);
      assert nodes == nodes[..|nodes| - 1] + [nodes[|nodes| - 1]];
      if multiset(nodes[..|nodes| - 1])[x] > 0 {
        assert x in nodes[..|nodes| - 1];
      }
    }
  }

  lemma CountedTwice(s: seq<Node>, i: nat, j: nat)
    requires i < j < |s| && s[i] == s[j]
    ensures multiset(s)[s[i]] >= 2
  {
    assert s == s[..j] + s[j..];
    assert s[..j][i] == s[i] && s[j..][0] == s[j];
    assert s[i] in multiset(s[..j]) && s[i] in multiset(s[j..]);
  }

  lemma SortedPathsDiffer(nodes: seq<Node>, sorted: seq<Node>, i: nat, j: nat)
    requires multiset(sorted) == multiset(nodes) && DistinctPaths(nodes) && i < j < |sorted|
    ensures sorted[i].path != sorted[j].path
  {
    ListedMembers(nodes, sorted, i);
    ListedMembers(nodes, sorted, j);
    if sorted[i].path == sorted[j].path {
      assert sorted[i] == sorted[j];
      CountedTwice(sorted, i, j);
      DistinctCount(nodes, sorted[i]);
    }
  }

  /** The first of a sorted list is the one listed path that comes before all others. */
  lemma LeastIsFirst(orders: Orders, nodes: seq<Node>, a: seq<Node>, b: seq<Node>, n: nat)
    requires DistinctPaths(nodes) && DistinctOrders(orders, nodes)
    requires Sorted(orders, nodes, a) && Sorted(orders, nodes, b)
    requires n < |a| && n < |b| && a[..n] == b[..n]
    ensures a[n] == b[n]
  {
    var j := PositionOf(nodes, a, b, n);
    var i := PositionOf(nodes, b, a, n);
    ListedMembers(nodes, a, n);
    ListedMembers(nodes, b, n);
    if a[n] != b[n] {
      SortedPathsDiffer(nodes, b, n, j);
      ConsistentIffDistinct(orders, nodes);
    }
  }

  /** Where the element at `n` of `a` stands in `b`, the two agreeing before `n`. */
  lemma PositionOf(nodes: seq<Node>, a: seq<Node>, b: seq<Node>, n: nat) returns (j: nat)
    requires multiset(a) == multiset(nodes) == multiset(b) && DistinctPaths(nodes)
    requires n < |a| && n < |b| && a[..n] == b[..n]
    ensures n <= j < |b| && b[j] == a[n]
  {
    assert a[n] in multiset(b);
    j :| 0 <= j < |b| && b[j] == a[n];
    if j < n {
      assert a[..n][j] == b[..n][j];
      SortedPathsDiffer(nodes, a, j, n);
    }
  }

  /** Distinct orders leave a sort no choice: any two sorted lists are equal. */
  lemma {:induction false} SortIsDetermined(orders: Orders, nodes: seq<Node>, a: seq<Node>, b: seq<Node>, n: nat)
    requires DistinctPaths(nodes) && DistinctOrders(orders, nodes)
    requires Sorted(orders, nodes, a) && Sorted(orders, nodes, b) && n <= |nodes|
    ensures |a| == |b| == |nodes| && a[..n] == b[..n]
    ensures n == |nodes| ==> a == b
  {
    assert |multiset(a)| == |multiset(nodes)| == |multiset(b)|;
    if n > 0 {
      SortIsDetermined(orders, nodes, a, b, n - 1);
      LeastIsFirst(orders, nodes, a, b, n - 1);
      assert a[..n] == a[..n - 1] + [a[n - 1]] && b[..n] == b[..n - 1] + [b[n - 1]];
    }
    if n == |nodes| {
      assert a[..n] == a && b[..n] == b;
    }
  }

  /** Two groups configured with one order: the comparator puts each before the other, so no list is sorted. */
  lemma EqualOrdersCannotBeSorted(orders: Orders, a: Node, b: Node, sorted: seq<Node>)
    requires a.path != b.path && a.path in orders && b.path in orders && orders[a.path] == orders[b.path]
    ensures !Sorted(orders, [a, b], sorted)
  {
    if multiset(sorted) == multiset([a, b]) {
      assert |multiset(sorted)| == |multiset([a, b])|;
      ListedMembers([a, b], sorted, 0);
      ListedMembers([a, b], sorted, 1);
      assert |sorted| == 2 && sorted[0].path in orders && sorted[1].path in orders;
      assert Before(orders, [a, b], sorted[1].path, sorted[0].path);
    }
  }
}
