/**
 Keyboard navigation over the flattened tree. The key handler knows only row
 kinds and depths; `Owners` records which row each row was emitted under, and
 the lemmas show that the depth scans find exactly that row.
 */
module HostTreeKeys {
  import opened HostTree

  /** For each row of `ChildRows`, the index of the row it hangs under. */
  ghost function ChildOwners(view: View, g: Group, base: nat, owner: int): (os: seq<int>)
    decreases g, 1, 0
  {
    ListOwners(view, g, SortedChildren(view, g), base, owner) + seq(|g.hosts|, _ => owner)
  }

  ghost function GroupOwners(view: View, g: Group, base: nat, owner: int): (os: seq<int>)
    decreases g, 2, 0
  {
    [owner] + (if g.path in view.expanded then ChildOwners(view, g, base + 1, base) else [])
  }

  ghost function ListOwners(view: View, parent: Group, gs: seq<Group>, base: nat, owner: int): (os: seq<int>)
    requires Below(gs, parent)
    decreases parent, 0, |gs|
  {
    if gs == [] then []
    else
      var head := GroupOwners(view, gs[0], base, owner);
      head + ListOwners(view, parent, gs[1..], base + |head|, owner)
  }

  /** The row each visible row hangs under; -1 at the root level. */
  ghost function Owners(view: View, forest: seq<Group>, ungrouped: seq<Host>): (os: seq<int>) {
    ChildOwners(view, Root(forest, ungrouped), 0, -1)
  }

  function CountOwner(os: seq<int>, owner: int): nat {
    if os == [] then 0 else (if os[0] == owner then 1 else 0) + CountOwner(os[1..], owner)
  }

  lemma {:induction false} CountOwnerConcat(a: seq<int>, b: seq<int>, owner: int)
    ensures CountOwner(a + b, owner) == CountOwner(a, owner) + CountOwner(b, owner)
  {
    if a == [] {
      assert a + b == b;
    } else {
      assert (a + b)[1..] == a[1..] + b;
      CountOwnerConcat(a[1..], b, owner);
    }
  }

  lemma {:induction false} CountOwnerAbsent(os: seq<int>, owner: int)
    requires forall i :: 0 <= i < |os| ==> os[i] != owner
    ensures CountOwner(os, owner) == 0
  {
    if os != [] {
      CountOwnerAbsent(os[1..], owner);
    }
  }

  ghost predicate IsExpandedNonEmpty(view: View, row: Row) {
    row.GroupRow? && row.node.path in view.expanded && SetSize(row.node) > 0
  }

  /** The row shows the child of `parent` that its sibling number says: the sorted groups first, then the sorted hosts. */
  ghost predicate ChildOf(view: View, row: Row, parent: Group) {
    match row
    case GroupRow(g, _, pos, _) =>
      var sorted := view.groupOrder(parent.children);
      0 < pos <= |sorted| && g == sorted[pos - 1]
    case HostRow(h, _, pos, _) =>
      var sorted, groups := view.hostOrder(parent.hosts), |parent.children|;
      groups < pos <= groups + |sorted| && h == sorted[pos - groups - 1]
  }

  /**
   What holds of a contiguous block of rows at `depth` that hangs under row
   `owner` and starts at index `base`. Everything the handler relies on is here.
   */
  ghost predicate RowFits(view: View, rows: seq<Row>, os: seq<int>, depth: nat, base: nat, owner: int, i: nat)
    requires |rows| == |os| && i < |rows|
  {
    && rows[i].depth >= depth
    && (os[i] == owner <==> rows[i].depth == depth)
    && (os[i] != owner ==>
          var q := os[i] - base;
          && 0 <= q < i
          && rows[q].GroupRow?
          && rows[q].depth + 1 == rows[i].depth
          && ChildOf(view, rows[i], rows[q].node)
          && rows[i].setSize == SetSize(rows[q].node)
          && (forall j :: q < j < i ==> rows[j].depth >= rows[i].depth))
    && (IsExpandedNonEmpty(view, rows[i]) ==> i + 1 < |rows| && os[i + 1] == base + i)
    && (!IsExpandedNonEmpty(view, rows[i]) && i + 1 < |rows| ==> rows[i + 1].depth <= rows[i].depth)
  }

  ghost predicate Fits(view: View, rows: seq<Row>, os: seq<int>, depth: nat, base: nat, owner: int) {
    && |rows| == |os|
    && owner < base
    && (rows != [] ==> rows[0].depth == depth)
    && (forall i :: 0 <= i < |rows| ==> RowFits(view, rows, os, depth, base, owner, i))
  }

  lemma FitsLeft(view: View, a: seq<Row>, oa: seq<int>, b: seq<Row>, ob: seq<int>, depth: nat, base: nat, owner: int, i: nat)
    requires Fits(view, a, oa, depth, base, owner) && i < |a|
    requires Fits(view, b, ob, depth, base + |a|, owner)
    ensures RowFits(view, a + b, oa + ob, depth, base, owner, i)
  {
    assert RowFits(view, a, oa, depth, base, owner, i);
    if i + 1 == |a| && b != [] {
      assert (a + b)[i + 1] == b[0];
    }
  }

  lemma FitsRight(view: View, a: seq<Row>, oa: seq<int>, b: seq<Row>, ob: seq<int>, depth: nat, base: nat, owner: int, k: nat)
    requires Fits(view, a, oa, depth, base, owner)
    requires Fits(view, b, ob, depth, base + |a|, owner) && k < |b|
    ensures RowFits(view, a + b, oa + ob, depth, base, owner, |a| + k)
  {
    var rows, os, i := a + b, oa + ob, |a| + k;
    assert RowFits(view, b, ob, depth, base + |a|, owner, k);
    assert rows[i] == b[k] && os[i] == ob[k];
    if k + 1 < |b| {
      assert rows[i + 1] == b[k + 1] && os[i + 1] == ob[k + 1];
    }
    if os[i] != owner {
      var q := os[i] - base;
      assert rows[q] == b[q - |a|];
      assert forall j :: q < j < i ==> rows[j] == b[j - |a|];
    }
  }

  lemma FitsConcat(view: View, a: seq<Row>, oa: seq<int>, b: seq<Row>, ob: seq<int>, depth: nat, base: nat, owner: int)
    requires Fits(view, a, oa, depth, base, owner)
    requires Fits(view, b, ob, depth, base + |a|, owner)
    ensures Fits(view, a + b, oa + ob, depth, base, owner)
  {
    forall i | 0 <= i < |a + b|
      ensures RowFits(view, a + b, oa + ob, depth, base, owner, i)
    {
      if i < |a| {
        FitsLeft(view, a, oa, b, ob, depth, base, owner, i);
      } else {
        FitsRight(view, a, oa, b, ob, depth, base, owner, i - |a|);
      }
    }
  }

  lemma FitsUnder(view: View, g: Group, below: seq<Row>, ob: seq<int>, depth: nat, base: nat, owner: int, pos: nat, size: nat)
    requires owner < base
    requires Fits(view, below, ob, depth + 1, base + 1, base)
    requires forall i :: 0 <= i < |below| && ob[i] == base ==> ChildOf(view, below[i], g) && below[i].setSize == SetSize(g)
    requires below != [] <==> g.path in view.expanded && SetSize(g) > 0
    ensures Fits(view, [GroupRow(g, depth, pos, size)] + below, [owner] + ob, depth, base, owner)
  {
    var rows, os := [GroupRow(g, depth, pos, size)] + below, [owner] + ob;
    forall i | 0 <= i < |rows|
      ensures RowFits(view, rows, os, depth, base, owner, i)
    {
      if i == 0 {
        if below != [] {
          assert RowFits(view, below, ob, depth + 1, base + 1, base, 0);
          assert os[1] == ob[0] && rows[1] == below[0];
        }
      } else {
        var k := i - 1;
        assert RowFits(view, below, ob, depth + 1, base + 1, base, k);
        assert rows[i] == below[k] && os[i] == ob[k];
        if k + 1 < |below| {
          assert rows[i + 1] == below[k + 1] && os[i + 1] == ob[k + 1];
        }
        forall j | 0 < j < i
          ensures rows[j].depth >= depth + 1
        {
          assert RowFits(view, below, ob, depth + 1, base + 1, base, j - 1);
        }
        if ob[k] != base {
          var q := ob[k] - (base + 1);
          assert rows[q + 1] == below[q];
          assert forall j :: q + 1 < j < i ==> rows[j] == below[j - 1];
        }
      }
    }
  }

  /** `gs` are the sorted children of `parent` from number `before` on. */
  ghost predicate GroupsFrom(view: View, parent: Group, gs: seq<Group>, before: nat) {
    before <= |parent.children| && gs == SortedChildren(view, parent)[before..]
  }

  ghost predicate HostsFrom(view: View, parent: Group, hs: seq<Host>, before: nat) {
    before <= |parent.hosts| && hs == SortedHosts(view, parent)[before..]
  }

  lemma {:induction false} HostsFit(view: View, parent: Group, hs: seq<Host>, depth: nat, before: nat, size: nat, base: nat, owner: int)
    requires owner < base
    requires before >= |parent.children| && HostsFrom(view, parent, hs, before - |parent.children|)
    ensures var rows := HostRows(hs, depth, before, size);
      var os := seq(|hs|, _ => owner);
      && Fits(view, rows, os, depth, base, owner)
      && |rows| == |hs|
      && forall i :: 0 <= i < |rows| ==> ChildOf(view, rows[i], parent) && rows[i].setSize == size
  {
    if hs != [] {
      HostsFit(view, parent, hs[1..], depth, before + 1, size, base + 1, owner);
      var row := HostRow(hs[0], depth, before + 1, size);
      var rest := HostRows(hs[1..], depth, before + 1, size);
      var ro := seq(|hs| - 1, _ => owner);
      assert RowFits(view, [row], [owner], depth, base, owner, 0);
      FitsConcat(view, [row], [owner], rest, ro, depth, base, owner);
      assert [owner] + ro == seq(|hs|, _ => owner);
    }
  }

  lemma {:induction false} GroupFits(view: View, g: Group, depth: nat, pos: nat, size: nat, base: nat, owner: int)
    requires owner < base
    ensures Fits(view, GroupRows(view, g, depth, pos, size), GroupOwners(view, g, base, owner), depth, base, owner)
    decreases g, 2, 0
  {
    if g.path in view.expanded {
      ChildrenFit(view, g, depth + 1, base + 1, base);
      FitsUnder(view, g, ChildRows(view, g, depth + 1), ChildOwners(view, g, base + 1, base), depth, base, owner, pos, size);
    } else {
      FitsUnder(view, g, [], [], depth, base, owner, pos, size);
      assert [GroupRow(g, depth, pos, size)] + [] == GroupRows(view, g, depth, pos, size);
      assert [owner] + [] == GroupOwners(view, g, base, owner);
    }
  }

  lemma {:induction false} ChildrenFit(view: View, g: Group, depth: nat, base: nat, owner: int)
    requires owner < base
    ensures var rows, os := ChildRows(view, g, depth), ChildOwners(view, g, base, owner);
      && Fits(view, rows, os, depth, base, owner)
      && (rows != [] <==> SetSize(g) > 0)
      && forall i :: 0 <= i < |rows| && os[i] == owner ==> ChildOf(view, rows[i], g) && rows[i].setSize == SetSize(g)
    decreases g, 1, 0
  {
    var gs, hs := SortedChildren(view, g), SortedHosts(view, g);
    var n := SetSize(g);
    ListFits(view, g, gs, depth, 0, n, base, owner);
    var a, oa := ListRows(view, g, gs, depth, 0, n), ListOwners(view, g, gs, base, owner);
    HostsFit(view, g, hs, depth, |g.children|, n, base + |a|, owner);
    FitsConcat(view, a, oa, HostRows(hs, depth, |g.children|, n), seq(|g.hosts|, _ => owner), depth, base, owner);
  }

  lemma {:induction false} ListFits(view: View, parent: Group, gs: seq<Group>, depth: nat, before: nat, size: nat, base: nat, owner: int)
    requires Below(gs, parent) && owner < base
    requires GroupsFrom(view, parent, gs, before)
    ensures var rows, os := ListRows(view, parent, gs, depth, before, size), ListOwners(view, parent, gs, base, owner);
      && Fits(view, rows, os, depth, base, owner)
      && (rows != [] <==> gs != [])
      && forall i :: 0 <= i < |rows| && os[i] == owner ==> ChildOf(view, rows[i], parent) && rows[i].setSize == size
    decreases parent, 0, |gs|
  {
    if gs != [] {
      var head, oh := GroupRows(view, gs[0], depth, before + 1, size), GroupOwners(view, gs[0], base, owner);
      GroupFits(view, gs[0], depth, before + 1, size, base, owner);
      ListFits(view, parent, gs[1..], depth, before + 1, size, base + |oh|, owner);
      FitsConcat(view, head, oh,
                 ListRows(view, parent, gs[1..], depth, before + 1, size),
                 ListOwners(view, parent, gs[1..], base + |oh|, owner), depth, base, owner);
      HeadOwned(view, gs[0], base, owner, oh);
      var rows, os := ListRows(view, parent, gs, depth, before, size), ListOwners(view, parent, gs, base, owner);
      forall i | 0 <= i < |rows| && os[i] == owner
        ensures ChildOf(view, rows[i], parent) && rows[i].setSize == size
      {
        if i >= |head| {
          var k := i - |head|;
          assert rows[i] == ListRows(view, parent, gs[1..], depth, before + 1, size)[k];
          assert os[i] == ListOwners(view, parent, gs[1..], base + |oh|, owner)[k];
        } else {
          assert os[i] == oh[i] && rows[i] == head[i];
        }
      }
    }
  }

  /** In a group's block only the group's own row hangs under the block's owner. */
  lemma HeadOwned(view: View, g: Group, base: nat, owner: int, os: seq<int>)
    requires owner < base && os == GroupOwners(view, g, base, owner)
    ensures forall i :: 0 < i < |os| ==> os[i] != owner
    decreases g, 3, 0
  {
    if g.path in view.expanded {
      ChildrenFit(view, g, 0, base + 1, base);
      var ob, below := ChildOwners(view, g, base + 1, base), ChildRows(view, g, 0);
      forall i | 0 < i < |os|
        ensures os[i] != owner
      {
        assert RowFits(view, below, ob, 0, base + 1, base, i - 1);
      }
    }
  }

  /**
   Sibling numbers of a block: the rows hanging under `owner` continue after
   `before`, every other family is numbered from 1 to its full size.
   */
  ghost predicate Numbered(rows: seq<Row>, os: seq<int>, owner: int, before: nat) {
    |rows| == |os| && forall i :: 0 <= i < |rows| ==> RowNumbered(rows, os, owner, before, i)
  }

  /** What `Numbered` asks of one row. */
  ghost predicate RowNumbered(rows: seq<Row>, os: seq<int>, owner: int, before: nat, i: nat)
    requires |rows| == |os| && i < |rows|
  {
    && rows[i].posInSet == (if os[i] == owner then before else 0) + CountOwner(os[..i], os[i]) + 1
    && (os[i] != owner ==> rows[i].setSize == CountOwner(os, os[i]))
  }

  lemma NumberedLeft(view: View, a: seq<Row>, oa: seq<int>, b: seq<Row>, ob: seq<int>, depth: nat, base: nat, owner: int, before: nat, i: nat)
    requires Fits(view, a, oa, depth, base, owner) && Numbered(a, oa, owner, before) && i < |a|
    requires Fits(view, b, ob, depth, base + |a|, owner)
    ensures RowNumbered(a + b, oa + ob, owner, before, i)
  {
    var os := oa + ob;
    CountOwnerConcat(oa, ob, os[i]);
    assert os[..i] == oa[..i];
    assert RowFits(view, a, oa, depth, base, owner, i) && RowNumbered(a, oa, owner, before, i);
    if os[i] != owner {
      forall k | 0 <= k < |ob|
        ensures ob[k] != os[i]
      {
        assert RowFits(view, b, ob, depth, base + |a|, owner, k);
      }
      CountOwnerAbsent(ob, os[i]);
    }
  }

  lemma NumberedRight(view: View, a: seq<Row>, oa: seq<int>, b: seq<Row>, ob: seq<int>, depth: nat, base: nat, owner: int, before: nat, k: nat)
    requires Fits(view, a, oa, depth, base, owner) && k < |b|
    requires Fits(view, b, ob, depth, base + |a|, owner) && Numbered(b, ob, owner, before + CountOwner(oa, owner))
    ensures RowNumbered(a + b, oa + ob, owner, before, |a| + k)
  {
    var os, i := oa + ob, |a| + k;
    CountOwnerConcat(oa, ob, os[i]);
    assert os[..i] == oa + ob[..k];
    CountOwnerConcat(oa, ob[..k], os[i]);
    assert RowFits(view, b, ob, depth, base + |a|, owner, k) && RowNumbered(b, ob, owner, before + CountOwner(oa, owner), k);
    if os[i] != owner {
      forall j | 0 <= j < |oa|
        ensures oa[j] != os[i]
      {
        assert RowFits(view, a, oa, depth, base, owner, j);
      }
      CountOwnerAbsent(oa, os[i]);
    }
  }

  lemma NumberedConcat(view: View, a: seq<Row>, oa: seq<int>, b: seq<Row>, ob: seq<int>, depth: nat, base: nat, owner: int, before: nat)
    requires Fits(view, a, oa, depth, base, owner) && Numbered(a, oa, owner, before)
    requires Fits(view, b, ob, depth, base + |a|, owner) && Numbered(b, ob, owner, before + CountOwner(oa, owner))
    ensures Numbered(a + b, oa + ob, owner, before)
  {
    forall i | 0 <= i < |a + b|
      ensures RowNumbered(a + b, oa + ob, owner, before, i)
    {
      if i < |a| {
        NumberedLeft(view, a, oa, b, ob, depth, base, owner, before, i);
      } else {
        NumberedRight(view, a, oa, b, ob, depth, base, owner, before, i - |a|);
      }
    }
  }

  lemma {:induction false} HostsNumbered(hs: seq<Host>, depth: nat, before: nat, size: nat, owner: int)
    ensures Numbered(HostRows(hs, depth, before, size), seq(|hs|, _ => owner), owner, before)
    ensures CountOwner(seq(|hs|, _ => owner), owner) == |hs|
  {
    var os := seq(|hs|, _ => owner);
    if hs != [] {
      HostsNumbered(hs[1..], depth, before + 1, size, owner);
      var rest := seq(|hs| - 1, _ => owner);
      assert os[1..] == rest;
      var rows := HostRows(hs, depth, before, size);
      forall i | 0 <= i < |rows|
        ensures RowNumbered(rows, os, owner, before, i)
      {
        if i > 0 {
          assert os[..i][1..] == rest[..i - 1];
          assert rows[i] == HostRows(hs[1..], depth, before + 1, size)[i - 1];
          assert RowNumbered(HostRows(hs[1..], depth, before + 1, size), rest, owner, before + 1, i - 1);
        }
      }
    }
  }

  /** The rows below a group row are numbered as they were on their own. */
  lemma NumberedUnder(head: Row, below: seq<Row>, ob: seq<int>, base: nat, owner: int, before: nat, i: nat)
    requires Numbered(below, ob, base, 0) && 0 < i <= |below|
    requires forall k :: 0 <= k < |ob| ==> ob[k] != owner
    requires ob[i - 1] == base ==> below[i - 1].setSize == CountOwner(ob, base)
    ensures RowNumbered([head] + below, [owner] + ob, owner, before, i)
  {
    var rows, os, k := [head] + below, [owner] + ob, i - 1;
    assert RowNumbered(below, ob, base, 0, k);
    assert rows[i] == below[k] && os[i] == ob[k];
    assert os[..i] == [owner] + ob[..k];
    CountOwnerConcat([owner], ob[..k], os[i]);
    CountOwnerConcat([owner], ob, os[i]);
  }

  lemma HeadNumbered(head: Row, below: seq<Row>, ob: seq<int>, base: nat, owner: int, before: nat)
    requires Numbered(below, ob, base, 0) && head.posInSet == before + 1
    requires forall k :: 0 <= k < |ob| ==> ob[k] != owner
    requires forall k :: 0 <= k < |ob| && ob[k] == base ==> below[k].setSize == CountOwner(ob, base)
    ensures Numbered([head] + below, [owner] + ob, owner, before)
    ensures CountOwner([owner] + ob, owner) == 1
  {
    var rows, os := [head] + below, [owner] + ob;
    CountOwnerAbsent(ob, owner);
    assert os[1..] == ob;
    forall i | 0 <= i < |rows|
      ensures RowNumbered(rows, os, owner, before, i)
    {
      if i > 0 {
        NumberedUnder(head, below, ob, base, owner, before, i);
      }
    }
  }

  lemma {:induction false} GroupNumbered(view: View, g: Group, depth: nat, pos: nat, size: nat, base: nat, owner: int)
    requires owner < base && pos > 0
    ensures Numbered(GroupRows(view, g, depth, pos, size), GroupOwners(view, g, base, owner), owner, pos - 1)
    ensures CountOwner(GroupOwners(view, g, base, owner), owner) == 1
    decreases g, 2, 0
  {
    var head, before := GroupRow(g, depth, pos, size), pos - 1;
    if g.path in view.expanded {
      var below, ob := ChildRows(view, g, depth + 1), ChildOwners(view, g, base + 1, base);
      HeadOwned(view, g, base, owner, [owner] + ob);
      assert forall k :: 0 <= k < |ob| ==> ob[k] == ([owner] + ob)[k + 1];
      ChildrenNumbered(view, g, depth + 1, base + 1, base);
      ChildrenFit(view, g, depth + 1, base + 1, base);
      HeadNumbered(head, below, ob, base, owner, before);
    } else {
      HeadNumbered(head, [], [], base, owner, before);
      assert [head] + [] == GroupRows(view, g, depth, pos, size) && [owner] + [] == GroupOwners(view, g, base, owner);
    }
  }

  lemma {:induction false} ChildrenNumbered(view: View, g: Group, depth: nat, base: nat, owner: int)
    requires owner < base
    ensures var os := ChildOwners(view, g, base, owner);
      Numbered(ChildRows(view, g, depth), os, owner, 0) && CountOwner(os, owner) == SetSize(g)
    decreases g, 1, 0
  {
    var gs, hs := SortedChildren(view, g), SortedHosts(view, g);
    var n := SetSize(g);
    ListNumbered(view, g, gs, depth, 0, n, base, owner);
    ListFits(view, g, gs, depth, 0, n, base, owner);
    var a, oa := ListRows(view, g, gs, depth, 0, n), ListOwners(view, g, gs, base, owner);
    var b, ob := HostRows(hs, depth, |g.children|, n), seq(|hs|, _ => owner);
    HostsNumbered(hs, depth, |g.children|, n, owner);
    HostsFit(view, g, hs, depth, |g.children|, n, base + |a|, owner);
    NumberedConcat(view, a, oa, b, ob, depth, base, owner, 0);
    CountOwnerConcat(oa, ob, owner);
  }

  lemma {:induction false} ListNumbered(view: View, parent: Group, gs: seq<Group>, depth: nat, before: nat, size: nat, base: nat, owner: int)
    requires Below(gs, parent) && owner < base
    requires GroupsFrom(view, parent, gs, before)
    ensures var os := ListOwners(view, parent, gs, base, owner);
      Numbered(ListRows(view, parent, gs, depth, before, size), os, owner, before) && CountOwner(os, owner) == |gs|
    decreases parent, 0, |gs|
  {
    if gs != [] {
      var a, oa := GroupRows(view, gs[0], depth, before + 1, size), GroupOwners(view, gs[0], base, owner);
      var b := ListRows(view, parent, gs[1..], depth, before + 1, size);
      var ob := ListOwners(view, parent, gs[1..], base + |oa|, owner);
      GroupNumbered(view, gs[0], depth, before + 1, size, base, owner);
      GroupFits(view, gs[0], depth, before + 1, size, base, owner);
      ListNumbered(view, parent, gs[1..], depth, before + 1, size, base + |oa|, owner);
      ListFits(view, parent, gs[1..], depth, before + 1, size, base + |oa|, owner);
      NumberedConcat(view, a, oa, b, ob, depth, base, owner, before);
      CountOwnerConcat(oa, ob, owner);
    }
  }

  /** The handler's backward scan: the nearest earlier group row of smaller depth. */
  method ScanForParent(rows: seq<Row>, index: nat) returns (found: int)
    requires index < |rows|
    ensures -1 <= found < index
    ensures found >= 0 ==> rows[found].GroupRow? && rows[found].depth < rows[index].depth
    ensures forall j :: found < j < index ==> !(rows[j].GroupRow? && rows[j].depth < rows[index].depth)
  {
    found := index - 1;
    while found >= 0
      invariant -1 <= found < index
      invariant forall j :: found < j < index ==> !(rows[j].GroupRow? && rows[j].depth < rows[index].depth)
    {
      if rows[found].GroupRow? && rows[found].depth < rows[index].depth {
        return;
      }
      found := found - 1;
    }
  }

  /** The facts about a whole rendering that the handler is proved against. */
  lemma RenderingFits(view: View, forest: seq<Group>, ungrouped: seq<Host>)
    ensures var rows, os := VisibleRows(view, forest, ungrouped), Owners(view, forest, ungrouped);
      Fits(view, rows, os, 0, 0, -1) && Numbered(rows, os, -1, 0)
  {
    ChildrenFit(view, Root(forest, ungrouped), 0, 0, -1);
    ChildrenNumbered(view, Root(forest, ungrouped), 0, 0, -1);
  }

  /** Every row's owner sits one level up, really contains it, and is where the scan stops. */
  lemma OwnerIsParent(view: View, forest: seq<Group>, ungrouped: seq<Host>, i: nat)
    requires i < |VisibleRows(view, forest, ungrouped)|
    ensures var rows, os := VisibleRows(view, forest, ungrouped), Owners(view, forest, ungrouped);
      && |os| == |rows|
      && (os[i] == -1 <==> rows[i].depth == 0)
      && (os[i] != -1 ==>
            && 0 <= os[i] < i
            && rows[os[i]].GroupRow?
            && rows[os[i]].depth + 1 == rows[i].depth
            && ChildOf(view, rows[i], rows[os[i]].node))
      && (forall j :: os[i] < j < i ==> rows[j].depth >= rows[i].depth)
  {
    RenderingFits(view, forest, ungrouped);
    var rows, os := VisibleRows(view, forest, ungrouped), Owners(view, forest, ungrouped);
    assert RowFits(view, rows, os, 0, 0, -1, i);
  }

  /** The group a row belongs to; the unshown root for the rows of depth 0. */
  ghost function ParentOf(rows: seq<Row>, os: seq<int>, root: Group, i: nat): Group
    requires i < |os| && -1 <= os[i] < |rows| && (os[i] >= 0 ==> rows[os[i]].GroupRow?)
  {
    if os[i] == -1 then root else rows[os[i]].node
  }

  /**
   Every row, top-level ones included, shows just the child that its sibling
   number names in the sorted order of its parent, groups before hosts, and its
   set size is the number of the parent's groups and hosts.
   */
  lemma RowsFollowTheSort(view: View, forest: seq<Group>, ungrouped: seq<Host>, i: nat)
    requires i < |VisibleRows(view, forest, ungrouped)|
    ensures var rows, os := VisibleRows(view, forest, ungrouped), Owners(view, forest, ungrouped);
      && |os| == |rows| && -1 <= os[i] < i && (os[i] >= 0 ==> rows[os[i]].GroupRow?)
      && var parent := ParentOf(rows, os, Root(forest, ungrouped), i);
         ChildOf(view, rows[i], parent) && rows[i].setSize == |parent.children| + |parent.hosts|
  {
    RenderingFits(view, forest, ungrouped);
    var rows, os := VisibleRows(view, forest, ungrouped), Owners(view, forest, ungrouped);
    assert RowFits(view, rows, os, 0, 0, -1, i);
    if os[i] == -1 {
      ChildrenFit(view, Root(forest, ungrouped), 0, 0, -1);
    }
  }

  /** Siblings are numbered in row order, 1 to the family's size, with no gap or repeat. */
  lemma SiblingsNumbered(view: View, forest: seq<Group>, ungrouped: seq<Host>, i: nat)
    requires i < |VisibleRows(view, forest, ungrouped)|
    ensures var rows, os := VisibleRows(view, forest, ungrouped), Owners(view, forest, ungrouped);
      && |os| == |rows|
      && rows[i].posInSet == CountOwner(os[..i], os[i]) + 1
      && rows[i].setSize == CountOwner(os, os[i])
  {
    var root := Root(forest, ungrouped);
    ChildrenFit(view, root, 0, 0, -1);
    ChildrenNumbered(view, root, 0, 0, -1);
    assert RowNumbered(VisibleRows(view, forest, ungrouped), Owners(view, forest, ungrouped), -1, 0, i);
  }

  datatype Action = FocusRow(index: int) | TogglePath(path: string) | Ignore

  predicate IsExpandable(row: Row) {
    row.GroupRow? && SetSize(row.node) > 0
  }

  /** ArrowLeft: collapse an open group, otherwise go to the parent the scan finds. */
  method ArrowLeft(view: View, forest: seq<Group>, ungrouped: seq<Host>, rows: seq<Row>, index: nat) returns (action: Action)
    requires rows == VisibleRows(view, forest, ungrouped) && index < |rows|
    ensures |Owners(view, forest, ungrouped)| == |rows|
    ensures action ==
      if IsExpandedNonEmpty(view, rows[index]) && rows[index].node.path != "" then TogglePath(rows[index].node.path)
      else if rows[index].depth == 0 then Ignore
      else FocusRow(Owners(view, forest, ungrouped)[index])
  {
    OwnerIsParent(view, forest, ungrouped, index);
    if IsExpandable(rows[index]) && rows[index].node.path in view.expanded && rows[index].node.path != "" {
      return TogglePath(rows[index].node.path);
    }
    var found := ScanForParent(rows, index);
    action := if found >= 0 then FocusRow(found) else Ignore;
  }

  /** ArrowRight: open a closed group, otherwise step to the first child. */
  method ArrowRight(view: View, forest: seq<Group>, ungrouped: seq<Host>, rows: seq<Row>, index: nat) returns (action: Action)
    requires rows == VisibleRows(view, forest, ungrouped) && index < |rows|
    ensures IsExpandedNonEmpty(view, rows[index]) ==>
      && action == FocusRow(index + 1)
      && index + 1 < |rows| == |Owners(view, forest, ungrouped)|
      && Owners(view, forest, ungrouped)[index + 1] == index
      && rows[index + 1].posInSet == 1
    ensures !IsExpandedNonEmpty(view, rows[index]) ==>
      action == if IsExpandable(rows[index]) && rows[index].node.path != "" then TogglePath(rows[index].node.path) else Ignore
  {
    RenderingFits(view, forest, ungrouped);
    ghost var os := Owners(view, forest, ungrouped);
    assert RowFits(view, rows, os, 0, 0, -1, index);
    if IsExpandedNonEmpty(view, rows[index]) {
      OwnerIsParent(view, forest, ungrouped, index + 1);
    }
    if !IsExpandable(rows[index]) {
      return Ignore;
    }
    if rows[index].node.path !in view.expanded && rows[index].node.path != "" {
      return TogglePath(rows[index].node.path);
    }
    if index + 1 < |rows| && rows[index + 1].depth > rows[index].depth {
      SiblingsNumbered(view, forest, ungrouped, index + 1);
      NoneOwnedBefore(view, rows, os, index);
      return FocusRow(index + 1);
    }
    return Ignore;
  }

  lemma NoneOwnedBefore(view: View, rows: seq<Row>, os: seq<int>, index: nat)
    requires Fits(view, rows, os, 0, 0, -1) && index < |rows|
    ensures CountOwner(os[..index + 1], index) == 0
  {
    forall j | 0 <= j <= index
      ensures os[j] != index
    {
      assert RowFits(view, rows, os, 0, 0, -1, j);
    }
    CountOwnerAbsent(os[..index + 1], index);
  }
}
