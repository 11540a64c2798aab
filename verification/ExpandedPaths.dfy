/**
 Which groups of the host tree are expanded while a filter comes and goes
 (useHostTreeExpandedPaths in components/HostTreeView.tsx): a temporary set
 covers the persistent one for as long as a filter is active.
 */
module ExpandedPaths {
  import opened Prelude

  datatype State = State(
    persistent: set<string>,
    temporary: Option<set<string>>,
    lastKey: Option<string>,
    lastPaths: set<string>)

  /** `Rendered` is the effect of a rendering with a filter key and the group paths then in the tree. */
  datatype Event =
    | Rendered(key: string, paths: seq<string>)
    | Toggle(path: string)
    | ExpandAll(paths: seq<string>)
    | CollapseAll

  function Members(paths: seq<string>): set<string> {
    set p | p in paths
  }

  function Flipped(s: set<string>, p: string): set<string> {
    if p in s then s - {p} else s + {p}
  }

  function AfterRender(s: State, key: string, paths: seq<string>): State {
    if key == "" then s.(temporary := None, lastKey := None, lastPaths := {})
    else if s.lastKey != Some(key) then
      s.(temporary := Some(Members(paths)), lastKey := Some(key), lastPaths := Members(paths))
    else
      var appeared := Members(paths) - s.lastPaths;
      s.(lastPaths := Members(paths),
         temporary := if appeared == {} then s.temporary
                      else Some((if s.temporary.Some? then s.temporary.value else {}) + appeared))
  }

  function Step(s: State, e: Event): State {
    match e
    case Rendered(key, paths) => AfterRender(s, key, paths)
    case Toggle(path) =>
      if s.temporary.None? then s.(persistent := Flipped(s.persistent, path))
      else s.(temporary := Some(Flipped(s.temporary.value, path)))
    case ExpandAll(paths) =>
      if s.temporary.None? then s.(persistent := Members(paths)) else s.(temporary := Some(Members(paths)))
    case CollapseAll =>
      if s.temporary.None? then s.(persistent := {}) else s.(temporary := Some({}))
  }

  /** The set the tree is drawn with. */
  function Expanded(s: State): set<string> {
    if s.temporary.Some? then s.temporary.value else s.persistent
  }

  ghost predicate Inv(s: State) {
    && (s.temporary.Some? <==> s.lastKey.Some?)
    && (s.lastKey.Some? ==> s.lastKey.value != "")
    && (s.lastKey.None? ==> s.lastPaths == {})
  }

  ghost predicate Run(ss: seq<State>, es: seq<Event>) {
    && |ss| == |es| + 1 && Inv(ss[0])
    && forall i :: 0 <= i < |es| ==> ss[i + 1] == Step(ss[i], es[i])
  }

  lemma {:induction false} RunsKeepInv(ss: seq<State>, es: seq<Event>, k: nat)
    requires Run(ss, es) && k < |ss|
    ensures Inv(ss[k])
  {
    if k > 0 {
      RunsKeepInv(ss, es, k - 1);
    }
  }

  predicate EndsFilter(e: Event) {
    e.Rendered? && e.key == ""
  }

  lemma {:induction false} FilterShields(ss: seq<State>, es: seq<Event>, start: nat, k: nat)
    requires Run(ss, es) && start < k < |ss|
    requires es[start].Rendered? && es[start].key != ""
    requires forall i :: start < i < k ==> !EndsFilter(es[i])
    ensures ss[k].persistent == ss[start].persistent && ss[k].temporary.Some?
  {
    RunsKeepInv(ss, es, k - 1);
    if k > start + 1 {
      FilterShields(ss, es, start, k - 1);
    }
  }

  /**
   Whatever is toggled, expanded or collapsed while a filter is active, and
   however often its text changes, the tree returns to the expansion it had
   when the filter began.
   */
  lemma FilterRestoresExpansion(ss: seq<State>, es: seq<Event>, start: nat, stop: nat)
    requires Run(ss, es) && start < stop < |es|
    requires ss[start].temporary.None? && es[start].Rendered? && es[start].key != ""
    requires EndsFilter(es[stop]) && forall i :: start < i < stop ==> !EndsFilter(es[i])
    ensures Expanded(ss[stop + 1]) == Expanded(ss[start])
    ensures forall k :: start <= k <= stop ==> ss[k].persistent == ss[start].persistent
  {
    forall k | start < k <= stop
      ensures ss[k].persistent == ss[start].persistent && ss[k].temporary.Some?
    {
      FilterShields(ss, es, start, k);
    }
  }

  /** The event leaves `path` to the filter: it does not toggle it, expand it or start over, and the tree keeps it. */
  predicate Leaves(s: State, e: Event, path: string) {
    match e
    case Rendered(key, paths) => s.lastKey == Some(key) && path in paths
    case Toggle(p) => p != path
    case ExpandAll(paths) => path !in paths
    case CollapseAll => true
  }

  /** A group collapsed during a filter stays collapsed for as long as it stays in the tree. */
  lemma {:induction false} CollapsedStaysCollapsed(ss: seq<State>, es: seq<Event>, path: string, i: nat, k: nat)
    requires Run(ss, es) && i <= k < |ss|
    requires ss[i].temporary.Some? && path in ss[i].lastPaths && path !in Expanded(ss[i])
    requires forall j :: i <= j < k ==> Leaves(ss[j], es[j], path)
    ensures ss[k].temporary.Some? && path in ss[k].lastPaths && path !in Expanded(ss[k])
  {
    if k > i {
      CollapsedStaysCollapsed(ss, es, path, i, k - 1);
      RunsKeepInv(ss, es, k - 1);
    }
  }

  /** The last rendering before `k` was event `r`, under a filter. */
  ghost predicate LastRendering(es: seq<Event>, r: nat, k: nat) {
    r < k <= |es| && es[r].Rendered? && es[r].key != "" && forall j :: r < j < k ==> !es[j].Rendered?
  }

  /** What a filter remembers is the tree as it was last rendered. */
  lemma {:induction false} RemembersLastRendering(ss: seq<State>, es: seq<Event>, r: nat, k: nat)
    requires Run(ss, es) && LastRendering(es, r, k)
    ensures ss[k].lastKey == Some(es[r].key) && ss[k].lastPaths == Members(es[r].paths) && ss[k].temporary.Some?
  {
    RunsKeepInv(ss, es, k - 1);
    if k > r + 1 {
      RemembersLastRendering(ss, es, r, k - 1);
    }
  }

  /**
   A group of the tree as last rendered that is toggled shut during a filter
   stays shut, however often the tree is rendered anew, as long as the filter
   and the group stay and the group is not toggled or expanded again.
   */
  lemma ClosedGroupStaysClosed(ss: seq<State>, es: seq<Event>, path: string, r: nat, i: nat, k: nat)
    requires Run(ss, es) && LastRendering(es, r, i) && i < k < |ss| && es[i] == Toggle(path)
    requires path in es[r].paths && path in Expanded(ss[i])
    requires forall j :: i < j < k ==> Leaves(ss[j], es[j], path)
    ensures path !in Expanded(ss[k])
  {
    RemembersLastRendering(ss, es, r, i);
    assert ss[i + 1] == Step(ss[i], es[i]);
    CollapsedStaysCollapsed(ss, es, path, i + 1, k);
  }

  /** A re-rendering under the same filter opens a group exactly when it was open or has just appeared. */
  lemma NewGroupsOpen(s: State, key: string, paths: seq<string>, path: string)
    requires Inv(s) && s.lastKey == Some(key)
    ensures path in Expanded(Step(s, Rendered(key, paths))) <==> path in Expanded(s) || (path in paths && path !in s.lastPaths)
  {
  }

  /** A filter that has just been entered or changed opens every group then in the tree; the others are closed. */
  lemma NewFilterOpensAll(s: State, key: string, paths: seq<string>)
    requires Inv(s) && key != "" && s.lastKey != Some(key)
    ensures forall p :: p in Expanded(Step(s, Rendered(key, paths))) <==> p in paths
  {
  }

  /** The event renders under the same filter. */
  predicate Rerenders(e: Event, key: string) {
    e.Rendered? && e.key == key
  }

  /** What a run of renderings under one filter has shown: open exactly the groups of any of them. */
  ghost predicate ShownSince(es: seq<Event>, start: nat, k: nat, p: string)
    requires k <= |es|
  {
    exists j :: start <= j < k && es[j].Rendered? && p in es[j].paths
  }

  /**
   From a new filter on, as long as nothing is clicked, a group is expanded if
   and only if one of the renderings since had it in the tree.
   */
  lemma {:induction false} UnclickedFilterOpensAll(ss: seq<State>, es: seq<Event>, start: nat, k: nat, key: string, p: string)
    requires Run(ss, es) && start < k <= |es| && key != "" && ss[start].lastKey != Some(key)
    requires forall j :: start <= j < k ==> Rerenders(es[j], key)
    ensures p in Expanded(ss[k]) <==> ShownSince(es, start, k, p)
    ensures ss[k].lastKey == Some(key) && (p in ss[k].lastPaths ==> ShownSince(es, start, k, p))
  {
    RunsKeepInv(ss, es, k - 1);
    assert Rerenders(es[k - 1], key);
    if k == start + 1 {
      NewFilterOpensAll(ss[start], key, es[start].paths);
      if p in es[start].paths {
        assert ShownSince(es, start, k, p);
      }
    } else {
      UnclickedFilterOpensAll(ss, es, start, k - 1, key, p);
      NewGroupsOpen(ss[k - 1], key, es[k - 1].paths, p);
      if ShownSince(es, start, k - 1, p) {
        assert ShownSince(es, start, k, p);
      }
    }
  }

  class HostTreeExpansion {
    var persistent: set<string>
    var temporary: Option<set<string>>
    var lastKey: Option<string>
    var lastPaths: set<string>

    ghost function View(): State
      reads this
    {
      State(persistent, temporary, lastKey, lastPaths)
    }

    constructor (persistent: set<string>)
      ensures View() == State(persistent, None, None, {}) && Inv(View())
    {
      this.persistent, temporary, lastKey, lastPaths := persistent, None, None, {};
    }

    method OnRendered(key: string, paths: seq<string>)
      requires Inv(View())
      modifies this`temporary, this`lastKey, this`lastPaths
      ensures View() == Step(old(View()), Rendered(key, paths)) && Inv(View())
    {
      if key == "" {
        lastKey, lastPaths, temporary := None, {}, None;
        return;
      }
      var next := Members(paths);
      if lastKey != Some(key) {
        lastKey, lastPaths, temporary := Some(key), next, Some(next);
        return;
      }
      var newlyVisible, i := {}, 0;
      while i < |paths|
        invariant 0 <= i <= |paths|
        invariant newlyVisible == Members(paths[..i]) - lastPaths
        invariant View() == old(View())
      {
        assert paths[..i + 1] == paths[..i] + [paths[i]];
        if paths[i] !in lastPaths {
          newlyVisible := newlyVisible + {paths[i]};
        }
        i := i + 1;
      }
      assert paths[..i] == paths;
      lastPaths := next;
      if newlyVisible == {} {
        return;
      }
      temporary := Some((if temporary.Some? then temporary.value else {}) + newlyVisible);
    }

    method TogglePath(path: string)
      requires Inv(View())
      modifies this`persistent, this`temporary
      ensures View() == Step(old(View()), Toggle(path)) && Inv(View())
      ensures path in Expanded(View()) <==> path !in Expanded(old(View()))
    {
      if temporary.None? {
        persistent := Flipped(persistent, path);
        return;
      }
      var next := temporary.value;
      if path in next {
        next := next - {path};
      } else {
        next := next + {path};
      }
      temporary := Some(next);
    }

    method ExpandAllPaths(paths: seq<string>)
      requires Inv(View())
      modifies this`persistent, this`temporary
      ensures View() == Step(old(View()), ExpandAll(paths)) && Inv(View())
      ensures Expanded(View()) == Members(paths)
    {
      if temporary.None? {
        persistent := Members(paths);
      } else {
        temporary := Some(Members(paths));
      }
    }

    method CollapseAllPaths()
      requires Inv(View())
      modifies this`persistent, this`temporary
      ensures View() == Step(old(View()), CollapseAll) && Inv(View())
      ensures Expanded(View()) == {}
    {
      if temporary.None? {
        persistent := {};
      } else {
        temporary := Some({});
      }
    }
  }
}
