/**
 The global transfer centre (components/GlobalSftpTransferCenter.tsx): the
 one-pass children index against the per-parent list it replaces, the buckets
 and the badge over the top-level tasks, and the background split.
 */
module TransferIndex {
  import opened Prelude

  datatype Status =
    | Pending | Queued | Transferring | Pausing | Paused
    | Attention | Interrupted | Completed | Failed | Cancelled

  datatype Task = Task(
    id: string,
    parent: Option<string>,
    status: Status,
    reconnectRequired: bool,
    background: bool,
    startTime: int)

  function Filter(tasks: seq<Task>, keep: Task -> bool): seq<Task> {
    if tasks == [] then []
    else Filter(tasks[..|tasks| - 1], keep) + (if keep(tasks[|tasks| - 1]) then [tasks[|tasks| - 1]] else [])
  }

  // Sorting by start time, equal times in their given order.

  function At(tasks: seq<Task>, t: int): seq<Task> {
    if tasks == [] then [] else (if tasks[0].startTime == t then [tasks[0]] else []) + At(tasks[1..], t)
  }

  ghost predicate SortedByStart(tasks: seq<Task>) {
    forall i, j :: 0 <= i < j < |tasks| ==> tasks[i].startTime <= tasks[j].startTime
  }

  /** `sorted` is what a stable sort of `tasks` may return. */
  ghost predicate StableSorted(sorted: seq<Task>, tasks: seq<Task>) {
    SortedByStart(sorted) && SameAtEveryTime(sorted, tasks)
  }

  lemma {:induction false} AtMember(tasks: seq<Task>, t: int)
    ensures At(tasks, t) == [] <==> forall i :: 0 <= i < |tasks| ==> tasks[i].startTime != t
  {
    if tasks != [] {
      AtMember(tasks[1..], t);
      assert forall i :: 1 <= i < |tasks| ==> tasks[i] == tasks[1..][i - 1];
    }
  }

  /** The first start time of a sorted list is the least time that occurs in it. */
  lemma SortedHead(tasks: seq<Task>, t: int)
    requires SortedByStart(tasks) && At(tasks, t) != []
    ensures tasks != [] && tasks[0].startTime <= t
  {
    AtMember(tasks, t);
  }

  lemma HeadIsAtItsTime(tasks: seq<Task>)
    ensures tasks != [] ==> At(tasks, tasks[0].startTime) != [] && At(tasks, tasks[0].startTime)[0] == tasks[0]
  {
  }

  ghost predicate SameAtEveryTime(a: seq<Task>, b: seq<Task>) {
    forall t :: At(a, t) == At(b, t)
  }

  lemma EmptyAlike(a: seq<Task>, b: seq<Task>)
    requires SameAtEveryTime(a, b)
    ensures a == [] <==> b == []
  {
    HeadIsAtItsTime(a);
    HeadIsAtItsTime(b);
  }

  /** Sorted lists that agree at every time have the same head, and their tails agree. */
  lemma SameHead(a: seq<Task>, b: seq<Task>)
    requires SortedByStart(a) && SortedByStart(b) && SameAtEveryTime(a, b) && a != [] && b != []
    ensures a[0] == b[0] && SameAtEveryTime(a[1..], b[1..])
  {
    HeadIsAtItsTime(a);
    HeadIsAtItsTime(b);
    SortedHead(b, a[0].startTime);
    SortedHead(a, b[0].startTime);
    forall t
      ensures At(a[1..], t) == At(b[1..], t)
    {
      assert At(a, t) == At(b, t);
      if t == a[0].startTime {
        assert At(a[1..], t) == At(a, t)[1..] && At(b[1..], t) == At(b, t)[1..];
      } else {
        assert At(a[1..], t) == At(a, t) && At(b[1..], t) == At(b, t);
      }
    }
  }

  /** There is only one stable sort of a list. */
  lemma {:induction false} StableSortIsUnique(a: seq<Task>, b: seq<Task>)
    requires SortedByStart(a) && SortedByStart(b) && SameAtEveryTime(a, b)
    ensures a == b
  {
    EmptyAlike(a, b);
    if a != [] {
      SameHead(a, b);
      StableSortIsUnique(a[1..], b[1..]);
      assert a == [a[0]] + a[1..] && b == [b[0]] + b[1..];
    }
  }

  function Insert(task: Task, sorted: seq<Task>): seq<Task> {
    if sorted == [] || task.startTime <= sorted[0].startTime then [task] + sorted
    else [sorted[0]] + Insert(task, sorted[1..])
  }

  /** Array.prototype.sort by start time, which is stable. */
  function StableSort(tasks: seq<Task>): seq<Task> {
    if tasks == [] then [] else Insert(tasks[0], StableSort(tasks[1..]))
  }

  lemma AtCons(head: Task, tail: seq<Task>, t: int)
    ensures At([head] + tail, t) == (if head.startTime == t then [head] else []) + At(tail, t)
  {
    assert ([head] + tail)[1..] == tail;
  }

  lemma {:induction false} InsertKeepsTimes(task: Task, sorted: seq<Task>, t: int)
    requires SortedByStart(sorted)
    ensures At(Insert(task, sorted), t) == (if task.startTime == t then [task] else []) + At(sorted, t)
  {
    if sorted == [] || task.startTime <= sorted[0].startTime {
      AtCons(task, sorted, t);
    } else {
      InsertKeepsTimes(task, sorted[1..], t);
      AtCons(sorted[0], Insert(task, sorted[1..]), t);
      assert Insert(task, sorted) == [sorted[0]] + Insert(task, sorted[1..]);
      assert At(sorted, t) == (if sorted[0].startTime == t then [sorted[0]] else []) + At(sorted[1..], t);
    }
  }

  predicate AllFrom(tasks: seq<Task>, t: int) {
    forall i :: 0 <= i < |tasks| ==> t <= tasks[i].startTime
  }

  lemma ConsSorted(head: Task, tail: seq<Task>)
    requires SortedByStart(tail) && AllFrom(tail, head.startTime)
    ensures SortedByStart([head] + tail)
  {
  }

  lemma {:induction false} InsertSorts(task: Task, sorted: seq<Task>, t: int)
    requires SortedByStart(sorted)
    ensures SortedByStart(Insert(task, sorted))
    ensures AllFrom(sorted, t) && t <= task.startTime ==> AllFrom(Insert(task, sorted), t)
  {
    if sorted == [] || task.startTime <= sorted[0].startTime {
      ConsSorted(task, sorted);
    } else {
      InsertSorts(task, sorted[1..], t);
      InsertSorts(task, sorted[1..], sorted[0].startTime);
      ConsSorted(sorted[0], Insert(task, sorted[1..]));
    }
  }

  lemma {:induction false} StableSortSorts(tasks: seq<Task>, t: int)
    ensures SortedByStart(StableSort(tasks)) && At(StableSort(tasks), t) == At(tasks, t)
  {
    if tasks != [] {
      StableSortSorts(tasks[1..], t);
      InsertSorts(tasks[0], StableSort(tasks[1..]), t);
      InsertKeepsTimes(tasks[0], StableSort(tasks[1..]), t);
    }
  }

  /** Whatever stable sort the runtime uses, it returns this list. */
  lemma AnyStableSortAgrees(sorted: seq<Task>, tasks: seq<Task>)
    ensures StableSorted(sorted, tasks) <==> sorted == StableSort(tasks)
  {
    forall t
      ensures SortedByStart(StableSort(tasks)) && At(StableSort(tasks), t) == At(tasks, t)
    {
      StableSortSorts(tasks, t);
    }
    StableSortSorts(tasks, 0);
    if StableSorted(sorted, tasks) {
      StableSortIsUnique(sorted, StableSort(tasks));
    }
  }

  // The children index.

  predicate IsChild(task: Task, parentId: string) {
    task.parent == Some(parentId) && task.status != Cancelled
  }

  function ListChildTasksForParent(tasks: seq<Task>, parentId: string): seq<Task> {
    StableSort(Filter(tasks, (task: Task) => IsChild(task, parentId)))
  }

  function Children(index: map<string, seq<Task>>, parentId: string): seq<Task> {
    if parentId in index then index[parentId] else []
  }

  /** Only a non-empty parent id makes a task a child. */
  predicate HasParent(task: Task) {
    task.parent.Some? && task.parent.value != ""
  }

  /** The index after some tasks, before its lists are sorted. */
  ghost predicate Indexes(index: map<string, seq<Task>>, tasks: seq<Task>) {
    && (forall p :: p in index ==> p != "" && index[p] != [])
    && (forall p :: p != "" ==> Children(index, p) == Filter(tasks, (task: Task) => IsChild(task, p)))
  }

  function Pushed(index: map<string, seq<Task>>, task: Task): map<string, seq<Task>> {
    if !HasParent(task) || task.status == Cancelled then index
    else index[task.parent.value := Children(index, task.parent.value) + [task]]
  }

  lemma PushedIndexes(index: map<string, seq<Task>>, tasks: seq<Task>, task: Task)
    requires Indexes(index, tasks)
    ensures Indexes(Pushed(index, task), tasks + [task])
  {
    assert (tasks + [task])[..|tasks|] == tasks;
    forall p | p != ""
      ensures Children(Pushed(index, task), p) == Filter(tasks + [task], (x: Task) => IsChild(x, p))
    {
      assert Children(index, p) == Filter(tasks, (x: Task) => IsChild(x, p));
    }
  }

  lemma SortedIsEmpty(tasks: seq<Task>)
    ensures StableSort(tasks) == [] <==> tasks == []
  {
  }

  /**
   The index built in one pass holds, under every non-empty parent id, exactly
   the list that filtering and sorting for that parent gives, and it has no
   entry for a parent without children.
   */
  method BuildChildrenIndex(tasks: seq<Task>) returns (index: map<string, seq<Task>>)
    ensures forall p :: p != "" ==> Children(index, p) == ListChildTasksForParent(tasks, p)
    ensures forall p :: p in index <==> p != "" && ListChildTasksForParent(tasks, p) != []
  {
    index := map[];
    var i := 0;
    while i < |tasks|
      invariant 0 <= i <= |tasks|
      invariant Indexes(index, tasks[..i])
    {
      var task := tasks[i];
      PushedIndexes(index, tasks[..i], task);
      assert tasks[..i + 1] == tasks[..i] + [task];
      if HasParent(task) && task.status != Cancelled {
        index := index[task.parent.value := Children(index, task.parent.value) + [task]];
      }
      i := i + 1;
    }
    assert tasks[..i] == tasks;
    ghost var unsorted := index;
    var rest := index.Keys;
    while rest != {}
      invariant index.Keys == unsorted.Keys && rest <= index.Keys
      invariant forall p :: p in index ==> index[p] == if p in rest then unsorted[p] else StableSort(unsorted[p])
    {
      var p :| p in rest;
      rest := rest - {p};
      index := index[p := StableSort(index[p])];
    }
    forall p
      ensures p != "" ==> Children(index, p) == ListChildTasksForParent(tasks, p)
      ensures p in index <==> p != "" && ListChildTasksForParent(tasks, p) != []
    {
      SortedIsEmpty(Children(unsorted, p));
      if p != "" {
        assert Children(unsorted, p) == Filter(tasks, (task: Task) => IsChild(task, p));
      }
    }
  }

  // Buckets.

  datatype Bucket = All | Active | Waiting | OnHold | NeedsAttention | Done

  function BucketOf(task: Task): Bucket {
    if task.status == Pending && task.reconnectRequired then NeedsAttention
    else if task.status == Transferring || task.status == Pausing then Active
    else if task.status == Pending || task.status == Queued then Waiting
    else if task.status == Paused then OnHold
    else if task.status == Interrupted || task.status == Attention || task.status == Failed then NeedsAttention
    else Done
  }

  predicate ShownIn(task: Task, bucket: Bucket) {
    !HasParent(task) && (bucket == All || BucketOf(task) == bucket)
  }

  function TasksInBucket(tasks: seq<Task>, bucket: Bucket): seq<Task> {
    Filter(tasks, (task: Task) => ShownIn(task, bucket))
  }

  lemma {:induction false} FilterMembers(tasks: seq<Task>, keep: Task -> bool)
    ensures forall x :: multiset(Filter(tasks, keep))[x] == if keep(x) then multiset(tasks)[x] else 0
  {
    if tasks != [] {
      FilterMembers(tasks[..|tasks| - 1], keep);
      assert tasks == tasks[..|tasks| - 1] + [tasks[|tasks| - 1]];
    }
  }

  /** How often a bucket shows a task. */
  function Shows(tasks: seq<Task>, bucket: Bucket, x: Task): nat {
    multiset(TasksInBucket(tasks, bucket))[x]
  }

  lemma BucketMembers(tasks: seq<Task>, bucket: Bucket, x: Task)
    ensures Shows(tasks, bucket, x) == if ShownIn(x, bucket) then multiset(tasks)[x] else 0
  {
    FilterMembers(tasks, (task: Task) => ShownIn(task, bucket));
  }

  lemma BucketSize(tasks: seq<Task>, bucket: Bucket)
    requires tasks != []
    ensures |TasksInBucket(tasks, bucket)|
         == |TasksInBucket(tasks[..|tasks| - 1], bucket)| + if ShownIn(tasks[|tasks| - 1], bucket) then 1 else 0
  {
  }

  /** A specific bucket shows what "all" shows of its own tasks and nothing else; "all" shows every top-level task. */
  lemma BucketsPartition(tasks: seq<Task>, bucket: Bucket, x: Task)
    requires bucket != All
    ensures Shows(tasks, bucket, x) == if BucketOf(x) == bucket then Shows(tasks, All, x) else 0
    ensures Shows(tasks, All, x) == if HasParent(x) then 0 else multiset(tasks)[x]
    ensures BucketOf(x) != All
  {
    BucketMembers(tasks, bucket, x);
    BucketMembers(tasks, All, x);
  }

  /** Which unfinished or finished work a bucket is for. */
  predicate IsFor(bucket: Bucket, task: Task) {
    match bucket
    case All => true
    case Active => task.status in {Transferring, Pausing}
    case Waiting => task.status == Queued || (task.status == Pending && !task.reconnectRequired)
    case OnHold => task.status == Paused
    case NeedsAttention => task.status in {Interrupted, Attention, Failed} || (task.status == Pending && task.reconnectRequired)
    case Done => task.status in {Completed, Cancelled}
  }

  /** A bucket shows the top-level tasks it is for, each as often as it is listed. */
  lemma BucketShows(tasks: seq<Task>, bucket: Bucket, x: Task)
    ensures Shows(tasks, bucket, x) == if !HasParent(x) && IsFor(bucket, x) then multiset(tasks)[x] else 0
  {
    BucketMembers(tasks, bucket, x);
  }

  /** What a filter keeps stays in order: the part kept of a longer list is made of the parts kept of its pieces. */
  lemma {:induction false} FilterInOrder(a: seq<Task>, b: seq<Task>, keep: Task -> bool)
    ensures Filter(a + b, keep) == Filter(a, keep) + Filter(b, keep)
  {
    if b == [] {
      assert a + b == a;
    } else {
      var shorter, last := b[..|b| - 1], b[|b| - 1];
      assert a + b == (a + shorter) + [last];
      FilterInOrder(a, shorter, keep);
      FilterSnoc(a + shorter, last, keep);
    }
  }

  lemma {:induction false} InsertMembers(task: Task, sorted: seq<Task>)
    ensures multiset(Insert(task, sorted)) == multiset(sorted) + multiset{task}
  {
    if sorted != [] && task.startTime > sorted[0].startTime {
      InsertMembers(task, sorted[1..]);
      assert sorted == [sorted[0]] + sorted[1..];
    }
  }

  lemma {:induction false} StableSortMembers(tasks: seq<Task>)
    ensures multiset(StableSort(tasks)) == multiset(tasks)
  {
    if tasks != [] {
      StableSortMembers(tasks[1..]);
      InsertMembers(tasks[0], StableSort(tasks[1..]));
      assert tasks == [tasks[0]] + tasks[1..];
    }
  }

  /** The list for a parent holds its children that are not cancelled, each as often as it is there, by start time. */
  lemma ChildrenListed(tasks: seq<Task>, parentId: string, x: Task)
    ensures var listed := ListChildTasksForParent(tasks, parentId);
      && multiset(listed)[x] == (if x.parent == Some(parentId) && x.status != Cancelled then multiset(tasks)[x] else 0)
      && SortedByStart(listed)
  {
    var children := Filter(tasks, (task: Task) => IsChild(task, parentId));
    FilterMembers(tasks, (task: Task) => IsChild(task, parentId));
    StableSortMembers(children);
    StableSortSorts(children, 0);
  }

  /** The counts of the five specific buckets add up to the "all" count. */
  lemma {:induction false} CountsAddUp(tasks: seq<Task>)
    ensures |TasksInBucket(tasks, All)|
         == |TasksInBucket(tasks, Active)| + |TasksInBucket(tasks, Waiting)| + |TasksInBucket(tasks, OnHold)|
            + |TasksInBucket(tasks, NeedsAttention)| + |TasksInBucket(tasks, Done)|
  {
    if tasks != [] {
      CountsAddUp(tasks[..|tasks| - 1]);
      BucketSize(tasks, All);
      BucketSize(tasks, Active);
      BucketSize(tasks, Waiting);
      BucketSize(tasks, OnHold);
      BucketSize(tasks, NeedsAttention);
      BucketSize(tasks, Done);
    }
  }

  function BadgeCount(tasks: seq<Task>): nat {
    |Filter(tasks, (task: Task) => !HasParent(task) && task.status in {Pending, Queued, Transferring, Pausing, Paused, Interrupted})|
  }

  predicate BadgeHasAttention(tasks: seq<Task>) {
    exists i :: 0 <= i < |tasks| && !HasParent(tasks[i])
      && (tasks[i].status == Attention || tasks[i].status == Failed || tasks[i].status == Interrupted || tasks[i].reconnectRequired)
  }

  const RESTARTS: Task -> bool := (task: Task) => task.status == Pending || task.status == Interrupted

  function Restartable(tasks: seq<Task>): seq<Task> {
    Filter(TasksInBucket(tasks, NeedsAttention), RESTARTS)
  }

  lemma FilterSnoc(tasks: seq<Task>, x: Task, keep: Task -> bool)
    ensures Filter(tasks + [x], keep) == Filter(tasks, keep) + (if keep(x) then [x] else [])
  {
    assert (tasks + [x])[..|tasks|] == tasks;
  }

  lemma RestartableSize(tasks: seq<Task>)
    requires tasks != []
    ensures var last := tasks[|tasks| - 1];
      |Restartable(tasks)| == |Restartable(tasks[..|tasks| - 1])| + if ShownIn(last, NeedsAttention) && RESTARTS(last) then 1 else 0
  {
    var last, attention := tasks[|tasks| - 1], TasksInBucket(tasks[..|tasks| - 1], NeedsAttention);
    if ShownIn(last, NeedsAttention) {
      FilterSnoc(attention, last, RESTARTS);
      assert TasksInBucket(tasks, NeedsAttention) == attention + [last];
    } else {
      assert TasksInBucket(tasks, NeedsAttention) == attention;
    }
  }

  /**
   The badge counts what the active, waiting and on-hold buckets show, and of
   the attention bucket the tasks that are still pending or interrupted.
   */
  lemma {:induction false} BadgeCountsBuckets(tasks: seq<Task>)
    ensures BadgeCount(tasks)
         == |TasksInBucket(tasks, Active)| + |TasksInBucket(tasks, Waiting)| + |TasksInBucket(tasks, OnHold)|
            + |Restartable(tasks)|
  {
    if tasks != [] {
      BadgeCountsBuckets(tasks[..|tasks| - 1]);
      BucketSize(tasks, Active);
      BucketSize(tasks, Waiting);
      BucketSize(tasks, OnHold);
      RestartableSize(tasks);
    }
  }

  lemma InBucketIff(tasks: seq<Task>, bucket: Bucket)
    ensures TasksInBucket(tasks, bucket) != []
        <==> exists i :: 0 <= i < |tasks| && ShownIn(tasks[i], bucket)
  {
    var shown := TasksInBucket(tasks, bucket);
    if shown != [] {
      BucketMembers(tasks, bucket, shown[0]);
      assert Shows(tasks, bucket, shown[0]) > 0;
      assert shown[0] in multiset(shown) && shown[0] in multiset(tasks);
    }
    if i :| 0 <= i < |tasks| && ShownIn(tasks[i], bucket) {
      BucketMembers(tasks, bucket, tasks[i]);
      assert tasks[i] in multiset(tasks) && Shows(tasks, bucket, tasks[i]) > 0;
    }
  }

  /** The badge asks for attention when the attention bucket has a task, or one elsewhere must reconnect. */
  lemma BadgeAttentionIff(tasks: seq<Task>)
    ensures BadgeHasAttention(tasks)
        <==> TasksInBucket(tasks, NeedsAttention) != []
             || exists i :: 0 <= i < |tasks| && !HasParent(tasks[i]) && tasks[i].reconnectRequired && tasks[i].status != Pending
  {
    InBucketIff(tasks, NeedsAttention);
    if BadgeHasAttention(tasks) {
      var i :| 0 <= i < |tasks| && !HasParent(tasks[i])
        && (tasks[i].status == Attention || tasks[i].status == Failed || tasks[i].status == Interrupted || tasks[i].reconnectRequired);
      assert BucketOf(tasks[i]) == NeedsAttention || (tasks[i].reconnectRequired && tasks[i].status != Pending);
    }
  }

  // The background split.

  predicate Collapses(task: Task) {
    task.background && task.status == Completed
  }

  function Collapsed(tasks: seq<Task>): seq<Task> {
    Filter(tasks, (task: Task) => Collapses(task))
  }

  predicate IdCollapses(tasks: seq<Task>, id: string) {
    exists i :: 0 <= i < |tasks| && Collapses(tasks[i]) && tasks[i].id == id
  }

  function Visible(tasks: seq<Task>): seq<Task> {
    Filter(tasks, (task: Task) => !IdCollapses(tasks, task.id))
  }

  /** Collapsed are the background tasks that completed; visible is every task whose id none of those has. */
  lemma SplitShows(tasks: seq<Task>, x: Task)
    ensures multiset(Collapsed(tasks))[x] == if x.background && x.status == Completed then multiset(tasks)[x] else 0
    ensures multiset(Visible(tasks))[x]
         == if exists i :: 0 <= i < |tasks| && tasks[i].background && tasks[i].status == Completed && tasks[i].id == x.id
            then 0 else multiset(tasks)[x]
  {
    FilterMembers(tasks, (task: Task) => Collapses(task));
    FilterMembers(tasks, (task: Task) => !IdCollapses(tasks, task.id));
  }

  /** The split loses no task exactly when no unfinished task shares its id with a collapsed one. */
  lemma SplitIsPartitionIff(tasks: seq<Task>)
    ensures multiset(Visible(tasks)) + multiset(Collapsed(tasks)) == multiset(tasks)
        <==> forall i :: 0 <= i < |tasks| && IdCollapses(tasks, tasks[i].id) ==> Collapses(tasks[i])
  {
    FilterMembers(tasks, (task: Task) => Collapses(task));
    FilterMembers(tasks, (task: Task) => !IdCollapses(tasks, task.id));
    var visible, collapsed := multiset(Visible(tasks)), multiset(Collapsed(tasks));
    forall x
      ensures visible[x] == if IdCollapses(tasks, x.id) then 0 else multiset(tasks)[x]
      ensures collapsed[x] == if Collapses(x) then multiset(tasks)[x] else 0
    {
    }
    if visible + collapsed == multiset(tasks) {
      forall i | 0 <= i < |tasks| && IdCollapses(tasks, tasks[i].id)
        ensures Collapses(tasks[i])
      {
        assert tasks[i] in multiset(tasks);
        assert (visible + collapsed)[tasks[i]] > 0;
      }
    } else {
      var x :| (visible + collapsed)[x] != multiset(tasks)[x];
      if x in multiset(tasks) {
        var i :| 0 <= i < |tasks| && tasks[i] == x;
        assert IdCollapses(tasks, tasks[i].id) && !Collapses(tasks[i]);
      }
    }
  }
}
