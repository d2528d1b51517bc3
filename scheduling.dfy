/**
 * The download manager's scheduling rules, stated on a snapshot of the pool:
 * the insertion-ordered entries, each key with the view of its task. Tasks
 * are classified as multi-image or single-image; tasks that are downloading
 * or processing are "running" and are counted against one ceiling per class.
 */
module Scheduling {
  import opened Wrappers
  import opened OrderedMaps
  import opened Tasks

  type PoolView = seq<Entry<Key, TaskView>>

  const MaxMultiImageDownloading: nat := 1
  const MaxSingleImageDownloading: nat := 3

  function Ceiling(multi: bool): nat {
    if multi then MaxMultiImageDownloading else MaxSingleImageDownloading
  }

  /**
   * `isMultiImageDownload`: the length of an `images` array decides when there
   * is one; otherwise a non-zero `context.pageCount`; otherwise a `total`
   * above one; otherwise the task is single-image.
   */
  predicate IsMultiImage(s: Shape) {
    if s.images.Some? then s.images.value > 1
    else if s.pageCount.Some? && s.pageCount.value != 0 then s.pageCount.value > 1
    else s.total.Some? && s.total.value > 1
  }

  predicate IsRunning(v: TaskView) {
    v.state == Downloading || v.state == Processing
  }

  /** Whether `v` is a running task of the given class. */
  function RunningOf(v: TaskView, multi: bool): nat {
    if IsRunning(v) && IsMultiImage(v.shape) == multi then 1 else 0
  }

  /** Running tasks of one class, the count `reachMaxDownloading` accumulates. */
  function RunningCount(p: PoolView, multi: bool): nat {
    if p == [] then 0 else RunningCount(p[..|p| - 1], multi) + RunningOf(p[|p| - 1].value, multi)
  }

  /** Running tasks of one class other than the one keyed `id`, the count `canStartSpecificDownload` accumulates. */
  function RunningCountExcept(p: PoolView, multi: bool, id: Key): nat {
    if p == [] then 0
    else RunningCountExcept(p[..|p| - 1], multi, id)
         + (if p[|p| - 1].key != id then RunningOf(p[|p| - 1].value, multi) else 0)
  }

  /** `reachMaxDownloading`: either class is at its ceiling. */
  predicate ReachMax(p: PoolView) {
    RunningCount(p, true) >= MaxMultiImageDownloading || RunningCount(p, false) >= MaxSingleImageDownloading
  }

  /** The ceiling invariant: no class runs more tasks than its ceiling allows. */
  predicate WithinCeilings(p: PoolView) {
    RunningCount(p, true) <= MaxMultiImageDownloading && RunningCount(p, false) <= MaxSingleImageDownloading
  }

  /** `canStartDownload`: the state is none of finish, stopping, downloading, processing. */
  predicate CanStartDownload(v: TaskView) {
    v.state !in {Finish, Stopping, Downloading, Processing}
  }

  /** `canStartSpecificDownload`: fewer running tasks of its class, itself excluded, than the ceiling. */
  predicate CanStartSpecific(p: PoolView, id: Key, v: TaskView) {
    RunningCountExcept(p, IsMultiImage(v.shape), id) < Ceiling(IsMultiImage(v.shape))
  }

  /**
   * `startWorkDownloader`: an unknown id or a task that cannot be started is
   * left alone; otherwise the task starts when its class has room and is set
   * pending when it has not. A reset only returns the task to pending, which
   * either outcome overwrites.
   */
  function StartTask(p: PoolView, id: Key): PoolView {
    match Find(p, id)
    case None => p
    case Some(i) =>
      var v := p[i].value;
      if !CanStartDownload(v) then p
      else if CanStartSpecific(p, id, v) then p[i := Entry(id, v.(state := Downloading))]
      else p[i := Entry(id, v.(state := Pending))]
  }

  /** Position of the first pending task in insertion order. */
  function FirstPending(p: PoolView): (r: Option<nat>)
    ensures r.Some? ==> r.value < |p| && p[r.value].value.state == Pending
    ensures r.Some? ==> forall j :: 0 <= j < r.value ==> p[j].value.state != Pending
    ensures r.None? ==> forall j :: 0 <= j < |p| ==> p[j].value.state != Pending
  {
    if p == [] then None
    else if p[0].value.state == Pending then Some(0)
    else match FirstPending(p[1..])
      case None => None
      case Some(i) => Some(i + 1)
  }

  function PendingCount(p: PoolView): nat {
    if p == [] then 0 else PendingCount(p[..|p| - 1]) + (if p[|p| - 1].value.state == Pending then 1 else 0)
  }

  /**
   * `downloadNext`: start the first pending task and go on while neither
   * class is at its ceiling.
   */
  function DownloadNext(p: PoolView): PoolView
    requires DistinctKeys(p)
    decreases PendingCount(p)
  {
    if |p| < 1 then p
    else match FirstPending(p)
      case None => p
      case Some(i) =>
        var q := StartTask(p, p[i].key);
        if ReachMax(q) then q
        else
          StartedUnlessFull(p, i);
          DownloadNext(q)
  }

  // ---------------------------------------------------------------------------
  // Counting lemmas

  lemma {:induction false} RunningCountUpdate(p: PoolView, i: nat, e: Entry<Key, TaskView>, multi: bool)
    requires i < |p|
    ensures RunningCount(p[i := e], multi) + RunningOf(p[i].value, multi) == RunningCount(p, multi) + RunningOf(e.value, multi)
    decreases |p|
  {
    var q := p[i := e];
    if i < |p| - 1 {
      assert q[..|q| - 1] == p[..|p| - 1][i := e];
      RunningCountUpdate(p[..|p| - 1], i, e, multi);
    } else {
      assert q[..|q| - 1] == p[..|p| - 1];
    }
  }

  lemma {:induction false} PendingCountUpdate(p: PoolView, i: nat, e: Entry<Key, TaskView>)
    requires i < |p|
    ensures PendingCount(p[i := e]) + (if p[i].value.state == Pending then 1 else 0)
         == PendingCount(p) + (if e.value.state == Pending then 1 else 0)
    decreases |p|
  {
    var q := p[i := e];
    if i < |p| - 1 {
      assert q[..|q| - 1] == p[..|p| - 1][i := e];
      PendingCountUpdate(p[..|p| - 1], i, e);
    } else {
      assert q[..|q| - 1] == p[..|p| - 1];
    }
  }

  /** With distinct keys, leaving out the task keyed `p[i].key` is leaving out exactly `p[i]`. */
  lemma {:induction false} RunningCountExceptOne(p: PoolView, i: nat, multi: bool)
    requires DistinctKeys(p) && i < |p|
    ensures RunningCountExcept(p, multi, p[i].key) + RunningOf(p[i].value, multi) == RunningCount(p, multi)
    decreases |p|
  {
    var init := p[..|p| - 1];
    if i < |p| - 1 {
      assert init[i] == p[i];
      RunningCountExceptOne(init, i, multi);
    } else {
      RunningCountExceptNone(init, multi, p[i].key);
    }
  }

  lemma {:induction false} RunningCountExceptNone(p: PoolView, multi: bool, id: Key)
    requires !HasKey(p, id)
    ensures RunningCountExcept(p, multi, id) == RunningCount(p, multi)
    decreases |p|
  {
    if p != [] {
      var init := p[..|p| - 1];
      assert forall j :: 0 <= j < |init| ==> init[j] == p[j];
      RunningCountExceptNone(init, multi, id);
    }
  }

  /** A task is set pending only when its class is full, and then `reachMaxDownloading` holds. */
  lemma StartedUnlessFull(p: PoolView, i: nat)
    requires DistinctKeys(p) && i < |p| && p[i].value.state == Pending
    ensures !ReachMax(StartTask(p, p[i].key)) ==> PendingCount(StartTask(p, p[i].key)) < PendingCount(p)
    ensures !ReachMax(StartTask(p, p[i].key)) ==> CanStartSpecific(p, p[i].key, p[i].value)
  {
    var id := p[i].key;
    FindFirst(p, id, i);
    var v := p[i].value;
    var multi := IsMultiImage(v.shape);
    var q := StartTask(p, id);
    if CanStartSpecific(p, id, v) {
      PendingCountUpdate(p, i, Entry(id, v.(state := Downloading)));
    } else {
      assert q == p[i := Entry(id, v.(state := Pending))];
      RunningCountExceptOne(p, i, multi);
      RunningCountUpdate(p, i, Entry(id, v.(state := Pending)), multi);
      assert RunningCount(q, multi) >= Ceiling(multi);
    }
  }

  /** Changing the task keyed `id` itself does not change the count of the others. */
  lemma {:induction false} ExceptIgnoresTarget(p: PoolView, i: nat, e: Entry<Key, TaskView>, multi: bool)
    requires i < |p| && p[i].key == e.key
    ensures RunningCountExcept(p[i := e], multi, e.key) == RunningCountExcept(p, multi, e.key)
    decreases |p|
  {
    var q := p[i := e];
    if i < |p| - 1 {
      assert q[..|q| - 1] == p[..|p| - 1][i := e];
      ExceptIgnoresTarget(p[..|p| - 1], i, e, multi);
    } else {
      assert q[..|q| - 1] == p[..|p| - 1];
    }
  }
  /** Changing the task keyed `id` itself, but not its class, does not change whether it may start. */
  lemma SpecificIgnoresTarget(p: PoolView, i: nat, e: Entry<Key, TaskView>)
    requires i < |p| && p[i].key == e.key && e.value.shape == p[i].value.shape
    ensures CanStartSpecific(p[i := e], e.key, e.value) == CanStartSpecific(p, e.key, p[i].value)
  {
    ExceptIgnoresTarget(p, i, e, IsMultiImage(e.value.shape));
  }

  /** What a start does to the task at position `i`, spelled out. */
  lemma StartTaskAt(p: PoolView, i: nat, ok: bool)
    requires DistinctKeys(p) && i < |p|
    requires CanStartDownload(p[i].value) ==> ok == CanStartSpecific(p, p[i].key, p[i].value)
    ensures !CanStartDownload(p[i].value) ==> StartTask(p, p[i].key) == p
    ensures CanStartDownload(p[i].value) ==>
      StartTask(p, p[i].key) == p[i := Entry(p[i].key, p[i].value.(state := if ok then Downloading else Pending))]
  {
    FindFirst(p, p[i].key, i);
  }

  // ---------------------------------------------------------------------------
  // Properties of a start

  /** A start never pushes a class over its ceiling. */
  lemma StartPreservesCeilings(p: PoolView, id: Key)
    requires DistinctKeys(p) && WithinCeilings(p)
    ensures WithinCeilings(StartTask(p, id))
  {
    match Find(p, id)
    case None =>
    case Some(i) =>
      var v := p[i].value;
      if CanStartDownload(v) {
        var multi := IsMultiImage(v.shape);
        var e := if CanStartSpecific(p, id, v) then Entry(id, v.(state := Downloading)) else Entry(id, v.(state := Pending));
        assert StartTask(p, id) == p[i := e];
        RunningCountExceptOne(p, i, multi);
        RunningCountUpdate(p, i, e, true);
        RunningCountUpdate(p, i, e, false);
      }
  }

  /**
   * A start changes at most the one task keyed `id`: a pending, stopped or
   * failed task becomes downloading when its class has room and pending
   * otherwise; keys, order, shapes and every other task stay as they were.
   */
  lemma StartChangesOnlyTarget(p: PoolView, id: Key)
    requires DistinctKeys(p)
    ensures Keys(StartTask(p, id)) == Keys(p)
    ensures forall j :: 0 <= j < |p| && p[j].key != id ==> StartTask(p, id)[j] == p[j]
    ensures forall j :: 0 <= j < |p| && p[j].key == id ==>
      var v, w := p[j].value, StartTask(p, id)[j].value;
      w.shape == v.shape && w.recycled == v.recycled
      && (!CanStartDownload(v) ==> w == v)
      && (CanStartDownload(v) ==> (w.state == Downloading <==> CanStartSpecific(p, id, v)))
      && (CanStartDownload(v) ==> (w.state == Pending <==> !CanStartSpecific(p, id, v)))
  {
    match Find(p, id)
    case None =>
    case Some(i) =>
      assert forall j :: 0 <= j < |p| && p[j].key == id ==> j == i;
  }

  /** Only pending tasks change, and those only to downloading. */
  predicate Advances(p: PoolView, q: PoolView) {
    |q| == |p|
    && forall j :: 0 <= j < |p| ==>
         q[j] == p[j] || (p[j].value.state == Pending && q[j] == Entry(p[j].key, p[j].value.(state := Downloading)))
  }

  /** No task left pending precedes a task that was started: tasks start in insertion order. */
  predicate InInsertionOrder(p: PoolView, q: PoolView)
    requires |q| == |p|
  {
    forall a, b :: 0 <= a < b < |p| && p[a].value.state == Pending && q[a].value.state == Pending
      ==> !(p[b].value.state == Pending && q[b].value.state == Downloading)
  }

  // ---------------------------------------------------------------------------
  // Properties of downloadNext

  lemma AdvancesTransitive(p: PoolView, q: PoolView, r: PoolView)
    requires Advances(p, q) && Advances(q, r)
    ensures Advances(p, r)
  {
  }

  /** One round of `downloadNext`: the first pending task is offered a start. */
  lemma DownloadNextStep(p: PoolView, i: nat)
    requires DistinctKeys(p) && FirstPending(p) == Some(i)
    ensures DistinctKeys(StartTask(p, p[i].key))
    ensures Keys(StartTask(p, p[i].key)) == Keys(p)
    ensures Advances(p, StartTask(p, p[i].key))
    ensures forall j :: 0 <= j < |p| && j != i ==> StartTask(p, p[i].key)[j] == p[j]
    ensures WithinCeilings(p) ==> WithinCeilings(StartTask(p, p[i].key))
    ensures !ReachMax(StartTask(p, p[i].key)) ==>
              StartTask(p, p[i].key)[i].value.state == Downloading && PendingCount(StartTask(p, p[i].key)) < PendingCount(p)
  {
    var id := p[i].key;
    var v := p[i].value;
    var ok := CanStartSpecific(p, id, v);
    StartTaskAt(p, i, ok);
    var e := Entry(id, v.(state := if ok then Downloading else Pending));
    assert v.(state := Pending) == v;
    assert StartTask(p, id) == p[i := e];
    ReplaceKeepsKeys(p, i, e);
    if WithinCeilings(p) {
      StartPreservesCeilings(p, id);
    }
    StartedUnlessFull(p, i);
    if ok {
      assert p[i := e][i].value.state == Downloading;
    }
  }

  /** Replacing one entry by one with the same key keeps keys, their order and their distinctness. */
  lemma ReplaceKeepsKeys(p: PoolView, i: nat, e: Entry<Key, TaskView>)
    requires i < |p| && p[i].key == e.key
    ensures Keys(p[i := e]) == Keys(p)
    ensures DistinctKeys(p) ==> DistinctKeys(p[i := e])
  {
    assert forall j :: 0 <= j < |p| ==> p[i := e][j].key == p[j].key;
  }


  /**
   * `downloadNext` keeps keys and order, only moves pending tasks to
   * downloading, never pushes a class over its ceiling, and stops only when
   * no task is pending or a class is full.
   */
  lemma {:induction false} DownloadNextSpec(p: PoolView)
    requires DistinctKeys(p)
    ensures Keys(DownloadNext(p)) == Keys(p)
    ensures Advances(p, DownloadNext(p))
    ensures WithinCeilings(p) ==> WithinCeilings(DownloadNext(p))
    ensures FirstPending(DownloadNext(p)).None? || ReachMax(DownloadNext(p))
    decreases PendingCount(p)
  {
    if |p| >= 1 && FirstPending(p).Some? {
      var i := FirstPending(p).value;
      var q := StartTask(p, p[i].key);
      DownloadNextStep(p, i);
      if !ReachMax(q) {
        DownloadNextSpec(q);
        AdvancesTransitive(p, q, DownloadNext(q));
      }
    }
  }

  /** Starting the first pending task and then the rest in order is starting them all in order. */
  lemma OrderStep(p: PoolView, q: PoolView, r: PoolView, i: nat)
    requires |q| == |p| && |r| == |p| && i < |p|
    requires forall j :: 0 <= j < i ==> p[j].value.state != Pending
    requires forall j :: 0 <= j < |p| && j != i ==> q[j] == p[j]
    requires q[i].value.state == Downloading && r[i].value.state == Downloading
    requires InInsertionOrder(q, r)
    ensures InInsertionOrder(p, r)
  {
    forall a, b | 0 <= a < b < |p| && p[a].value.state == Pending && r[a].value.state == Pending
      ensures !(p[b].value.state == Pending && r[b].value.state == Downloading)
    {
      assert a != i;
      assert q[a] == p[a] && q[b] == p[b];
    }
  }

  /** `downloadNext` starts pending tasks in insertion order. */
  lemma {:induction false} DownloadNextInOrder(p: PoolView)
    requires DistinctKeys(p)
    ensures |DownloadNext(p)| == |p|
    ensures InInsertionOrder(p, DownloadNext(p))
    decreases PendingCount(p)
  {
    DownloadNextSpec(p);
    if |p| >= 1 && FirstPending(p).Some? {
      var i := FirstPending(p).value;
      var q := StartTask(p, p[i].key);
      DownloadNextStep(p, i);
      if !ReachMax(q) {
        DownloadNextInOrder(q);
        DownloadNextSpec(q);
        assert DownloadNext(p) == DownloadNext(q);
        assert DownloadNext(q)[i] == q[i];
        OrderStep(p, q, DownloadNext(q), i);
      }
    }
  }
}
