/**
 * The pool operations of the download manager other than scheduling, stated
 * on the pool's view: adding one task, stopping and deleting one task, and
 * the batch forms of delete and stop. Each comes with what it keeps (keys,
 * order, the ceilings) and what it changes.
 */
module PoolRules {
  import opened Wrappers
  import opened OrderedMaps
  import opened Tasks
  import opened Scheduling

  /** A pool after an operation, with what the operation returned or threw. */
  datatype Outcome<R> = Outcome(pool: PoolView, result: R)

  /** The error thrown when a listener is removed from the `null` an unknown id looks up to. */
  const NullDownloader := TypeError("Cannot read properties of null (reading 'removeAllListeners')")

  // ---------------------------------------------------------------------------
  // Counting over concatenations

  lemma {:induction false} RunningCountConcat(a: PoolView, b: PoolView, multi: bool)
    ensures RunningCount(a + b, multi) == RunningCount(a, multi) + RunningCount(b, multi)
    decreases |b|
  {
    if b == [] {
      assert a + b == a;
    } else {
      assert (a + b)[..|a + b| - 1] == a + b[..|b| - 1];
      RunningCountConcat(a, b[..|b| - 1], multi);
    }
  }

  /** Taking a task out of the pool never adds to a class's running count. */
  lemma DeleteRunning(p: PoolView, id: Key, multi: bool)
    requires DistinctKeys(p)
    ensures RunningCount(Delete(p, id), multi) <= RunningCount(p, multi)
  {
    DeleteCutsOut(p, id);
    if Find(p, id).Some? {
      var i := Find(p, id).value;
      assert p == p[..i] + [p[i]] + p[i + 1..];
      RunningCountConcat(p[..i] + [p[i]], p[i + 1..], multi);
      RunningCountConcat(p[..i], [p[i]], multi);
      RunningCountConcat(p[..i], p[i + 1..], multi);
    }
  }

  /** `delete` keeps the ceiling invariant and distinct keys. */
  lemma DeletePreservesCeilings(p: PoolView, id: Key)
    requires DistinctKeys(p)
    ensures DistinctKeys(Delete(p, id))
    ensures WithinCeilings(p) ==> WithinCeilings(Delete(p, id))
  {
    DeleteSpec(p, id);
    DeleteRunning(p, id, true);
    DeleteRunning(p, id, false);
  }

  // ---------------------------------------------------------------------------
  // Adding one task

  /** `addDownloader`: a new id is appended and offered a start; a known id changes nothing. */
  function AddTask(p: PoolView, e: Entry<Key, TaskView>): PoolView {
    if HasKey(p, e.key) then p else StartTask(p + [e], e.key)
  }

  /** `addWorkDownloader` and `transformWorkDownloader`: `set` (replacing a known id in place), then offer a start. */
  function SetTask(p: PoolView, e: Entry<Key, TaskView>): PoolView {
    StartTask(Set(p, e.key, e.value), e.key)
  }

  /**
   * `addDownloader` appends a task under a new id at the end and leaves a
   * known id's entry as it was; keys stay distinct, and adding a task that
   * is not running keeps the ceilings.
   */
  lemma AddTaskSpec(p: PoolView, e: Entry<Key, TaskView>)
    requires DistinctKeys(p)
    ensures HasKey(p, e.key) ==> AddTask(p, e) == p
    ensures !HasKey(p, e.key) ==> |AddTask(p, e)| == |p| + 1 && AddTask(p, e)[..|p|] == p
    ensures !HasKey(p, e.key) ==> AddTask(p, e)[|p|].key == e.key && AddTask(p, e)[|p|].value.shape == e.value.shape
    ensures DistinctKeys(AddTask(p, e))
    ensures WithinCeilings(p) && !IsRunning(e.value) ==> WithinCeilings(AddTask(p, e))
  {
    if !HasKey(p, e.key) {
      var q := p + [e];
      SetKeys(p, e.key, e.value);
      StartChangesOnlyTarget(q, e.key);
      assert forall j :: 0 <= j < |p| ==> q[j].key != e.key;
      assert AddTask(p, e)[..|p|] == p;
      if WithinCeilings(p) && !IsRunning(e.value) {
        AppendKeepsCeilings(p, e);
        StartPreservesCeilings(q, e.key);
      }
    }
  }

  /** Appending a task that is not running adds nothing to the running counts. */
  lemma AppendKeepsCeilings(p: PoolView, e: Entry<Key, TaskView>)
    requires WithinCeilings(p) && !IsRunning(e.value)
    ensures WithinCeilings(p + [e])
  {
    RunningCountConcat(p, [e], true);
    RunningCountConcat(p, [e], false);
    assert RunningCount([e], true) == 0 == RunningCount([e], false) by {
      assert [e][..0] == [];
    }
  }

  /**
   * `addWorkDownloader` puts the task under its id, in place of a known id's
   * task or at the end; every other entry stays; with a task that is not
   * running the ceilings are kept.
   */
  lemma SetTaskSpec(p: PoolView, e: Entry<Key, TaskView>)
    requires DistinctKeys(p)
    ensures Keys(SetTask(p, e)) == if HasKey(p, e.key) then Keys(p) else Keys(p) + [e.key]
    ensures DistinctKeys(SetTask(p, e))
    ensures forall j :: 0 <= j < |p| && p[j].key != e.key ==> SetTask(p, e)[j] == p[j]
    ensures !HasKey(p, e.key) ==> SetTask(p, e) == AddTask(p, e)
    ensures WithinCeilings(p) && !IsRunning(e.value) ==> WithinCeilings(SetTask(p, e))
  {
    var q := Set(p, e.key, e.value);
    SetKeys(p, e.key, e.value);
    StartChangesOnlyTarget(q, e.key);
    if HasKey(p, e.key) {
      var i := Find(p, e.key).value;
      assert q == p[i := e];
      if WithinCeilings(p) && !IsRunning(e.value) {
        RunningCountUpdate(p, i, e, true);
        RunningCountUpdate(p, i, e, false);
        StartPreservesCeilings(q, e.key);
      }
    } else {
      AddTaskSpec(p, e);
    }
  }

  // ---------------------------------------------------------------------------
  // Stopping one task

  /** `stopWorkDownloader` before its `downloadNext`: a known, stoppable task is stopped. */
  function StopTask(p: PoolView, id: Key): PoolView {
    match Find(p, id)
    case None => p
    case Some(i) =>
      var v := p[i].value;
      if Stoppable(v.state) then p[i := Entry(id, v.(state := State.Stop))] else p
  }

  /** `stopWorkDownloader`: stop, then schedule. */
  function StopAndNext(p: PoolView, id: Key): PoolView
    requires DistinctKeys(p)
  {
    StopTaskSpec(p, id);
    DownloadNext(StopTask(p, id))
  }

  /** The pointwise effect of stopping the tasks keyed by `ids` that are stoppable. */
  predicate StoppedAs(p: PoolView, q: PoolView, ids: seq<Key>) {
    |q| == |p|
    && forall j :: 0 <= j < |p| ==>
         q[j] == if p[j].key in ids && Stoppable(p[j].value.state)
                 then Entry(p[j].key, p[j].value.(state := State.Stop))
                 else p[j]
  }

  /** Stopping tasks keeps keys and never adds to a running count. */
  lemma {:induction false} StoppedCounts(p: PoolView, q: PoolView, ids: seq<Key>, multi: bool)
    requires StoppedAs(p, q, ids)
    ensures Keys(q) == Keys(p)
    ensures RunningCount(q, multi) <= RunningCount(p, multi)
    decreases |p|
  {
    if p != [] {
      var n := |p| - 1;
      assert StoppedAs(p[..n], q[..n], ids);
      StoppedCounts(p[..n], q[..n], ids, multi);
    }
  }

  /** A stop changes the task keyed `id`, if known, as `StoppedAs` says and nothing else. */
  lemma StopTaskPointwise(p: PoolView, id: Key)
    requires DistinctKeys(p)
    ensures StoppedAs(p, StopTask(p, id), [id])
  {
    match Find(p, id)
    case None =>
    case Some(i) =>
      assert forall j :: 0 <= j < |p| && p[j].key == id ==> j == i;
  }

  /**
   * A stop changes only the task keyed `id`, leaves it stopped when it was
   * stoppable, and never adds to a running count, so it keeps the ceilings.
   */
  lemma StopTaskSpec(p: PoolView, id: Key)
    requires DistinctKeys(p)
    ensures Keys(StopTask(p, id)) == Keys(p) && DistinctKeys(StopTask(p, id))
    ensures forall j :: 0 <= j < |p| && p[j].key != id ==> StopTask(p, id)[j] == p[j]
    ensures forall j :: 0 <= j < |p| && p[j].key == id ==>
      StopTask(p, id)[j].value == if Stoppable(p[j].value.state) then p[j].value.(state := State.Stop) else p[j].value
    ensures RunningCount(StopTask(p, id), true) <= RunningCount(p, true)
    ensures RunningCount(StopTask(p, id), false) <= RunningCount(p, false)
    ensures WithinCeilings(p) ==> WithinCeilings(StopTask(p, id))
  {
    var q := StopTask(p, id);
    StopTaskPointwise(p, id);
    StoppedCounts(p, q, [id], true);
    StoppedCounts(p, q, [id], false);
    SameKeys(p, q, id);
  }

  // ---------------------------------------------------------------------------
  // Deleting one task

  /**
   * `deleteWorkDownloader`: an unknown id throws on the `null` it looks up; a
   * stopping task stays and the pool is scheduled; otherwise the task leaves
   * the pool and is stopped, which throws `Unstoppable` for a processing
   * task before any scheduling, and is followed by scheduling for any other.
   */
  function DeleteTask(p: PoolView, id: Key): Outcome<Option<Error>>
    requires DistinctKeys(p)
  {
    match Find(p, id)
    case None => Outcome(p, Some(NullDownloader))
    case Some(i) =>
      var v := p[i].value;
      DeleteSpec(p, id);
      if v.state == Stopping then Outcome(DownloadNext(p), None)
      else if v.state == Processing then Outcome(Delete(p, id), Some(Unstoppable))
      else Outcome(DownloadNext(Delete(p, id)), None)
  }

  /**
   * A delete of an unknown id fails and changes nothing; a delete of a task
   * that is not stopping takes it out for good, failing with `Unstoppable`
   * exactly when it was processing; a stopping task stays. Keys stay
   * distinct and the ceilings hold throughout.
   */
  lemma DeleteTaskSpec(p: PoolView, id: Key)
    requires DistinctKeys(p)
    ensures !HasKey(p, id) ==> DeleteTask(p, id) == Outcome(p, Some(NullDownloader))
    ensures HasKey(p, id) && p[Find(p, id).value].value.state != Stopping ==>
      Keys(DeleteTask(p, id).pool) == Keys(Delete(p, id)) && !HasKey(DeleteTask(p, id).pool, id)
    ensures HasKey(p, id) && p[Find(p, id).value].value.state == Stopping ==>
      Keys(DeleteTask(p, id).pool) == Keys(p) && DeleteTask(p, id).result.None?
    ensures HasKey(p, id) ==>
      (DeleteTask(p, id).result == Some(Unstoppable) <==> p[Find(p, id).value].value.state == Processing)
    ensures HasKey(p, id) ==> DeleteTask(p, id).result != Some(NullDownloader)
    ensures DistinctKeys(DeleteTask(p, id).pool)
    ensures WithinCeilings(p) ==> WithinCeilings(DeleteTask(p, id).pool)
  {
    if HasKey(p, id) {
      var q := Delete(p, id);
      DeletePreservesCeilings(p, id);
      DownloadNextSpec(p);
      DownloadNextSpec(q);
      SameKeys(q, DownloadNext(q), id);
      SameKeys(p, DownloadNext(p), id);
    }
  }

  // ---------------------------------------------------------------------------
  // Batches

  /**
   * `deleteDownloads`, id by id: unknown ids and stopping tasks are skipped,
   * any other task leaves the pool and its id is reported; a processing
   * task's stop throws `Unstoppable`, which ends the batch with the pool as
   * it then is. No scheduling follows.
   */
  function DeleteBatch(p: PoolView, ids: seq<Key>): Outcome<Result<seq<Key>, Error>> {
    if ids == [] then Outcome(p, Success([]))
    else DeleteStep(DeleteBatch(p, ids[..|ids| - 1]), ids[|ids| - 1])
  }

  /** One id of `deleteDownloads`. */
  function DeleteStep(o: Outcome<Result<seq<Key>, Error>>, id: Key): Outcome<Result<seq<Key>, Error>> {
    if o.result.Failure? then o
    else match Find(o.pool, id)
      case None => o
      case Some(i) =>
        var v := o.pool[i].value;
        if v.state == Stopping then o
        else if v.state == Processing then Outcome(Delete(o.pool, id), Failure(Unstoppable))
        else Outcome(Delete(o.pool, id), Success(o.result.value + [id]))
  }

  /** What a batch that did not throw promises about the ids `ids` it was given. */
  predicate Reported(o: Outcome<Result<seq<Key>, Error>>, ids: seq<Key>) {
    (o.result.Success? ==> forall k :: k in o.result.value ==> k in ids && !HasKey(o.pool, k))
    && (o.result.Success? ==> forall j :: 0 <= j < |o.pool| && o.pool[j].key in ids ==> o.pool[j].value.state == Stopping)
    && (o.result.Failure? ==> o.result.error == Unstoppable)
  }

  lemma DeleteStepReport(o: Outcome<Result<seq<Key>, Error>>, init: seq<Key>, id: Key)
    requires DistinctKeys(o.pool) && Reported(o, init)
    ensures Reported(DeleteStep(o, id), init + [id])
  {
    var ids := init + [id];
    assert forall k :: k in ids <==> k in init || k == id;
    if o.result.Success? && HasKey(o.pool, id) {
      var i := Find(o.pool, id).value;
      if o.pool[i].value.state != Stopping && o.pool[i].value.state != Processing {
        var q := Delete(o.pool, id);
        DeleteSubset(o.pool, id);
        SubsetKeys(q, o.pool);
        forall j | 0 <= j < |q| && q[j].key in ids ensures q[j].value.state == Stopping {
          assert q[j] in o.pool;
          var a :| 0 <= a < |o.pool| && o.pool[a] == q[j];
        }
      }
    }
  }

  /** Once a delete batch has thrown, the ids after the failing one are never looked at. */
  lemma {:induction false} DeleteBatchAborted(p: PoolView, ids: seq<Key>, n: nat)
    requires n <= |ids| && DeleteBatch(p, ids[..n]).result.Failure?
    ensures DeleteBatch(p, ids) == DeleteBatch(p, ids[..n])
    decreases |ids|
  {
    if n < |ids| {
      var init := ids[..|ids| - 1];
      assert init[..n] == ids[..n];
      DeleteBatchAborted(p, init, n);
    } else {
      assert ids[..n] == ids;
    }
  }

  /** A delete batch only removes entries: what is left was in the pool unchanged. */
  lemma {:induction false} DeleteBatchShrinks(p: PoolView, ids: seq<Key>)
    requires DistinctKeys(p)
    ensures forall e :: e in DeleteBatch(p, ids).pool ==> e in p
    ensures DistinctKeys(DeleteBatch(p, ids).pool)
    ensures RunningCount(DeleteBatch(p, ids).pool, true) <= RunningCount(p, true)
    ensures RunningCount(DeleteBatch(p, ids).pool, false) <= RunningCount(p, false)
  {
    if ids != [] {
      var init, id := ids[..|ids| - 1], ids[|ids| - 1];
      DeleteBatchShrinks(p, init);
      var o := DeleteBatch(p, init);
      DeleteSubset(o.pool, id);
      DeleteSpec(o.pool, id);
      DeleteRunning(o.pool, id, true);
      DeleteRunning(o.pool, id, false);
    }
  }

  /**
   * Reported ids were requested and are gone; after a batch that did not
   * throw, every requested id still present belongs to a stopping task; the
   * only error is `Unstoppable`.
   */
  lemma {:induction false} DeleteBatchReport(p: PoolView, ids: seq<Key>)
    requires DistinctKeys(p)
    ensures Reported(DeleteBatch(p, ids), ids)
  {
    if ids != [] {
      var init, id := ids[..|ids| - 1], ids[|ids| - 1];
      DeleteBatchReport(p, init);
      DeleteBatchShrinks(p, init);
      DeleteStepReport(DeleteBatch(p, init), init, id);
      assert ids == init + [id];
    }
  }

  /**
   * `stopDownloads` before its `downloadNext`, id by id: a known task that is
   * stoppable is stopped and its id reported; the others are skipped, their
   * `Unstoppable` swallowed.
   */
  function StopBatch(p: PoolView, ids: seq<Key>): Outcome<seq<Key>> {
    if ids == [] then Outcome(p, [])
    else
      var o := StopBatch(p, ids[..|ids| - 1]);
      var id := ids[|ids| - 1];
      match Find(o.pool, id)
      case None => o
      case Some(i) =>
        if Stoppable(o.pool[i].value.state) then Outcome(StopTask(o.pool, id), o.result + [id]) else o
  }

  /** `stopDownloads`: stop the batch, then schedule. */
  function StopBatchAndNext(p: PoolView, ids: seq<Key>): Outcome<seq<Key>>
    requires DistinctKeys(p)
  {
    StopBatchSpec(p, ids);
    var o := StopBatch(p, ids);
    Outcome(DownloadNext(o.pool), o.result)
  }

  /** A stop batch stops exactly the requested tasks that are stoppable. */
  lemma {:induction false} StopBatchPool(p: PoolView, ids: seq<Key>)
    requires DistinctKeys(p)
    ensures StoppedAs(p, StopBatch(p, ids).pool, ids)
  {
    if ids != [] {
      var init, id := ids[..|ids| - 1], ids[|ids| - 1];
      StopBatchPool(p, init);
      var o := StopBatch(p, init);
      assert ids == init + [id];
      StoppedCounts(p, o.pool, init, true);
      SameKeys(p, o.pool, id);
      var r := StopBatch(p, ids).pool;
      if HasKey(o.pool, id) {
        var i := Find(o.pool, id).value;
        assert o.pool[i].key == Keys(o.pool)[i] == Keys(p)[i] == p[i].key;
        if Stoppable(o.pool[i].value.state) {
          StopTaskPointwise(o.pool, id);
        }
        forall j | 0 <= j < |p|
          ensures r[j] == if p[j].key in ids && Stoppable(p[j].value.state)
                          then Entry(p[j].key, p[j].value.(state := State.Stop)) else p[j]
        {
          assert o.pool[j].key == Keys(o.pool)[j] == Keys(p)[j] == p[j].key;
        }
      } else {
        forall j | 0 <= j < |p|
          ensures r[j] == if p[j].key in ids && Stoppable(p[j].value.state)
                          then Entry(p[j].key, p[j].value.(state := State.Stop)) else p[j]
        {
          assert p[j].key != id;
        }
      }
    }
  }

  /** A stop batch reports exactly the requested ids of known, stoppable tasks (an id once per request). */
  lemma {:induction false} StopBatchReport(p: PoolView, ids: seq<Key>, k: Key)
    requires DistinctKeys(p)
    ensures k in StopBatch(p, ids).result <==>
      k in ids && HasKey(p, k) && Stoppable(p[Find(p, k).value].value.state)
  {
    if ids != [] {
      var init, id := ids[..|ids| - 1], ids[|ids| - 1];
      StopBatchReport(p, init, k);
      StopBatchPool(p, init);
      var o := StopBatch(p, init);
      assert ids == init + [id];
      StoppedCounts(p, o.pool, init, true);
      SameKeys(p, o.pool, id);
      if HasKey(p, id) {
        var i := Find(p, id).value;
        assert o.pool[i].key == Keys(o.pool)[i] == Keys(p)[i] == p[i].key;
      }
    }
  }

  /**
   * A stop batch keeps the keys, never adds to a running count, changes only
   * requested tasks, reports only requested ids whose tasks now stand
   * stopped, and reports every requested task that was stoppable.
   */
  lemma StopBatchSpec(p: PoolView, ids: seq<Key>)
    requires DistinctKeys(p)
    ensures Keys(StopBatch(p, ids).pool) == Keys(p) && DistinctKeys(StopBatch(p, ids).pool)
    ensures RunningCount(StopBatch(p, ids).pool, true) <= RunningCount(p, true)
    ensures RunningCount(StopBatch(p, ids).pool, false) <= RunningCount(p, false)
    ensures forall j :: 0 <= j < |p| && p[j].key !in ids ==> StopBatch(p, ids).pool[j] == p[j]
    ensures forall j :: 0 <= j < |p| && p[j].key in StopBatch(p, ids).result ==>
      StopBatch(p, ids).pool[j].value.state == State.Stop
    ensures forall k :: k in StopBatch(p, ids).result ==> k in ids && HasKey(p, k)
    ensures forall j :: 0 <= j < |p| && p[j].key in ids && Stoppable(p[j].value.state) ==>
      p[j].key in StopBatch(p, ids).result
  {
    var o := StopBatch(p, ids);
    StopBatchPool(p, ids);
    StoppedCounts(p, o.pool, ids, true);
    StoppedCounts(p, o.pool, ids, false);
    SameKeys(p, o.pool, None);
    forall k | k in o.result ensures k in ids && HasKey(p, k) {
      StopBatchReport(p, ids, k);
    }
    forall j | 0 <= j < |p| && (p[j].key in o.result || (p[j].key in ids && Stoppable(p[j].value.state)))
      ensures p[j].key in o.result <==> p[j].key in ids && Stoppable(p[j].value.state)
    {
      StopBatchReport(p, ids, p[j].key);
      FindFirst(p, p[j].key, j);
    }
  }
}
