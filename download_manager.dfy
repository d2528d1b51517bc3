/**
 * `DownloadManager`: the pool of tasks, an insertion-ordered map from task id
 * to task, and the scheduler that starts pending tasks against the per-class
 * ceilings. Every method is tied to the rules of module Scheduling on the
 * pool's view.
 */
module DownloadManagers {
  import opened Wrappers
  import opened OrderedMaps
  import opened Tasks
  import opened Scheduling
  import opened PoolRules

  type PoolEntry = Entry<Key, WorkDownloader>

  function Objects(es: seq<PoolEntry>): set<WorkDownloader> {
    set e | e in es :: e.value
  }

  /** The scheduler's view of a sequence of pool entries. */
  function ViewsOf(es: seq<PoolEntry>): (p: PoolView)
    reads Objects(es)
    ensures |p| == |es| && Keys(p) == Keys(es)
    ensures DistinctKeys(es) ==> DistinctKeys(p)
  {
    seq(|es|, i requires 0 <= i < |es| reads Objects(es) => Entry(es[i].key, es[i].value.View()))
  }

  /** Every entry is keyed by its task's own id. */
  predicate KeyedById(es: seq<PoolEntry>)
    reads Objects(es)
  {
    forall i :: 0 <= i < |es| ==> es[i].value.id == es[i].key
  }

  /** Distinct keys and tasks keyed by their ids make the tasks distinct objects. */
  lemma DistinctObjects(es: seq<PoolEntry>)
    requires DistinctKeys(es) && KeyedById(es)
    ensures forall i, j :: 0 <= i < |es| && 0 <= j < |es| && i != j ==> es[i].value != es[j].value
  {
  }

  /** Cutting an entry out of the pool cuts it out of the view. */
  lemma ViewsOfCut(es: seq<PoolEntry>, i: nat)
    requires i < |es|
    ensures Objects(es[..i] + es[i + 1..]) <= Objects(es)
    ensures ViewsOf(es[..i] + es[i + 1..]) == ViewsOf(es)[..i] + ViewsOf(es)[i + 1..]
  {
    var d := es[..i] + es[i + 1..];
    assert forall j :: 0 <= j < |d| ==> d[j] == if j < i then es[j] else es[j + 1];
    assert forall e :: e in d ==> e in es;
  }

  /** `delete` on the pool is `delete` on its view. */
  lemma ViewsOfDelete(es: seq<PoolEntry>, k: Key)
    requires DistinctKeys(es)
    ensures Objects(Delete(es, k)) <= Objects(es)
    ensures ViewsOf(Delete(es, k)) == Delete(ViewsOf(es), k)
  {
    var p := ViewsOf(es);
    SameKeys(es, p, k);
    DeleteCutsOut(es, k);
    DeleteCutsOut(p, k);
    if Find(es, k).Some? {
      ViewsOfCut(es, Find(es, k).value);
    }
  }

  /** Appending an entry to the pool appends its view. */
  lemma ViewsOfAppend(es: seq<PoolEntry>, e: PoolEntry)
    ensures Objects(es + [e]) == Objects(es) + {e.value}
    ensures ViewsOf(es + [e]) == ViewsOf(es) + [Entry(e.key, e.value.View())]
  {
    assert forall x :: x in es + [e] <==> x in es || x == e;
  }

  /** Replacing an entry of the pool replaces its view. */
  lemma ViewsOfUpdate(es: seq<PoolEntry>, i: nat, e: PoolEntry)
    requires i < |es|
    ensures Objects(es[i := e]) <= Objects(es) + {e.value}
    ensures ViewsOf(es[i := e]) == ViewsOf(es)[i := Entry(e.key, e.value.View())]
  {
    assert forall x :: x in es[i := e] ==> x in es || x == e;
  }

  /** The entries `addDownloaders` offers: each downloader under its own id. */
  function Candidates(ds: seq<WorkDownloader>): (cs: seq<PoolEntry>)
    reads set d | d in ds
    ensures |cs| == |ds| && forall i :: 0 <= i < |ds| ==> cs[i] == Entry(ds[i].id, ds[i])
  {
    seq(|ds|, i requires 0 <= i < |ds| reads set d | d in ds => Entry(ds[i].id, ds[i]))
  }

  /** The candidates are keyed by their own ids and are the downloaders given. */
  lemma CandidatesSpec(ds: seq<WorkDownloader>)
    ensures KeyedById(Candidates(ds))
    ensures Objects(Candidates(ds)) == set d | d in ds
  {
    var cs := Candidates(ds);
    forall d | d in ds ensures d in Objects(cs) {
      var i :| 0 <= i < |ds| && ds[i] == d;
      assert cs[i] in cs;
    }
  }

  /** The view of the pool `addDownloaders` builds, read in the current state. */
  function BatchViews(es: seq<PoolEntry>, cs: seq<PoolEntry>, r: Option<Key>): (p: PoolView)
    requires DistinctKeys(es)
    reads Objects(es), Objects(cs)
    ensures DistinctKeys(p)
  {
    AddBatchSpec(es, cs, r);
    assert forall e :: e in AddBatch(es, cs, r) ==> e in es || e in cs;
    assert Objects(AddBatch(es, cs, r)) <= Objects(es) + Objects(cs);
    ViewsOf(AddBatch(es, cs, r))
  }

  /** A view that agrees with `p0` everywhere except at `i` is `p0` updated at `i`. */
  lemma UpdatedAt(p: PoolView, p0: PoolView, i: nat)
    requires |p| == |p0| && i < |p|
    requires forall j :: 0 <= j < |p| && j != i ==> p[j] == p0[j]
    ensures p == p0[i := p[i]]
  {
  }

  /** The pool `addDownloaders` builds keeps tasks keyed by their ids and holds only old tasks and the given ones. */
  lemma BatchFacts(es: seq<PoolEntry>, ds: seq<WorkDownloader>, r: Option<Key>)
    requires DistinctKeys(es) && KeyedById(es)
    ensures var t := AddBatch(es, Candidates(ds), r);
            KeyedById(t) && Objects(t) <= Objects(es) + set d | d in ds
  {
    var cs := Candidates(ds);
    CandidatesSpec(ds);
    AddBatchSpec(es, cs, r);
    var t := AddBatch(es, cs, r);
    assert forall e :: e in t ==> e in es || e in cs;
  }

  class DownloadManager {
    var pool: seq<PoolEntry>

    ghost predicate Valid()
      reads this, Objects(pool)
    {
      DistinctKeys(pool) && KeyedById(pool)
    }

    function Views(): PoolView
      reads this, Objects(pool)
    {
      ViewsOf(pool)
    }

    /** A new manager with an empty pool. */
    constructor ()
      ensures Valid() && pool == []
    {
      pool := [];
    }

    /** `getWorkDownloader`: the task under `id`, or null. */
    function GetWorkDownloader(id: Key): (w: Option<WorkDownloader>)
      reads this
      ensures w.Some? <==> HasKey(pool, id)
      ensures w.Some? ==> w.value == pool[Find(pool, id).value].value
    {
      Get(pool, id)
    }

    /** `isMultiImageDownload`, read off the task's fields. */
    function IsMultiImageDownload(w: WorkDownloader): bool
      reads w
    {
      IsMultiImage(w.shape)
    }

    /** `reachMaxDownloading`: one pass over the pool counting running tasks per class. */
    method ReachMaxDownloading() returns (full: bool)
      requires Valid()
      ensures full == ReachMax(Views())
    {
      var multi, single := 0, 0;
      var i := 0;
      while i < |pool|
        invariant 0 <= i <= |pool|
        invariant multi == RunningCount(Views()[..i], true)
        invariant single == RunningCount(Views()[..i], false)
      {
        var w := pool[i].value;
        assert Views()[..i + 1][..i] == Views()[..i];
        if w.IsDownloading() || w.IsProcessing() {
          if IsMultiImageDownload(w) {
            multi := multi + 1;
          } else {
            single := single + 1;
          }
        }
        i := i + 1;
      }
      assert Views()[..i] == Views();
      full := multi >= MaxMultiImageDownloading || single >= MaxSingleImageDownloading;
    }

    /** `canStartSpecificDownload`: room in `w`'s class among the running tasks other than `w`. */
    method CanStartSpecificDownload(w: WorkDownloader) returns (ok: bool)
      requires Valid()
      ensures ok == CanStartSpecific(Views(), w.id, w.View())
    {
      var multi, single := 0, 0;
      var isMulti := IsMultiImageDownload(w);
      var i := 0;
      while i < |pool|
        invariant 0 <= i <= |pool|
        invariant multi == RunningCountExcept(Views()[..i], true, w.id)
        invariant single == RunningCountExcept(Views()[..i], false, w.id)
      {
        var wd := pool[i].value;
        assert Views()[..i + 1][..i] == Views()[..i];
        if (wd.IsDownloading() || wd.IsProcessing()) && wd.id != w.id {
          if IsMultiImageDownload(wd) {
            multi := multi + 1;
          } else {
            single := single + 1;
          }
        }
        i := i + 1;
      }
      assert Views()[..i] == Views();
      if isMulti {
        ok := multi < MaxMultiImageDownloading;
      } else {
        ok := single < MaxSingleImageDownloading;
      }
    }

    /** The scan in `downloadNext`: the first pending task in insertion order. */
    method FindNextPending() returns (next: Option<WorkDownloader>)
      requires Valid()
      ensures next.None? <==> FirstPending(Views()).None?
      ensures next.Some? ==> next.value == pool[FirstPending(Views()).value].value
    {
      next := None;
      var i := 0;
      while i < |pool|
        invariant 0 <= i <= |pool|
        invariant next.None? <==> forall j :: 0 <= j < i ==> pool[j].value.state != Pending
        invariant next.Some? ==> exists j :: (0 <= j < i && next.value == pool[j].value
          && pool[j].value.state == Pending && forall k :: 0 <= k < j ==> pool[k].value.state != Pending)
      {
        var w := pool[i].value;
        if next.None? && w.IsPending() {
          next := Some(w);
        }
        i := i + 1;
      }
      var f := FirstPending(Views());
      assert forall j :: 0 <= j < |pool| ==> Views()[j].value.state == pool[j].value.state;
      if next.Some? {
        var j :| 0 <= j < |pool| && next.value == pool[j].value
          && pool[j].value.state == Pending && forall k :: 0 <= k < j ==> pool[k].value.state != Pending;
        assert f == Some(j);
      }
    }

    /**
     * `startWorkDownloader`: a known task that may start is started when its
     * class has room and set pending otherwise; nothing else changes.
     */
    method StartWorkDownloader(id: Key, reset: bool)
      requires Valid()
      modifies Objects(pool)
      ensures Valid() && pool == old(pool)
      ensures Views() == StartTask(old(Views()), id)
      ensures forall o :: o in Objects(pool) ==> o.statusMessage == old(o.statusMessage)
    {
      var found := GetWorkDownloader(id);
      if found.None? {
        return;
      }
      var w := found.value;
      ghost var i := Find(pool, id).value;
      ghost var p0 := Views();
      assert p0[i].value == w.View() && w.id == id;
      if !CanStartDownload(w.View()) {
        StartTaskAt(p0, i, false);
        return;
      }
      if reset {
        ResetAt(w, i);
        SpecificIgnoresTarget(p0, i, Entry(id, w.View()));
      }
      var ok := CanStartSpecificDownload(w);
      StartTaskAt(p0, i, ok);
      StartOrHoldAt(w, i, ok);
    }

    /** `workDownloader.reset()` on the task at position `i`. */
    method ResetAt(w: WorkDownloader, ghost i: nat)
      requires Valid() && i < |pool| && pool[i].value == w
      modifies w
      ensures Valid()
      ensures w.statusMessage == old(w.statusMessage)
      ensures w.id == old(w.id) && w.View() == old(w.View()).(state := Pending)
      ensures Views() == old(Views())[i := Entry(pool[i].key, w.View())]
    {
      DistinctObjects(pool);
      w.Reset();
      forall j | 0 <= j < |pool| && j != i ensures Views()[j] == old(Views())[j] {
        assert pool[j].value != w;
      }
      UpdatedAt(Views(), old(Views()), i);
    }

    /** `workDownloader.start()` when `ok`, `workDownloader.setPending()` otherwise, on the task at position `i`. */
    method StartOrHoldAt(w: WorkDownloader, ghost i: nat, ok: bool)
      requires Valid() && i < |pool| && pool[i].value == w
      modifies w
      ensures Valid()
      ensures w.statusMessage == old(w.statusMessage)
      ensures w.id == old(w.id) && w.View() == old(w.View()).(state := if ok then Downloading else Pending)
      ensures Views() == old(Views())[i := Entry(pool[i].key, w.View())]
    {
      DistinctObjects(pool);
      if ok {
        w.Start();
      } else {
        w.SetPending();
      }
      forall j | 0 <= j < |pool| && j != i ensures Views()[j] == old(Views())[j] {
        assert pool[j].value != w;
      }
      UpdatedAt(Views(), old(Views()), i);
    }

    /**
     * `downloadNext`: start the first pending task and go on while neither
     * class is at its ceiling.
     */
    method DownloadNext()
      requires Valid()
      modifies Objects(pool)
      ensures Valid() && pool == old(pool)
      ensures Views() == Scheduling.DownloadNext(old(Views()))
      ensures forall o :: o in Objects(pool) ==> o.statusMessage == old(o.statusMessage)
      decreases PendingCount(Views())
    {
      if |pool| < 1 {
        return;
      }
      ghost var p0 := Views();
      var next := FindNextPending();
      if next.None? {
        return;
      }
      var i := FirstPending(p0).value;
      StartWorkDownloader(next.value.id, false);
      DownloadNextStep(p0, i);
      var full := ReachMaxDownloading();
      if !full {
        DownloadNext();
      }
    }

    /** No task in the pool carries the id of a key the pool lacks. */
    lemma AbsentObject(w: WorkDownloader)
      requires Valid() && !HasKey(pool, w.id)
      ensures w !in Objects(pool)
    {
      forall e | e in pool ensures e.value != w {
        EntryKey(pool, e);
      }
    }

    /**
     * `addDownloader`: a task under a new id joins the end of the pool and is
     * offered a start; a known id changes nothing.
     */
    method AddDownloader(w: WorkDownloader)
      requires Valid()
      modifies this, Objects(pool), w
      ensures Valid()
      ensures pool == if old(HasKey(pool, w.id)) then old(pool) else old(pool) + [Entry(old(w.id), w)]
      ensures Views() == AddTask(old(Views()), Entry(old(w.id), old(w.View())))
    {
      if HasKey(pool, w.id) {
        return;
      }
      AbsentObject(w);
      ViewsOfAppend(pool, Entry(w.id, w));
      SetKeys(pool, w.id, w);
      pool := pool + [Entry(w.id, w)];
      StartWorkDownloader(w.id, false);
    }

    /** `addWorkDownloader` (deprecated): `set` the task under its id, replacing a known id's task in place, then offer it a start. */
    method AddWorkDownloader(w: WorkDownloader)
      requires Valid()
      modifies this, Objects(pool), w
      ensures Valid()
      ensures pool == Set(old(pool), old(w.id), w)
      ensures Views() == SetTask(old(Views()), Entry(old(w.id), old(w.View())))
    {
      ghost var p0 := Views();
      ghost var p1 := Set(p0, w.id, w.View());
      var e := Entry(w.id, w);
      SetKeys(pool, w.id, w);
      if HasKey(pool, w.id) {
        var i := Find(pool, w.id).value;
        ViewsOfUpdate(pool, i, e);
        SameKeys(pool, p0, w.id);
        assert p1 == p0[i := Entry(w.id, w.View())];
      } else {
        ViewsOfAppend(pool, e);
        SameKeys(pool, p0, w.id);
      }
      SetEntries(pool, w.id, w);
      pool := Set(pool, w.id, w);
      assert Views() == p1;
      StartWorkDownloader(w.id, false);
    }

    /**
     * `transformWorkDownloader`: detaching the listeners of the task under
     * the same id throws for an unknown id, before anything changes; a known
     * id's task is replaced in place and the new task offered a start.
     */
    method TransformWorkDownloader(w: WorkDownloader) returns (err: Option<Error>)
      requires Valid()
      modifies this, Objects(pool), w
      ensures Valid()
      ensures err.Some? <==> !old(HasKey(pool, w.id))
      ensures err.Some? ==> err.value == NullDownloader && pool == old(pool) && Views() == old(Views())
      ensures err.None? ==> pool == Set(old(pool), old(w.id), w)
      ensures err.None? ==> Views() == SetTask(old(Views()), Entry(old(w.id), old(w.View())))
    {
      var oldDownloader := GetWorkDownloader(w.id);
      if oldDownloader.None? {
        return Some(NullDownloader);
      }
      AddWorkDownloader(w);
      return None;
    }

    /**
     * The first loop of `addDownloaders`: the downloaders whose ids the pool
     * lacks, gathered with `set`, so a later downloader under a repeated id
     * replaces the earlier one in place.
     */
    method GatherAdded(ds: seq<WorkDownloader>) returns (added: seq<PoolEntry>)
      requires Valid()
      ensures added == Admit(pool, Candidates(ds))
    {
      ghost var cands := Candidates(ds);
      added := [];
      var i := 0;
      while i < |ds|
        invariant 0 <= i <= |ds|
        invariant added == Admit(pool, cands[..i])
      {
        var d := ds[i];
        assert cands[..i + 1][..i] == cands[..i] && cands[..i + 1][i] == Entry(d.id, d);
        if GetWorkDownloader(d.id).None? {
          added := Set(added, d.id, d);
        }
        i := i + 1;
      }
      assert cands[..|ds|] == cands;
    }

    /**
     * The second loop of `addDownloaders`: the entries before the one keyed
     * `id` and the entries after it, each gathered with `set`.
     */
    method SplitAround(id: Key) returns (before: seq<PoolEntry>, after: seq<PoolEntry>)
      requires Valid() && HasKey(pool, id)
      ensures before == pool[..Find(pool, id).value] && after == pool[Find(pool, id).value + 1..]
    {
      ghost var r := Find(pool, id).value;
      before, after := [], [];
      var found := false;
      var j := 0;
      while j < |pool|
        invariant 0 <= j <= |pool|
        invariant found <==> r < j
        invariant before == pool[..if found then r else j]
        invariant after == if found then pool[r + 1..j] else []
      {
        var e := pool[j];
        if e.key != id {
          if found {
            assert !HasKey(after, e.key) by {
              assert forall a :: 0 <= a < |after| ==> after[a] == pool[r + 1 + a];
            }
            assert pool[r + 1..j + 1] == pool[r + 1..j] + [e];
            after := Set(after, e.key, e.value);
          } else {
            assert !HasKey(before, e.key);
            assert pool[..j + 1] == pool[..j] + [e];
            before := Set(before, e.key, e.value);
          }
        } else {
          found := true;
        }
        j := j + 1;
      }
    }

    /**
     * `addDownloaders`: the downloaders whose ids the pool lacks are gathered
     * with `set`; with a `replace` id the pool holds, the entries before it,
     * the gathered ones and the entries after it make the new pool (the
     * replaced entry leaves it), otherwise the gathered ones are appended;
     * with `autoStart` the pool is then scheduled.
     */
    method AddDownloaders(ds: seq<WorkDownloader>, autoStart: bool, replace: Option<Key>)
      requires Valid()
      modifies this, Objects(pool), set d | d in ds
      ensures Valid()
      ensures pool == old(AddBatch(pool, Candidates(ds), replace))
      ensures !autoStart ==> Views() == old(BatchViews(pool, Candidates(ds), replace))
      ensures autoStart ==> Views() == Scheduling.DownloadNext(old(BatchViews(pool, Candidates(ds), replace)))
    {
      PlaceBatch(ds, replace);
      if autoStart {
        DownloadNext();
      }
    }

    /** The pool part of `addDownloaders`, before any scheduling. */
    method PlaceBatch(ds: seq<WorkDownloader>, replace: Option<Key>)
      requires Valid()
      modifies this
      ensures Valid()
      ensures Objects(pool) <= old(Objects(pool)) + set d | d in ds
      ensures pool == old(AddBatch(pool, Candidates(ds), replace))
      ensures Views() == old(BatchViews(pool, Candidates(ds), replace))
    {
      var next := BatchPool(ds, replace);
      Install(next);
    }

    /** The pool `addDownloaders` builds from the current one, computed without changing it. */
    method BatchPool(ds: seq<WorkDownloader>, replace: Option<Key>) returns (next: seq<PoolEntry>)
      requires Valid()
      ensures next == AddBatch(pool, Candidates(ds), replace)
      ensures DistinctKeys(next) && KeyedById(next)
      ensures Objects(next) <= Objects(pool) + set d | d in ds
    {
      BatchFacts(pool, ds, replace);
      AddBatchShape(pool, Candidates(ds), replace);
      var added := GatherAdded(ds);
      if replace.Some? && GetWorkDownloader(replace.value).Some? {
        var before, after := SplitAround(replace.value);
        next := FromEntries(before + added + after);
      } else {
        next := FromEntries(pool + added);
      }
    }

    /** Makes `next` the pool; the tasks themselves do not change. */
    method Install(next: seq<PoolEntry>)
      requires DistinctKeys(next) && KeyedById(next)
      modifies this
      ensures pool == next && Valid()
      ensures Views() == old(ViewsOf(next))
    {
      pool := next;
    }

    /** `workDownloader.stop()` on the task at position `i`: refused with `Unstoppable` while stopping or processing. */
    method StopAt(w: WorkDownloader, ghost i: nat) returns (err: Option<Error>)
      requires Valid() && i < |pool| && pool[i].value == w
      modifies w
      ensures Valid()
      ensures err.Some? <==> !Stoppable(old(w.state))
      ensures err.Some? ==> err.value == Unstoppable && Views() == old(Views())
      ensures err.None? ==> Views() == old(Views())[i := Entry(pool[i].key, old(w.View()).(state := State.Stop))]
    {
      DistinctObjects(pool);
      err := w.Stop();
      forall j | 0 <= j < |pool| && j != i ensures Views()[j] == old(Views())[j] {
        assert pool[j].value != w;
      }
      UpdatedAt(Views(), old(Views()), i);
    }

    /** `stopWorkDownloader`: a known, stoppable task is stopped; the pool is then scheduled. */
    method StopWorkDownloader(id: Key)
      requires Valid()
      modifies Objects(pool)
      ensures Valid() && pool == old(pool)
      ensures Views() == StopAndNext(old(Views()), id)
    {
      ghost var p0 := Views();
      var found := GetWorkDownloader(id);
      if found.Some? && found.value.IsStoppable() {
        ghost var i := Find(pool, id).value;
        FindFirst(p0, id, i);
        var err := StopAt(found.value, i);
      }
      assert Views() == StopTask(p0, id);
      StopTaskSpec(p0, id);
      ghost var p1 := Views();
      DownloadNext();
      assert Views() == Scheduling.DownloadNext(p1);
    }

    /** The tasks left in the pool after a delete are those of the remaining entries, none of them the deleted one. */
    lemma DeletedGone(es: seq<PoolEntry>, id: Key, w: WorkDownloader)
      requires DistinctKeys(es) && KeyedById(es) && w.id == id
      ensures DistinctKeys(Delete(es, id)) && KeyedById(Delete(es, id))
      ensures w !in Objects(Delete(es, id))
      ensures Objects(Delete(es, id)) <= Objects(es)
      ensures ViewsOf(Delete(es, id)) == Delete(ViewsOf(es), id)
    {
      DeleteSubset(es, id);
      DeleteSpec(es, id);
      ViewsOfDelete(es, id);
      var d := Delete(es, id);
      forall i | 0 <= i < |d| ensures d[i].value.id == d[i].key {
        assert d[i] in es;
        var j :| 0 <= j < |es| && es[j] == d[i];
      }
      forall e | e in Delete(es, id) ensures e.value != w {
        EntryKey(Delete(es, id), e);
      }
    }

    /**
     * The common part of `deleteWorkDownloader` and `deleteDownloads`: the
     * task keyed `id` leaves the pool, is flagged for recycling and is
     * stopped, which throws `Unstoppable` when it is processing.
     */
    method RemoveAndStop(w: WorkDownloader, id: Key) returns (err: Option<Error>)
      requires Valid() && Get(pool, id) == Some(w) && w.state != Stopping
      modifies this, w
      ensures Valid()
      ensures Views() == Delete(old(Views()), id)
      ensures Objects(pool) <= old(Objects(pool)) && w !in Objects(pool)
      ensures w.recycled && (err.Some? <==> old(w.state) == Processing)
      ensures err.Some? ==> err.value == Unstoppable
      ensures err.None? ==> w.state == State.Stop
    {
      DeletedGone(pool, id, w);
      pool := Delete(pool, id);
      w.WillRecycle();
      err := w.Stop();
    }

    /**
     * `deleteWorkDownloader`: an unknown id throws when the listeners of
     * `null` are detached; a stopping task stays; any other task leaves the
     * pool, is flagged for recycling and stopped, whose `Unstoppable` (for a
     * processing task) escapes before scheduling; otherwise the pool is
     * scheduled.
     */
    method DeleteWorkDownloader(id: Key) returns (err: Option<Error>)
      requires Valid()
      modifies this, Objects(pool)
      ensures Valid()
      ensures Outcome(Views(), err) == DeleteTask(old(Views()), id)
      ensures old(GetWorkDownloader(id)).Some? && old(GetWorkDownloader(id).value.state) != Stopping ==>
        var w := old(GetWorkDownloader(id)).value;
        w.recycled && w !in Objects(pool) && (old(w.state) != Processing ==> w.state == State.Stop)
    {
      ghost var p0 := Views();
      var found := GetWorkDownloader(id);
      if found.None? {
        return Some(NullDownloader);
      }
      var w := found.value;
      FindFirst(p0, id, Find(pool, id).value);
      if !w.IsStopping() {
        err := RemoveAndStop(w, id);
        if err.Some? {
          return;
        }
      }
      DownloadNext();
      return None;
    }

    /** `deleteDownload`: another name for `deleteWorkDownloader`. */
    method DeleteDownload(id: Key) returns (err: Option<Error>)
      requires Valid()
      modifies this, Objects(pool)
      ensures Valid()
      ensures Outcome(Views(), err) == DeleteTask(old(Views()), id)
      ensures old(GetWorkDownloader(id)).Some? && old(GetWorkDownloader(id).value.state) != Stopping ==>
        var w := old(GetWorkDownloader(id)).value;
        w.recycled && w !in Objects(pool) && (old(w.state) != Processing ==> w.state == State.Stop)
    {
      err := DeleteWorkDownloader(id);
    }

    /** One id of `deleteDownloads`, after `deleted` ids were reported. */
    method DeleteOne(id: Key, ghost deleted: seq<Key>) returns (err: Option<Error>, gone: bool)
      requires Valid()
      modifies this, Objects(pool)
      ensures Valid() && Objects(pool) <= old(Objects(pool))
      ensures DeleteStep(Outcome(old(Views()), Success(deleted)), id)
        == Outcome(Views(), if err.Some? then Failure(err.value) else Success(if gone then deleted + [id] else deleted))
    {
      ghost var q := Views();
      var found := GetWorkDownloader(id);
      gone := false;
      err := None;
      if found.Some? {
        FindFirst(q, id, Find(pool, id).value);
        if !found.value.IsStopping() {
          err := RemoveAndStop(found.value, id);
          gone := true;
        }
      }
    }

    /**
     * `deleteDownloads`: each known task that is not stopping leaves the pool,
     * is flagged for recycling and stopped, and its id is reported; an
     * `Unstoppable` from a processing task ends the batch. No scheduling
     * follows.
     */
    method DeleteDownloads(ids: seq<Key>) returns (r: Result<seq<Key>, Error>)
      requires Valid()
      modifies this, Objects(pool)
      ensures Valid()
      ensures Outcome(Views(), r) == DeleteBatch(old(Views()), ids)
    {
      ghost var p0 := Views();
      var deleted: seq<Key> := [];
      var i := 0;
      while i < |ids|
        invariant 0 <= i <= |ids|
        invariant Valid() && Objects(pool) <= old(Objects(pool))
        invariant DeleteBatch(p0, ids[..i]) == Outcome(Views(), Success(deleted))
      {
        assert ids[..i + 1][..i] == ids[..i];
        var e, gone := DeleteOne(ids[i], deleted);
        if e.Some? {
          DeleteBatchAborted(p0, ids, i + 1);
          return Failure(e.value);
        }
        if gone {
          deleted := deleted + [ids[i]];
        }
        i := i + 1;
      }
      assert ids[..i] == ids;
      return Success(deleted);
    }

    /**
     * `stopDownloads`: each known task is asked to stop; the ids of those
     * that stopped are reported and an `Unstoppable` is swallowed; the pool
     * is then scheduled.
     */
    method StopDownloads(ids: seq<Key>) returns (stopped: seq<Key>)
      requires Valid()
      modifies Objects(pool)
      ensures Valid() && pool == old(pool)
      ensures Outcome(Views(), stopped) == StopBatchAndNext(old(Views()), ids)
    {
      ghost var p0 := Views();
      stopped := [];
      var i := 0;
      while i < |ids|
        invariant 0 <= i <= |ids|
        invariant Valid() && pool == old(pool)
        invariant StopBatch(p0, ids[..i]) == Outcome(Views(), stopped)
      {
        var id := ids[i];
        assert ids[..i + 1][..i] == ids[..i];
        ghost var q := Views();
        var found := GetWorkDownloader(id);
        if found.Some? {
          var w := found.value;
          ghost var j := Find(pool, id).value;
          FindFirst(q, id, j);
          var err := StopAt(w, j);
          if err.None? {
            stopped := stopped + [w.id];
          }
        }
        i := i + 1;
      }
      assert ids[..i] == ids;
      StopBatchSpec(p0, ids);
      DownloadNext();
    }
  }
}
