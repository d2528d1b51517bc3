/**
 * The task record every downloader shares (`WorkDownloader`): its identity,
 * lifecycle state, status message and options. `WorkDownloader.js` itself
 * declares only the states pending, downloading, error and finish and
 * defines none of the state predicates and setters the download manager
 * and the bookmark downloaders call (`setStart`, `setProcessing`,
 * `setFinish`, `setError`, `setPending`, `reset`, `isStoppable`,
 * `willRecycle`, ...). Those, and the states processing, stopping and
 * stop, follow the system's design of the download state machine:
 * pending, downloading, processing, stopping, stop, error and finish.
 */
module Tasks {
  import opened Wrappers
  import opened Strings

  /** A task id as a pool key; `None` is the `null` id of a fresh task. */
  type Key = Option<string>

  datatype State = Pending | Downloading | Processing | Stopping | Stop | Error | Finish

  /** The states `WorkDownloader.state` itself declares. */
  const DeclaredStates: set<State> := {Pending, Downloading, Error, Finish}

  /** A value of a JavaScript options object; `JUndefined` is a property set to `undefined`. */
  datatype JsValue = JStr(s: string) | JNum(n: int) | JBool(b: bool) | JUndefined

  /** A JavaScript options object: property names to values. */
  type Options = map<string, JsValue>

  /** `options[key]`, `undefined` when absent. */
  function Prop(o: Options, key: string): JsValue {
    if key in o then o[key] else JUndefined
  }

  /** How a value reads once converted to a string (`String(v)`, a template literal). */
  function Text(v: JsValue): string {
    match v
    case JStr(s) => s
    case JNum(n) => IntToString(n)
    case JBool(b) => if b then "true" else "false"
    case JUndefined => "undefined"
  }

  predicate Truthy(v: JsValue) {
    match v
    case JStr(s) => s != ""
    case JNum(n) => n != 0
    case JBool(b) => b
    case JUndefined => false
  }

  /**
   * What `isMultiImageDownload` inspects: the length of an `images` array
   * (when there is one), `context.pageCount`, and `toJSON().total`.
   */
  datatype Shape = Shape(images: Option<nat>, pageCount: Option<int>, total: Option<int>)

  const NoShape := Shape(None, None, None)

  /** A task can be asked to stop unless it is already stopping or inside a processing step. */
  predicate Stoppable(s: State) {
    s != Stopping && s != Processing
  }

  /** What the scheduler sees of one task. */
  datatype TaskView = TaskView(state: State, shape: Shape, recycled: bool)

  class WorkDownloader {
    var id: Key
    var state: State
    var statusMessage: string
    var options: Options
    var typeName: Option<string>
    /** Set by `willRecycle`: the task is slated for removal. */
    var recycled: bool
    var shape: Shape

    /** A new task: null id, pending, empty status message, empty options, no type. */
    constructor ()
      ensures id == None && state == Pending && statusMessage == "" && options == map[]
      ensures typeName == None && !recycled && shape == NoShape
    {
      id := None;
      state := Pending;
      statusMessage := "";
      options := map[];
      typeName := None;
      recycled := false;
      shape := NoShape;
    }

    /** `WorkDownloader.createDownloader`: a new pending task with the given id and options. */
    static method CreateDownloader(workId: Key, options: Options) returns (w: WorkDownloader)
      ensures fresh(w)
      ensures w.id == workId && w.options == options
      ensures w.state == Pending && w.statusMessage == "" && w.typeName == None
      ensures !w.recycled && w.shape == NoShape
    {
      w := new WorkDownloader();
      w.id := workId;
      w.options := options;
    }

    function View(): TaskView
      reads this
    {
      TaskView(state, shape, recycled)
    }

    predicate IsPending()
      reads this
    {
      state == Pending
    }

    predicate IsDownloading()
      reads this
    {
      state == Downloading
    }

    predicate IsProcessing()
      reads this
    {
      state == Processing
    }

    predicate IsStopping()
      reads this
    {
      state == Stopping
    }

    predicate IsStoppable()
      reads this
    {
      Stoppable(state)
    }

    /** `setStart`, which every concrete downloader's `start` performs first. */
    method Start()
      modifies this
      ensures state == Downloading
      ensures id == old(id) && statusMessage == old(statusMessage) && options == old(options)
      ensures recycled == old(recycled) && shape == old(shape)
    {
      state := Downloading;
    }

    method SetPending()
      modifies this
      ensures state == Pending
      ensures id == old(id) && statusMessage == old(statusMessage) && options == old(options)
      ensures recycled == old(recycled) && shape == old(shape)
    {
      state := Pending;
    }

    /** Back to pending, so that a finished, stopped or failed task can be retried. */
    method Reset()
      modifies this
      ensures state == Pending
      ensures id == old(id) && statusMessage == old(statusMessage) && options == old(options)
      ensures recycled == old(recycled) && shape == old(shape)
    {
      state := Pending;
    }

    method WillRecycle()
      modifies this
      ensures recycled
      ensures id == old(id) && state == old(state) && statusMessage == old(statusMessage)
      ensures options == old(options) && shape == old(shape)
    {
      recycled := true;
    }

    method SetProcessing(message: string)
      modifies this
      ensures state == Processing && statusMessage == message
      ensures id == old(id) && options == old(options) && recycled == old(recycled) && shape == old(shape)
    {
      state := Processing;
      statusMessage := message;
    }

    method SetFinish()
      modifies this
      ensures state == Finish
      ensures id == old(id) && statusMessage == old(statusMessage) && options == old(options)
      ensures recycled == old(recycled) && shape == old(shape)
    {
      state := Finish;
    }

    method SetError(message: string)
      modifies this
      ensures state == Error && statusMessage == message
      ensures id == old(id) && options == old(options) && recycled == old(recycled) && shape == old(shape)
    {
      state := Error;
      statusMessage := message;
    }

    /**
     * `stop`: refused with `Unstoppable` while stopping or processing;
     * otherwise the task passes through `stopping` and ends in `stop`.
     */
    method Stop() returns (err: Option<Error>)
      modifies this
      ensures err.Some? <==> !old(IsStoppable())
      ensures err.Some? ==> err.value == Unstoppable && state == old(state)
      ensures err.None? ==> state == State.Stop
      ensures id == old(id) && statusMessage == old(statusMessage) && options == old(options)
      ensures recycled == old(recycled) && shape == old(shape)
    {
      if !IsStoppable() {
        return Some(Unstoppable);
      }
      state := Stopping;
      state := State.Stop;
      return None;
    }
  }
}
