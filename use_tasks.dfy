/** The task loader hook: loads the task data set once, after a fixed delay,
    and exposes the committed task collection with its loading and error flags. */
module UseTasks {
  import opened Wrappers
  import opened Records

  const FetchTasksError := "Error fetching tasks"

  class TasksHook {
    var tasks: seq<Task>
    var loading: bool
    var error: Option<string>
    /** The delayed fetch has been scheduled and has not yet run. */
    var timerPending: bool

    /** Initial state before the effect runs. */
    constructor ()
      ensures tasks == [] && loading && error == None && !timerPending
    {
      tasks := [];
      loading := true;
      error := None;
      timerPending := false;
    }

    /** The synchronous part of the load effect: raise the loading flag, clear the
        error and schedule the delayed fetch. The durable store is not consulted. */
    method StartLoad()
      modifies this
      ensures loading && error == None && timerPending
      ensures tasks == old(tasks)
    {
      loading := true;
      error := None;
      timerPending := true;
    }

    /** The delayed fetch: deliver the data set or record the failure; the
        loading flag is lowered whatever the outcome. */
    method FinishLoad(source: Fetch<seq<Task>>)
      requires timerPending
      modifies this
      ensures !loading && !timerPending
      ensures source.Fetched? ==> tasks == source.data && error == old(error)
      ensures source.FetchFailed? ==> tasks == old(tasks) && error == Some(FetchTasksError)
    {
      match source {
        case Fetched(data) =>
          tasks := data;
        case FetchFailed =>
          error := Some(FetchTasksError);
      }
      loading := false;
      timerPending := false;
    }
  }
}
