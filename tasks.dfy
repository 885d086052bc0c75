/** The background task runner's bookkeeping: which task ids have a cancel
    event and a future registered, run sequentially. Events and futures are
    tokens into the runner's stores of flags, so that a run that was
    replaced keeps its own event and future. The thread pool itself, the
    lock and the logger are not modelled. */
module Tasks {
  import opened Wrappers

  /** What a worker put on its result queue when it raised. */
  const TaskErrorSentinel: string := "__TASK_ERROR__"

  class TaskRunner {
    /** `_active_futures`: task id to the token of its future. */
    var activeFutures: map<string, nat>
    /** `_cancel_events`: task id to the token of its cancel event. */
    var cancelEvents: map<string, nat>
    /** Whether each event ever made is set, by token. */
    var eventSet: seq<bool>
    /** Whether each future ever made is done, by token. */
    var futureDone: seq<bool>
    /** The task id each future was submitted under, by token: the id its
        done callback cleans up. */
    var futureTask: seq<string>
    /** Whether the pool has been shut down. */
    var isShutdown: bool

    /** Every registered token names an event or future that exists, and
        the future registered for an id was submitted under that id. */
    predicate Valid()
      reads this
    {
      && |futureTask| == |futureDone|
      && (forall t :: t in cancelEvents ==> cancelEvents[t] < |eventSet|)
      && (forall t :: t in activeFutures ==> activeFutures[t] < |futureDone| && futureTask[activeFutures[t]] == t)
    }

    constructor ()
      ensures Valid()
      ensures activeFutures == map[] && cancelEvents == map[]
      ensures eventSet == [] && futureDone == [] && futureTask == [] && !isShutdown
    {
      activeFutures := map[];
      cancelEvents := map[];
      eventSet := [];
      futureDone := [];
      futureTask := [];
      isShutdown := false;
    }

    /** `is_running`: a future is registered for the id and it is not done. */
    predicate IsRunning(taskId: string)
      requires Valid()
      reads this
    {
      taskId in activeFutures && !futureDone[activeFutures[taskId]]
    }

    /** `submit`: the id's current cancel event, if any, is set and replaced
        by a fresh unset one handed to the worker; then the pool takes the
        job and its future is registered. A pool that was shut down refuses
        the job: the fresh event stays registered and no future is made. */
    method Submit(taskId: string) returns (event: nat, future: Option<nat>)
      requires Valid()
      modifies this
      ensures Valid()
      ensures event == |old(eventSet)|
      ensures eventSet == (if taskId in old(cancelEvents) then old(eventSet)[old(cancelEvents)[taskId] := true]
                           else old(eventSet)) + [false]
      ensures cancelEvents == old(cancelEvents)[taskId := event]
      ensures old(isShutdown) ==> future.None? && activeFutures == old(activeFutures)
      ensures old(isShutdown) ==> futureDone == old(futureDone) && futureTask == old(futureTask)
      ensures !old(isShutdown) ==>
                && future == Some(|old(futureDone)|)
                && futureDone == old(futureDone) + [false]
                && futureTask == old(futureTask) + [taskId]
                && activeFutures == old(activeFutures)[taskId := future.value]
                && IsRunning(taskId)
      ensures isShutdown == old(isShutdown)
    {
      event := |eventSet|;
      if taskId in cancelEvents {
        eventSet := eventSet[cancelEvents[taskId] := true];
      }
      eventSet := eventSet + [false];
      cancelEvents := cancelEvents[taskId := event];
      if isShutdown {
        future := None;
      } else {
        var f := |futureDone|;
        futureDone := futureDone + [false];
        futureTask := futureTask + [taskId];
        activeFutures := activeFutures[taskId := f];
        future := Some(f);
      }
    }

    /** `_cleanup`: both entries for the id are dropped, whichever run
        registered them. */
    method Cleanup(taskId: string)
      requires Valid()
      modifies this
      ensures Valid()
      ensures activeFutures == old(activeFutures) - {taskId}
      ensures cancelEvents == old(cancelEvents) - {taskId}
      ensures eventSet == old(eventSet) && futureDone == old(futureDone)
      ensures futureTask == old(futureTask) && isShutdown == old(isShutdown)
      ensures !IsRunning(taskId)
    {
      activeFutures := activeFutures - {taskId};
      cancelEvents := cancelEvents - {taskId};
    }

    /** A job ends: its future becomes done and its done callback cleans up
        the id it was submitted under. */
    method Finish(future: nat)
      requires Valid() && future < |futureDone| && !futureDone[future]
      modifies this
      ensures Valid()
      ensures futureDone == old(futureDone)[future := true]
      ensures activeFutures == old(activeFutures) - {futureTask[future]}
      ensures cancelEvents == old(cancelEvents) - {futureTask[future]}
      ensures eventSet == old(eventSet) && futureTask == old(futureTask) && isShutdown == old(isShutdown)
      ensures !IsRunning(futureTask[future])
    {
      futureDone := futureDone[future := true];
      Cleanup(futureTask[future]);
    }

    /** `cancel`: sets the id's event and answers true exactly when one is
        registered. */
    method Cancel(taskId: string) returns (b: bool)
      requires Valid()
      modifies this
      ensures Valid()
      ensures b <==> taskId in old(cancelEvents)
      ensures taskId in old(cancelEvents) ==> eventSet == old(eventSet)[old(cancelEvents)[taskId] := true]
      ensures !b ==> eventSet == old(eventSet)
      ensures activeFutures == old(activeFutures) && cancelEvents == old(cancelEvents)
      ensures futureDone == old(futureDone) && futureTask == old(futureTask) && isShutdown == old(isShutdown)
    {
      if taskId in cancelEvents {
        eventSet := eventSet[cancelEvents[taskId] := true];
        b := true;
      } else {
        b := false;
      }
    }

    /** `shutdown`: every registered event is set, no other event changes,
        and the pool refuses new jobs. */
    method Shutdown()
      requires Valid()
      modifies this
      ensures Valid()
      ensures |eventSet| == |old(eventSet)|
      ensures forall t :: t in cancelEvents ==> eventSet[cancelEvents[t]]
      ensures forall e :: 0 <= e < |eventSet| && e !in cancelEvents.Values ==> eventSet[e] == old(eventSet)[e]
      ensures forall e :: 0 <= e < |eventSet| && old(eventSet)[e] ==> eventSet[e]
      ensures activeFutures == old(activeFutures) && cancelEvents == old(cancelEvents)
      ensures futureDone == old(futureDone) && futureTask == old(futureTask) && isShutdown
    {
      var pending := cancelEvents.Keys;
      while pending != {}
        invariant Valid() && pending <= cancelEvents.Keys
        invariant cancelEvents == old(cancelEvents) && activeFutures == old(activeFutures)
        invariant futureDone == old(futureDone) && futureTask == old(futureTask)
        invariant |eventSet| == |old(eventSet)|
        invariant forall t :: t in cancelEvents && t !in pending ==> eventSet[cancelEvents[t]]
        invariant forall e :: 0 <= e < |eventSet| && e !in cancelEvents.Values ==> eventSet[e] == old(eventSet)[e]
        invariant forall e :: 0 <= e < |eventSet| && old(eventSet)[e] ==> eventSet[e]
        decreases pending
      {
        var t :| t in pending;
        eventSet := eventSet[cancelEvents[t] := true];
        pending := pending - {t};
      }
      isShutdown := true;
    }
  }

  /** A job submitted again while it runs, whose first run then ends: the
      first run's cleanup drops the second run's entries, so `is_running`
      answers false although the second run's future is not done, and its
      event can no longer be reached by `cancel`. */
  method ResubmitThenFirstEnds(r: TaskRunner, taskId: string) returns (first: nat, second: nat)
    requires r.Valid() && !r.isShutdown
    modifies r
    ensures r.Valid()
    ensures first < second < |r.futureDone|
    ensures r.futureDone[first] && !r.futureDone[second]
    ensures r.futureTask[second] == taskId
    ensures !r.IsRunning(taskId) && taskId !in r.cancelEvents
  {
    var e1, f1 := r.Submit(taskId);
    var e2, f2 := r.Submit(taskId);
    first, second := f1.value, f2.value;
    r.Finish(first);
  }

  /** How the worker's own call ended. */
  datatype Outcome<T> = Returned(value: T) | Raised(error: string)

  /** A result queue: what was put on it, in order. Items other than error
      reports are modelled only by their text. */
  class ResultQueue {
    var items: seq<(string, string)>

    constructor ()
      ensures items == []
    {
      items := [];
    }

    method Put(item: (string, string))
      modifies this
      ensures items == old(items) + [item]
    {
      items := items + [item];
    }
  }

  /** What the safe wrapper adds to a queue for a call that ended so. */
  function ErrorReports<T>(outcome: Outcome<T>): (r: seq<(string, string)>)
    ensures outcome.Returned? <==> r == []
    ensures outcome.Raised? ==> r == [(TaskErrorSentinel, outcome.error)]
  {
    if outcome.Raised? then [(TaskErrorSentinel, outcome.error)] else []
  }

  /** The wrapper `_make_safe_worker` puts around a worker: a value is passed
      through; an exception is reported on the result queue, when there is
      one, and raised again. */
  method RunSafely<T>(outcome: Outcome<T>, resultQueue: ResultQueue?) returns (r: Outcome<T>)
    modifies resultQueue
    ensures r == outcome
    ensures resultQueue != null ==> resultQueue.items == old(resultQueue.items) + ErrorReports(outcome)
  {
    if outcome.Raised? && resultQueue != null {
      resultQueue.Put((TaskErrorSentinel, outcome.error));
    }
    r := outcome;
  }
}
