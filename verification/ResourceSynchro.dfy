// The processor side of a resource synchro as the program keeps it
// (pkg/synchromanager/clustersynchro/default_resource_synchro.go): fields updated in place, the
// unbounded retry loop, and the pair of channels that start and stop the informer. Everything is
// proved against the pipeline of SyncPipeline.
module ResourceSynchro {
  import opened Common
  import opened VersionInformer
  import opened EventQueue
  import opened SyncPipeline

  // The attempts for the current event, one after the other, until it is settled.
  function Attempts(s: Pipeline, weather: seq<(Weather, Weather)>): Pipeline
    decreases |weather|
  {
    if s.current.None? || weather == [] then s
    else Attempts(Attempted(s, weather[0].0, weather[0].1, ReportsNotFound), weather[1..])
  }

  // However the storage behaves, the attempts keep what the pipeline keeps.
  lemma {:induction false} AttemptsKeepInv(s: Pipeline, weather: seq<(Weather, Weather)>)
    requires Inv(s)
    ensures Inv(Attempts(s, weather))
    decreases |weather|
  {
    if s.current.Some? && weather != [] {
      AttemptKeepsInv(s, weather[0].0, weather[0].1);
      AttemptsKeepInv(Attempted(s, weather[0].0, weather[0].1, ReportsNotFound), weather[1..]);
    }
  }

  class Synchro {
    const queue: PressureQueue
    var cache: Option<Store>
    var rvs: Store
    var stored: Store
    var isRunnable: bool
    // the current channels, the number of channels made, and those already closed
    var runnableForStorage: nat
    var stopForStorage: nat
    var made: nat
    var closed: set<nat>
    ghost var dropped: set<Key>
    ghost var informer: Feed  // what Start runs

    // One of the two channels is closed, and the flag says which.
    ghost predicate Valid()
      reads this, queue
    {
      && queue.View().Valid()
      && runnableForStorage < made && stopForStorage < made && runnableForStorage != stopForStorage
      && (forall ch :: ch in closed ==> ch < made)
      && (isRunnable <==> runnableForStorage in closed)
      && (isRunnable <==> stopForStorage !in closed)
    }

    ghost function View(current: Option<Event>, attempt: nat): Pipeline
      reads this, queue
    {
      Pipeline(cache, informer, queue.View(), current, attempt, stored, rvs, isRunnable, dropped)
    }

    constructor (queue: PressureQueue, rvs: Store)
      requires queue.View() == Queue({}, map[], [])
      ensures Valid() && this.queue == queue && View(None, 0) == Initial(rvs)
    {
      this.queue := queue;
      cache, this.rvs, stored, isRunnable, dropped, informer := None, rvs, rvs, true, {}, Absent;
      runnableForStorage, stopForStorage, made, closed := 0, 1, 2, {0};
    }

    method SetRunnableForStorage()
      requires Valid()
      modifies this`isRunnable, this`stopForStorage, this`made, this`closed
      ensures Valid() && isRunnable
    {
      isRunnable := true;
      if runnableForStorage !in closed {
        closed := closed + {runnableForStorage};
      }
      if stopForStorage in closed {
        stopForStorage := made;
        made := made + 1;
      }
    }

    method SetStopForStorage()
      requires Valid()
      modifies this`isRunnable, this`runnableForStorage, this`made, this`closed
      ensures Valid() && !isRunnable
    {
      isRunnable := false;
      if runnableForStorage in closed {
        runnableForStorage := made;
        made := made + 1;
      }
      if stopForStorage !in closed {
        closed := closed + {stopForStorage};
      }
    }

    // handleResourceEvent for a popped event. `weather` tells how the storage answers, attempt by
    // attempt; when it runs out the event is still being retried.
    method HandleResourceEvent(e: Event, converts: bool, weather: seq<(Weather, Weather)>) returns (settled: bool)
      requires Valid() && e.key in queue.processing
      modifies this, queue
      ensures Valid()
      ensures var before := old(View(Some(e), 0));
              var after := if !converts && !e.action.DeleteAction? then Settle(before, false)
                  else Attempts(before, weather);
              && settled == after.current.None?
              && View(if settled then None else Some(e), after.attempt) == after
    {
      if !converts && !e.action.DeleteAction? {
        End(e, false);
        return true;
      }
      ghost var after := Attempts(View(Some(e), 0), weather);
      var i := 0;
      assert weather[0..] == weather;
      while i < |weather|
        invariant 0 <= i <= |weather|
        invariant Valid() && e.key in queue.processing
        invariant Attempts(View(Some(e), i), weather[i..]) == after
      {
        assert weather[i..][1..] == weather[i + 1..];
        settled := TryOnce(e, i, weather[i].0, weather[i].1);
        if settled {
          return;
        }
        i := i + 1;
      }
      return false;
    }

    // The body of the retry loop: attempt number i.
    method TryOnce(e: Event, i: nat, first: Weather, second: Weather) returns (settled: bool)
      requires Valid() && e.key in queue.processing
      modifies this, queue
      ensures Valid() && (!settled ==> e.key in queue.processing)
      ensures var after := Attempted(old(View(Some(e), i)), first, second, ReportsNotFound);
              && settled == after.current.None?
              && View(if settled then None else Some(e), if settled then 0 else i + 1) == after
      // the loop goes on exactly where the storage failed in a way that may pass, whatever i is
      ensures settled <==> !Meets(old(View(Some(e), i)), Attempt(first, second), ReportsNotFound, Recoverable)
    {
      RetriesWithoutBound(View(Some(e), i), Attempt(first, second), ReportsNotFound);
      HandleIsUpsert(stored, e, first, second);
      var (next, reply) := Handle(stored, e, first, second, ReportsNotFound);
      if reply.Ok? {
        stored := next;
        rvs := Applied(rvs, e);
        WakeWhenDrained();
        End(e, true);
        return true;
      }
      if reply == Err(Canceled) {
        End(e, false);
        return true;
      }
      if reply != Err(Recoverable) {
        WakeWhenDrained();
        End(e, false);
        return true;
      }
      RetryLater(e, i);
      return false;
    }

    // After too many retries with too long a queue the informer is to stop and the queue is shortened.
    method RetryLater(ghost e: Event, i: nat)
      requires Valid() && e.key in queue.processing
      modifies this, queue
      ensures Valid() && e.key in queue.processing && View(Some(e), i + 1) == Backoff(old(View(Some(e), i)))
    {
      if i >= RETRIES && |queue.order| > RETAIN {
        if isRunnable {
          SetStopForStorage();
        }
        var _ := queue.DiscardAndRetain(RETAIN);
        informer := if informer.Attached? && cache.Some? then Detached(cache.value) else informer;
        cache, dropped := None, {};
      }
    }

    method WakeWhenDrained()
      requires Valid()
      modifies this`isRunnable, this`stopForStorage, this`made, this`closed
      ensures Valid() && isRunnable == (old(isRunnable) || queue.order == [])
    {
      if !isRunnable && |queue.order| == 0 {
        SetRunnableForStorage();
      }
    }

    // The deferred Done.
    method End(e: Event, ghost kept: bool)
      requires Valid() && e.key in queue.processing
      modifies this`dropped, queue
      ensures Valid() && View(None, 0) == Settle(old(View(Some(e), 0)), kept)
    {
      dropped := if kept || e.key in queue.items then dropped - {e.key} else dropped + {e.key};
      queue.Done(e.key);
    }

    // The part of Start that makes a new cache and runs an informer on it.
    method EnsureCache()
      requires Valid() && informer.Absent?
      modifies this`cache, this`dropped, this`informer
      ensures Valid() && View(None, 0) == Next(old(View(None, 0)), StartInformer, ReportsNotFound)
    {
      if cache.None? {
        cache, dropped := Some(rvs), {};
      }
      informer := Attached;
    }
  }
}
