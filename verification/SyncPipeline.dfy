// The sync pipeline of one resource (pkg/synchromanager/clustersynchro/default_resource_synchro.go):
// informer deltas update the version cache and fill the queue, one processor takes events from the
// queue into the storage, and `rvs` mirrors what the storage holds.
//
// The informer handles one delta per step, with its handler call, and the processor makes one storage
// attempt per step. An informer that has to stop works off what it has received before it ends. Every
// storage call may fail, and a failed call has no effect.
module SyncPipeline {
  import opened Common
  import opened VersionInformer
  import opened EventQueue

  // ---------------------------------------------------------------------------------------------
  // The storage.

  // What Update answers for a key that is not stored.
  datatype MissingUpdate = ReportsNotFound | AnswersOk

  datatype Failure = Recoverable | Unrecoverable | Canceled

  // Whether the storage is able to serve a call, and what the call answers.
  datatype Weather = Fine | Bad(failure: Failure)

  datatype Reply = Ok | Exists | NotFound | Err(failure: Failure)

  type Store = map<Key, Version>

  function Create(stored: Store, e: Event, w: Weather): (Store, Reply) {
    if w.Bad? then (stored, Err(w.failure))
    else if e.key in stored then (stored, Exists)
    else (stored[e.key := e.version], Ok)
  }

  function Update(stored: Store, e: Event, w: Weather, missing: MissingUpdate): (Store, Reply) {
    if w.Bad? then (stored, Err(w.failure))
    else if e.key in stored then (stored[e.key := e.version], Ok)
    else (stored, if missing.ReportsNotFound? then NotFound else Ok)
  }

  function Delete(stored: Store, e: Event, w: Weather): (Store, Reply) {
    if w.Bad? then (stored, Err(w.failure)) else (stored - {e.key}, Ok)
  }

  // createOrUpdateResource, updateOrCreateResource and deleteResource.
  function Handle(stored: Store, e: Event, first: Weather, second: Weather, missing: MissingUpdate): (Store, Reply) {
    match e.action
    case AddAction =>
      var (next, reply) := Create(stored, e, first);
      if reply.Exists? then Update(stored, e, second, missing) else (next, reply)
    case UpdateAction =>
      var (next, reply) := Update(stored, e, first, missing);
      if reply.NotFound? then Create(stored, e, second) else (next, reply)
    case DeleteAction => Delete(stored, e, first)
  }

  function Applied(m: Store, e: Event): Store {
    if e.action.DeleteAction? then m - {e.key} else m[e.key := e.version]
  }

  // Under the storage contract the two fallbacks make every event do what it asks for, or nothing.
  lemma HandleIsUpsert(stored: Store, e: Event, first: Weather, second: Weather)
    ensures var (next, reply) := Handle(stored, e, first, second, ReportsNotFound);
            (reply.Ok? && next == Applied(stored, e)) || (reply.Err? && next == stored)
  {
  }

  // What a storage that is able to serve it holds after an event: nothing changes but the key.
  lemma HandleAt(stored: Store, e: Event, missing: MissingUpdate)
    ensures var next := Handle(stored, e, Fine, Fine, missing).0;
            && next - {e.key} == stored - {e.key}
            && (e.key in next <==>
                !e.action.DeleteAction? && !(e.action.UpdateAction? && e.key !in stored && missing.AnswersOk?))
            && (e.key in next ==> next[e.key] == e.version)
  {
  }

  // Storing a folded event leaves what storing its two events one after the other leaves, in all cases but
  // one: under the storage contract, an update after a delete, which folding drops; with a storage that takes
  // an update of a missing key for done, an addition after a delete of a key that is not stored, which
  // folding turns into an update.
  lemma FoldingKeepsResult(stored: Store, older: Event, newer: Event, missing: MissingUpdate)
    requires older.key == newer.key
    ensures var both := Handle(Handle(stored, older, Fine, Fine, missing).0, newer, Fine, Fine, missing).0;
            Handle(stored, Compact(Some(older), newer), Fine, Fine, missing).0 == both <==>
            !(older.action.DeleteAction?
              && if missing.ReportsNotFound? then newer.action.UpdateAction?
                 else newer.action.AddAction? && newer.key !in stored)
  {
    var one := Handle(stored, older, Fine, Fine, missing).0;
    HandleAt(stored, older, missing);
    HandleAt(one, newer, missing);
    HandleAt(stored, Compact(Some(older), newer), missing);
    SameButOne(Handle(one, newer, Fine, Fine, missing).0,
               Handle(stored, Compact(Some(older), newer), Fine, Fine, missing).0, newer.key);
  }

  lemma SameButOne(a: Store, b: Store, k: Key)
    requires a - {k} == b - {k}
    ensures k in a && k in b && a[k] == b[k] ==> a == b
    ensures k !in a && k !in b ==> a == b
  {
    forall x | x != k ensures x in a <==> x in b {
      assert x in a - {k} <==> x in b - {k};
    }
    forall x | x != k && x in a ensures x in b && a[x] == b[x] {
      assert (a - {k})[x] == (b - {k})[x];
    }
  }

  // ---------------------------------------------------------------------------------------------
  // The pipeline.

  // The informer has the version cache that was the synchro's when it started. A discard takes the
  // cache from the synchro, and the informer goes on with a store of its own until it ends.
  datatype Feed = Absent | Attached | Detached(own: Store)

  // `current` is the event being processed and `attempt` the number of failed attempts for it;
  // `cache` is None after a discard. `dropped` names the keys whose latest event was given up.
  datatype Pipeline = Pipeline(
    cache: Option<Store>, informer: Feed, queue: Queue, current: Option<Event>, attempt: nat,
    stored: Store, rvs: Store, runnable: bool, dropped: set<Key>)

  datatype Step =
    | StartInformer                       // Start makes a cache if there is none, and runs an informer on it
    | Deliver(delta: Delta)               // the informer handles a delta
    | InformerEnds
    | Pop
    | ConversionFails                     // the popped object cannot be converted
    | Attempt(first: Weather, second: Weather)

  const RETRIES: nat := 5
  const RETAIN: nat := 5

  // OnAdd, OnUpdate, OnDelete and OnSync of the synchro.
  function EventOf(c: Call): Option<Event> {
    match c
    case OnAdd(item) => if item.Object? then Some(Event(AddAction, item.key, item.version)) else None
    case OnUpdate(item) => if item.Object? then Some(Event(UpdateAction, item.key, item.version)) else None
    case OnDelete(item) => if item.Malformed? then None else Some(Event(DeleteAction, item.key, ""))
    case OnSync(_) => None
  }

  // While the storage is stopped the handlers drop what the informer tells them.
  function Notify(s: Pipeline, calls: seq<Call>): Pipeline {
    if calls == [] || !s.runnable || EventOf(calls[0]).None? then s
    else
      var e := EventOf(calls[0]).value;
      s.(queue := s.queue.Put(e), dropped := s.dropped - {e.key})
  }

  // setRunnableForStorage once the queue has been worked off.
  function WakeIfDrained(s: Pipeline): Pipeline {
    s.(runnable := s.runnable || s.queue.order == [])
  }

  // The processing of the current event ends; `kept` tells whether it reached the storage.
  function Settle(s: Pipeline, kept: bool): Pipeline
    requires s.current.Some?
  {
    var k := s.current.value.key;
    s.(queue := s.queue.Finished(k), current := None, attempt := 0,
       dropped := if kept || k in s.queue.items then s.dropped - {k} else s.dropped + {k})
  }

  // Too many retries with too long a queue: stop the informer and shorten the queue.
  function Backoff(s: Pipeline): Pipeline {
    if s.attempt >= RETRIES && |s.queue.order| > RETAIN then
      s.(runnable := false, queue := s.queue.Retained(RETAIN), cache := None, dropped := {}, attempt := s.attempt + 1,
         informer := if s.informer.Attached? && s.cache.Some? then Detached(s.cache.value) else s.informer)
    else s.(attempt := s.attempt + 1)
  }

  function Attempted(s: Pipeline, first: Weather, second: Weather, missing: MissingUpdate): Pipeline
    requires s.current.Some?
  {
    var e := s.current.value;
    var (stored, reply) := Handle(s.stored, e, first, second, missing);
    if reply.Ok? then Settle(WakeIfDrained(s.(stored := stored, rvs := Applied(s.rvs, e))), true)
    else if reply == Err(Recoverable) then Backoff(s)
    else if reply == Err(Canceled) then Settle(s, false)
    else Settle(WakeIfDrained(s), false)
  }

  predicate Enabled(s: Pipeline, a: Step) {
    match a
    case StartInformer => s.informer.Absent?
    case Deliver(_) => s.informer.Detached? || (s.informer.Attached? && s.cache.Some?)
    case InformerEnds => !s.informer.Absent?
    case Pop => s.current.None? && s.queue.order != [] && s.queue.order[0] in s.queue.items
    case ConversionFails => s.current.Some? && s.attempt == 0 && !s.current.value.action.DeleteAction?
    case Attempt(_, _) => s.current.Some?
  }

  function Started(s: Pipeline): Pipeline {
    if s.cache.None? then s.(informer := Attached, cache := Some(s.rvs), dropped := {}) else s.(informer := Attached)
  }

  function Next(s: Pipeline, a: Step, missing: MissingUpdate): Pipeline
    requires Enabled(s, a)
  {
    match a
    case StartInformer => Started(s)
    case Deliver(d) =>
      if s.informer.Detached? then
        var o := HandleDelta(s.informer.own, d);
        Notify(s, o.calls).(informer := Detached(o.versions))
      else
        var o := HandleDelta(s.cache.value, d);
        Notify(s, o.calls).(cache := Some(o.versions))
    case InformerEnds => s.(informer := Absent)
    case Pop =>
      var (queue, e) := s.queue.Popped();
      s.(queue := queue, current := Some(e), attempt := 0)
    case ConversionFails => Settle(s, false)
    case Attempt(first, second) => Attempted(s, first, second, missing)
  }

  // ---------------------------------------------------------------------------------------------
  // rvs mirrors the storage.

  ghost predicate Mirrored(s: Pipeline) { s.rvs == s.stored }

  // An attempt to update a key that is not stored, with the storage able to serve it.
  predicate UpdatesMissing(s: Pipeline, a: Step) {
    a.Attempt? && a.first.Fine? && s.current.Some? && s.current.value.action.UpdateAction?
        && s.current.value.key !in s.stored
  }

  // Whatever happens to an event, and whatever else the pipeline does, rvs keeps to hold exactly the
  // stored keys with their stored versions, and a new cache starts from them. With a storage whose Update
  // answers Ok for a missing key that is so if and only if the step is no such update.
  lemma StepKeepsMirror(s: Pipeline, a: Step, missing: MissingUpdate)
    requires Enabled(s, a) && Mirrored(s)
    ensures Mirrored(Next(s, a, missing)) <==> missing.ReportsNotFound? || !UpdatesMissing(s, a)
    ensures a.StartInformer? && s.cache.None? ==> Next(s, a, missing).cache == Some(s.stored)
  {
    if a.Attempt? {
      HandleIsUpsert(s.stored, s.current.value, a.first, a.second);
      if UpdatesMissing(s, a) && missing.AnswersOk? {
        var t := Next(s, a, missing);
        assert s.current.value.key in t.rvs && s.current.value.key !in t.stored;
      }
    }
  }

  // ---------------------------------------------------------------------------------------------
  // The cache, the queue and the storage tell the same story.

  // What the storage will hold for k once everything in the pipeline has been processed.
  function Expected(s: Pipeline, k: Key): Option<Version> {
    if k in s.queue.items then Effect(s.queue.items[k])
    else if s.current.Some? && s.current.value.key == k then Effect(s.current.value)
    else Find(s.stored, k)
  }

  ghost predicate Faithful(s: Pipeline) {
    s.cache.Some? ==> forall k :: k !in s.dropped ==> Expected(s, k) == Find(s.cache.value, k)
  }

  ghost predicate QueueInv(s: Pipeline) {
    && s.queue.Valid()
    && s.queue.processing == (if s.current.Some? then {s.current.value.key} else {})
    // a key with work ahead is not a given-up key
    && (forall k :: k in s.queue.items ==> k !in s.dropped)
    && (s.current.Some? ==> s.current.value.key !in s.dropped)
  }

  // All events on their way say what is stored.
  ghost predicate Redundant(s: Pipeline) {
    && (forall k :: k in s.queue.items ==> Effect(s.queue.items[k]) == Find(s.stored, k))
    && (s.current.Some? ==> Effect(s.current.value) == Find(s.stored, s.current.value.key))
  }

  // A stopped synchro has no cache and only keys in line; a runnable one without cache has nothing new to
  // store. An informer is attached to the cache of the synchro or detached from a synchro without cache.
  ghost predicate StopInv(s: Pipeline) {
    && (!s.runnable ==> s.cache.None? && forall k :: k in s.queue.items ==> k in s.queue.order)
    && (s.runnable && s.cache.None? ==> Redundant(s))
    && (s.informer.Attached? ==> s.cache.Some?)
    && (s.informer.Detached? ==> s.cache.None?)
  }

  ghost predicate Inv(s: Pipeline) {
    Mirrored(s) && QueueInv(s) && StopInv(s) && Faithful(s)
  }

  // Start makes a new cache while the storage is stopped.
  predicate LateStart(s: Pipeline, a: Step) {
    a.StartInformer? && s.cache.None? && !s.runnable
  }

  // The event that a delta puts in the queue, if any.
  function Passed(s: Pipeline, d: Delta): Option<Event>
    requires Enabled(s, Deliver(d))
  {
    var calls := HandleDelta(if s.informer.Detached? then s.informer.own else s.cache.value, d).calls;
    if calls == [] || !s.runnable then None else EventOf(calls[0])
  }

  // A detached informer passes an event on, since the storage is runnable again, that says something else
  // than what is stored.
  predicate StaleCall(s: Pipeline, a: Step)
    requires Enabled(s, a)
  {
    && a.Deliver? && s.informer.Detached?
    && var e := Passed(s, a.delta);
       e.Some? && Effect(e.value) != Find(s.stored, e.value.key)
  }

  predicate Timely(s: Pipeline, a: Step)
    requires Enabled(s, a)
  {
    !LateStart(s, a) && !StaleCall(s, a)
  }

  // An update is never folded into a pending delete: the cache would not hold the key.
  lemma EnqueueKeepsInv(s: Pipeline, e: Event)
    requires Inv(s) && s.cache.Some?
    requires e.action.UpdateAction? ==> e.key in s.cache.value
    ensures Inv(s.(queue := s.queue.Put(e), dropped := s.dropped - {e.key}, cache := Some(Applied(s.cache.value, e))))
  {
    PutValid(s.queue, e);
    var s' := s.(queue := s.queue.Put(e), dropped := s.dropped - {e.key}, cache := Some(Applied(s.cache.value, e)));
    var pending := if e.key in s.queue.items then Some(s.queue.items[e.key]) else None;
    assert Expected(s, e.key) == Find(s.cache.value, e.key) || e.key !in s.queue.items;
    CompactKeepsNewest(pending, e);
    forall k | k !in s'.dropped ensures Expected(s', k) == Find(s'.cache.value, k) {
      if k != e.key {
        assert Expected(s', k) == Expected(s, k);
      }
    }
  }

  lemma DeltaIsOneCall(cache: Store, d: Delta)
    ensures var o := HandleDelta(cache, d);
            && (o.calls == [] || |o.calls| == 1)
            && (o.calls == [] || EventOf(o.calls[0]).None? ==> o.versions == cache)
            && (o.calls != [] && EventOf(o.calls[0]).Some? ==>
                  var e := EventOf(o.calls[0]).value;
                  o.versions == Applied(cache, e) && (e.action.UpdateAction? ==> e.key in cache))
  {
  }

  lemma DeltaOfKey(cache: Store, d: Delta)
    ensures var calls := HandleDelta(cache, d).calls;
            calls != [] && EventOf(calls[0]).Some? ==> KeyOf(d.item) == Some(EventOf(calls[0]).value.key)
  {
  }

  lemma DeliverKeepsInv(s: Pipeline, d: Delta)
    requires Inv(s) && Enabled(s, Deliver(d)) && !StaleCall(s, Deliver(d))
    ensures Inv(Next(s, Deliver(d), ReportsNotFound))
  {
    if s.informer.Attached? {
      DeltaIsOneCall(s.cache.value, d);
      var o := HandleDelta(s.cache.value, d);
      if o.calls != [] && EventOf(o.calls[0]).Some? {
        EnqueueKeepsInv(s, EventOf(o.calls[0]).value);
      }
    } else if Passed(s, d).Some? {
      RepeatKeepsInv(s, Passed(s, d).value);
    }
  }

  // A detached informer says again what is stored.
  lemma RepeatKeepsInv(s: Pipeline, e: Event)
    requires Inv(s) && s.runnable && s.cache.None? && Effect(e) == Find(s.stored, e.key)
    ensures Inv(s.(queue := s.queue.Put(e), dropped := s.dropped - {e.key}))
  {
    PutValid(s.queue, e);
    CompactKeepsNewest(if e.key in s.queue.items then Some(s.queue.items[e.key]) else None, e);
  }

  lemma SettleKeepsQueue(s: Pipeline, kept: bool)
    requires QueueInv(s) && s.current.Some?
    ensures QueueInv(Settle(s, kept))
  {
    FinishedValid(s.queue, s.current.value.key);
  }

  // An event that reached the storage.
  lemma StoredKeepsInv(s: Pipeline)
    requires Inv(s) && s.current.Some?
    ensures var e := s.current.value;
            Inv(Settle(WakeIfDrained(s.(stored := Applied(s.stored, e), rvs := Applied(s.rvs, e))), true))
  {
    var e := s.current.value;
    var s1 := WakeIfDrained(s.(stored := Applied(s.stored, e), rvs := Applied(s.rvs, e)));
    SettleKeepsQueue(s1, true);
    var s' := Settle(s1, true);
    if s.cache.Some? {
      forall k | k !in s'.dropped ensures Expected(s', k) == Expected(s, k) {
      }
    }
  }

  // An event that was given up, with or without the check that wakes the informer.
  lemma DroppedKeepsInv(s: Pipeline, wake: bool)
    requires Inv(s) && s.current.Some?
    ensures Inv(Settle(if wake then WakeIfDrained(s) else s, false))
  {
    var s1 := if wake then WakeIfDrained(s) else s;
    SettleKeepsQueue(s1, false);
    var s' := Settle(s1, false);
    if s.cache.Some? {
      forall k | k !in s'.dropped ensures Expected(s', k) == Expected(s, k) {
      }
    }
  }

  lemma BackoffKeepsInv(s: Pipeline)
    requires Inv(s) && s.current.Some?
    ensures Inv(Backoff(s))
  {
    if s.attempt >= RETRIES && |s.queue.order| > RETAIN {
      RetainedValid(s.queue, RETAIN);
    }
  }

  lemma AttemptKeepsInv(s: Pipeline, first: Weather, second: Weather)
    requires Inv(s) && s.current.Some?
    ensures Inv(Attempted(s, first, second, ReportsNotFound))
  {
    HandleIsUpsert(s.stored, s.current.value, first, second);
    StoredKeepsInv(s);
    BackoffKeepsInv(s);
    DroppedKeepsInv(s, true);
    DroppedKeepsInv(s, false);
  }

  lemma StepKeepsInv(s: Pipeline, a: Step)
    requires Inv(s) && Enabled(s, a) && Timely(s, a)
    ensures Inv(Next(s, a, ReportsNotFound))
  {
    match a
    case StartInformer =>
    case Deliver(d) => DeliverKeepsInv(s, d);
    case InformerEnds =>
    case Pop => PoppedValid(s.queue);
    case ConversionFails => DroppedKeepsInv(s, false);
    case Attempt(first, second) => AttemptKeepsInv(s, first, second);
  }

  // ---------------------------------------------------------------------------------------------
  // Runs.

  // A new synchro: rvs has just been read from the storage.
  function Initial(stored: Store): Pipeline {
    Pipeline(None, Absent, Queue({}, map[], []), None, 0, stored, stored, true, {})
  }

  ghost predicate Reaches(s: Pipeline, steps: seq<Step>, t: Pipeline, timely: bool, missing: MissingUpdate)
    decreases |steps|
  {
    if steps == [] then s == t
    else
      && Enabled(s, steps[0]) && (timely ==> Timely(s, steps[0]))
      && Reaches(Next(s, steps[0], missing), steps[1..], t, timely, missing)
  }

  lemma ReachesStep(s: Pipeline, a: Step, rest: seq<Step>, t: Pipeline, timely: bool, missing: MissingUpdate)
    requires Enabled(s, a) && (timely ==> Timely(s, a)) && Reaches(Next(s, a, missing), rest, t, timely, missing)
    ensures Reaches(s, [a] + rest, t, timely, missing)
  {
    assert ([a] + rest)[1..] == rest;
  }

  lemma ReachesOne(s: Pipeline, a: Step, timely: bool, missing: MissingUpdate)
    requires Enabled(s, a) && (timely ==> Timely(s, a))
    ensures Reaches(s, [a], Next(s, a, missing), timely, missing)
  {
    ReachesStep(s, a, [], Next(s, a, missing), timely, missing);
    assert [a] + [] == [a];
  }

  lemma {:induction false} ReachesBoth(
    s: Pipeline, a: seq<Step>, t: Pipeline, b: seq<Step>, u: Pipeline, timely: bool, missing: MissingUpdate)
    requires Reaches(s, a, t, timely, missing) && Reaches(t, b, u, timely, missing)
    ensures Reaches(s, a + b, u, timely, missing)
    decreases |a|
  {
    if a == [] {
      assert a + b == b;
    } else {
      ReachesBoth(Next(s, a[0], missing), a[1..], t, b, u, timely, missing);
      ReachesStep(s, a[0], a[1..] + b, u, timely, missing);
      assert [a[0]] + (a[1..] + b) == a + b;
    }
  }

  lemma {:induction false} RunKeepsInv(s: Pipeline, steps: seq<Step>, t: Pipeline)
    requires Inv(s) && Reaches(s, steps, t, true, ReportsNotFound)
    ensures Inv(t)
    decreases |steps|
  {
    if steps != [] {
      StepKeepsInv(s, steps[0]);
      RunKeepsInv(Next(s, steps[0], ReportsNotFound), steps[1..], t);
    }
  }

  // In every run, even one with a stale call or a late start, rvs is the stored content.
  lemma {:induction false} MirrorHolds(s: Pipeline, steps: seq<Step>, t: Pipeline, timely: bool)
    requires Mirrored(s) && Reaches(s, steps, t, timely, ReportsNotFound)
    ensures t.rvs == t.stored
    decreases |steps|
  {
    if steps != [] {
      StepKeepsMirror(s, steps[0], ReportsNotFound);
      MirrorHolds(Next(s, steps[0], ReportsNotFound), steps[1..], t, timely);
    }
  }

  // Every state along the steps has rvs true.
  ghost predicate AlwaysMirrored(s: Pipeline, steps: seq<Step>)
    decreases |steps|
  {
    && Mirrored(s)
    && (steps == [] || (Enabled(s, steps[0]) && AlwaysMirrored(Next(s, steps[0], AnswersOk), steps[1..])))
  }

  ghost predicate NeverUpdatesMissing(s: Pipeline, steps: seq<Step>)
    decreases |steps|
  {
    || steps == []
    || (&& Enabled(s, steps[0]) && !UpdatesMissing(s, steps[0])
        && NeverUpdatesMissing(Next(s, steps[0], AnswersOk), steps[1..]))
  }

  // With a storage whose Update answers Ok for a missing key, rvs is the stored content all along a run
  // if and only if no key is updated while it is not stored.
  lemma {:induction false} MirrorHoldsExactlyWhen(s: Pipeline, steps: seq<Step>, t: Pipeline)
    requires Mirrored(s) && Reaches(s, steps, t, false, AnswersOk)
    ensures AlwaysMirrored(s, steps) <==> NeverUpdatesMissing(s, steps)
    decreases |steps|
  {
    if steps != [] {
      StepKeepsMirror(s, steps[0], AnswersOk);
      var next := Next(s, steps[0], AnswersOk);
      if Mirrored(next) {
        MirrorHoldsExactlyWhen(next, steps[1..], t);
      }
    }
  }

  const EMPTY := Queue({}, map[], [])

  // One pending event, and nothing else.
  function Only(e: Event): Queue { Queue({}, map[e.key := e], [e.key]) }

  lemma PutOnly(e: Event)
    ensures EMPTY.Put(e) == Only(e)
  {
  }

  lemma PopOnly(s: Pipeline, e: Event, missing: MissingUpdate)
    requires s.queue == Only(e) && s.current.None?
    ensures Next(s, Pop, missing) == s.(queue := Queue({e.key}, map[], []), current := Some(e), attempt := 0)
  {
    assert Only(e).items - {e.key} == map[];
  }

  // The only event is taken and tried once; unless the storage asks for a retry that is its end.
  lemma HandleOnly(s: Pipeline, e: Event, first: Weather, timely: bool, missing: MissingUpdate)
    returns (steps: seq<Step>, t: Pipeline)
    requires s.queue == Only(e) && s.current.None? && (first.Fine? || first.failure.Unrecoverable?)
    ensures Reaches(s, steps, t, timely, missing)
    ensures t.queue == EMPTY && t.current.None? && t.runnable && t.cache == s.cache && t.informer == s.informer
    ensures t.stored == Handle(s.stored, e, first, Fine, missing).0
    ensures t.rvs == (if first.Fine? then Applied(s.rvs, e) else s.rvs)
    ensures t.dropped == if first.Fine? then s.dropped - {e.key} else s.dropped + {e.key}
  {
    var s1 := Next(s, Pop, missing);
    PopOnly(s, e, missing);
    t := Next(s1, Attempt(first, Fine), missing);
    assert t.queue.processing == {};
    assert Reaches(t, [], t, timely, missing);
    ReachesStep(s1, Attempt(first, Fine), [], t, timely, missing);
    ReachesStep(s, Pop, [Attempt(first, Fine)] + [], t, timely, missing);
    steps := [Pop] + ([Attempt(first, Fine)] + []);
  }

  // Such a run, from any storage and for any key not in it: the creation of an object is given up, and
  // its next update is taken for stored.
  lemma SilentUpdateBreaksMirror(stored: Store, k: Key, v: Version, w: Version) returns (steps: seq<Step>, t: Pipeline)
    requires k !in stored
    ensures Reaches(Initial(stored), steps, t, true, AnswersOk) && Idle(t)
    ensures Find(t.rvs, k) == Some(w) && Find(t.stored, k) == None && k !in t.dropped
  {
    var s1 := Next(Initial(stored), StartInformer, AnswersOk);
    var add, update := Deliver(Delta(Added, Object(k, v))), Deliver(Delta(Updated, Object(k, w)));
    var s2 := Next(s1, add, AnswersOk);
    PutOnly(Event(AddAction, k, v));
    var giveUp, s3 := HandleOnly(s2, Event(AddAction, k, v), Bad(Unrecoverable), true, AnswersOk);
    var s4 := Next(s3, update, AnswersOk);
    PutOnly(Event(UpdateAction, k, w));
    steps, t := HandleOnly(s4, Event(UpdateAction, k, w), Fine, true, AnswersOk);
    ReachesStep(s3, update, steps, t, true, AnswersOk);
    ReachesBoth(s2, giveUp, s3, [update] + steps, t, true, AnswersOk);
    steps := giveUp + ([update] + steps);
    ReachesStep(s1, add, steps, t, true, AnswersOk);
    ReachesStep(Initial(stored), StartInformer, [add] + steps, t, true, AnswersOk);
    steps := [StartInformer] + ([add] + steps);
  }

  predicate Idle(s: Pipeline) { s.queue.items == map[] && s.current.None? }

  // Whenever the queue has been worked off, the storage holds for every key exactly what the informer
  // has seen last, unless the latest event of the key was given up. Retries, fallbacks, folded events
  // and discards make no difference.
  lemma PipelineConverges(stored: Store, steps: seq<Step>, t: Pipeline)
    requires Reaches(Initial(stored), steps, t, true, ReportsNotFound) && Idle(t) && t.cache.Some?
    ensures t.rvs == t.stored
    ensures forall k :: k !in t.dropped ==> Find(t.stored, k) == Find(t.cache.value, k)
    ensures t.dropped == {} ==> t.stored == t.cache.value
  {
    RunKeepsInv(Initial(stored), steps, t);
    forall k | k !in t.dropped ensures Find(t.stored, k) == Find(t.cache.value, k) {
      assert Expected(t, k) == Find(t.stored, k);
    }
    if t.dropped == {} {
      assert forall k :: k in t.stored <==> Find(t.stored, k).Some?;
      assert forall k :: k in t.cache.value <==> Find(t.cache.value, k).Some?;
      assert t.stored.Keys == t.cache.value.Keys;
    }
  }

  // The storage call that settles the attempt fails in this way: the first call, or the second one where
  // the first found the key in the other state than it wanted.
  predicate Meets(s: Pipeline, a: Step, missing: MissingUpdate, f: Failure) {
    && a.Attempt? && s.current.Some?
    && var e := s.current.value;
       || a.first == Bad(f)
       || (a.first.Fine? && a.second == Bad(f)
           && ((e.action.AddAction? && e.key in s.stored)
               || (e.action.UpdateAction? && e.key !in s.stored && missing.ReportsNotFound?)))
  }

  lemma MeetsWhatIsReplied(s: Pipeline, a: Step, missing: MissingUpdate, f: Failure)
    requires a.Attempt? && s.current.Some?
    ensures var reply := Handle(s.stored, s.current.value, a.first, a.second, missing).1;
            (reply.Ok? || reply.Err?) && (reply == Err(f) <==> Meets(s, a, missing, f))
  {
    match s.current.value.action
    case AddAction =>
    case UpdateAction =>
    case DeleteAction =>
  }

  // A key becomes a given-up one exactly where its event cannot be converted, meets a failure that is not
  // recoverable or is canceled, and no newer event of the key is pending.
  lemma GivenUpExactlyWhen(s: Pipeline, a: Step, missing: MissingUpdate, k: Key)
    requires Enabled(s, a) && k !in s.dropped
    ensures k in Next(s, a, missing).dropped <==>
            && s.current.Some? && s.current.value.key == k && k !in s.queue.items
            && (a.ConversionFails? || Meets(s, a, missing, Unrecoverable) || Meets(s, a, missing, Canceled))
  {
    if a.Attempt? {
      MeetsWhatIsReplied(s, a, missing, Unrecoverable);
      MeetsWhatIsReplied(s, a, missing, Canceled);
      var reply := Handle(s.stored, s.current.value, a.first, a.second, missing).1;
      assert reply.Err? ==>
          reply.failure.Recoverable? || reply.failure.Unrecoverable? || reply.failure.Canceled?;
    }
  }

  // An attempt that meets a recoverable failure is followed by another one, however many there were: the
  // event is still the current one and nothing has been stored. Any other attempt is the last.
  lemma RetriesWithoutBound(s: Pipeline, a: Step, missing: MissingUpdate)
    requires Enabled(s, a) && a.Attempt?
    ensures var t := Next(s, a, missing);
            if Meets(s, a, missing, Recoverable) then
              t.current == s.current && t.attempt == s.attempt + 1 && t.stored == s.stored && t.rvs == s.rvs
            else t.current.None?
  {
    MeetsWhatIsReplied(s, a, missing, Recoverable);
  }

  // Every conversion succeeds and every failure of the storage is recoverable.
  predicate Harmless(a: Step) {
    && !a.ConversionFails?
    && (a.Attempt? ==> a.first != Bad(Unrecoverable) && a.first != Bad(Canceled))
    && (a.Attempt? ==> a.second != Bad(Unrecoverable) && a.second != Bad(Canceled))
  }

  lemma {:induction false} HarmlessGivesNothingUp(
    s: Pipeline, steps: seq<Step>, t: Pipeline, timely: bool, missing: MissingUpdate)
    requires Reaches(s, steps, t, timely, missing) && s.dropped == {}
    requires forall i :: 0 <= i < |steps| ==> Harmless(steps[i])
    ensures t.dropped == {}
    decreases |steps|
  {
    if steps != [] {
      var next := Next(s, steps[0], missing);
      assert Harmless(steps[0]);
      forall k ensures k !in next.dropped {
        GivenUpExactlyWhen(s, steps[0], missing, k);
      }
      HarmlessGivesNothingUp(next, steps[1..], t, timely, missing);
    }
  }

  // As long as conversions succeed and failures are recoverable, however many there are, nothing is given
  // up: once the queue has been worked off the storage holds exactly what the informer has seen.
  lemma HarmlessRunConverges(stored: Store, steps: seq<Step>, t: Pipeline)
    requires Reaches(Initial(stored), steps, t, true, ReportsNotFound)
    requires forall i :: 0 <= i < |steps| ==> Harmless(steps[i])
    ensures t.dropped == {}
    ensures Idle(t) && t.cache.Some? ==> t.stored == t.cache.value
  {
    HarmlessGivesNothingUp(Initial(stored), steps, t, true, ReportsNotFound);
    if Idle(t) && t.cache.Some? {
      PipelineConverges(stored, steps, t);
    }
  }

  // The processor works with a storage that answers, and nothing else happens.
  ghost predicate Works(steps: seq<Step>) {
    forall i :: 0 <= i < |steps| ==> steps[i] == Pop || steps[i] == Attempt(Fine, Fine)
  }

  // The processor goes on by itself while there is work: it takes the next event or tries the current one.
  lemma {:induction false} WorksOff(s: Pipeline) returns (steps: seq<Step>, t: Pipeline)
    requires Inv(s)
    ensures Reaches(s, steps, t, true, ReportsNotFound) && Idle(t)
    ensures Works(steps) && t.cache == s.cache && t.dropped <= s.dropped
    decreases |s.queue.items|, s.current.Some?
  {
    if Idle(s) {
      steps, t := [], s;
    } else {
      var a, next;
      if s.current.Some? {
        a := Attempt(Fine, Fine);
        next := AttemptWorks(s);
      } else {
        a := Pop;
        next := PopWorks(s);
      }
      steps, t := WorksOff(next);
      WorksLonger(s, a, next, steps, t);
      steps := [a] + steps;
    }
  }

  lemma WorksLonger(s: Pipeline, a: Step, next: Pipeline, steps: seq<Step>, t: Pipeline)
    requires Reaches(s, [a], next, true, ReportsNotFound) && Reaches(next, steps, t, true, ReportsNotFound)
    requires (a == Pop || a == Attempt(Fine, Fine)) && Works(steps)
    ensures Reaches(s, [a] + steps, t, true, ReportsNotFound) && Works([a] + steps)
  {
    ReachesBoth(s, [a], next, steps, t, true, ReportsNotFound);
  }

  // The current event is stored, and its key is in line again if it has another one.
  lemma AttemptWorks(s: Pipeline) returns (t: Pipeline)
    requires Inv(s) && s.current.Some?
    ensures Reaches(s, [Attempt(Fine, Fine)], t, true, ReportsNotFound) && Inv(t)
    ensures t.cache == s.cache && t.dropped <= s.dropped && t.current.None? && t.queue.items == s.queue.items
  {
    t := Next(s, Attempt(Fine, Fine), ReportsNotFound);
    HandleIsUpsert(s.stored, s.current.value, Fine, Fine);
    assert Inv(t) by { AttemptKeepsInv(s, Fine, Fine); }
    ReachesOne(s, Attempt(Fine, Fine), true, ReportsNotFound);
  }

  // Without a current event every pending one is in line.
  lemma PopWorks(s: Pipeline) returns (t: Pipeline)
    requires Inv(s) && s.current.None? && s.queue.items != map[]
    ensures Reaches(s, [Pop], t, true, ReportsNotFound) && Inv(t)
    ensures t.cache == s.cache && t.dropped == s.dropped && |t.queue.items| < |s.queue.items|
  {
    var pending :| pending in s.queue.items;
    assert pending in s.queue.order;
    t := Next(s, Pop, ReportsNotFound);
    assert Inv(t) by { StepKeepsInv(s, Pop); }
    ReachesOne(s, Pop, true, ReportsNotFound);
    var k := s.queue.order[0];
    assert (s.queue.items - {k}).Keys == s.queue.items.Keys - {k};
    assert |(s.queue.items - {k}).Keys| < |s.queue.items.Keys|;
  }

  // From every state of a timely run the processor brings the storage to what the informer has seen, for
  // every key whose latest event has not been given up, with a working storage and nothing else.
  lemma StorageCatchesUp(stored: Store, steps: seq<Step>, s: Pipeline) returns (more: seq<Step>, t: Pipeline)
    requires Reaches(Initial(stored), steps, s, true, ReportsNotFound)
    ensures Reaches(s, more, t, true, ReportsNotFound) && Idle(t) && t.cache == s.cache
    ensures Works(more)
    ensures s.cache.Some? ==> forall k :: k !in s.dropped ==> Find(t.stored, k) == Find(s.cache.value, k)
  {
    RunKeepsInv(Initial(stored), steps, s);
    more, t := WorksOff(s);
    ReachesBoth(Initial(stored), steps, s, more, t, true, ReportsNotFound);
    if s.cache.Some? {
      PipelineConverges(stored, steps + more, t);
    }
  }

  // The one case in which folding loses an event does not occur in a timely run.
  lemma UpdateNeverMeetsPendingDelete(stored: Store, steps: seq<Step>, t: Pipeline, d: Delta)
    requires Reaches(Initial(stored), steps, t, true, ReportsNotFound)
    requires Enabled(t, Deliver(d)) && Timely(t, Deliver(d))
    ensures var e := Passed(t, d);
            e.Some? && e.value.action.UpdateAction? && e.value.key in t.queue.items ==>
              !t.queue.items[e.value.key].action.DeleteAction?
  {
    RunKeepsInv(Initial(stored), steps, t);
    if Passed(t, d).Some? && t.informer.Attached? {
      DeltaIsOneCall(t.cache.value, d);
      var k := Passed(t, d).value.key;
      assert k in t.queue.items ==> Expected(t, k) == Find(t.cache.value, k);
    }
  }

  // ---------------------------------------------------------------------------------------------
  // What a start or a call at the wrong moment does.

  // Everything in line can be stored, and the last event wakes the informer. `z` is left alone.
  ghost predicate Drainable(s: Pipeline, z: Key) {
    && QueueInv(s) && !s.runnable && (s.current.Some? || s.queue.order != [])
    && (forall k :: k in s.queue.items ==> k in s.queue.order)
    && z !in s.queue.items && z !in s.dropped
    && (s.current.Some? ==> s.current.value.key != z)
  }

  lemma DrainOne(s: Pipeline, z: Key)
    requires Drainable(s, z) && s.current.Some?
    ensures var t := Next(s, Attempt(Fine, Fine), ReportsNotFound);
            && QueueInv(t) && t.current.None? && t.cache == s.cache && t.informer == s.informer
            && Find(t.stored, z) == Find(s.stored, z) && z !in t.dropped && (Mirrored(s) ==> Mirrored(t))
            && if s.queue.order == [] then Idle(t) && t.runnable
               else Drainable(t, z) && |t.queue.order| == |s.queue.order|
  {
    HandleIsUpsert(s.stored, s.current.value, Fine, Fine);
    FinishedValid(s.queue, s.current.value.key);
    assert s.current.value.key !in s.queue.order;
  }

  lemma {:induction false} Drain(s: Pipeline, z: Key) returns (steps: seq<Step>, t: Pipeline)
    requires Drainable(s, z)
    ensures Reaches(s, steps, t, true, ReportsNotFound) && Idle(t) && t.runnable && QueueInv(t)
    ensures t.cache == s.cache && t.informer == s.informer
    ensures Find(t.stored, z) == Find(s.stored, z) && z !in t.dropped && (Mirrored(s) ==> Mirrored(t))
    decreases |s.queue.order|, s.current.Some?
  {
    var a := if s.current.Some? then Attempt(Fine, Fine) else Pop;
    var next := Next(s, a, ReportsNotFound);
    if s.current.Some? {
      DrainOne(s, z);
      if s.queue.order == [] {
        steps, t := [a], next;
        assert Reaches(next, [], t, true, ReportsNotFound);
        return;
      }
    } else {
      PoppedValid(s.queue);
    }
    var rest;
    rest, t := Drain(next, z);
    ReachesStep(s, a, rest, t, true, ReportsNotFound);
    steps := [a] + rest;
  }

  // The next failure discards events.
  ghost predicate AboutToDiscard(s: Pipeline, z: Key) {
    && Inv(s) && s.current.Some? && s.attempt >= RETRIES && |s.queue.order| > RETAIN
    && z !in s.queue.items && z != s.current.value.key
  }

  lemma Discard(s: Pipeline, z: Key)
    requires AboutToDiscard(s, z)
    ensures var t := Next(s, Attempt(Bad(Recoverable), Fine), ReportsNotFound);
            && t == Backoff(s) && Inv(t) && Drainable(t, z) && t.cache.None? && !t.informer.Attached?
            && t.stored == s.stored && (s.informer.Attached? ==> t.informer == Detached(s.cache.value))
  {
    HandleIsUpsert(s.stored, s.current.value, Bad(Recoverable), Fine);
    RetainedValid(s.queue, RETAIN);
    BackoffKeepsInv(s);
  }

  // Every late start makes such a run: the new informer fills the new cache while the handlers drop its
  // calls, and nothing resets that cache. In the end an object is in the cache and not in the storage,
  // with the synchro running again and no event given up.
  lemma LateStartDiverges(s: Pipeline, z: Key, v: Version) returns (steps: seq<Step>, t: Pipeline)
    requires Inv(s) && Enabled(s, StartInformer) && LateStart(s, StartInformer) && !Stalled(s)
    requires z !in s.queue.items && (s.current.Some? ==> s.current.value.key != z) && z !in s.stored
    ensures Reaches(Next(s, StartInformer, ReportsNotFound), steps, t, true, ReportsNotFound)
    ensures Idle(t) && t.runnable && t.cache.Some? && z !in t.dropped
    ensures Find(t.cache.value, z) == Some(v) && Find(t.stored, z) == None
  {
    var arrive := Deliver(Delta(Added, Object(z, v)));
    var s1 := Next(s, StartInformer, ReportsNotFound);
    var s2 := Next(s1, arrive, ReportsNotFound);
    steps, t := Drain(s2, z);
    ReachesStep(s1, arrive, steps, t, true, ReportsNotFound);
    steps := [arrive] + steps;
  }

  // Start checks that the storage is runnable and only later makes the cache. From every state about to
  // discard without an informer, the processor may stop the storage in between.
  lemma LateRebuildLosesObject(s: Pipeline, z: Key, v: Version) returns (steps: seq<Step>, t: Pipeline)
    requires AboutToDiscard(s, z) && s.runnable && s.informer.Absent? && z !in s.stored
    ensures Reaches(s, steps, t, false, ReportsNotFound)
    ensures Idle(t) && t.runnable && t.cache.Some? && z !in t.dropped
    ensures Find(t.cache.value, z) == Some(v) && Find(t.stored, z) == None
  {
    var fail := Attempt(Bad(Recoverable), Fine);
    Discard(s, z);
    var s1 := Next(s, fail, ReportsNotFound);
    steps, t := LateStartDiverges(s1, z, v);
    Untimed(Next(s1, StartInformer, ReportsNotFound), steps, t);
    ReachesStep(s1, StartInformer, steps, t, false, ReportsNotFound);
    ReachesStep(s, fail, [StartInformer] + steps, t, false, ReportsNotFound);
    steps := [fail] + ([StartInformer] + steps);
  }

  lemma {:induction false} Untimed(s: Pipeline, steps: seq<Step>, t: Pipeline)
    requires Reaches(s, steps, t, true, ReportsNotFound)
    ensures Reaches(s, steps, t, false, ReportsNotFound)
    decreases |steps|
  {
    if steps != [] {
      Untimed(Next(s, steps[0], ReportsNotFound), steps[1..], t);
    }
  }

  // From every state about to discard, the retained events may be stored before the old informer has
  // ended: the synchro is runnable and idle, without cache and with the informer detached.
  lemma InformerOutlivesDiscard(s: Pipeline, z: Key) returns (steps: seq<Step>, t: Pipeline)
    requires AboutToDiscard(s, z) && s.informer.Attached?
    ensures Reaches(s, steps, t, true, ReportsNotFound) && Inv(t)
    ensures Idle(t) && t.runnable && t.informer == Detached(s.cache.value) && Find(t.stored, z) == Find(s.stored, z)
  {
    var fail := Attempt(Bad(Recoverable), Fine);
    Discard(s, z);
    var s1 := Next(s, fail, ReportsNotFound);
    steps, t := Drain(s1, z);
    ReachesStep(s, fail, steps, t, true, ReportsNotFound);
    steps := [fail] + steps;
  }

  lemma IdleQueue(s: Pipeline)
    requires QueueInv(s) && Idle(s)
    ensures s.queue == EMPTY
  {
    LineHasEvents(s.queue);
  }

  lemma LineHasEvents(q: Queue)
    requires q.Valid()
    ensures q.order != [] ==> q.items != map[]
  {
    if q.order != [] {
      assert q.order[0] in q.items;
    }
  }

  // In such a state every event that is passed on makes a run, timely but for the call, that ends with the
  // queue worked off and nothing given up, in which the storage has what the event says and the cache what
  // was stored before: they agree on the key if and only if the call was not stale.
  lemma StaleCallDiverges(s: Pipeline, d: Delta) returns (steps: seq<Step>, t: Pipeline)
    requires Inv(s) && Idle(s) && Enabled(s, Deliver(d)) && s.informer.Detached? && Passed(s, d).Some?
    ensures var next := Next(s, Deliver(d), ReportsNotFound);
            Reaches(next, steps, t, true, ReportsNotFound) && Idle(t) && t.runnable && t.cache.Some? && t.dropped == {}
    ensures var e := Passed(s, d).value;
            Find(t.stored, e.key) == Effect(e) && Find(t.cache.value, e.key) == Find(s.stored, e.key)
  {
    var e := Passed(s, d).value;
    IdleQueue(s);
    PutOnly(e);
    var s1 := Next(s, Deliver(d), ReportsNotFound);
    var s2 := Next(s1, InformerEnds, ReportsNotFound);
    var s3 := Next(s2, StartInformer, ReportsNotFound);
    HandleIsUpsert(s.stored, e, Fine, Fine);
    steps, t := HandleOnly(s3, e, Fine, true, ReportsNotFound);
    ReachesStep(s2, StartInformer, steps, t, true, ReportsNotFound);
    ReachesStep(s1, InformerEnds, [StartInformer] + steps, t, true, ReportsNotFound);
    steps := [InformerEnds] + ([StartInformer] + steps);
  }

  // The key has no event on its way, and storage and cache do not agree on it.
  ghost predicate Apart(s: Pipeline, z: Key) {
    && QueueInv(s) && z !in s.queue.items && (s.current.Some? ==> s.current.value.key != z)
    && s.cache.Some? && !s.informer.Detached? && Find(s.stored, z) != Find(s.cache.value, z)
  }

  lemma SettledApart(s: Pipeline, stored: Store, kept: bool, z: Key)
    requires Apart(s, z) && s.current.Some? && Find(stored, z) == Find(s.stored, z)
    ensures Apart(Settle(s.(stored := stored), kept), z)
  {
    SettleKeepsQueue(s.(stored := stored), kept);
  }

  lemma AttemptApart(s: Pipeline, first: Weather, second: Weather, z: Key)
    requires Apart(s, z) && s.current.Some? && Attempted(s, first, second, ReportsNotFound).cache.Some?
    ensures Apart(Attempted(s, first, second, ReportsNotFound), z)
  {
    HandleIsUpsert(s.stored, s.current.value, first, second);
    var stored := Handle(s.stored, s.current.value, first, second, ReportsNotFound).0;
    var woken := WakeIfDrained(s.(rvs := Applied(s.rvs, s.current.value)));
    SettledApart(woken, stored, true, z);
    SettledApart(WakeIfDrained(s), s.stored, false, z);
    SettledApart(s, s.stored, false, z);
  }

  lemma DeliverApart(s: Pipeline, d: Delta, z: Key)
    requires Apart(s, z) && Enabled(s, Deliver(d)) && KeyOf(d.item) != Some(z)
    ensures Apart(Next(s, Deliver(d), ReportsNotFound), z)
  {
    DeltaIsOneCall(s.cache.value, d);
    if Passed(s, d).Some? {
      var e := Passed(s, d).value;
      DeltaOfKey(s.cache.value, d);
      assert e.key != z;
      PutValid(s.queue, e);
      var t := Next(s, Deliver(d), ReportsNotFound);
      assert t == s.(queue := s.queue.Put(e), dropped := s.dropped - {e.key}, cache := Some(Applied(s.cache.value, e)));
    }
  }

  // They stay so until the informer has something to say of the key or a discard takes the cache.
  lemma StaysApart(s: Pipeline, a: Step, z: Key)
    requires Apart(s, z) && Enabled(s, a) && (a.Deliver? ==> KeyOf(a.delta.item) != Some(z))
    requires Next(s, a, ReportsNotFound).cache.Some?
    ensures Apart(Next(s, a, ReportsNotFound), z)
  {
    if a.Attempt? {
      AttemptApart(s, a.first, a.second, z);
    } else if a.ConversionFails? {
      SettledApart(s, s.stored, false, z);
    } else if a.Pop? {
      PoppedValid(s.queue);
    } else if a.Deliver? {
      DeliverApart(s, a.delta, z);
    }
  }

  // A stale delete of an object that the cluster has again: the update of the new informer is folded
  // into the pending delete, and the object is gone from the storage while the cache has it.
  lemma StaleDeleteSwallowsUpdate(s: Pipeline, z: Key, v: Version) returns (steps: seq<Step>, t: Pipeline)
    requires Inv(s) && Idle(s) && s.runnable && s.informer.Detached? && z in s.stored
    ensures Reaches(s, steps, t, false, ReportsNotFound) && Idle(t) && t.runnable && t.cache.Some? && z !in t.dropped
    ensures Find(t.cache.value, z) == Some(v) && Find(t.stored, z) == None
  {
    var first, s1 := StaleDeletePends(s, z, v);
    var rest;
    rest, t := HandleOnly(s1, Event(DeleteAction, z, ""), Fine, false, ReportsNotFound);
    ReachesBoth(s, first, s1, rest, t, false, ReportsNotFound);
    steps := first + rest;
  }

  lemma StaleDeletePends(s: Pipeline, z: Key, v: Version) returns (steps: seq<Step>, t: Pipeline)
    requires Inv(s) && Idle(s) && s.runnable && s.informer.Detached? && z in s.stored
    ensures Reaches(s, steps, t, false, ReportsNotFound)
    ensures t.queue == Only(Event(DeleteAction, z, "")) && t.current.None?
    ensures t.cache.Some? && Find(t.cache.value, z) == Some(v)
  {
    var gone, back := Deliver(Delta(Deleted, Object(z, v))), Deliver(Delta(Updated, Object(z, v)));
    IdleQueue(s);
    PutOnly(Event(DeleteAction, z, ""));
    var s1 := Next(s, gone, ReportsNotFound);
    var s2 := Next(s1, InformerEnds, ReportsNotFound);
    var s3 := Next(s2, StartInformer, ReportsNotFound);
    t := Next(s3, back, ReportsNotFound);
    assert t.queue == Only(Event(DeleteAction, z, ""));
    ReachesStep(s3, back, [], t, false, ReportsNotFound);
    ReachesStep(s2, StartInformer, [back] + [], t, false, ReportsNotFound);
    steps := [StartInformer] + ([back] + []);
    ReachesStep(s1, InformerEnds, steps, t, false, ReportsNotFound);
    ReachesStep(s, gone, [InformerEnds] + steps, t, false, ReportsNotFound);
    steps := [gone] + ([InformerEnds] + steps);
  }

  // ---------------------------------------------------------------------------------------------
  // A stop that is never lifted.

  // The storage is stopped and no event is left whose end would lift the stop.
  predicate Stalled(s: Pipeline) { !s.runnable && s.current.None? && s.queue.order == [] }

  lemma StalledForever(s: Pipeline, a: Step, missing: MissingUpdate)
    requires Stalled(s) && Enabled(s, a)
    ensures Stalled(Next(s, a, missing)) && Next(s, a, missing).stored == s.stored
  {
  }

  // The synchro stalls exactly when the last event in line ends by a failed conversion (or by the
  // shutdown of the synchro) while the storage is stopped.
  lemma StallsExactlyOn(s: Pipeline, a: Step)
    requires Inv(s) && Enabled(s, a) && Timely(s, a) && !Stalled(s)
    ensures Stalled(Next(s, a, ReportsNotFound)) <==>
            && !s.runnable && s.queue.order == []
            && (a.ConversionFails? ||
                (a.Attempt? && Handle(s.stored, s.current.value, a.first, a.second, ReportsNotFound).1 ==
                    Err(Canceled)))
  {
    if a.Attempt? {
      HandleIsUpsert(s.stored, s.current.value, a.first, a.second);
    } else if a.Deliver? && s.informer.Attached? {
      DeltaIsOneCall(s.cache.value, a.delta);
    }
  }

  // ---------------------------------------------------------------------------------------------
  // All of this happens: runs from a new synchro.

  // The informer has found objects with these keys, and nothing is stored of them yet.
  ghost predicate Filled(s: Pipeline, stored: Store, keys: seq<Key>) {
    && s.informer.Attached? && s.cache.Some? && s.current.None? && s.runnable && s.stored == stored && s.dropped == {}
    && s.queue.processing == {} && s.queue.order == keys
    && (forall k :: k in s.queue.items <==> k in keys)
    && (forall k :: k in s.queue.items ==> s.queue.items[k].action.AddAction?)
    && (forall k :: k !in keys ==> Find(s.cache.value, k) == Find(stored, k))
  }

  // Keys that are not stored.
  ghost predicate NewKeys(stored: Store, keys: seq<Key>) {
    && (forall i, j :: 0 <= i < j < |keys| ==> keys[i] != keys[j])
    && forall i :: 0 <= i < |keys| ==> keys[i] !in stored
  }

  lemma FillOne(s: Pipeline, stored: Store, keys: seq<Key>, k: Key, v: Version)
    requires Filled(s, stored, keys) && k !in keys && k !in stored
    ensures Filled(Next(s, Deliver(Delta(Added, Object(k, v))), ReportsNotFound), stored, keys + [k])
  {
    assert Find(s.cache.value, k) == None;
    var e := Event(AddAction, k, v);
    var t := Next(s, Deliver(Delta(Added, Object(k, v))), ReportsNotFound);
    assert t == s.(queue := s.queue.Put(e), dropped := s.dropped - {k}, cache := Some(s.cache.value[k := v]));
    assert t.queue == Queue({}, s.queue.items[k := e], keys + [k]);
  }

  lemma {:induction false} Fill(stored: Store, keys: seq<Key>, v: Version) returns (steps: seq<Step>, t: Pipeline)
    requires NewKeys(stored, keys)
    ensures Reaches(Initial(stored), steps, t, true, ReportsNotFound) && Filled(t, stored, keys)
    decreases |keys|
  {
    if keys == [] {
      steps, t := [StartInformer], Next(Initial(stored), StartInformer, ReportsNotFound);
      assert Reaches(t, [], t, true, ReportsNotFound);
    } else {
      var init, k := keys[..|keys| - 1], keys[|keys| - 1];
      var s;
      steps, s := Fill(stored, init, v);
      var arrive := Deliver(Delta(Added, Object(k, v)));
      t := Next(s, arrive, ReportsNotFound);
      FillOne(s, stored, init, k, v);
      assert init + [k] == keys;
      assert Reaches(t, [], t, true, ReportsNotFound);
      ReachesStep(s, arrive, [], t, true, ReportsNotFound);
      ReachesBoth(Initial(stored), steps, s, [arrive] + [], t, true, ReportsNotFound);
      steps := steps + ([arrive] + []);
    }
  }

  // Failed attempts before the first discard only count.
  lemma {:induction false} Fails(s: Pipeline, n: nat) returns (steps: seq<Step>)
    requires s.current.Some? && s.attempt + n <= RETRIES
    ensures Reaches(s, steps, s.(attempt := s.attempt + n), true, ReportsNotFound)
    decreases n
  {
    var fail := Attempt(Bad(Recoverable), Fine);
    if n == 0 {
      steps := [];
    } else {
      var next := s.(attempt := s.attempt + 1);
      assert Next(s, fail, ReportsNotFound) == next;
      steps := Fails(next, n - 1);
      assert next.(attempt := next.attempt + (n - 1)) == s.(attempt := s.attempt + n);
      ReachesStep(s, fail, steps, s.(attempt := s.attempt + n), true, ReportsNotFound);
      steps := [fail] + steps;
    }
  }

  // A synchro finds more objects than a discard retains while the storage is unavailable.
  lemma ComesToDiscard(stored: Store, keys: seq<Key>, v: Version, z: Key) returns (steps: seq<Step>, t: Pipeline)
    requires NewKeys(stored, keys) && |keys| > RETAIN + 1 && z !in keys
    ensures Reaches(Initial(stored), steps, t, true, ReportsNotFound) && AboutToDiscard(t, z)
    ensures t.runnable && t.informer.Attached? && t.stored == stored && t.dropped == {}
    ensures Find(t.cache.value, z) == Find(stored, z)
    ensures forall k :: k in t.queue.items ==> t.queue.items[k].action.AddAction?
  {
    var s;
    var first;
    first, s := Fill(stored, keys, v);
    var popped := Next(s, Pop, ReportsNotFound);
    var fails := Fails(popped, RETRIES);
    t := popped.(attempt := RETRIES);
    ReachesStep(s, Pop, fails, t, true, ReportsNotFound);
    ReachesBoth(Initial(stored), first, s, [Pop] + fails, t, true, ReportsNotFound);
    steps := first + ([Pop] + fails);
    RunKeepsInv(Initial(stored), steps, t);
    assert t.current.value.key == keys[0] && keys[0] in keys;
    assert t.queue.order == keys[1..];
  }

  // An object of the old informer is stored, and the cache of the new one does not know it.
  lemma StaleCallRun(stored: Store, keys: seq<Key>, v: Version, z: Key) returns (steps: seq<Step>, t: Pipeline)
    requires NewKeys(stored, keys) && |keys| > RETAIN + 1 && z !in keys && z !in stored
    ensures Reaches(Initial(stored), steps, t, false, ReportsNotFound)
    ensures Idle(t) && t.runnable && t.cache.Some? && t.dropped == {}
    ensures Find(t.stored, z) == Some(v) && Find(t.cache.value, z) == None
  {
    var s1, s2;
    var second, third;
    steps, s1 := ComesToDiscard(stored, keys, v, z);
    second, s2 := InformerOutlivesDiscard(s1, z);
    var d := Delta(Added, Object(z, v));
    assert Passed(s2, d) == Some(Event(AddAction, z, v));
    third, t := StaleCallDiverges(s2, d);
    Untimed(Initial(stored), steps, s1);
    Untimed(s1, second, s2);
    Untimed(Next(s2, Deliver(d), ReportsNotFound), third, t);
    ReachesStep(s2, Deliver(d), third, t, false, ReportsNotFound);
    ReachesBoth(s1, second, s2, [Deliver(d)] + third, t, false, ReportsNotFound);
    ReachesBoth(Initial(stored), steps, s1, second + ([Deliver(d)] + third), t, false, ReportsNotFound);
    steps := steps + (second + ([Deliver(d)] + third));
  }

  // A stored object is deleted by the old informer, and its update by the new one is lost.
  lemma SwallowedUpdateRun(stored: Store, keys: seq<Key>, v: Version, z: Key) returns (steps: seq<Step>, t: Pipeline)
    requires NewKeys(stored, keys) && |keys| > RETAIN + 1 && z !in keys && z in stored
    ensures Reaches(Initial(stored), steps, t, false, ReportsNotFound)
    ensures Idle(t) && t.runnable && t.cache.Some? && z !in t.dropped
    ensures Find(t.cache.value, z) == Some(v) && Find(t.stored, z) == None
  {
    var s1, s2;
    var second, third;
    steps, s1 := ComesToDiscard(stored, keys, v, z);
    second, s2 := InformerOutlivesDiscard(s1, z);
    third, t := StaleDeleteSwallowsUpdate(s2, z, v);
    Untimed(Initial(stored), steps, s1);
    Untimed(s1, second, s2);
    ReachesBoth(s1, second, s2, third, t, false, ReportsNotFound);
    ReachesBoth(Initial(stored), steps, s1, second + third, t, false, ReportsNotFound);
    steps := steps + (second + third);
  }

  // Start is called again while the storage fails, and makes its cache too late.
  lemma LateStartRun(stored: Store, keys: seq<Key>, v: Version, z: Key) returns (steps: seq<Step>, t: Pipeline)
    requires NewKeys(stored, keys) && |keys| > RETAIN + 1 && z !in keys && z !in stored
    ensures Reaches(Initial(stored), steps, t, false, ReportsNotFound)
    ensures Idle(t) && t.runnable && t.cache.Some? && z !in t.dropped
    ensures Find(t.cache.value, z) == Some(v) && Find(t.stored, z) == None
  {
    var s1;
    var second;
    steps, s1 := ComesToDiscard(stored, keys, v, z);
    var s2 := Next(s1, InformerEnds, ReportsNotFound);
    second, t := LateRebuildLosesObject(s2, z, v);
    Untimed(Initial(stored), steps, s1);
    ReachesStep(s1, InformerEnds, second, t, false, ReportsNotFound);
    ReachesBoth(Initial(stored), steps, s1, [InformerEnds] + second, t, false, ReportsNotFound);
    steps := steps + ([InformerEnds] + second);
  }

  // A stopped synchro with objects in line that cannot be converted.
  ghost predicate Unconvertible(s: Pipeline) {
    && QueueInv(s) && !s.runnable && s.current.None?
    && (forall k :: k in s.queue.items ==> k in s.queue.order && s.queue.items[k].action.AddAction?)
  }

  lemma {:induction false} ConversionsFail(s: Pipeline) returns (steps: seq<Step>, t: Pipeline)
    requires Unconvertible(s)
    ensures Reaches(s, steps, t, true, ReportsNotFound) && Stalled(t)
    decreases |s.queue.order|
  {
    if s.queue.order == [] {
      steps, t := [], s;
    } else {
      PoppedValid(s.queue);
      var s1 := Next(s, Pop, ReportsNotFound);
      SettleKeepsQueue(s1, false);
      var s2 := Next(s1, ConversionFails, ReportsNotFound);
      assert s1.current.value.key !in s1.queue.items;
      steps, t := ConversionsFail(s2);
      ReachesStep(s1, ConversionFails, steps, t, true, ReportsNotFound);
      ReachesStep(s, Pop, [ConversionFails] + steps, t, true, ReportsNotFound);
      steps := [Pop] + ([ConversionFails] + steps);
    }
  }

  // After a discard the event that is being tried is stored.
  lemma LeavesUnconvertible(s: Pipeline, z: Key)
    requires AboutToDiscard(s, z) && forall k :: k in s.queue.items ==> s.queue.items[k].action.AddAction?
    ensures Unconvertible(Attempted(Backoff(s), Fine, Fine, ReportsNotFound))
  {
    Discard(s, z);
    var t := Backoff(s);
    RetainedValid(s.queue, RETAIN);
    HandleIsUpsert(t.stored, t.current.value, Fine, Fine);
    SettleKeepsQueue(t, true);
    assert t.current.value.key !in t.queue.items;
  }

  // The retained objects cannot be converted: the synchro stays stopped for good.
  lemma StallRun(stored: Store, keys: seq<Key>, v: Version, z: Key) returns (steps: seq<Step>, t: Pipeline)
    requires NewKeys(stored, keys) && |keys| > RETAIN + 1 && z !in keys
    ensures Reaches(Initial(stored), steps, t, true, ReportsNotFound) && Stalled(t)
  {
    var s1;
    var second;
    var fail, fine := Attempt(Bad(Recoverable), Fine), Attempt(Fine, Fine);
    steps, s1 := ComesToDiscard(stored, keys, v, z);
    Discard(s1, z);
    LeavesUnconvertible(s1, z);
    var s2 := Next(s1, fail, ReportsNotFound);
    var s3 := Next(s2, fine, ReportsNotFound);
    second, t := ConversionsFail(s3);
    ReachesStep(s2, fine, second, t, true, ReportsNotFound);
    ReachesStep(s1, fail, [fine] + second, t, true, ReportsNotFound);
    ReachesBoth(Initial(stored), steps, s1, [fail] + ([fine] + second), t, true, ReportsNotFound);
    steps := steps + ([fail] + ([fine] + second));
  }
}
