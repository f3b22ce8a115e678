// The watcher of the memory storage (pkg/storage/memorystorage/v2/cache_watcher.go): which watch
// event a store event becomes under a filter, and what a watcher delivers whatever the choices of
// its selects and whenever it is stopped.
module WatchDelivery {
  import opened Common

  type Key = string

  // Labels and fields are what filters look at; `data` stands for the rest of an object.
  datatype Obj = Obj(labels: map<string, string>, fields: map<string, string>, data: nat)

  type Filter = (Key, Obj) -> bool

  datatype EventType = Added | Modified | Deleted

  // A store event. `prev` is the object it replaces.
  datatype CacheEvent = CacheEvent(kind: EventType, key: Key, obj: Obj, prev: Option<Obj>, indexRV: nat)

  datatype WatchEvent = WatchEvent(kind: EventType, key: Key, obj: Obj)

  // convertToWatchEvent
  function Convert(filter: Filter, e: CacheEvent): Option<WatchEvent> {
    var cur := !e.kind.Deleted? && filter(e.key, e.obj);
    var was := e.prev.Some? && filter(e.key, e.prev.value);
    if cur && !was then Some(WatchEvent(Added, e.key, e.obj))
    else if cur && was then Some(WatchEvent(Modified, e.key, e.obj))
    else if was then Some(WatchEvent(Deleted, e.key, e.prev.value))
    else None
  }

  function ConvertAll(filter: Filter, events: seq<CacheEvent>): seq<WatchEvent> {
    if events == [] then []
    else
      var init := ConvertAll(filter, events[..|events| - 1]);
      match Convert(filter, events[|events| - 1])
      case None => init
      case Some(w) => init + [w]
  }

  // ---------------------------------------------------------------------------------------------
  // Filtered views.

  type Store = map<Key, Obj>

  function Find(store: Store, k: Key): Option<Obj> {
    if k in store then Some(store[k]) else None
  }

  function Apply(store: Store, e: CacheEvent): Store {
    if e.kind.Deleted? then store - {e.key} else store[e.key := e.obj]
  }

  function ApplyAll(store: Store, events: seq<CacheEvent>): Store {
    if events == [] then store else Apply(ApplyAll(store, events[..|events| - 1]), events[|events| - 1])
  }

  // Every event carries the object it really replaces.
  ghost predicate Truthful(store: Store, events: seq<CacheEvent>) {
    forall i :: 0 <= i < |events| ==> events[i].prev == Find(ApplyAll(store, events[..i]), events[i].key)
  }

  function Filtered(filter: Filter, store: Store): Store {
    map k | k in store && filter(k, store[k]) :: store[k]
  }

  // A client that keeps the objects it is told about. It refuses an addition of what it holds, a
  // modification or deletion of what it does not hold, and a deletion of anything else than it holds.
  function Receive(held: Store, w: WatchEvent): Option<Store> {
    match w.kind
    case Added => if w.key in held then None else Some(held[w.key := w.obj])
    case Modified => if w.key in held then Some(held[w.key := w.obj]) else None
    case Deleted => if w.key in held && held[w.key] == w.obj then Some(held - {w.key}) else None
  }

  function Replay(held: Store, events: seq<WatchEvent>): Option<Store> {
    if events == [] then Some(held)
    else
      match Replay(held, events[..|events| - 1])
      case None => None
      case Some(before) => Receive(before, events[|events| - 1])
  }

  lemma ReplayOne(held: Store, events: seq<WatchEvent>, w: WatchEvent)
    ensures Replay(held, events + [w]) == match Replay(held, events) case None => None case Some(h) => Receive(h, w)
  {
    assert (events + [w])[..|events|] == events;
  }

  lemma OneEventKeepsView(filter: Filter, store: Store, e: CacheEvent)
    requires e.prev == Find(store, e.key)
    ensures var view, next := Filtered(filter, store), Filtered(filter, Apply(store, e));
            match Convert(filter, e)
            case None => next == view
            case Some(w) => Receive(view, w) == Some(next)
  {
    var view, next := Filtered(filter, store), Filtered(filter, Apply(store, e));
    match Convert(filter, e)
    case None => assert next == view;
    case Some(w) =>
      if w.kind.Deleted? {
        assert next == view - {e.key};
      } else {
        assert next == view[e.key := e.obj];
      }
  }

  // For every filter and every truthful history, a client that starts from the filtered store and
  // replays the converted events holds exactly the stored objects that pass the filter.
  lemma {:induction false} ReplayShowsFilteredStore(filter: Filter, store: Store, events: seq<CacheEvent>)
    requires Truthful(store, events)
    ensures Replay(Filtered(filter, store), ConvertAll(filter, events)) ==
            Some(Filtered(filter, ApplyAll(store, events)))
  {
    if events != [] {
      var n := |events| - 1;
      var init, e := events[..n], events[n];
      assert forall i :: 0 <= i < n ==> init[..i] == events[..i];
      ReplayShowsFilteredStore(filter, store, init);
      OneEventKeepsView(filter, ApplyAll(store, init), e);
      if Convert(filter, e).Some? {
        ReplayOne(Filtered(filter, store), ConvertAll(filter, init), Convert(filter, e).value);
      }
    }
  }

  // ---------------------------------------------------------------------------------------------
  // Delivery.

  // The input events that come after the interval.
  function Above(input: seq<CacheEvent>, indexRV: nat): seq<CacheEvent> {
    if input == [] then []
    else
      var init := Above(input[..|input| - 1], indexRV);
      if input[|input| - 1].indexRV > indexRV then init + [input[|input| - 1]] else init
  }

  // The greatest index of the interval, or the requested one.
  function LastIndex(interval: seq<CacheEvent>, indexRV: nat): (r: nat)
    ensures indexRV <= r && (forall i :: 0 <= i < |interval| ==> interval[i].indexRV <= r)
    ensures r == indexRV || (exists i :: 0 <= i < |interval| && interval[i].indexRV == r)
  {
    if interval == [] then indexRV
    else
      var init := LastIndex(interval[..|interval| - 1], indexRV);
      if interval[|interval| - 1].indexRV > init then interval[|interval| - 1].indexRV else init
  }

  // Everything the watcher is meant to see, in order.
  function Stream(interval: seq<CacheEvent>, input: seq<CacheEvent>, indexRV: nat): seq<CacheEvent> {
    interval + Above(input, LastIndex(interval, indexRV))
  }

  lemma ConvertOne(filter: Filter, events: seq<CacheEvent>, e: CacheEvent)
    ensures ConvertAll(filter, events + [e]) ==
            ConvertAll(filter, events) + (match Convert(filter, e) case None => [] case Some(w) => [w])
  {
    assert (events + [e])[..|events|] == events;
  }

  lemma ConvertAtMostOne(filter: Filter, events: seq<CacheEvent>, sent: seq<CacheEvent>)
    requires |sent| <= 1
    ensures ConvertAll(filter, events + sent) == ConvertAll(filter, events) + ConvertAll(filter, sent)
  {
    if sent == [] {
      assert events + sent == events;
    } else {
      ConvertOne(filter, events, sent[0]);
      ConvertOne(filter, [], sent[0]);
      assert sent == [sent[0]] == [] + [sent[0]];
    }
  }

  lemma {:induction false} ConvertPrefix(filter: Filter, a: seq<CacheEvent>, b: seq<CacheEvent>)
    ensures ConvertAll(filter, a) <= ConvertAll(filter, a + b)
  {
    if b == [] {
      assert a + b == a;
    } else {
      ConvertPrefix(filter, a, b[..|b| - 1]);
      ConvertOne(filter, a + b[..|b| - 1], b[|b| - 1]);
      assert a + b == a + b[..|b| - 1] + [b[|b| - 1]];
    }
  }

  lemma AbovePrefix(input: seq<CacheEvent>, i: nat, indexRV: nat)
    requires i < |input|
    ensures Above(input[..i + 1], indexRV) ==
            Above(input[..i], indexRV) + (if input[i].indexRV > indexRV then [input[i]] else [])
  {
    assert input[..i + 1][..i] == input[..i];
  }

  lemma {:induction false} AboveTake(input: seq<CacheEvent>, i: nat, indexRV: nat)
    requires i <= |input|
    ensures Above(input[..i], indexRV) <= Above(input, indexRV)
    decreases |input| - i
  {
    if i == |input| {
      assert input[..i] == input;
    } else {
      AbovePrefix(input, i, indexRV);
      AboveTake(input, i + 1, indexRV);
    }
  }

  // What happens when the watcher comes to the next event of the interval or of the input: nothing; the
  // interval turns out to be invalid, the input is closed or the context is done; another goroutine has
  // stopped the watcher; or it does so between the two selects of the event, and then `sends` says which
  // ready case the second one takes.
  datatype Moment = Quiet | SourceEnds | StopsBefore | StopsMeanwhile(sends: bool)

  // The first moment that is not quiet.
  function FirstNoise(schedule: seq<Moment>): (p: nat)
    ensures p <= |schedule| && (forall i :: 0 <= i < p ==> schedule[i].Quiet?)
    ensures p < |schedule| ==> !schedule[p].Quiet?
  {
    if schedule == [] || !schedule[0].Quiet? then 0
    else
      var p := 1 + FirstNoise(schedule[1..]);
      assert forall i :: 0 < i < p ==> schedule[i] == schedule[1..][i - 1];
      p
  }

  // How many events are passed on: those before the first moment that is not quiet, and the one at that
  // moment if the last select sends it.
  function Reached(schedule: seq<Moment>): (n: nat)
    ensures n <= |schedule|
  {
    var p := FirstNoise(schedule);
    if p < |schedule| && schedule[p] == StopsMeanwhile(true) then p + 1 else p
  }

  // The part of the stream that the first n events of interval and input make up.
  function Portion(interval: seq<CacheEvent>, input: seq<CacheEvent>, indexRV: nat, n: nat): seq<CacheEvent>
    requires n <= |interval| + |input|
  {
    if n <= |interval| then interval[..n] else Stream(interval, input[..n - |interval|], indexRV)
  }

  lemma PortionIsPrefix(filter: Filter, interval: seq<CacheEvent>, input: seq<CacheEvent>, indexRV: nat, n: nat)
    requires n <= |interval| + |input|
    ensures ConvertAll(filter, Portion(interval, input, indexRV, n)) <=
            ConvertAll(filter, Stream(interval, input, indexRV))
    ensures n == |interval| + |input| ==> Portion(interval, input, indexRV, n) == Stream(interval, input, indexRV)
  {
    var part, whole := Portion(interval, input, indexRV, n), Stream(interval, input, indexRV);
    if n > |interval| {
      AboveTake(input, n - |interval|, LastIndex(interval, indexRV));
      assert n == |interval| + |input| ==> input[..n - |interval|] == input;
    } else {
      assert n == |interval| + |input| ==> input == [] && interval[..n] == interval;
    }
    assert whole == part + whole[|part|..];
    ConvertPrefix(filter, part, whole[|part|..]);
  }

  // One more event of the interval, or of the input.
  lemma PortionOne(interval: seq<CacheEvent>, input: seq<CacheEvent>, indexRV: nat, n: nat)
    requires n < |interval| + |input|
    ensures Portion(interval, input, indexRV, n + 1) == Portion(interval, input, indexRV, n) + (
              if n < |interval| then [interval[n]]
              else if input[n - |interval|].indexRV > LastIndex(interval, indexRV) then [input[n - |interval|]]
              else [])
  {
    if n >= |interval| {
      var j := n - |interval|;
      AbovePrefix(input, j, LastIndex(interval, indexRV));
      assert j == 0 ==> interval + Above(input[..0], LastIndex(interval, indexRV)) == interval[..n];
    }
  }

  class CacheWatcher {
    const filter: Filter
    var result: seq<WatchEvent>
    var done: bool       // the done channel is closed
    var inputClosed: bool
    var stopped: bool
    var closes: nat      // how many times the two channels were closed

    constructor (filter: Filter)
      ensures this.filter == filter && result == [] && !done && Valid()
    {
      this.filter := filter;
      result, done, inputClosed, stopped, closes := [], false, false, false, 0;
    }

    ghost predicate Valid()
      reads this
    {
      stopped == done == inputClosed && closes == (if stopped then 1 else 0)
    }

    // However often the watcher is stopped, its channels are closed once.
    method StopLocked()
      requires Valid()
      modifies this`stopped, this`done, this`inputClosed, this`closes
      ensures Valid() && stopped
    {
      if !stopped {
        stopped := true;
        done, inputClosed, closes := true, true, closes + 1;
      }
    }

    // Another goroutine stops the watcher at this moment, or does not.
    method Elsewhere(stops: bool)
      requires Valid()
      modifies this`stopped, this`done, this`inputClosed, this`closes
      ensures Valid() && done == (old(done) || stops)
    {
      if stops {
        StopLocked();
      }
    }

    // The two selects. An event is lost only when the watcher is stopped, and then everything after
    // it is lost too.
    method SendWatchCacheEvent(event: CacheEvent, moment: Moment)
      requires Valid() && !moment.SourceEnds?
      modifies this
      ensures Valid() && done == (old(done) || !moment.Quiet?)
      ensures result == if !old(done) && (moment.Quiet? || moment == StopsMeanwhile(true))
                        then old(result) + ConvertAll(filter, [event]) else old(result)
    {
      ConvertOne(filter, [], event);
      assert [] + [event] == [event];
      Elsewhere(moment.StopsBefore?);
      var converted := Convert(filter, event);
      if converted.None? {
        Elsewhere(moment.StopsMeanwhile?);
        return;
      }
      if done {
        Elsewhere(moment.StopsMeanwhile?);
        return;
      }
      Elsewhere(moment.StopsMeanwhile?);
      if !done || moment.sends {
        result := result + [converted.value];
      }
    }

    // After n events of interval and input: exactly those before the first moment that is not quiet have
    // been passed on, and the watcher is stopped if that moment is over.
    ghost predicate Delivered(interval: seq<CacheEvent>, input: seq<CacheEvent>, requested: nat,
                              schedule: seq<Moment>, n: nat)
      requires n <= |schedule| == |interval| + |input|
      reads this
    {
      && (done <==> FirstNoise(schedule) < n)
      && result == ConvertAll(filter, Portion(interval, input, requested, if done then Reached(schedule) else n))
    }

    // What the watcher does at one moment carries it on to the next.
    lemma DeliveredOne(interval: seq<CacheEvent>, input: seq<CacheEvent>, requested: nat, schedule: seq<Moment>,
                       n: nat, wasDone: bool, before: seq<WatchEvent>, sent: seq<CacheEvent>)
      requires n < |schedule| == |interval| + |input| && !schedule[n].SourceEnds?
      requires Portion(interval, input, requested, n + 1) == Portion(interval, input, requested, n) + sent
      requires |sent| <= 1
      requires wasDone <==> FirstNoise(schedule) < n
      requires before ==
               ConvertAll(filter, Portion(interval, input, requested, if wasDone then Reached(schedule) else n))
      requires done == (wasDone || !schedule[n].Quiet?)
      requires result == if !wasDone && (schedule[n].Quiet? || schedule[n] == StopsMeanwhile(true))
                         then before + ConvertAll(filter, sent) else before
      ensures Delivered(interval, input, requested, schedule, n + 1)
    {
      ConvertAtMostOne(filter, Portion(interval, input, requested, n), sent);
    }

    // The first loop, up to the end of the interval or the moment at which it turns out to be invalid.
    method SendInterval(interval: seq<CacheEvent>, ghost input: seq<CacheEvent>, requested: nat, schedule: seq<Moment>)
      returns (indexRV: nat, n: nat)
      requires Valid() && result == [] && !done && |schedule| == |interval| + |input|
      modifies this
      ensures Valid() && n <= |interval| && Delivered(interval, input, requested, schedule, n)
      ensures n < |interval| ==> schedule[n].SourceEnds?
      ensures indexRV == LastIndex(interval[..n], requested)
    {
      indexRV, n := requested, 0;
      while n < |interval|
        invariant n <= |interval| && Valid() && Delivered(interval, input, requested, schedule, n)
        invariant indexRV == LastIndex(interval[..n], requested)
      {
        if schedule[n].SourceEnds? {
          return;
        }
        ghost var before, wasDone := result, done;
        SendWatchCacheEvent(interval[n], schedule[n]);
        PortionOne(interval, input, requested, n);
        DeliveredOne(interval, input, requested, schedule, n, wasDone, before, [interval[n]]);
        assert interval[..n + 1][..n] == interval[..n];
        if interval[n].indexRV > indexRV {
          indexRV := interval[n].indexRV;
        }
        n := n + 1;
      }
    }

    // Event n of interval and input, which is one of the input: it is passed on if it is newer than the
    // interval.
    method SendNewer(ghost interval: seq<CacheEvent>, ghost input: seq<CacheEvent>, ghost requested: nat,
                     schedule: seq<Moment>, n: nat, indexRV: nat, event: CacheEvent)
      requires Valid() && |interval| <= n < |schedule| == |interval| + |input|
      requires event == input[n - |interval|] && indexRV == LastIndex(interval, requested)
      requires !schedule[n].SourceEnds? && Delivered(interval, input, requested, schedule, n)
      modifies this
      ensures Valid() && Delivered(interval, input, requested, schedule, n + 1)
    {
      ghost var before, wasDone := result, done;
      PortionOne(interval, input, requested, n);
      if event.indexRV > indexRV {
        SendWatchCacheEvent(event, schedule[n]);
        DeliveredOne(interval, input, requested, schedule, n, wasDone, before, [event]);
      } else {
        Elsewhere(!schedule[n].Quiet?);
        DeliveredOne(interval, input, requested, schedule, n, wasDone, before, []);
      }
    }

    // The second loop, up to the end of the input or the moment at which it is closed or the context done.
    method SendInput(ghost interval: seq<CacheEvent>, input: seq<CacheEvent>, ghost requested: nat,
                     schedule: seq<Moment>, first: nat, indexRV: nat) returns (n: nat)
      requires Valid() && first == |interval| && |schedule| == first + |input|
      requires indexRV == LastIndex(interval, requested) && Delivered(interval, input, requested, schedule, first)
      modifies this
      ensures Valid() && n <= |schedule| && Delivered(interval, input, requested, schedule, n)
      ensures n < |schedule| ==> schedule[n].SourceEnds?
    {
      n := first;
      while n < |schedule|
        invariant first <= n <= |schedule| && Valid() && Delivered(interval, input, requested, schedule, n)
      {
        if schedule[n].SourceEnds? {
          return;
        }
        SendNewer(interval, input, requested, schedule, n, indexRV, input[n - first]);
        n := n + 1;
      }
    }

    // Whatever the schedule: exactly the events before its first moment that is not quiet are delivered,
    // converted and in order, and the one at that moment if the select sends it. That is a prefix of the
    // stream, and the end is reached exactly if every moment is quiet.
    method ProcessInterval(interval: seq<CacheEvent>, input: seq<CacheEvent>, requested: nat, schedule: seq<Moment>)
      returns (atEnd: bool)
      requires Valid() && result == [] && !done && |schedule| == |interval| + |input|
      modifies this
      ensures Valid() && stopped
      ensures result == ConvertAll(filter, Portion(interval, input, requested, Reached(schedule)))
      ensures atEnd <==> forall i :: 0 <= i < |schedule| ==> schedule[i].Quiet?
      ensures result <= ConvertAll(filter, Stream(interval, input, requested))
      ensures atEnd ==> result == ConvertAll(filter, Stream(interval, input, requested))
    {
      var indexRV, n := SendInterval(interval, input, requested, schedule);
      if n == |interval| {
        assert interval[..n] == interval;
        n := SendInput(interval, input, requested, schedule, n, indexRV);
      }
      atEnd := n == |schedule| && !done;
      DeliveredAtEnd(interval, input, requested, schedule, n);
      StopLocked();
    }

    // Where the watcher ends, it has come to the first moment that is not quiet.
    lemma DeliveredAtEnd(interval: seq<CacheEvent>, input: seq<CacheEvent>, requested: nat, schedule: seq<Moment>,
                         n: nat)
      requires n <= |schedule| == |interval| + |input| && (n < |schedule| ==> schedule[n].SourceEnds?)
      requires Delivered(interval, input, requested, schedule, n)
      ensures result == ConvertAll(filter, Portion(interval, input, requested, Reached(schedule)))
      ensures n == |schedule| && !done <==> forall i :: 0 <= i < |schedule| ==> schedule[i].Quiet?
      ensures result <= ConvertAll(filter, Stream(interval, input, requested))
      ensures n == |schedule| && !done ==> result == ConvertAll(filter, Stream(interval, input, requested))
    {
      assert !done ==> FirstNoise(schedule) == n == Reached(schedule);
      PortionIsPrefix(filter, interval, input, requested, Reached(schedule));
    }
  }

  // ---------------------------------------------------------------------------------------------
  // What a stream of a real history is.

  predicate Ascending(events: seq<CacheEvent>) {
    forall i, j :: 0 <= i < j < |events| ==> events[i].indexRV < events[j].indexRV
  }

  lemma {:induction false} AboveOfAscending(input: seq<CacheEvent>, indexRV: nat, cut: nat)
    requires cut <= |input|
    requires forall i :: 0 <= i < |input| ==> (input[i].indexRV > indexRV <==> i >= cut)
    ensures Above(input, indexRV) == input[cut..]
  {
    if input != [] {
      var n := |input| - 1;
      if cut <= n {
        AboveOfAscending(input[..n], indexRV, cut);
        assert input[cut..] == input[..n][cut..] + [input[n]];
      } else {
        AboveOfAscending(input[..n], indexRV, n);
      }
    }
  }

  // The interval holds the events from `from` up to `cut`, and the input starts anywhere before the
  // first event that the interval lacks: the stream is the history, with every event exactly once and
  // in order, however much the two overlap.
  lemma StreamIsHistory(history: seq<CacheEvent>, from: nat, cut: nat, start: nat, requested: nat)
    requires Ascending(history) && from <= cut && start <= cut <= |history|
    requires forall i :: 0 <= i < |history| ==> (history[i].indexRV > requested <==> i >= from)
    ensures Stream(history[from..cut], history[start..], requested) == history[from..]
    ensures Ascending(history[from..])
  {
    var interval, input := history[from..cut], history[start..];
    LastOfInterval(history, from, cut, requested);
    var last := LastIndex(interval, requested);
    forall i | 0 <= i < |input| ensures input[i].indexRV > last <==> i >= cut - start {
      assert input[i] == history[start + i];
    }
    AboveOfAscending(input, last, cut - start);
    assert input[cut - start..] == history[cut..];
    assert history[from..] == interval + history[cut..];
  }

  lemma LastOfInterval(history: seq<CacheEvent>, from: nat, cut: nat, requested: nat)
    requires Ascending(history) && from <= cut <= |history|
    requires forall i :: 0 <= i < |history| ==> (history[i].indexRV > requested <==> i >= from)
    ensures var last := LastIndex(history[from..cut], requested);
            forall i :: 0 <= i < |history| ==> (history[i].indexRV > last <==> i >= cut)
  {
    var interval := history[from..cut];
    var last := LastIndex(interval, requested);
    if from < cut {
      assert interval[|interval| - 1] == history[cut - 1];
      assert last == history[cut - 1].indexRV;
    }
  }

  lemma {:induction false} PrefixConverted(filter: Filter, events: seq<CacheEvent>, part: seq<WatchEvent>)
    returns (m: nat)
    requires part <= ConvertAll(filter, events)
    ensures m <= |events| && part == ConvertAll(filter, events[..m])
  {
    if part == ConvertAll(filter, events) {
      m := |events|;
      assert events[..m] == events;
    } else {
      var n := |events| - 1;
      m := PrefixConverted(filter, events[..n], part);
      assert events[..n][..m] == events[..m];
    }
  }

  lemma HistoryShows(filter: Filter, store: Store, events: seq<CacheEvent>, m: nat)
    requires Truthful(store, events) && m <= |events|
    ensures Replay(Filtered(filter, store), ConvertAll(filter, events[..m])) ==
            Some(Filtered(filter, ApplyAll(store, events[..m])))
  {
    assert forall i :: 0 <= i < m ==> events[..m][..i] == events[..i];
    ReplayShowsFilteredStore(filter, store, events[..m]);
  }

  // End to end: whenever the watcher ends, the client that started from the filtered store at the
  // requested index holds the filtered store of some later moment of the history, never a mixture.
  lemma ClientHoldsSomeMoment(filter: Filter, store: Store, events: seq<CacheEvent>, delivered: seq<WatchEvent>)
    returns (m: nat)
    requires Truthful(store, events) && delivered <= ConvertAll(filter, events)
    ensures m <= |events|
    ensures Replay(Filtered(filter, store), delivered) == Some(Filtered(filter, ApplyAll(store, events[..m])))
  {
    m := PrefixConverted(filter, events, delivered);
    HistoryShows(filter, store, events, m);
  }

  // How far into a history the first n events of interval and input go: the interval holds what stands
  // from `from` to `cut`, and the input starts at `start`.
  function Position(from: nat, cut: nat, start: nat, n: nat): (end: nat)
    requires from <= cut && start <= cut
    ensures from <= end
  {
    if n <= cut - from then from + n
    else if n - (cut - from) <= cut - start then cut
    else start + (n - (cut - from))
  }

  // Of the first k events of the input those follow that the interval lacks.
  lemma InputIsHistory(history: seq<CacheEvent>, from: nat, cut: nat, start: nat, requested: nat, k: nat)
    requires Ascending(history) && from <= cut && start <= cut <= |history| && k <= |history| - start
    requires forall i :: 0 <= i < |history| ==> (history[i].indexRV > requested <==> i >= from)
    ensures Above(history[start..][..k], LastIndex(history[from..cut], requested)) ==
            history[cut..if k <= cut - start then cut else start + k]
  {
    LastOfInterval(history, from, cut, requested);
    AboveCut(history, start, k, LastIndex(history[from..cut], requested), cut);
    assert history[start..][..k] == history[start..start + k];
  }

  lemma AboveCut(history: seq<CacheEvent>, start: nat, k: nat, last: nat, cut: nat)
    requires start <= cut <= |history| && k <= |history| - start
    requires forall i :: 0 <= i < |history| ==> (history[i].indexRV > last <==> i >= cut)
    ensures Above(history[start..start + k], last) == if k <= cut - start then [] else history[cut..start + k]
  {
    var input := history[start..start + k];
    var skipped := if k <= cut - start then k else cut - start;
    AboveOfAscending(input, last, skipped);
    if k > cut - start {
      assert input[skipped..] == history[cut..start + k];
    }
  }

  lemma Joined(history: seq<CacheEvent>, from: nat, cut: nat, end: nat)
    requires from <= cut <= end <= |history|
    ensures history[from..cut] + history[cut..end] == history[from..end]
  {
  }

  lemma Sliced(history: seq<CacheEvent>, from: nat, end: nat, n: nat)
    requires from <= end <= |history| && n <= end - from
    ensures history[from..end][..n] == history[from..from + n]
  {
  }

  lemma PortionOfInput(interval: seq<CacheEvent>, input: seq<CacheEvent>, requested: nat, n: nat, more: seq<CacheEvent>)
    requires |interval| < n <= |interval| + |input|
    requires Above(input[..n - |interval|], LastIndex(interval, requested)) == more
    ensures Portion(interval, input, requested, n) == interval + more
  {
  }

  // Beyond the interval.
  lemma LaterPortion(history: seq<CacheEvent>, from: nat, cut: nat, start: nat, requested: nat, k: nat)
    requires Ascending(history) && from <= cut && start <= cut <= |history| && 0 < k <= |history| - start
    requires forall i :: 0 <= i < |history| ==> (history[i].indexRV > requested <==> i >= from)
    ensures Portion(history[from..cut], history[start..], requested, cut - from + k) ==
            history[from..if k <= cut - start then cut else start + k]
  {
    var end := if k <= cut - start then cut else start + k;
    InputIsHistory(history, from, cut, start, requested, k);
    PortionOfInput(history[from..cut], history[start..], requested, cut - from + k, history[cut..end]);
    Joined(history, from, cut, end);
  }

  lemma PortionIsHistory(history: seq<CacheEvent>, from: nat, cut: nat, start: nat, requested: nat, n: nat)
    requires Ascending(history) && from <= cut && start <= cut <= |history|
    requires forall i :: 0 <= i < |history| ==> (history[i].indexRV > requested <==> i >= from)
    requires n <= cut - from + (|history| - start)
    ensures var end := Position(from, cut, start, n);
            end <= |history| && Portion(history[from..cut], history[start..], requested, n) == history[from..end]
  {
    if n <= cut - from {
      Sliced(history, from, cut, n);
    } else {
      LaterPortion(history, from, cut, start, requested, n - (cut - from));
    }
  }

  // The events are delivered, converted and in order, and the client who started from the filtered store
  // holds the filtered store as they leave it.
  ghost predicate Shows(filter: Filter, store: Store, events: seq<CacheEvent>, delivered: seq<WatchEvent>) {
    && delivered == ConvertAll(filter, events)
    && Replay(Filtered(filter, store), delivered) == Some(Filtered(filter, ApplyAll(store, events)))
  }

  // What the delivery of the first n events shows to the client.
  lemma PortionShows(filter: Filter, store: Store, history: seq<CacheEvent>, from: nat, cut: nat, start: nat,
                     requested: nat, n: nat, delivered: seq<WatchEvent>)
    requires Ascending(history) && from <= cut && start <= cut <= |history| && Truthful(store, history[from..])
    requires forall i :: 0 <= i < |history| ==> (history[i].indexRV > requested <==> i >= from)
    requires n <= cut - from + (|history| - start)
    requires delivered == ConvertAll(filter, Portion(history[from..cut], history[start..], requested, n))
    ensures var end := Position(from, cut, start, n);
            end <= |history| && Shows(filter, store, history[from..end], delivered)
  {
    PortionIsHistory(history, from, cut, start, requested, n);
    var end := Position(from, cut, start, n);
    assert history[from..][..end - from] == history[from..end];
    HistoryShows(filter, store, history[from..], end - from);
  }

  // A watcher on a real history, with interval and input overlapping as they may and any schedule. What is
  // delivered is the conversion of the history up to a position that the schedule determines: all of it
  // exactly if every moment is quiet. The client, which starts from the filtered store at the requested
  // index, then holds the filtered store of exactly that moment.
  method WatchHistory(filter: Filter, ghost store: Store, history: seq<CacheEvent>, from: nat, cut: nat, start: nat,
                      requested: nat, schedule: seq<Moment>)
    returns (delivered: seq<WatchEvent>, atEnd: bool)
    requires Ascending(history) && from <= cut && start <= cut <= |history| && Truthful(store, history[from..])
    requires forall i :: 0 <= i < |history| ==> (history[i].indexRV > requested <==> i >= from)
    requires |schedule| == cut - from + (|history| - start)
    ensures var end := Position(from, cut, start, Reached(schedule));
            end <= |history| && Shows(filter, store, history[from..end], delivered)
    ensures atEnd <==> forall i :: 0 <= i < |schedule| ==> schedule[i].Quiet?
    ensures atEnd ==> delivered == ConvertAll(filter, history[from..])
  {
    var watcher := new CacheWatcher(filter);
    atEnd := watcher.ProcessInterval(history[from..cut], history[start..], requested, schedule);
    delivered := watcher.result;
    PortionShows(filter, store, history, from, cut, start, requested, Reached(schedule), delivered);
    if atEnd {
      StreamIsHistory(history, from, cut, start, requested);
    }
  }
}
