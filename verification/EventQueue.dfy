// The pressure queue between the informer and the storage
// (pkg/synchromanager/resourcesynchro/queue/pressurequeue.go and event.go): one pending event per
// key, later events are folded into the pending one, and a key is not handed out while an event of
// it is being processed.
module EventQueue {
  import opened Common
  import opened VersionInformer

  datatype Action = AddAction | UpdateAction | DeleteAction

  datatype Event = Event(action: Action, key: Key, version: Version)

  // What an event asks the storage to hold for its key.
  function Effect(e: Event): Option<Version> {
    if e.action.DeleteAction? then None else Some(e.version)
  }

  // pressureEvents, for a new event.
  function Compact(older: Option<Event>, newer: Event): Event {
    if older.None? || newer.action.DeleteAction? || older.value.action == newer.action then newer
    else if newer.action.UpdateAction? then
      if older.value.action.DeleteAction? then older.value else newer.(action := AddAction)
    else if older.value.action.DeleteAction? then newer.(action := UpdateAction)
    else newer
  }

  // Folding keeps the effect of the newer event in all cases but one: an update that follows a
  // pending delete is dropped.
  lemma CompactKeepsNewest(older: Option<Event>, newer: Event)
    ensures Effect(Compact(older, newer)) == Effect(newer) <==>
            !(older.Some? && older.value.action.DeleteAction? && newer.action.UpdateAction?)
    ensures older.Some? && older.value.key == newer.key ==> Compact(older, newer).key == newer.key
  {
  }

  datatype Queue = Queue(processing: set<Key>, items: map<Key, Event>, order: seq<Key>) {

    // Every key in line has its event, is in line once and is not being processed; a pending event
    // whose key is not in line waits for the processing of its key to end.
    ghost predicate Valid() {
      && (forall i, j :: 0 <= i < j < |order| ==> order[i] != order[j])
      && (forall i :: 0 <= i < |order| ==> order[i] in items && order[i] !in processing)
      && (forall k :: k in items ==> items[k].key == k && (k in order || k in processing))
    }

    function Put(e: Event): Queue {
      var pending := if e.key in items then Some(items[e.key]) else None;
      Queue(processing, items[e.key := Compact(pending, e)],
            if e.key !in processing && e.key !in items then order + [e.key] else order)
    }

    function Popped(): (Queue, Event)
      requires order != [] && order[0] in items
    {
      (Queue(processing + {order[0]}, items - {order[0]}, order[1..]), items[order[0]])
    }

    function Finished(k: Key): Queue {
      Queue(processing - {k}, items, if k in items then order + [k] else order)
    }

    // Reput: the event is handed back and the pending one, if any, is folded into it.
    function Reput(e: Event): Queue {
      Queue(processing - {e.key},
            items[e.key := if e.key in items then Compact(Some(e), items[e.key]) else e],
            if e.key in items then order else order + [e.key])
    }

    // The keys in line with their events, and nothing is kept.
    function Emptied(): Queue {
      Queue(processing + (set k | k in order), map[], [])
    }

    function Retained(n: nat): Queue {
      if |order| <= n then this
      else Queue(processing, map k | k in items && k in order[..n] :: items[k], order[..n])
    }
  }

  lemma PutValid(q: Queue, e: Event)
    requires q.Valid()
    ensures q.Put(e).Valid()
  {
  }

  lemma PoppedValid(q: Queue)
    requires q.Valid() && q.order != []
    ensures q.Popped().0.Valid() && q.Popped().1.key == q.order[0]
  {
    var q' := q.Popped().0;
    assert q.order == [q.order[0]] + q'.order;
  }

  lemma FinishedValid(q: Queue, k: Key)
    requires q.Valid() && k in q.processing
    ensures q.Finished(k).Valid()
  {
    var q' := q.Finished(k);
    assert k !in q.order;
    forall x | x in q'.items ensures x in q'.order || x in q'.processing {
      if x == k {
        assert q'.order[|q.order|] == k;
      }
    }
  }

  // Keys are handed out in the order in which they got in line: a key keeps its place whatever is put in,
  // finished or handed back, moves up by one with every key that is handed out, and is handed out itself
  // when it is the first. A key that gets in line gets in behind all others.
  lemma PlaceInLine(q: Queue, i: nat, e: Event, done: Key)
    requires q.Valid() && i < |q.order| && done in q.processing
    ensures q.Put(e).order[..|q.order|] == q.order && q.Finished(done).order[..|q.order|] == q.order
    ensures i == 0 ==> q.Popped().1 == q.items[q.order[0]] && q.Popped().1.key == q.order[0]
    ensures i > 0 ==> q.Popped().0.order[i - 1] == q.order[i]
    ensures e.key !in q.items && e.key !in q.processing ==> q.Put(e).order == q.order + [e.key]
    ensures done in q.items ==> q.Finished(done).order == q.order + [done]
  {
    PoppedValid(q);
  }

  // A discard keeps the first n keys with their events and nothing else.
  lemma RetainedValid(q: Queue, n: nat)
    requires q.Valid() && |q.order| > n
    ensures var q' := q.Retained(n);
            && q'.Valid() && q'.order == q.order[..n]
            && (forall k :: k in q'.items <==> k in q'.order)
            && (forall k :: k in q'.items ==> q'.items[k] == q.items[k])
  {
    assert forall i :: 0 <= i < n ==> q.order[..n][i] == q.order[i];
  }

  // Handing an event back is safe exactly if no other event of its key has come in meanwhile.
  lemma ReputKeepsValid(q: Queue, e: Event)
    requires q.Valid() && e.key in q.processing
    ensures q.Reput(e).Valid() <==> e.key !in q.items
    ensures e.key in q.items ==> Stranded(q.Reput(e), e.key)
  {
    var q' := q.Reput(e);
    if e.key in q.items {
      assert e.key in q'.items && e.key !in q'.processing;
      assert e.key !in q'.order;
    } else {
      assert q'.order[|q.order|] == e.key;
      assert forall k :: k in q.order ==> k in q'.order;
    }
  }

  // The key has an event, but is neither in line nor being processed.
  ghost predicate Stranded(q: Queue, k: Key) {
    k in q.items && k !in q.order && k !in q.processing
  }

  // A stranded key is never handed out again: further events of it are folded in without putting it
  // in line, and nothing that happens to other keys does.
  lemma StrandedForever(q: Queue, k: Key, e: Event, done: Key)
    requires Stranded(q, k) && done in q.processing
    ensures Stranded(q.Put(e), k) && Stranded(q.Finished(done), k)
    ensures q.order != [] && q.order[0] in q.items ==> Stranded(q.Popped().0, k) && q.order[0] != k
  {
    if q.order != [] {
      assert q.order[0] in q.order;
    }
  }

  lemma EmptiedValid(q: Queue)
    requires q.Valid()
    ensures q.Emptied().Valid()
  {
  }

  // The pending events of the keys in line, and those of the keys being processed.
  ghost function InLine(q: Queue): map<Key, Event> { map k | k in q.items && k in q.order :: q.items[k] }

  ghost function Waiting(q: Queue): map<Key, Event> { map k | k in q.items && k in q.processing :: q.items[k] }

  // Taking all events at once hands out exactly those of the keys in line, whose processing begins, and
  // drops exactly those of the keys that are being processed. None is left, so nothing is lost if and
  // only if no key that is being processed has one.
  lemma EmptyingLosesPending(q: Queue)
    requires q.Valid()
    ensures q.Emptied().Valid() && q.Emptied().items == map[]
    ensures q.items == InLine(q) + Waiting(q) && InLine(q).Keys !! Waiting(q).Keys
    ensures InLine(q).Keys == (set k | k in q.order) && q.Emptied().processing == q.processing + InLine(q).Keys
    ensures InLine(q) == q.items <==> q.items.Keys !! q.processing
  {
    forall k | k in q.items ensures k in q.order <==> k !in q.processing {
    }
    if InLine(q) == q.items {
      assert forall k :: k in q.items ==> k in InLine(q);
    }
  }

  // The events of the given keys.
  method EventsOf(keys: seq<Key>, items: map<Key, Event>) returns (kept: map<Key, Event>)
    requires forall k :: k in keys ==> k in items
    ensures kept == map k | k in items && k in keys :: items[k]
  {
    kept := map[];
    for i := 0 to |keys|
      invariant forall k :: k in kept <==> k in keys[..i]
      invariant forall k :: k in kept ==> k in items && kept[k] == items[k]
    {
      kept := kept[keys[i] := items[keys[i]]];
    }
    assert keys[..|keys|] == keys;
  }

  class PressureQueue {
    var processing: set<Key>
    var items: map<Key, Event>
    var order: seq<Key>
    var closed: bool

    ghost function View(): Queue
      reads this
    {
      Queue(processing, items, order)
    }

    constructor ()
      ensures View() == Queue({}, map[], []) && !closed
      ensures View().Valid()
    {
      processing, items, order, closed := {}, map[], [], false;
    }

    // Add, Update and Delete: queueActionLocked followed by put.
    method Put(e: Event)
      requires View().Valid()
      modifies this
      ensures View() == old(View()).Put(e) && View().Valid() && closed == old(closed)
    {
      PutValid(View(), e);
      var event := Compact(if e.key in items then Some(items[e.key]) else None, e);
      if e.key !in processing {
        if e.key !in items {
          order := order + [e.key];
        }
      }
      items := items[e.key := event];
    }

    // None stands for a queue that is empty: the caller blocks, or is told that it is closed.
    method Pop() returns (event: Option<Event>)
      requires View().Valid()
      modifies this
      ensures View().Valid() && closed == old(closed)
      ensures old(order) == [] ==> event == None && View() == old(View())
      ensures old(order) != [] ==> event == Some(old(View()).Popped().1) && View() == old(View()).Popped().0
    {
      event := None;
      if order != [] {
        PoppedValid(View());
        var key := order[0];
        order := order[1..];
        event := Some(items[key]);
        items := items - {key};
        processing := processing + {key};
      }
    }

    method Done(key: Key)
      requires View().Valid() && key in processing
      modifies this
      ensures View() == old(View()).Finished(key) && View().Valid() && closed == old(closed)
    {
      FinishedValid(View(), key);
      processing := processing - {key};
      if key in items {
        order := order + [key];
      }
    }

    // The one operation that may leave the queue invalid; ReputKeepsValid tells when.
    method Reput(e: Event)
      requires View().Valid() && e.key in processing
      modifies this
      ensures View() == old(View()).Reput(e) && closed == old(closed)
    {
      processing := processing - {e.key};
      var event := if e.key in items then Compact(Some(e), items[e.key]) else e;
      if e.key !in items {
        order := order + [e.key];
      }
      items := items[e.key := event];
    }

    // None stands for a closed queue without keys in line.
    method PopAll() returns (events: Option<seq<Event>>)
      requires View().Valid()
      modifies this
      ensures View().Valid() && closed == old(closed)
      ensures old(order) == [] ==> View() == old(View()) && events == if closed then None else Some([])
      ensures old(order) != [] ==> View() == old(View()).Emptied()
      ensures old(order) != [] ==>
                && events.Some? && |events.value| == |old(order)|
                && forall i :: 0 <= i < |old(order)| ==> events.value[i] == old(items)[old(order)[i]]
    {
      if order == [] {
        return if closed then None else Some([]);
      }
      EmptiedValid(View());
      var all: seq<Event> := [];
      for i := 0 to |order|
        invariant order == old(order) && items == old(items) && closed == old(closed)
        invariant |all| == i && forall j :: 0 <= j < i ==> all[j] == items[order[j]]
        invariant processing == old(processing) + (set k | k in order[..i])
      {
        all := all + [items[order[i]]];
        processing := processing + {order[i]};
        assert order[..i + 1] == order[..i] + [order[i]];
      }
      assert order[..|order|] == order;
      items, order := map[], [];
      return Some(all);
    }

    method DiscardAndRetain(retain: nat) returns (discarded: bool)
      requires View().Valid()
      modifies this
      ensures View() == old(View()).Retained(retain) && View().Valid() && closed == old(closed)
      ensures discarded == (old(|order|) > retain)
    {
      if |order| <= retain {
        return false;
      }
      RetainedValid(View(), retain);
      items := EventsOf(order[..retain], items);
      order := order[..retain];
      return true;
    }

    method Close()
      modifies this
      ensures closed && View() == old(View())
    {
      closed := true;
    }
  }
}
