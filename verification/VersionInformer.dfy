// The resource version informer (pkg/runtime/informer/resourceversion_informer.go) and the
// key-to-version store it maintains (pkg/runtime/informer/resourceversion_storage.go).
module VersionInformer {
  import opened Common

  type Key = string
  type Version = string

  // What a delta carries: an object, a bare key, a tombstone of a deleted object, or something from
  // which no key can be taken.
  datatype Item = Object(key: Key, version: Version) | ExplicitKey(key: Key) | Tombstone(key: Key) | Malformed

  datatype DeltaType = Added | Updated | Replaced | Deleted | Sync

  datatype Delta = Delta(kind: DeltaType, item: Item)

  // Calls to the event handler.
  datatype Call = OnAdd(item: Item) | OnUpdate(item: Item) | OnDelete(item: Item) | OnSync(item: Item)

  // cache.DeletionHandlingMetaNamespaceKeyFunc
  function KeyOf(item: Item): Option<Key> {
    if item.Malformed? then None else Some(item.key)
  }

  // ---------------------------------------------------------------------------------------------
  // Resource versions: decimal numbers below 2^64; the empty version counts as zero.

  function ParseVersion(s: Version): Option<nat> {
    if AllDigits(s) && Decimal(s) < 0x1_0000_0000_0000_0000 then Some(Decimal(s)) else None
  }

  // compareResourceVersion: -1 also when one of the two is not a version at all.
  function Compare(item: Item, stored: Version): int {
    if !item.Object? then -1
    else
      match (ParseVersion(item.version), ParseVersion(stored))
      case (Some(a), Some(b)) => if a == b then 0 else if a < b then -1 else 1
      case _ => -1
  }

  // ---------------------------------------------------------------------------------------------
  // One delta, and a batch of deltas.

  datatype Verdict = Continue | Stop | Fail

  datatype Outcome = Outcome(versions: map<Key, Version>, calls: seq<Call>, verdict: Verdict)

  function HandleDelta(versions: map<Key, Version>, d: Delta): Outcome {
    if d.kind.Sync? then Outcome(versions, [], Continue)
    else if d.kind.Deleted? then
      if d.item.Malformed? then Outcome(versions, [], Fail)
      else Outcome(versions - {d.item.key}, [OnDelete(d.item)], Continue)
    else if d.item.ExplicitKey? then Outcome(versions, [], Stop)
    else if d.item.Malformed? then Outcome(versions, [], Fail)
    else if d.item.key !in versions then
      // a tombstone has a key but no version to store
      if d.item.Tombstone? then Outcome(versions, [], Fail)
      else Outcome(versions[d.item.key := d.item.version], [OnAdd(d.item)], Continue)
    else if d.kind.Replaced? && Compare(d.item, versions[d.item.key]) <= 0 then
      Outcome(versions, if Compare(d.item, versions[d.item.key]) == 0 then [OnSync(d.item)] else [], Continue)
    else if d.item.Tombstone? then Outcome(versions, [], Fail)
    else Outcome(versions[d.item.key := d.item.version], [OnUpdate(d.item)], Continue)
  }

  function HandleBatch(versions: map<Key, Version>, deltas: seq<Delta>): Outcome
    decreases |deltas|
  {
    if deltas == [] then Outcome(versions, [], Continue)
    else
      var first := HandleDelta(versions, deltas[0]);
      if !first.verdict.Continue? then first
      else
        var rest := HandleBatch(first.versions, deltas[1..]);
        Outcome(rest.versions, first.calls + rest.calls, rest.verdict)
  }

  lemma BatchFromHere(versions: map<Key, Version>, deltas: seq<Delta>, i: nat)
    requires i < |deltas|
    ensures var first, all := HandleDelta(versions, deltas[i]), HandleBatch(versions, deltas[i..]);
            if first.verdict.Continue? then
              var rest := HandleBatch(first.versions, deltas[i + 1..]);
              all == Outcome(rest.versions, first.calls + rest.calls, rest.verdict)
            else all == first
  {
    assert deltas[i..][1..] == deltas[i + 1..];
  }

  // Any sequence of batches; an error or a key marker ends its own batch only.
  function HandleBatches(versions: map<Key, Version>, batches: seq<seq<Delta>>): (map<Key, Version>, seq<Call>)
    decreases |batches|
  {
    if batches == [] then (versions, [])
    else
      var first := HandleBatch(versions, batches[0]);
      var (last, calls) := HandleBatches(first.versions, batches[1..]);
      (last, first.calls + calls)
  }

  // ---------------------------------------------------------------------------------------------
  // A listener that rebuilds the store from the calls alone. It refuses an add of a key it holds, an
  // update or a sync of a key it does not hold, and anything without a version.

  function Listen(held: map<Key, Version>, c: Call): Option<map<Key, Version>> {
    match c
    case OnAdd(item) => if item.Object? && item.key !in held then Some(held[item.key := item.version]) else None
    case OnUpdate(item) => if item.Object? && item.key in held then Some(held[item.key := item.version]) else None
    case OnDelete(item) => if item.Malformed? then None else Some(held - {item.key})
    case OnSync(item) =>
      if item.Object? && item.key in held && ParseVersion(item.version) == ParseVersion(held[item.key]) then Some(held)
      else None
  }

  function Replay(held: map<Key, Version>, calls: seq<Call>): Option<map<Key, Version>>
    decreases |calls|
  {
    if calls == [] then Some(held)
    else
      match Listen(held, calls[0])
      case None => None
      case Some(next) => Replay(next, calls[1..])
  }

  lemma {:induction false} ReplayAppend(held: map<Key, Version>, a: seq<Call>, b: seq<Call>)
    requires Replay(held, a).Some?
    ensures Replay(held, a + b) == Replay(Replay(held, a).value, b)
    decreases |a|
  {
    if a == [] {
      assert a + b == b;
    } else {
      assert (a + b)[1..] == a[1..] + b;
      ReplayAppend(Listen(held, a[0]).value, a[1..], b);
    }
  }

  lemma DeltaReplays(versions: map<Key, Version>, d: Delta)
    ensures var o := HandleDelta(versions, d);
            |o.calls| <= 1 && Replay(versions, o.calls) == Some(o.versions)
  {
    var o := HandleDelta(versions, d);
    assert |o.calls| == 1 ==> o.calls[1..] == [];
  }

  lemma {:induction false} BatchReplays(versions: map<Key, Version>, deltas: seq<Delta>)
    ensures var o := HandleBatch(versions, deltas);
            Replay(versions, o.calls) == Some(o.versions)
    decreases |deltas|
  {
    if deltas != [] {
      var first := HandleDelta(versions, deltas[0]);
      DeltaReplays(versions, deltas[0]);
      if first.verdict.Continue? {
        BatchReplays(first.versions, deltas[1..]);
        ReplayAppend(versions, first.calls, HandleBatch(first.versions, deltas[1..]).calls);
      }
    }
  }

  // Over any sequence of batches, with errors and markers anywhere, the calls alone rebuild exactly
  // the version cache: adds only for absent keys, updates and syncs only for present ones.
  lemma {:induction false} CallsRebuildCache(versions: map<Key, Version>, batches: seq<seq<Delta>>)
    ensures var (last, calls) := HandleBatches(versions, batches);
            Replay(versions, calls) == Some(last)
    decreases |batches|
  {
    if batches != [] {
      var first := HandleBatch(versions, batches[0]);
      BatchReplays(versions, batches[0]);
      CallsRebuildCache(first.versions, batches[1..]);
      ReplayAppend(versions, first.calls, HandleBatches(first.versions, batches[1..]).1);
    }
  }

  // A relist never lowers a version: after any number of Replaced deltas every key is still there,
  // with the version it had or a strictly greater one.
  lemma {:induction false} RelistNeverLowers(versions: map<Key, Version>, deltas: seq<Delta>, k: Key)
    requires forall i :: 0 <= i < |deltas| ==> deltas[i].kind == Replaced
    requires k in versions
    ensures var last := HandleBatch(versions, deltas).versions;
            && k in last
            && (last[k] == versions[k] ||
                (ParseVersion(versions[k]).Some? && ParseVersion(last[k]).Some?
                 && ParseVersion(versions[k]).value < ParseVersion(last[k]).value))
    decreases |deltas|
  {
    if deltas != [] {
      var first := HandleDelta(versions, deltas[0]);
      if first.verdict.Continue? {
        RelistNeverLowers(first.versions, deltas[1..], k);
      }
    }
  }

  // An object of a relist whose key is stored: a greater version replaces the stored one with exactly one
  // update, the same version is reported as a sync, and anything else, a version that cannot be read
  // included, does nothing.
  lemma RelistOfOne(versions: map<Key, Version>, item: Item)
    requires item.Object? && item.key in versions
    ensures var o := HandleDelta(versions, Delta(Replaced, item));
            var was, now := ParseVersion(versions[item.key]), ParseVersion(item.version);
            && o.verdict == Continue
            && if was.None? || now.None? || now.value < was.value then o.versions == versions && o.calls == []
               else if now.value == was.value then o.versions == versions && o.calls == [OnSync(item)]
               else o.versions == versions[item.key := item.version] && o.calls == [OnUpdate(item)]
  {
  }

  // Delta d delivers a readable version of k.
  predicate Delivers(d: Delta, k: Key, n: nat) {
    d.item.Object? && d.item.key == k && ParseVersion(d.item.version) == Some(n)
  }

  // After a relist, in whatever order it lists the objects, the entry of a key stands at the greatest of the
  // versions that were stored and delivered.
  lemma {:induction false} RelistTakesGreatest(versions: map<Key, Version>, deltas: seq<Delta>, k: Key)
    requires forall i :: 0 <= i < |deltas| ==> deltas[i].kind == Replaced && deltas[i].item.Object?
    requires k in versions && ParseVersion(versions[k]).Some?
    ensures var last := HandleBatch(versions, deltas).versions;
            && k in last && ParseVersion(last[k]).Some?
            && var greatest := ParseVersion(last[k]).value;
               && greatest >= ParseVersion(versions[k]).value
               && (forall i, n: nat :: 0 <= i < |deltas| && Delivers(deltas[i], k, n) ==> n <= greatest)
               && (last[k] == versions[k] ||
                   exists i :: 0 <= i < |deltas| && deltas[i].item == Object(k, last[k]))
    decreases |deltas|
  {
    if deltas != [] {
      var first := HandleDelta(versions, deltas[0]);
      var rest := deltas[1..];
      RelistTakesGreatest(first.versions, rest, k);
      var last := HandleBatch(versions, deltas).versions;
      forall i, n: nat | 0 <= i < |deltas| && Delivers(deltas[i], k, n) ensures n <= ParseVersion(last[k]).value {
        if i > 0 {
          assert rest[i - 1] == deltas[i];
        }
      }
      if last[k] != first.versions[k] {
        var j :| 0 <= j < |rest| && rest[j].item == Object(k, last[k]);
        assert deltas[j + 1].item == Object(k, last[k]);
      } else if last[k] != versions[k] {
        assert deltas[0].item == Object(k, last[k]);
      }
    }
  }

  function Find(versions: map<Key, Version>, k: Key): Option<Version> {
    if k in versions then Some(versions[k]) else None
  }

  // Both versions can be read, and the first one is greater.
  predicate Newer(v: Version, w: Version) {
    ParseVersion(v).Some? && ParseVersion(w).Some? && ParseVersion(v).value > ParseVersion(w).value
  }

  // What the deltas of one key do to the entry of that key.
  function TrackKey(entry: Option<Version>, k: Key, deltas: seq<Delta>): Option<Version>
    decreases |deltas|
  {
    if deltas == [] then entry
    else
      var d := deltas[0];
      var next :=
        if KeyOf(d.item) != Some(k) || d.kind.Sync? then entry
        else if d.kind.Deleted? then None
        else if !d.item.Object? then entry
        else if entry.None? || !d.kind.Replaced? || Newer(d.item.version, entry.value) then Some(d.item.version)
        else entry;
      TrackKey(next, k, deltas[1..])
  }

  predicate Complete(deltas: seq<Delta>) {
    forall i :: 0 <= i < |deltas| ==>
      deltas[i].item.Object? || deltas[i].kind.Sync? || (deltas[i].kind.Deleted? && !deltas[i].item.Malformed?)
  }

  // Keys do not influence each other: in a batch without markers and broken items, the entry of a
  // key is decided by the deltas of that key alone, last one winning unless a relist is older.
  lemma {:induction false} BatchIsPerKey(versions: map<Key, Version>, deltas: seq<Delta>, k: Key)
    requires Complete(deltas)
    ensures HandleBatch(versions, deltas).verdict.Continue?
    ensures Find(HandleBatch(versions, deltas).versions, k) == TrackKey(Find(versions, k), k, deltas)
    decreases |deltas|
  {
    if deltas != [] {
      BatchIsPerKey(HandleDelta(versions, deltas[0]).versions, deltas[1..], k);
    }
  }

  // A key marker hides the rest of its batch: what is handled is what stands before the marker.
  lemma {:induction false} MarkerEndsBatch(versions: map<Key, Version>, before: seq<Delta>, marker: Delta,
                                           after: seq<Delta>)
    requires Complete(before) && marker.item.ExplicitKey? && !marker.kind.Deleted? && !marker.kind.Sync?
    ensures var o, cut := HandleBatch(versions, before + [marker] + after), HandleBatch(versions, before);
            o.versions == cut.versions && o.calls == cut.calls && o.verdict.Stop?
    decreases |before|
  {
    var batch := before + [marker] + after;
    if before == [] {
      assert batch[0] == marker;
    } else {
      assert batch[1..] == before[1..] + [marker] + after;
      MarkerEndsBatch(HandleDelta(versions, before[0]).versions, before[1..], marker, after);
    }
  }

  // ---------------------------------------------------------------------------------------------
  // The store and the informer as the program keeps them.

  class VersionStore {
    var versions: map<Key, Version>

    constructor ()
      ensures versions == map[]
    {
      versions := map[];
    }

    // Add and Update store the version of an object; false is a missing key or accessor.
    method Put(item: Item) returns (ok: bool)
      modifies this
      ensures ok == item.Object?
      ensures versions == if ok then old(versions)[item.key := item.version] else old(versions)
    {
      ok := item.Object?;
      if ok {
        versions := versions[item.key := item.version];
      }
    }

    method Delete(item: Item) returns (ok: bool)
      modifies this
      ensures ok == !item.Malformed?
      ensures versions == if ok then old(versions) - {item.key} else old(versions)
    {
      ok := !item.Malformed?;
      if ok {
        versions := versions - {item.key};
      }
    }

    method Get(item: Item) returns (version: Option<Version>, ok: bool)
      ensures ok == !item.Malformed?
      ensures ok ==> version == Find(versions, item.key)
    {
      ok, version := !item.Malformed?, None;
      if ok {
        version := Find(versions, item.key);
      }
    }

    method Replace(all: map<Key, Version>)
      modifies this
      ensures versions == all
    {
      versions := all;
    }
  }

  class Informer {
    const store: VersionStore
    var calls: seq<Call>

    constructor (store: VersionStore)
      ensures this.store == store && calls == []
    {
      this.store := store;
      calls := [];
    }

    // Handles the deltas in turn; the returned verdict tells how the batch ended.
    method HandleDeltas(deltas: seq<Delta>) returns (verdict: Verdict)
      modifies this, store
      ensures var o := HandleBatch(old(store.versions), deltas);
              store.versions == o.versions && calls == old(calls) + o.calls && verdict == o.verdict
    {
      ghost var o := HandleBatch(store.versions, deltas);
      ghost var all := calls + o.calls;
      var i := 0;
      assert deltas[0..] == deltas;
      while i < |deltas|
        invariant 0 <= i <= |deltas|
        invariant o.versions == HandleBatch(store.versions, deltas[i..]).versions
        invariant o.verdict == HandleBatch(store.versions, deltas[i..]).verdict
        invariant all == calls + HandleBatch(store.versions, deltas[i..]).calls
      {
        BatchFromHere(store.versions, deltas, i);
        ghost var first := HandleDelta(store.versions, deltas[i]);
        ghost var rest := HandleBatch(first.versions, deltas[i + 1..]).calls;
        assert calls + (first.calls + rest) == (calls + first.calls) + rest;
        verdict := HandleOne(deltas[i]);
        if !verdict.Continue? {
          return;
        }
        i := i + 1;
      }
      verdict := Continue;
    }

    method HandleOne(d: Delta) returns (verdict: Verdict)
      modifies this, store
      ensures var o := HandleDelta(old(store.versions), d);
              store.versions == o.versions && calls == old(calls) + o.calls && verdict == o.verdict
    {
      var ok;
      verdict := Continue;
      if d.kind.Deleted? {
        ok := store.Delete(d.item);
        if !ok { return Fail; }
        calls := calls + [OnDelete(d.item)];
      } else if !d.kind.Sync? {
        if d.item.ExplicitKey? { return Stop; }
        var version;
        version, ok := store.Get(d.item);
        if !ok { return Fail; }
        if version.None? {
          ok := store.Put(d.item);
          if !ok { return Fail; }
          calls := calls + [OnAdd(d.item)];
          return;
        }
        if d.kind.Replaced? {
          var v := Compare(d.item, version.value);
          if v <= 0 {
            if v == 0 {
              calls := calls + [OnSync(d.item)];
            }
            return;
          }
        }
        ok := store.Put(d.item);
        if !ok { return Fail; }
        calls := calls + [OnUpdate(d.item)];
      }
    }
  }
}
