// Policies and lifecycles with the resources they depend on, and the informers that watch those
// resources (pkg/controller/dependentresource_manager.go).
//
// An informer is a number, given out when it is started; its lister, its controller and its stop
// channel carry that number. A closed channel stays closed, and closing it again would panic. The
// program's lock makes every call one step. Whether an informer has synced is a parameter.
module DependentResources {
  import opened Common

  datatype DependentResource = DependentResource(gvr: GroupVersionResource, namespace: string, name: string)

  // ---------------------------------------------------------------------------------------------
  // Names with their keys, and keys with their names.

  type Forward<K> = map<string, set<K>>
  type Reverse<K> = map<K, set<string>>

  ghost predicate Has<K>(fwd: Forward<K>, n: string, k: K) { n in fwd && k in fwd[n] }

  // The reverse table says the same as the forward table, and no key is kept without a name.
  ghost predicate Inverse<K(!new)>(rev: Reverse<K>, fwd: Forward<K>) {
    forall k {:trigger About(k)} :: About(k) ==>
      && (k in rev ==> rev[k] != {})
      && forall n :: k in rev && n in rev[k] <==> Has(fwd, n, k)
  }

  function Drop<K>(rev: Reverse<K>, k: K, n: string): Reverse<K> {
    var rest := (if k in rev then rev[k] else {}) - {n};
    if rest == {} then rev - {k} else rev[k := rest]
  }

  function Add<K>(rev: Reverse<K>, k: K, n: string): Reverse<K> {
    rev[k := if k in rev then rev[k] + {n} else {n}]
  }

  lemma DropInverse<K(!new)>(rev: Reverse<K>, fwd: Forward<K>, k: K, n: string)
    requires Inverse(rev, fwd) && n in fwd
    ensures Inverse(Drop(rev, k, n), fwd[n := fwd[n] - {k}])
  {
    var rev', fwd' := Drop(rev, k, n), fwd[n := fwd[n] - {k}];
    forall j {:trigger About(j)} | About(j)
      ensures j in rev' ==> rev'[j] != {}
      ensures forall m :: j in rev' && m in rev'[j] <==> Has(fwd', m, j)
    {
      if j == k {
        var rest := (if k in rev then rev[k] else {}) - {n};
        forall m ensures m in rest <==> Has(fwd', m, k) {
          assert Has(fwd', m, k) <==> Has(fwd, m, k) && m != n;
        }
        assert rest != {} ==> k in rev' && rev'[k] == rest;
      } else {
        assert forall m :: Has(fwd', m, j) <==> Has(fwd, m, j);
      }
    }
  }

  lemma AddInverse<K(!new)>(rev: Reverse<K>, fwd: Forward<K>, k: K, n: string)
    requires Inverse(rev, fwd) && n in fwd
    ensures Inverse(Add(rev, k, n), fwd[n := fwd[n] + {k}])
  {
    var rev', fwd' := Add(rev, k, n), fwd[n := fwd[n] + {k}];
    forall j {:trigger About(j)} | About(j)
      ensures j in rev' ==> rev'[j] != {}
      ensures forall m :: j in rev' && m in rev'[j] <==> Has(fwd', m, j)
    {
      assert forall m :: Has(fwd', m, j) <==> Has(fwd, m, j) || (m == n && j == k);
    }
  }

  // A name without keys may be kept or not.
  lemma SameRelation<K(!new)>(rev: Reverse<K>, fwd: Forward<K>, fwd': Forward<K>, n: string)
    requires Inverse(rev, fwd) && fwd - {n} == fwd' - {n}
    requires (n !in fwd || fwd[n] == {}) && (n !in fwd' || fwd'[n] == {})
    ensures Inverse(rev, fwd')
  {
    forall k: K {:trigger About(k)} | About(k)
      ensures forall m :: Has(fwd', m, k) <==> Has(fwd, m, k)
    {
      forall m | m != n ensures Has(fwd', m, k) <==> Has(fwd, m, k) {
        assert m in fwd - {n} <==> m in fwd' - {n};
      }
    }
  }

  function KeysOf<K>(fwd: Forward<K>, n: string): set<K> { if n in fwd then fwd[n] else {} }

  lemma NameKept<K(!new)>(rev: Reverse<K>, fwd: Forward<K>, n: string)
    requires Inverse(rev, fwd)
    ensures Inverse(rev, fwd[n := KeysOf(fwd, n)])
  {
    if n in fwd {
      assert fwd[n := fwd[n]] == fwd;
    } else {
      SameRelation(rev, fwd, fwd[n := {}], n);
    }
  }

  // Once a name has no keys it can go.
  lemma NameGone<K(!new)>(rev: Reverse<K>, fwd: Forward<K>, n: string)
    requires Inverse(rev, fwd[n := {}])
    ensures Inverse(rev, fwd - {n})
  {
    SameRelation(rev, fwd[n := {}], fwd - {n}, n);
  }

  // The loops over what a name had and what it is to have.
  method DropExcept<K(!new)>(rev: Reverse<K>, n: string, current: set<K>, keep: set<K>, ghost fwd: Forward<K>)
    returns (rev': Reverse<K>)
    requires Inverse(rev, fwd[n := current])
    ensures Inverse(rev', fwd[n := current * keep])
  {
    rev' := rev;
    var todo := current;
    assert current * keep + todo == current;
    while todo != {}
      invariant todo <= current && Inverse(rev', fwd[n := current * keep + todo])
      decreases todo
    {
      var k :| k in todo;
      ghost var now := fwd[n := current * keep + todo];
      if k !in keep {
        DropInverse(rev', now, k, n);
        rev' := Drop(rev', k, n);
        Replaced(fwd, n, now[n], now[n] - {k}, current * keep + (todo - {k}));
      } else {
        assert now[n] == current * keep + (todo - {k});
      }
      todo := todo - {k};
    }
    assert current * keep + {} == current * keep;
  }

  method AddNew<K(!new)>(rev: Reverse<K>, n: string, wanted: set<K>, current: set<K>, ghost fwd: Forward<K>)
    returns (rev': Reverse<K>)
    requires Inverse(rev, fwd[n := current * wanted])
    ensures Inverse(rev', fwd[n := wanted])
  {
    rev' := rev;
    var todo := wanted;
    assert current * wanted + (wanted - todo) == current * wanted;
    while todo != {}
      invariant todo <= wanted && Inverse(rev', fwd[n := current * wanted + (wanted - todo)])
      decreases todo
    {
      var k :| k in todo;
      ghost var now := fwd[n := current * wanted + (wanted - todo)];
      if k !in current {
        AddInverse(rev', now, k, n);
        rev' := Add(rev', k, n);
        Replaced(fwd, n, now[n], now[n] + {k}, current * wanted + (wanted - (todo - {k})));
      } else {
        assert now[n] == current * wanted + (wanted - (todo - {k}));
      }
      todo := todo - {k};
    }
    assert current * wanted + (wanted - {}) == wanted;
  }

  lemma Replaced<K>(fwd: Forward<K>, n: string, a: set<K>, b: set<K>, c: set<K>)
    requires forall k :: k in b <==> k in c
    ensures fwd[n := a][n := b] == fwd[n := c]
  {
    assert b == c;
  }

  // ---------------------------------------------------------------------------------------------
  // The abstract state and what each call does to it.

  // sourceToPolicy and policyToSource.
  datatype Sources = Sources(policyOf: map<GroupVersionResource, string>, sourceOf: map<string, GroupVersionResource>)

  datatype State = State(
    sources: Sources,
    could: map<string, bool>,  // policyCouldEnqueue
    policies: Forward<GroupVersionResource>,
    lifecycles: Forward<DependentResource>)

  datatype Op =
    | SetPolicy(policy: string, source: GroupVersionResource, references: set<GroupVersionResource>)
    | RemovePolicy(policy: string)
    | CheckSynced(policy: string, synced: set<GroupVersionResource>)
    | SetLifecycle(lifecycle: string, dependents: set<DependentResource>)
    | RemoveLifecycle(lifecycle: string)

  const START := State(Sources(map[], map[]), map[], map[], map[])

  predicate Taken(s: Sources, policy: string, source: GroupVersionResource) {
    source in s.policyOf && s.policyOf[source] != policy
  }

  function Bind(s: Sources, policy: string, source: GroupVersionResource): Sources {
    Sources(s.policyOf[source := policy], s.sourceOf[policy := source])
  }

  function Unbind(s: Sources, policy: string): Sources {
    if policy in s.sourceOf then Sources(s.policyOf - {s.sourceOf[policy]}, s.sourceOf - {policy}) else s
  }

  // Everything the policy depends on has synced.
  predicate Synced(s: State, policy: string, synced: set<GroupVersionResource>) {
    policy in s.policies && s.policies[policy] <= synced
  }

  function Do(s: State, op: Op): State {
    match op
    case SetPolicy(p, source, references) =>
      if Taken(s.sources, p, source) then s
      else s.(sources := Bind(s.sources, p, source), could := s.could[p := false],
          policies := s.policies[p := references + {source}])
    case RemovePolicy(p) =>
      s.(sources := Unbind(s.sources, p), could := s.could - {p}, policies := s.policies - {p})
    case CheckSynced(p, synced) =>
      if Synced(s, p, synced) && p in s.could then s.(could := s.could[p := true]) else s
    case SetLifecycle(l, dependents) => s.(lifecycles := s.lifecycles[l := dependents])
    case RemoveLifecycle(l) => s.(lifecycles := s.lifecycles - {l})
  }

  function After(ops: seq<Op>): State {
    if ops == [] then START else Do(After(ops[..|ops| - 1]), ops[|ops| - 1])
  }

  // The names an event is passed on to.
  datatype Enqueued = Enqueued(policies: set<string>, lifecycles: set<string>)

  function LifecyclesOf(lifecycles: Forward<DependentResource>, event: DependentResource): set<string> {
    set l | l in lifecycles && event in lifecycles[l]
  }

  function Enqueues(s: State, event: DependentResource): Option<Enqueued> {
    var lifecycles := LifecyclesOf(s.lifecycles, event);
    if event.gvr !in s.sources.policyOf then Some(Enqueued({}, lifecycles))
    else
      var p := s.sources.policyOf[event.gvr];
      if p !in s.could then None else Some(Enqueued(if s.could[p] then {p} else {}, lifecycles))
  }

  // ---------------------------------------------------------------------------------------------
  // Sources. A policy has one source, but the table from sources to policies may keep earlier ones.

  // The source of a policy is bound to that policy.
  ghost predicate Bound(s: Sources) {
    forall p :: p in s.sourceOf ==> s.sourceOf[p] in s.policyOf && s.policyOf[s.sourceOf[p]] == p
  }

  // And to nothing else: the two tables are inverse to each other.
  ghost predicate Exact(s: Sources) {
    forall g :: g in s.policyOf ==> s.policyOf[g] in s.sourceOf && s.sourceOf[s.policyOf[g]] == g
  }

  // Every source leads to a policy that is there.
  ghost predicate NoneDangles(s: Sources) {
    forall g :: g in s.policyOf ==> s.policyOf[g] in s.sourceOf
  }

  ghost predicate Coupled(s: State) {
    && Bound(s.sources) && s.sources.sourceOf.Keys == s.could.Keys == s.policies.Keys
    && forall p :: p in s.policies ==> s.sources.sourceOf[p] in s.policies[p]
  }

  lemma DoKeepsCoupled(s: State, op: Op)
    requires Coupled(s)
    ensures Coupled(Do(s, op))
  {
  }

  lemma {:induction false} AlwaysBound(ops: seq<Op>)
    ensures Coupled(After(ops))
  {
    if ops != [] {
      AlwaysBound(ops[..|ops| - 1]);
      DoKeepsCoupled(After(ops[..|ops| - 1]), ops[|ops| - 1]);
    }
  }

  // No two policies have the same source.
  lemma SourcesDiffer(ops: seq<Op>, p: string, q: string)
    requires p in After(ops).sources.sourceOf && q in After(ops).sources.sourceOf && p != q
    ensures After(ops).sources.sourceOf[p] != After(ops).sources.sourceOf[q]
  {
    AlwaysBound(ops);
  }

  // Call i sets the policy, and its source is not taken by another one.
  ghost predicate SetsAt(ops: seq<Op>, p: string, i: nat)
    requires i < |ops|
  {
    ops[i].SetPolicy? && ops[i].policy == p && !Taken(After(ops[..i]).sources, p, ops[i].source)
  }

  // Call i sets or removes the policy.
  ghost predicate ChangesAt(ops: seq<Op>, p: string, i: nat)
    requires i < |ops|
  {
    SetsAt(ops, p, i) || ops[i] == Op.RemovePolicy(p)
  }

  // Call i is a check of the policy, which is there, and finds everything synced that it depends on.
  ghost predicate SyncsAt(ops: seq<Op>, p: string, i: nat)
    requires i < |ops|
  {
    && ops[i].CheckSynced? && ops[i].policy == p && p in After(ops[..i]).policies
    && After(ops[..i]).policies[p] <= ops[i].synced
  }

  ghost predicate KeptSince(ops: seq<Op>, p: string, i: nat) {
    forall j :: i < j < |ops| ==> !ChangesAt(ops, p, j)
  }

  lemma SamePrefix(ops: seq<Op>, i: nat)
    requires i < |ops| - 1
    ensures ops[..|ops| - 1][..i] == ops[..i] && ops[..|ops| - 1][i] == ops[i]
  {
  }

  lemma KeptLonger(ops: seq<Op>, p: string, i: nat)
    requires i < |ops| - 1
    ensures KeptSince(ops, p, i) <==> KeptSince(ops[..|ops| - 1], p, i) && !ChangesAt(ops, p, |ops| - 1)
  {
    var init := ops[..|ops| - 1];
    forall j: nat | j < |init| ensures ChangesAt(init, p, j) <==> ChangesAt(ops, p, j) {
      SamePrefix(ops, j);
    }
  }

  lemma {:induction false} SettingHolds(ops: seq<Op>, p: string, i: nat)
    requires i < |ops| && SetsAt(ops, p, i) && KeptSince(ops, p, i)
    ensures p in After(ops).policies && After(ops).policies[p] == ops[i].references + {ops[i].source}
    ensures p in After(ops).sources.sourceOf && After(ops).sources.sourceOf[p] == ops[i].source
    decreases |ops|
  {
    if i < |ops| - 1 {
      SamePrefix(ops, i);
      KeptLonger(ops, p, i);
      SettingHolds(ops[..|ops| - 1], p, i);
      assert !ChangesAt(ops, p, |ops| - 1);
    }
  }

  lemma {:induction false} LastSetting(ops: seq<Op>, p: string) returns (i: nat)
    requires p in After(ops).policies
    ensures i < |ops| && SetsAt(ops, p, i) && KeptSince(ops, p, i)
  {
    i := |ops| - 1;
    if !SetsAt(ops, p, i) {
      i := LastSetting(ops[..|ops| - 1], p);
      SamePrefix(ops, i);
      KeptLonger(ops, p, i);
    }
  }

  // A policy is there exactly if a call has set it since the last removal, and its source and what it
  // depends on are what the last such call said.
  lemma PolicyIsLastSetting(ops: seq<Op>, p: string)
    ensures p in After(ops).policies <==> exists i: nat :: i < |ops| && SetsAt(ops, p, i) && KeptSince(ops, p, i)
    ensures forall i: nat :: i < |ops| && SetsAt(ops, p, i) && KeptSince(ops, p, i) ==>
              && After(ops).policies[p] == ops[i].references + {ops[i].source}
              && p in After(ops).sources.sourceOf && After(ops).sources.sourceOf[p] == ops[i].source
  {
    if p in After(ops).policies {
      var i := LastSetting(ops, p);
    }
    forall i: nat | i < |ops| && SetsAt(ops, p, i) && KeptSince(ops, p, i)
      ensures p in After(ops).policies && After(ops).policies[p] == ops[i].references + {ops[i].source}
      ensures p in After(ops).sources.sourceOf && After(ops).sources.sourceOf[p] == ops[i].source
    {
      SettingHolds(ops, p, i);
    }
  }

  lemma {:induction false} SyncHolds(ops: seq<Op>, p: string, i: nat)
    requires i < |ops| && SyncsAt(ops, p, i) && KeptSince(ops, p, i)
    ensures p in After(ops).could && After(ops).could[p]
    decreases |ops|
  {
    var init := ops[..|ops| - 1];
    AlwaysBound(init);
    if i < |ops| - 1 {
      SamePrefix(ops, i);
      KeptLonger(ops, p, i);
      SyncHolds(init, p, i);
      assert !ChangesAt(ops, p, |ops| - 1);
    }
  }

  lemma {:induction false} LastSync(ops: seq<Op>, p: string) returns (i: nat)
    requires p in After(ops).could && After(ops).could[p]
    ensures i < |ops| && SyncsAt(ops, p, i) && KeptSince(ops, p, i)
  {
    i := |ops| - 1;
    if !SyncsAt(ops, p, i) {
      i := LastSync(ops[..|ops| - 1], p);
      SamePrefix(ops, i);
      KeptLonger(ops, p, i);
    }
  }

  // A policy may be enqueued exactly if a check has found everything synced that it depends on since it was
  // last set.
  lemma CouldExactlyAfterSync(ops: seq<Op>, p: string)
    ensures p in After(ops).could && After(ops).could[p] <==>
            exists i: nat :: i < |ops| && SyncsAt(ops, p, i) && KeptSince(ops, p, i)
  {
    if p in After(ops).could && After(ops).could[p] {
      var i := LastSync(ops, p);
    }
    if i: nat :| i < |ops| && SyncsAt(ops, p, i) && KeptSince(ops, p, i) {
      SyncHolds(ops, p, i);
    }
  }

  // The last call for the lifecycle, if there is one.
  ghost predicate LastFor(ops: seq<Op>, l: string, i: nat) {
    && i < |ops| && ForLifecycle(ops[i], l)
    && forall j :: i < j < |ops| ==> !ForLifecycle(ops[j], l)
  }

  predicate ForLifecycle(op: Op, l: string) {
    (op.SetLifecycle? && op.lifecycle == l) || op == Op.RemoveLifecycle(l)
  }

  // A lifecycle depends on what its last setting says, and on nothing if it was never set or was removed.
  lemma {:induction false} LifecycleIsLastSetting(ops: seq<Op>, l: string)
    ensures l in After(ops).lifecycles <==> exists i: nat :: LastFor(ops, l, i) && ops[i].SetLifecycle?
    ensures forall i: nat :: LastFor(ops, l, i) && ops[i].SetLifecycle? ==>
              l in After(ops).lifecycles && After(ops).lifecycles[l] == ops[i].dependents
  {
    if ops != [] {
      var n := |ops| - 1;
      var init := ops[..n];
      LifecycleIsLastSetting(init, l);
      if ForLifecycle(ops[n], l) {
        assert LastFor(ops, l, n);
      } else {
        forall i: nat ensures LastFor(ops, l, i) <==> LastFor(init, l, i) {
        }
      }
    }
  }

  // The step gives a policy that has a source another one.
  ghost predicate Moves(s: State, op: Op) {
    && op.SetPolicy? && !Taken(s.sources, op.policy, op.source)
    && op.policy in s.sources.sourceOf && s.sources.sourceOf[op.policy] != op.source
  }

  lemma ExactUntilMove(s: State, op: Op)
    requires Bound(s.sources) && Exact(s.sources)
    ensures Exact(Do(s, op).sources) <==> !Moves(s, op)
  {
    if Moves(s, op) {
      assert s.sources.sourceOf[op.policy] in Do(s, op).sources.policyOf;
    }
  }

  ghost predicate AlwaysExact(ops: seq<Op>) {
    Exact(After(ops).sources) && (ops == [] || AlwaysExact(ops[..|ops| - 1]))
  }

  ghost predicate NeverMoves(ops: seq<Op>) {
    ops == [] || (NeverMoves(ops[..|ops| - 1]) && !Moves(After(ops[..|ops| - 1]), ops[|ops| - 1]))
  }

  // The two source tables are inverse to each other all along a run exactly if no policy gets another
  // source before it is removed.
  lemma {:induction false} ExactExactlyWithoutMoves(ops: seq<Op>)
    ensures AlwaysExact(ops) <==> NeverMoves(ops)
  {
    if ops != [] {
      var init := ops[..|ops| - 1];
      ExactExactlyWithoutMoves(init);
      AlwaysBound(init);
      if AlwaysExact(init) {
        ExactUntilMove(After(init), ops[|ops| - 1]);
      }
    }
  }

  // After whatever removal every source still leads to a policy exactly if the tables are inverse to
  // each other before it.
  lemma RemovalsAreSafe(ops: seq<Op>)
    ensures Exact(After(ops).sources) <==> forall p :: NoneDangles(Unbind(After(ops).sources, p))
  {
    var s := After(ops).sources;
    AlwaysBound(ops);
    if Exact(s) {
      forall p ensures NoneDangles(Unbind(s, p)) {}
    } else {
      var g :| g in s.policyOf && !(s.policyOf[g] in s.sourceOf && s.sourceOf[s.policyOf[g]] == g);
      var s' := Unbind(s, s.policyOf[g]);
      assert g in s'.policyOf && s'.policyOf[g] !in s'.sourceOf;
    }
  }

  // Handling an event panics exactly if its resource leads to a policy that is not there.
  lemma PanicsExactlyOnDangling(ops: seq<Op>, event: DependentResource)
    ensures var s := After(ops).sources;
            Enqueues(After(ops), event).None? <==> event.gvr in s.policyOf && s.policyOf[event.gvr] !in s.sourceOf
  {
    AlwaysBound(ops);
  }

  // While no policy gets another source, an event is passed on to the policy it is the source of, once
  // that has synced, and to the lifecycles that refer to it, and to nothing else.
  lemma EventsReachTheirPolicy(ops: seq<Op>, event: DependentResource)
    requires NeverMoves(ops)
    ensures var s, r := After(ops), Enqueues(After(ops), event);
            && r.Some?
            && (forall p :: p in r.value.policies <==>
                  p in s.sources.sourceOf && s.sources.sourceOf[p] == event.gvr && p in s.could && s.could[p])
            && (forall l :: l in r.value.lifecycles <==> Has(s.lifecycles, l, event))
  {
    ExactExactlyWithoutMoves(ops);
    AlwaysBound(ops);
  }

  // A policy moves from one source to another and is removed; a second policy still watches the first
  // source. The next event of it panics, and no other policy can have it as its source.
  lemma StaleSourcePanics(a: GroupVersionResource, b: GroupVersionResource, c: GroupVersionResource,
                          event: DependentResource)
    requires a != b && c != a && c != b && event.gvr == a
    ensures var s := After([SetPolicy("p", a, {}), SetPolicy("p", b, {}), SetPolicy("q", c, {a}), RemovePolicy("p")]);
            && Enqueues(s, event).None? && Has(s.policies, "q", a)
            && forall n :: n != "p" ==> Taken(s.sources, n, a)
  {
    var o1, o2, o3, o4 := SetPolicy("p", a, {}), SetPolicy("p", b, {}), SetPolicy("q", c, {a}), RemovePolicy("p");
    assert [o1, o2, o3, o4][..3] == [o1, o2, o3];
    assert [o1, o2, o3][..2] == [o1, o2];
    assert [o1, o2][..1] == [o1];
    var s1 := Do(START, o1);
    assert [o1][..0] == [] && After([o1]) == s1;
    var s2 := Do(s1, o2);
    assert After([o1, o2]) == s2;
    var s3 := Do(s2, o3);
    assert After([o1, o2, o3]) == s3;
    assert "p" != "q";
    assert s3.sources.policyOf[a] == "p" && s3.sources.sourceOf["p"] == b;
    assert After([o1, o2, o3, o4]) == Do(s3, o4);
  }

  // ---------------------------------------------------------------------------------------------
  // Informers.

  type Informers = map<GroupVersionResource, nat>

  // Every informer ever started runs for one resource, its channel open, or was stopped.
  ghost predicate Accounted(running: Informers, started: nat, closed: set<nat>) {
    && (forall g :: g in running ==> running[g] < started && running[g] !in closed)
    && (forall g, h :: g in running && h in running && running[g] == running[h] ==> g == h)
    && (forall i: nat :: i < started && i !in closed ==> exists g :: g in running && running[g] == i)
  }

  lemma StartAccounted(running: Informers, started: nat, closed: set<nat>, gvr: GroupVersionResource)
    requires Accounted(running, started, closed) && gvr !in running && started !in closed
    ensures Accounted(running[gvr := started], started + 1, closed)
  {
    var running' := running[gvr := started];
    forall i: nat | i < started + 1 && i !in closed ensures exists g :: g in running' && running'[g] == i {
      if i == started {
        assert running'[gvr] == i;
      } else {
        var g :| g in running && running[g] == i;
        assert running'[g] == i;
      }
    }
  }

  lemma StopAccounted(running: Informers, started: nat, closed: set<nat>, gvr: GroupVersionResource)
    requires Accounted(running, started, closed) && gvr in running
    ensures Accounted(running - {gvr}, started, closed + {running[gvr]})
  {
    var running', closed' := running - {gvr}, closed + {running[gvr]};
    forall i: nat | i < started && i !in closed' ensures exists g :: g in running' && running'[g] == i {
      var g :| g in running && running[g] == i;
      assert running'[g] == i;
    }
  }

  // ---------------------------------------------------------------------------------------------
  // The manager.

  class Manager {
    var listers: map<GroupVersionResource, nat>
    var controllers: map<GroupVersionResource, nat>
    var stopChs: map<GroupVersionResource, nat>
    var started: nat        // how many informers were started
    var closed: set<nat>    // the stop channels that are closed

    var sourceToPolicy: map<GroupVersionResource, string>
    var policyToSource: map<string, GroupVersionResource>
    var policyCouldEnqueue: map<string, bool>
    var policyToGVRs: Forward<GroupVersionResource>
    var gvrToPolicies: Reverse<GroupVersionResource>

    var referencesToLifecycle: Reverse<DependentResource>
    var lifecycleToReferences: Forward<DependentResource>

    function View(): State
      reads this
    {
      State(Sources(sourceToPolicy, policyToSource), policyCouldEnqueue, policyToGVRs, lifecycleToReferences)
    }

    ghost predicate InformersValid()
      reads this
    {
      && listers == controllers == stopChs
      && Accounted(stopChs, started, closed) && forall i :: i in closed ==> i < started
    }

    // One informer for each resource with a policy.
    ghost predicate Running()
      reads this
    {
      InformersValid() && stopChs.Keys == gvrToPolicies.Keys
    }

    ghost predicate Valid()
      reads this
    {
      && Running()
      && Inverse(gvrToPolicies, policyToGVRs)
      && Inverse(referencesToLifecycle, lifecycleToReferences)
    }

    constructor ()
      ensures Valid() && View() == START
    {
      listers, controllers, stopChs, started, closed := map[], map[], map[], 0, {};
      sourceToPolicy, policyToSource, policyCouldEnqueue := map[], map[], map[];
      policyToGVRs, gvrToPolicies := map[], map[];
      referencesToLifecycle, lifecycleToReferences := map[], map[];
    }

    method EnsureResourceController(gvr: GroupVersionResource)
      modifies this`listers, this`controllers, this`stopChs, this`started
      ensures gvr in old(controllers) ==>
                listers == old(listers) && controllers == old(controllers) && stopChs == old(stopChs)
                    && started == old(started)
      ensures gvr !in old(controllers) ==>
                && started == old(started) + 1 && stopChs == old(stopChs)[gvr := old(started)]
                && listers == old(listers)[gvr := old(started)] && controllers == old(controllers)[gvr := old(started)]
    {
      if gvr in controllers {
        return;
      }
      var informer := started;
      started := started + 1;
      listers := listers[gvr := informer];
      controllers := controllers[gvr := informer];
      stopChs := stopChs[gvr := informer];
    }

    // A channel is never closed twice.
    method CloseChannel(ch: nat)
      requires ch !in closed
      modifies this`closed
      ensures closed == old(closed) + {ch}
    {
      closed := closed + {ch};
    }

    method StopController(gvr: GroupVersionResource)
      requires InformersValid() && gvr in stopChs
      modifies this`listers, this`controllers, this`stopChs, this`closed
      ensures InformersValid() && stopChs == old(stopChs) - {gvr}
    {
      StopAccounted(stopChs, started, closed, gvr);
      if gvr in stopChs {
        CloseChannel(stopChs[gvr]);
        stopChs := stopChs - {gvr};
      }
      listers, controllers := listers - {gvr}, controllers - {gvr};
    }

    method BindPolicyDependentGVR(policy: string, gvr: GroupVersionResource, ghost fwd: Forward<GroupVersionResource>)
      requires Running() && Inverse(gvrToPolicies, fwd) && policy in fwd
      modifies this`listers, this`controllers, this`stopChs, this`started, this`gvrToPolicies
      ensures Running() && Inverse(gvrToPolicies, fwd[policy := fwd[policy] + {gvr}])
    {
      AddInverse(gvrToPolicies, fwd, gvr, policy);
      if gvr !in stopChs {
        StartAccounted(stopChs, started, closed, gvr);
      }
      EnsureResourceController(gvr);
      gvrToPolicies := Add(gvrToPolicies, gvr, policy);
    }

    method UnbindPolicyDependentGVR(policy: string, gvr: GroupVersionResource, ghost fwd: Forward<GroupVersionResource>)
      requires Running() && Inverse(gvrToPolicies, fwd) && policy in fwd && gvr in fwd[policy]
      modifies this`listers, this`controllers, this`stopChs, this`closed, this`gvrToPolicies
      ensures Running() && Inverse(gvrToPolicies, fwd[policy := fwd[policy] - {gvr}])
    {
      DropInverse(gvrToPolicies, fwd, gvr, policy);
      assert About(gvr) && Has(fwd, policy, gvr);
      var policies := gvrToPolicies[gvr] - {policy};
      if policies == {} {
        gvrToPolicies := gvrToPolicies - {gvr};
        StopController(gvr);
      } else {
        gvrToPolicies := gvrToPolicies[gvr := policies];
      }
    }

    method UnbindExcept(policy: string, current: set<GroupVersionResource>, keep: set<GroupVersionResource>,
                        ghost fwd: Forward<GroupVersionResource>)
      requires Running() && Inverse(gvrToPolicies, fwd[policy := current])
      modifies this`listers, this`controllers, this`stopChs, this`closed, this`gvrToPolicies
      ensures Running() && Inverse(gvrToPolicies, fwd[policy := current * keep])
    {
      var todo := current;
      assert current * keep + todo == current;
      while todo != {}
        invariant todo <= current
        invariant Running() && Inverse(gvrToPolicies, fwd[policy := current * keep + todo])
        decreases todo
      {
        var gvr :| gvr in todo;
        ghost var now := fwd[policy := current * keep + todo];
        if gvr !in keep {
          UnbindPolicyDependentGVR(policy, gvr, now);
          Replaced(fwd, policy, now[policy], now[policy] - {gvr}, current * keep + (todo - {gvr}));
        } else {
          assert now[policy] == current * keep + (todo - {gvr});
        }
        todo := todo - {gvr};
      }
      assert current * keep + {} == current * keep;
    }

    method BindNew(policy: string, gvrs: set<GroupVersionResource>, current: set<GroupVersionResource>,
                   ghost fwd: Forward<GroupVersionResource>)
      requires Running() && Inverse(gvrToPolicies, fwd[policy := current * gvrs])
      modifies this`listers, this`controllers, this`stopChs, this`started, this`gvrToPolicies
      ensures Running() && Inverse(gvrToPolicies, fwd[policy := gvrs])
    {
      var todo := gvrs;
      assert current * gvrs + (gvrs - todo) == current * gvrs;
      while todo != {}
        invariant todo <= gvrs
        invariant Running() && Inverse(gvrToPolicies, fwd[policy := current * gvrs + (gvrs - todo)])
        decreases todo
      {
        var gvr :| gvr in todo;
        ghost var now := fwd[policy := current * gvrs + (gvrs - todo)];
        if gvr !in current {
          BindPolicyDependentGVR(policy, gvr, now);
          Replaced(fwd, policy, now[policy], now[policy] + {gvr}, current * gvrs + (gvrs - (todo - {gvr})));
        } else {
          assert now[policy] == current * gvrs + (gvrs - (todo - {gvr}));
        }
        todo := todo - {gvr};
      }
      assert current * gvrs + (gvrs - {}) == gvrs;
    }

    // setPolicyDependentGVRs: no set removes the policy.
    method SetGVRs(policy: string, gvrs: Option<set<GroupVersionResource>>)
      requires Valid()
      modifies this`listers, this`controllers, this`stopChs, this`started, this`closed, this`gvrToPolicies,
          this`policyToGVRs
      ensures Valid()
      ensures policyToGVRs == if gvrs.None? then old(policyToGVRs) - {policy}
              else old(policyToGVRs)[policy := gvrs.value]
    {
      var current := KeysOf(policyToGVRs, policy);
      NameKept(gvrToPolicies, policyToGVRs, policy);
      match gvrs {
        case None =>
          UnbindExcept(policy, current, {}, policyToGVRs);
          assert current * {} == {};
          NameGone(gvrToPolicies, policyToGVRs, policy);
          policyToGVRs := policyToGVRs - {policy};
        case Some(wanted) =>
          UnbindExcept(policy, current, wanted, policyToGVRs);
          BindNew(policy, wanted, current, policyToGVRs);
          policyToGVRs := policyToGVRs[policy := wanted];
      }
    }

    method BindSource(policy: string, source: GroupVersionResource)
      requires Valid()
      modifies this`policyToSource, this`sourceToPolicy, this`policyCouldEnqueue
      ensures Valid() && Sources(sourceToPolicy, policyToSource) == Bind(old(View()).sources, policy, source)
      ensures policyCouldEnqueue == old(policyCouldEnqueue)[policy := false]
    {
      policyToSource := policyToSource[policy := source];
      sourceToPolicy := sourceToPolicy[source := policy];
      policyCouldEnqueue := policyCouldEnqueue[policy := false];
    }

    method SetPolicyDependentGVRs(policy: string, source: GroupVersionResource, references: set<GroupVersionResource>)
      returns (r: Result<(), string>)
      requires Valid()
      modifies this
      ensures Valid() && View() == Do(old(View()), SetPolicy(policy, source, references))
      ensures r.Failure? <==> Taken(old(View()).sources, policy, source)
      ensures r.Failure? ==> r.error == old(sourceToPolicy)[source]
    {
      if source in sourceToPolicy && sourceToPolicy[source] != policy {
        return Failure(sourceToPolicy[source]);
      }
      BindSource(policy, source);
      SetGVRs(policy, Some(references + {source}));
      return Success(());
    }

    method RemovePolicy(policy: string)
      requires Valid()
      modifies this
      ensures Valid() && View() == Do(old(View()), Op.RemovePolicy(policy))
    {
      SetGVRs(policy, None);
      policyCouldEnqueue := policyCouldEnqueue - {policy};
      if policy in policyToSource {
        var source := policyToSource[policy];
        policyToSource := policyToSource - {policy};
        sourceToPolicy := sourceToPolicy - {source};
      }
    }

    // The error for a controller that is not there never happens.
    method HasSyncedPolicyDependentResources(policy: string, synced: set<GroupVersionResource>)
      returns (r: Result<bool, string>)
      requires Valid()
      modifies this`policyCouldEnqueue
      ensures Valid() && View() == Do(old(View()), CheckSynced(policy, synced))
      ensures r == Success(Synced(old(View()), policy, synced))
    {
      if policy !in policyToGVRs {
        return Success(false);
      }
      var todo := policyToGVRs[policy];
      while todo != {}
        invariant todo <= policyToGVRs[policy] && policyToGVRs[policy] - todo <= synced
        decreases todo
      {
        var gvr :| gvr in todo;
        assert About(gvr) && Has(policyToGVRs, policy, gvr);
        if gvr !in controllers {
          return Failure("controller not found");
        }
        if gvr !in synced {
          return Success(false);
        }
        todo := todo - {gvr};
      }
      if policy in policyCouldEnqueue {
        policyCouldEnqueue := policyCouldEnqueue[policy := true];
      }
      return Success(true);
    }

    // setLifecycleDependentResources: no set removes the lifecycle.
    method SetReferences(lifecycle: string, references: Option<set<DependentResource>>)
      requires Inverse(referencesToLifecycle, lifecycleToReferences)
      modifies this`referencesToLifecycle, this`lifecycleToReferences
      ensures Inverse(referencesToLifecycle, lifecycleToReferences)
      ensures lifecycleToReferences == if references.None? then old(lifecycleToReferences) - {lifecycle}
                                       else old(lifecycleToReferences)[lifecycle := references.value]
    {
      var current := KeysOf(lifecycleToReferences, lifecycle);
      NameKept(referencesToLifecycle, lifecycleToReferences, lifecycle);
      match references {
        case None =>
          referencesToLifecycle := DropExcept(referencesToLifecycle, lifecycle, current, {}, lifecycleToReferences);
          assert current * {} == {};
          NameGone(referencesToLifecycle, lifecycleToReferences, lifecycle);
          lifecycleToReferences := lifecycleToReferences - {lifecycle};
        case Some(wanted) =>
          referencesToLifecycle := DropExcept(referencesToLifecycle, lifecycle, current, wanted, lifecycleToReferences);
          referencesToLifecycle := AddNew(referencesToLifecycle, lifecycle, wanted, current, lifecycleToReferences);
          lifecycleToReferences := lifecycleToReferences[lifecycle := wanted];
      }
    }

    method SetLifecycleDependentResources(lifecycle: string, references: set<DependentResource>)
      requires Valid()
      modifies this`referencesToLifecycle, this`lifecycleToReferences
      ensures Valid() && View() == Do(old(View()), SetLifecycle(lifecycle, references))
    {
      SetReferences(lifecycle, Some(references));
    }

    method RemoveLifecycle(lifecycle: string)
      requires Valid()
      modifies this`referencesToLifecycle, this`lifecycleToReferences
      ensures Valid() && View() == Do(old(View()), Op.RemoveLifecycle(lifecycle))
    {
      SetReferences(lifecycle, None);
    }

    // The event handler of a resource. A policy whose entry is missing is dereferenced all the same:
    // no result stands for that panic.
    method HandleEvent(event: DependentResource) returns (r: Option<Enqueued>)
      requires Valid()
      ensures r == Enqueues(View(), event)
    {
      var policies: set<string> := {};
      if event.gvr in sourceToPolicy {
        var policy := sourceToPolicy[event.gvr];
        if policy !in policyCouldEnqueue {
          return None;
        }
        if policyCouldEnqueue[policy] {
          policies := {policy};
        }
      }
      assert About(event);
      var lifecycles := if event in referencesToLifecycle then referencesToLifecycle[event] else {};
      assert lifecycles == LifecyclesOf(lifecycleToReferences, event) by {
        assert forall l :: l in lifecycles <==> Has(lifecycleToReferences, l, event);
      }
      return Some(Enqueued(policies, lifecycles));
    }
  }

  // Any sequence of calls, then an event: the outcome is that of the abstract state, the informers that
  // run are those of the resources that some policy depends on, and each one ever started runs for
  // exactly one of them or was stopped, once.
  method EventAfter(ops: seq<Op>, event: DependentResource)
    returns (r: Option<Enqueued>, running: Informers, started: nat, closed: set<nat>)
    ensures r == Enqueues(After(ops), event)
    ensures forall g :: g in running <==> exists p :: Has(After(ops).policies, p, g)
    ensures Accounted(running, started, closed)
  {
    var m := new Manager();
    for i := 0 to |ops|
      invariant fresh(m) && m.Valid() && m.View() == After(ops[..i])
    {
      assert ops[..i + 1][..i] == ops[..i];
      match ops[i] {
        case SetPolicy(p, source, references) => var _ := m.SetPolicyDependentGVRs(p, source, references);
        case RemovePolicy(p) => m.RemovePolicy(p);
        case CheckSynced(p, synced) => var _ := m.HasSyncedPolicyDependentResources(p, synced);
        case SetLifecycle(l, dependents) => m.SetLifecycleDependentResources(l, dependents);
        case RemoveLifecycle(l) => m.RemoveLifecycle(l);
      }
    }
    assert ops[..|ops|] == ops;
    r := m.HandleEvent(event);
    running, started, closed := m.controllers, m.started, m.closed;
    forall g ensures g in running <==> exists p :: Has(After(ops).policies, p, g) {
      assert About(g);
      if g in running {
        var p :| p in m.gvrToPolicies[g];
      }
    }
  }
}
