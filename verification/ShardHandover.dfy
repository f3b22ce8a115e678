// When the shard ownership protocol comes to rest, has the cluster reached the shard it is assigned
// to? It has, provided that no informer hides from its manager that its work was done for a while: a
// relist may skip versions, but not from a version that the manager has to claim or to release to another
// with the same spec and owner past one that did not ask that of it. Every change of the spec that is
// hidden so can leave the handover undone for good.
module ShardHandover {
  import opened Common
  import opened ShardOwnership

  // The two fields that updateCluster compares for a cluster that is not being deleted.
  predicate Same(a: Cluster, b: Cluster) { a.spec == b.spec && a.owner == b.owner }

  // m still has to claim or to release this version.
  predicate Needs(c: Cluster, m: Shard) {
    || (c.owner == None && c.spec == m)
    || (c.owner == Some(m) && c.spec != m)
  }

  // Both versions ask the same of m: to claim or to release.
  predicate Alike(a: Cluster, b: Cluster, m: Shard) {
    Needs(a, m) && Needs(b, m) && a.owner == b.owner
  }

  // From one version to the other, in whichever order, all ask the same of m.
  ghost predicate Unchanged(m: Shard, api: Api, v: nat, w: nat) {
    && v < |api.history| && w < |api.history|
    && forall x :: 0 <= x < |api.history| && (v <= x <= w || w <= x <= v) ==> Alike(api.history[x], api.history[v], m)
  }

  // A later version does not ask the same of m as version v.
  ghost predicate Outdated(m: Shard, api: Api, v: nat)
    requires v < |api.history|
  {
    exists w :: v < w < |api.history| && !Alike(api.history[w], api.history[v], m)
  }

  ghost predicate DeletionIsFinal(api: Api) {
    forall x, y :: 0 <= x <= y < |api.history| && api.history[x].deleting ==> api.history[y].deleting
  }

  // How the phase of the reconcile routine relates to the view it started from.
  ghost predicate Linked(m: Shard, api: Api, r: Routine)
    requires RoutineInRange(api, r)
  {
    match r.pc
    case Stopping(ThenRemove(v), _) => r.view == Present(v) && api.history[v].deleting
    case Stopping(ThenRelease, _) => r.view.Present? && ToRelease(m, api.history[r.view.version])
    case Removing(v) => r.view == Present(v) && api.history[v].deleting
    case Finalizing(v) => r.view == Present(v) && Relevant(api.history[v], m)
    case Releasing(c) =>
      r.view.Present? && ToRelease(m, api.history[r.view.version]) && r.view.version <= c.since
    case Claiming(c) =>
      r.view.Present? && ToClaim(m, api.history[r.view.version]) && r.view.version <= c.since
    case pc => OwnerPhase(pc) ==> r.view.Present? && ToClaim(m, api.history[r.view.version])
  }

  predicate ToRelease(m: Shard, c: Cluster) { c.owner == Some(m) && c.spec != m }

  predicate ToClaim(m: Shard, c: Cluster) { Relevant(c, m) && c.spec == m }

  // A reconcile that has ended, without giving up or asking for a retry, has made its view obsolete
  // or has found it obsolete on the live object.
  ghost predicate Resolved(m: Shard, api: Api, r: Routine)
    requires RoutineInRange(api, r)
  {
    && r.view.Present? && Needs(api.history[r.view.version], m) && !api.history[r.view.version].deleting
    && !r.gaveUp && !r.queued
    && (r.pc.Idle? || (r.pc.Stopping? && r.pc.next.Finished?))
    ==> Outdated(m, api, r.view.version)
  }

  // The cache shows work that the last view did not show: the key is on its way.
  ghost predicate Noticed(m: Shard, api: Api, l: Manager)
    requires InRange(api, l)
  {
    l.cache.Present? && Needs(api.history[l.cache.version], m) ==>
      || l.r.queued
      || Noted(m, api, l)
      || (l.r.view.Present? && Unchanged(m, api, l.r.view.version, l.cache.version))
  }

  ghost predicate Prompt(m: Shard, api: Api, l: Manager) {
    && ManagerInv(m, api, l)
    && Linked(m, api, l.r)
    && Resolved(m, api, l.r)
    && Noticed(m, api, l)
  }

  // The informer delivers work for m that updateCluster takes for unchanged, since spec and owner are
  // those of the cached version, past a version that did not ask the same of m.
  ghost predicate Hides(m: Shard, api: Api, l: Manager, a: Act) {
    && a.Informer? && a.informer.Deliver? && l.cache.Present?
    && l.cache.version < |api.history| && a.informer.version < |api.history|
    && var newer := api.history[a.informer.version];
       && Needs(newer, m) && !newer.deleting && Same(api.history[l.cache.version], newer)
       && !Unchanged(m, api, l.cache.version, a.informer.version)
  }

  lemma CallLinked(m: Shard, api: Api, cache: View, r: Routine, a: ReconcileAct)
    requires RoutineInRange(api, r) && ReconcileEnabled(r, a) && Calls(a) && Linked(m, api, r)
    ensures var (api', r') := ReconcileNext(m, api, cache, r, a);
            RoutineInRange(api', r') && Linked(m, api', r')
  {
    CallInRangeNext(m, api, cache, r, a);
    assert api.history <= ReconcileNext(m, api, cache, r, a).0.history;
  }

  lemma FinalizerLinked(m: Shard, api: Api, cache: View, r: Routine, a: ReconcileAct)
    requires RoutineInRange(api, r) && ReconcileEnabled(r, a) && Finalizes(a) && Linked(m, api, r)
    ensures var (api', r') := ReconcileNext(m, api, cache, r, a);
            RoutineInRange(api', r') && Linked(m, api', r')
  {
    FinalizerInRange(m, api, cache, r, a);
    assert api.history <= ReconcileNext(m, api, cache, r, a).0.history;
  }

  lemma LocalLinked(m: Shard, api: Api, cache: View, r: Routine, a: ReconcileAct)
    requires RoutineInRange(api, r) && ViewInRange(api, cache) && ReconcileEnabled(r, a) && !Calls(a) && !Finalizes(a)
             && Linked(m, api, r)
    ensures var (api', r') := ReconcileNext(m, api, cache, r, a);
            RoutineInRange(api', r') && Linked(m, api', r')
  {
    LocalInRange(m, api, cache, r, a);
  }

  lemma LinkedNext(m: Shard, api: Api, cache: View, r: Routine, a: ReconcileAct)
    requires RoutineInRange(api, r) && ViewInRange(api, cache) && ReconcileEnabled(r, a)
    requires Linked(m, api, r)
    ensures var (api', r') := ReconcileNext(m, api, cache, r, a);
            RoutineInRange(api', r') && Linked(m, api', r')
  {
    if Calls(a) {
      CallLinked(m, api, cache, r, a);
    } else if Finalizes(a) {
      FinalizerLinked(m, api, cache, r, a);
    } else {
      LocalLinked(m, api, cache, r, a);
    }
  }

  // The deciding reads and writes of a claim or a release leave a version behind that differs from
  // the view.
  lemma CallOutdates(m: Shard, api: Api, cache: View, r: Routine, a: ReconcileAct)
    requires RoutineInRange(api, r) && ReconcileEnabled(r, a) && a.Write?
    requires Linked(m, api, r) && Needs(api.history[r.view.version], m)
    requires !ReconcileNext(m, api, cache, r, a).1.queued && !CallPc(ReconcileNext(m, api, cache, r, a).1.pc)
    ensures var api' := ReconcileNext(m, api, cache, r, a).0;
            r.view.version < |api'.history| && Outdated(m, api', r.view.version)
  {
    var api' := ReconcileNext(m, api, cache, r, a).0;
    var seen := r.pc.call.read.value;
    assert api.history <= api'.history;
    assert !Alike(api'.history[seen], api'.history[r.view.version], m) ||
           !Alike(api'.history[|api'.history| - 1], api'.history[r.view.version], m);
  }

  lemma CallResolved(m: Shard, api: Api, cache: View, r: Routine, a: ReconcileAct)
    requires RoutineInRange(api, r) && ReconcileEnabled(r, a) && Calls(a) && Linked(m, api, r)
    ensures var (api', r') := ReconcileNext(m, api, cache, r, a);
            RoutineInRange(api', r') && Resolved(m, api', r')
  {
    CallInRangeNext(m, api, cache, r, a);
    var (api', r') := ReconcileNext(m, api, cache, r, a);
    assert api.history <= api'.history;
    if a.Write? && Needs(api.history[r.view.version], m) && !r'.queued && !CallPc(r'.pc) {
      CallOutdates(m, api, cache, r, a);
    }
  }

  lemma FinalizerResolved(m: Shard, api: Api, cache: View, r: Routine, a: ReconcileAct)
    requires RoutineInRange(api, r) && ReconcileEnabled(r, a) && Finalizes(a) && Linked(m, api, r)
    ensures var (api', r') := ReconcileNext(m, api, cache, r, a);
            RoutineInRange(api', r') && Resolved(m, api', r')
  {
    FinalizerInRange(m, api, cache, r, a);
    assert api.history <= ReconcileNext(m, api, cache, r, a).0.history;
  }

  lemma LocalResolved(m: Shard, api: Api, cache: View, r: Routine, a: ReconcileAct)
    requires RoutineInRange(api, r) && ViewInRange(api, cache) && ReconcileEnabled(r, a) && !Calls(a) && !Finalizes(a)
    requires Bookkeeping(r) && Ownership(m, api, r) && Linked(m, api, r) && Resolved(m, api, r)
    ensures var (api', r') := ReconcileNext(m, api, cache, r, a);
            RoutineInRange(api', r') && Resolved(m, api', r')
  {
    LocalInRange(m, api, cache, r, a);
    if OwnerPhase(r.pc) && Needs(api.history[r.view.version], m) {
      assert !Alike(api.history[api.Version()], api.history[r.view.version], m);
    }
  }

  lemma ResolvedNext(m: Shard, api: Api, cache: View, r: Routine, a: ReconcileAct)
    requires RoutineInRange(api, r) && ViewInRange(api, cache) && ReconcileEnabled(r, a)
    requires Bookkeeping(r) && Ownership(m, api, r) && Linked(m, api, r) && Resolved(m, api, r)
    ensures var (api', r') := ReconcileNext(m, api, cache, r, a);
            RoutineInRange(api', r') && Resolved(m, api', r')
  {
    if Calls(a) {
      CallResolved(m, api, cache, r, a);
    } else if Finalizes(a) {
      FinalizerResolved(m, api, cache, r, a);
    } else {
      LocalResolved(m, api, cache, r, a);
    }
  }

  lemma UnchangedGrows(m: Shard, api: Api, api': Api, v: nat, w: nat)
    requires Unchanged(m, api, v, w) && api.history <= api'.history
    ensures Unchanged(m, api', v, w)
  {
  }

  lemma PromptStable(m: Shard, api: Api, api': Api, l: Manager)
    requires Prompt(m, api, l) && ManagerInv(m, api', l) && api.history <= api'.history
    ensures Prompt(m, api', l)
  {
    if Noted(m, api, l) {
      NotedGrows(m, api, api', l, l);
    }
    if l.r.view.Present? && Outdated(m, api, l.r.view.version) {
      var w :| l.r.view.version < w < |api.history| && !Alike(api.history[w], api.history[l.r.view.version], m);
      assert !Alike(api'.history[w], api'.history[l.r.view.version], m);
    }
  }

  lemma InformerPrompt(m: Shard, api: Api, l: Manager, a: InformerAct)
    requires Prompt(m, api, l) && InformerEnabled(api, l, a) && !Hides(m, api, l, Informer(a))
    ensures Prompt(m, api, InformerNext(m, api, l, a))
  {
    StepKeepsManager(m, api, l, Informer(a));
    var l' := InformerNext(m, api, l, a);
    if a.HandleNote? {
      if Noted(m, api, l) && !l'.r.queued {
        var i :| 0 <= i < |l.notes| && Enqueues(api, m, l.notes[i]);
        assert l'.notes[i - 1] == l.notes[i];
      }
    } else if Noted(m, api, l) {
      NotedGrows(m, api, api, l, l');
    } else if a.Deliver? && Needs(api.history[a.version], m) {
      // either the new note enqueues, or nothing that matters has changed since the view
      var last := l'.notes[|l.notes|];
      assert Enqueues(api, m, last) || (l.cache.Present? && Same(api.history[l.cache.version], api.history[a.version]));
    }
  }

  // Only handing out the key takes it from the queue, and then the view is the cache.
  lemma QueuedUntilViewed(m: Shard, api: Api, cache: View, r: Routine, a: ReconcileAct)
    requires RoutineInRange(api, r) && ReconcileEnabled(r, a)
    ensures var r' := ReconcileNext(m, api, cache, r, a).1;
            if a.Get? then r'.view == cache else r'.view == r.view && (r.queued ==> r'.queued)
  {
  }

  lemma ReconcileNoticed(m: Shard, api: Api, l: Manager, a: ReconcileAct)
    requires ManagerInv(m, api, l) && Noticed(m, api, l) && ReconcileEnabled(l.r, a)
    ensures var (api', l') := Next(m, api, l, Reconcile(a));
            InRange(api', l') && Noticed(m, api', l')
  {
    var (api', l') := Next(m, api, l, Reconcile(a));
    ReconcileInRange(m, api, l, a);
    StepGuarantee(m, api, l, Reconcile(a));
    QueuedUntilViewed(m, api, l.cache, l.r, a);
    if Noted(m, api, l) {
      NotedGrows(m, api, api', l, l');
    }
    if l.r.view.Present? && l.cache.Present? && Unchanged(m, api, l.r.view.version, l.cache.version) {
      UnchangedGrows(m, api, api', l.r.view.version, l.cache.version);
    }
  }

  lemma ReconcilePrompt(m: Shard, api: Api, l: Manager, a: ReconcileAct)
    requires Prompt(m, api, l) && ReconcileEnabled(l.r, a)
    ensures var (api', l') := Next(m, api, l, Reconcile(a));
            Prompt(m, api', l')
  {
    StepKeepsManager(m, api, l, Reconcile(a));
    LinkedNext(m, api, l.cache, l.r, a);
    ResolvedNext(m, api, l.cache, l.r, a);
    ReconcileNoticed(m, api, l, a);
  }

  lemma StepPrompt(m: Shard, api: Api, l: Manager, a: Act)
    requires Prompt(m, api, l) && Enabled(api, l, a) && !Hides(m, api, l, a)
    ensures Prompt(m, Next(m, api, l, a).0, Next(m, api, l, a).1)
  {
    match a
    case Informer(act) => InformerPrompt(m, api, l, act);
    case Reconcile(act) => ReconcilePrompt(m, api, l, act);
    case Background(act) =>
      StepKeepsManager(m, api, l, a);
      StepGuarantee(m, api, l, a);
      BackgroundKeepsOwner(m, api, l, act);
      RelyKeepsManager(m, api, Next(m, api, l, a).0, l);
      PromptStable(m, api, Next(m, api, l, a).0, l);
    case Crash =>
  }

  ghost predicate PromptState(s: State) {
    && s.api.Valid() && DeletionIsFinal(s.api)
    && forall m :: m in s.managers ==> Prompt(m, s.api, s.managers[m])
  }

  ghost predicate OpenRun(states: seq<State>, actions: seq<Action>) {
    && IsRun(states, actions)
    && forall i :: 0 <= i < |actions| && actions[i].By? && actions[i].who in states[i].managers ==>
         !Hides(actions[i].who, states[i].api, states[i].managers[actions[i].who], actions[i].act)
  }

  lemma StepKeepsDeletionFinal(s: State, a: Action, s': State)
    requires WellTyped(s) && DeletionIsFinal(s.api) && Step(s, a, s')
    ensures s'.api.Valid() && DeletionIsFinal(s'.api) && s.api.history <= s'.api.history
  {
    if a.By? {
      StepGuarantee(a.who, s.api, s.managers[a.who], a.act);
    }
  }

  lemma StepKeepsPrompt(s: State, a: Action, s': State)
    requires PromptState(s) && Inv(s') && Step(s, a, s')
    requires a.By? ==> !Hides(a.who, s.api, s.managers[a.who], a.act)
    ensures PromptState(s')
  {
    StepKeepsDeletionFinal(s, a, s');
    forall m | m in s'.managers ensures Prompt(m, s'.api, s'.managers[m]) {
      if a.By? && a.who == m {
        StepPrompt(m, s.api, s.managers[m], a.act);
      } else {
        PromptStable(m, s.api, s'.api, s.managers[m]);
      }
    }
  }

  lemma {:induction false} RunKeepsPrompt(states: seq<State>, actions: seq<Action>, i: nat)
    requires OpenRun(states, actions) && i < |states|
    ensures PromptState(states[i])
  {
    if i > 0 {
      RunKeepsPrompt(states, actions, i - 1);
      RunKeepsInv(states, actions, i - 1);
      RunKeepsInv(states, actions, i);
      StepKeepsPrompt(states[i - 1], actions[i - 1], states[i]);
    }
  }

  // A manager at rest: nothing queued, noted or running, and its cache is current.
  predicate AtRest(api: Api, l: Manager)
    requires api.Valid()
  {
    l.notes == [] && !l.r.queued && l.r.pc.Idle? && !l.r.gaveUp && l.cache == Present(api.Version())
  }

  // With informers that hide no such change, a system at rest has finished every handover: no manager still owns a
  // cluster that is assigned elsewhere, and no manager has left an unowned cluster of its own
  // unclaimed. So the owner is the assigned manager, unless one of the two is not running at all.
  lemma HandoverCompletes(states: seq<State>, actions: seq<Action>, i: nat)
    requires OpenRun(states, actions) && i < |states|
    requires states[i].api.Valid() && !states[i].api.Live().deleting
    requires forall m :: m in states[i].managers ==> AtRest(states[i].api, states[i].managers[m])
    ensures var c := states[i].api.Live();
            && (forall m :: m in states[i].managers ==> !Needs(c, m))
            && (c.spec in states[i].managers && (c.owner.Some? ==> c.owner.value in states[i].managers)
                ==> c.owner == Some(c.spec))
  {
    RunKeepsPrompt(states, actions, i);
    var api := states[i].api;
    forall m | m in states[i].managers ensures !Needs(api.Live(), m) {
      var l := states[i].managers[m];
      assert !Noted(m, api, l);
    }
  }

  // ---------------------------------------------------------------------------------------------
  // Hidden changes are missed.

  // A system of one manager.
  function Alone(m: Shard, api: Api, l: Manager): State { State(api, map[m := l]) }

  // Some run leads there.
  ghost predicate Comes(m: Shard, api: Api, l: Manager) {
    exists states: seq<State>, actions: seq<Action> ::
      IsRun(states, actions) && states[|states| - 1] == Alone(m, api, l)
  }

  lemma StepComes(m: Shard, api: Api, l: Manager, a: Action, api': Api, l': Manager)
    requires Comes(m, api, l) && WellTyped(Alone(m, api, l)) && Step(Alone(m, api, l), a, Alone(m, api', l'))
    ensures Comes(m, api', l')
  {
    var states: seq<State>, actions: seq<Action> :| IsRun(states, actions) && states[|states| - 1] == Alone(m, api, l);
    var states', actions' := states + [Alone(m, api', l')], actions + [a];
    assert IsRun(states', actions') && states'[|states'| - 1] == Alone(m, api', l');
  }

  lemma ActComes(m: Shard, api: Api, l: Manager, a: Act)
    requires Comes(m, api, l) && InRange(api, l) && Enabled(api, l, a)
    ensures Comes(m, Next(m, api, l, a).0, Next(m, api, l, a).1)
  {
    var (api', l') := Next(m, api, l, a);
    assert map[m := l][m := l'] == map[m := l'];
    StepComes(m, api, l, By(m, a), api', l');
  }

  // A user assigns the cluster to a shard.
  lemma AssignComes(m: Shard, api: Api, l: Manager, b: Shard)
    requires Comes(m, api, l) && InRange(api, l) && !api.gone && api.Live().finalizer && !api.Live().deleting
    ensures Comes(m, api.Append(api.Live().(spec := b)), l)
  {
    StepComes(m, api, l, Edit(b, true, false, false), api.Append(api.Live().(spec := b)), l);
  }

  // A manager without synchro and status writers.
  function Bare(cache: View, notes: seq<Note>, queued: bool, pc: Pc, view: View): Manager {
    Manager(cache, notes, map[], Routine(queued, false, 0, pc, view, false))
  }

  // The manager has seen the first version and is about to decide on it.
  lemma Loads(m: Shard, a: Cluster)
    requires Relevant(a, m)
    ensures Comes(m, Api([a], false), Bare(Present(0), [], false, Loaded, Present(0)))
  {
    var api := Api([a], false);
    assert IsRun([Alone(m, api, FRESH)], []);
    assert Comes(m, api, FRESH) by {
      assert [Alone(m, api, FRESH)][0] == Alone(m, api, FRESH);
    }
    ActComes(m, api, FRESH, Informer(Deliver(0)));
    var l1 := Bare(Present(0), [AddNote(0)], false, Idle, Absent);
    assert FRESH.notes + [AddNote(0)] == [AddNote(0)];
    ActComes(m, api, l1, Informer(HandleNote));
    var l2 := Bare(Present(0), [], true, Idle, Absent);
    assert [AddNote(0)][1..] == [];
    ActComes(m, api, l2, Reconcile(Get));
  }

  // The call that the first version asks for.
  function Begun(m: Shard, a: Cluster, since: nat): Pc {
    if a.owner == None then Claiming(Call(Claim, false, false, 0, None, since))
    else Releasing(Call(Release, false, false, 0, None, since))
  }

  // The object once the finalizer is there.
  function Prepared(a: Cluster): Api {
    Api(if a.finalizer then [a] else [a, a.(finalizer := true)], false)
  }

  // The manager has added the finalizer, if need be, and has begun to claim or to release.
  lemma Begins(m: Shard, a: Cluster)
    requires Needs(a, m) && !a.deleting
    ensures Comes(m, Prepared(a), Bare(Present(0), [], false, Begun(m, a, Prepared(a).Version()), Present(0)))
  {
    Loads(m, a);
    var api, api' := Api([a], false), Prepared(a);
    var next := if a.owner == None then Begun(m, a, api'.Version()) else Stopping(ThenRelease, false);
    ActComes(m, api, Bare(Present(0), [], false, Loaded, Present(0)), Reconcile(Decide));
    if !a.finalizer {
      assert [a] + [a.(finalizer := true)] == [a, a.(finalizer := true)];
      ActComes(m, api, Bare(Present(0), [], false, Finalizing(0), Present(0)),
          Reconcile(AddFinalizer(Delivered, false)));
    }
    assert Comes(m, api', Bare(Present(0), [], false, next, Present(0)));
    if a.owner != None {
      ActComes(m, api', Bare(Present(0), [], false, next, Present(0)), Reconcile(Shutdown));
    }
  }

  // It meets a version that asks for nothing, and ends without retry.
  lemma MeetsOther(m: Shard, a: Cluster, b: Shard)
    requires Needs(a, m) && !a.deleting && !Alike(a.(spec := b), a, m)
    ensures Comes(m, Prepared(a).Append(a.(spec := b, finalizer := true)),
            Bare(Present(0), [], false, Idle, Present(0)))
  {
    Begins(m, a);
    var other := a.(spec := b, finalizer := true);
    var api := Prepared(a).Append(other);
    var pc := Begun(m, a, Prepared(a).Version());
    AssignComes(m, Prepared(a), Bare(Present(0), [], false, pc, Present(0)), b);
    ActComes(m, api, Bare(Present(0), [], false, pc, Present(0)), Reconcile(Read(Delivered)));
    var call := pc.call.(readLive := true, read := Some(api.Version()));
    var read := if a.owner == None then Claiming(call) else Releasing(call);
    ActComes(m, api, Bare(Present(0), [], false, read, Present(0)), Reconcile(Write(other.conditions, Delivered)));
    if a.owner == None {
      ActComes(m, api, Bare(Present(0), [], false, Stopping(Finished, false), Present(0)), Reconcile(Shutdown));
    }
  }

  // The assignment comes back before the informer delivers.
  lemma ComesBack(m: Shard, a: Cluster, b: Shard)
    requires Needs(a, m) && !a.deleting && !Alike(a.(spec := b), a, m)
    ensures Comes(m, Returned(a, b), Bare(Present(0), [], false, Idle, Present(0)))
  {
    MeetsOther(m, a, b);
    var other := Prepared(a).Append(a.(spec := b, finalizer := true));
    AssignComes(m, other, Bare(Present(0), [], false, Idle, Present(0)), a.spec);
  }

  // The object with the other assignment in between.
  function Returned(a: Cluster, b: Shard): Api {
    Prepared(a).Append(a.(spec := b, finalizer := true)).Append(a.(finalizer := true))
  }

  lemma ReturnIsHidden(m: Shard, a: Cluster, b: Shard)
    requires Needs(a, m) && !a.deleting && !Alike(a.(spec := b), a, m)
    ensures var api, l := Returned(a, b), Bare(Present(0), [], false, Idle, Present(0));
            Hides(m, api, l, Informer(Deliver(api.Version())))
  {
    var api := Returned(a, b);
    assert api.history[api.Version() - 1] == a.(spec := b, finalizer := true);
    assert !Alike(api.history[api.Version() - 1], api.history[0], m);
  }

  // Every such change of the spec can be missed for good: whatever version a manager has to claim or to
  // release, and whatever assignment that is not alike comes and goes unseen while it is at work. The
  // informer skips the change, the system is at rest, the object is as it was, and nothing wakes the manager.
  lemma HiddenChangeIsMissed(m: Shard, a: Cluster, b: Shard)
    requires Needs(a, m) && !a.deleting && !Alike(a.(spec := b), a, m)
    ensures var api, l := Returned(a, b), Bare(Present(0), [], false, Idle, Present(0));
            && Comes(m, api, l) && InRange(api, l)
            && Hides(m, api, l, Informer(Deliver(api.Version())))
            && Comes(m, api, l.(cache := Present(api.Version())))
            && AtRest(api, l.(cache := Present(api.Version()))) && Needs(api.Live(), m)
  {
    var api, l := Returned(a, b), Bare(Present(0), [], false, Idle, Present(0));
    ComesBack(m, a, b);
    ReturnIsHidden(m, a, b);
    var note := UpdateNote(0, api.Version());
    assert [] + [note] == [note] && [note][1..] == [];
    ActComes(m, api, l, Informer(Deliver(api.Version())));
    ActComes(m, api, Bare(Present(api.Version()), [note], false, Idle, Present(0)), Informer(HandleNote));
  }
}
