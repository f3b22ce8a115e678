// What a manager of the shard ownership protocol gets done when it is left alone with a working
// apiserver: from every state that a run can reach in which its routine is idle and its cache is
// current, its own steps lead to where the live object wants it.
module ShardProgress {
  import opened Common
  import opened ShardOwnership

  // The acts of manager m, none of them a crash, lead from one object and state of m to others.
  ghost predicate Leads(m: Shard, api: Api, l: Manager, acts: seq<Act>, api': Api, l': Manager)
    decreases |acts|
  {
    if acts == [] then api == api' && l == l'
    else
      && InRange(api, l) && Enabled(api, l, acts[0]) && !acts[0].Crash?
      && var (next, n) := Next(m, api, l, acts[0]);
         Leads(m, next, n, acts[1..], api', l')
  }

  // One more act.
  lemma {:induction false} LeadsOn(m: Shard, api: Api, l: Manager, acts: seq<Act>, api': Api, l': Manager, a: Act)
    requires Leads(m, api, l, acts, api', l')
    requires InRange(api', l') && Enabled(api', l', a) && !a.Crash?
    ensures Leads(m, api, l, acts + [a], Next(m, api', l', a).0, Next(m, api', l', a).1)
    decreases |acts|
  {
    if acts == [] {
      assert (acts + [a])[1..] == [];
    } else {
      var (next, n) := Next(m, api, l, acts[0]);
      LeadsOn(m, next, n, acts[1..], api', l', a);
      assert (acts + [a])[1..] == acts[1..] + [a];
    }
  }

  // One more act of the reconcile routine; every number stays in range.
  lemma Goes(m: Shard, api: Api, l: Manager, acts: seq<Act>, api1: Api, l1: Manager, a: ReconcileAct)
    returns (more: seq<Act>, api': Api, l': Manager)
    requires Leads(m, api, l, acts, api1, l1) && InRange(api1, l1) && ReconcileEnabled(l1.r, a)
    ensures Leads(m, api, l, more, api', l') && InRange(api', l')
    ensures l' == l1.(r := l'.r) && (api', l'.r) == ReconcileNext(m, api1, l1.cache, l1.r, a)
  {
    LeadsOn(m, api, l, acts, api1, l1, Reconcile(a));
    ReconcileInRange(m, api1, l1, a);
    more := acts + [Reconcile(a)];
    api', l' := Next(m, api1, l1, Reconcile(a)).0, Next(m, api1, l1, Reconcile(a)).1;
  }

  // An act of m makes the run longer.
  lemma ActExtends(states: seq<State>, actions: seq<Action>, m: Shard, a: Act) returns (t: State)
    requires IsRun(states, actions) && m in states[|states| - 1].managers
    requires var s := states[|states| - 1]; InRange(s.api, s.managers[m]) && Enabled(s.api, s.managers[m], a)
    ensures IsRun(states + [t], actions + [By(m, a)])
    ensures var s := states[|states| - 1];
            var (api', l') := Next(m, s.api, s.managers[m], a); t == State(api', s.managers[m := l'])
  {
    var s := states[|states| - 1];
    assert WellTyped(s) by { RunKeepsInv(states, actions, |states| - 1); }
    var (api', l') := Next(m, s.api, s.managers[m], a);
    t := State(api', s.managers[m := l']);
    assert Step(s, By(m, a), t);
  }

  // The longer of two runs goes on with acts of m alone.
  ghost predicate Extends(states: seq<State>, actions: seq<Action>, more: seq<State>, path: seq<Action>, m: Shard) {
    && IsRun(more, path) && states <= more && actions <= path
    && forall i :: |actions| <= i < |path| ==> path[i].By? && path[i].who == m && !path[i].act.Crash?
  }

  // The acts are a run of the whole system in which nobody else acts.
  lemma {:induction false} LeadsIsRun(
    states: seq<State>, actions: seq<Action>, m: Shard, acts: seq<Act>, api': Api, l': Manager)
    returns (more: seq<State>, path: seq<Action>)
    requires IsRun(states, actions) && m in states[|states| - 1].managers
    requires var s := states[|states| - 1]; Leads(m, s.api, s.managers[m], acts, api', l')
    ensures Extends(states, actions, more, path, m)
    ensures more[|more| - 1] == State(api', states[|states| - 1].managers[m := l'])
    decreases |acts|
  {
    var s := states[|states| - 1];
    if acts == [] {
      more, path := states, actions;
      assert s.managers[m := l'] == s.managers;
    } else {
      var t := ActExtends(states, actions, m, acts[0]);
      more, path := LeadsIsRun(states + [t], actions + [By(m, acts[0])], m, acts[1..], api', l');
      assert t.managers[m := l'] == s.managers[m := l'];
    }
  }

  // The manager has nothing under way and has seen the live object.
  ghost predicate Current(m: Shard, api: Api, l: Manager) {
    ManagerInv(m, api, l) && !api.gone && l.r.pc.Idle? && l.cache == Present(api.Version())
  }

  // Its key is handed out and the filters run.
  lemma Decides(m: Shard, api: Api, l: Manager) returns (acts: seq<Act>, l': Manager)
    requires Current(m, api, l)
    ensures Leads(m, api, l, acts, api, l') && InRange(api, l') && l'.cache == l.cache
    ensures l'.r == Decided(m, api, l.r.(queued := false, pc := Loaded, view := l.cache, gaveUp := false))
  {
    LeadsOn(m, api, l, [], api, l, Informer(Enqueue));
    var api1, l1;
    acts, api1, l1 := Goes(m, api, l, [] + [Informer(Enqueue)], api, l.(r := l.r.(queued := true)), Get);
    acts, api1, l' := Goes(m, api, l, acts, api1, l1, Decide);
  }

  // An object that is to stay gets its finalizer, and the routine goes on with it.
  lemma Proceeds(m: Shard, api: Api, l: Manager) returns (acts: seq<Act>, api': Api, l': Manager)
    requires Current(m, api, l) && Relevant(api.Live(), m) && !api.Live().deleting
    ensures Leads(m, api, l, acts, api', l') && InRange(api', l') && !api'.gone
    ensures api'.Live() == api.Live().(finalizer := true)
    ensures l'.r.running == l.r.running
    ensures if api.Live().spec == m then
              && l'.r.registered == l.r.registered
              && l'.r.pc == Claiming(Call(Claim, false, false, 0, None, api'.Version()))
            else !l'.r.registered && l'.r.pc == Stopping(ThenRelease, l.r.registered)
  {
    acts, l' := Decides(m, api, l);
    api' := api;
    if !api.Live().finalizer {
      acts, api', l' := Goes(m, api, l, acts, api, l', AddFinalizer(Delivered, false));
    }
  }

  // The live object is the one that m is to synchronize.
  predicate Wants(m: Shard, c: Cluster) { c.spec == m && !c.deleting && (c.owner == None || c.owner == Some(m)) }

  // A claim that has read the live object, which m may have, goes through.
  lemma WriteClaims(m: Shard, api: Api, cache: View, r: Routine)
    requires RoutineInRange(api, r) && !api.gone && Wants(m, api.Live())
    requires r.pc.Claiming? && r.pc.call.read == Some(api.Version())
    ensures var (api', r') := ReconcileNext(m, api, cache, r, Write(api.Live().conditions, Delivered));
            api'.Valid() && !api'.gone && OwnedBy(api'.Live(), m) && r' == r.(pc := Owned)
  {
  }

  lemma WriteLeads(m: Shard, api: Api, l: Manager, acts: seq<Act>, api1: Api, l1: Manager)
    returns (more: seq<Act>, api': Api, l': Manager)
    requires Leads(m, api, l, acts, api1, l1) && InRange(api1, l1) && !api1.gone && Wants(m, api1.Live())
    requires l1.r.pc.Claiming? && l1.r.pc.call.read == Some(api1.Version())
    ensures Leads(m, api, l, more, api', l') && InRange(api', l') && !api'.gone && OwnedBy(api'.Live(), m)
    ensures l'.r == l1.r.(pc := Owned)
  {
    WriteClaims(m, api1, l1.cache, l1.r);
    more, api', l' := Goes(m, api, l, acts, api1, l1, Write(api1.Live().conditions, Delivered));
  }

  lemma ReadLeads(m: Shard, api: Api, l: Manager, acts: seq<Act>, api1: Api, l1: Manager)
    returns (more: seq<Act>, api': Api, l': Manager)
    requires Leads(m, api, l, acts, api1, l1) && InRange(api1, l1) && !api1.gone && Wants(m, api1.Live())
    requires l1.r.pc.Claiming? && l1.r.pc.call.read.None?
    ensures Leads(m, api, l, more, api', l') && InRange(api', l') && !api'.gone && OwnedBy(api'.Live(), m)
    ensures l'.r == l1.r.(pc := Owned)
  {
    more, api', l' := Goes(m, api, l, acts, api1, l1, Read(Delivered));
    more, api', l' := WriteLeads(m, api, l, more, api', l');
  }

  // With the claim begun and the object to be had, the synchro is started and registered.
  lemma ClaimLeads(m: Shard, api: Api, l: Manager) returns (acts: seq<Act>, api': Api, l': Manager)
    requires Current(m, api, l) && Wants(m, api.Live()) && !l.r.registered
    ensures Leads(m, api, l, acts, api', l') && InRange(api', l') && !api'.gone && OwnedBy(api'.Live(), m)
    ensures l'.r.pc.Owned? && !l'.r.registered && l'.r.running == 0
  {
    acts, api', l' := Proceeds(m, api, l);
    acts, api', l' := ReadLeads(m, api, l, acts, api', l');
  }

  // m owns the live object, and exactly one synchro of it runs and is registered.
  ghost predicate Up(m: Shard, api: Api, l: Manager) {
    && api.Valid() && !api.gone && api.Live().owner == Some(m)
    && l.r.registered && l.r.running == 1 && l.r.pc.Idle?
  }

  // With the claim through, the synchro is started and registered.
  lemma ComesUp(m: Shard, api: Api, l: Manager) returns (acts: seq<Act>, api': Api, l': Manager)
    requires Current(m, api, l) && Wants(m, api.Live())
    ensures Leads(m, api, l, acts, api', l') && Up(m, api', l')
  {
    acts, api', l' := [], api, l;
    if !l.r.registered {
      acts, api', l' := ClaimLeads(m, api, l);
      acts, api', l' := Goes(m, api, l, acts, api', l', StartSynchro);
      acts, api', l' := Goes(m, api, l, acts, api', l', Register);
    }
  }

  // No synchro runs and the routine is idle.
  ghost predicate Down(api: Api, l: Manager) {
    api.Valid() && !l.r.registered && l.r.running == 0 && l.r.pc.Idle?
  }

  // A synchro whose cluster is assigned elsewhere is stopped before the cluster is released.
  lemma Stops(m: Shard, api: Api, l: Manager) returns (acts: seq<Act>, api': Api, l': Manager)
    requires Current(m, api, l) && OwnedBy(api.Live(), m) && api.Live().spec != m && !api.Live().deleting
    ensures Leads(m, api, l, acts, api', l') && InRange(api', l') && !api'.gone
    ensures api'.Live() == api.Live().(finalizer := true)
    ensures !l'.r.registered && l'.r.running == 0
    ensures l'.r.pc == Releasing(Call(Release, false, false, 0, None, api'.Version()))
  {
    acts, api', l' := Proceeds(m, api, l);
    acts, api', l' := Goes(m, api, l, acts, api', l', Shutdown);
  }

  // With the synchro stopped, the release is read and written.
  lemma Releases(m: Shard, api: Api, l: Manager) returns (acts: seq<Act>, api': Api, l': Manager)
    requires Current(m, api, l) && OwnedBy(api.Live(), m) && api.Live().spec != m && !api.Live().deleting
    ensures Leads(m, api, l, acts, api', l') && Down(api', l')
    ensures !api'.gone && api'.Live().owner == None && api'.Live().spec == api.Live().spec
  {
    acts, api', l' := Stops(m, api, l);
    acts, api', l' := Goes(m, api, l, acts, api', l', Read(Delivered));
    acts, api', l' := Goes(m, api, l, acts, api', l', Write(api'.Live().conditions, Delivered));
  }

  // Whenever the live object is assigned to m, is not being deleted and is owned by m or by nobody,
  // a manager m that has seen it brings its synchro up: it becomes the owner, and exactly one synchro
  // of it runs and is registered.
  lemma SynchroComesUp(states: seq<State>, actions: seq<Action>, m: Shard) returns (more: seq<State>, path: seq<Action>)
    requires IsRun(states, actions) && m in states[|states| - 1].managers
    requires var s := states[|states| - 1]; s.api.Valid() && !s.api.gone && Wants(m, s.api.Live())
    requires var s := states[|states| - 1];
             s.managers[m].r.pc.Idle? && s.managers[m].cache == Present(s.api.Version())
    ensures Extends(states, actions, more, path, m)
    ensures var t := more[|more| - 1];
            m in t.managers && Up(m, t.api, t.managers[m])
  {
    var s := states[|states| - 1];
    RunKeepsInv(states, actions, |states| - 1);
    var acts, api', l' := ComesUp(m, s.api, s.managers[m]);
    more, path := LeadsIsRun(states, actions, m, acts, api', l');
  }

  // Whenever the live object is owned by m but assigned elsewhere, m stops its synchro and gives it up.
  lemma ClusterIsReleased(states: seq<State>, actions: seq<Action>, m: Shard)
    returns (more: seq<State>, path: seq<Action>)
    requires IsRun(states, actions) && m in states[|states| - 1].managers
    requires var s := states[|states| - 1]; s.api.Valid() && !s.api.gone
    requires var c := states[|states| - 1].api.Live(); c.owner == Some(m) && c.spec != m && !c.deleting
    requires var s := states[|states| - 1];
             s.managers[m].r.pc.Idle? && s.managers[m].cache == Present(s.api.Version())
    ensures Extends(states, actions, more, path, m)
    ensures var t := more[|more| - 1];
            && m in t.managers && Down(t.api, t.managers[m])
            && !t.api.gone && t.api.Live().owner == None
            && t.api.Live().spec == states[|states| - 1].api.Live().spec
  {
    var s := states[|states| - 1];
    RunKeepsInv(states, actions, |states| - 1);
    var acts, api', l' := Releases(m, s.api, s.managers[m]);
    more, path := LeadsIsRun(states, actions, m, acts, api', l');
  }

  // Whenever the live object is being deleted and concerns m, m stops its synchro, cleans the data and
  // removes the finalizer; if that was the last one, the object goes.
  lemma DeletionIsFinished(states: seq<State>, actions: seq<Action>, m: Shard, last: bool)
    returns (more: seq<State>, path: seq<Action>)
    requires IsRun(states, actions) && m in states[|states| - 1].managers
    requires var s := states[|states| - 1]; s.api.Valid() && !s.api.gone
    requires var c := states[|states| - 1].api.Live(); Relevant(c, m) && c.deleting
    requires var s := states[|states| - 1];
             s.managers[m].r.pc.Idle? && s.managers[m].cache == Present(s.api.Version())
    ensures Extends(states, actions, more, path, m)
    ensures var t := more[|more| - 1];
            && m in t.managers && Down(t.api, t.managers[m]) && !t.api.Live().finalizer
            && t.api.gone == (last && states[|states| - 1].api.Live().finalizer)
  {
    var s := states[|states| - 1];
    RunKeepsInv(states, actions, |states| - 1);
    var api, l := s.api, s.managers[m];
    var acts, l1 := Decides(m, api, l);
    var api', l';
    acts, api', l' := Goes(m, api, l, acts, api, l1, Shutdown);
    acts, api', l' := Goes(m, api, l, acts, api', l', Clean(true, Delivered, last, false));
    more, path := LeadsIsRun(states, actions, m, acts, api', l');
  }

  // From the owned part the synchro comes up, or is up already and the reconcile returns.
  lemma OwnedLeads(m: Shard, api: Api, l: Manager, acts: seq<Act>, api1: Api, l1: Manager)
    returns (more: seq<Act>, api': Api, l': Manager)
    requires Leads(m, api, l, acts, api1, l1) && InRange(api1, l1) && !api1.gone && OwnedBy(api1.Live(), m)
    requires l1.r.pc.Owned? && (l1.r.registered <==> l1.r.running == 1) && l1.r.running <= 1
    ensures Leads(m, api, l, more, api', l') && Up(m, api', l')
  {
    if l1.r.registered {
      more, api', l' := Goes(m, api, l, acts, api1, l1, Finish(false));
    } else {
      more, api', l' := Goes(m, api, l, acts, api1, l1, StartSynchro);
      more, api', l' := Goes(m, api, l, more, api', l', Register);
    }
  }

  // A claim that wrote at a version that is not live any more is tried again while it has attempts left.
  // So in every state of every run with a claim under way that has an attempt left, if m may have the live
  // object and could have had the version that it read, the synchro comes up.
  lemma ClaimSurvivesConflict(states: seq<State>, actions: seq<Action>, m: Shard)
    returns (more: seq<State>, path: seq<Action>)
    requires IsRun(states, actions) && m in states[|states| - 1].managers
    requires var s := states[|states| - 1]; s.api.Valid() && !s.api.gone && Wants(m, s.api.Live())
    requires var r := states[|states| - 1].managers[m].r; r.pc.Claiming? && r.pc.call.attempt + 1 < ATTEMPTS
    requires var s := states[|states| - 1];
             forall v :: s.managers[m].r.pc.call.read == Some(v) && v < |s.api.history| ==> Wants(m, s.api.history[v])
    ensures Extends(states, actions, more, path, m)
    ensures var t := more[|more| - 1];
            m in t.managers && Up(m, t.api, t.managers[m])
  {
    var s := states[|states| - 1];
    RunKeepsInv(states, actions, |states| - 1);
    var acts, api', l' := ConflictLeads(m, s.api, s.managers[m]);
    acts, api', l' := OwnedLeads(m, s.api, s.managers[m], acts, api', l');
    more, path := LeadsIsRun(states, actions, m, acts, api', l');
  }

  lemma ConflictLeads(m: Shard, api: Api, l: Manager) returns (acts: seq<Act>, api': Api, l': Manager)
    requires ManagerInv(m, api, l) && !api.gone && Wants(m, api.Live())
    requires l.r.pc.Claiming? && l.r.pc.call.attempt + 1 < ATTEMPTS
    requires l.r.pc.call.read.Some? ==> Wants(m, api.history[l.r.pc.call.read.value])
    ensures Leads(m, api, l, acts, api', l') && InRange(api', l') && !api'.gone && OwnedBy(api'.Live(), m)
    ensures l'.r == l.r.(pc := Owned)
  {
    acts, api', l' := [], api, l;
    if l.r.pc.call.read.Some? {
      acts, api', l' := Goes(m, api, l, acts, api', l', Write(api.Live().conditions, Delivered));
    }
    if l'.r.pc.Claiming? {
      acts, api', l' := ReadLeads(m, api, l, acts, api', l');
    }
  }

  // The claim of m goes through in this step: the version that m read is its own already and there is
  // nothing to write, or m writes at the live version, gets its reply and is the live owner afterwards.
  ghost predicate Claimed(s: State, a: Action, t: State, m: Shard) {
    && m in s.managers && s.managers[m].r.pc.Claiming? && s.managers[m].r.pc.call.read.Some?
    && a.By? && a.who == m && a.act.Reconcile? && a.act.reconcile.Write?
    && var v := s.managers[m].r.pc.call.read.value;
       || (v < |s.api.history| && OwnedBy(s.api.history[v], m)
           && s.api.history[v].conditions == a.act.reconcile.conditions)
       || (s.api.Valid() && !s.api.gone && v == s.api.Version() && a.act.reconcile.net == Delivered
           && t.api.Valid() && OwnedBy(t.api.Live(), m))
  }

  // The owned part of the reconcile of m returns early, or m crashes.
  predicate CutShort(a: Action, m: Shard) {
    a.By? && a.who == m && (a.act.Crash? || (a.act.Reconcile? && a.act.reconcile.Finish?))
  }

  // A step in the owned part keeps to it, or ends the reconcile with the synchro up.
  lemma OwnerPhaseStep(s: State, a: Action, t: State, m: Shard)
    requires WellTyped(s) && Step(s, a, t) && m in s.managers && OwnerPhase(s.managers[m].r.pc)
    requires Bookkeeping(s.managers[m].r) && !CutShort(a, m)
    ensures m in t.managers
    ensures var r := t.managers[m].r; OwnerPhase(r.pc) || (r.pc.Idle? && r.registered && r.running == 1)
  {
  }

  lemma ClaimStep(s: State, a: Action, t: State, m: Shard)
    requires WellTyped(s) && Step(s, a, t) && Claimed(s, a, t, m)
    ensures m in t.managers && OwnerPhase(t.managers[m].r.pc)
  {
  }

  lemma {:induction false} ClaimHoldsOn(states: seq<State>, actions: seq<Action>, i: nat, j: nat, m: Shard)
    requires IsRun(states, actions) && i < j < |states| && Claimed(states[i], actions[i], states[i + 1], m)
    requires forall k :: i < k < j && m in states[k].managers ==> !states[k].managers[m].r.pc.Idle?
    requires forall k :: i < k < j ==> !CutShort(actions[k], m)
    ensures m in states[j].managers
    ensures var r := states[j].managers[m].r; OwnerPhase(r.pc) || (r.pc.Idle? && r.registered && r.running == 1)
  {
    if j == i + 1 {
      ClaimStep(states[i], actions[i], states[j], m);
    } else {
      ClaimHoldsOn(states, actions, i, j - 1, m);
      assert Bookkeeping(states[j - 1].managers[m].r) by { RunKeepsInv(states, actions, j - 1); }
      OwnerPhaseStep(states[j - 1], actions[j - 1], states[j], m);
    }
  }

  // A reconcile whose claim went through and whose owned part did not return early ends, at the first
  // moment at which the routine is idle again, with exactly one synchro running and registered.
  lemma ClaimEndsRunning(states: seq<State>, actions: seq<Action>, i: nat, j: nat, m: Shard)
    requires IsRun(states, actions) && i < j < |states| && Claimed(states[i], actions[i], states[i + 1], m)
    requires m in states[j].managers && states[j].managers[m].r.pc.Idle?
    requires forall k :: i < k < j && m in states[k].managers ==> !states[k].managers[m].r.pc.Idle?
    requires forall k :: i < k < j ==> !CutShort(actions[k], m)
    ensures states[j].managers[m].r.registered && states[j].managers[m].r.running == 1
    ensures states[j].api.Valid() && states[j].api.Live().owner == Some(m)
  {
    ClaimHoldsOn(states, actions, i, j, m);
    RunKeepsInv(states, actions, j);
  }
}
