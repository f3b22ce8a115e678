// The shard ownership protocol of the cluster synchro managers
// (pkg/synchromanager/clustersynchro_manager.go), as a step system over one incarnation of one
// PediaCluster.
//
// Every manager acts through small atomic steps: its informer cache moves, its event handler runs,
// its work queue hands out the key, and its reconcile routine and any number of background status
// writers talk to the apiserver one request at a time. Users edit the object at any moment.
// Requests and replies may be lost and managers may crash. The assumptions are:
//   - shard names are distinct and at most one live process uses a name;
//   - the work queue never runs the key twice at once inside one manager;
//   - Update and UpdateStatus succeed only at the version that was read;
//   - a request takes effect, if at all, before its caller goes on or dies;
//   - the status is written only by managers.
module ShardOwnership {
  import opened Common

  type Shard = string

  // One version of the PediaCluster. `conditions` stands for the rest of the status.
  datatype Cluster = Cluster(
    spec: Shard, owner: Option<Shard>, conditions: nat, finalizer: bool, deleting: bool)

  // All versions of the object; the last one is live. Once `gone`, the last one is the final state.
  datatype Api = Api(history: seq<Cluster>, gone: bool) {
    predicate Valid() { |history| > 0 }

    function Version(): (v: nat)
      requires Valid()
    {
      |history| - 1
    }

    function Live(): Cluster
      requires Valid()
    {
      history[|history| - 1]
    }

    function Append(c: Cluster): Api { this.(history := history + [c]) }
  }

  predicate OwnedBy(c: Cluster, m: Shard) { c.owner == Some(m) }

  // isRelevant: owned by m, or unowned and assigned to m.
  predicate Relevant(c: Cluster, m: Shard) {
    match c.owner
    case Some(owner) => owner == m
    case None => c.spec == m
  }

  // ---------------------------------------------------------------------------------------------
  // Status writes: doUpdateClusterStatus with the update functions of claimSharding, releaseSharding
  // and every other caller.

  datatype UpdateFn = Claim | Release | Conditions

  function Updated(fn: UpdateFn, c: Cluster, m: Shard): Cluster {
    match fn
    case Claim => if c.owner.None? && c.spec == m then c.(owner := Some(m)) else c
    case Release => if OwnedBy(c, m) && c.spec != m then c.(owner := None) else c
    case Conditions => c
  }

  // retry.DefaultRetry makes this many attempts.
  const ATTEMPTS: nat := 5

  // A running call. `since` is the version that was live when the call began.
  datatype Call = Call(
    fn: UpdateFn, fromCache: bool, readLive: bool, attempt: nat, read: Option<nat>, since: nat)

  datatype CallResult = Pending(call: Call) | Done | NotOwned | Failed

  datatype Net = Delivered | ReplyLost | RequestLost

  // What the informer cache of a manager holds for the object.
  datatype View = Absent | Present(version: nat)

  function CallReads(api: Api, cache: View, c: Call, net: Net): CallResult
    requires api.Valid()
  {
    if c.fromCache then
      match cache
      case Absent => Failed
      case Present(v) => Pending(c.(fromCache := false, read := Some(v)))
    else if net != Delivered || api.gone then Failed
    else Pending(c.(readLive := true, read := Some(api.Version())))
  }

  // The object a call would write: the update function, then the recomputed conditions.
  function Proposed(m: Shard, api: Api, c: Call, conditions: nat): Cluster
    requires c.read.Some? && c.read.value < |api.history|
  {
    Updated(c.fn, api.history[c.read.value], m).(conditions := conditions)
  }

  // The ownership gate: neither owner before nor after the update function.
  predicate Rejected(m: Shard, api: Api, c: Call)
    requires c.read.Some? && c.read.value < |api.history|
  {
    var before := api.history[c.read.value];
    !OwnedBy(before, m) && !OwnedBy(Updated(c.fn, before, m), m)
  }

  // True when UpdateStatus is sent and takes effect.
  predicate Lands(m: Shard, api: Api, c: Call, conditions: nat, net: Net)
    requires api.Valid() && c.read.Some? && c.read.value < |api.history|
  {
    && !Rejected(m, api, c)
    && Proposed(m, api, c, conditions) != api.history[c.read.value]
    && net != RequestLost
    && !api.gone
    && c.read.value == api.Version()
  }

  function CallWrites(m: Shard, api: Api, c: Call, conditions: nat, net: Net): (Api, CallResult)
    requires api.Valid() && c.read.Some? && c.read.value < |api.history|
  {
    if Rejected(m, api, c) then
      // a rejection that rests on the lister is tried again on the live object
      (api, if c.readLive then NotOwned else Pending(Call(c.fn, false, false, 0, None, c.since)))
    else if Proposed(m, api, c, conditions) == api.history[c.read.value] then (api, Done)
    else if net == RequestLost || api.gone then (api, Failed)
    else if c.read.value != api.Version() then
      (api, if c.attempt + 1 < ATTEMPTS then Pending(c.(attempt := c.attempt + 1, read := None)) else Failed)
    else
      (api.Append(Proposed(m, api, c, conditions)), if net == ReplyLost then Failed else Done)
  }

  // ---------------------------------------------------------------------------------------------
  // One manager.

  // Informer notifications that the event handler has not seen yet.
  datatype Note = AddNote(version: nat) | UpdateNote(older: nat, newer: nat) | DeleteNote(final: nat) | Tombstone

  // What follows once stopClusterSynchro has returned.
  datatype AfterStop = Finished | ThenRemove(view: nat) | ThenRelease

  // Where the reconcile routine of the key stands.
  datatype Pc =
    | Idle
    | Loaded                              // the lister has been read
    | Stopping(next: AfterStop, had: bool)  // unregistered; Shutdown of the synchro is awaited
    | Removing(snapshot: nat)             // deletion: data is to be cleaned, then the finalizer removed
    | Finalizing(snapshot: nat)           // the finalizer is to be added
    | Releasing(call: Call)
    | Claiming(call: Call)
    | Owned                               // the claim succeeded
    | Reconfiguring                       // the old synchro is shut down but still registered
    | Starting                            // the new synchro runs but is not registered yet

  // The queue and reconcile side of a manager. `registered` is membership in the synchros map and
  // `running` counts synchros that sync data. `view` is what the lister showed when the key was last
  // handed out, and `gaveUp` says that the reconcile that followed ended with its retry budget spent.
  datatype Routine = Routine(
    queued: bool, registered: bool, running: nat, pc: Pc, view: View, gaveUp: bool)

  datatype Manager = Manager(cache: View, notes: seq<Note>, background: map<nat, Call>, r: Routine)

  const FRESH := Manager(Absent, [], map[], Routine(false, false, 0, Idle, Absent, false))

  // updateCluster, addCluster, deleteCluster: whether the notification enqueues the key.
  predicate Enqueues(api: Api, m: Shard, n: Note)
    requires NoteInRange(api, n)
  {
    match n
    case AddNote(v) => Relevant(api.history[v], m)
    case UpdateNote(older, newer) =>
      var o, w := api.history[older], api.history[newer];
      && !(!w.deleting && o.spec == w.spec && o.owner == w.owner)
      && (Relevant(o, m) || Relevant(w, m))
    case DeleteNote(final) => Relevant(api.history[final], m)
    case Tombstone => true
  }

  predicate NoteInRange(api: Api, n: Note) {
    match n
    case AddNote(v) => v < |api.history|
    case UpdateNote(older, newer) => older < |api.history| && newer < |api.history|
    case DeleteNote(final) => final < |api.history|
    case Tombstone => true
  }

  predicate CallInRange(api: Api, c: Call) {
    && (c.read.Some? ==> c.read.value < |api.history|)
    && c.since < |api.history|
    // a read taken from the apiserver is at least as new as the start of the call
    && (c.readLive ==> !c.fromCache && (c.read.Some? ==> c.since <= c.read.value))
  }

  predicate PcInRange(api: Api, pc: Pc) {
    match pc
    case Stopping(next, _) => next.ThenRemove? ==> next.view < |api.history|
    case Removing(v) => v < |api.history|
    case Finalizing(v) => v < |api.history|
    case Releasing(c) => CallInRange(api, c) && c.fn == Release && !c.fromCache && (c.read.Some? ==> c.readLive)
    case Claiming(c) => CallInRange(api, c) && c.fn == Claim && !c.fromCache && (c.read.Some? ==> c.readLive)
    case _ => true
  }

  predicate ViewInRange(api: Api, v: View) { v.Present? ==> v.version < |api.history| }

  predicate RoutineInRange(api: Api, r: Routine) {
    api.Valid() && ViewInRange(api, r.view) && PcInRange(api, r.pc)
  }

  // Every version number that a manager holds names a version of the object.
  ghost predicate InRange(api: Api, l: Manager) {
    && RoutineInRange(api, l.r)
    && ViewInRange(api, l.cache)
    && (forall i :: 0 <= i < |l.notes| ==> NoteInRange(api, l.notes[i]))
    && (forall id :: id in l.background ==> CallInRange(api, l.background[id]) && l.background[id].fn == Conditions)
  }

  // ---------------------------------------------------------------------------------------------
  // Steps of one manager.

  datatype InformerAct =
    | Deliver(version: nat)               // the informer stores a version and notifies
    | DeliverDelete                       // the informer sees the final state
    | DeliverTombstone                    // a relist no longer holds the object
    | HandleNote
    | Enqueue                             // secrets and sync-resources events, delayed retries

  datatype ReconcileAct =
    | Get                                 // the queue hands out the key; the lister is read
    | Decide                              // the filters at the top of reconcileCluster
    | Shutdown                            // Shutdown of the unregistered synchro returns
    | Clean(ok: bool, net: Net, last: bool, requeue: bool)
    | AddFinalizer(net: Net, requeue: bool)
    | Read(net: Net)
    | Write(conditions: nat, net: Net)
    | StopForConfig | DropForConfig | StartSynchro | Register
    | Finish(requeue: bool)               // reconcileCluster returns from its owned part

  datatype BackgroundAct =
    | Begin(id: nat)
    | BackgroundRead(id: nat, net: Net)
    | BackgroundWrite(id: nat, conditions: nat, net: Net)

  datatype Act =
    | Informer(informer: InformerAct)
    | Reconcile(reconcile: ReconcileAct)
    | Background(background: BackgroundAct)
    | Crash

  function StopThen(r: Routine, next: AfterStop): Routine {
    r.(registered := false, pc := Stopping(next, r.registered))
  }

  // After the deletion and finalizer branches: release or claim.
  function Proceed(m: Shard, api: Api, r: Routine, v: nat): Routine
    requires api.Valid() && v < |api.history|
  {
    if api.history[v].spec != m then StopThen(r, ThenRelease)
    else r.(pc := Claiming(Call(Claim, false, false, 0, None, api.Version())))
  }

  function Decided(m: Shard, api: Api, r: Routine): Routine
    requires api.Valid() && ViewInRange(api, r.view)
  {
    match r.view
    case Absent => StopThen(r, Finished)
    case Present(v) =>
      var c := api.history[v];
      if !Relevant(c, m) then StopThen(r, Finished)
      else if c.deleting then StopThen(r, ThenRemove(v))
      else if !c.finalizer then r.(pc := Finalizing(v))
      else Proceed(m, api, r, v)
  }

  function Ended(r: Routine, requeue: bool): Routine {
    r.(pc := Idle, queued := r.queued || requeue)
  }

  // A failed step with a retry budget: `requeue` says whether the budget lasted.
  function Retried(r: Routine, requeue: bool): Routine {
    Ended(r, requeue).(gaveUp := !requeue)
  }

  function AfterCall(r: Routine, result: CallResult): Routine
    requires CallPc(r.pc)
  {
    match result
    case Pending(c) => r.(pc := if r.pc.Releasing? then Releasing(c) else Claiming(c))
    case Failed => Ended(r, true)
    case Done => if r.pc.Releasing? then Ended(r, false) else r.(pc := Owned)
    case NotOwned => if r.pc.Releasing? then Ended(r, false) else StopThen(r, Finished)
  }

  function Settled(background: map<nat, Call>, id: nat, r: CallResult): map<nat, Call> {
    if r.Pending? then background[id := r.call] else background - {id}
  }

  predicate CallPc(pc: Pc) { pc.Releasing? || pc.Claiming? }

  predicate InformerEnabled(api: Api, l: Manager, a: InformerAct) {
    match a
    case Deliver(v) => v < |api.history|
    case DeliverDelete => api.gone && l.cache.Present?
    case DeliverTombstone => l.cache.Present?
    case HandleNote => l.notes != []
    case Enqueue => true
  }

  predicate ReconcileEnabled(r: Routine, a: ReconcileAct) {
    match a
    case Get => r.pc.Idle? && r.queued
    case Decide => r.pc.Loaded?
    case Shutdown => r.pc.Stopping?
    case Clean(_, _, _, _) => r.pc.Removing?
    case AddFinalizer(_, _) => r.pc.Finalizing?
    case Read(_) => CallPc(r.pc) && r.pc.call.read.None?
    case Write(_, _) => CallPc(r.pc) && r.pc.call.read.Some?
    case StopForConfig => r.pc.Owned? && r.registered
    case DropForConfig => r.pc.Reconfiguring?
    case StartSynchro => r.pc.Owned? && !r.registered
    case Register => r.pc.Starting?
    case Finish(_) => r.pc.Owned?
  }

  predicate BackgroundEnabled(l: Manager, a: BackgroundAct) {
    match a
    case Begin(id) => id !in l.background
    case BackgroundRead(id, _) => id in l.background && l.background[id].read.None?
    case BackgroundWrite(id, _, _) => id in l.background && l.background[id].read.Some?
  }

  predicate Enabled(api: Api, l: Manager, a: Act) {
    match a
    case Informer(act) => InformerEnabled(api, l, act)
    case Reconcile(act) => ReconcileEnabled(l.r, act)
    case Background(act) => BackgroundEnabled(l, act)
    case Crash => true
  }

  // The version of the finalizer that Update writes; it lands only at the version that was read.
  function FinalizerUpdate(api: Api, v: nat, finalizer: bool, vanish: bool, net: Net): (Api, bool)
    requires api.Valid() && v < |api.history|
  {
    if net == RequestLost || api.gone || v != api.Version() then (api, false)
    else (api.Append(api.Live().(finalizer := finalizer)).(gone := vanish), net == Delivered)
  }

  // The informer and its event handler.
  function InformerNext(m: Shard, api: Api, l: Manager, a: InformerAct): Manager
    requires InRange(api, l) && InformerEnabled(api, l, a)
  {
    match a
    case Deliver(v) =>
      l.(cache := Present(v), notes := l.notes +
           [if l.cache.Present? then UpdateNote(l.cache.version, v) else AddNote(v)])
    case DeliverDelete => l.(cache := Absent, notes := l.notes + [DeleteNote(api.Version())])
    case DeliverTombstone => l.(cache := Absent, notes := l.notes + [Tombstone])
    case HandleNote => l.(notes := l.notes[1..], r := l.r.(queued := l.r.queued || Enqueues(api, m, l.notes[0])))
    case Enqueue => l.(r := l.r.(queued := true))
  }

  // Status writers of the running synchro and of the reconcile routine that do not touch the owner.
  function BackgroundNext(m: Shard, api: Api, l: Manager, a: BackgroundAct): (Api, Manager)
    requires InRange(api, l) && BackgroundEnabled(l, a)
  {
    match a
    case Begin(id) =>
      (api, l.(background := l.background[id := Call(Conditions, true, false, 0, None, api.Version())]))
    case BackgroundRead(id, net) =>
      (api, l.(background := Settled(l.background, id, CallReads(api, l.cache, l.background[id], net))))
    case BackgroundWrite(id, conditions, net) =>
      var (api', r) := CallWrites(m, api, l.background[id], conditions, net);
      (api', l.(background := Settled(l.background, id, r)))
  }

  // processNextCluster and reconcileCluster.
  function ReconcileNext(m: Shard, api: Api, cache: View, r: Routine, a: ReconcileAct): (Api, Routine)
    requires RoutineInRange(api, r) && ReconcileEnabled(r, a)
  {
    match a
    case Get => (api, r.(queued := false, pc := Loaded, view := cache, gaveUp := false))
    case Decide => (api, Decided(m, api, r))
    case Shutdown =>
      var stopped := r.(running := if r.pc.had && r.running > 0 then r.running - 1 else r.running);
      (api, match r.pc.next
            case Finished => Ended(stopped, false)
            case ThenRemove(v) => stopped.(pc := Removing(v))
            case ThenRelease => stopped.(pc := Releasing(Call(Release, false, false, 0, None, api.Version()))))
    case Clean(ok, net, last, requeue) =>
      if !ok then (api, Retried(r, requeue))
      else if !api.history[r.pc.snapshot].finalizer then (api, Ended(r, false))
      else
        // the object disappears when this was its last finalizer
        var (api', fine) := FinalizerUpdate(api, r.pc.snapshot, false, last, net);
        (api', if fine then Ended(r, false) else Retried(r, requeue))
    case AddFinalizer(net, requeue) =>
      var (api', fine) := FinalizerUpdate(api, r.pc.snapshot, true, false, net);
      (api', if fine then Proceed(m, api', r, r.pc.snapshot) else Retried(r, requeue))
    case Read(net) => (api, AfterCall(r, CallReads(api, cache, r.pc.call, net)))
    case Write(conditions, net) =>
      var (api', result) := CallWrites(m, api, r.pc.call, conditions, net);
      (api', AfterCall(r, result))
    case StopForConfig =>
      (api, r.(running := if r.running > 0 then r.running - 1 else 0, pc := Reconfiguring))
    case DropForConfig => (api, r.(registered := false, pc := Owned))
    case StartSynchro => (api, r.(running := r.running + 1, pc := Starting))
    case Register => (api, Ended(r.(registered := true), false))
    case Finish(requeue) => (api, Ended(r, requeue))
  }

  function Next(m: Shard, api: Api, l: Manager, a: Act): (Api, Manager)
    requires InRange(api, l) && Enabled(api, l, a)
  {
    match a
    case Informer(act) => (api, InformerNext(m, api, l, act))
    case Reconcile(act) =>
      var (api', r') := ReconcileNext(m, api, l.cache, l.r, act);
      (api', l.(r := r'))
    case Background(act) => BackgroundNext(m, api, l, act)
    case Crash => (api, FRESH)
  }

  // ---------------------------------------------------------------------------------------------
  // The whole system.

  datatype State = State(api: Api, managers: map<Shard, Manager>)

  datatype Action =
    | Edit(spec: Shard, finalizer: bool, deleting: bool, vanish: bool)  // a user or another controller
    | By(who: Shard, act: Act)

  ghost predicate WellTyped(s: State) {
    s.api.Valid() && forall m :: m in s.managers ==> InRange(s.api, s.managers[m])
  }

  // Users change the spec and metadata, never the status. The object may vanish with the edit.
  predicate EditAllowed(api: Api, a: Action)
    requires api.Valid() && a.Edit?
  {
    !api.gone && (api.Live().deleting ==> a.deleting) && (a.vanish ==> a.deleting)
  }

  function Edited(api: Api, a: Action): Api
    requires api.Valid() && a.Edit?
  {
    api.Append(api.Live().(spec := a.spec, finalizer := a.finalizer, deleting := a.deleting)).(gone := a.vanish)
  }

  ghost predicate Step(s: State, a: Action, s': State)
    requires WellTyped(s)
  {
    match a
    case Edit(_, _, _, _) => EditAllowed(s.api, a) && s' == s.(api := Edited(s.api, a))
    case By(m, act) =>
      && m in s.managers
      && Enabled(s.api, s.managers[m], act)
      && var (api', l') := Next(m, s.api, s.managers[m], act);
         s' == State(api', s.managers[m := l'])
  }

  // Any object, any owner, and managers that have just started.
  ghost predicate Init(s: State) {
    && |s.api.history| == 1 && !s.api.gone
    && forall m :: m in s.managers ==> s.managers[m] == FRESH
  }

  // ---------------------------------------------------------------------------------------------
  // What every manager relies on while others act, and its own invariant.

  // Others never take the ownership of m away, and nothing happens once the object is gone.
  ghost predicate Rely(m: Shard, api: Api, api': Api)
    requires api.Valid()
  {
    && api.history <= api'.history
    && (OwnedBy(api.Live(), m) ==> OwnedBy(api'.Live(), m))
    && (api.gone ==> api' == api)
  }

  // Phases in which the reconcile routine acts as the owner.
  predicate OwnerPhase(pc: Pc) { pc.Owned? || pc.Reconfiguring? || pc.Starting? }

  ghost predicate Ownership(m: Shard, api: Api, r: Routine)
    requires RoutineInRange(api, r)
  {
    && r.running <= 1
    && (r.running == 1 ==> OwnedBy(api.Live(), m))
    && (OwnerPhase(r.pc) ==> OwnedBy(api.Live(), m))
    && (r.pc.Claiming? && r.pc.call.read.Some? && OwnedBy(api.history[r.pc.call.read.value], m)
        ==> OwnedBy(api.Live(), m))
  }

  // How the synchros map and the running synchro relate in every phase.
  ghost predicate Bookkeeping(r: Routine) {
    match r.pc
    case Stopping(_, had) => !r.registered && (r.running == 1 <==> had)
    case Removing(_) => !r.registered && r.running == 0
    case Releasing(_) => !r.registered && r.running == 0
    case Reconfiguring => r.registered && r.running == 0
    case Starting => !r.registered && r.running == 1
    case _ => r.registered <==> r.running == 1
  }

  predicate RelevantView(m: Shard, api: Api, v: View)
    requires ViewInRange(api, v)
  {
    v.Present? && Relevant(api.history[v.version], m)
  }

  // A notification on its way that will enqueue the key.
  ghost predicate Noted(m: Shard, api: Api, l: Manager)
    requires InRange(api, l)
  {
    exists i :: 0 <= i < |l.notes| && Enqueues(api, m, l.notes[i])
  }

  // Phases that may still lead to a registered synchro.
  predicate MayHold(m: Shard, api: Api, r: Routine)
    requires ViewInRange(api, r.view)
  {
    match r.pc
    case Idle => r.registered
    case Loaded => RelevantView(m, api, r.view)
    case Finalizing(_) => true
    case Claiming(_) => true
    case pc => OwnerPhase(pc)
  }

  // The key of a synchro that the cache no longer justifies is on its way to the reconcile routine.
  ghost predicate Tracked(m: Shard, api: Api, l: Manager)
    requires InRange(api, l)
  {
    !RelevantView(m, api, l.cache) && MayHold(m, api, l.r) ==>
      l.r.queued || Noted(m, api, l) || (api.gone && !OwnedBy(api.Live(), m))
  }

  ghost predicate ManagerInv(m: Shard, api: Api, l: Manager) {
    && InRange(api, l)
    && Bookkeeping(l.r)
    && Ownership(m, api, l.r)
    && Tracked(m, api, l)
  }

  ghost predicate Inv(s: State) {
    s.api.Valid() && forall m :: m in s.managers ==> ManagerInv(m, s.api, s.managers[m])
  }

  // ---------------------------------------------------------------------------------------------
  // One step of one manager.

  // What a step of m does to the object: it appends at most one version, and the owner moves only
  // between none and m.
  ghost predicate Guarantee(m: Shard, api: Api, api': Api)
    requires api.Valid()
  {
    || api' == api
    || (&& !api.gone
        && |api'.history| == |api.history| + 1
        && api.history <= api'.history
        && OwnerMove(m, api.Live(), api'.Live())
        && api'.Live().spec == api.Live().spec
        && api'.Live().deleting == api.Live().deleting)
  }

  predicate OwnerMove(m: Shard, before: Cluster, after: Cluster) {
    || after.owner == before.owner
    || (before.owner == None && after.owner == Some(m) && before.spec == m)
    || (before.owner == Some(m) && after.owner == None && before.spec != m)
  }

  lemma WriteGuarantee(m: Shard, api: Api, c: Call, conditions: nat, net: Net)
    requires api.Valid() && CallInRange(api, c) && c.read.Some?
    ensures Guarantee(m, api, CallWrites(m, api, c, conditions, net).0)
  {
  }

  lemma StepGuarantee(m: Shard, api: Api, l: Manager, a: Act)
    requires InRange(api, l) && Enabled(api, l, a)
    ensures Guarantee(m, api, Next(m, api, l, a).0)
  {
    if a.Reconcile? && a.reconcile.Write? {
      WriteGuarantee(m, api, l.r.pc.call, a.reconcile.conditions, a.reconcile.net);
    } else if a.Background? && a.background.BackgroundWrite? {
      WriteGuarantee(m, api, l.background[a.background.id], a.background.conditions, a.background.net);
    }
  }

  // Version numbers stay meaningful as versions are added.
  lemma InRangeMonotone(api: Api, api': Api, l: Manager)
    requires InRange(api, l) && api.history <= api'.history
    ensures InRange(api', l)
  {
  }

  lemma InformerInRange(m: Shard, api: Api, l: Manager, a: InformerAct)
    requires InRange(api, l) && InformerEnabled(api, l, a)
    ensures InRange(api, InformerNext(m, api, l, a))
  {
  }

  lemma BackgroundInRange(m: Shard, api: Api, l: Manager, a: BackgroundAct)
    requires InRange(api, l) && BackgroundEnabled(l, a)
    ensures InRange(BackgroundNext(m, api, l, a).0, BackgroundNext(m, api, l, a).1)
  {
    StepGuarantee(m, api, l, Background(a));
    InRangeMonotone(api, BackgroundNext(m, api, l, a).0, l);
  }

  lemma CallInRangeNext(m: Shard, api: Api, cache: View, r: Routine, a: ReconcileAct)
    requires RoutineInRange(api, r) && ReconcileEnabled(r, a) && (a.Read? || a.Write?)
    ensures RoutineInRange(ReconcileNext(m, api, cache, r, a).0, ReconcileNext(m, api, cache, r, a).1)
  {
    var (api', r') := ReconcileNext(m, api, cache, r, a);
    assert api.history <= api'.history;
  }

  // Steps that send a status request, steps that write the finalizer, and steps that do neither.
  predicate Calls(a: ReconcileAct) { a.Read? || a.Write? }

  predicate Finalizes(a: ReconcileAct) { a.Clean? || a.AddFinalizer? }

  lemma FinalizerInRange(m: Shard, api: Api, cache: View, r: Routine, a: ReconcileAct)
    requires RoutineInRange(api, r) && ReconcileEnabled(r, a) && Finalizes(a)
    ensures RoutineInRange(ReconcileNext(m, api, cache, r, a).0, ReconcileNext(m, api, cache, r, a).1)
  {
    assert api.history <= ReconcileNext(m, api, cache, r, a).0.history;
  }

  lemma LocalInRange(m: Shard, api: Api, cache: View, r: Routine, a: ReconcileAct)
    requires RoutineInRange(api, r) && ViewInRange(api, cache) && ReconcileEnabled(r, a) && !Calls(a) && !Finalizes(a)
    ensures RoutineInRange(ReconcileNext(m, api, cache, r, a).0, ReconcileNext(m, api, cache, r, a).1)
  {
  }

  lemma RoutineInRangeNext(m: Shard, api: Api, cache: View, r: Routine, a: ReconcileAct)
    requires RoutineInRange(api, r) && ViewInRange(api, cache) && ReconcileEnabled(r, a)
    ensures RoutineInRange(ReconcileNext(m, api, cache, r, a).0, ReconcileNext(m, api, cache, r, a).1)
  {
    if Calls(a) {
      CallInRangeNext(m, api, cache, r, a);
    } else if Finalizes(a) {
      FinalizerInRange(m, api, cache, r, a);
    } else {
      LocalInRange(m, api, cache, r, a);
    }
  }

  lemma ReconcileInRange(m: Shard, api: Api, l: Manager, a: ReconcileAct)
    requires InRange(api, l) && ReconcileEnabled(l.r, a)
    ensures InRange(Next(m, api, l, Reconcile(a)).0, Next(m, api, l, Reconcile(a)).1)
  {
    StepGuarantee(m, api, l, Reconcile(a));
    InRangeMonotone(api, Next(m, api, l, Reconcile(a)).0, l);
    RoutineInRangeNext(m, api, l.cache, l.r, a);
  }

  lemma CallBookkeeping(m: Shard, api: Api, cache: View, r: Routine, a: ReconcileAct)
    requires RoutineInRange(api, r) && ReconcileEnabled(r, a) && Calls(a)
    requires Bookkeeping(r) && r.running <= 1
    ensures var r' := ReconcileNext(m, api, cache, r, a).1;
            Bookkeeping(r') && r'.running <= 1
  {
  }

  lemma ReconcileBookkeeping(m: Shard, api: Api, cache: View, r: Routine, a: ReconcileAct)
    requires RoutineInRange(api, r) && ReconcileEnabled(r, a)
    requires Bookkeeping(r) && r.running <= 1
    ensures var r' := ReconcileNext(m, api, cache, r, a).1;
            Bookkeeping(r') && r'.running <= 1
  {
    if Calls(a) {
      CallBookkeeping(m, api, cache, r, a);
    }
  }

  lemma CallOwnership(m: Shard, api: Api, cache: View, r: Routine, a: ReconcileAct)
    requires RoutineInRange(api, r) && ReconcileEnabled(r, a) && Calls(a)
    requires Bookkeeping(r) && Ownership(m, api, r)
    ensures var (api', r') := ReconcileNext(m, api, cache, r, a);
            RoutineInRange(api', r') && Ownership(m, api', r')
  {
    CallInRangeNext(m, api, cache, r, a);
    if a.Write? {
      WriteGuarantee(m, api, r.pc.call, a.conditions, a.net);
    }
  }

  lemma FinalizerOwnership(m: Shard, api: Api, cache: View, r: Routine, a: ReconcileAct)
    requires RoutineInRange(api, r) && ReconcileEnabled(r, a) && Finalizes(a)
    requires Bookkeeping(r) && Ownership(m, api, r)
    ensures var (api', r') := ReconcileNext(m, api, cache, r, a);
            RoutineInRange(api', r') && Ownership(m, api', r')
  {
    FinalizerInRange(m, api, cache, r, a);
  }

  lemma LocalOwnership(m: Shard, api: Api, cache: View, r: Routine, a: ReconcileAct)
    requires RoutineInRange(api, r) && ViewInRange(api, cache) && ReconcileEnabled(r, a) && !Calls(a) && !Finalizes(a)
    requires Bookkeeping(r) && Ownership(m, api, r)
    ensures var (api', r') := ReconcileNext(m, api, cache, r, a);
            RoutineInRange(api', r') && Ownership(m, api', r')
  {
    LocalInRange(m, api, cache, r, a);
  }

  lemma ReconcileOwnership(m: Shard, api: Api, cache: View, r: Routine, a: ReconcileAct)
    requires RoutineInRange(api, r) && ViewInRange(api, cache) && ReconcileEnabled(r, a)
    requires Bookkeeping(r) && Ownership(m, api, r)
    ensures var (api', r') := ReconcileNext(m, api, cache, r, a);
            RoutineInRange(api', r') && Ownership(m, api', r')
  {
    if Calls(a) {
      CallOwnership(m, api, cache, r, a);
    } else if Finalizes(a) {
      FinalizerOwnership(m, api, cache, r, a);
    } else {
      LocalOwnership(m, api, cache, r, a);
    }
  }

  // A notification keeps its meaning, so a key that is tracked stays tracked until it is queued.
  lemma NotedGrows(m: Shard, api: Api, api': Api, l: Manager, l': Manager)
    requires InRange(api, l) && InRange(api', l')
    requires api.history <= api'.history && l.notes <= l'.notes
    requires Noted(m, api, l)
    ensures Noted(m, api', l')
  {
    var i :| 0 <= i < |l.notes| && Enqueues(api, m, l.notes[i]);
    assert Enqueues(api', m, l'.notes[i]);
  }

  lemma HandleNoteTracked(m: Shard, api: Api, l: Manager)
    requires ManagerInv(m, api, l) && l.notes != []
    ensures var l' := InformerNext(m, api, l, HandleNote);
            InRange(api, l') && Tracked(m, api, l')
  {
    InformerInRange(m, api, l, HandleNote);
    var l' := InformerNext(m, api, l, HandleNote);
    if Noted(m, api, l) && !l'.r.queued {
      var i :| 0 <= i < |l.notes| && Enqueues(api, m, l.notes[i]);
      assert l'.notes[i - 1] == l.notes[i];
    }
  }

  lemma DeliverTracked(m: Shard, api: Api, l: Manager, a: InformerAct)
    requires ManagerInv(m, api, l) && InformerEnabled(api, l, a) && !a.HandleNote? && !a.Enqueue?
    ensures var l' := InformerNext(m, api, l, a);
            InRange(api, l') && Tracked(m, api, l')
  {
    InformerInRange(m, api, l, a);
    var l' := InformerNext(m, api, l, a);
    if Noted(m, api, l) {
      NotedGrows(m, api, api, l, l');
    } else if RelevantView(m, api, l.cache) && !RelevantView(m, api, l'.cache) {
      // the cache has just stopped showing a relevant cluster: the new note enqueues
      var last := l'.notes[|l.notes|];
      assert Enqueues(api, m, last) || (a.DeliverDelete? && !Relevant(api.Live(), m));
    }
  }

  lemma CallMayHoldBefore(m: Shard, api: Api, cache: View, r: Routine, a: ReconcileAct)
    requires RoutineInRange(api, r) && ReconcileEnabled(r, a) && Bookkeeping(r) && Calls(a)
    requires ViewInRange(ReconcileNext(m, api, cache, r, a).0, ReconcileNext(m, api, cache, r, a).1.view)
    ensures var (api', r') := ReconcileNext(m, api, cache, r, a);
            MayHold(m, api', r') ==> MayHold(m, api, r) && (r.queued ==> r'.queued)
  {
  }

  // With a cache that justifies no synchro, a step keeps one only if it could be kept before.
  lemma MayHoldBefore(m: Shard, api: Api, cache: View, r: Routine, a: ReconcileAct)
    requires RoutineInRange(api, r) && ViewInRange(api, cache) && ReconcileEnabled(r, a) && Bookkeeping(r)
    requires ViewInRange(ReconcileNext(m, api, cache, r, a).0, ReconcileNext(m, api, cache, r, a).1.view)
    ensures var (api', r') := ReconcileNext(m, api, cache, r, a);
            !RelevantView(m, api, cache) && MayHold(m, api', r') ==> MayHold(m, api, r) && (r.queued ==> r'.queued)
  {
    if Calls(a) {
      CallMayHoldBefore(m, api, cache, r, a);
    }
  }

  lemma ReconcileTracked(m: Shard, api: Api, l: Manager, a: ReconcileAct)
    requires ManagerInv(m, api, l) && ReconcileEnabled(l.r, a)
    ensures var (api', l') := Next(m, api, l, Reconcile(a));
            InRange(api', l') && Tracked(m, api', l')
  {
    ReconcileInRange(m, api, l, a);
    StepGuarantee(m, api, l, Reconcile(a));
    MayHoldBefore(m, api, l.cache, l.r, a);
    var (api', l') := Next(m, api, l, Reconcile(a));
    if Noted(m, api, l) {
      NotedGrows(m, api, api', l, l');
    }
  }

  // ---------------------------------------------------------------------------------------------
  // The whole system.

  lemma StepKeepsManager(m: Shard, api: Api, l: Manager, a: Act)
    requires ManagerInv(m, api, l) && Enabled(api, l, a)
    ensures ManagerInv(m, Next(m, api, l, a).0, Next(m, api, l, a).1)
  {
    match a
    case Informer(act) =>
      InformerInRange(m, api, l, act);
      if act.HandleNote? {
        HandleNoteTracked(m, api, l);
      } else if !act.Enqueue? {
        DeliverTracked(m, api, l, act);
      }
    case Reconcile(act) =>
      ReconcileBookkeeping(m, api, l.cache, l.r, act);
      ReconcileOwnership(m, api, l.cache, l.r, act);
      ReconcileTracked(m, api, l, act);
    case Background(act) => BackgroundKeepsManager(m, api, l, act);
    case Crash =>
  }

  lemma BackgroundKeepsManager(m: Shard, api: Api, l: Manager, a: BackgroundAct)
    requires ManagerInv(m, api, l) && BackgroundEnabled(l, a)
    ensures ManagerInv(m, BackgroundNext(m, api, l, a).0, BackgroundNext(m, api, l, a).1)
  {
    BackgroundInRange(m, api, l, a);
    StepGuarantee(m, api, l, Background(a));
    BackgroundKeepsOwner(m, api, l, a);
    var (api', l') := BackgroundNext(m, api, l, a);
    RelyKeepsManager(m, api, api', l);
  }

  // A write whose update function leaves the owner alone leaves the live owner alone: it lands only
  // if the version it read is still live.
  lemma BackgroundKeepsOwner(m: Shard, api: Api, l: Manager, a: BackgroundAct)
    requires InRange(api, l) && BackgroundEnabled(l, a)
    ensures var (api', l') := BackgroundNext(m, api, l, a);
            && api'.Valid() && api'.Live().owner == api.Live().owner && api'.gone == api.gone
            && l' == l.(background := l'.background)
  {
  }

  // The invariant of a manager survives whatever the others do.
  lemma RelyKeepsManager(m: Shard, api: Api, api': Api, l: Manager)
    requires ManagerInv(m, api, l) && Rely(m, api, api')
    ensures ManagerInv(m, api', l)
  {
    InRangeMonotone(api, api', l);
    if Noted(m, api, l) {
      NotedGrows(m, api, api', l, l);
    }
  }

  lemma OthersRely(m: Shard, other: Shard, api: Api, l: Manager, a: Act)
    requires m != other && InRange(api, l) && Enabled(api, l, a)
    ensures Rely(other, api, Next(m, api, l, a).0)
  {
    StepGuarantee(m, api, l, a);
  }

  lemma StepKeepsInv(s: State, a: Action, s': State)
    requires Inv(s) && Step(s, a, s')
    ensures Inv(s')
  {
    if a.Edit? {
      forall m | m in s.managers ensures ManagerInv(m, s'.api, s.managers[m]) {
        RelyKeepsManager(m, s.api, s'.api, s.managers[m]);
      }
    } else {
      StepKeepsManager(a.who, s.api, s.managers[a.who], a.act);
      forall m | m in s.managers && m != a.who ensures ManagerInv(m, s'.api, s'.managers[m]) {
        OthersRely(a.who, m, s.api, s.managers[a.who], a.act);
        RelyKeepsManager(m, s.api, s'.api, s.managers[m]);
      }
    }
  }

  // A run: states with the actions between them.
  ghost predicate IsRun(states: seq<State>, actions: seq<Action>) {
    && |states| == |actions| + 1
    && Init(states[0])
    && forall i :: 0 <= i < |actions| ==> WellTyped(states[i]) && Step(states[i], actions[i], states[i + 1])
  }

  lemma {:induction false} RunKeepsInv(states: seq<State>, actions: seq<Action>, i: nat)
    requires IsRun(states, actions) && i < |states|
    ensures Inv(states[i])
  {
    if i > 0 {
      RunKeepsInv(states, actions, i - 1);
      StepKeepsInv(states[i - 1], actions[i - 1], states[i]);
    }
  }

  // ---------------------------------------------------------------------------------------------
  // Main results.

  // In every state of every run a manager whose synchro runs is the live owner, so two managers
  // never sync the cluster at the same time, and none ever runs two synchros.
  lemma OneSyncer(states: seq<State>, actions: seq<Action>, i: nat, m: Shard, n: Shard)
    requires IsRun(states, actions) && i < |states|
    requires m in states[i].managers && n in states[i].managers
    requires states[i].managers[m].r.running > 0 && states[i].managers[n].r.running > 0
    ensures m == n
    ensures states[i].managers[m].r.running == 1
    ensures states[i].api.Valid() && OwnedBy(states[i].api.Live(), m)
  {
    RunKeepsInv(states, actions, i);
  }

  // The status write that action `a` performs in `s`, if it performs one that lands.
  ghost predicate StatusWrite(s: State, a: Action)
    requires WellTyped(s)
  {
    && a.By? && a.who in s.managers
    && var l := s.managers[a.who];
       && Enabled(s.api, l, a.act)
       && match a.act
          case Reconcile(Write(conditions, net)) => Lands(a.who, s.api, l.r.pc.call, conditions, net)
          case Background(BackgroundWrite(id, conditions, net)) =>
            Lands(a.who, s.api, l.background[id], conditions, net)
          case _ => false
  }

  // The owner moves only from none to m, by m while the live spec names m, or from m to none, by m
  // while the live spec does not; every status write that lands is by the owner before or after it.
  lemma OwnerTransitions(states: seq<State>, actions: seq<Action>, i: nat)
    requires IsRun(states, actions) && i < |actions|
    ensures Inv(states[i]) && Inv(states[i + 1])
    ensures var before, after := states[i].api.Live(), states[i + 1].api.Live();
            before.owner != after.owner ==>
              && actions[i].By? && StatusWrite(states[i], actions[i])
              && var m := actions[i].who;
                 || (before.owner == None && after.owner == Some(m) && before.spec == m == after.spec)
                 || (before.owner == Some(m) && after.owner == None && before.spec == after.spec != m
                     && states[i + 1].managers[m].r.running == 0)
    ensures StatusWrite(states[i], actions[i]) ==>
              || OwnedBy(states[i].api.Live(), actions[i].who)
              || OwnedBy(states[i + 1].api.Live(), actions[i].who)
  {
    RunKeepsInv(states, actions, i);
    RunKeepsInv(states, actions, i + 1);
    if actions[i].By? {
      var m, api, l := actions[i].who, states[i].api, states[i].managers[actions[i].who];
      StepGuarantee(m, api, l, actions[i].act);
      if states[i + 1].api.Live().owner != api.Live().owner {
        OwnerWriteLands(m, api, l, actions[i].act);
      }
    }
  }

  // Only a status write that lands moves the owner, and a release lands only from the release phase.
  lemma OwnerWriteLands(m: Shard, api: Api, l: Manager, a: Act)
    requires ManagerInv(m, api, l) && Enabled(api, l, a)
    requires Next(m, api, l, a).0.Valid() && Next(m, api, l, a).0.Live().owner != api.Live().owner
    ensures a.Reconcile? && a.reconcile.Write? && Lands(m, api, l.r.pc.call, a.reconcile.conditions, a.reconcile.net)
    ensures OwnedBy(api.Live(), m) ==> l.r.pc.Releasing?
  {
    if a.Background? {
      BackgroundKeepsOwner(m, api, l, a.background);
    }
  }

  // A call is told that it does not own the cluster only after a read from the apiserver: the
  // version that decides was live at some moment of the call and is not owned by the caller.
  lemma RejectionIsLive(states: seq<State>, actions: seq<Action>, i: nat, m: Shard, c: Call, conditions: nat, net: Net)
    requires IsRun(states, actions) && i < |states| && m in states[i].managers
    requires
      var l := states[i].managers[m];
      || (CallPc(l.r.pc) && c == l.r.pc.call)
      || c in l.background.Values
    requires states[i].api.Valid() && c.read.Some? && c.read.value < |states[i].api.history|
    requires CallWrites(m, states[i].api, c, conditions, net).1 == NotOwned
    ensures c.readLive && c.since <= c.read.value
    ensures var seen := states[i].api.history[c.read.value];
            seen.owner != Some(m) && (c.fn == Claim ==> seen.owner != None || seen.spec != m)
  {
    RunKeepsInv(states, actions, i);
  }

  // A synchro that the informer cache no longer justifies is about to be reconciled.
  lemma HandoverTracked(states: seq<State>, actions: seq<Action>, i: nat, m: Shard)
    requires IsRun(states, actions) && i < |states| && m in states[i].managers
    ensures var api, l := states[i].api, states[i].managers[m];
            && InRange(api, l)
            && (!RelevantView(m, api, l.cache) && (l.r.registered || l.r.running > 0) ==>
                  l.r.queued || !l.r.pc.Idle? || Noted(m, api, l))
  {
    RunKeepsInv(states, actions, i);
  }
}
