// One refresh of what a cluster synchronizes: negotiation (pkg/synchromanager/clustersynchro/
// resource_negotiator.go) and the start, stop and clean-up that follow from it
// (pkg/synchromanager/clustersynchro/cluster_synchro.go).
//
// What fails is a parameter: the creation of a storage or of a synchro, the cleaning of a stored
// resource, and for which synchro the cluster is closed before the synchro has stopped. Storage
// configurations are a function from a version to the resource it is stored as.
module SyncRefresh {
  import opened Common
  import opened GroupStatus

  // ---------------------------------------------------------------------------------------------
  // Negotiation.

  // A resource to synchronize as discovery knows it: the versions a legacy resource may be stored in,
  // the versions asked for and the versions the cluster has, best first.
  datatype Request = Request(gr: GroupResource, info: Info, known: set<string>, wanted: set<string>,
      supported: seq<string>)

  predicate Eligible(q: Request, v: string) {
    if q.known != {} then v in q.known
    else q.wanted == {} || "*" in q.wanted || v in q.wanted
  }

  function FirstKnown(supported: seq<string>, known: set<string>): (r: seq<string>)
    ensures |r| <= 1 && forall v :: v in r ==> v in supported && v in known
    ensures r == [] ==> forall v :: v in supported ==> v !in known
    ensures r != [] ==> exists i :: 0 <= i < |supported| && supported[i] == r[0] && forall j :: 0 <= j < i ==>
            supported[j] !in known
  {
    if supported == [] then []
    else if supported[0] in known then [supported[0]]
    else
      var r := FirstKnown(supported[1..], known);
      assert r != [] ==> exists i :: 0 <= i < |supported| && supported[i] == r[0] && forall j :: 0 <= j < i ==>
             supported[j] !in known by {
        if r != [] {
          var i :| 0 <= i < |supported[1..]| && supported[1..][i] == r[0] && forall j :: 0 <= j < i ==>
              supported[1..][j] !in known;
          assert supported[i + 1] == r[0];
          forall j | 0 <= j < i + 1 ensures supported[j] !in known {
            if j > 0 {
              assert supported[j] == supported[1..][j - 1];
            }
          }
        }
      }
      r
  }

  function Wanted(supported: seq<string>, wanted: set<string>): (r: seq<string>)
    ensures forall v :: v in r <==> v in supported && v in wanted
  {
    if supported == [] then []
    else (if supported[0] in wanted then [supported[0]] else []) + Wanted(supported[1..], wanted)
  }

  // negotiateSyncVersions: some eligible versions that the cluster has, and none exactly if there are none.
  function NegotiateVersions(q: Request): (r: seq<string>)
    ensures forall v :: v in r ==> v in q.supported && Eligible(q, v)
    ensures r == [] <==> forall v :: v in q.supported ==> !Eligible(q, v)
    ensures q.known != {} ==> |r| <= 1
    ensures q.known == {} && q.wanted != {} ==> forall v :: v in q.supported && Eligible(q, v) ==> v in r
    ensures q.known == {} && q.wanted == {} ==> r <= q.supported && (|r| == 3 || (|r| < 3 && r == q.supported))
    ensures q.known == {} && "*" in q.wanted ==> r == q.supported
    ensures q.known != {} && r != [] ==>
              exists i :: 0 <= i < |q.supported| && q.supported[i] == r[0]
                  && forall j :: 0 <= j < i ==> q.supported[j] !in q.known
  {
    assert q.supported != [] ==> q.supported[0] in q.supported;
    if q.known != {} then FirstKnown(q.supported, q.known)
    else if q.wanted == {} then (if |q.supported| > 3 then q.supported[..3] else q.supported)
    else if "*" in q.wanted then q.supported
    else
      var r := Wanted(q.supported, q.wanted);
      assert r != [] ==> r[0] in r;
      r
  }

  // Every condition with a storage resource has a configuration for it, which is that of one of them.
  ghost predicate Backed(conditions: Conditions, configs: Configs) {
    && (forall x :: x in conditions && conditions[x].storage.Some? ==> conditions[x].storage.value in configs)
    && (forall g :: g in configs ==> configs[g] in conditions && conditions[configs[g]].storage == Some(g))
  }

  // The version of a resource is asked for.
  ghost predicate Asked(requests: seq<Request>, x: GroupVersionResource) {
    exists q :: q in requests && q.gr == x.gr && x.version in NegotiateVersions(q)
  }

  type Storages = GroupVersionResource -> Option<GroupVersionResource>

  function ConditionFor(storageOf: Storages, x: GroupVersionResource): Condition {
    match storageOf(x)
    case None => Condition(None, Pending, "SynchroCreateFailed")
    case Some(g) => Condition(Some(g), Pending, "SynchroCreating")
  }

  type Configs = map<GroupVersionResource, GroupVersionResource>

  // Conditions as they are set up, backed by configurations.
  ghost predicate SetUp(conditions: Conditions, configs: Configs, storageOf: Storages) {
    && (forall x :: x in conditions ==> conditions[x] == ConditionFor(storageOf, x))
    && Backed(conditions, configs)
  }

  function Configured(configs: Configs, storageOf: Storages, x: GroupVersionResource): Configs {
    if storageOf(x).Some? && storageOf(x).value !in configs then configs[storageOf(x).value := x] else configs
  }

  lemma StepKeepsSetUp(conditions: Conditions, configs: Configs, storageOf: Storages, x: GroupVersionResource)
    requires SetUp(conditions, configs, storageOf)
    ensures SetUp(conditions[x := ConditionFor(storageOf, x)], Configured(configs, storageOf, x), storageOf)
  {
  }

  // The versions of one resource, with a configuration for each storage resource that has none yet.
  method NegotiateResource(status: GroupResourceStatus, configs: Configs, gr: GroupResource, versions: seq<string>,
                           storageOf: Storages)
    returns (configs': Configs)
    requires gr in status.resources && Fits(status.View()) && SetUp(status.conditions, configs, storageOf)
    modifies status`versions, status`conditions
    ensures Fits(status.View()) && SetUp(status.conditions, configs', storageOf)
    ensures forall x :: x in status.conditions <==> x in old(status.conditions) || (x.gr == gr && x.version in versions)
  {
    configs' := configs;
    for i := 0 to |versions|
      invariant Fits(status.View()) && SetUp(status.conditions, configs', storageOf)
      invariant forall x :: x in status.conditions <==>
                  x in old(status.conditions) || (x.gr == gr && x.version in versions[..i])
    {
      var x := GroupVersionResource(gr, versions[i]);
      StepKeepsSetUp(status.conditions, configs', storageOf, x);
      status.AddSyncCondition(x, ConditionFor(storageOf, x));
      configs' := Configured(configs', storageOf, x);
    }
  }

  lemma NoneEmptyKept(before: Snapshot, after: Snapshot, x: GroupVersionResource)
    requires Fits(before) && Fits(after) && NoneEmpty(before)
    requires after.versions.Keys == before.versions.Keys + {x.gr}
    requires before.conditions.Keys <= after.conditions.Keys && x in after.conditions
    ensures NoneEmpty(after)
  {
    assert About(x);
    forall h | h in before.versions ensures after.versions[h] != {} {
      var v :| v in before.versions[h];
      assert About(GroupVersionResource(h, v));
    }
  }

  ghost predicate Complete(s: Snapshot) { Fits(s) && Tidy(s) && NoneEmpty(s) }

  // A request without an eligible version is skipped.
  method NegotiateRequest(status: GroupResourceStatus, configs: Configs, q: Request, storageOf: Storages)
    returns (configs': Configs)
    requires Complete(status.View()) && SetUp(status.conditions, configs, storageOf)
    modifies status
    ensures Complete(status.View()) && SetUp(status.conditions, configs', storageOf)
    ensures forall x :: x in status.conditions <==>
              x in old(status.conditions) || (x.gr == q.gr && x.version in NegotiateVersions(q))
  {
    configs' := configs;
    var versions := NegotiateVersions(q);
    if versions == [] {
      return;
    }
    ghost var before := status.View();
    status.AddResource(q.gr, q.info);
    configs' := NegotiateResource(status, configs, q.gr, versions, storageOf);
    NoneEmptyKept(before, status.View(), GroupVersionResource(q.gr, versions[0]));
  }

  lemma AskedMore(requests: seq<Request>, i: nat, x: GroupVersionResource)
    requires i < |requests|
    ensures Asked(requests[..i + 1], x) <==>
            Asked(requests[..i], x) || (x.gr == requests[i].gr && x.version in NegotiateVersions(requests[i]))
  {
    assert requests[..i + 1] == requests[..i] + [requests[i]];
  }

  // A status with the negotiated versions of all requests, and a configuration for each storage resource.
  method Negotiate(requests: seq<Request>, storageOf: Storages)
    returns (status: GroupResourceStatus, configs: Configs)
    ensures fresh(status) && Complete(status.View()) && SetUp(status.conditions, configs, storageOf)
    ensures forall x :: x in status.conditions <==> Asked(requests, x)
  {
    status := new GroupResourceStatus();
    configs := map[];
    for i := 0 to |requests|
      invariant fresh(status) && Complete(status.View()) && SetUp(status.conditions, configs, storageOf)
      invariant forall x :: x in status.conditions <==> Asked(requests[..i], x)
    {
      configs := NegotiateRequest(status, configs, requests[i], storageOf);
      forall x ensures x in status.conditions <==> Asked(requests[..i + 1], x) {
        AskedMore(requests, i, x);
      }
    }
    assert requests[..|requests|] == requests;
  }

  // ---------------------------------------------------------------------------------------------
  // The refresh.

  type Index = map<GroupVersionResource, set<GroupVersionResource>>

  ghost predicate StoredAs(conditions: Conditions, x: GroupVersionResource, g: GroupVersionResource) {
    x in conditions && conditions[x].storage == Some(g)
  }

  // The versions that are stored as one storage resource.
  ghost predicate ByStorage(index: Index, conditions: Conditions) {
    forall x: GroupVersionResource {:trigger About(x)} :: About(x) ==>
      forall g :: g in index && x in index[g] <==> StoredAs(conditions, x, g)
  }

  method GetStorageGVRToSyncGVRs(conditions: Conditions) returns (index: Index)
    ensures ByStorage(index, conditions)
  {
    index := map[];
    var todo := conditions.Keys;
    while todo != {}
      invariant todo <= conditions.Keys
      invariant forall g, x :: g in index && x in index[g] <==> StoredAs(conditions, x, g) && x !in todo
      decreases todo
    {
      var x :| x in todo;
      match conditions[x].storage {
        case None =>
        case Some(g) => index := index[g := (if g in index then index[g] else {}) + {x}];
      }
      todo := todo - {x};
    }
  }

  // What a run of updates does to the conditions: those of the storage resources in `touched` get the
  // phase and reason that `verdict` has for them.
  datatype Verdict = Verdict(phase: Phase, reason: string)

  function Judged(c: Condition, touched: map<GroupVersionResource, Verdict>): Condition {
    if c.storage.Some? && c.storage.value in touched
    then c.(phase := touched[c.storage.value].phase, reason := touched[c.storage.value].reason)
    else c
  }

  ghost predicate IsJudged(before: Conditions, after: Conditions, touched: map<GroupVersionResource, Verdict>) {
    after.Keys == before.Keys && forall x {:trigger About(x)} :: About(x) && x in before ==>
        after[x] == Judged(before[x], touched)
  }

  lemma JudgedMore(c0: Conditions, c1: Conditions, c2: Conditions, touched: map<GroupVersionResource, Verdict>,
                   g: GroupVersionResource, v: Verdict)
    requires IsJudged(c0, c1, touched) && IsJudged(c1, c2, map[g := v])
    ensures IsJudged(c0, c2, touched[g := v])
  {
  }

  lemma JudgedKeepsIndex(index: Index, before: Conditions, after: Conditions,
                         touched: map<GroupVersionResource, Verdict>)
    requires ByStorage(index, before) && IsJudged(before, after, touched)
    ensures ByStorage(index, after)
  {
    assert forall x :: x in before ==> About(x);
    assert forall g, x :: StoredAs(before, x, g) <==> StoredAs(after, x, g);
  }

  method UpdateSyncConditions(status: GroupResourceStatus, index: Index, g: GroupVersionResource, v: Verdict)
    requires Fits(status.View()) && ByStorage(index, status.conditions)
    modifies status`conditions
    ensures Fits(status.View()) && ByStorage(index, status.conditions)
    ensures IsJudged(old(status.conditions), status.conditions, map[g := v])
  {
    var xs := if g in index then index[g] else {};
    var todo := xs;
    while todo != {}
      invariant todo <= xs && Fits(status.View()) && status.conditions.Keys == old(status.conditions).Keys
      invariant forall x {:trigger About(x)} :: About(x) && x in status.conditions ==>
                  status.conditions[x] ==
                  if x in xs - todo then old(status.conditions)[x].(phase := v.phase, reason := v.reason)
                      else old(status.conditions)[x]
      decreases todo
    {
      var x :| x in todo;
      assert About(x) && StoredAs(old(status.conditions), x, g);
      status.UpdateSyncCondition(x, v.phase, v.reason);
      todo := todo - {x};
    }
    forall x {:trigger About(x)} | About(x) && x in status.conditions
      ensures status.conditions[x] == Judged(old(status.conditions)[x], map[g := v])
    {
      assert x in xs <==> StoredAs(old(status.conditions), x, g);
    }
    JudgedKeepsIndex(index, old(status.conditions), status.conditions, map[g := v]);
  }

  // What fails in one refresh, by storage resource.
  datatype Failures = Failures(
    storage: set<GroupVersionResource>,   // creating the storage
    synchro: set<GroupVersionResource>,   // creating the synchro
    closing: set<GroupVersionResource>,   // the cluster is closed before the synchro has stopped
    cleaning: set<GroupVersionResource>)  // cleaning what is stored

  type Verdicts = map<GroupVersionResource, Verdict>

  function CreateVerdict(g: GroupVersionResource, f: Failures): Verdict {
    if g in f.storage || g in f.synchro then Verdict(Pending, "SynchroCreateFailed") else Verdict(Unknown, "")
  }

  class ClusterSynchro {
    var status: GroupResourceStatus
    var synchros: set<GroupVersionResource>       // storageResourceSynchros
    var stored: set<GroupVersionResource>         // storageResourceVersions
    var cleaned: seq<GroupVersionResource>        // what the storage was asked to clean

    // Every registered synchro has its stored versions.
    ghost predicate Valid()
      reads this, status
    {
      Fits(status.View()) && synchros <= stored
    }

    constructor (stored: set<GroupVersionResource>)
      ensures Valid() && fresh(status) && status.View() == EMPTY && synchros == {} && this.stored == stored
              && cleaned == []
    {
      status := new GroupResourceStatus();
      synchros, this.stored, cleaned := {}, stored, [];
    }

    // Synchros are created for the configurations without one.
    method CreateSynchros(configs: Configs, index: Index, f: Failures) returns (ghost verdicts: Verdicts)
      requires Valid() && ByStorage(index, status.conditions)
      modifies this`synchros, this`stored, status`conditions
      ensures Valid() && ByStorage(index, status.conditions)
      ensures synchros == old(synchros) + (configs.Keys - f.storage - f.synchro)
      ensures stored == old(stored) + (configs.Keys - old(synchros) - f.storage)
      ensures verdicts.Keys == configs.Keys - old(synchros) && forall g :: g in verdicts ==>
              verdicts[g] == CreateVerdict(g, f)
      ensures IsJudged(old(status.conditions), status.conditions, verdicts)
    {
      verdicts := map[];
      var todo := configs.Keys;
      while todo != {}
        invariant todo <= configs.Keys && Valid() && ByStorage(index, status.conditions)
        invariant synchros == old(synchros) + (configs.Keys - todo - f.storage - f.synchro)
        invariant stored == old(stored) + (configs.Keys - todo - old(synchros) - f.storage)
        invariant verdicts.Keys == configs.Keys - todo - old(synchros)
        invariant forall g :: g in verdicts ==> verdicts[g] == CreateVerdict(g, f)
        invariant IsJudged(old(status.conditions), status.conditions, verdicts)
        decreases todo
      {
        var g :| g in todo;
        todo := todo - {g};
        if g !in synchros {
          ghost var before := status.conditions;
          CreateSynchro(g, index, f);
          JudgedMore(old(status.conditions), before, status.conditions, verdicts, g, CreateVerdict(g, f));
          verdicts := verdicts[g := CreateVerdict(g, f)];
        }
      }
    }

    method CreateSynchro(g: GroupVersionResource, index: Index, f: Failures)
      requires Valid() && ByStorage(index, status.conditions) && g !in synchros
      modifies this`synchros, this`stored, status`conditions
      ensures Valid() && ByStorage(index, status.conditions)
      ensures synchros == if g in f.storage || g in f.synchro then old(synchros) else old(synchros) + {g}
      ensures stored == if g in f.storage then old(stored) else old(stored) + {g}
      ensures IsJudged(old(status.conditions), status.conditions, map[g := CreateVerdict(g, f)])
    {
      if g in f.storage {
        UpdateSyncConditions(status, index, g, Verdict(Pending, "SynchroCreateFailed"));
        return;
      }
      if g !in stored {
        stored := stored + {g};
      }
      if g in f.synchro {
        UpdateSyncConditions(status, index, g, Verdict(Pending, "SynchroCreateFailed"));
        return;
      }
      synchros := synchros + {g};
      UpdateSyncConditions(status, index, g, Verdict(Unknown, ""));
    }

    // Synchros without a configuration are stopped, unless the cluster is closed meanwhile.
    method CloseRemoved(configs: Configs, index: Index, f: Failures) returns (closed: bool, ghost verdicts: Verdicts)
      requires Valid() && ByStorage(index, status.conditions)
      modifies this`synchros, status`conditions
      ensures Valid() && ByStorage(index, status.conditions)
      ensures old(synchros) * configs.Keys <= synchros <= old(synchros)
      ensures closed <==> (old(synchros) - configs.Keys) * f.closing != {}
      ensures !closed ==> synchros == old(synchros) * configs.Keys
      ensures verdicts.Keys == old(synchros) - synchros
      ensures forall g :: g in verdicts ==> verdicts[g] == Verdict(Stopped, "SynchroRemoved")
      ensures IsJudged(old(status.conditions), status.conditions, verdicts)
    {
      closed, verdicts := false, map[];
      var todo := synchros - configs.Keys;
      while todo != {}
        invariant todo <= old(synchros) - configs.Keys && Valid() && ByStorage(index, status.conditions)
        invariant synchros == old(synchros) * configs.Keys + todo
        invariant (old(synchros) - configs.Keys - todo) * f.closing == {}
        invariant verdicts.Keys == old(synchros) - synchros
        invariant forall g :: g in verdicts ==> verdicts[g] == Verdict(Stopped, "SynchroRemoved")
        invariant IsJudged(old(status.conditions), status.conditions, verdicts)
        decreases todo
      {
        var g :| g in todo;
        if g in f.closing {
          closed := true;
          assert g in (old(synchros) - configs.Keys) * f.closing;
          return;
        }
        ghost var before := status.conditions;
        UpdateSyncConditions(status, index, g, Verdict(Stopped, "SynchroRemoved"));
        JudgedMore(old(status.conditions), before, status.conditions, verdicts, g, Verdict(Stopped, "SynchroRemoved"));
        verdicts := verdicts[g := Verdict(Stopped, "SynchroRemoved")];
        synchros, todo := synchros - {g}, todo - {g};
      }
    }

    // Nothing is cleaned while a synchro for it is registered.
    method CleanClusterResource(g: GroupVersionResource)
      requires g !in synchros
      modifies this`cleaned
      ensures cleaned == old(cleaned) + [g]
    {
      cleaned := cleaned + [g];
    }

    // A version whose cleaning failed is not to be deleted.
    method CleanOne(g: GroupVersionResource, index: Index, f: Failures, todelete: set<GroupVersionResource>,
                    ghost failed: Verdicts, ghost c: Conditions, ghost deleted: set<GroupVersionResource>)
      returns (rest: set<GroupVersionResource>, ghost failed': Verdicts)
      requires g !in synchros && Fits(status.View()) && ByStorage(index, status.conditions)
      requires CleanFailures(c, status.conditions, deleted, todelete, index, failed)
      modifies this`cleaned, status`conditions
      ensures Fits(status.View()) && ByStorage(index, status.conditions) && cleaned == old(cleaned) + [g]
      ensures failed'.Keys == failed.Keys + {g} * f.cleaning
      ensures CleanFailures(c, status.conditions, deleted, rest, index, failed')
    {
      rest, failed' := todelete, failed;
      CleanClusterResource(g);
      if g in f.cleaning {
        UpdateSyncConditions(status, index, g, CLEAN_FAILED);
        rest := rest - (if g in index then index[g] else {});
        failed' := failed[g := CLEAN_FAILED];
        JudgedMore(c, old(status.conditions), status.conditions, failed, g, CLEAN_FAILED);
        assert forall x :: Failed(index, failed'.Keys, x) <==>
                 Failed(index, failed.Keys, x) || (g in index && x in index[g]);
      }
    }

    // What is stored without a configuration is cleaned, once.
    method CleanUnstored(configs: Configs, index: Index, f: Failures, deleted: set<GroupVersionResource>)
      returns (rest: set<GroupVersionResource>, ghost failed: Verdicts)
      requires Valid() && ByStorage(index, status.conditions) && synchros <= configs.Keys
      modifies this`stored, this`cleaned, status`conditions
      ensures Valid() && stored == old(stored) * configs.Keys
      ensures Logged(old(cleaned), cleaned, old(stored) - configs.Keys)
      ensures failed.Keys == (old(stored) - configs.Keys) * f.cleaning
      ensures CleanFailures(old(status.conditions), status.conditions, deleted, rest, index, failed)
    {
      rest, failed := deleted, map[];
      var todo := stored - configs.Keys;
      ghost var done: set<GroupVersionResource> := {};
      while todo != {}
        invariant Progress(old(stored), configs.Keys, stored, todo, done, failed.Keys, f.cleaning)
        invariant Logged(old(cleaned), cleaned, done) && Fits(status.View()) && ByStorage(index, status.conditions)
        invariant CleanFailures(old(status.conditions), status.conditions, deleted, rest, index, failed)
        decreases todo
      {
        var g :| g in todo;
        OneMore(old(stored), configs.Keys, stored, todo, done, failed.Keys, f.cleaning, g);
        LoggedMore(old(cleaned), cleaned, done, g);
        stored := stored - {g};
        rest, failed := CleanOne(g, index, f, rest, failed, old(status.conditions), deleted);
        done, todo := done + {g}, todo - {g};
      }
    }

    // The earlier status goes into the negotiated one.
    method Adopt(negotiated: GroupResourceStatus) returns (deleted: set<GroupVersionResource>, index: Index)
      requires Valid() && negotiated != status && Complete(negotiated.View())
      modifies this`status, negotiated
      ensures status == negotiated && Fits(status.View()) && NoRepeats(status.sorted)
              && ByStorage(index, status.conditions)
      ensures IsMerge(old(negotiated.View()), old(status.View()), status.View(), deleted)
      ensures status.conditions.Keys == old(negotiated.conditions).Keys + old(status.conditions).Keys
    {
      ghost var last := status.View();
      deleted := negotiated.Merge(status);
      status := negotiated;
      index := GetStorageGVRToSyncGVRs(status.conditions);
      MergedKeys(old(negotiated.View()), last, status.View(), deleted);
    }

    // The synchros that the configurations ask for are there, and if the cluster is not closed no others.
    method Reconcile(configs: Configs, index: Index, f: Failures) returns (closed: bool)
      requires Valid() && ByStorage(index, status.conditions)
      modifies this`synchros, this`stored, status`conditions
      ensures Valid() && ByStorage(index, status.conditions) && status.conditions.Keys == old(status.conditions).Keys
      ensures closed <==> (old(synchros) - configs.Keys) * f.closing != {}
      ensures !closed ==> synchros == (old(synchros) + (configs.Keys - f.storage - f.synchro)) * configs.Keys
      ensures stored == old(stored) + (configs.Keys - old(synchros) - f.storage)
      ensures Outcomes(old(status.conditions), status.conditions, configs.Keys, old(synchros), f)
      ensures SameStorages(old(status.conditions), status.conditions)
    {
      ghost var v1 := CreateSynchros(configs, index, f);
      assert synchros - configs.Keys == old(synchros) - configs.Keys;
      ghost var created := status.conditions;
      ghost var v2;
      closed, v2 := CloseRemoved(configs, index, f);
      OutcomesOf(old(status.conditions), created, status.conditions, configs.Keys, old(synchros), f, v1, v2);
      JudgedStorages(old(status.conditions), created, v1);
      JudgedStorages(created, status.conditions, v2);
    }

    // One refresh. Unless the cluster is closed on the way, the synchros and what is stored are those of
    // the configurations; all else that was stored has been cleaned, once each; and the status has the
    // negotiated versions and, of the earlier ones, exactly those whose cleaning failed just now. If the
    // cluster is closed nothing has been cleaned and no version is lost.
    method RefreshSyncResources(negotiated: GroupResourceStatus, configs: Configs, f: Failures) returns (closed: bool)
      requires Valid() && negotiated != status && Complete(negotiated.View()) && Backed(negotiated.conditions, configs)
      modifies this, negotiated
      ensures Valid() && status == negotiated && NoRepeats(status.sorted)
      ensures closed <==> (old(synchros) - configs.Keys) * f.closing != {}
      ensures closed ==>
                && cleaned == old(cleaned)
                && status.conditions.Keys == old(negotiated.conditions).Keys + old(status.conditions).Keys
      ensures !closed ==>
                && synchros == (old(synchros) + (configs.Keys - f.storage - f.synchro)) * configs.Keys
                && stored == (old(stored) + (configs.Keys - old(synchros) - f.storage)) * configs.Keys
                && Logged(old(cleaned), cleaned, old(stored) - configs.Keys)
                && KeptVersions(status.conditions, old(negotiated.conditions), old(status.conditions),
                    (old(stored) - configs.Keys) * f.cleaning)
      ensures forall x :: x in old(negotiated.conditions) ==>
                x in status.conditions && status.conditions[x] ==
                    Outcome(old(negotiated.conditions)[x], old(synchros), f)
      ensures forall x :: x in status.conditions && x !in old(negotiated.conditions) ==>
                x in old(status.conditions) && status.conditions[x].storage == old(status.conditions)[x].storage
    {
      ghost var last, neg := status.View(), negotiated.View();
      var deleted, index := Adopt(negotiated);
      ghost var merged := status.View();
      closed := Reconcile(configs, index, f);
      ghost var reconciled := status.conditions;
      if closed {
        OutcomesOfNegotiated(neg, last, merged, reconciled, reconciled, configs, old(synchros), f, map[], deleted);
        StoragesOfEarlier(neg, last, merged, status.conditions, deleted);
        return;
      }
      assert stored - configs.Keys == old(stored) - configs.Keys;
      var rest, failed := CleanUnstored(configs, index, f, deleted);
      ghost var kept := status.View();
      OutcomesOfNegotiated(neg, last, merged, reconciled, kept.conditions, configs, old(synchros), f, failed, deleted);
      JudgedStorages(reconciled, kept.conditions, failed);
      StoragesOfEarlier(neg, last, merged, kept.conditions, deleted);
      status.DeleteVersions(rest);
      KeptAfter(neg, last, merged, kept, status.View(), deleted, rest, index, failed.Keys);
    }
  }

  // What becomes of a condition: that of a storage resource without a synchro tells how creating one went.
  function Outcome(c: Condition, running: set<GroupVersionResource>, f: Failures): Condition {
    if c.storage.None? || c.storage.value in running then c
    else c.(phase := CreateVerdict(c.storage.value, f).phase, reason := CreateVerdict(c.storage.value, f).reason)
  }

  ghost predicate Outcomes(before: Conditions, after: Conditions, configured: set<GroupVersionResource>,
                           running: set<GroupVersionResource>, f: Failures) {
    forall x: GroupVersionResource {:trigger About(x)} ::
      About(x) && x in before && (before[x].storage.None? || before[x].storage.value in configured) ==>
      x in after && after[x] == Outcome(before[x], running, f)
  }

  lemma OutcomesOf(c0: Conditions, c1: Conditions, c2: Conditions, configured: set<GroupVersionResource>,
                   running: set<GroupVersionResource>, f: Failures, v1: Verdicts, v2: Verdicts)
    requires IsJudged(c0, c1, v1) && v1.Keys == configured - running
             && (forall g :: g in v1 ==> v1[g] == CreateVerdict(g, f))
    requires IsJudged(c1, c2, v2) && v2.Keys !! configured
    ensures Outcomes(c0, c2, configured, running, f)
  {
  }

  lemma OutcomesOfNegotiated(neg: Snapshot, last: Snapshot, merged: Snapshot, c1: Conditions, c2: Conditions,
                             configs: Configs,
                             running: set<GroupVersionResource>, f: Failures, failed: Verdicts,
                             deleted: set<GroupVersionResource>)
    requires IsMerge(neg, last, merged, deleted) && Backed(neg.conditions, configs)
    requires Outcomes(merged.conditions, c1, configs.Keys, running, f) && IsJudged(c1, c2, failed)
             && failed.Keys !! configs.Keys
    ensures forall x :: x in neg.conditions ==> x in c2 && c2[x] == Outcome(neg.conditions[x], running, f)
  {
    assert forall x :: x in neg.conditions ==> About(x);
  }

  // Updates of conditions do not touch what their versions are stored as.
  ghost predicate SameStorages(before: Conditions, after: Conditions) {
    before.Keys == after.Keys && forall x :: x in before ==> after[x].storage == before[x].storage
  }

  lemma JudgedStorages(before: Conditions, after: Conditions, verdicts: Verdicts)
    requires IsJudged(before, after, verdicts)
    ensures SameStorages(before, after)
  {
    assert forall x :: x in before ==> About(x);
  }

  lemma StoragesOfEarlier(neg: Snapshot, last: Snapshot, merged: Snapshot, after: Conditions,
                          deleted: set<GroupVersionResource>)
    requires IsMerge(neg, last, merged, deleted) && SameStorages(merged.conditions, after)
    ensures forall x :: x in after && x !in neg.conditions ==>
              x in last.conditions && after[x].storage == last.conditions[x].storage
  {
    assert forall x :: x in after ==> About(x);
  }

  lemma MergedKeys(neg: Snapshot, last: Snapshot, merged: Snapshot, deleted: set<GroupVersionResource>)
    requires IsMerge(neg, last, merged, deleted)
    ensures merged.conditions.Keys == neg.conditions.Keys + last.conditions.Keys
  {
    assert forall x :: x in merged.conditions || x in neg.conditions || x in last.conditions ==> About(x);
  }

  // The negotiated versions, and of the earlier ones those stored as something that could not be cleaned.
  ghost predicate KeptVersions(after: Conditions, negotiated: Conditions, last: Conditions,
                               failed: set<GroupVersionResource>) {
    forall x :: x in after <==>
      x in negotiated || (x in last && last[x].storage.Some? && last[x].storage.value in failed)
  }

  lemma KeptAfter(neg: Snapshot, last: Snapshot, merged: Snapshot, kept: Snapshot, after: Snapshot,
                  deleted: set<GroupVersionResource>, rest: set<GroupVersionResource>, index: Index,
                  failed: set<GroupVersionResource>)
    requires IsMerge(neg, last, merged, deleted) && ByStorage(index, merged.conditions)
    requires kept.conditions.Keys == merged.conditions.Keys && Remain(rest, deleted, index, failed)
             && IsDelete(kept, after, rest)
    ensures KeptVersions(after.conditions, neg.conditions, last.conditions, failed)
  {
    forall x ensures x in after.conditions <==>
                       x in neg.conditions || (x in last.conditions && last.conditions[x].storage.Some?
                           && last.conditions[x].storage.value in failed)
    {
      assert About(x);
      if x in deleted {
        assert Failed(index, failed, x) <==> exists g :: g in failed && StoredAs(merged.conditions, x, g);
      }
    }
  }

  // Each of the set is appended once.
  ghost predicate Logged(before: seq<GroupVersionResource>, after: seq<GroupVersionResource>,
                         done: set<GroupVersionResource>) {
    && before <= after && NoRepeats(after[|before|..])
    && forall g :: g in after[|before|..] <==> g in done
  }

  lemma LoggedMore(before: seq<GroupVersionResource>, after: seq<GroupVersionResource>, done: set<GroupVersionResource>,
                   g: GroupVersionResource)
    requires Logged(before, after, done) && g !in done
    ensures Logged(before, after + [g], done + {g})
  {
    assert (after + [g])[|before|..] == after[|before|..] + [g];
  }

  // How far the clean-up has come.
  ghost predicate Progress(all: set<GroupVersionResource>, configured: set<GroupVersionResource>,
                           stored: set<GroupVersionResource>,
                           todo: set<GroupVersionResource>, done: set<GroupVersionResource>,
                           failed: set<GroupVersionResource>, cleaning: set<GroupVersionResource>) {
    done !! todo && done + todo == all - configured && stored == all - done && failed == done * cleaning
  }

  // The versions stored as what could not be cleaned say so, and are not deleted.
  ghost predicate CleanFailures(before: Conditions, after: Conditions, deleted: set<GroupVersionResource>,
                                rest: set<GroupVersionResource>,
                                index: Index, failed: Verdicts) {
    && (forall g :: g in failed ==> failed[g] == CLEAN_FAILED)
    && IsJudged(before, after, failed) && Remain(rest, deleted, index, failed.Keys)
  }

  lemma OneMore(all: set<GroupVersionResource>, configured: set<GroupVersionResource>,
                stored: set<GroupVersionResource>,
                todo: set<GroupVersionResource>, done: set<GroupVersionResource>,
                failed: set<GroupVersionResource>, cleaning: set<GroupVersionResource>, g: GroupVersionResource)
    requires Progress(all, configured, stored, todo, done, failed, cleaning) && g in todo
    ensures Progress(all, configured, stored - {g}, todo - {g}, done + {g}, failed + {g} * cleaning, cleaning)
  {
  }

  const CLEAN_FAILED := Verdict(Stopped, "CleanResourceFailed")

  ghost predicate Remain(rest: set<GroupVersionResource>, deleted: set<GroupVersionResource>, index: Index,
                         gs: set<GroupVersionResource>) {
    forall x: GroupVersionResource {:trigger About(x)} :: About(x) ==>
    (x in rest <==> x in deleted && !Failed(index, gs, x))
  }

  // The version is stored as one of the given storage resources.
  ghost predicate Failed(index: Index, gs: set<GroupVersionResource>, x: GroupVersionResource) {
    exists g :: g in gs && g in index && x in index[g]
  }

  // ---------------------------------------------------------------------------------------------
  // Runs.

  datatype Round = Round(requests: seq<Request>, storageOf: Storages, failures: Failures)

  // The round configures the storage resource.
  ghost predicate Configures(r: Round, g: GroupVersionResource) {
    exists x :: Asked(r.requests, x) && r.storageOf(x) == Some(g)
  }

  lemma ConfiguredByRequests(conditions: Conditions, configs: Configs, r: Round, g: GroupVersionResource)
    requires SetUp(conditions, configs, r.storageOf) && forall x :: x in conditions <==> Asked(r.requests, x)
    ensures g in configs <==> Configures(r, g)
  {
    if g in configs {
      assert Asked(r.requests, configs[g]);
    }
    if Configures(r, g) {
      var x :| Asked(r.requests, x) && r.storageOf(x) == Some(g);
      assert x in conditions;
    }
  }

  // A synchro runs for the storage resource after the rounds.
  ghost predicate Runs(rounds: seq<Round>, g: GroupVersionResource) {
    && rounds != []
    && var last := rounds[|rounds| - 1];
       Configures(last, g) && (Runs(rounds[..|rounds| - 1], g)
           || (g !in last.failures.storage && g !in last.failures.synchro))
  }

  // The storage resource counts as stored after the rounds.
  ghost predicate Keeps(stored: set<GroupVersionResource>, rounds: seq<Round>, g: GroupVersionResource) {
    if rounds == [] then g in stored
    else
      var last := rounds[|rounds| - 1];
      Configures(last, g) && (Keeps(stored, rounds[..|rounds| - 1], g) || g !in last.failures.storage)
  }

  // The cluster is closed in the round that follows, before a synchro that has to go has stopped.
  ghost predicate Closes(before: seq<Round>, next: Round) {
    exists g :: Runs(before, g) && !Configures(next, g) && g in next.failures.closing
  }

  ghost predicate Undisturbed(rounds: seq<Round>) {
    rounds == [] || (Undisturbed(rounds[..|rounds| - 1]) && !Closes(rounds[..|rounds| - 1], rounds[|rounds| - 1]))
  }

  // The version was asked for by the round before the last, and the last could not clean what it was
  // stored as.
  ghost predicate LeftOver(stored: set<GroupVersionResource>, rounds: seq<Round>, x: GroupVersionResource) {
    && |rounds| > 1
    && var before, last := rounds[|rounds| - 2], rounds[|rounds| - 1];
       && Asked(before.requests, x) && before.storageOf(x).Some?
       && Keeps(stored, rounds[..|rounds| - 1], before.storageOf(x).value)
       && !Configures(last, before.storageOf(x).value) && before.storageOf(x).value in last.failures.cleaning
  }

  ghost predicate Shows(stored: set<GroupVersionResource>, rounds: seq<Round>, x: GroupVersionResource) {
    rounds != [] && (Asked(rounds[|rounds| - 1].requests, x) || LeftOver(stored, rounds, x))
  }

  // What the conditions say after the rounds: a version that is not asked for any more is stored as
  // something that is not configured any more.
  ghost predicate Tracks(conditions: Conditions, stored: set<GroupVersionResource>, rounds: seq<Round>) {
    && (forall x :: x in conditions <==> Shows(stored, rounds, x))
    && (forall x :: x in conditions ==>
          var last := rounds[|rounds| - 1];
          if Asked(last.requests, x) then conditions[x].storage == last.storageOf(x)
          else conditions[x].storage.Some? && !Configures(last, conditions[x].storage.value))
  }

  lemma TracksNext(last: Conditions, kept: set<GroupVersionResource>, asked: Conditions, configs: Configs,
                   conditions: Conditions,
                   stored: set<GroupVersionResource>, rounds: seq<Round>, r: Round)
    requires Tracks(last, stored, rounds) && forall g :: g in kept <==> Keeps(stored, rounds, g)
    requires forall x :: x in asked <==> Asked(r.requests, x)
    requires forall x :: x in asked ==> x in conditions && conditions[x].storage == r.storageOf(x)
    requires forall g :: g in configs <==> Configures(r, g)
    requires KeptVersions(conditions, asked, last, (kept - configs.Keys) * r.failures.cleaning)
    requires forall x :: x in conditions && x !in asked ==> x in last && conditions[x].storage == last[x].storage
    ensures Tracks(conditions, stored, rounds + [r])
  {
    var all := rounds + [r];
    assert all[..|all| - 1] == rounds;
    forall x ensures x in conditions <==> Shows(stored, all, x) {
      if x !in asked && x in last {
        assert Shows(stored, rounds, x);
        assert !Asked(rounds[|rounds| - 1].requests, x) ==> last[x].storage.value !in kept;
      }
    }
  }

  // From whatever was stored at first, after any number of rounds. They go through if and only if the
  // cluster is not closed while a synchro has to stop. Then synchros run for exactly the configured
  // resources whose creation succeeded in some round since they were configured, the stored resources are
  // known likewise, and the status has exactly the versions that the last round asks for and those of the
  // round before whose own storage resource the last one could not clean: they disappear with the next.
  method RefreshAll(stored: set<GroupVersionResource>, rounds: seq<Round>)
    returns (ok: bool, conditions: Conditions, synchros: set<GroupVersionResource>, kept: set<GroupVersionResource>)
    ensures ok <==> Undisturbed(rounds)
    ensures ok ==> forall x :: x in conditions <==> Shows(stored, rounds, x)
    ensures ok ==> forall g :: g in synchros <==> Runs(rounds, g)
    ensures ok ==> forall g :: g in kept <==> Keeps(stored, rounds, g)
  {
    var s := new ClusterSynchro(stored);
    ok := true;
    for i := 0 to |rounds|
      invariant fresh(s) && fresh(s.status) && s.Valid()
      invariant ok <==> Undisturbed(rounds[..i])
      invariant ok ==> Tracks(s.status.conditions, stored, rounds[..i])
      invariant ok ==> forall g :: g in s.synchros <==> Runs(rounds[..i], g)
      invariant ok ==> forall g :: g in s.stored <==> Keeps(stored, rounds[..i], g)
    {
      assert rounds[..i + 1] == rounds[..i] + [rounds[i]];
      if ok {
        ok := RefreshOnce(s, stored, rounds[..i], rounds[i]);
      }
    }
    assert rounds[..|rounds|] == rounds;
    conditions, synchros, kept := s.status.conditions, s.synchros, s.stored;
  }

  method RefreshOnce(s: ClusterSynchro, ghost stored: set<GroupVersionResource>, ghost rounds: seq<Round>, r: Round)
    returns (ok: bool)
    requires s.Valid() && Tracks(s.status.conditions, stored, rounds)
    requires forall g :: g in s.synchros <==> Runs(rounds, g)
    requires forall g :: g in s.stored <==> Keeps(stored, rounds, g)
    modifies s
    ensures s.Valid() && fresh(s.status)
    ensures ok <==> !Closes(rounds, r)
    ensures ok ==> Tracks(s.status.conditions, stored, rounds + [r])
    ensures ok ==> forall g :: g in s.synchros <==> Runs(rounds + [r], g)
    ensures ok ==> forall g :: g in s.stored <==> Keeps(stored, rounds + [r], g)
  {
    assert (rounds + [r])[..|rounds|] == rounds;
    var status, configs := Negotiate(r.requests, r.storageOf);
    forall g ensures g in configs <==> Configures(r, g) {
      ConfiguredByRequests(status.conditions, configs, r, g);
    }
    ghost var last, kept, running, asked := s.status.conditions, s.stored, s.synchros, status.conditions;
    var closed := s.RefreshSyncResources(status, configs, r.failures);
    ok := !closed;
    assert closed <==> Closes(rounds, r) by {
      if closed {
        var g :| g in (running - configs.Keys) * r.failures.closing;
        assert Runs(rounds, g);
      }
      if Closes(rounds, r) {
        var g :| Runs(rounds, g) && !Configures(r, g) && g in r.failures.closing;
        assert g in (running - configs.Keys) * r.failures.closing;
      }
    }
    if ok {
      TracksNext(last, kept, asked, configs, s.status.conditions, stored, rounds, r);
    }
  }
}
