// The discovery API that is served for many clusters (pkg/kubeapiserver/discovery/discovery.go,
// group.go and version.go): tables per cluster, and tables for all clusters together that are rebuilt
// from them.
//
// The source of API groups is a parameter of every call, since it may grow between calls.
module ServedDiscovery {
  import opened Common

  datatype ServedResource = ServedResource(gv: GroupVersion, resource: string)

  // `rest` stands for kind, verbs and scope.
  datatype APIResource = APIResource(name: string, rest: nat)

  datatype Api = Api(resource: APIResource, versions: set<GroupVersion>)

  // What one cluster offers.
  type Apis = map<GroupResource, Api>

  ghost predicate Offers(apis: Apis, gvr: ServedResource) {
    exists gr :: gr in apis && gvr.gv in apis[gr].versions && apis[gr].resource.name == gvr.resource
  }

  // ---------------------------------------------------------------------------------------------
  // Groups.

  datatype APIGroup = APIGroup(name: string, versions: seq<string>, preferred: string)

  // Groups by name. A source keeps every group under its own name.
  type Groups = map<string, APIGroup>

  // The order of versions of a group whose source lists none: each version once.
  type Order = set<string> -> seq<string>

  ghost predicate Orders(order: Order) {
    forall s :: forall v :: v in order(s) <==> v in s
  }

  function VersionsIn(gvs: set<GroupVersion>, group: string): set<string> {
    set gv | gv in gvs && gv.group == group :: gv.version
  }

  function Filtered(versions: seq<string>, wanted: set<string>): (r: seq<string>)
    ensures forall v :: v in r <==> v in versions && v in wanted
  {
    if versions == [] then []
    else
      var init, last := Filtered(versions[..|versions| - 1], wanted), versions[|versions| - 1];
      if last in wanted then init + [last] else init
  }

  // The entry of a group for the given versions of it.
  function BuildGroup(wanted: set<string>, group: APIGroup, order: Order): APIGroup {
    var versions := if group.versions == [] then order(wanted) else Filtered(group.versions, wanted);
    group.(versions := versions, preferred := if versions != [] then versions[0] else group.preferred)
  }

  // buildAPIGroups: the groups of the source that have one of the versions.
  function BuildGroups(gvs: set<GroupVersion>, source: Groups, order: Order): Groups {
    map g | g in source && VersionsIn(gvs, g) != {} :: BuildGroup(VersionsIn(gvs, g), source[g], order)
  }

  // `built` is what BuildGroups makes, group by group.
  ghost predicate IsBuilt(built: Groups, gvs: set<GroupVersion>, source: Groups, order: Order) {
    forall g: string {:trigger About(g)} :: About(g) ==>
      && (g in built <==> g in source && VersionsIn(gvs, g) != {})
      && (g in built ==> built[g] == BuildGroup(VersionsIn(gvs, g), source[g], order))
  }

  lemma BuiltIsBuildGroups(built: Groups, gvs: set<GroupVersion>, source: Groups, order: Order)
    requires IsBuilt(built, gvs, source, order)
    ensures built == BuildGroups(gvs, source, order)
  {
    assert forall g :: g in built || g in source ==> About(g);
  }

  // The group versions that the groups of all clusters list.
  function ListedByAll(all: map<string, Groups>): set<GroupVersion> {
    set c, g, v | c in all && g in all[c] && v in all[c][g].versions :: GroupVersion(g, v)
  }

  function UnionOf(keys: map<string, set<GroupVersion>>): set<GroupVersion> {
    set c, gv | c in keys && gv in keys[c] :: gv
  }

  // What one cluster lists of a group are its versions, as far as the source has them.
  lemma BuiltVersions(gvs: set<GroupVersion>, source: Groups, order: Order, g: string, v: string)
    requires Orders(order)
    ensures var built := BuildGroups(gvs, source, order);
            g in built && v in built[g].versions <==>
            g in source && GroupVersion(g, v) in gvs && (source[g].versions == [] || v in source[g].versions)
  {
    if GroupVersion(g, v) in gvs {
      assert v in VersionsIn(gvs, g);
    }
  }

  // The indices, in order, of exactly the wanted versions.
  ghost predicate Picks(versions: seq<string>, wanted: set<string>, at: seq<nat>, r: seq<string>) {
    && |at| == |r|
    && (forall k :: 0 <= k < |at| ==> at[k] < |versions| && versions[at[k]] == r[k])
    && (forall k, l :: 0 <= k < l < |at| ==> at[k] < at[l])
    && (forall i :: 0 <= i < |versions| && versions[i] in wanted ==> i in at)
  }

  lemma {:induction false} FilteredPicks(versions: seq<string>, wanted: set<string>) returns (at: seq<nat>)
    ensures Picks(versions, wanted, at, Filtered(versions, wanted))
  {
    if versions == [] {
      at := [];
    } else {
      var n := |versions| - 1;
      at := FilteredPicks(versions[..n], wanted);
      if versions[n] in wanted {
        at := at + [n];
      }
      forall i | 0 <= i < |versions| && versions[i] in wanted ensures i in at {
        if i < n {
          assert versions[..n][i] in wanted;
        } else {
          assert at[|at| - 1] == n;
        }
      }
    }
  }

  // A built group keeps the name and the order of the source, each listed version as often as there, and
  // prefers the first of them.
  lemma BuiltInOrder(gvs: set<GroupVersion>, source: Groups, order: Order, g: string) returns (at: seq<nat>)
    requires g in BuildGroups(gvs, source, order) && source[g].versions != []
    ensures var built := BuildGroups(gvs, source, order)[g];
            && built.name == source[g].name
            && Picks(source[g].versions, VersionsIn(gvs, g), at, built.versions)
            && built.preferred == if at == [] then source[g].preferred else source[g].versions[at[0]]
  {
    at := FilteredPicks(source[g].versions, VersionsIn(gvs, g));
  }

  lemma {:induction false} FilteredSame(versions: seq<string>, a: set<string>, b: set<string>)
    requires forall v :: v in versions ==> (v in a <==> v in b)
    ensures Filtered(versions, a) == Filtered(versions, b)
  {
    if versions != [] {
      FilteredSame(versions[..|versions| - 1], a, b);
    }
  }

  // Rebuilding the groups of all clusters from the filtered groups of each gives, for every group with
  // a version to list, the same entry with the same versions in the same order as building them from
  // the union of what the clusters offer. The two differ exactly on groups of which the source knows no
  // offered version: those have an empty entry in the union and none in the rebuilt groups.
  lemma RebuiltGroupsAreUnion(keys: map<string, set<GroupVersion>>, all: map<string, Groups>, source: Groups,
                              order: Order)
    requires Orders(order) && all.Keys == keys.Keys
    requires forall c :: c in keys ==> all[c] == BuildGroups(keys[c], source, order)
    ensures var rebuilt, union := BuildGroups(ListedByAll(all), source, order),
            BuildGroups(UnionOf(keys), source, order);
            forall g :: && (g in rebuilt <==> g in union && union[g].versions != [])
                        && (g in rebuilt ==> rebuilt[g] == union[g])
  {
    var rebuilt, union := BuildGroups(ListedByAll(all), source, order), BuildGroups(UnionOf(keys), source, order);
    forall g
      ensures g in rebuilt <==> g in union && union[g].versions != []
      ensures g in rebuilt ==> rebuilt[g] == union[g]
    {
      RebuiltGroup(keys, all, source, order, g);
    }
  }

  // The versions of a group that all clusters together list.
  lemma ListedOfGroup(keys: map<string, set<GroupVersion>>, all: map<string, Groups>, source: Groups, order: Order,
                      g: string, v: string)
    requires Orders(order) && all.Keys == keys.Keys && g in source
    requires forall c :: c in keys ==> all[c] == BuildGroups(keys[c], source, order)
    ensures v in VersionsIn(ListedByAll(all), g) <==>
            v in VersionsIn(UnionOf(keys), g) && (source[g].versions == [] || v in source[g].versions)
  {
    var gv := GroupVersion(g, v);
    assert v in VersionsIn(ListedByAll(all), g) <==> gv in ListedByAll(all);
    assert v in VersionsIn(UnionOf(keys), g) <==> gv in UnionOf(keys);
    if gv in ListedByAll(all) {
      var c :| c in all && g in all[c] && v in all[c][g].versions;
      BuiltVersions(keys[c], source, order, g, v);
      assert gv in keys[c];
    }
    if gv in UnionOf(keys) {
      var c :| c in keys && gv in keys[c];
      BuiltVersions(keys[c], source, order, g, v);
    }
  }

  lemma RebuiltGroup(keys: map<string, set<GroupVersion>>, all: map<string, Groups>, source: Groups, order: Order,
                     g: string)
    requires Orders(order) && all.Keys == keys.Keys
    requires forall c :: c in keys ==> all[c] == BuildGroups(keys[c], source, order)
    ensures var rebuilt, union := BuildGroups(ListedByAll(all), source, order),
            BuildGroups(UnionOf(keys), source, order);
            && (g in rebuilt <==> g in union && union[g].versions != [])
            && (g in rebuilt ==> rebuilt[g] == union[g])
  {
    if g in source {
      var listed, offered := VersionsIn(ListedByAll(all), g), VersionsIn(UnionOf(keys), g);
      forall v ensures v in listed <==> v in offered && (source[g].versions == [] || v in source[g].versions) {
        ListedOfGroup(keys, all, source, order, g, v);
      }
      if source[g].versions == [] {
        assert listed == offered;
        assert offered != {} ==> order(offered) != [];
      } else {
        FilteredSame(source[g].versions, listed, offered);
        var filtered := Filtered(source[g].versions, offered);
        assert listed != {} <==> filtered != [] by {
          if listed != {} {
            var v :| v in listed;
            assert v in filtered;
          }
          if filtered != [] {
            assert filtered[0] in listed;
          }
        }
      }
    }
  }

  // buildAPIGroups with its loops: over the group versions, then over the groups they belong to.
  method BuildAPIGroups(gvs: set<GroupVersion>, source: Groups, order: Order) returns (built: Groups)
    ensures IsBuilt(built, gvs, source, order)
  {
    var groups: set<string>, todo := {}, gvs;
    while todo != {}
      invariant todo <= gvs
      invariant forall g :: g in groups <==> exists gv :: gv in gvs - todo && gv.group == g
      decreases todo
    {
      var gv :| gv in todo;
      groups, todo := groups + {gv.group}, todo - {gv};
    }
    forall g ensures g in groups <==> VersionsIn(gvs, g) != {} {
      if g in groups {
        var gv :| gv in gvs && gv.group == g;
        assert gv.version in VersionsIn(gvs, g);
      }
      if VersionsIn(gvs, g) != {} {
        var v :| v in VersionsIn(gvs, g);
        assert GroupVersion(g, v) in gvs;
      }
    }
    built := map[];
    var rest := groups;
    while rest != {}
      invariant rest <= groups
      invariant built.Keys == (groups - rest) * source.Keys
      invariant forall g :: g in built ==> built[g] == BuildGroup(VersionsIn(gvs, g), source[g], order)
      decreases rest
    {
      var g :| g in rest;
      if g in source {
        built := built[g := BuildGroup(VersionsIn(gvs, g), source[g], order)];
      }
      rest := rest - {g};
    }
  }

  // ---------------------------------------------------------------------------------------------
  // Resource tables.

  type Table = map<GroupVersion, seq<APIResource>>

  // The group version resources of a table.
  function Resources(t: Table): set<ServedResource> {
    set gv, r | gv in t && r in t[gv] :: ServedResource(gv, r.name)
  }

  function Append(t: Table, gv: GroupVersion, r: APIResource): Table {
    t[gv := (if gv in t then t[gv] else []) + [r]]
  }

  lemma AppendResources(t: Table, gv: GroupVersion, r: APIResource)
    ensures Resources(Append(t, gv, r)) == Resources(t) + {ServedResource(gv, r.name)}
    ensures Append(t, gv, r).Keys == t.Keys + {gv}
  {
    var t' := Append(t, gv, r);
    forall x ensures x in Resources(t') <==> x in Resources(t) || x == ServedResource(gv, r.name) {
      if x in Resources(t') {
        var q: APIResource :| q in t'[x.gv] && q.name == x.resource;
      }
      if x in Resources(t) {
        var q: APIResource :| q in t[x.gv] && q.name == x.resource;
        assert q in t'[x.gv];
      }
      if x == ServedResource(gv, r.name) {
        assert r in t'[gv];
      }
    }
  }

  ghost predicate OffersVersion(apis: Apis, gv: GroupVersion) {
    exists gr :: gr in apis && gv in apis[gr].versions
  }

  // The table, with its resources, of a cluster with these resources and versions on offer.
  ghost predicate TableFits(t: Table, enabled: set<ServedResource>, apis: Apis) {
    && enabled == Resources(t)
    && (forall x: ServedResource {:trigger About(x)} :: About(x) ==> (x in enabled <==> Offers(apis, x)))
    && (forall gv: GroupVersion {:trigger About(gv)} :: About(gv) ==> (gv in t <==> OffersVersion(apis, gv)))
  }

  // The table of what one cluster offers.
  method TableOf(apis: Apis) returns (t: Table)
    ensures TableFits(t, Resources(t), apis)
  {
    t := map[];
    var todo := apis.Keys;
    while todo != {}
      invariant todo <= apis.Keys
      invariant forall gvr :: gvr in Resources(t) <==>
                  exists gr :: gr in apis.Keys - todo && gvr.gv in apis[gr].versions
                      && apis[gr].resource.name == gvr.resource
      invariant forall gv :: gv in t <==> exists gr :: gr in apis.Keys - todo && gv in apis[gr].versions
      decreases todo
    {
      var gr :| gr in todo;
      ghost var before := t;
      t := AppendAll(t, apis[gr].versions, apis[gr].resource);
      todo := todo - {gr};
      assert gr in apis.Keys - todo;
    }
  }

  method AppendAll(t: Table, gvs: set<GroupVersion>, r: APIResource) returns (t': Table)
    ensures Resources(t') == Resources(t) + (set gv | gv in gvs :: ServedResource(gv, r.name))
    ensures t'.Keys == t.Keys + gvs
  {
    t' := t;
    var todo := gvs;
    while todo != {}
      invariant todo <= gvs && t'.Keys == t.Keys + (gvs - todo)
      invariant Resources(t') == Resources(t) + (set gv | gv in gvs - todo :: ServedResource(gv, r.name))
      decreases todo
    {
      var gv :| gv in todo;
      AppendResources(t', gv, r);
      t' := Append(t', gv, r);
      todo := todo - {gv};
    }
  }

  // ---------------------------------------------------------------------------------------------
  // The table of all clusters.

  type Merged = map<ServedResource, APIResource>

  predicate NamesFit(m: Merged) { forall x :: x in m ==> m[x].name == x.resource }

  method MergeList(m: Merged, gv: GroupVersion, list: seq<APIResource>) returns (m': Merged)
    requires NamesFit(m)
    ensures NamesFit(m') && m'.Keys == m.Keys + (set r | r in list :: ServedResource(gv, r.name))
  {
    m' := m;
    for i := 0 to |list|
      invariant NamesFit(m') && m'.Keys == m.Keys + (set r | r in list[..i] :: ServedResource(gv, r.name))
    {
      assert list[..i + 1] == list[..i] + [list[i]];
      m' := m'[ServedResource(gv, list[i].name) := list[i]];
    }
    assert list[..|list|] == list;
  }

  method MergeTable(m: Merged, t: Table) returns (m': Merged)
    requires NamesFit(m)
    ensures NamesFit(m') && m'.Keys == m.Keys + Resources(t)
  {
    m' := m;
    var todo := t.Keys;
    while todo != {}
      invariant todo <= t.Keys && NamesFit(m')
      invariant m'.Keys == m.Keys + (set gv, r | gv in t.Keys - todo && r in t[gv] :: ServedResource(gv, r.name))
      decreases todo
    {
      var gv :| gv in todo;
      m' := MergeList(m', gv, t[gv]);
      todo := todo - {gv};
    }
  }

  function ResourcesOfAll(tables: map<string, Table>): set<ServedResource> {
    set c, x | c in tables && x in Resources(tables[c]) :: x
  }

  // Every name stands once in a list.
  ghost predicate NoRepeats(t: Table) {
    forall gv, i, j :: gv in t && 0 <= i < j < |t[gv]| ==> t[gv][i].name != t[gv][j].name
  }

  // rebuildGlobalDiscoveryAPI of the versions: what any cluster lists, each resource once.
  method RebuildTable(tables: map<string, Table>) returns (t: Table)
    ensures Resources(t) == ResourcesOfAll(tables) && NoRepeats(t)
  {
    var m: Merged, todo := map[], tables.Keys;
    while todo != {}
      invariant todo <= tables.Keys && NamesFit(m)
      invariant m.Keys == set c, x | c in tables.Keys - todo && x in Resources(tables[c]) :: x
      decreases todo
    {
      var c :| c in todo;
      m := MergeTable(m, tables[c]);
      todo := todo - {c};
    }
    assert m.Keys == ResourcesOfAll(tables);
    t := map[];
    var rest := m.Keys;
    while rest != {}
      invariant rest <= m.Keys && NoRepeats(t)
      invariant Resources(t) == m.Keys - rest
      decreases rest
    {
      var x :| x in rest;
      AppendResources(t, x.gv, m[x]);
      AppendKeepsNoRepeats(t, x.gv, m[x]);
      t := Append(t, x.gv, m[x]);
      rest := rest - {x};
    }
  }

  lemma AppendKeepsNoRepeats(t: Table, gv: GroupVersion, r: APIResource)
    requires NoRepeats(t) && ServedResource(gv, r.name) !in Resources(t)
    ensures NoRepeats(Append(t, gv, r))
  {
    if gv in t {
      forall i | 0 <= i < |t[gv]| ensures t[gv][i].name != r.name {
        assert t[gv][i] in t[gv];
      }
    }
  }

  // ---------------------------------------------------------------------------------------------
  // The manager.

  // The tables of all clusters and of all of them together.
  class VersionHandler {
    var tables: map<string, Table>
    var enabled: map<string, set<ServedResource>>
    var global: Table
    var globalEnabled: set<ServedResource>
    ghost var apis: map<string, Apis>  // what the clusters were last set to

    ghost predicate Valid()
      reads this
    {
      && apis.Keys == tables.Keys == enabled.Keys
      && (forall c :: c in apis ==> TableFits(tables[c], enabled[c], apis[c]))
      && globalEnabled == ResourcesOfAll(tables) == Resources(global) && NoRepeats(global)
    }

    constructor ()
      ensures Valid() && apis == map[] && tables == map[]
    {
      tables, enabled, global, globalEnabled, apis := map[], map[], map[], {}, map[];
    }

    // A resource is enabled for a cluster if that cluster offers it, and for all clusters together,
    // asked with the empty name, if some cluster does.
    method ResourceEnabled(cluster: string, gvr: ServedResource) returns (yes: bool)
      requires Valid()
      ensures yes <==> if cluster == "" then exists c :: c in apis && Offers(apis[c], gvr)
                       else cluster in apis && Offers(apis[cluster], gvr)
    {
      assert About(gvr);
      if cluster == "" {
        yes := gvr in globalEnabled;
        assert yes <==> exists c :: c in tables && gvr in Resources(tables[c]);
      } else {
        yes := cluster in enabled && gvr in enabled[cluster];
      }
    }

    method Rebuild()
      modifies this`global, this`globalEnabled
      ensures globalEnabled == ResourcesOfAll(tables) == Resources(global) && NoRepeats(global)
    {
      global := RebuildTable(tables);
      globalEnabled := Resources(global);
    }

    // A cluster may offer something else that makes the same table.
    ghost method KeepCluster(cluster: string, offered: Apis)
      requires Valid() && cluster in tables && TableFits(tables[cluster], Resources(tables[cluster]), offered)
      modifies this`apis
      ensures Valid() && apis == old(apis)[cluster := offered]
    {
      apis := apis[cluster := offered];
    }

    method SetCluster(cluster: string, t: Table, ghost offered: Apis)
      requires Valid() && TableFits(t, Resources(t), offered)
      modifies this
      ensures Valid() && apis == old(apis)[cluster := offered] && tables == old(tables)[cluster := t]
    {
      tables, enabled, apis := tables[cluster := t], enabled[cluster := Resources(t)], apis[cluster := offered];
      Rebuild();
    }

    method RemoveCluster(cluster: string)
      requires Valid()
      modifies this
      ensures Valid() && apis == old(apis) - {cluster} && tables == old(tables) - {cluster}
    {
      if cluster !in tables {
        RemoveAbsent(tables, cluster);
        RemoveAbsent(apis, cluster);
        return;
      }
      tables, enabled, apis := tables - {cluster}, enabled - {cluster}, apis - {cluster};
      Rebuild();
    }
  }

  // Groups as they are served, without the legacy group in the list.
  ghost predicate GroupsFit(groups: Groups, listed: Groups, origin: Origin, order: Order) {
    IsBuilt(groups, origin.versions, origin.source, order) && listed == groups - {""}
  }

  // What groups were built for, and from.
  datatype Origin = Origin(versions: set<GroupVersion>, source: Groups)

  // A source has the version, or no list of versions.
  predicate Knows(source: Groups, g: string, v: string) {
    g in source && (source[g].versions == [] || v in source[g].versions)
  }

  predicate Lists(o: Origin, g: string, v: string) {
    Knows(o.source, g, v) && GroupVersion(g, v) in o.versions
  }

  lemma RemoveAbsent<V>(m: map<string, V>, k: string)
    requires k !in m
    ensures m - {k} == m
  {
  }

  // The groups of all clusters and of all of them together.
  class GroupHandler {
    const order: Order
    var groups: map<string, Groups>
    var listed: map<string, Groups>  // without the legacy group
    var global: Groups
    var allListed: Groups
    ghost var origins: map<string, Origin>
    ghost var globalSource: Groups

    ghost predicate Valid()
      reads this
    {
      && groups.Keys == listed.Keys == origins.Keys
      && (forall c :: c in groups ==> GroupsFit(groups[c], listed[c], origins[c], order))
      && GroupsFit(global, allListed, Origin(ListedByAll(groups), globalSource), order)
    }

    constructor (order: Order)
      ensures Valid() && this.order == order && origins == map[] && globalSource == map[]
    {
      this.order := order;
      groups, listed, global, allListed := map[], map[], map[], map[];
      origins, globalSource := map[], map[];
    }

    method Rebuild(source: Groups)
      modifies this`global, this`allListed, this`globalSource
      ensures GroupsFit(global, allListed, Origin(ListedByAll(groups), globalSource), order) && globalSource == source
    {
      global := BuildAPIGroups(ListedByAll(groups), source, order);
      allListed, globalSource := global - {""}, source;
    }

    // Nothing is rebuilt for groups that have not changed.
    method SetCluster(cluster: string, gvs: set<GroupVersion>, source: Groups)
      requires Valid()
      modifies this
      ensures Valid() && origins == old(origins)[cluster := Origin(gvs, source)]
      ensures Moved(old(origins), origins, old(globalSource), globalSource, cluster, source)
    {
      var built := BuildAPIGroups(gvs, source, order);
      if cluster in groups && groups[cluster] == built {
        origins := origins[cluster := Origin(gvs, source)];
      } else {
        ReplaceGroups(cluster, built, gvs, source);
      }
    }

    method ReplaceGroups(cluster: string, built: Groups, ghost gvs: set<GroupVersion>, source: Groups)
      requires Valid() && IsBuilt(built, gvs, source, order)
      modifies this
      ensures Valid() && origins == old(origins)[cluster := Origin(gvs, source)] && globalSource == source
    {
      groups, listed := groups[cluster := built], listed[cluster := built - {""}];
      origins := origins[cluster := Origin(gvs, source)];
      Rebuild(source);
    }

    method RemoveCluster(cluster: string, source: Groups)
      requires Valid()
      modifies this
      ensures Valid() && origins == old(origins) - {cluster}
      ensures globalSource == if cluster in old(origins) then source else old(globalSource)
    {
      if cluster !in groups {
        RemoveAbsent(origins, cluster);
        return;
      }
      groups, listed, origins := groups - {cluster}, listed - {cluster}, origins - {cluster};
      Rebuild(source);
    }

    // The groups of a cluster list a version if and only if it is offered and their source knows it.
    lemma ClusterVersions(c: string, g: string, v: string)
      requires Valid() && Orders(order) && c in groups
      ensures g in groups[c] && v in groups[c][g].versions <==> Lists(origins[c], g, v)
    {
      BuiltIsBuildGroups(groups[c], origins[c].versions, origins[c].source, order);
      BuiltVersions(origins[c].versions, origins[c].source, order, g, v);
    }

    // Whether a version is listed, for a cluster or, with the empty name, for all.
    method VersionListed(cluster: string, g: string, v: string) returns (yes: bool)
      requires Valid() && Orders(order)
      ensures yes <==>
              if cluster == "" then Knows(globalSource, g, v) && exists c :: c in origins && Lists(origins[c], g, v)
              else cluster in origins && Lists(origins[cluster], g, v)
    {
      if cluster == "" {
        GlobalVersions(g, v);
        yes := g in global && v in global[g].versions;
      } else {
        if cluster in groups {
          ClusterVersions(cluster, g, v);
        }
        yes := cluster in groups && g in groups[cluster] && v in groups[cluster][g].versions;
      }
    }

    // The global groups list a version if and only if their source knows it and some cluster offers it and
    // had it in the source of its own groups, whatever sources those were.
    lemma GlobalVersions(g: string, v: string)
      requires Valid() && Orders(order)
      ensures g in global && v in global[g].versions <==>
              Knows(globalSource, g, v) && exists c :: c in origins && Lists(origins[c], g, v)
    {
      var gv := GroupVersion(g, v);
      BuiltIsBuildGroups(global, ListedByAll(groups), globalSource, order);
      BuiltVersions(ListedByAll(groups), globalSource, order, g, v);
      forall c | c in origins ensures g in groups[c] && v in groups[c][g].versions <==> Lists(origins[c], g, v) {
        ClusterVersions(c, g, v);
      }
      assert gv in ListedByAll(groups) <==> exists c :: c in origins && Lists(origins[c], g, v);
    }

    // While the source has not changed, the global groups are the groups of everything that is offered,
    // without those of which the source knows no offered version.
    lemma GlobalGroupsAreUnion()
      requires Valid() && Orders(order) && forall c :: c in origins ==> origins[c].source == globalSource
      ensures var union := BuildGroups(UnionOf(map c | c in origins :: origins[c].versions), globalSource, order);
              forall g :: && (g in global <==> g in union && union[g].versions != [])
                          && (g in global ==> global[g] == union[g])
    {
      var versions := map c | c in origins :: origins[c].versions;
      forall c | c in versions ensures groups[c] == BuildGroups(versions[c], globalSource, order) {
        BuiltIsBuildGroups(groups[c], versions[c], globalSource, order);
      }
      BuiltIsBuildGroups(global, ListedByAll(groups), globalSource, order);
      RebuiltGroupsAreUnion(versions, groups, globalSource, order);
    }
  }

  ghost predicate SameVersions(a: Apis, b: Apis) {
    forall gv: GroupVersion {:trigger About(gv)} :: About(gv) ==> (OffersVersion(a, gv) <==> OffersVersion(b, gv))
  }

  ghost predicate Coupled(origins: map<string, Origin>, tables: map<string, Table>) {
    origins.Keys == tables.Keys && forall c :: c in origins ==> origins[c].versions == tables[c].Keys
  }

  lemma CoupledWith(origins: map<string, Origin>, tables: map<string, Table>, c: string, t: Table, source: Groups)
    requires Coupled(origins, tables)
    ensures Coupled(origins[c := Origin(t.Keys, source)], tables[c := t])
  {
  }

  lemma SameTable(t: Table, a: Apis, b: Apis)
    requires TableFits(t, Resources(t), a) && TableFits(t, Resources(t), b)
    ensures SameVersions(a, b)
  {
  }

  // The groups of a cluster are built anew, and the global ones unless they need not be.
  ghost predicate Moved(before: map<string, Origin>, after: map<string, Origin>,
                        globalBefore: Groups, globalAfter: Groups, cluster: string, source: Groups) {
    && cluster in after && after[cluster].source == source && after == before[cluster := after[cluster]]
    && (globalAfter == source || (cluster in before && globalAfter == globalBefore))
  }

  class Manager {
    const versions: VersionHandler
    const groups: GroupHandler

    // The groups of a cluster are built for the versions of its table.
    ghost predicate Valid()
      reads this, versions, groups
    {
      versions.Valid() && groups.Valid() && Coupled(groups.origins, versions.tables)
    }

    constructor (order: Order)
      ensures fresh(versions) && fresh(groups) && Valid() && versions.apis == map[]
      ensures groups.origins == map[] && groups.globalSource == map[] && groups.order == order
    {
      versions := new VersionHandler();
      groups := new GroupHandler(order);
    }

    // A cluster whose table has not changed keeps its groups.
    method SetClusterGroupResource(cluster: string, offered: Apis, source: Groups) returns (ghost kept: bool)
      requires Valid()
      modifies versions, groups
      ensures Valid() && versions.apis == old(versions.apis)[cluster := offered]
      ensures kept ==> groups.origins == old(groups.origins) && groups.globalSource == old(groups.globalSource)
      ensures kept ==> cluster in old(versions.apis) && SameVersions(old(versions.apis)[cluster], offered)
      ensures !kept ==>
                Moved(old(groups.origins), groups.origins,
                      old(groups.globalSource), groups.globalSource, cluster, source)
    {
      var t := TableOf(offered);
      kept := cluster in versions.tables && versions.tables[cluster] == t;
      if cluster in versions.tables && versions.tables[cluster] == t {
        SameTable(t, versions.apis[cluster], offered);
        versions.KeepCluster(cluster, offered);
      } else {
        SetCluster(cluster, t, offered, source);
      }
    }

    method SetCluster(cluster: string, t: Table, ghost offered: Apis, source: Groups)
      requires Valid() && TableFits(t, Resources(t), offered)
      modifies versions, groups
      ensures Valid() && versions.apis == old(versions.apis)[cluster := offered]
      ensures Moved(old(groups.origins), groups.origins, old(groups.globalSource), groups.globalSource, cluster, source)
    {
      CoupledWith(groups.origins, versions.tables, cluster, t, source);
      versions.SetCluster(cluster, t, offered);
      groups.SetCluster(cluster, t.Keys, source);
    }

    method RemoveCluster(cluster: string, source: Groups)
      requires Valid()
      modifies versions, groups
      ensures Valid() && versions.apis == old(versions.apis) - {cluster}
      ensures groups.origins == old(groups.origins) - {cluster}
      ensures groups.globalSource == if cluster in old(groups.origins) then source else old(groups.globalSource)
    {
      if cluster !in groups.listed {
        RemoveAbsent(versions.apis, cluster);
        RemoveAbsent(groups.origins, cluster);
        return;
      }
      versions.RemoveCluster(cluster);
      groups.RemoveCluster(cluster, source);
    }
  }

  datatype Op = Set(cluster: string, offered: Apis, source: Groups) | Remove(cluster: string, source: Groups)

  // What the clusters offer after a sequence of operations.
  function After(ops: seq<Op>): map<string, Apis> {
    if ops == [] then map[]
    else
      var init, last := After(ops[..|ops| - 1]), ops[|ops| - 1];
      if last.Set? then init[last.cluster := last.offered] else init - {last.cluster}
  }

  // The source that the groups of a cluster are built from: that of the last setting, or of an earlier one
  // since which the versions on offer have not changed.
  ghost predicate SourceOf(ops: seq<Op>, c: string, source: Groups) {
    && ops != []
    && var init, last := ops[..|ops| - 1], ops[|ops| - 1];
       if last.cluster != c then SourceOf(init, c, source)
       else
         && last.Set?
         && (source == last.source ||
             (SourceOf(init, c, source) && c in After(init) && SameVersions(After(init)[c], last.offered)))
  }

  // The source that the global groups are built from: that of an operation after which no cluster came
  // or went.
  ghost predicate GlobalSource(ops: seq<Op>, source: Groups) {
    if ops == [] then source == map[]
    else
      var init, last := ops[..|ops| - 1], ops[|ops| - 1];
      if last.Set? then source == last.source || (last.cluster in After(init) && GlobalSource(init, source))
      else if last.cluster in After(init) then source == last.source
      else GlobalSource(init, source)
  }

  // What the manager has seen.
  ghost predicate Reflects(m: Manager, ops: seq<Op>)
    reads m, m.versions, m.groups
  {
    && m.Valid() && m.versions.apis == After(ops)
    && (forall c :: c in After(ops) ==> c in m.groups.origins && SourceOf(ops, c, m.groups.origins[c].source))
    && GlobalSource(ops, m.groups.globalSource)
  }

  method Operate(m: Manager, op: Op, ghost ops: seq<Op>)
    requires Reflects(m, ops)
    modifies m.versions, m.groups
    ensures Reflects(m, ops + [op])
  {
    assert (ops + [op])[..|ops|] == ops;
    match op {
      case Set(c, offered, source) => ghost var _ := m.SetClusterGroupResource(c, offered, source);
      case Remove(c, source) => m.RemoveCluster(c, source);
    }
  }

  method Replay(order: Order, ops: seq<Op>) returns (m: Manager)
    ensures fresh(m) && fresh(m.versions) && fresh(m.groups) && m.groups.order == order && Reflects(m, ops)
  {
    m := new Manager(order);
    for i := 0 to |ops|
      invariant fresh(m) && fresh(m.versions) && fresh(m.groups) && m.groups.order == order && Reflects(m, ops[..i])
    {
      Operate(m, ops[i], ops[..i]);
      assert ops[..i] + [ops[i]] == ops[..i + 1];
    }
    assert ops[..|ops|] == ops;
  }

  // After any sequence of settings and removals a resource is enabled exactly as the last settings of
  // the remaining clusters say, in one cluster and in all of them together.
  method EnabledAfter(order: Order, ops: seq<Op>, cluster: string, gvr: ServedResource) returns (yes: bool)
    ensures yes <==> if cluster == "" then exists c :: c in After(ops) && Offers(After(ops)[c], gvr)
                     else cluster in After(ops) && Offers(After(ops)[cluster], gvr)
  {
    var m := new Manager(order);
    for i := 0 to |ops|
      invariant fresh(m) && fresh(m.versions) && fresh(m.groups) && m.Valid() && m.versions.apis == After(ops[..i])
    {
      assert ops[..i + 1][..i] == ops[..i];
      match ops[i] {
        case Set(c, offered, source) => ghost var _ := m.SetClusterGroupResource(c, offered, source);
        case Remove(c, source) => m.RemoveCluster(c, source);
      }
    }
    assert ops[..|ops|] == ops;
    yes := m.versions.ResourceEnabled(cluster, gvr);
  }

  // After any sequence of settings and removals a version of a group is listed for a cluster if and only if
  // the last setting of the cluster offers it and the source of its groups knows it, and for all clusters if
  // and only if that is so for some cluster and the source of the global groups knows it too.
  method ListedAfter(order: Order, ops: seq<Op>, cluster: string, g: string, v: string)
    returns (yes: bool, ghost sources: map<string, Groups>, ghost global: Groups)
    requires Orders(order)
    ensures (forall c :: c in After(ops) ==> c in sources && SourceOf(ops, c, sources[c])) && GlobalSource(ops, global)
    ensures yes <==>
            if cluster == ""
            then Knows(global, g, v) && exists c :: c in After(ops) && ListsAfter(ops, sources, c, g, v)
            else cluster in After(ops) && ListsAfter(ops, sources, cluster, g, v)
  {
    var m := Replay(order, ops);
    sources, global := map c | c in m.groups.origins :: m.groups.origins[c].source, m.groups.globalSource;
    yes := m.groups.VersionListed(cluster, g, v);
    forall c | c in After(ops) ensures Lists(m.groups.origins[c], g, v) <==> ListsAfter(ops, sources, c, g, v) {
      assert About(GroupVersion(g, v));
    }
  }

  ghost predicate ListsAfter(ops: seq<Op>, sources: map<string, Groups>, c: string, g: string, v: string)
    requires c in After(ops)
  {
    c in sources && Knows(sources[c], g, v) && OffersVersion(After(ops)[c], GroupVersion(g, v))
  }

  // With one source for all operations there is no other.
  lemma {:induction false} OneSource(ops: seq<Op>, all: Groups, c: string, source: Groups)
    requires forall i :: 0 <= i < |ops| ==> ops[i].source == all
    ensures SourceOf(ops, c, source) ==> source == all
    ensures GlobalSource(ops, source) ==> source == all || After(ops) == map[]
  {
    if ops != [] {
      OneSource(ops[..|ops| - 1], all, c, source);
    }
  }
}
