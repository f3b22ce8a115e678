// The discovery cache of a synced cluster (pkg/runtime/discovery/discovery_cache.go): which resources
// the cluster serves and in which versions, kept by hand from API services, custom resource
// definitions and the discovery endpoints.
//
// The discovery endpoints are a parameter: the resource lists of the group versions that answer.
module DiscoveryCache {
  import opened Common

  // `rest` stands for verbs, scope, short names and categories.
  datatype APIResource = APIResource(name: string, singular: string, kind: string, rest: nat)

  type Server = map<GroupVersion, seq<APIResource>>

  function LowerChar(c: char): char { if 'A' <= c <= 'Z' then c - 'A' + 'a' else c }

  function Lower(s: string): string { seq(|s|, i requires 0 <= i < |s| => LowerChar(s[i])) }

  // A resource without singular name gets the guessed one.
  function Completed(api: APIResource): APIResource {
    if api.singular == "" then api.(singular := Lower(api.kind)) else api
  }

  function Singular(gr: GroupResource, api: APIResource): GroupResource { GroupResource(gr.group, api.singular) }

  // ---------------------------------------------------------------------------------------------
  // What the endpoints say.

  // The resources of a list by name, without subresources; the last of a name counts.
  function ByName(list: seq<APIResource>): map<string, APIResource> {
    if list == [] then map[]
    else
      var init, last := ByName(list[..|list| - 1]), list[|list| - 1];
      if '/' in last.name then init else init[last.name := last]
  }

  function Offered(server: Server, gv: GroupVersion): map<string, APIResource> {
    if gv in server then ByName(server[gv]) else map[]
  }

  // The versions, in the order of the group, that offer the resource.
  function Serving(server: Server, versions: seq<string>, gr: GroupResource): seq<string> {
    if versions == [] then []
    else
      var init, last := Serving(server, versions[..|versions| - 1], gr), versions[|versions| - 1];
      if gr.resource in Offered(server, GroupVersion(gr.group, last)) then init + [last] else init
  }

  // The entry that a fetch of the group makes for a resource: its preferred description.
  function Preferred(server: Server, versions: seq<string>, gr: GroupResource): APIResource {
    if Serving(server, versions, gr) == [] then APIResource("", "", "", 0)
    else
      ServingOffered(server, versions, gr, 0);
      Completed(Offered(server, GroupVersion(gr.group, Serving(server, versions, gr)[0]))[gr.resource])
  }

  lemma {:induction false} ServingOffered(server: Server, versions: seq<string>, gr: GroupResource, i: nat)
    requires i < |Serving(server, versions, gr)|
    ensures Serving(server, versions, gr)[i] in versions
    ensures gr.resource in Offered(server, GroupVersion(gr.group, Serving(server, versions, gr)[i]))
  {
    var init := Serving(server, versions[..|versions| - 1], gr);
    if i < |init| {
      ServingOffered(server, versions[..|versions| - 1], gr, i);
    }
  }

  lemma {:induction false} ServingComplete(server: Server, versions: seq<string>, gr: GroupResource, v: string)
    requires v in versions && gr.resource in Offered(server, GroupVersion(gr.group, v))
    ensures v in Serving(server, versions, gr)
  {
    var n := |versions| - 1;
    if v != versions[n] {
      assert v in versions[..n];
      ServingComplete(server, versions[..n], gr, v);
    }
  }

  // part can be got from whole by leaving elements out.
  predicate Subsequence(part: seq<string>, whole: seq<string>) {
    if part == [] then true
    else if whole == [] then false
    else if part[|part| - 1] == whole[|whole| - 1] then Subsequence(part[..|part| - 1], whole[..|whole| - 1])
    else Subsequence(part, whole[..|whole| - 1])
  }

  lemma {:induction false} SubsequenceOfLonger(part: seq<string>, whole: seq<string>, x: string)
    requires Subsequence(part, whole)
    ensures Subsequence(part, whole + [x])
    decreases |whole|, 1
  {
    assert (whole + [x])[..|whole|] == whole;
    if part != [] && part[|part| - 1] == x {
      SubsequenceOfShorter(part, whole);
    }
  }

  lemma {:induction false} SubsequenceOfShorter(part: seq<string>, whole: seq<string>)
    requires Subsequence(part, whole) && part != []
    ensures Subsequence(part[..|part| - 1], whole)
    decreases |whole|, 0
  {
    if part[|part| - 1] == whole[|whole| - 1] {
      SubsequenceOfLonger(part[..|part| - 1], whole[..|whole| - 1], whole[|whole| - 1]);
      assert whole == whole[..|whole| - 1] + [whole[|whole| - 1]];
    } else {
      SubsequenceOfShorter(part, whole[..|whole| - 1]);
      SubsequenceOfLonger(part[..|part| - 1], whole[..|whole| - 1], whole[|whole| - 1]);
      assert whole == whole[..|whole| - 1] + [whole[|whole| - 1]];
    }
  }

  // The versions of a fetched resource keep the order of the group.
  lemma {:induction false} ServingIsSubsequence(server: Server, versions: seq<string>, gr: GroupResource)
    ensures Subsequence(Serving(server, versions, gr), versions)
  {
    if versions != [] {
      var n := |versions| - 1;
      ServingIsSubsequence(server, versions[..n], gr);
      var init := Serving(server, versions[..n], gr);
      if gr.resource in Offered(server, GroupVersion(gr.group, versions[n])) {
        assert (init + [versions[n]])[..|init|] == init;
      } else {
        SubsequenceOfLonger(init, versions[..n], versions[n]);
        assert versions == versions[..n] + [versions[n]];
      }
    }
  }

  // The list of the group version has the resource; it is no subresource.
  ghost predicate Offers(server: Server, gv: GroupVersion, name: string) {
    gv in server && '/' !in name && exists p :: 0 <= p < |server[gv]| && server[gv][p].name == name
  }

  // `api` is the last one of that name in the list of the group version.
  ghost predicate OffersAs(server: Server, gv: GroupVersion, name: string, api: APIResource) {
    && gv in server && '/' !in name
    && exists p :: 0 <= p < |server[gv]| && server[gv][p] == api && api.name == name
           && forall q :: p < q < |server[gv]| ==> server[gv][q].name != name
  }

  lemma {:induction false} ByNameIsLast(list: seq<APIResource>, name: string)
    ensures name in ByName(list) <==> '/' !in name && exists p :: 0 <= p < |list| && list[p].name == name
    ensures name in ByName(list) ==>
              exists p :: 0 <= p < |list| && list[p] == ByName(list)[name] && list[p].name == name
                  && forall q :: p < q < |list| ==> list[q].name != name
  {
    if list != [] {
      var n := |list| - 1;
      var init := list[..n];
      ByNameIsLast(init, name);
      assert forall p :: 0 <= p < n ==> init[p] == list[p];
      if list[n].name == name {
        assert list[n].name == name;
      } else if name in ByName(list) {
        var p :| 0 <= p < n && init[p] == ByName(init)[name] && init[p].name == name
            && forall q :: p < q < n ==> init[q].name != name;
        assert list[p] == ByName(list)[name];
        assert forall q :: p < q < |list| ==> list[q].name != name;
      }
    }
  }

  lemma OfferedIsLast(server: Server, gv: GroupVersion, name: string)
    ensures name in Offered(server, gv) <==> Offers(server, gv, name)
    ensures name in Offered(server, gv) ==> OffersAs(server, gv, name, Offered(server, gv)[name])
  {
    if gv in server {
      ByNameIsLast(server[gv], name);
    }
  }

  // The description comes from the first version, in the order of the group, whose list has the resource.
  ghost predicate DescribedByFirst(server: Server, versions: seq<string>, gr: GroupResource, api: APIResource) {
    exists i :: 0 <= i < |versions| && DescribedBy(server, versions, gr, api, i)
  }

  ghost predicate DescribedBy(server: Server, versions: seq<string>, gr: GroupResource, api: APIResource, i: nat)
    requires i < |versions|
  {
    && (forall j :: 0 <= j < i ==> !Offers(server, GroupVersion(gr.group, versions[j]), gr.resource))
    && exists listed :: OffersAs(server, GroupVersion(gr.group, versions[i]), gr.resource, listed)
           && api == Completed(listed)
  }

  // A resource is served exactly if some version of the group lists it, and then the first of them is the
  // first of the served versions.
  lemma {:induction false} ServingStartsFirst(server: Server, versions: seq<string>, gr: GroupResource)
    returns (i: nat)
    ensures i <= |versions|
    ensures forall j :: 0 <= j < i ==> !Offers(server, GroupVersion(gr.group, versions[j]), gr.resource)
    ensures Serving(server, versions, gr) == [] <==> i == |versions|
    ensures i < |versions| ==>
              && Offers(server, GroupVersion(gr.group, versions[i]), gr.resource)
              && Serving(server, versions, gr)[0] == versions[i]
  {
    if versions == [] {
      i := 0;
    } else {
      var n := |versions| - 1;
      i := ServingStartsFirst(server, versions[..n], gr);
      OfferedIsLast(server, GroupVersion(gr.group, versions[n]), gr.resource);
      if i == n && !Offers(server, GroupVersion(gr.group, versions[n]), gr.resource) {
        i := |versions|;
      }
    }
  }

  lemma PreferredIsFirst(server: Server, versions: seq<string>, gr: GroupResource)
    requires Serving(server, versions, gr) != []
    ensures DescribedByFirst(server, versions, gr, Preferred(server, versions, gr))
  {
    var i := ServingStartsFirst(server, versions, gr);
    var gv := GroupVersion(gr.group, versions[i]);
    OfferedIsLast(server, gv, gr.resource);
    assert OffersAs(server, gv, gr.resource, Offered(server, gv)[gr.resource]);
    assert DescribedBy(server, versions, gr, Preferred(server, versions, gr), i);
  }

  // ---------------------------------------------------------------------------------------------
  // Collecting the answers of the endpoints.

  // The group versions to ask for.
  function Requested(groups: set<string>, groupVersions: map<string, seq<string>>): set<GroupVersion> {
    set g, v | g in groups && g in groupVersions && v in groupVersions[g] :: GroupVersion(g, v)
  }

  datatype FoundResource = FoundResource(group: string, version: string, resource: string) {
    function GV(): GroupVersion { GroupVersion(group, version) }
    function GR(): GroupResource { GroupResource(group, resource) }
  }

  type Found = map<FoundResource, APIResource>

  // What has been found is what the group versions in `asked` offer.
  ghost predicate Reflects(found: Found, server: Server, asked: set<GroupVersion>) {
    && (forall r: FoundResource :: r in found <==> r.GV() in asked && r.resource in Offered(server, r.GV()))
    && (forall r: FoundResource :: r in found ==> found[r] == Offered(server, r.GV())[r.resource])
  }

  function Resources(found: Found): set<GroupResource> { set r | r in found :: r.GR() }

  method CollectOne(found: Found, gv: GroupVersion, list: seq<APIResource>) returns (more: Found)
    requires forall r :: r in found ==> r.GV() != gv
    ensures forall r: FoundResource :: r.GV() != gv ==> (r in more <==> r in found)
    ensures forall r :: r in found ==> r in more && more[r] == found[r]
    ensures forall r: FoundResource :: r.GV() == gv ==> (r in more <==> r.resource in ByName(list))
    ensures forall r :: r in more && r.GV() == gv ==> more[r] == ByName(list)[r.resource]
  {
    more := found;
    for i := 0 to |list|
      invariant forall r: FoundResource :: r.GV() != gv ==> (r in more <==> r in found)
      invariant forall r :: r in found ==> r in more && more[r] == found[r]
      invariant forall r: FoundResource :: r.GV() == gv ==> (r in more <==> r.resource in ByName(list[..i]))
      invariant forall r :: r in more && r.GV() == gv ==> more[r] == ByName(list[..i])[r.resource]
    {
      assert list[..i + 1][..i] == list[..i];
      if '/' !in list[i].name {
        more := more[FoundResource(gv.group, gv.version, list[i].name) := list[i]];
      }
    }
    assert list[..|list|] == list;
  }

  method Collect(requested: set<GroupVersion>, server: Server) returns (found: Found)
    ensures Reflects(found, server, requested)
  {
    found := map[];
    var asked: set<GroupVersion>, todo := {}, requested;
    while todo != {}
      invariant asked !! todo && asked + todo == requested
      invariant Reflects(found, server, asked)
      decreases |todo|
    {
      var gv :| gv in todo;
      if gv in server {
        found := CollectOne(found, gv, server[gv]);
      }
      asked, todo := asked + {gv}, todo - {gv};
    }
    assert asked == requested;
  }

  // The found versions in the order of the group.
  method SortVersions(found: Found, gr: GroupResource, versions: seq<string>, ghost server: Server)
    returns (sorted: seq<string>)
    requires forall i :: 0 <= i < |versions| ==>
               (FoundResource(gr.group, versions[i], gr.resource) in found <==>
                gr.resource in Offered(server, GroupVersion(gr.group, versions[i])))
    ensures sorted == Serving(server, versions, gr)
  {
    sorted := [];
    for i := 0 to |versions|
      invariant sorted == Serving(server, versions[..i], gr)
    {
      assert versions[..i + 1][..i] == versions[..i];
      if FoundResource(gr.group, versions[i], gr.resource) in found {
        sorted := sorted + [versions[i]];
      }
    }
    assert versions[..|versions|] == versions;
  }

  function VersionsOf(groupVersions: map<string, seq<string>>, group: string): seq<string> {
    if group in groupVersions then groupVersions[group] else []
  }

  // What the cache holds for a resource.
  datatype Entry = Entry(versions: seq<string>, api: APIResource)

  // The entry that the endpoints give to a resource.
  ghost function Served(server: Server, versions: seq<string>, gr: GroupResource): Entry {
    Entry(Serving(server, versions, gr), Preferred(server, versions, gr))
  }

  // Every entry has a version, and the entry of a resource of a non-custom group lists a subsequence of
  // the current versions of the group.
  ghost predicate UpToDate(entries: map<GroupResource, Entry>, groupVersions: map<string, seq<string>>,
                           custom: set<string>) {
    forall gr {:trigger About(gr)} :: About(gr) && gr in entries ==>
      && entries[gr].versions != []
      && (gr.group !in custom ==>
            gr.group in groupVersions && Subsequence(entries[gr].versions, groupVersions[gr.group]))
  }

  // The group has lost all its versions.
  predicate Vanishes(older: map<string, seq<string>>, newer: map<string, seq<string>>, g: string) {
    g in older && VersionsOf(newer, g) == []
  }

  // The group has new or other versions.
  predicate Changes(older: map<string, seq<string>>, newer: map<string, seq<string>>, g: string) {
    g in newer && !(g in older && newer[g] != [] && older[g] == newer[g])
  }

  method CompareVersions(older: map<string, seq<string>>, newer: map<string, seq<string>>)
    returns (deleted: set<string>, changed: set<string>)
    ensures forall g :: g in deleted <==> Vanishes(older, newer, g)
    ensures forall g :: g in changed <==> Changes(older, newer, g)
  {
    deleted, changed := {}, newer.Keys;
    var todo := older.Keys;
    while todo != {}
      invariant todo <= older.Keys
      invariant forall g :: g in deleted <==> g !in todo && Vanishes(older, newer, g)
      invariant forall g :: g in changed <==> g in newer && (g in todo || Changes(older, newer, g))
      decreases todo
    {
      var g :| g in todo;
      if VersionsOf(newer, g) == [] {
        deleted := deleted + {g};
      } else if older[g] == newer[g] {
        changed := changed - {g};
      }
      todo := todo - {g};
    }
  }

  // A resource of an asked group has been found exactly if some version of the group serves it.
  lemma FoundIsServed(found: Found, server: Server, groups: set<string>, groupVersions: map<string, seq<string>>,
                      gr: GroupResource)
    requires Reflects(found, server, Requested(groups, groupVersions)) && gr.group in groups
    ensures var versions := VersionsOf(groupVersions, gr.group);
            && (forall i :: 0 <= i < |versions| ==>
                  (FoundResource(gr.group, versions[i], gr.resource) in found <==>
                   gr.resource in Offered(server, GroupVersion(gr.group, versions[i]))))
            && (gr in Resources(found) <==> Serving(server, versions, gr) != [])
  {
    var versions := VersionsOf(groupVersions, gr.group);
    forall i | 0 <= i < |versions| ensures GroupVersion(gr.group, versions[i]) in Requested(groups, groupVersions) {
    }
    if gr in Resources(found) {
      var r :| r in found && r.GR() == gr;
      ServingComplete(server, versions, gr, r.version);
    }
    if Serving(server, versions, gr) != [] {
      ServingOffered(server, versions, gr, 0);
      var r := FoundResource(gr.group, Serving(server, versions, gr)[0], gr.resource);
      assert r in found && r.GR() == gr;
    }
  }

  // The entry has the served versions and is described by the first of them.
  ghost predicate Right(entry: Entry, gr: GroupResource, groupVersions: map<string, seq<string>>, server: Server,
                        groups: set<string>) {
    && gr.group in groups && gr.group in groupVersions && entry.versions != []
    && entry == Served(server, VersionsOf(groupVersions, gr.group), gr)
    && DescribedByFirst(server, VersionsOf(groupVersions, gr.group), gr, entry.api)
  }

  // The entries of exactly the resources that the groups serve.
  ghost predicate AllServed(entries: map<GroupResource, Entry>, groups: set<string>,
                            groupVersions: map<string, seq<string>>, server: Server) {
    forall gr {:trigger About(gr)} :: About(gr) ==>
      && (gr in entries <==> gr.group in groups && Serving(server, VersionsOf(groupVersions, gr.group), gr) != [])
      && (gr in entries ==> entries[gr] == Served(server, VersionsOf(groupVersions, gr.group), gr))
  }

  method FetchEntries(groups: set<string>, groupVersions: map<string, seq<string>>, server: Server)
    returns (entries: map<GroupResource, Entry>)
    ensures AllServed(entries, groups, groupVersions, server)
    ensures forall gr :: gr in entries ==> entries[gr].versions != [] && Completed(entries[gr].api) == entries[gr].api
    ensures forall gr :: gr in entries ==>
              DescribedByFirst(server, VersionsOf(groupVersions, gr.group), gr, entries[gr].api)
  {
    var found := Collect(Requested(groups, groupVersions), server);
    entries := ComputeEntries(found, groupVersions, server, groups);
    forall gr | About(gr)
      ensures gr in entries <==> gr.group in groups && Serving(server, VersionsOf(groupVersions, gr.group), gr) != []
      ensures gr in entries ==> entries[gr] == Served(server, VersionsOf(groupVersions, gr.group), gr)
    {
      if gr.group in groups {
        FoundIsServed(found, server, groups, groupVersions, gr);
      }
    }
  }

  // The entries of all found resources. The preferred version is always among the found ones.
  method ComputeEntries(found: Found, groupVersions: map<string, seq<string>>, ghost server: Server,
                        ghost groups: set<string>)
    returns (entries: map<GroupResource, Entry>)
    requires Reflects(found, server, Requested(groups, groupVersions))
    ensures entries.Keys == Resources(found)
    ensures forall gr :: gr in entries ==> Right(entries[gr], gr, groupVersions, server, groups)
  {
    entries := map[];
    var todo := Resources(found);
    while todo != {}
      invariant entries.Keys !! todo && entries.Keys + todo == Resources(found)
      invariant forall gr :: gr in entries ==> Right(entries[gr], gr, groupVersions, server, groups)
      decreases todo
    {
      var gr :| gr in todo;
      var entry := ComputeEntry(found, gr, groupVersions, server, groups);
      entries := entries[gr := entry];
      todo := todo - {gr};
    }
  }

  method ComputeEntry(found: Found, gr: GroupResource, groupVersions: map<string, seq<string>>, ghost server: Server,
                      ghost groups: set<string>)
    returns (entry: Entry)
    requires Reflects(found, server, Requested(groups, groupVersions)) && gr in Resources(found)
    ensures Right(entry, gr, groupVersions, server, groups)
  {
    ghost var r :| r in found && r.GR() == gr;
    assert r.GV() in Requested(groups, groupVersions);
    FoundIsServed(found, server, groups, groupVersions, gr);
    var sorted := SortVersions(found, gr, groupVersions[gr.group], server);
    ServingOffered(server, groupVersions[gr.group], gr, 0);
    assert GroupVersion(gr.group, sorted[0]) in Requested(groups, groupVersions);
    entry := Entry(sorted, Completed(found[FoundResource(gr.group, sorted[0], gr.resource)]));
    PreferredIsFirst(server, groupVersions[gr.group], gr);
  }

  // ---------------------------------------------------------------------------------------------
  // The cache.

  // The groups that a lookup fetches again when it has not found the resource.
  function GroupsFor(gr: GroupResource, newServer: bool, groupVersions: map<string, seq<string>>,
                     aggregators: set<string>, custom: set<string>): set<string> {
    if gr.group in custom then {}
    else if gr.group in aggregators then {gr.group}
    else if newServer then groupVersions.Keys - custom
    else {}
  }

  class Discovery {
    var groupVersions: map<string, seq<string>>
    var aggregatorGroups: set<string>
    var customResourceGroups: set<string>
    var resourceVersions: map<GroupResource, seq<string>>
    var apiResources: map<GroupResource, APIResource>
    var pluralToSingular: map<GroupResource, GroupResource>
    var singularToPlural: map<GroupResource, GroupResource>

    ghost var entries: map<GroupResource, Entry>  // the resource tables put together

    // The three per-resource tables describe the same resources. The table from singular names may keep
    // names that a resource had before; it leads into the same group.
    ghost predicate Aligned()
      reads this
    {
      && resourceVersions.Keys == apiResources.Keys == pluralToSingular.Keys == entries.Keys
      && (forall gr :: gr in entries ==>
            entries[gr] == Entry(resourceVersions[gr], apiResources[gr])
                && pluralToSingular[gr] == Singular(gr, apiResources[gr]))
      && (forall x :: x in singularToPlural ==> singularToPlural[x].group == x.group)
    }

    ghost predicate Valid()
      reads this
    {
      Aligned() && UpToDate(entries, groupVersions, customResourceGroups)
    }

    ghost function View(): Cache
      reads this
    {
      Cache(groupVersions, aggregatorGroups, customResourceGroups, entries)
    }

    constructor ()
      ensures Valid() && View() == Cache(map[], {}, {}, map[])
    {
      groupVersions, aggregatorGroups, customResourceGroups := map[], {}, {};
      resourceVersions, apiResources, pluralToSingular, singularToPlural, entries := map[], map[], map[], map[], map[];
    }

    method RemoveResource(gr: GroupResource)
      requires Aligned()
      modifies this`resourceVersions, this`apiResources, this`pluralToSingular, this`singularToPlural, this`entries
      ensures Aligned() && entries == old(entries) - {gr}
    {
      resourceVersions := resourceVersions - {gr};
      apiResources := apiResources - {gr};
      if gr in pluralToSingular && pluralToSingular[gr] != GroupResource("", "") {
        singularToPlural := singularToPlural - {pluralToSingular[gr]};
      }
      pluralToSingular := pluralToSingular - {gr};
      entries := entries - {gr};
    }

    // True when the entry has changed; an empty version list removes it.
    method UpdateResource(gr: GroupResource, api: APIResource, sortedVersions: seq<string>) returns (updated: bool)
      requires Aligned()
      modifies this`resourceVersions, this`apiResources, this`pluralToSingular, this`singularToPlural, this`entries
      ensures Aligned()
      ensures sortedVersions == [] ==> updated && entries == old(entries) - {gr}
      ensures sortedVersions != [] ==>
                && entries == old(entries)[gr := Entry(sortedVersions, Completed(api))]
                && updated == (entries != old(entries))
                && (updated ==> singularToPlural == old(singularToPlural)[Singular(gr, Completed(api)) := gr])
    {
      if |sortedVersions| == 0 {
        RemoveResource(gr);
        return true;
      }
      var completed := Completed(api);
      if gr in apiResources && apiResources[gr] == completed && resourceVersions[gr] == sortedVersions {
        assert entries == entries[gr := Entry(sortedVersions, completed)];
        return false;
      }
      assert gr !in entries || entries[gr] != Entry(sortedVersions, completed);
      StoreResource(gr, completed, sortedVersions);
      return true;
    }

    method StoreResource(gr: GroupResource, api: APIResource, sortedVersions: seq<string>)
      requires Aligned()
      modifies this`resourceVersions, this`apiResources, this`pluralToSingular, this`singularToPlural, this`entries
      ensures Aligned() && entries == old(entries)[gr := Entry(sortedVersions, api)]
      ensures singularToPlural == old(singularToPlural)[Singular(gr, api) := gr]
    {
      resourceVersions := resourceVersions[gr := sortedVersions];
      apiResources := apiResources[gr := api];
      pluralToSingular := pluralToSingular[gr := Singular(gr, api)];
      singularToPlural := singularToPlural[Singular(gr, api) := gr];
      entries := entries[gr := Entry(sortedVersions, api)];
    }

    method RemoveAll(gone: set<GroupResource>)
      requires Aligned()
      modifies this`resourceVersions, this`apiResources, this`pluralToSingular, this`singularToPlural, this`entries
      ensures Aligned() && entries == old(entries) - gone
    {
      var todo := gone;
      while todo != {}
        invariant Aligned() && todo <= gone
        invariant entries == old(entries) - (gone - todo)
        decreases |todo|
      {
        var gr :| gr in todo;
        RemoveResource(gr);
        assert gone - (todo - {gr}) == (gone - todo) + {gr};
        todo := todo - {gr};
      }
    }

    // The last loop of refetchGroupsLocked, with the entries computed before.
    method UpdateAll(all: map<GroupResource, Entry>) returns (updated: bool)
      requires Aligned()
      requires forall gr :: gr in all ==> all[gr].versions != [] && Completed(all[gr].api) == all[gr].api
      modifies this`resourceVersions, this`apiResources, this`pluralToSingular, this`singularToPlural, this`entries
      ensures Aligned() && Overlay(old(entries), all, all.Keys, entries)
      ensures updated <==> entries != old(entries)
    {
      updated := false;
      var todo := all.Keys;
      ghost var first := entries;
      while todo != {}
        invariant Aligned() && todo <= all.Keys
        invariant Overlay(first, all, all.Keys - todo, entries)
        invariant updated <==> entries != first
        decreases todo
      {
        var gr :| gr in todo;
        ghost var before, done := entries, all.Keys - todo;
        var u := UpdateResource(gr, all[gr].api, all[gr].versions);
        OverlayOne(first, all, done, before, gr);
        updated, todo := updated || u, todo - {gr};
        assert all.Keys - todo == done + {gr};
      }
      assert all.Keys - todo == all.Keys;
    }

    // Asks the endpoints of the groups again; the answer tells whether anything has changed.
    method RefetchGroups(groups: set<string>, server: Server) returns (updated: bool)
      requires Aligned()
      modifies this`resourceVersions, this`apiResources, this`pluralToSingular, this`singularToPlural, this`entries
      ensures Aligned() && Refetched(old(entries), groups, groupVersions, server, entries)
      ensures updated <==> entries != old(entries)
    {
      if groups == {} {
        return false;
      }
      var all := FetchEntries(groups, groupVersions, server);
      var gone := set gr | gr in resourceVersions && gr.group in groups && gr !in all;
      ghost var first := entries;
      assert forall gr :: gr in gone <==> gr in first && gr.group in groups && gr !in all;
      updated := Overwrite(gone, all);
      RefetchIsExact(first, gone, all, groups, groupVersions, server, entries);
    }

    method Overwrite(gone: set<GroupResource>, all: map<GroupResource, Entry>) returns (updated: bool)
      requires Aligned()
      requires forall gr :: gr in all ==> all[gr].versions != [] && Completed(all[gr].api) == all[gr].api
      modifies this`resourceVersions, this`apiResources, this`pluralToSingular, this`singularToPlural, this`entries
      ensures Aligned() && Overlay(old(entries) - gone, all, all.Keys, entries)
      ensures updated <==> gone != {} || entries != old(entries) - gone
    {
      RemoveAll(gone);
      updated := UpdateAll(all);
      updated := updated || gone != {};
    }

    method ResourcesOf(groups: set<string>) returns (grs: set<GroupResource>)
      requires Aligned()
      ensures forall gr :: gr in grs <==> gr in entries && gr.group in groups
    {
      grs := {};
      var todo := resourceVersions.Keys;
      while todo != {}
        invariant todo <= resourceVersions.Keys
        invariant forall gr :: gr in grs <==> gr in resourceVersions && gr !in todo && gr.group in groups
        decreases todo
      {
        var gr :| gr in todo;
        if gr.group in groups {
          grs := grs + {gr};
        }
        todo := todo - {gr};
      }
    }

    // A full update of the group versions. Groups of custom resources are left to the custom resource
    // definitions; otherwise vanished groups lose their resources and changed groups are fetched.
    method SetGroupVersions(newVersions: map<string, seq<string>>, aggregators: set<string>, server: Server)
      returns (updated: bool)
      requires Valid()
      modifies this
      ensures Valid() && customResourceGroups == old(customResourceGroups)
      ensures groupVersions == newVersions && aggregatorGroups == aggregators
      ensures updated <==> entries != old(entries)
      ensures Adopted(old(entries), old(groupVersions), newVersions, customResourceGroups, server, entries)
    {
      updated := false;
      if groupVersions == newVersions {
        SameVersionsAdopted(entries, newVersions, customResourceGroups, server);
        aggregatorGroups := aggregators;
        return;
      }
      var deleted, changed := CompareVersions(groupVersions, newVersions);
      deleted, changed := deleted - customResourceGroups, changed - customResourceGroups;
      var gone := ResourcesOf(deleted);
      ghost var first, versions0 := entries, groupVersions;
      groupVersions, aggregatorGroups := newVersions, aggregators;
      updated := Replace(gone, changed, server);
      SetKeepsUpToDate(first, versions0, newVersions, customResourceGroups, gone, changed, server, entries);
      SetAdopts(first, versions0, newVersions, customResourceGroups, gone, changed, server, entries);
    }

    method Replace(gone: set<GroupResource>, changed: set<string>, server: Server) returns (updated: bool)
      requires Aligned() && gone <= entries.Keys
      modifies this`resourceVersions, this`apiResources, this`pluralToSingular, this`singularToPlural, this`entries
      ensures Aligned() && Refetched(old(entries) - gone, changed, groupVersions, server, entries)
      ensures updated <==> gone != {} || entries != old(entries) - gone
    {
      RemoveAll(gone);
      updated := RefetchGroups(changed, server);
      updated := updated || gone != {};
    }

    // A refetch of groups: aggregated ones, one of them, or all that are not custom.
    method Refresh(groups: set<string>, server: Server) returns (updated: bool)
      requires Valid()
      modifies this`resourceVersions, this`apiResources, this`pluralToSingular, this`singularToPlural, this`entries
      ensures Valid() && Refetched(old(entries), groups, groupVersions, server, entries)
      ensures updated <==> entries != old(entries)
    {
      ghost var first := entries;
      updated := RefetchGroups(groups, server);
      RefetchKeepsUpToDate(first, groups, groupVersions, customResourceGroups, server, entries);
    }

    // An established custom resource definition with its served versions in preference order.
    method UpdateCustomResource(gr: GroupResource, api: APIResource, served: seq<string>) returns (updated: bool)
      requires Valid()
      modifies this
      ensures Valid() && groupVersions == old(groupVersions)
      ensures customResourceGroups == old(customResourceGroups) + {gr.group}
      ensures aggregatorGroups == old(aggregatorGroups)
      ensures entries == if served == [] then old(entries) - {gr} else old(entries)[gr := Entry(served, Completed(api))]
      ensures served != [] && entries != old(entries) ==>
                singularToPlural == old(singularToPlural)[Singular(gr, Completed(api)) := gr]
      ensures updated == (served == [] || gr.group !in old(customResourceGroups) || entries != old(entries))
    {
      updated := gr.group !in customResourceGroups;
      customResourceGroups := customResourceGroups + {gr.group};
      var u := UpdateResource(gr, api, served);
      updated := updated || u;
    }

    // A group stops being custom with its last resource.
    method RemoveCustomResource(gr: GroupResource)
      requires Valid()
      modifies this
      ensures Valid() && groupVersions == old(groupVersions) && entries == old(entries) - {gr}
      ensures aggregatorGroups == old(aggregatorGroups)
      ensures customResourceGroups ==
              if exists x :: x in entries && x.group == gr.group then old(customResourceGroups)
              else old(customResourceGroups) - {gr.group}
    {
      RemoveResource(gr);
      var left := ResourcesOf({gr.group});
      if left == {} {
        customResourceGroups := customResourceGroups - {gr.group};
      }
    }

    // The lookup by plural or singular name.
    function Lookup(gr: GroupResource): (found: Option<GroupResource>)
      requires Aligned()
      reads this
      ensures found.Some? ==> found.value in entries && found.value.group == gr.group
    {
      var lower := gr.(resource := Lower(gr.resource));
      var plural := if lower in singularToPlural
          && singularToPlural[lower] != GroupResource("", "") then singularToPlural[lower] else lower;
      if plural in resourceVersions then Some(plural) else None
    }

    // The table of singular names leads from the name of a resource to another one.
    predicate Shadowed(gr: GroupResource)
      reads this
    {
      gr in singularToPlural && singularToPlural[gr] != gr && singularToPlural[gr] != GroupResource("", "")
    }

    // A resource is found by its plural name, in lower case, if and only if that is not taken for a
    // singular name of another one.
    lemma FoundByPlural(gr: GroupResource)
      requires Aligned() && gr in entries && Lower(gr.resource) == gr.resource
      ensures Lookup(gr) == Some(gr) <==> !Shadowed(gr)
    {
    }

    // Looks the resource up, and once more after a refetch where its group allows one; `newServer`
    // tells that the version of the cluster has changed.
    method GetAPIResourceAndVersions(gr: GroupResource, newServer: bool, server: Server) returns (entry: Option<Entry>)
      requires Valid()
      modifies this`resourceVersions, this`apiResources, this`pluralToSingular, this`singularToPlural, this`entries
      ensures Valid()
      ensures entry.Some? ==> Lookup(gr).Some? && entry.value == entries[Lookup(gr).value] && entry.value.versions != []
      ensures gr.group !in customResourceGroups + aggregatorGroups + groupVersions.Keys ==>
                entry.None? && entries == old(entries)
      ensures old(Lookup(gr)).Some? && gr.group in customResourceGroups + aggregatorGroups + groupVersions.Keys ==>
                entries == old(entries) && entry == Some(entries[old(Lookup(gr)).value])
      ensures old(Lookup(gr)).None? && gr.group in customResourceGroups + aggregatorGroups + groupVersions.Keys ==>
                && Refetched(old(entries), GroupsFor(gr, newServer, groupVersions, aggregatorGroups,
                    customResourceGroups),
                             groupVersions, server, entries)
                && (entry.None? <==> Lookup(gr).None? || (gr.group !in customResourceGroups && entries == old(entries)))
    {
      entry := None;
      if gr.group !in customResourceGroups && gr.group !in aggregatorGroups && gr.group !in groupVersions {
        return;
      }
      var found := Lookup(gr);
      if found.None? {
        if gr.group !in customResourceGroups {
          var updated := Refresh(GroupsFor(gr, newServer, groupVersions, aggregatorGroups, customResourceGroups),
              server);
          if !updated {
            return;
          }
        }
        found := Lookup(gr);
        if found.None? {
          return;
        }
      }
      assert About(found.value);
      entry := Some(Entry(resourceVersions[found.value], apiResources[found.value]));
    }
  }

  lemma RefetchKeepsUpToDate(
    before: map<GroupResource, Entry>, groups: set<string>, groupVersions: map<string, seq<string>>,
    custom: set<string>,
    server: Server, after: map<GroupResource, Entry>)
    requires UpToDate(before, groupVersions, custom) && Refetched(before, groups, groupVersions, server, after)
    ensures UpToDate(after, groupVersions, custom)
  {
    forall gr | About(gr) && gr in after
      ensures after[gr].versions != []
      ensures gr.group !in custom ==>
                gr.group in groupVersions && Subsequence(after[gr].versions, groupVersions[gr.group])
    {
      if gr.group in groups {
        ServingIsSubsequence(server, VersionsOf(groupVersions, gr.group), gr);
      }
    }
  }

  lemma SetKeepsUpToDate(
    first: map<GroupResource, Entry>, versions0: map<string, seq<string>>, versions1: map<string, seq<string>>,
    custom: set<string>,
    gone: set<GroupResource>, changed: set<string>, server: Server, after: map<GroupResource, Entry>)
    requires UpToDate(first, versions0, custom)
    requires forall gr :: gr in gone <==> gr in first && gr.group !in custom && Vanishes(versions0, versions1, gr.group)
    requires forall g :: g in changed <==> g !in custom && Changes(versions0, versions1, g)
    requires Refetched(first - gone, changed, versions1, server, after)
    ensures UpToDate(after, versions1, custom)
    ensures after != first <==> after != first - gone || gone != {}
  {
    forall gr | About(gr) && gr in after
      ensures after[gr].versions != []
      ensures gr.group !in custom ==> gr.group in versions1 && Subsequence(after[gr].versions, versions1[gr.group])
    {
      assert About(gr);
      if gr.group in changed {
        ServingIsSubsequence(server, VersionsOf(versions1, gr.group), gr);
      }
    }
    if gone != {} {
      var gr :| gr in gone;
      assert About(gr);
      assert gr in first && gr !in after;
    } else {
      assert first - gone == first;
    }
  }

  // After asking `groups` again: their resources are exactly those that some version serves, with the
  // served versions in the order of the group; the resources of other groups stay as they were.
  ghost predicate Refetched(
    before: map<GroupResource, Entry>, groups: set<string>, groupVersions: map<string, seq<string>>, server: Server,
    after: map<GroupResource, Entry>)
  {
    forall gr: GroupResource {:trigger About(gr)} :: About(gr) ==>
      if gr.group in groups then
        var serving := Serving(server, VersionsOf(groupVersions, gr.group), gr);
        && (gr in after <==> serving != [])
        && (gr in after ==> after[gr] == Served(server, VersionsOf(groupVersions, gr.group), gr))
      else
        && (gr in after <==> gr in before)
        && (gr in after ==> after[gr] == before[gr])
  }

  // After the group versions were set: custom groups are left alone, groups with new versions have
  // exactly what they serve now, groups that lost their versions have nothing, others stay.
  ghost predicate Adopted(
    before: map<GroupResource, Entry>, older: map<string, seq<string>>, newer: map<string, seq<string>>,
    custom: set<string>,
    server: Server, after: map<GroupResource, Entry>)
  {
    forall gr: GroupResource {:trigger About(gr)} :: About(gr) ==>
      if gr.group !in custom && Changes(older, newer, gr.group) then
        && (gr in after <==> Serving(server, newer[gr.group], gr) != [])
        && (gr in after ==> after[gr] == Served(server, newer[gr.group], gr))
      else if gr.group !in custom && Vanishes(older, newer, gr.group) then gr !in after
      else (gr in after <==> gr in before) && (gr in after ==> after[gr] == before[gr])
  }

  lemma SetAdopts(
    first: map<GroupResource, Entry>, versions0: map<string, seq<string>>, versions1: map<string, seq<string>>,
    custom: set<string>,
    gone: set<GroupResource>, changed: set<string>, server: Server, after: map<GroupResource, Entry>)
    requires forall gr :: gr in gone <==> gr in first && gr.group !in custom && Vanishes(versions0, versions1, gr.group)
    requires forall g :: g in changed <==> g !in custom && Changes(versions0, versions1, g)
    requires Refetched(first - gone, changed, versions1, server, after)
    ensures Adopted(first, versions0, versions1, custom, server, after)
  {
  }

  // With the same group versions there is nothing to do, even for a group without versions.
  lemma SameVersionsAdopted(
    entries: map<GroupResource, Entry>, versions: map<string, seq<string>>, custom: set<string>, server: Server)
    requires UpToDate(entries, versions, custom)
    ensures Adopted(entries, versions, versions, custom, server, entries)
  {
  }

  lemma RefetchIsExact(
    before: map<GroupResource, Entry>, gone: set<GroupResource>, entries: map<GroupResource, Entry>,
    groups: set<string>, groupVersions: map<string, seq<string>>, server: Server, after: map<GroupResource, Entry>)
    requires AllServed(entries, groups, groupVersions, server)
    requires forall gr :: gr in gone <==> gr in before && gr.group in groups && gr !in entries
    requires Overlay(before - gone, entries, entries.Keys, after)
    ensures Refetched(before, groups, groupVersions, server, after)
    ensures after != before <==> after != before - gone || gone != {}
  {
    if gone != {} {
      var gr :| gr in gone;
      assert About(gr);
      assert gr in before && gr !in after;
    } else {
      assert before - gone == before;
    }
  }

  // The resource of a group that is asked again, said over the lists of the server.
  ghost predicate AsListed(server: Server, versions: seq<string>, gr: GroupResource, table: map<GroupResource, Entry>) {
    && (gr in table <==>
        exists i :: 0 <= i < |versions| && Offers(server, GroupVersion(gr.group, versions[i]), gr.resource))
    && (gr in table ==> DescribedByFirst(server, versions, gr, table[gr].api))
  }

  // A refetch, said over the lists of the server: a resource of the asked groups is there exactly if the list
  // of some version has it, each listed version of the group counts, and the description is that of the first.
  lemma RefetchedFromLists(
    before: map<GroupResource, Entry>, groups: set<string>, groupVersions: map<string, seq<string>>, server: Server,
    after: map<GroupResource, Entry>, gr: GroupResource, v: string)
    requires Refetched(before, groups, groupVersions, server, after) && gr.group in groups
    ensures var versions := VersionsOf(groupVersions, gr.group);
            && AsListed(server, versions, gr, after)
            && (gr in after ==> Subsequence(after[gr].versions, versions))
            && (gr in after ==> (v in after[gr].versions <==>
                                 v in versions && Offers(server, GroupVersion(gr.group, v), gr.resource)))
  {
    assert About(gr);
    var versions := VersionsOf(groupVersions, gr.group);
    var i := ServingStartsFirst(server, versions, gr);
    if gr in after {
      PreferredIsFirst(server, versions, gr);
      ServingIsSubsequence(server, versions, gr);
      ServesVersion(server, versions, gr, v);
    }
  }

  lemma ServesVersion(server: Server, versions: seq<string>, gr: GroupResource, v: string)
    ensures v in Serving(server, versions, gr) <==>
            v in versions && Offers(server, GroupVersion(gr.group, v), gr.resource)
  {
    var serving := Serving(server, versions, gr);
    OfferedIsLast(server, GroupVersion(gr.group, v), gr.resource);
    if v in serving {
      var i :| 0 <= i < |serving| && serving[i] == v;
      ServingOffered(server, versions, gr, i);
    } else if v in versions && Offers(server, GroupVersion(gr.group, v), gr.resource) {
      ServingComplete(server, versions, gr, v);
    }
  }

  // What the refetch of a lookup for `gr` does to any resource x: a lookup in a custom group does nothing;
  // one in an aggregated group asks that group; any other asks all groups that are not custom if the version
  // of the cluster has changed, and nothing otherwise.
  lemma LookupRefetches(
    before: map<GroupResource, Entry>, gr: GroupResource, newServer: bool, groupVersions: map<string, seq<string>>,
    aggregators: set<string>, custom: set<string>, server: Server, after: map<GroupResource, Entry>, x: GroupResource)
    requires Refetched(before, GroupsFor(gr, newServer, groupVersions, aggregators, custom), groupVersions, server,
                 after)
    ensures if gr.group !in custom && (if gr.group in aggregators then x.group == gr.group
                                       else newServer && x.group in groupVersions && x.group !in custom)
            then AsListed(server, VersionsOf(groupVersions, x.group), x, after)
            else (x in after <==> x in before) && (x in after ==> after[x] == before[x])
  {
    assert About(x);
    var groups := GroupsFor(gr, newServer, groupVersions, aggregators, custom);
    if x.group in groups {
      RefetchedFromLists(before, groups, groupVersions, server, after, x, "");
    }
  }

  // Setting the group versions, said over the version lists: a group that is not custom and has got another
  // list is fetched, one whose list has become empty has nothing, and one with the same list stays.
  lemma AdoptedByLists(
    before: map<GroupResource, Entry>, older: map<string, seq<string>>, newer: map<string, seq<string>>,
    custom: set<string>, server: Server, after: map<GroupResource, Entry>, gr: GroupResource)
    requires Adopted(before, older, newer, custom, server, after) && UpToDate(before, older, custom)
    ensures var was, now := VersionsOf(older, gr.group), VersionsOf(newer, gr.group);
            if gr.group in custom || (was == now && now != []) then
              (gr in after <==> gr in before) && (gr in after ==> after[gr] == before[gr])
            else
              && AsListed(server, now, gr, after)
              && (gr in after ==> after[gr].versions == Serving(server, now, gr))
  {
    assert About(gr);
    var now := VersionsOf(newer, gr.group);
    var i := ServingStartsFirst(server, now, gr);
    if Serving(server, now, gr) != [] {
      PreferredIsFirst(server, now, gr);
    }
  }

  // `table` is the first table with the entries of the second for the given keys.
  ghost predicate Overlay(
    first: map<GroupResource, Entry>, second: map<GroupResource, Entry>, keys: set<GroupResource>,
    table: map<GroupResource, Entry>)
    requires keys <= second.Keys
  {
    && table.Keys == first.Keys + keys
    && forall x :: x in table ==> table[x] == if x in keys then second[x] else first[x]
  }

  lemma OverlayOne(
    first: map<GroupResource, Entry>, second: map<GroupResource, Entry>, keys: set<GroupResource>,
    table: map<GroupResource, Entry>, x: GroupResource)
    requires keys <= second.Keys && Overlay(first, second, keys, table) && x !in keys && x in second
    ensures var next := table[x := second[x]];
            && Overlay(first, second, keys + {x}, next)
            && (next != first <==> table != first || next != table)
  {
    var next := table[x := second[x]];
    assert x in table <==> x in first;
    if next != table {
      assert next[x] == second[x];
    }
  }

  // ---------------------------------------------------------------------------------------------
  // Runs.

  datatype Op =
    | Services(versions: map<string, seq<string>>, aggregators: set<string>, server: Server)
    | Established(gr: GroupResource, api: APIResource, served: seq<string>)
    | Removed(gr: GroupResource)
    | RefetchAggregators(server: Server)
    | RefetchAll(server: Server)
    | Get(gr: GroupResource, newServer: bool, server: Server)

  // A cache without the tables of names.
  datatype Cache = Cache(
    groupVersions: map<string, seq<string>>, aggregators: set<string>, custom: set<string>,
    entries: map<GroupResource, Entry>)

  // What an operation makes of a cache. A lookup may fetch groups again.
  ghost predicate Does(s: Cache, op: Op, t: Cache) {
    match op
    case Services(versions, aggregators, server) =>
      && t == Cache(versions, aggregators, s.custom, t.entries)
      && Adopted(s.entries, s.groupVersions, versions, s.custom, server, t.entries)
    case Established(gr, api, served) =>
      t == s.(custom := s.custom + {gr.group},
              entries := if served == [] then s.entries - {gr} else s.entries[gr := Entry(served, Completed(api))])
    case Removed(gr) =>
      var rest := s.entries - {gr};
      t == s.(entries := rest,
              custom := if exists x :: x in rest && x.group == gr.group then s.custom else s.custom - {gr.group})
    case RefetchAggregators(server) =>
      t == s.(entries := t.entries) && Refetched(s.entries, s.aggregators, s.groupVersions, server, t.entries)
    case RefetchAll(server) =>
      t == s.(entries := t.entries) && Refetched(s.entries, s.groupVersions.Keys - s.custom, s.groupVersions, server,
          t.entries)
    case Get(gr, newServer, server) =>
      || t == s
      || (&& t == s.(entries := t.entries) && gr.group in s.custom + s.aggregators + s.groupVersions.Keys
          && Refetched(s.entries, GroupsFor(gr, newServer, s.groupVersions, s.aggregators, s.custom), s.groupVersions,
              server, t.entries))
  }

  // The cache may be this one after the operations.
  ghost predicate Follows(ops: seq<Op>, t: Cache) {
    if ops == [] then t == Cache(map[], {}, {}, map[])
    else
      var init, last := ops[..|ops| - 1], ops[|ops| - 1];
      exists s :: Follows(init, s) && Does(s, last, t)
  }

  // All operations but lookups leave one possibility.
  lemma DoesOneThing(s: Cache, op: Op, t: Cache, u: Cache)
    requires Does(s, op, t) && Does(s, op, u) && !op.Get?
    ensures t == u
  {
    forall gr ensures gr in t.entries <==> gr in u.entries
              ensures gr in t.entries ==> t.entries[gr] == u.entries[gr]
    {
      assert About(gr);
    }
  }

  lemma AdoptedUpToDate(
    before: map<GroupResource, Entry>, older: map<string, seq<string>>, newer: map<string, seq<string>>,
    custom: set<string>,
    server: Server, after: map<GroupResource, Entry>)
    requires UpToDate(before, older, custom) && Adopted(before, older, newer, custom, server, after)
    ensures UpToDate(after, newer, custom)
  {
    forall gr | About(gr) && gr in after
      ensures after[gr].versions != []
      ensures gr.group !in custom ==> gr.group in newer && Subsequence(after[gr].versions, newer[gr.group])
    {
      if gr.group !in custom && Changes(older, newer, gr.group) {
        ServingIsSubsequence(server, newer[gr.group], gr);
      }
    }
  }

  lemma DoesKeepsUpToDate(s: Cache, op: Op, t: Cache)
    requires UpToDate(s.entries, s.groupVersions, s.custom) && Does(s, op, t)
    ensures UpToDate(t.entries, t.groupVersions, t.custom)
  {
    if op.Services? {
      AdoptedUpToDate(s.entries, s.groupVersions, op.versions, s.custom, op.server, t.entries);
    } else if op.RefetchAggregators? {
      RefetchKeepsUpToDate(s.entries, s.aggregators, s.groupVersions, s.custom, op.server, t.entries);
    } else if op.RefetchAll? {
      RefetchKeepsUpToDate(s.entries, s.groupVersions.Keys - s.custom, s.groupVersions, s.custom, op.server, t.entries);
    } else if op.Get? && t != s {
      var groups := GroupsFor(op.gr, op.newServer, s.groupVersions, s.aggregators, s.custom);
      RefetchKeepsUpToDate(s.entries, groups, s.groupVersions, s.custom, op.server, t.entries);
    }
  }

  // In every cache that operations can lead to, each resource has a version, and the versions of a
  // resource of a group that is not custom are a subsequence of the current versions of the group.
  lemma {:induction false} AlwaysUpToDate(ops: seq<Op>, t: Cache)
    requires Follows(ops, t)
    ensures UpToDate(t.entries, t.groupVersions, t.custom)
  {
    if ops != [] {
      var s :| Follows(ops[..|ops| - 1], s) && Does(s, ops[|ops| - 1], t);
      AlwaysUpToDate(ops[..|ops| - 1], s);
      DoesKeepsUpToDate(s, ops[|ops| - 1], t);
    }
  }

  function EntriesOf(versions: map<GroupResource, seq<string>>,
                     apis: map<GroupResource, APIResource>): map<GroupResource, Entry> {
    map gr | gr in versions && gr in apis :: Entry(versions[gr], apis[gr])
  }

  // After any sequence of operations the tables of the program have the same resources, the singular name
  // of each is that of its description, and together they are a cache that follows from the operations.
  method Reach(ops: seq<Op>)
    returns (versions: map<GroupResource, seq<string>>, apis: map<GroupResource, APIResource>,
             singulars: map<GroupResource, GroupResource>,
             groupVersions: map<string, seq<string>>, aggregators: set<string>, custom: set<string>)
    ensures versions.Keys == apis.Keys == singulars.Keys
    ensures forall gr :: gr in singulars ==> singulars[gr] == Singular(gr, apis[gr])
    ensures Follows(ops, Cache(groupVersions, aggregators, custom, EntriesOf(versions, apis)))
  {
    var d := new Discovery();
    for i := 0 to |ops|
      invariant fresh(d) && d.Valid() && Follows(ops[..i], d.View())
    {
      ghost var s := d.View();
      assert ops[..i + 1][..i] == ops[..i];
      Operate(d, ops[i]);
      assert Does(s, ops[i], d.View());
    }
    assert ops[..|ops|] == ops;
    versions, apis, singulars := d.resourceVersions, d.apiResources, d.pluralToSingular;
    groupVersions, aggregators, custom := d.groupVersions, d.aggregatorGroups, d.customResourceGroups;
    assert EntriesOf(versions, apis) == d.entries;
  }

  method Operate(d: Discovery, op: Op)
    requires d.Valid()
    modifies d
    ensures d.Valid() && Does(old(d.View()), op, d.View())
  {
    match op {
      case Services(versions, aggregators, server) => var _ := d.SetGroupVersions(versions, aggregators, server);
      case Established(gr, api, served) => var _ := d.UpdateCustomResource(gr, api, served);
      case Removed(gr) => d.RemoveCustomResource(gr);
      case RefetchAggregators(server) => var _ := d.Refresh(d.aggregatorGroups, server);
      case RefetchAll(server) => var _ := d.Refresh(d.groupVersions.Keys - d.customResourceGroups, server);
      case Get(gr, newServer, server) => var _ := d.GetAPIResourceAndVersions(gr, newServer, server);
    }
  }

  // A resource that had the singular name x and now has another one.
  method Renamed(plural: GroupResource, x: string, s1: string, versions: seq<string>) returns (d: Discovery)
    requires s1 != x && s1 != "" && x != "" && versions != []
    ensures fresh(d) && d.Valid() && plural.group in d.customResourceGroups
    ensures d.entries == map[plural := Entry(versions, APIResource(plural.resource, s1, "", 0))]
    ensures var name := GroupResource(plural.group, x); name in d.singularToPlural && d.singularToPlural[name] == plural
  {
    d := new Discovery();
    var name := GroupResource(plural.group, x);
    var _ := d.UpdateCustomResource(plural, APIResource(plural.resource, x, "", 0), versions);
    assert d.entries[plural].api.singular == x && d.singularToPlural[name] == plural;
    var _ := d.UpdateCustomResource(plural, APIResource(plural.resource, s1, "", 0), versions);
    assert d.entries[plural].api.singular == s1;
  }

  // A definition gives a resource another singular name, and a second definition takes the first name as
  // its plural: the lookup of the second resource answers with the first one.
  method StaleNameMisleads(g: string, p: string, x: string, s1: string, s2: string, versions: seq<string>,
                           server: Server)
    returns (answer: Option<Entry>, asked: Entry)
    requires p != x && s1 != x && s2 != x && s1 != "" && s2 != "" && x != "" && p != "" && Lower(x) == x
             && versions != []
    ensures asked.api.name == x && answer == Some(Entry(versions, APIResource(p, s1, "", 0)))
  {
    var plural, name := GroupResource(g, p), GroupResource(g, x);
    var d := Renamed(plural, x, s1, versions);
    var _ := d.UpdateCustomResource(name, APIResource(x, s2, "", 0), versions);
    assert name in d.entries && d.singularToPlural[name] == plural;
    asked := Entry(versions, d.apiResources[name]);
    answer := d.GetAPIResourceAndVersions(name, false, server);
  }
}
