// The status of the resources of a cluster (pkg/synchromanager/clustersynchro/resource_negotiator.go):
// merging an earlier status into a new one, deleting versions, and the listing by group.
//
// Discovery, feature gates and the storage configuration of a version are parameters; so is the order
// in which a listing puts the versions of a resource.
module GroupStatus {
  import opened Common

  datatype Info = Info(kind: string, namespaced: bool)

  datatype Phase = Unset | Pending | Unknown | Stopped

  // `storage` is the resource the objects are stored as, if there is one.
  datatype Condition = Condition(storage: Option<GroupVersionResource>, phase: Phase, reason: string)

  type Conditions = map<GroupVersionResource, Condition>

  datatype Snapshot = Snapshot(
    sorted: seq<GroupResource>,
    resources: map<GroupResource, Info>,
    versions: map<GroupResource, set<string>>,
    conditions: Conditions)

  const EMPTY := Snapshot([], map[], map[], map[])

  // Conditions are kept for exactly the versions of the resources.
  ghost predicate ConditionsFit(versions: map<GroupResource, set<string>>, conditions: Conditions) {
    forall x: GroupVersionResource {:trigger About(x)} :: About(x) ==>
      (x in conditions <==> x.gr in versions && x.version in versions[x.gr])
  }

  ghost predicate Fits(v: Snapshot) {
    && v.resources.Keys == v.versions.Keys
    && ConditionsFit(v.versions, v.conditions)
    && forall gr :: gr in v.resources ==> gr in v.sorted
  }

  ghost predicate NoRepeats<T(!new)>(s: seq<T>) {
    forall i, j :: 0 <= i < j < |s| ==> s[i] != s[j]
  }

  // The listing order names every resource that is there once, and nothing else.
  ghost predicate Tidy(v: Snapshot) {
    NoRepeats(v.sorted) && forall gr :: gr in v.sorted ==> gr in v.resources
  }

  ghost predicate NoneEmpty(v: Snapshot) {
    forall gr :: gr in v.versions ==> v.versions[gr] != {}
  }

  // ---------------------------------------------------------------------------------------------
  // Growing and shrinking.

  // The conditions `after` are those before with those of `from` for the added ones, which are new.
  ghost predicate Grown(before: Conditions, after: Conditions, from: Conditions, added: set<GroupVersionResource>) {
    forall x: GroupVersionResource {:trigger About(x)} :: About(x) ==>
      && (x in after <==> x in before || x in added)
      && (x in before ==> x !in added && after[x] == before[x])
      && (x in added ==> x in from && after[x] == from[x])
  }

  function VersionsOf(s: Snapshot, gr: GroupResource): set<string> {
    if gr in s.versions then s.versions[gr] else {}
  }

  // The versions among `vs` of a resource that have no condition.
  ghost predicate Missing(added: set<GroupVersionResource>, conditions: Conditions, gr: GroupResource,
                          vs: set<string>) {
    forall x: GroupVersionResource {:trigger About(x)} :: About(x) ==>
      (x in added <==> x.gr == gr && x.version in vs && x !in conditions)
  }

  lemma GrownMore(c0: Conditions, c1: Conditions, c2: Conditions, from: Conditions,
                  a1: set<GroupVersionResource>, a2: set<GroupVersionResource>)
    requires Grown(c0, c1, from, a1) && Grown(c1, c2, from, a2)
    ensures Grown(c0, c2, from, a1 + a2)
  {
  }

  method CopyConditions(gr: GroupResource, vs: set<string>, ghost versions: map<GroupResource, set<string>>,
                        conditions: Conditions, from: Conditions)
    returns (after: Conditions, added: set<GroupVersionResource>)
    requires ConditionsFit(versions, conditions) && gr !in versions && forall v :: v in vs ==>
             GroupVersionResource(gr, v) in from
    ensures Grown(conditions, after, from, added) && Missing(added, conditions, gr, vs)
    ensures ConditionsFit(versions[gr := vs], after)
  {
    after, added := conditions, {};
    var todo := vs;
    while todo != {}
      invariant todo <= vs && ConditionsFit(versions[gr := vs - todo], after)
      invariant Grown(conditions, after, from, added) && Missing(added, conditions, gr, vs - todo)
      decreases todo
    {
      var v :| v in todo;
      var gvr := GroupVersionResource(gr, v);
      assert About(gvr);
      after := after[gvr := from[gvr]];
      added := added + {gvr};
      todo := todo - {v};
    }
    assert vs - {} == vs;
  }

  // The other has a version of the resource to add.
  predicate Brings(other: Snapshot, gr: GroupResource) {
    gr in other.resources && VersionsOf(other, gr) != {}
  }

  // Merging keeps what was there and adds what only the other has.
  ghost predicate IsMerge(before: Snapshot, other: Snapshot, after: Snapshot, added: set<GroupVersionResource>) {
    && added == other.conditions.Keys - before.conditions.Keys
    && Grown(before.conditions, after.conditions, other.conditions, added)
    && ResourcesMerged(before, other, after, other.resources.Keys)
  }

  // The same for the resources of the other that are done.
  ghost predicate MergedUpTo(before: Snapshot, other: Snapshot, after: Snapshot, added: set<GroupVersionResource>,
                             done: set<GroupResource>) {
    && (forall x: GroupVersionResource {:trigger About(x)} :: About(x) ==>
          (x in added <==> x in other.conditions && x.gr in done && x !in before.conditions))
    && Grown(before.conditions, after.conditions, other.conditions, added)
    && ResourcesMerged(before, other, after, done)
  }

  ghost predicate ResourcesMerged(before: Snapshot, other: Snapshot, after: Snapshot, done: set<GroupResource>) {
    && (forall gr :: gr in after.resources <==> gr in before.resources || (gr in done && Brings(other, gr)))
    && (forall gr :: gr in after.resources ==>
          after.resources[gr] == if gr in before.resources then before.resources[gr] else other.resources[gr])
    && before.sorted <= after.sorted && (forall gr :: gr in after.sorted[|before.sorted|..] ==> gr !in before.resources)
    && (Tidy(before) ==> Tidy(after))
  }

  // One resource of the other is merged.
  ghost predicate ResourceMerged(s1: Snapshot, other: Snapshot, s2: Snapshot, more: set<GroupVersionResource>,
                                 gr: GroupResource)
    requires gr in other.resources
  {
    && Grown(s1.conditions, s2.conditions, other.conditions, more)
    && Missing(more, s1.conditions, gr, VersionsOf(other, gr))
    && if gr in s1.resources || !Brings(other, gr) then s2.resources == s1.resources && s2.sorted == s1.sorted
       else s2.resources == s1.resources[gr := other.resources[gr]] && s2.sorted == s1.sorted + [gr]
  }

  lemma MergeStep(before: Snapshot, other: Snapshot, s1: Snapshot, s2: Snapshot,
                  added: set<GroupVersionResource>, more: set<GroupVersionResource>, done: set<GroupResource>,
                  gr: GroupResource)
    requires Fits(other) && gr in other.resources && gr !in done
    requires MergedUpTo(before, other, s1, added, done) && ResourceMerged(s1, other, s2, more, gr)
    ensures MergedUpTo(before, other, s2, added + more, done + {gr})
  {
    GrownMore(before.conditions, s1.conditions, s2.conditions, other.conditions, added, more);
    ResourcesStep(before, other, s1, s2, more, done, gr);
  }

  lemma ResourcesStep(before: Snapshot, other: Snapshot, s1: Snapshot, s2: Snapshot,
                      more: set<GroupVersionResource>, done: set<GroupResource>, gr: GroupResource)
    requires gr in other.resources && gr !in done
    requires ResourcesMerged(before, other, s1, done) && ResourceMerged(s1, other, s2, more, gr)
    ensures ResourcesMerged(before, other, s2, done + {gr})
  {
    if !(gr in s1.resources || !Brings(other, gr)) {
      assert s2.sorted[|before.sorted|..] == s1.sorted[|before.sorted|..] + [gr];
    }
  }

  lemma MergedAll(before: Snapshot, other: Snapshot, after: Snapshot, added: set<GroupVersionResource>)
    requires Fits(other) && MergedUpTo(before, other, after, added, other.resources.Keys)
    ensures IsMerge(before, other, after, added)
  {
    assert forall x :: x in other.conditions || x in added ==> About(x);
  }

  // A status with the same versions brings nothing.
  lemma SameVersions(s: Snapshot, other: Snapshot)
    requires Fits(s) && Fits(other) && s.versions == other.versions
    ensures IsMerge(s, other, s, {})
  {
    assert forall x :: x in other.conditions ==> About(x);
  }

  ghost predicate Touched(gone: set<GroupVersionResource>, gr: GroupResource) {
    exists x :: x in gone && x.gr == gr
  }

  // A condition of the resource stays.
  ghost predicate Stays(conditions: Conditions, gone: set<GroupVersionResource>, gr: GroupResource) {
    exists x :: x in conditions && x !in gone && x.gr == gr
  }

  // Deleting versions takes their conditions, and with the last version of a resource the resource.
  ghost predicate IsDelete(before: Snapshot, after: Snapshot, gone: set<GroupVersionResource>) {
    && after.conditions == before.conditions - gone && after.sorted == before.sorted
    && forall gr: GroupResource {:trigger About(gr)} :: About(gr) ==>
         && (gr in after.resources <==>
               gr in before.resources && (Touched(gone, gr) ==> Stays(before.conditions, gone, gr)))
         && (gr in after.resources ==> after.resources[gr] == before.resources[gr])
  }

  lemma DeleteMore(s0: Snapshot, s1: Snapshot, s2: Snapshot, gone: set<GroupVersionResource>, x: GroupVersionResource)
    requires IsDelete(s0, s1, gone) && IsDelete(s1, s2, {x})
    ensures IsDelete(s0, s2, gone + {x})
  {
    forall gr: GroupResource {:trigger About(gr)} | About(gr)
      ensures gr in s2.resources <==>
                gr in s0.resources && (Touched(gone + {x}, gr) ==> Stays(s0.conditions, gone + {x}, gr))
    {
      assert Touched(gone + {x}, gr) <==> Touched(gone, gr) || x.gr == gr;
      assert Touched({x}, gr) <==> x.gr == gr;
      assert Stays(s1.conditions, {x}, gr) <==> Stays(s0.conditions, gone + {x}, gr);
      assert Stays(s0.conditions, gone + {x}, gr) ==> Stays(s0.conditions, gone, gr);
    }
  }

  lemma StaysByVersion(versions: map<GroupResource, set<string>>, conditions: Conditions, x: GroupVersionResource)
    requires ConditionsFit(versions, conditions) && x.gr in versions
    ensures Stays(conditions, {x}, x.gr) <==> versions[x.gr] - {x.version} != {}
  {
    if versions[x.gr] - {x.version} != {} {
      var v :| v in versions[x.gr] - {x.version};
      var y := GroupVersionResource(x.gr, v);
      assert About(y) && y in conditions && y !in {x};
    }
    if Stays(conditions, {x}, x.gr) {
      var y :| y in conditions && y !in {x} && y.gr == x.gr;
      assert About(y) && y.version in versions[x.gr] - {x.version};
    }
  }

  // Merging another status and deleting what came with it gives the conditions back, and everything
  // else too exactly if no resource without versions got some.
  lemma DeletingAdditionsRestores(before: Snapshot, other: Snapshot, merged: Snapshot, after: Snapshot,
                                  added: set<GroupVersionResource>, order: Order)
    requires Fits(before) && Fits(other) && Fits(merged) && Fits(after)
    requires IsMerge(before, other, merged, added) && IsDelete(merged, after, added)
    ensures after.conditions == before.conditions
    ensures (forall gr :: gr in before.resources && before.versions[gr] == {} ==> !Brings(other, gr)) <==>
            after.resources == before.resources && after.versions == before.versions
    ensures after.resources == before.resources ==> Listing(after, order) == Listing(before, order)
  {
    ConditionsRestored(before, other, merged, after, added);
    forall gr
      ensures gr in after.resources <==> gr in before.resources && (before.versions[gr] == {} ==> !Brings(other, gr))
      ensures gr in after.resources ==>
                after.resources[gr] == before.resources[gr] && after.versions[gr] == before.versions[gr]
    {
      RestoredAt(before, other, merged, after, added, gr);
      ValuesRestored(before, other, merged, after, added, gr);
    }
    if after.resources == before.resources {
      ListingRestored(before, after, order);
    }
  }

  lemma ConditionsRestored(before: Snapshot, other: Snapshot, merged: Snapshot, after: Snapshot,
                           added: set<GroupVersionResource>)
    requires IsMerge(before, other, merged, added) && IsDelete(merged, after, added)
    ensures after.conditions == before.conditions
  {
    assert forall x :: x in before.conditions || x in merged.conditions ==> About(x);
  }

  lemma ValuesRestored(before: Snapshot, other: Snapshot, merged: Snapshot, after: Snapshot,
                       added: set<GroupVersionResource>, gr: GroupResource)
    requires Fits(before) && Fits(after) && IsMerge(before, other, merged, added) && IsDelete(merged, after, added)
    requires after.conditions == before.conditions
    ensures gr in after.resources && gr in before.resources ==>
              after.resources[gr] == before.resources[gr] && after.versions[gr] == before.versions[gr]
  {
    assert About(gr);
    if gr in after.resources && gr in before.resources {
      forall v ensures v in after.versions[gr] <==> v in before.versions[gr] {
        assert About(GroupVersionResource(gr, v));
      }
    }
  }

  lemma ListingRestored(before: Snapshot, after: Snapshot, order: Order)
    requires before.resources == after.resources && before.versions == after.versions
             && before.conditions == after.conditions
    requires before.sorted <= after.sorted && forall gr :: gr in after.sorted[|before.sorted|..] ==>
             gr !in before.resources
    ensures Listing(after, order) == Listing(before, order)
  {
    assert after.sorted == before.sorted + after.sorted[|before.sorted|..];
    PresentOfTail(before.sorted, after.sorted[|before.sorted|..], before.resources.Keys);
    ListingSame(Present(before.sorted, before.resources.Keys), before, after, order);
  }

  lemma RestoredAt(before: Snapshot, other: Snapshot, merged: Snapshot, after: Snapshot,
                   added: set<GroupVersionResource>, gr: GroupResource)
    requires Fits(before) && Fits(other) && Fits(after) && IsMerge(before, other, merged, added)
             && IsDelete(merged, after, added)
    requires after.conditions == before.conditions
    ensures gr in after.resources <==> gr in before.resources && (before.versions[gr] == {} ==> !Brings(other, gr))
  {
    assert About(gr);
    assert Touched(added, gr) ==> Brings(other, gr) by {
      if Touched(added, gr) {
        var x :| x in added && x.gr == gr;
        assert About(x);
      }
    }
    assert Brings(other, gr) && VersionsOf(before, gr) == {} ==> Touched(added, gr) by {
      if Brings(other, gr) && VersionsOf(before, gr) == {} {
        var v :| v in other.versions[gr];
        var x := GroupVersionResource(gr, v);
        assert About(x) && x in added;
      }
    }
    assert Stays(merged.conditions, added, gr) <==> VersionsOf(before, gr) != {} by {
      if Stays(merged.conditions, added, gr) {
        var x :| x in merged.conditions && x !in added && x.gr == gr;
        assert About(x);
      }
      if VersionsOf(before, gr) != {} {
        var v :| v in before.versions[gr];
        var x := GroupVersionResource(gr, v);
        assert About(x) && x in before.conditions && x in merged.conditions && x !in added;
      }
    }
  }

  // ---------------------------------------------------------------------------------------------
  // The listing.

  datatype Entry = Entry(name: string, info: Info, conditions: seq<Condition>)

  datatype GroupEntry = GroupEntry(group: string, resources: seq<Entry>)

  // The versions of a set in the order of the listing.
  type Order = set<string> -> seq<string>

  const NO_CONDITION := Condition(None, Unset, "")

  function ConditionOf(conditions: Conditions, x: GroupVersionResource): Condition {
    if x in conditions then conditions[x] else NO_CONDITION
  }

  function EntryOf(s: Snapshot, gr: GroupResource, order: Order): Entry
    requires gr in s.resources
  {
    var vs := order(VersionsOf(s, gr));
    Entry(gr.resource, s.resources[gr], seq(|vs|,
        i requires 0 <= i < |vs| => ConditionOf(s.conditions, GroupVersionResource(gr, vs[i]))))
  }

  // An entry of a status that fits has the name and the information of its resource, and one condition for
  // each version in the order of the listing: the one that the status has for that version, never a
  // placeholder. No condition of the resource is left out.
  lemma EntryShowsConditions(s: Snapshot, gr: GroupResource, order: Order, v: string)
    requires Fits(s) && gr in s.resources
    requires forall x :: x in order(s.versions[gr]) <==> x in s.versions[gr]
    ensures var e, vs := EntryOf(s, gr, order), order(s.versions[gr]);
            && e.name == gr.resource && e.info == s.resources[gr] && |e.conditions| == |vs|
            && (forall i :: 0 <= i < |vs| ==>
                  var x := GroupVersionResource(gr, vs[i]); x in s.conditions && e.conditions[i] == s.conditions[x])
            && (GroupVersionResource(gr, v) in s.conditions ==>
                  exists i :: 0 <= i < |vs| && vs[i] == v
                      && e.conditions[i] == s.conditions[GroupVersionResource(gr, v)])
  {
    var vs := order(s.versions[gr]);
    forall i | 0 <= i < |vs| ensures GroupVersionResource(gr, vs[i]) in s.conditions {
      assert About(GroupVersionResource(gr, vs[i])) && vs[i] in vs;
    }
    assert About(GroupVersionResource(gr, v));
  }

  function Present(grs: seq<GroupResource>, keys: set<GroupResource>): (r: seq<GroupResource>)
    ensures forall gr :: gr in r <==> gr in grs && gr in keys
  {
    if grs == [] then []
    else
      var init, last := Present(grs[..|grs| - 1], keys), grs[|grs| - 1];
      if last in keys then init + [last] else init
  }

  // An entry goes to its group, which is opened at the end if there is none.
  function Place(groups: seq<GroupEntry>, group: string, e: Entry): (r: seq<GroupEntry>)
    ensures r != []
  {
    if groups == [] then [GroupEntry(group, [e])]
    else if groups[0].group == group then [GroupEntry(group, groups[0].resources + [e])] + groups[1..]
    else [groups[0]] + Place(groups[1..], group, e)
  }

  function ListingOf(grs: seq<GroupResource>, s: Snapshot, order: Order): seq<GroupEntry>
    requires forall gr :: gr in grs ==> gr in s.resources
  {
    if grs == [] then []
    else
      var last := grs[|grs| - 1];
      Place(ListingOf(grs[..|grs| - 1], s, order), last.group, EntryOf(s, last, order))
  }

  function Listing(s: Snapshot, order: Order): seq<GroupEntry> {
    ListingOf(Present(s.sorted, s.resources.Keys), s, order)
  }

  lemma {:induction false} PresentOfTail(a: seq<GroupResource>, b: seq<GroupResource>, keys: set<GroupResource>)
    requires forall gr :: gr in b ==> gr !in keys
    ensures Present(a + b, keys) == Present(a, keys)
  {
    if b == [] {
      assert a + b == a;
    } else {
      assert (a + b)[..|a + b| - 1] == a + b[..|b| - 1];
      PresentOfTail(a, b[..|b| - 1], keys);
    }
  }

  lemma {:induction false} ListingSame(grs: seq<GroupResource>, s: Snapshot, t: Snapshot, order: Order)
    requires s.resources == t.resources && s.versions == t.versions && s.conditions == t.conditions
    requires forall gr :: gr in grs ==> gr in s.resources
    ensures ListingOf(grs, s, order) == ListingOf(grs, t, order)
  {
    if grs != [] {
      ListingSame(grs[..|grs| - 1], s, t, order);
      var last := grs[|grs| - 1];
      assert EntryOf(s, last, order) == EntryOf(t, last, order);
    }
  }

  // The groups of a listing differ in name.
  ghost predicate Distinct(groups: seq<GroupEntry>) {
    forall i, j :: 0 <= i < j < |groups| ==> groups[i].group != groups[j].group
  }

  lemma {:induction false} PlaceInGroup(groups: seq<GroupEntry>, i: nat, e: Entry)
    requires i < |groups| && Distinct(groups)
    ensures Place(groups, groups[i].group, e) == groups[i := GroupEntry(groups[i].group, groups[i].resources + [e])]
  {
    if i > 0 {
      PlaceInGroup(groups[1..], i - 1, e);
    }
  }

  lemma {:induction false} PlaceInNew(groups: seq<GroupEntry>, group: string, e: Entry)
    requires forall i :: 0 <= i < |groups| ==> groups[i].group != group
    ensures Place(groups, group, e) == groups + [GroupEntry(group, [e])]
  {
    if groups != [] {
      PlaceInNew(groups[1..], group, e);
    }
  }

  // What a listing has for a group.
  function EntriesOf(groups: seq<GroupEntry>, group: string): seq<Entry> {
    if groups == [] then []
    else if groups[0].group == group then groups[0].resources
    else EntriesOf(groups[1..], group)
  }

  lemma {:induction false} PlacedEntries(groups: seq<GroupEntry>, group: string, e: Entry, g: string)
    ensures EntriesOf(Place(groups, group, e), g) == EntriesOf(groups, g) + (if g == group then [e] else [])
  {
    if groups != [] && groups[0].group != group {
      PlacedEntries(groups[1..], group, e, g);
      assert Place(groups, group, e)[1..] == Place(groups[1..], group, e);
    }
  }

  lemma {:induction false} PlacedGroups(groups: seq<GroupEntry>, group: string, e: Entry)
    requires Distinct(groups)
    ensures Distinct(Place(groups, group, e))
  {
    if i :| 0 <= i < |groups| && groups[i].group == group {
      PlaceInGroup(groups, i, e);
    } else {
      PlaceInNew(groups, group, e);
    }
  }

  // The entries of the resources of one group, in order.
  function GroupEntries(grs: seq<GroupResource>, s: Snapshot, order: Order, g: string): seq<Entry>
    requires forall gr :: gr in grs ==> gr in s.resources
  {
    if grs == [] then []
    else
      var last := grs[|grs| - 1];
      GroupEntries(grs[..|grs| - 1], s, order, g) + (if last.group == g then [EntryOf(s, last, order)] else [])
  }

  // A listing has every group once, and under it the entries of its resources in their order.
  lemma {:induction false} ListingByGroup(grs: seq<GroupResource>, s: Snapshot, order: Order, g: string)
    requires forall gr :: gr in grs ==> gr in s.resources
    ensures Distinct(ListingOf(grs, s, order)) && EntriesOf(ListingOf(grs, s, order), g) ==
            GroupEntries(grs, s, order, g)
  {
    if grs != [] {
      var init, last := grs[..|grs| - 1], grs[|grs| - 1];
      ListingByGroup(init, s, order, g);
      PlacedGroups(ListingOf(init, s, order), last.group, EntryOf(s, last, order));
      PlacedEntries(ListingOf(init, s, order), last.group, EntryOf(s, last, order), g);
    }
  }

  lemma ListingStep(s: Snapshot, order: Order, i: nat)
    requires i < |s.sorted|
    ensures var here, next := Present(s.sorted[..i], s.resources.Keys), Present(s.sorted[..i + 1], s.resources.Keys);
            var gr := s.sorted[i];
            if gr in s.resources
            then ListingOf(next, s, order) == Place(ListingOf(here, s, order), gr.group, EntryOf(s, gr, order))
            else next == here
  {
    var here, gr := Present(s.sorted[..i], s.resources.Keys), s.sorted[i];
    assert s.sorted[..i + 1][..i] == s.sorted[..i];
    assert (here + [gr])[..|here|] == here;
  }

  // Where the groups of a listing stand.
  ghost predicate Indexes(indexes: map<string, nat>, groups: seq<GroupEntry>) {
    && Distinct(groups)
    && (forall g :: g in indexes ==> indexes[g] < |groups| && groups[indexes[g]].group == g)
    && forall i :: 0 <= i < |groups| ==> groups[i].group in indexes
  }

  method PlaceByIndex(groups: seq<GroupEntry>, indexes: map<string, nat>, group: string, e: Entry)
    returns (groups': seq<GroupEntry>, indexes': map<string, nat>)
    requires Indexes(indexes, groups)
    ensures Indexes(indexes', groups') && groups' == Place(groups, group, e)
  {
    groups', indexes' := groups, indexes;
    if group in indexes {
      PlaceInGroup(groups, indexes[group], e);
    } else {
      PlaceInNew(groups, group, e);
      groups' := groups + [GroupEntry(group, [])];
      indexes' := indexes[group := |groups|];
    }
    var index := indexes'[group];
    assert [] + [e] == [e];
    groups' := groups'[index := GroupEntry(group, groups'[index].resources + [e])];
  }

  class GroupResourceStatus {
    var sorted: seq<GroupResource>
    var resources: map<GroupResource, Info>
    var versions: map<GroupResource, set<string>>
    var conditions: Conditions

    function View(): Snapshot
      reads this
    {
      Snapshot(sorted, resources, versions, conditions)
    }

    constructor ()
      ensures View() == EMPTY
    {
      sorted, resources, versions, conditions := [], map[], map[], map[];
    }

    method AddResource(gr: GroupResource, info: Info)
      requires Fits(View())
      modifies this
      ensures Fits(View()) && conditions == old(conditions) && resources == old(resources)[gr := info]
      ensures versions == if gr in old(versions) then old(versions) else old(versions)[gr := {}]
      ensures sorted == if gr in old(resources) then old(sorted) else old(sorted) + [gr]
      ensures Tidy(old(View())) ==> Tidy(View())
    {
      if gr !in resources {
        sorted := sorted + [gr];
        versions := versions[gr := {}];
      }
      resources := resources[gr := info];
    }

    method AddSyncCondition(gvr: GroupVersionResource, c: Condition)
      requires Fits(View())
      modifies this`versions, this`conditions
      ensures Fits(View())
      ensures gvr.gr !in resources ==> versions == old(versions) && conditions == old(conditions)
      ensures gvr.gr in resources ==>
                && conditions == old(conditions)[gvr := c]
                && versions == old(versions)[gvr.gr := old(versions)[gvr.gr] + {gvr.version}]
    {
      if gvr.gr !in resources {
        return;
      }
      versions := versions[gvr.gr := versions[gvr.gr] + {gvr.version}];
      conditions := conditions[gvr := c];
    }

    method UpdateSyncCondition(gvr: GroupVersionResource, phase: Phase, reason: string)
      requires Fits(View())
      modifies this`conditions
      ensures Fits(View())
      ensures conditions == if gvr in old(conditions)
                            then old(conditions)[gvr := old(conditions)[gvr].(phase := phase, reason := reason)]
                            else old(conditions)
    {
      if gvr !in conditions {
        return;
      }
      conditions := conditions[gvr := conditions[gvr].(phase := phase, reason := reason)];
    }

    method DeleteVersion(gvr: GroupVersionResource)
      requires Fits(View())
      modifies this`resources, this`versions, this`conditions
      ensures Fits(View()) && IsDelete(old(View()), View(), {gvr})
    {
      var gr := gvr.gr;
      assert About(gvr);
      assert Touched({gvr}, gr) && forall h :: h != gr ==> !Touched({gvr}, h);
      if gr !in resources {
        return;
      }
      conditions := conditions - {gvr};
      versions := versions[gr := versions[gr] - {gvr.version}];
      StaysByVersion(old(versions), old(conditions), gvr);
      if versions[gr] == {} {
        resources, versions := resources - {gr}, versions - {gr};
      }
    }

    method DeleteVersions(gone: set<GroupVersionResource>)
      requires Fits(View())
      modifies this`resources, this`versions, this`conditions
      ensures Fits(View()) && IsDelete(old(View()), View(), gone)
    {
      var todo := gone;
      assert IsDelete(old(View()), View(), gone - todo);
      while todo != {}
        invariant todo <= gone && Fits(View()) && IsDelete(old(View()), View(), gone - todo)
        decreases todo
      {
        var x :| x in todo;
        ghost var s1 := View();
        DeleteVersion(x);
        DeleteMore(old(View()), s1, View(), gone - todo, x);
        assert gone - todo + {x} == gone - (todo - {x});
        todo := todo - {x};
      }
    }

    // The versions of one resource that are not there yet.
    method AddMissing(gr: GroupResource, vs: set<string>, from: Conditions) returns (added: set<GroupVersionResource>)
      requires Fits(View()) && gr in resources && forall v :: v in vs ==> GroupVersionResource(gr, v) in from
      modifies this`versions, this`conditions
      ensures Fits(View()) && Grown(old(conditions), conditions, from, added) && Missing(added, old(conditions), gr, vs)
    {
      added := {};
      var todo := vs;
      while todo != {}
        invariant todo <= vs && Fits(View())
        invariant Grown(old(conditions), conditions, from, added) && Missing(added, old(conditions), gr, vs - todo)
        decreases todo
      {
        var v :| v in todo;
        var gvr := GroupVersionResource(gr, v);
        assert About(gvr);
        if gvr !in conditions {
          versions := versions[gr := versions[gr] + {v}];
          conditions := conditions[gvr := from[gvr]];
          added := added + {gvr};
        }
        todo := todo - {v};
      }
    }

    // A resource that is not there yet, with all its versions.
    method AddWhole(gr: GroupResource, info: Info, vs: set<string>, from: Conditions)
      returns (added: set<GroupVersionResource>)
      requires Fits(View()) && gr !in resources && forall v :: v in vs ==> GroupVersionResource(gr, v) in from
      modifies this
      ensures Fits(View()) && Grown(old(conditions), conditions, from, added) && Missing(added, old(conditions), gr, vs)
      ensures resources == old(resources)[gr := info] && sorted == old(sorted) + [gr]
    {
      sorted := sorted + [gr];
      resources := resources[gr := info];
      versions := versions[gr := vs];
      conditions, added := CopyConditions(gr, vs, old(versions), conditions, from);
    }

    method MergeResource(gr: GroupResource, other: GroupResourceStatus) returns (more: set<GroupVersionResource>)
      requires other != this && Fits(View()) && Fits(other.View()) && gr in other.resources
      modifies this
      ensures Fits(View()) && ResourceMerged(old(View()), other.View(), View(), more, gr)
    {
      var vs := other.versions[gr];
      forall v | v in vs ensures GroupVersionResource(gr, v) in other.conditions {
        assert About(GroupVersionResource(gr, v));
      }
      if vs == {} {
        more := {};
      } else if gr !in resources {
        more := AddWhole(gr, other.resources[gr], vs, other.conditions);
      } else {
        more := AddMissing(gr, vs, other.conditions);
      }
    }

    // What the other status has and this one has not, and which versions those are.
    method Merge(other: GroupResourceStatus?) returns (added: set<GroupVersionResource>)
      requires Fits(View()) && (other != null ==> Fits(other.View()))
      modifies this
      ensures Fits(View())
      ensures other == null ==> View() == old(View()) && added == {}
      ensures other != null ==> IsMerge(old(View()), old(other.View()), View(), added)
    {
      added := {};
      if other == null {
        return;
      }
      if versions == other.versions {
        SameVersions(View(), other.View());
        return;
      }
      var todo := other.resources.Keys;
      while todo != {}
        invariant todo <= other.resources.Keys && other.View() == old(other.View())
        invariant Fits(View()) && MergedUpTo(old(View()), other.View(), View(), added, other.resources.Keys - todo)
        decreases todo
      {
        var gr :| gr in todo;
        ghost var s1 := View();
        var more := MergeResource(gr, other);
        MergeStep(old(View()), other.View(), s1, View(), added, more, other.resources.Keys - todo, gr);
        added := added + more;
        todo := todo - {gr};
      }
      MergedAll(old(View()), other.View(), View(), added);
    }

    method LoadGroupResourcesStatuses(order: Order) returns (groups: seq<GroupEntry>)
      requires Fits(View())
      ensures groups == Listing(View(), order)
    {
      groups := [];
      var indexes: map<string, nat> := map[];
      for i := 0 to |sorted|
        invariant Indexes(indexes, groups)
        invariant groups == ListingOf(Present(sorted[..i], resources.Keys), View(), order)
      {
        var gr := sorted[i];
        ListingStep(View(), order, i);
        if gr in resources {
          groups, indexes := PlaceByIndex(groups, indexes, gr.group, EntryOf(View(), gr, order));
        }
      }
      assert sorted[..|sorted|] == sorted;
    }
  }
}
