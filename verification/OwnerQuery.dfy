// Searching by owner (pkg/storage/internalstorage/json_builder.go and resource_storage.go): the
// nested queries that are built for an owner given by UID or by name and for its seniority, and the
// rows they select.
module OwnerQuery {
  import opened Common

  datatype Row = Row(
    cluster: string, uid: string, ownerUid: string, group: string, resource: string, namespace: string, name: string)

  // A plain UID or a subquery for UIDs.
  datatype Query = Uid(uid: string) | Select(cluster: string, where: Condition)

  datatype Condition = OwnerIs(uid: string) | OwnerIn(query: Query) | Named(owner: OwnerName)

  // An empty group resource and an empty list of namespaces do not restrict.
  datatype OwnerName = OwnerName(group: string, resource: string, namespaces: seq<string>, name: string)

  function BuildByUid(cluster: string, uid: string, seniority: nat): Query {
    if seniority == 0 then Uid(uid)
    else
      var parent := BuildByUid(cluster, uid, seniority - 1);
      if parent.Uid? then Select(cluster, OwnerIs(parent.uid)) else Select(cluster, OwnerIn(parent))
  }

  function BuildByName(cluster: string, owner: OwnerName, seniority: nat): Query {
    if seniority == 0 then Select(cluster, Named(owner))
    else Select(cluster, OwnerIn(BuildByName(cluster, owner, seniority - 1)))
  }

  // ---------------------------------------------------------------------------------------------
  // What the database answers.

  type Table = set<Row>

  predicate HasName(r: Row, owner: OwnerName) {
    && ((owner.group == "" && owner.resource == "") || (r.group == owner.group && r.resource == owner.resource))
    && (owner.namespaces == [] || r.namespace in owner.namespaces)
    && r.name == owner.name
  }

  function Answer(table: Table, q: Query): set<string>
    decreases q
  {
    match q
    case Uid(u) => {u}
    case Select(cluster, where) => set r | r in table && r.cluster == cluster && Holds(table, r, where) :: r.uid
  }

  predicate Holds(table: Table, r: Row, where: Condition)
    decreases where
  {
    match where
    case OwnerIs(u) => r.ownerUid == u
    case OwnerIn(q) => r.ownerUid in Answer(table, q)
    case Named(owner) => HasName(r, owner)
  }

  // ---------------------------------------------------------------------------------------------
  // Owner chains.

  // Rows of the cluster, each owned by the next.
  ghost predicate Chain(table: Table, cluster: string, path: seq<Row>) {
    && (forall i :: 0 <= i < |path| ==> path[i] in table && path[i].cluster == cluster)
    && (forall i :: 0 <= i < |path| - 1 ==> path[i].ownerUid == path[i + 1].uid)
  }

  // `uid` is the object that a chain of n stored rows starts from, and its last row is owned by `top`.
  ghost predicate ChainToUid(table: Table, cluster: string, uid: string, n: nat, top: string) {
    if n == 0 then uid == top
    else
      exists path: seq<Row> ::
        Chain(table, cluster, path) && |path| == n && path[0].uid == uid && path[n - 1].ownerUid == top
  }

  // The same with n + 1 rows, the last of which has the given name.
  ghost predicate ChainToName(table: Table, cluster: string, uid: string, n: nat, owner: OwnerName) {
    exists path: seq<Row> ::
      Chain(table, cluster, path) && |path| == n + 1 && path[0].uid == uid && HasName(path[n], owner)
  }

  lemma ChainCons(table: Table, cluster: string, r: Row, path: seq<Row>)
    requires Chain(table, cluster, path) && r in table && r.cluster == cluster
    requires path != [] ==> r.ownerUid == path[0].uid
    ensures Chain(table, cluster, [r] + path)
  {
    var longer := [r] + path;
    forall i | 0 <= i < |longer| - 1 ensures longer[i].ownerUid == longer[i + 1].uid {
      if i > 0 {
        assert longer[i] == path[i - 1] && longer[i + 1] == path[i];
      }
    }
  }

  lemma ChainTail(table: Table, cluster: string, path: seq<Row>)
    requires Chain(table, cluster, path) && path != []
    ensures Chain(table, cluster, path[1..])
  {
  }

  lemma {:induction false} UidQuerySound(table: Table, cluster: string, uid: string, n: nat, u: string)
    requires u in Answer(table, BuildByUid(cluster, uid, n))
    ensures ChainToUid(table, cluster, u, n, uid)
  {
    if n > 0 {
      var r :| r in table && r.cluster == cluster && r.uid == u && Holds(table, r, BuildByUid(cluster, uid, n).where);
      UidQuerySound(table, cluster, uid, n - 1, r.ownerUid);
      var path: seq<Row> := [];
      if n > 1 {
        path :| Chain(table, cluster, path) && |path| == n - 1 && path[0].uid == r.ownerUid
            && path[n - 2].ownerUid == uid;
      }
      ChainCons(table, cluster, r, path);
      assert ([r] + path)[n - 1].ownerUid == uid;
    }
  }

  lemma {:induction false} UidQueryComplete(table: Table, cluster: string, uid: string, n: nat, path: seq<Row>)
    requires Chain(table, cluster, path) && |path| == n > 0 && path[n - 1].ownerUid == uid
    ensures path[0].uid in Answer(table, BuildByUid(cluster, uid, n))
  {
    if n > 1 {
      ChainTail(table, cluster, path);
      UidQueryComplete(table, cluster, uid, n - 1, path[1..]);
    }
    assert Holds(table, path[0], BuildByUid(cluster, uid, n).where);
  }

  lemma UidQueryFindsChains(table: Table, cluster: string, uid: string, n: nat, u: string)
    ensures u in Answer(table, BuildByUid(cluster, uid, n)) <==> ChainToUid(table, cluster, u, n, uid)
  {
    if u in Answer(table, BuildByUid(cluster, uid, n)) {
      UidQuerySound(table, cluster, uid, n, u);
    }
    if n > 0 && ChainToUid(table, cluster, u, n, uid) {
      var path: seq<Row> :| Chain(table, cluster, path) && |path| == n && path[0].uid == u
          && path[n - 1].ownerUid == uid;
      UidQueryComplete(table, cluster, uid, n, path);
    }
  }

  lemma {:induction false} NameQuerySound(table: Table, cluster: string, owner: OwnerName, n: nat, u: string)
    requires u in Answer(table, BuildByName(cluster, owner, n))
    ensures ChainToName(table, cluster, u, n, owner)
  {
    var r :| r in table && r.cluster == cluster && r.uid == u && Holds(table, r, BuildByName(cluster, owner, n).where);
    if n == 0 {
      assert Chain(table, cluster, [r]) && HasName([r][0], owner);
    } else {
      NameQuerySound(table, cluster, owner, n - 1, r.ownerUid);
      var path: seq<Row> :| Chain(table, cluster, path) && |path| == n && path[0].uid == r.ownerUid
          && HasName(path[n - 1], owner);
      ChainCons(table, cluster, r, path);
      assert HasName(([r] + path)[n], owner);
    }
  }

  lemma {:induction false} NameQueryComplete(table: Table, cluster: string, owner: OwnerName, n: nat, path: seq<Row>)
    requires Chain(table, cluster, path) && |path| == n + 1 && HasName(path[n], owner)
    ensures path[0].uid in Answer(table, BuildByName(cluster, owner, n))
  {
    if n > 0 {
      ChainTail(table, cluster, path);
      NameQueryComplete(table, cluster, owner, n - 1, path[1..]);
    }
    assert Holds(table, path[0], BuildByName(cluster, owner, n).where);
  }

  lemma NameQueryFindsChains(table: Table, cluster: string, owner: OwnerName, n: nat, u: string)
    ensures u in Answer(table, BuildByName(cluster, owner, n)) <==> ChainToName(table, cluster, u, n, owner)
  {
    if u in Answer(table, BuildByName(cluster, owner, n)) {
      NameQuerySound(table, cluster, owner, n, u);
    }
    if ChainToName(table, cluster, u, n, owner) {
      var path: seq<Row> :| Chain(table, cluster, path) && |path| == n + 1 && path[0].uid == u
          && HasName(path[n], owner);
      NameQueryComplete(table, cluster, owner, n, path);
    }
  }

  // ---------------------------------------------------------------------------------------------
  // applyOwnerToResourceQuery

  datatype Options = Options(
    clusters: seq<string>, namespaces: seq<string>, ownerUid: string, ownerName: string,
    ownerGroup: string, ownerResource: string, seniority: int)

  datatype Invalid = NegativeSeniority

  // The name to search for: owners in the requested namespaces, or outside of namespaces.
  function OwnerOf(opts: Options): OwnerName {
    OwnerName(opts.ownerGroup, opts.ownerResource,
              if opts.namespaces == [] then [] else opts.namespaces + [""], opts.ownerName)
  }

  // None when the options name no owner or not exactly one cluster.
  function OwnerCondition(opts: Options): Result<Option<Condition>, Invalid> {
    if opts.seniority < 0 then Failure(NegativeSeniority)
    else if |opts.clusters| != 1 then Success(None)
    else if opts.ownerUid != "" then
      var q := BuildByUid(opts.clusters[0], opts.ownerUid, opts.seniority);
      Success(Some(if q.Uid? then OwnerIs(q.uid) else OwnerIn(q)))
    else if opts.ownerName != "" then
      Success(Some(OwnerIn(BuildByName(opts.clusters[0], OwnerOf(opts), opts.seniority))))
    else Success(None)
  }

  predicate Searches(opts: Options) { |opts.clusters| == 1 && (opts.ownerUid != "" || opts.ownerName != "") }

  // The row is the owner that the options ask for by name: of the group and resource if any are given, and
  // in one of the namespaces or outside of namespaces, or anywhere if no namespaces are given.
  predicate IsAskedFor(opts: Options, r: Row) {
    && r.name == opts.ownerName
    && ((opts.ownerGroup == "" && opts.ownerResource == "") ||
        (r.group == opts.ownerGroup && r.resource == opts.ownerResource))
    && (opts.namespaces == [] || r.namespace in opts.namespaces || r.namespace == "")
  }

  // Negative seniorities and only those are refused; otherwise a row passes exactly when its chain of
  // owners, through resources stored in the one cluster, reaches the wanted owner in seniority + 1
  // steps. A search over several clusters is not restricted at all.
  lemma OwnerSearch(table: Table, opts: Options, r: Row)
    ensures OwnerCondition(opts).Failure? <==> opts.seniority < 0
    ensures opts.seniority >= 0 ==> (OwnerCondition(opts).value.Some? <==> Searches(opts))
    ensures opts.seniority >= 0 && Searches(opts) ==>
              (Holds(table, r, OwnerCondition(opts).value.value) <==>
               if opts.ownerUid != "" then ChainToUid(table, opts.clusters[0], r.ownerUid, opts.seniority,
                   opts.ownerUid)
               else
                 exists path: seq<Row> ::
                   && Chain(table, opts.clusters[0], path) && |path| == opts.seniority + 1
                   && path[0].uid == r.ownerUid && IsAskedFor(opts, path[opts.seniority]))
  {
    if opts.seniority >= 0 && Searches(opts) {
      if opts.ownerUid != "" {
        UidQueryFindsChains(table, opts.clusters[0], opts.ownerUid, opts.seniority, r.ownerUid);
      } else {
        NameQueryFindsChains(table, opts.clusters[0], OwnerOf(opts), opts.seniority, r.ownerUid);
        forall row: Row ensures HasName(row, OwnerOf(opts)) <==> IsAskedFor(opts, row) {
        }
      }
    }
  }

  // Asking for an owner by name is asking, one generation closer, for the UIDs that carry the name.
  lemma NameIsUidOneCloser(table: Table, cluster: string, owner: OwnerName, n: nat, u: string)
    ensures ChainToName(table, cluster, u, n, owner) <==>
            exists r :: r in table && r.cluster == cluster && HasName(r, owner)
                && ChainToUid(table, cluster, u, n, r.uid)
  {
    if ChainToName(table, cluster, u, n, owner) {
      var path: seq<Row> :| Chain(table, cluster, path) && |path| == n + 1 && path[0].uid == u
          && HasName(path[n], owner);
      assert n > 0 ==>
               Chain(table, cluster, path[..n]) && path[..n][n - 1].ownerUid == path[n].uid && path[..n][0].uid == u;
      assert ChainToUid(table, cluster, u, n, path[n].uid);
    }
    if r :| r in table && r.cluster == cluster && HasName(r, owner) && ChainToUid(table, cluster, u, n, r.uid) {
      if n == 0 {
        assert Chain(table, cluster, [r]);
      } else {
        var path: seq<Row> :| Chain(table, cluster, path) && |path| == n && path[0].uid == u
            && path[n - 1].ownerUid == r.uid;
        var longer := path + [r];
        assert Chain(table, cluster, longer) && HasName(longer[n], owner);
      }
    }
  }
}
