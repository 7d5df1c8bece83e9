/**
 Which upstream objects an event in the downstream cluster wakes up. What one function
 writes into an object's labels and annotations is what another reads back.
*/
module Routing {
  import opened Options
  import opened MappedNamespace

  datatype Request = Request(cluster: string, namespace: string, name: string)

  /** Reading a key that is missing gives the empty string. */
  function Lookup(m: map<string, string>, k: string): string {
    if k in m then m[k] else ""
  }

  // ---------------------------------------------------------------- cluster names

  function TrimPrefix(s: string, prefix: string): string {
    if prefix <= s then s[|prefix|..] else s
  }

  function DecodedCluster(s: string): string {
    TrimPrefix(ReplaceAll(s, '_', '/'), "cluster-")
  }

  /** An encoded cluster name is read back exactly when it has no underscore, slashes and prefixes notwithstanding. */
  lemma ClusterNameRoundTrip(name: string)
    ensures DecodedCluster(EncodedCluster(name)) == name <==> '_' !in name
  {
  }

  // ---------------------------------------------------------------- owners

  /** The owner an object names, if it is of the group and kind looked for. */
  function OwnerRequests(group: string, kind: string, annotations: map<string, string>): set<Request> {
    if Lookup(annotations, KIND) == kind && Lookup(annotations, GROUP) == group then
      {Request(DecodedCluster(Lookup(annotations, CLUSTER_NAME)),
               Lookup(annotations, NAMESPACE), Lookup(annotations, NAME))}
    else {}
  }

  ghost predicate Enumerates(order: seq<Request>, reqs: set<Request>) {
    (forall i, j | 0 <= i < j < |order| :: order[i] != order[j]) && forall r :: r in order <==> r in reqs
  }

  class OwnerHandler {
    const group: string
    const kind: string
    var queue: seq<Request>

    constructor (group: string, kind: string)
      ensures this.group == group && this.kind == kind && queue == []
    {
      this.group, this.kind := group, kind;
      queue := [];
    }

    method GetOwnerReconcileRequest(annotations: map<string, string>, before: set<Request>) returns (result: set<Request>)
      ensures result == before + OwnerRequests(group, kind, annotations)
    {
      result := before;
      if Lookup(annotations, KIND) == kind && Lookup(annotations, GROUP) == group {
        var replaced := ReplaceAll(Lookup(annotations, CLUSTER_NAME), '_', '/');
        var request := Request(TrimPrefix(replaced, "cluster-"), Lookup(annotations, NAMESPACE), Lookup(annotations, NAME));
        result := result + {request};
      }
    }

    /** The requests are added in whatever order the map yields them. */
    method AddAll(reqs: set<Request>)
      modifies this
      ensures old(queue) <= queue && Enumerates(queue[|old(queue)|..], reqs)
    {
      ghost var order: seq<Request> := [];
      var left := reqs;
      while left != {}
        invariant queue == old(queue) + order
        invariant left <= reqs && Enumerates(order, reqs - left)
      {
        var req :| req in left;
        queue := queue + [req];
        order := order + [req];
        left := left - {req};
      }
      assert queue[|old(queue)|..] == order;
    }

    /** Creations, deletions and generic events. */
    method OnObject(annotations: map<string, string>)
      modifies this
      ensures old(queue) <= queue && Enumerates(queue[|old(queue)|..], OwnerRequests(group, kind, annotations))
    {
      var reqs := GetOwnerReconcileRequest(annotations, {});
      AddAll(reqs);
    }

    /** An update wakes up the old owner and the new one, once when they are the same. */
    method OnUpdate(before: map<string, string>, after: map<string, string>)
      modifies this
      ensures old(queue) <= queue
      ensures Enumerates(queue[|old(queue)|..],
        OwnerRequests(group, kind, before) + OwnerRequests(group, kind, after))
    {
      var reqs := GetOwnerReconcileRequest(before, {});
      reqs := GetOwnerReconcileRequest(after, reqs);
      AddAll(reqs);
    }
  }

  /**
   An event of any object tied to an owner wakes up exactly that owner, if it is of the
   kind looked for, and nobody otherwise. With an underscore in the cluster name the
   request goes to another cluster.
  */
  lemma OwnerIsWoken(c: Config, owner: Owner, anchor: nat, o: Object, group: string, kind: string)
    ensures var reqs := OwnerRequests(group, kind, Decorated(c, owner, anchor, o).annotations);
      if owner.group == group && owner.kind == kind then
        reqs == {Request(c.clusterName, owner.namespace, owner.name)} <==> '_' !in c.clusterName
      else reqs == {}
  {
    hide DecodedCluster, EncodedCluster;
    DecoratedLookup(c, owner, anchor, o);
    ClusterNameRoundTrip(c.clusterName);
    var decoded := DecodedCluster(EncodedCluster(c.clusterName));
    if owner.group == group && owner.kind == kind {
      var r := Request(decoded, owner.namespace, owner.name);
      assert OwnerRequests(group, kind, Decorated(c, owner, anchor, o).annotations) == {r};
      assert r in {r};
    }
  }

  lemma DecoratedLookup(c: Config, owner: Owner, anchor: nat, o: Object)
    ensures var a := Decorated(c, owner, anchor, o).annotations;
      && Lookup(a, CLUSTER_NAME) == EncodedCluster(c.clusterName)
      && Lookup(a, GROUP) == owner.group && Lookup(a, KIND) == owner.kind
      && Lookup(a, NAME) == owner.name && Lookup(a, NAMESPACE) == owner.namespace
  {
  }

  // ---------------------------------------------------------------- instances of a workload

  /** An upstream object as a list call returns it. */
  datatype Item = Item(namespace: string, name: string, labels: Labels)

  /** What the handler knows of the upstream: the clusters, each with its instances in some order. */
  type Upstream = map<string, seq<Item>>

  /** The metadata test, on what an object's annotations and labels give when looked up. */
  predicate Decent(annotations: map<string, string>, labels: Labels) {
    && Lookup(annotations, CLUSTER_NAME) != "" && Lookup(annotations, NAME) != ""
    && Lookup(annotations, NAMESPACE) != "" && Lookup(labels, WORKLOAD_UID) != ""
  }

  predicate BelongsTo(i: Item, namespace: string, uid: string) {
    i.namespace == namespace && WORKLOAD_UID in i.labels && i.labels[WORKLOAD_UID] == uid
  }

  function Requests(cluster: string, items: seq<Item>, namespace: string, uid: string): seq<Request> {
    if items == [] then []
    else
      var last := items[|items| - 1];
      Requests(cluster, items[..|items| - 1], namespace, uid)
      + (if BelongsTo(last, namespace, uid) then [Request(cluster, namespace, last.name)] else [])
  }

  function WorkloadRequests(annotations: Option<map<string, string>>, labels: Option<Labels>, upstream: Upstream,
      reachable: bool): seq<Request>
  {
    if annotations.None? || labels.None? || !Decent(annotations.value, labels.value) then []
    else
      var cluster := Lookup(annotations.value, CLUSTER_NAME);
      if cluster !in upstream || !reachable then []
      else
        Requests(cluster, upstream[cluster], Lookup(annotations.value, NAMESPACE), Lookup(labels.value, WORKLOAD_UID))
  }

  /** The map function; `reachable` says whether the list call succeeds. */
  method EnqueueInstances(annotations: Option<map<string, string>>, labels: Option<Labels>, upstream: Upstream,
      reachable: bool) returns (requests: seq<Request>)
    ensures requests == WorkloadRequests(annotations, labels, upstream, reachable)
  {
    requests := [];
    if annotations.None? {
      return;
    }
    if labels.None? {
      return;
    }
    var upstreamClusterName := Lookup(annotations.value, CLUSTER_NAME);
    var upstreamName := Lookup(annotations.value, NAME);
    var upstreamNamespace := Lookup(annotations.value, NAMESPACE);
    var workloadUid := Lookup(labels.value, WORKLOAD_UID);
    if upstreamClusterName == "" || upstreamName == "" || upstreamNamespace == "" || workloadUid == "" {
      return;
    }
    if upstreamClusterName !in upstream || !reachable {
      return;
    }
    var items := upstream[upstreamClusterName];
    for i := 0 to |items|
      invariant requests == Requests(upstreamClusterName, items[..i], upstreamNamespace, workloadUid)
    {
      assert items[..i + 1][..i] == items[..i];
      if BelongsTo(items[i], upstreamNamespace, workloadUid) {
        requests := requests + [Request(upstreamClusterName, items[i].namespace, items[i].name)];
      }
    }
    assert items[..|items|] == items;
  }

  /** In any order of listing, the requests are for the instances that belong to the workload and for nobody else. */
  lemma {:induction false} RequestsExactly(cluster: string, items: seq<Item>, namespace: string, uid: string, r: Request)
    ensures r in Requests(cluster, items, namespace, uid) <==>
      r.cluster == cluster && r.namespace == namespace
      && exists i :: 0 <= i < |items| && items[i].namespace == namespace && items[i].name == r.name
           && WORKLOAD_UID in items[i].labels && items[i].labels[WORKLOAD_UID] == uid
  {
    if items != [] {
      var last := |items| - 1;
      RequestsExactly(cluster, items[..last], namespace, uid, r);
      assert items == items[..last] + [items[last]];
    }
  }

  /** What the instance controller writes into a service account, a secret and a secret version. */
  function WorkloadAnnotations(cluster: string, workload: Owner): map<string, string> {
    map[NAME := workload.name, NAMESPACE := workload.namespace, CLUSTER_NAME := cluster]
  }

  function WorkloadLabels(workload: Owner): Labels {
    map[WORKLOAD_UID := workload.uid]
  }

  /** Nothing that routing needs is empty; the API server guarantees this for everything but the cluster. */
  predicate Routable(cluster: string, workload: Owner) {
    cluster != "" && workload.name != "" && workload.namespace != "" && workload.uid != ""
  }

  /**
   Whatever is created for a workload through the mapped client can be routed to that
   workload's instances exactly when the cluster, name, namespace and UID are there and the
   managed labels do not replace the workload's.
  */
  lemma CreatedIsRoutable(c: Config, s: Store, k: Key, cluster: string, workload: Owner)
    requires Create(c, s, k, Object(0, WorkloadLabels(workload), WorkloadAnnotations(cluster, workload), map[])).ok
    ensures var o := Create(c, s, k,
        Object(0, WorkloadLabels(workload), WorkloadAnnotations(cluster, workload), map[])).store.objects[k];
      && ((Decent(o.annotations, o.labels) && Lookup(o.labels, WORKLOAD_UID) == workload.uid) <==>
            (Routable(cluster, workload) && (WORKLOAD_UID in c.managed ==> c.managed[WORKLOAD_UID] == workload.uid)))
      && Lookup(o.annotations, CLUSTER_NAME) == cluster && Lookup(o.annotations, NAMESPACE) == workload.namespace
  {
  }

  /** A secret version found on a later pass is decorated again, and then routes whatever it carried before. */
  lemma MutatedIsRoutable(o: Object, cluster: string, workload: Owner)
    ensures var a := o.annotations + WorkloadAnnotations(cluster, workload);
      var l := o.labels + WorkloadLabels(workload);
      && (Decent(a, l) <==> Routable(cluster, workload))
      && Lookup(l, WORKLOAD_UID) == workload.uid
      && Lookup(a, CLUSTER_NAME) == cluster && Lookup(a, NAMESPACE) == workload.namespace
  {
  }

  /**
   So an event of anything that carries a workload's metadata wakes up the instances with
   the workload's label in the workload's namespace and cluster, all of them and nobody else;
   nothing happens when part of the metadata is missing or the cluster cannot be listed.
  */
  lemma WorkloadEventWakesItsInstances(annotations: Option<map<string, string>>, labels: Option<Labels>,
      upstream: Upstream, reachable: bool, r: Request)
    ensures r in WorkloadRequests(annotations, labels, upstream, reachable) <==>
      && annotations.Some? && labels.Some? && reachable && Lookup(annotations.value, NAME) != ""
      && r.cluster == Lookup(annotations.value, CLUSTER_NAME) != "" && r.cluster in upstream
      && r.namespace == Lookup(annotations.value, NAMESPACE) != ""
      && Lookup(labels.value, WORKLOAD_UID) != ""
      && exists i :: 0 <= i < |upstream[r.cluster]|
           && upstream[r.cluster][i].namespace == r.namespace && upstream[r.cluster][i].name == r.name
           && WORKLOAD_UID in upstream[r.cluster][i].labels
           && upstream[r.cluster][i].labels[WORKLOAD_UID] == Lookup(labels.value, WORKLOAD_UID)
  {
    if annotations.Some? && labels.Some? {
      var cluster := Lookup(annotations.value, CLUSTER_NAME);
      if cluster in upstream {
        RequestsExactly(cluster, upstream[cluster], Lookup(annotations.value, NAMESPACE), Lookup(labels.value, WORKLOAD_UID), r);
      }
    }
  }

  // ---------------------------------------------------------------- instances

  function InstanceRequests(annotations: map<string, string>): seq<Request> {
    if Lookup(annotations, CLUSTER_NAME) == "" || Lookup(annotations, NAME) == ""
      || Lookup(annotations, NAMESPACE) == "" then []
    else [Request(Lookup(annotations, CLUSTER_NAME), Lookup(annotations, NAMESPACE), Lookup(annotations, NAME))]
  }

  /** The map function for downstream instances. */
  method EnqueueInstance(annotations: map<string, string>) returns (requests: seq<Request>)
    ensures requests == InstanceRequests(annotations)
  {
    var upstreamClusterName := Lookup(annotations, CLUSTER_NAME);
    var upstreamName := Lookup(annotations, NAME);
    var upstreamNamespace := Lookup(annotations, NAMESPACE);
    if upstreamClusterName == "" || upstreamName == "" || upstreamNamespace == "" {
      return [];
    }
    requests := [Request(upstreamClusterName, upstreamNamespace, upstreamName)];
  }

  /** An instance's resource wakes up its instance and no other, unless the cluster has no name. */
  lemma InstanceIsWoken(before: map<string, string>, cluster: string, instance: Owner)
    requires instance.name != "" && instance.namespace != ""
    ensures InstanceRequests(before + WorkloadAnnotations(cluster, instance)) ==
      if cluster != "" then [Request(cluster, instance.namespace, instance.name)] else []
  {
  }

  // ---------------------------------------------------------------- network contexts

  /** A network context; `controller` is the UID of its controlling owner. */
  datatype Context = Context(namespace: string, name: string, controller: Option<string>)

  /** The name of the downstream network. */
  function NetworkName(uid: string): string {
    "network-" + uid
  }

  function NetworkUidIndex(context: Context): seq<string> {
    if context.controller.Some? then [NetworkName(context.controller.value)] else []
  }

  /** A context is in the index bucket of a network's name exactly when that network controls it. */
  lemma BucketExactly(context: Context, uid: string)
    ensures NetworkName(uid) in NetworkUidIndex(context) <==> context.controller == Some(uid)
  {
    if context.controller.Some? && NetworkName(uid) == NetworkName(context.controller.value) {
      var n := |"network-"|;
      assert uid == NetworkName(uid)[n..] && context.controller.value == NetworkName(context.controller.value)[n..];
    }
  }

  /** The map function for downstream networks; the contexts come in the order of the list call. */
  method EnqueueContexts(network: string, annotations: map<string, string>, upstream: map<string, seq<Context>>,
      reachable: bool) returns (requests: seq<Request>)
    ensures var cluster := Lookup(annotations, CLUSTER_NAME);
      forall r :: r in requests <==>
        && cluster != "" && cluster in upstream && reachable && r.cluster == cluster
        && exists i :: 0 <= i < |upstream[cluster]| && network in NetworkUidIndex(upstream[cluster][i])
             && upstream[cluster][i].namespace == r.namespace && upstream[cluster][i].name == r.name
  {
    requests := [];
    var upstreamClusterName := Lookup(annotations, CLUSTER_NAME);
    if upstreamClusterName == "" || upstreamClusterName !in upstream || !reachable {
      return;
    }
    var contexts := upstream[upstreamClusterName];
    for j := 0 to |contexts|
      invariant forall r :: r in requests <==>
        && r.cluster == upstreamClusterName
        && exists i :: 0 <= i < j && network in NetworkUidIndex(contexts[i])
             && contexts[i].namespace == r.namespace && contexts[i].name == r.name
    {
      if network in NetworkUidIndex(contexts[j]) {
        requests := requests + [Request(upstreamClusterName, contexts[j].namespace, contexts[j].name)];
      }
    }
  }
}
