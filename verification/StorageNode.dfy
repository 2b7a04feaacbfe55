/**
  `storage_node_controller.go` as it is written: a node fetched into memory, its
  status changed step by step, and written back only at the end. Each method is
  proved against the function of `StorageNodeSpec` that it carries out.
 */
module StorageNode {
  import opened Options
  import opened StorageNodeSpec

  /** The stored object. */
  class ApiServer {
    var stored: Option<Node>

    constructor (obj: Option<Node>)
      ensures stored == obj
    {
      stored := obj;
    }

    /** `Update` writes metadata and leaves the status alone. */
    method Update(node: StorageNode, ok: bool) returns (err: bool)
      requires stored.Some?
      modifies this
      ensures err == !ok
      ensures stored == if ok then Settle(old(stored).value.(finalizers := node.finalizers)) else old(stored)
    {
      if ok {
        stored := Settle(stored.value.(finalizers := node.finalizers));
      }
      err := !ok;
    }

    /** `Status().Update` writes the status and leaves the metadata alone. */
    method UpdateStatus(node: StorageNode, ok: bool) returns (err: bool)
      requires stored.Some?
      modifies this
      ensures err == !ok
      ensures stored == if ok then Some(old(stored).value.(status := node.status)) else old(stored)
    {
      if ok {
        stored := Some(stored.value.(status := node.status));
      }
      err := !ok;
    }
  }

  /** The copy in memory. */
  class StorageNode {
    var status: Status
    var finalizers: seq<string>
    const annotations: Annotations
    const deleting: bool

    constructor (n: Node)
      ensures status == n.status && finalizers == n.finalizers
      ensures annotations == n.annotations && deleting == n.deleting
    {
      status, finalizers, annotations, deleting := n.status, n.finalizers, n.annotations, n.deleting;
    }
  }

  method AreAllInstancesReady(instances: seq<Instance>) returns (ready: bool)
    ensures ready == AllInstancesReady(instances)
  {
    if |instances| == 0 {
      return false;
    }
    for i := 0 to |instances|
      invariant forall j :: 0 <= j < i ==> instances[j].status == "available"
    {
      if instances[i].status != "available" {
        return false;
      }
    }
    ready := true;
  }

  method DesiredState(status: Status) returns (desired: Status)
    ensures desired == ComputeDesiredState(status)
  {
    desired := status;
    if status.phase.Deleting? {
      if status.cluster.status == "" && |status.instances| == 0 {
        desired := desired.(phase := DeleteComplete);
      }
    } else {
      var ready := AreAllInstancesReady(status.instances);
      desired := desired.(phase := if (status.cluster.status == "" || status.cluster.status == "available") && ready
                                   then Ready else NotReady);
    }
  }

  method FilterFinalizers(finalizers: seq<string>, name: string) returns (kept: seq<string>)
    ensures kept == Without(finalizers, name)
  {
    hide Without;
    kept := [];
    WithoutNone(name);
    for i := 0 to |finalizers|
      invariant kept == Without(finalizers[..i], name)
    {
      WithoutAppend(finalizers[..i], finalizers[i], name);
      assert finalizers[..i + 1] == finalizers[..i] + [finalizers[i]];
      if finalizers[i] != name {
        kept := kept + [finalizers[i]];
      }
    }
    assert finalizers[..|finalizers|] == finalizers;
  }

  method UpdateInstanceStatus(node: StorageNode, instance: Lookup<Instance>)
    modifies node`status
    ensures node.status == InstanceStatus(old(node.status), instance)
  {
    var instances := [];
    if instance.Found? {
      instances := instances + [instance.value];
    }
    node.status := node.status.(instances := instances);
  }

  /** The cluster is assigned even if the instances cannot be fetched; the caller then gives up. */
  method UpdateClusterStatus(node: StorageNode, cluster: Lookup<Cluster>, w: World) returns (err: bool)
    modifies node`status
    ensures err == ClusterStatus(old(node.status), cluster, w.members).None?
    ensures !err ==> Some(node.status) == ClusterStatus(old(node.status), cluster, w.members)
  {
    var clusterStatus := NO_CLUSTER;
    if cluster.Found? {
      clusterStatus := cluster.value;
    }
    node.status := node.status.(cluster := clusterStatus);
    if w.members.None? {
      return true;
    }
    node.status := node.status.(instances := w.members.value);
    err := false;
  }

  method DeleteDatabaseCluster(p: Provisioner, node: StorageNode, w: World) returns (err: bool)
    modifies node`status
    ensures err == DeleteDatabase(p, old(node.status), node.annotations, w).None?
    ensures !err ==> Some(node.status) == DeleteDatabase(p, old(node.status), node.annotations, w)
  {
    if p.RdsInstance? {
      if node.annotations.instanceId == "" {
        return false;
      }
      if w.instance.Failed? || (w.instance.Found? && w.instance.value.status != "deleting" && !w.deleteOk) {
        return true;
      }
      UpdateInstanceStatus(node, w.instance);
      err := false;
    } else if p.RdsCluster? || p.Aurora? {
      if node.annotations.clusterId == "" {
        return false;
      }
      if w.cluster.Failed? || (w.cluster.Found? && w.cluster.value.status != "deleting" && !w.deleteOk) {
        return true;
      }
      err := UpdateClusterStatus(node, w.cluster, w);
    } else {
      err := true;
    }
  }

  method UnregisterStorageUnit(node: StorageNode, w: World) returns (err: bool)
    modifies node`status
    ensures err == Unregister(old(node.status), node.annotations, w).None?
    ensures !err ==> Some(node.status) == Unregister(old(node.status), node.annotations, w)
  {
    if !node.status.registered {
      return false;
    }
    if !node.annotations.computeNode || !w.serverOk || !w.unregisterOk {
      return true;
    }
    node.status := node.status.(registered := false);
    err := false;
  }

  method RegisterStorageUnit(node: StorageNode, w: World) returns (err: bool)
    modifies node`status
    ensures err == Register(old(node.status), node.annotations, w).None?
    ensures !err ==> Some(node.status) == Register(old(node.status), node.annotations, w)
  {
    if !node.annotations.register {
      return false;
    }
    if !node.annotations.computeNode {
      return true;
    }
    if node.status.registered {
      return false;
    }
    if !node.status.phase.Ready? {
      return false;
    }
    if !w.serverOk || !w.databaseOk || (node.status.cluster.status == "" && |node.status.instances| == 0) || !w.registerOk {
      return true;
    }
    node.status := node.status.(registered := true);
    err := false;
  }

  method ReconcileProvider(p: Provisioner, node: StorageNode, w: World) returns (err: bool)
    modifies node`status
    ensures err == ReconcileDatabase(p, old(node.status), w).None?
    ensures !err ==> Some(node.status) == ReconcileDatabase(p, old(node.status), w)
  {
    if p.RdsInstance? {
      var instance := w.instance;
      if instance.Failed? {
        return true;
      }
      if instance.Absent? && !node.status.phase.Deleting? {
        if !w.createOk {
          return true;
        }
        instance := w.instanceAgain;
        if instance.Failed? {
          return true;
        }
      }
      UpdateInstanceStatus(node, instance);
      err := false;
    } else if p.RdsCluster? || p.Aurora? {
      var cluster := w.cluster;
      if cluster.Failed? {
        return true;
      }
      if cluster.Absent? {
        if !w.createOk {
          return true;
        }
        cluster := w.clusterAgain;
        if cluster.Failed? {
          return true;
        }
      }
      err := UpdateClusterStatus(node, cluster, w);
    } else {
      err := true;
    }
  }

  method FinalizeNode(api: ApiServer, p: Provisioner, node: StorageNode, w: World)
    requires api.stored.Some? && api.stored.value.status == node.status && api.stored.value.finalizers == node.finalizers
    requires api.stored.value.annotations == node.annotations
    modifies api, node
    ensures api.stored == Finalize(p, old(api.stored).value, w)
  {
    hide ComputeDesiredState, DeleteDatabase, Unregister;
    var err: bool;
    match node.status.phase {
      case Ready => node.status := node.status.(phase := Deleting);
      case NotReady => node.status := node.status.(phase := Deleting);
      case DeleteComplete =>
        node.finalizers := FilterFinalizers(node.finalizers, FINALIZER);
        err := api.Update(node, w.updateOk);
        return;
      case _ =>
    }
    err := UnregisterStorageUnit(node, w);
    if err {
      return;
    }
    err := DeleteDatabaseCluster(p, node, w);
    if err {
      return;
    }
    node.status := DesiredState(node.status);
    err := api.UpdateStatus(node, w.statusOk);
  }

  method ReconcileStatus(api: ApiServer, p: Provisioner, node: StorageNode, w: World)
    requires api.stored.Some? && api.stored.value.status == node.status && api.stored.value.annotations == node.annotations
    modifies api, node
    ensures api.stored == Some(ReconcileNode(p, old(api.stored).value, w))
  {
    var err := ReconcileProvider(p, node, w);
    if err {
      return;
    }
    err := RegisterStorageUnit(node, w);
    if err {
      return;
    }
    node.status := DesiredState(node.status);
    err := api.UpdateStatus(node, w.statusOk);
  }

  /** One call of the controller on whatever is stored. */
  method ReconcileRequest(api: ApiServer, p: Provisioner, w: World)
    modifies api
    ensures api.stored == Apply(p, old(api.stored), Controller(w))
  {
    if api.stored.None? || !w.getOk || !w.providerOk {
      return;
    }
    var node := new StorageNode(api.stored.value);
    if !node.deleting {
      if FINALIZER !in node.finalizers {
        node.finalizers := node.finalizers + [FINALIZER];
        var err := api.Update(node, w.updateOk);
        if err {
          return;
        }
      }
    } else if FINALIZER in node.finalizers {
      FinalizeNode(api, p, node, w);
      return;
    }
    ReconcileStatus(api, p, node, w);
  }
}
