/**
  The life of a StorageNode under `storage_node_controller.go`, on values: what one
  call of `Reconcile` makes of the stored object, for any outcome of the calls it
  makes to AWS, to ShardingSphere and to the API server.

  `World` holds those outcomes. A call that returns early writes nothing, so its
  result here is the stored object as it was.
 */
module StorageNodeSpec {
  import opened Options

  /** The AWS provisioners; any other but CloudNativePG is unsupported. */
  datatype Provisioner = RdsInstance | RdsCluster | Aurora | Unsupported

  datatype Phase = Unset | Ready | NotReady | Deleting | DeleteComplete

  datatype Endpoint = Endpoint(address: string, port: int)

  datatype Instance = Instance(status: string, endpoint: Endpoint)

  datatype Cluster = Cluster(status: string, primary: Endpoint, readers: seq<Endpoint>)

  const NO_CLUSTER := Cluster("", Endpoint("", 0), [])

  datatype Status = Status(phase: Phase, cluster: Cluster, instances: seq<Instance>, registered: bool)

  const NO_STATUS := Status(Unset, NO_CLUSTER, [], false)

  /** The annotations the controller reads; an absent identifier is the empty string. */
  datatype Annotations = Annotations(instanceId: string, clusterId: string, register: bool, computeNode: bool)

  datatype Node = Node(status: Status, annotations: Annotations, deleting: bool, finalizers: seq<string>)

  const FINALIZER := "shardingsphere.apache.org/finalizer"

  /** What AWS says about a resource. */
  datatype Lookup<T> = Failed | Absent | Found(value: T)

  datatype World = World(
    getOk: bool, providerOk: bool, updateOk: bool, statusOk: bool,
    instance: Lookup<Instance>, instanceAgain: Lookup<Instance>,
    cluster: Lookup<Cluster>, clusterAgain: Lookup<Cluster>, members: Option<seq<Instance>>,
    createOk: bool, deleteOk: bool,
    serverOk: bool, databaseOk: bool, registerOk: bool, unregisterOk: bool)

  // ---------- Pieces of a call; None is an error return ----------

  function InstanceStatus(st: Status, found: Lookup<Instance>): Status {
    st.(instances := if found.Found? then [found.value] else [])
  }

  function ClusterStatus(st: Status, found: Lookup<Cluster>, members: Option<seq<Instance>>): Option<Status> {
    match members
    case None => None
    case Some(instances) => Some(st.(cluster := if found.Found? then found.value else NO_CLUSTER, instances := instances))
  }

  function ReconcileInstance(st: Status, w: World): Option<Status> {
    if w.instance.Failed? then None
    else if w.instance.Absent? && !st.phase.Deleting? then
      if !w.createOk || w.instanceAgain.Failed? then None else Some(InstanceStatus(st, w.instanceAgain))
    else Some(InstanceStatus(st, w.instance))
  }

  function ReconcileCluster(st: Status, w: World): Option<Status> {
    if w.cluster.Failed? then None
    else if w.cluster.Absent? then
      if !w.createOk || w.clusterAgain.Failed? then None else ClusterStatus(st, w.clusterAgain, w.members)
    else ClusterStatus(st, w.cluster, w.members)
  }

  function DeleteInstance(st: Status, a: Annotations, w: World): Option<Status> {
    if a.instanceId == "" then Some(st)
    else if w.instance.Failed? then None
    else if w.instance.Found? && w.instance.value.status != "deleting" && !w.deleteOk then None
    else Some(InstanceStatus(st, w.instance))
  }

  /** `deleteAWSRDSCluster` and `deleteAWSAurora` differ only in the client calls. */
  function DeleteCluster(st: Status, a: Annotations, w: World): Option<Status> {
    if a.clusterId == "" then Some(st)
    else if w.cluster.Failed? then None
    else if w.cluster.Found? && w.cluster.value.status != "deleting" && !w.deleteOk then None
    else ClusterStatus(st, w.cluster, w.members)
  }

  function DeleteDatabase(p: Provisioner, st: Status, a: Annotations, w: World): Option<Status> {
    match p
    case RdsInstance => DeleteInstance(st, a, w)
    case RdsCluster => DeleteCluster(st, a, w)
    case Aurora => DeleteCluster(st, a, w)
    case Unsupported => None
  }

  function Unregister(st: Status, a: Annotations, w: World): Option<Status> {
    if !st.registered then Some(st)
    else if !a.computeNode || !w.serverOk || !w.unregisterOk then None
    else Some(st.(registered := false))
  }

  /** A node without cluster and instances makes `Instances[0]` panic; nothing is written then either. */
  function Register(st: Status, a: Annotations, w: World): Option<Status> {
    if !a.register then Some(st)
    else if !a.computeNode then None
    else if st.registered || !st.phase.Ready? then Some(st)
    else if !w.serverOk || !w.databaseOk then None
    else if st.cluster.status == "" && st.instances == [] then None
    else if !w.registerOk then None
    else Some(st.(registered := true))
  }

  predicate AllInstancesReady(instances: seq<Instance>) {
    instances != [] && forall i :: 0 <= i < |instances| ==> instances[i].status == "available"
  }

  function ComputeDesiredState(st: Status): Status {
    if st.phase.Deleting? then
      if st.cluster.status == "" && st.instances == [] then st.(phase := DeleteComplete) else st
    else if (st.cluster.status == "" || st.cluster.status == "available") && AllInstancesReady(st.instances) then
      st.(phase := Ready)
    else st.(phase := NotReady)
  }

  // ---------- One call ----------

  function Without(finalizers: seq<string>, name: string): seq<string> {
    if finalizers == [] then []
    else (if finalizers[0] == name then [] else [finalizers[0]]) + Without(finalizers[1..], name)
  }

  lemma WithoutNone(name: string)
    ensures Without([], name) == []
  {
  }

  lemma {:induction false} WithoutAppend(a: seq<string>, x: string, name: string)
    ensures Without(a + [x], name) == if x == name then Without(a, name) else Without(a, name) + [x]
    decreases |a|
  {
    if a == [] {
      assert a + [x] == [x] && [x][1..] == [];
    } else {
      WithoutAppend(a[1..], x, name);
      assert (a + [x])[1..] == a[1..] + [x];
    }
  }

  /** The API server drops an object that is being deleted and has no finalizer left. */
  function Settle(n: Node): Option<Node> {
    if n.deleting && n.finalizers == [] then None else Some(n)
  }

  function WriteStatus(n: Node, st: Option<Status>, w: World): Node {
    if st.Some? && w.statusOk then n.(status := ComputeDesiredState(st.value)) else n
  }

  function BeginDelete(st: Status): Status {
    if st.phase.Ready? || st.phase.NotReady? then st.(phase := Deleting) else st
  }

  function Finalize(p: Provisioner, n: Node, w: World): Option<Node> {
    if n.status.phase.DeleteComplete? then
      if w.updateOk then Settle(n.(finalizers := Without(n.finalizers, FINALIZER))) else Some(n)
    else
      match Unregister(BeginDelete(n.status), n.annotations, w)
      case None => Some(n)
      case Some(st) => Some(WriteStatus(n, DeleteDatabase(p, st, n.annotations, w), w))
  }

  function ReconcileDatabase(p: Provisioner, st: Status, w: World): Option<Status> {
    match p
    case RdsInstance => ReconcileInstance(st, w)
    case RdsCluster => ReconcileCluster(st, w)
    case Aurora => ReconcileCluster(st, w)
    case Unsupported => None
  }

  function ReconcileNode(p: Provisioner, n: Node, w: World): Node {
    match ReconcileDatabase(p, n.status, w)
    case None => n
    case Some(st) => WriteStatus(n, Register(st, n.annotations, w), w)
  }

  function Reconcile(p: Provisioner, n: Node, w: World): Option<Node> {
    if !w.getOk || !w.providerOk then Some(n)
    else if !n.deleting then
      if FINALIZER in n.finalizers then Some(ReconcileNode(p, n, w))
      else if !w.updateOk then Some(n)
      else Some(ReconcileNode(p, n.(finalizers := n.finalizers + [FINALIZER]), w))
    else if FINALIZER in n.finalizers then Finalize(p, n, w)
    else Some(ReconcileNode(p, n, w))
  }

  // ---------- Runs ----------

  /** The controller, or a user who deletes the node or edits its annotations. */
  datatype Step = Controller(w: World) | Delete | Annotate(a: Annotations)

  function Apply(p: Provisioner, obj: Option<Node>, step: Step): Option<Node> {
    if obj.None? then None
    else match step
         case Controller(w) => Reconcile(p, obj.value, w)
         case Delete => Settle(obj.value.(deleting := true))
         case Annotate(a) => Some(obj.value.(annotations := a))
  }

  /** A run starts with a node as it is created, and no other controller adds finalizers. */
  ghost predicate IsRun(p: Provisioner, objs: seq<Option<Node>>, steps: seq<Step>) {
    && |objs| == |steps| + 1
    && objs[0].Some? && objs[0].value.status == NO_STATUS && !objs[0].value.deleting && objs[0].value.finalizers == []
    && forall i :: 0 <= i < |steps| ==> objs[i + 1] == Apply(p, objs[i], steps[i])
  }

  /** The status names no registration, no instance and no cluster. */
  predicate Emptied(st: Status) {
    !st.registered && st.instances == [] && st.cluster.status == ""
  }

  ghost predicate NodeInv(p: Provisioner, n: Node) {
    && (forall f :: f in n.finalizers ==> f == FINALIZER)
    && (n.deleting ==> FINALIZER in n.finalizers)
    && (n.status.phase.Deleting? || n.status.phase.DeleteComplete? ==> n.deleting)
    && (n.status.phase.DeleteComplete? ==> Emptied(n.status))
    && (p.RdsInstance? ==> n.status.cluster == NO_CLUSTER) && (p.Unsupported? ==> n.status == NO_STATUS)
  }

  ghost predicate Inv(p: Provisioner, obj: Option<Node>) {
    obj.Some? ==> NodeInv(p, obj.value)
  }

  lemma {:induction false} WithoutOnly(finalizers: seq<string>, name: string)
    requires forall f :: f in finalizers ==> f == name
    ensures Without(finalizers, name) == []
    decreases |finalizers|
  {
    if finalizers != [] {
      assert finalizers[0] in finalizers && forall f :: f in finalizers[1..] ==> f in finalizers;
      WithoutOnly(finalizers[1..], name);
    }
  }

  lemma FinalizeKeepsInv(p: Provisioner, n: Node, w: World)
    requires NodeInv(p, n) && n.deleting
    ensures Inv(p, Finalize(p, n, w))
  {
    if n.status.phase.DeleteComplete? {
      WithoutOnly(n.finalizers, FINALIZER);
    }
  }

  lemma ReconcileNodeKeepsInv(p: Provisioner, n: Node, w: World)
    requires NodeInv(p, n) && !n.deleting
    ensures NodeInv(p, ReconcileNode(p, n, w))
  {
  }

  lemma StepKeepsInv(p: Provisioner, obj: Option<Node>, step: Step)
    requires Inv(p, obj)
    ensures Inv(p, Apply(p, obj, step))
  {
    hide Finalize, ReconcileNode;
    if obj.Some? && step.Controller? {
      var n, w := obj.value, step.w;
      if n.deleting {
        FinalizeKeepsInv(p, n, w);
      } else {
        ReconcileNodeKeepsInv(p, n, w);
        ReconcileNodeKeepsInv(p, n.(finalizers := n.finalizers + [FINALIZER]), w);
      }
    } else if obj.Some? && step.Delete? {
      var n := obj.value;
      if n.finalizers != [] {
        assert n.finalizers[0] in n.finalizers;
      }
    }
  }

  lemma {:induction false} RunKeepsInv(p: Provisioner, objs: seq<Option<Node>>, steps: seq<Step>, i: nat)
    requires IsRun(p, objs, steps) && i < |objs|
    ensures Inv(p, objs[i])
  {
    hide Apply;
    if i > 0 {
      RunKeepsInv(p, objs, steps, i - 1);
      StepKeepsInv(p, objs[i - 1], steps[i - 1]);
    }
  }

  /** Whatever fails on the way, a stored DeleteComplete comes with an emptied status. */
  lemma DeleteCompleteMeansEmptied(p: Provisioner, objs: seq<Option<Node>>, steps: seq<Step>, i: nat)
    requires IsRun(p, objs, steps) && i < |objs| && objs[i].Some? && objs[i].value.status.phase.DeleteComplete?
    ensures Emptied(objs[i].value.status) && objs[i].value.deleting
  {
    hide Apply;
    RunKeepsInv(p, objs, steps, i);
  }

  /** A step of the controller takes its finalizer off only a stored DeleteComplete. */
  lemma FinalizerOnlyOffWhenComplete(p: Provisioner, n: Node, w: World)
    requires FINALIZER in n.finalizers
    requires Reconcile(p, n, w).None? || FINALIZER !in Reconcile(p, n, w).value.finalizers
    ensures n.status.phase.DeleteComplete?
  {
  }

  /** So an object that had the finalizer disappears only with an emptied status. */
  lemma GoneOnlyWhenEmptied(p: Provisioner, objs: seq<Option<Node>>, steps: seq<Step>, i: nat)
    requires IsRun(p, objs, steps) && i < |steps|
    requires objs[i].Some? && FINALIZER in objs[i].value.finalizers && objs[i + 1].None?
    ensures steps[i].Controller? && objs[i].value.status.phase.DeleteComplete? && Emptied(objs[i].value.status)
  {
    hide Reconcile;
    RunKeepsInv(p, objs, steps, i);
    assert objs[i + 1] == Apply(p, objs[i], steps[i]);
    if steps[i].Controller? {
      FinalizerOnlyOffWhenComplete(p, objs[i].value, steps[i].w);
    }
  }

  // ---------- What the phases and the registration say ----------

  /** A stored Ready comes with instances that are all available, and no unavailable cluster. */
  ghost predicate ReadyHonest(obj: Option<Node>) {
    obj.Some? && obj.value.status.phase.Ready? ==>
      var st := obj.value.status;
      AllInstancesReady(st.instances) && (st.cluster.status == "" || st.cluster.status == "available")
  }

  lemma {:induction false} ReadyMeansAvailable(p: Provisioner, objs: seq<Option<Node>>, steps: seq<Step>, i: nat)
    requires IsRun(p, objs, steps) && i < |objs|
    ensures ReadyHonest(objs[i])
  {
    hide Apply, ReadyHonest;
    if i > 0 {
      ReadyMeansAvailable(p, objs, steps, i - 1);
      StepKeepsReadyHonest(p, objs[i - 1], steps[i - 1]);
    } else {
      FirstIsHonest(objs[0]);
    }
  }

  lemma FirstIsHonest(obj: Option<Node>)
    requires obj.Some? && obj.value.status == NO_STATUS
    ensures ReadyHonest(obj)
  {
  }

  lemma StepKeepsReadyHonest(p: Provisioner, obj: Option<Node>, step: Step)
    requires ReadyHonest(obj)
    ensures ReadyHonest(Apply(p, obj, step))
  {
    hide AllInstancesReady, ReconcileDatabase, DeleteDatabase, Register, Unregister;
  }

  // ---------- What is stored is what was reported ----------

  /** The lookup succeeds; where nothing is found something is created, and looked up again. */
  predicate LookedUp<T>(first: Lookup<T>, createOk: bool, again: Lookup<T>) {
    !first.Failed? && (first.Absent? ==> createOk && !again.Failed?)
  }

  function Seen<T>(first: Lookup<T>, again: Lookup<T>): Lookup<T> {
    if first.Absent? then again else first
  }

  /** The cloud can be asked, and answers. */
  predicate Reports(p: Provisioner, w: World) {
    match p
    case Unsupported => false
    case RdsInstance => LookedUp(w.instance, w.createOk, w.instanceAgain)
    case _ => LookedUp(w.cluster, w.createOk, w.clusterAgain) && w.members.Some?
  }

  function ReportedInstances(p: Provisioner, w: World): seq<Instance> {
    if p.RdsInstance? then
      var found := Seen(w.instance, w.instanceAgain);
      if found.Found? then [found.value] else []
    else if w.members.Some? then w.members.value else []
  }

  function ReportedCluster(p: Provisioner, w: World): Cluster {
    var found := Seen(w.cluster, w.clusterAgain);
    if !p.RdsInstance? && found.Found? then found.value else NO_CLUSTER
  }

  /** All calls succeed that a step makes for a node that is not being deleted. */
  predicate Stores(p: Provisioner, n: Node, w: World) {
    && w.getOk && w.providerOk && w.statusOk && (FINALIZER in n.finalizers || w.updateOk) && Reports(p, w)
    && (n.annotations.register ==>
          && n.annotations.computeNode
          && (n.status.phase.Ready? && !n.status.registered ==>
                && w.serverOk && w.databaseOk && w.registerOk
                && (ReportedCluster(p, w).status != "" || ReportedInstances(p, w) != [])))
  }

  /** There is an instance, all are available, and so is the cluster if there is one. */
  predicate Available(cluster: Cluster, instances: seq<Instance>) {
    && instances != [] && (forall i :: 0 <= i < |instances| ==> instances[i].status == "available")
    && (cluster.status == "" || cluster.status == "available")
  }

  lemma DatabaseIsReported(p: Provisioner, st: Status, w: World)
    requires !st.phase.Deleting? && (p.RdsInstance? ==> st.cluster == NO_CLUSTER)
    ensures ReconcileDatabase(p, st, w) ==
            if Reports(p, w) then Some(st.(instances := ReportedInstances(p, w), cluster := ReportedCluster(p, w))) else None
  {
  }

  lemma DesiredIsAvailable(st: Status)
    requires !st.phase.Deleting?
    ensures ComputeDesiredState(st) == st.(phase := if Available(st.cluster, st.instances) then Ready else NotReady)
  {
  }

  lemma RegisterKeeps(st: Status, a: Annotations, w: World)
    ensures Register(st, a, w).Some? <==>
            (a.register ==>
               && a.computeNode
               && (st.phase.Ready? && !st.registered ==>
                     w.serverOk && w.databaseOk && w.registerOk && (st.cluster.status != "" || st.instances != [])))
    ensures Register(st, a, w).Some? ==>
              Register(st, a, w).value == st.(registered := st.registered || (a.register && st.phase.Ready?))
  {
  }

  lemma NodeIsReported(p: Provisioner, n: Node, w: World)
    requires !n.status.phase.Deleting? && (p.RdsInstance? ==> n.status.cluster == NO_CLUSTER) && FINALIZER in n.finalizers
    requires w.getOk && w.providerOk
    ensures var r := ReconcileNode(p, n, w);
            && r == n.(status := r.status)
            && if Stores(p, n, w) then
                 && r.status.instances == ReportedInstances(p, w) && r.status.cluster == ReportedCluster(p, w)
                 && r.status.phase == (if Available(ReportedCluster(p, w), ReportedInstances(p, w)) then Ready else NotReady)
                 && r.status.registered == (n.status.registered || (n.annotations.register && n.status.phase.Ready?))
               else r == n
  {
    hide ReconcileDatabase, ComputeDesiredState, Register, Reports, ReportedInstances, ReportedCluster, Available;
    DatabaseIsReported(p, n.status, w);
    if Reports(p, w) {
      var st := n.status.(instances := ReportedInstances(p, w), cluster := ReportedCluster(p, w));
      RegisterKeeps(st, n.annotations, w);
      if Register(st, n.annotations, w).Some? {
        DesiredIsAvailable(Register(st, n.annotations, w).value);
      }
    }
  }

  /**
    A step on a node that is not being deleted stores exactly what was reported to it, and
    Ready exactly if all of that is available; or it leaves the status alone.
   */
  lemma StoredIsReported(p: Provisioner, n: Node, w: World)
    requires NodeInv(p, n) && !n.deleting
    ensures var r := Reconcile(p, n, w);
            && r.Some? && r.value.annotations == n.annotations && !r.value.deleting
            && if Stores(p, n, w) then
                 && r.value.status.instances == ReportedInstances(p, w) && r.value.status.cluster == ReportedCluster(p, w)
                 && r.value.status.phase == (if Available(ReportedCluster(p, w), ReportedInstances(p, w)) then Ready else NotReady)
                 && r.value.status.registered == (n.status.registered || (n.annotations.register && n.status.phase.Ready?))
               else r.value.status == n.status
    ensures Reconcile(p, n, w).value.finalizers ==
            if w.getOk && w.providerOk && FINALIZER !in n.finalizers && w.updateOk then n.finalizers + [FINALIZER] else n.finalizers
  {
    hide ReconcileNode, Reports, ReportedInstances, ReportedCluster, Available;
    if w.getOk && w.providerOk {
      if FINALIZER in n.finalizers {
        NodeIsReported(p, n, w);
      } else {
        var n' := n.(finalizers := n.finalizers + [FINALIZER]);
        assert n'.finalizers[|n.finalizers|] == FINALIZER;
        NodeIsReported(p, n', w);
      }
    }
  }

  /** A registered node still names the compute node to unregister from. */
  predicate CanUnregister(n: Node) {
    n.status.registered ==> n.annotations.computeNode
  }

  /** A step of deletion can be stored at all. */
  predicate CanProceed(p: Provisioner, n: Node) {
    !p.Unsupported? && CanUnregister(n)
  }

  /** The node names its resource, which deletion looks up. */
  predicate Identified(p: Provisioner, a: Annotations) {
    if p.RdsInstance? then a.instanceId != "" else a.clusterId != ""
  }

  /** All calls succeed that a step makes for a node that is being deleted. */
  predicate StoresDeletion(p: Provisioner, n: Node, w: World) {
    && w.getOk && w.providerOk && w.statusOk && CanProceed(p, n)
    && (n.status.registered ==> w.serverOk && w.unregisterOk)
    && (Identified(p, n.annotations) ==>
          if p.RdsInstance? then !w.instance.Failed? && (w.instance.Found? && w.instance.value.status != "deleting" ==> w.deleteOk)
          else
            && !w.cluster.Failed? && (w.cluster.Found? && w.cluster.value.status != "deleting" ==> w.deleteOk)
            && w.members.Some?)
  }

  /** What is recorded afterwards: what was reported, or the record as it was where nothing is looked up. */
  function LeftInstances(p: Provisioner, n: Node, w: World): seq<Instance> {
    if !Identified(p, n.annotations) then n.status.instances
    else if p.RdsInstance? then if w.instance.Found? then [w.instance.value] else []
    else if w.members.Some? then w.members.value else []
  }

  function LeftCluster(p: Provisioner, n: Node, w: World): Cluster {
    if p.RdsInstance? || !Identified(p, n.annotations) then n.status.cluster
    else if w.cluster.Found? then w.cluster.value else NO_CLUSTER
  }

  /** The same for a node that is being deleted; one that was never stored before begins like any other. */
  lemma DeletionIsReported(p: Provisioner, n: Node, w: World)
    requires NodeInv(p, n) && n.deleting && !n.status.phase.DeleteComplete?
    ensures var r, cluster, instances := Reconcile(p, n, w), LeftCluster(p, n, w), LeftInstances(p, n, w);
            if StoresDeletion(p, n, w) then
              var phase := if n.status.phase.Unset? then (if Available(cluster, instances) then Ready else NotReady)
                           else if cluster.status == "" && instances == [] then DeleteComplete else Deleting;
              r == Some(n.(status := Status(phase, cluster, instances, false)))
            else r == Some(n)
  {
  }

  /**
    A step sets Registered exactly if the node asks for it, is stored as Ready and not
    being deleted, and every call on the way succeeds.
   */
  predicate Registers(p: Provisioner, n: Node, w: World) {
    !n.deleting && n.status.phase.Ready? && n.annotations.register && Stores(p, n, w)
  }

  /** A step clears it exactly while the node is deleted, if every call on the way succeeds. */
  predicate Unregisters(p: Provisioner, n: Node, w: World) {
    n.deleting && StoresDeletion(p, n, w)
  }

  predicate Registered(obj: Option<Node>) {
    obj.Some? && obj.value.status.registered
  }

  lemma RegistrationChanges(p: Provisioner, n: Node, w: World)
    requires NodeInv(p, n)
    ensures !n.status.registered ==> (Registered(Reconcile(p, n, w)) <==> Registers(p, n, w))
    ensures n.status.registered ==> (!Registered(Reconcile(p, n, w)) <==> Unregisters(p, n, w))
  {
    hide Reconcile, Stores, StoresDeletion;
    if !n.deleting {
      StoredIsReported(p, n, w);
    } else if n.status.phase.DeleteComplete? {
      CompleteStep(p, n, w);
    } else {
      DeletionIsReported(p, n, w);
    }
  }

  /** A node that is complete only loses its finalizer. */
  lemma CompleteStep(p: Provisioner, n: Node, w: World)
    requires NodeInv(p, n) && n.status.phase.DeleteComplete?
    ensures Reconcile(p, n, w) == if w.getOk && w.providerOk && w.updateOk then None else Some(n)
  {
    WithoutOnly(n.finalizers, FINALIZER);
  }

  // ---------- What DeleteComplete rests on ----------

  /** The node names no resource any more, or the cloud reports that it has none. */
  predicate NothingReported(p: Provisioner, n: Node, w: World) {
    match p
    case RdsInstance => if n.annotations.instanceId == "" then n.status.instances == [] else w.instance.Absent?
    case Unsupported => false
    case _ =>
      if n.annotations.clusterId == "" then n.status.instances == [] && n.status.cluster.status == ""
      else
        && (w.cluster.Absent? || (w.cluster.Found? && w.cluster.value.status == "" && w.deleteOk))
        && w.members == Some([])
  }

  /**
    Exactly when a step stores DeleteComplete: deletion has begun, the storage unit is
    unregistered, the status can be written, and nothing is reported.
   */
  lemma DeleteCompleteExact(p: Provisioner, n: Node, w: World)
    requires NodeInv(p, n) && !n.status.phase.DeleteComplete?
    ensures var r := Reconcile(p, n, w);
            r.Some? && r.value.status.phase.DeleteComplete? <==>
            && n.deleting && !n.status.phase.Unset? && w.getOk && w.providerOk && w.statusOk
            && (n.status.registered ==> n.annotations.computeNode && w.serverOk && w.unregisterOk)
            && NothingReported(p, n, w)
  {
    hide AllInstancesReady, ReconcileNode;
    if !n.deleting {
      ReconcileNeverCompletes(p, n, w);
      ReconcileNeverCompletes(p, n.(finalizers := n.finalizers + [FINALIZER]), w);
    }
  }

  lemma ReconcileNeverCompletes(p: Provisioner, n: Node, w: World)
    requires !n.status.phase.DeleteComplete? && !n.status.phase.Deleting?
    ensures !ReconcileNode(p, n, w).status.phase.DeleteComplete?
  {
    hide AllInstancesReady;
  }

  /** In every run: a step that first stores DeleteComplete is the controller's, and nothing was reported to it. */
  lemma DeleteCompleteStep(p: Provisioner, objs: seq<Option<Node>>, steps: seq<Step>, i: nat)
    requires IsRun(p, objs, steps) && i < |steps| && objs[i].Some? && objs[i + 1].Some?
    requires !objs[i].value.status.phase.DeleteComplete? && objs[i + 1].value.status.phase.DeleteComplete?
    ensures steps[i].Controller? && NothingReported(p, objs[i].value, steps[i].w)
  {
    hide Reconcile, NothingReported;
    RunKeepsInv(p, objs, steps, i);
    assert objs[i + 1] == Apply(p, objs[i], steps[i]);
    if steps[i].Controller? {
      DeleteCompleteExact(p, objs[i].value, steps[i].w);
    }
  }

  // ---------- Deletion makes progress ----------

  /** Every call the controller makes succeeds. */
  predicate AllSucceed(p: Provisioner, w: World) {
    && w.getOk && w.providerOk && w.updateOk && w.statusOk && w.deleteOk && w.serverOk && w.unregisterOk
    && match p
       case RdsInstance => !w.instance.Failed?
       case Unsupported => true
       case _ => !w.cluster.Failed? && w.members.Some?
  }

  /** The cloud reports nothing of the node any more. */
  predicate CloudEmpty(p: Provisioner, w: World) {
    match p
    case RdsInstance => w.instance.Absent?
    case _ => w.cluster.Absent? && w.members == Some([])
  }

  /** The status records an instance or a cluster. */
  predicate Recorded(st: Status) {
    st.instances != [] || st.cluster.status != ""
  }

  /** Deletion can come to an end: its steps can be stored, and what the node records can be looked up. */
  predicate CanFinish(p: Provisioner, n: Node) {
    CanProceed(p, n) && (Identified(p, n.annotations) || !Recorded(n.status))
  }

  function Rank(obj: Option<Node>): nat {
    if obj.None? then 0
    else match obj.value.status.phase
         case Unset => 4
         case Ready => 3
         case NotReady => 3
         case Deleting => 2
         case DeleteComplete => 1
  }

  /**
    A registered node without those annotations stays as it is, whatever the calls return,
    and so does a node of an unsupported provisioner.
   */
  lemma Stuck(p: Provisioner, n: Node, w: World)
    requires NodeInv(p, n) && n.deleting && !CanProceed(p, n)
    ensures Reconcile(p, n, w) == Some(n)
  {
  }

  /** A node that records something it does not name keeps the record, whatever the calls return. */
  lemma KeepsRecord(p: Provisioner, n: Node, w: World)
    requires NodeInv(p, n) && n.deleting && !Identified(p, n.annotations) && Recorded(n.status)
    ensures var r := Reconcile(p, n, w);
            && r.Some? && r.value.deleting && r.value.annotations == n.annotations && !r.value.status.phase.DeleteComplete?
            && r.value.status.instances == n.status.instances && r.value.status.cluster == n.status.cluster
  {
    hide AllInstancesReady;
  }

  /**
    A successful step of a node that can proceed lowers the rank, or stays at
    Deleting while the cloud reports something, or while the node records something it
    does not name. Once the cloud reports nothing, exactly the nodes below are held up.
   */
  lemma FinalizeLowersRank(p: Provisioner, n: Node, w: World)
    requires NodeInv(p, n) && n.deleting && AllSucceed(p, w)
    ensures CanProceed(p, n) ==>
              || Rank(Reconcile(p, n, w)) < Rank(Some(n))
              || (&& n.status.phase.Deleting? && Rank(Reconcile(p, n, w)) == Rank(Some(n))
                  && if Identified(p, n.annotations) then !CloudEmpty(p, w) else Recorded(n.status))
    ensures CloudEmpty(p, w) ==>
              (Rank(Reconcile(p, n, w)) < Rank(Some(n)) <==>
               CanProceed(p, n) && (n.status.phase.Deleting? ==> CanFinish(p, n)))
  {
    hide AllInstancesReady;
    if n.status.phase.DeleteComplete? {
      WithoutOnly(n.finalizers, FINALIZER);
    }
    if !CanProceed(p, n) {
      Stuck(p, n, w);
    }
  }

  lemma FinishingStep(p: Provisioner, n: Node, w: World)
    requires NodeInv(p, n) && n.deleting && AllSucceed(p, w) && CloudEmpty(p, w) && CanFinish(p, n)
    ensures var r := Reconcile(p, n, w);
            match n.status.phase
            case Unset => r.Some? && r.value.status.phase.NotReady?
            case DeleteComplete => r.None?
            case _ => r.Some? && r.value.status.phase.DeleteComplete?
    ensures var r := Reconcile(p, n, w);
            r.Some? ==> r.value.deleting && Emptied(r.value.status) && r.value.annotations == n.annotations
  {
    if n.status.phase.DeleteComplete? {
      WithoutOnly(n.finalizers, FINALIZER);
    }
  }

  /** With an empty cloud the next phase of a node that can finish is known exactly; any other never completes. */
  lemma EmptyCloudStep(p: Provisioner, n: Node, w: World)
    requires NodeInv(p, n) && n.deleting && AllSucceed(p, w) && CloudEmpty(p, w)
    ensures var r := Reconcile(p, n, w);
            if !CanFinish(p, n) then r.Some? && !r.value.status.phase.DeleteComplete? && !CanFinish(p, r.value)
            else
              match n.status.phase
              case Unset => r.Some? && r.value.status.phase.NotReady?
              case DeleteComplete => r.None?
              case _ => r.Some? && r.value.status.phase.DeleteComplete?
    ensures var r := Reconcile(p, n, w);
            r.Some? ==> r.value.deleting && r.value.annotations == n.annotations && (CanFinish(p, n) ==> Emptied(r.value.status))
  {
    hide Reconcile, AllSucceed, CloudEmpty;
    if CanFinish(p, n) {
      FinishingStep(p, n, w);
    } else if CanProceed(p, n) {
      KeepsRecord(p, n, w);
    } else {
      Stuck(p, n, w);
    }
  }

  /**
    Once the cloud reports nothing, three successful calls remove the object exactly if its
    provisioner is supported, it can be unregistered, and it names its resource or records none.
   */
  lemma ThreeStepsSuffice(p: Provisioner, obj: Option<Node>, w1: World, w2: World, w3: World)
    requires obj.Some? && NodeInv(p, obj.value) && obj.value.deleting
    requires AllSucceed(p, w1) && CloudEmpty(p, w1) && AllSucceed(p, w2) && CloudEmpty(p, w2)
    requires AllSucceed(p, w3) && CloudEmpty(p, w3)
    ensures var o3 := Apply(p, Apply(p, Apply(p, obj, Controller(w1)), Controller(w2)), Controller(w3));
            o3.None? <==> CanFinish(p, obj.value)
  {
    hide Reconcile, AllSucceed, CloudEmpty, NodeInv, CanFinish;
    var o1 := Apply(p, obj, Controller(w1));
    var o2 := Apply(p, o1, Controller(w2));
    StepKeepsInv(p, obj, Controller(w1));
    StepKeepsInv(p, o1, Controller(w2));
    EmptyCloudStep(p, obj.value, w1);
    if o1.Some? {
      EmptiedFinishes(p, obj.value, o1.value);
      EmptyCloudStep(p, o1.value, w2);
      if o2.Some? {
        EmptiedFinishes(p, o1.value, o2.value);
        EmptyCloudStep(p, o2.value, w3);
      }
    }
  }

  lemma EmptiedFinishes(p: Provisioner, n: Node, n': Node)
    ensures CanFinish(p, n) && Emptied(n'.status) ==> CanFinish(p, n')
  {
  }

  lemma SameRecord(st: Status, st': Status)
    requires st'.instances == st.instances && st'.cluster == st.cluster
    ensures Recorded(st') <==> Recorded(st)
  {
  }

  /** Where no one edits the annotations, a node that is stuck stays so for the rest of the run. */
  lemma {:induction false} StuckForever(p: Provisioner, objs: seq<Option<Node>>, steps: seq<Step>, i: nat, j: nat)
    requires IsRun(p, objs, steps) && i <= j < |objs|
    requires objs[i].Some? && objs[i].value.deleting && !CanProceed(p, objs[i].value)
    requires forall k :: i <= k < j ==> !steps[k].Annotate?
    ensures objs[j] == objs[i]
    decreases j
  {
    hide Reconcile, NodeInv, CanProceed;
    if i < j {
      StuckForever(p, objs, steps, i, j - 1);
      RunKeepsInv(p, objs, steps, j - 1);
      assert objs[j] == Apply(p, objs[j - 1], steps[j - 1]);
      if steps[j - 1].Controller? {
        Stuck(p, objs[j - 1].value, steps[j - 1].w);
      } else {
        DeletingKeepsFinalizer(p, objs[j - 1].value);
      }
    }
  }

  /** Likewise a node that records something it does not name never reaches DeleteComplete. */
  lemma {:induction false} RecordedForever(p: Provisioner, objs: seq<Option<Node>>, steps: seq<Step>, i: nat, j: nat)
    requires IsRun(p, objs, steps) && i <= j < |objs|
    requires objs[i].Some? && objs[i].value.deleting
    requires !Identified(p, objs[i].value.annotations) && Recorded(objs[i].value.status)
    requires forall k :: i <= k < j ==> !steps[k].Annotate?
    ensures objs[j].Some? && objs[j].value.deleting && !objs[j].value.status.phase.DeleteComplete?
    ensures objs[j].value.annotations == objs[i].value.annotations && Recorded(objs[j].value.status)
    decreases j
  {
    hide Reconcile, NodeInv, Identified;
    RunKeepsInv(p, objs, steps, j);
    if i < j {
      RecordedForever(p, objs, steps, i, j - 1);
      RunKeepsInv(p, objs, steps, j - 1);
      assert objs[j] == Apply(p, objs[j - 1], steps[j - 1]);
      if steps[j - 1].Controller? {
        KeepsRecord(p, objs[j - 1].value, steps[j - 1].w);
        SameRecord(objs[j - 1].value.status, objs[j].value.status);
      } else {
        DeletingKeepsFinalizer(p, objs[j - 1].value);
      }
    } else {
      RecordedIsNotComplete(p, objs[i].value);
    }
  }

  lemma RecordedIsNotComplete(p: Provisioner, n: Node)
    requires NodeInv(p, n) && Recorded(n.status)
    ensures !n.status.phase.DeleteComplete?
  {
  }

  lemma DeletingKeepsFinalizer(p: Provisioner, n: Node)
    requires NodeInv(p, n) && n.deleting
    ensures n.finalizers != [] && n.(deleting := true) == n
  {
  }

  // ---------- Four runs ----------

  const SERVING := Instance("available", Endpoint("db", 3306))

  /** Everything succeeds and the instance is there. */
  const FINE := World(true, true, true, true, Found(SERVING), Found(SERVING), Absent, Absent, Some([]),
                      true, true, true, true, true, true)

  /** The instance is not there; it is created, and not yet visible at the second look. */
  const JUST_CREATED := FINE.(instance := Absent, instanceAgain := Absent)

  const NAMED := Annotations("id", "", true, true)

  function Created(a: Annotations): Node {
    Node(NO_STATUS, a, false, [])
  }

  /** The objects of a run, from a start and its steps. */
  function Objects(p: Provisioner, obj: Option<Node>, steps: seq<Step>): (objs: seq<Option<Node>>)
    ensures |objs| == |steps| + 1 && objs[0] == obj
    ensures forall i :: 0 <= i < |steps| ==> objs[i + 1] == Apply(p, objs[i], steps[i])
    decreases |steps|
  {
    if steps == [] then [obj]
    else
      var rest := Objects(p, Apply(p, obj, steps[0]), steps[1..]);
      assert forall i :: 0 < i < |steps| ==> steps[1..][i - 1] == steps[i] && ([obj] + rest)[i] == rest[i - 1];
      [obj] + rest
  }

  /** A node is registered, loses the annotations that name its compute node, and is deleted. */
  const STRANDED := [Controller(FINE), Controller(FINE), Annotate(NAMED.(computeNode := false)), Delete]

  lemma StrandedRun()
    ensures var objs := Objects(RdsInstance, Some(Created(NAMED)), STRANDED);
            && IsRun(RdsInstance, objs, STRANDED)
            && objs[4].Some? && objs[4].value.deleting && !CanProceed(RdsInstance, objs[4].value)
            && forall w :: Reconcile(RdsInstance, objs[4].value, w) == objs[4]
  {
    var objs := Objects(RdsInstance, Some(Created(NAMED)), STRANDED);
    StrandedSteps(objs);
    RunKeepsInv(RdsInstance, objs, STRANDED, 4);
    forall w
      ensures Reconcile(RdsInstance, objs[4].value, w) == objs[4]
    {
      Stuck(RdsInstance, objs[4].value, w);
    }
  }

  lemma StrandedSteps(objs: seq<Option<Node>>)
    requires objs == Objects(RdsInstance, Some(Created(NAMED)), STRANDED)
    ensures objs[4].Some? && objs[4].value.deleting && !CanUnregister(objs[4].value)
  {
    var st := NO_STATUS.(instances := [SERVING], phase := Ready);
    assert [] + [FINALIZER] == [FINALIZER];
    assert objs[1] == Apply(RdsInstance, objs[0], STRANDED[0]) == Some(Node(st, NAMED, false, [FINALIZER]));
    assert objs[2] == Apply(RdsInstance, objs[1], STRANDED[1]);
    assert objs[2] == Some(Node(st.(registered := true), NAMED, false, [FINALIZER]));
    assert objs[3] == Apply(RdsInstance, objs[2], STRANDED[2]);
    assert objs[4] == Apply(RdsInstance, objs[3], STRANDED[3]);
  }

  /** A node of an unsupported provisioner is given the finalizer all the same, and is deleted. */
  const UNSUPPORTED := [Controller(FINE), Delete]

  /** The finalizer will never be taken off. */
  lemma UnsupportedRun(a: Annotations)
    ensures var objs := Objects(Unsupported, Some(Created(a)), UNSUPPORTED);
            && IsRun(Unsupported, objs, UNSUPPORTED)
            && objs[2] == Some(Node(NO_STATUS, a, true, [FINALIZER]))
            && forall w :: Reconcile(Unsupported, objs[2].value, w) == objs[2]
  {
    var objs := Objects(Unsupported, Some(Created(a)), UNSUPPORTED);
    assert [] + [FINALIZER] == [FINALIZER];
    assert objs[1] == Apply(Unsupported, objs[0], UNSUPPORTED[0]) == Some(Node(NO_STATUS, a, false, [FINALIZER]));
    assert objs[2] == Apply(Unsupported, objs[1], UNSUPPORTED[1]);
    RunKeepsInv(Unsupported, objs, UNSUPPORTED, 2);
    forall w
      ensures Reconcile(Unsupported, objs[2].value, w) == objs[2]
    {
      Stuck(Unsupported, objs[2].value, w);
    }
  }

  /** The instance of a node is recorded, the node loses its identifier, and is deleted. */
  const UNNAMED := [Controller(FINE), Annotate(NAMED.(instanceId := "")), Delete]

  /** It can be unregistered, but no reconciliation will ever store DeleteComplete. */
  lemma UnnamedRun()
    ensures var objs := Objects(RdsInstance, Some(Created(NAMED)), UNNAMED);
            && IsRun(RdsInstance, objs, UNNAMED)
            && objs[3].Some? && objs[3].value.deleting && CanUnregister(objs[3].value) && !CanFinish(RdsInstance, objs[3].value)
            && forall w ::
                 var r := Reconcile(RdsInstance, objs[3].value, w);
                 r.Some? && !r.value.status.phase.DeleteComplete? && r.value.status.instances == [SERVING]
  {
    var objs := Objects(RdsInstance, Some(Created(NAMED)), UNNAMED);
    UnnamedSteps(objs);
    RunKeepsInv(RdsInstance, objs, UNNAMED, 3);
    forall w
      ensures var r := Reconcile(RdsInstance, objs[3].value, w);
              r.Some? && !r.value.status.phase.DeleteComplete? && r.value.status.instances == [SERVING]
    {
      KeepsRecord(RdsInstance, objs[3].value, w);
    }
  }

  lemma UnnamedSteps(objs: seq<Option<Node>>)
    requires objs == Objects(RdsInstance, Some(Created(NAMED)), UNNAMED)
    ensures objs[3].Some? && objs[3].value.deleting && !objs[3].value.status.registered
    ensures objs[3].value.status.instances == [SERVING] && objs[3].value.annotations.instanceId == ""
  {
    var st := NO_STATUS.(instances := [SERVING], phase := Ready);
    assert [] + [FINALIZER] == [FINALIZER];
    assert objs[1] == Apply(RdsInstance, objs[0], UNNAMED[0]) == Some(Node(st, NAMED, false, [FINALIZER]));
    assert objs[2] == Apply(RdsInstance, objs[1], UNNAMED[1]);
    assert objs[3] == Apply(RdsInstance, objs[2], UNNAMED[2]);
  }

  /** An instance is created but not yet recorded, the node loses its identifier, and is deleted. */
  const FORGOTTEN := [Controller(JUST_CREATED), Annotate(NAMED.(instanceId := "")), Delete, Controller(FINE)]

  /** DeleteComplete is then stored in a step in which the cloud has the instance. */
  lemma ForgottenRun()
    ensures var objs := Objects(RdsInstance, Some(Created(NAMED)), FORGOTTEN);
            && IsRun(RdsInstance, objs, FORGOTTEN)
            && objs[4].Some? && objs[4].value.status.phase.DeleteComplete?
            && FORGOTTEN[3].Controller? && FORGOTTEN[3].w.instance.Found?
  {
    var objs := Objects(RdsInstance, Some(Created(NAMED)), FORGOTTEN);
    var st := NO_STATUS.(phase := NotReady);
    assert [] + [FINALIZER] == [FINALIZER];
    assert objs[1] == Apply(RdsInstance, objs[0], FORGOTTEN[0]) == Some(Node(st, NAMED, false, [FINALIZER]));
    assert objs[2] == Apply(RdsInstance, objs[1], FORGOTTEN[1]);
    assert objs[3] == Apply(RdsInstance, objs[2], FORGOTTEN[2]);
    assert objs[4] == Apply(RdsInstance, objs[3], FORGOTTEN[3]);
  }
}
