/** internal/controller/controlplane/aliyunmanagedcontrolplane_controller.go: one pass over a
    control plane, up to and including its deferred write. The functions say what a pass does
    to the store and to the in-memory object; the methods do it step by step. */
module ControlPlaneController {
  import opened Wrappers
  import opened CommonApi
  import opened ApiServer
  import opened KubeClient
  import opened ControlPlaneWebhook
  import opened VswitchReconcile
  import opened VswitchFacts
  import opened VpcReconcile
  import opened WriteBack

  /** What the environment decides during one pass. */
  datatype CpPlan = CpPlan(
    readable: bool, infrastructureReady: bool, finalizerFault: Fault, providerConfigFails: bool,
    vpc: Fault, vswitches: nat -> Fault, kubernetes: Fault, kubeconfig: Fault, statusFault: Fault, specFault: Fault)

  /** The store and the in-memory control plane; ok tells whether the pass goes on. */
  datatype Step = Step(db: Db, mem: ControlPlane, ok: bool)

  function Self(cp: ControlPlane): OwnerRef
  {
    OwnerRef(ControlPlaneKind, cp.meta.uid)
  }

  ghost function FinalizerAdded(db: Db, c: string, mem: ControlPlane, fault: Fault): Step
    requires c in db.controlPlanes
  {
    if CONTROL_PLANE_FINALIZER in mem.meta.finalizers then Step(db, mem, true)
    else
      var want := mem.(meta := WithFinalizer(mem.meta, CONTROL_PLANE_FINALIZER));
      var stored := db.controlPlanes[c];
      match UpdateObject(stored, want, AdmitsUpdate(want.spec, stored.spec), fault)
      case None => Step(db, want, false)
      case Some(response) => Step(PutControlPlane(db, c, response), response, true)
  }

  function NetworkReconciled(db: Db, mem: ControlPlane, plan: CpPlan): (Step, seq<string>)
  {
    var v := ReconciledVpc(db, Self(mem), mem.spec.vpc, plan.vpc);
    var m1 := mem.(spec := mem.spec.(vpc := v.vpc));
    if v.err.Some? then (Step(v.db, m1, false), [])
    else
      var p := VswitchPass(v.db, Self(mem), v.id, m1.spec.vswitches, plan.vswitches);
      (Step(p.db, m1.(spec := m1.spec.(vswitches := p.entries)), p.err.None?), p.ids)
  }

  /** Creates or updates the ManagedKubernetes object. The returned view is what the caller
      sees of it: nothing in the pass that creates it, because the create branch fills a local
      object and not the caller's. */
  function KubernetesReconciled(db: Db, c: string, mem: ControlPlane, ids: seq<string>, fault: Fault)
    : (Step, Option<ManagedKubernetes>)
  {
    if fault.ReadFails? then (Step(db, mem, false), None)
    else if c !in db.kubernetes then
      if fault.WriteFails? then (Step(db, mem, false), None)
      else (Step(CreateKubernetes(db, c, [Self(mem)], mem.spec.clusterName, ids),
                 mem.(status := mem.status.(creating := true)), true), None)
    else
      var k := db.kubernetes[c].(clusterName := mem.spec.clusterName);
      if fault.WriteFails? then (Step(db, mem, false), None)
      else (Step(PutKubernetes(db, c, k),
                 if mem.status.creating then mem else mem.(status := mem.status.(updating := true)), true), Some(k))
  }

  function StatusSet(mem: ControlPlane, view: Option<ManagedKubernetes>): ControlPlane
  {
    var m := mem.(status := mem.status.(ready := false));
    if view.None? || !view.value.status.ready then m
    else
      var s := view.value.status;
      var settled := m.status.(creating := false, updating := false);
      if s.endpoint.None? then m.(status := settled)
      else m.(status := settled.(ready := true, clusterId := s.id),
              spec := m.spec.(endpoint := s.endpoint.value,
                              vpc := if m.spec.vpc.name != "" then m.spec.vpc.(resourceId := s.vpcId) else m.spec.vpc))
  }

  function KubeconfigReconciled(db: Db, c: string, mem: ControlPlane, fault: Fault): (Db, ControlPlane)
  {
    if fault.Works? then (db.(kubeconfigs := db.kubeconfigs + {c}), mem.(status := mem.status.(initialized := true)))
    else (db, mem)
  }

  function StatusReconciled(db: Db, c: string, mem: ControlPlane, view: Option<ManagedKubernetes>, fault: Fault): (Db,
                            ControlPlane)
  {
    var m := StatusSet(mem, view);
    if m.status.ready && m.spec.endpoint.IsValid() then KubeconfigReconciled(db, c, m, fault) else (db, m)
  }

  function ClusterReconciled(db: Db, c: string, mem: ControlPlane, ids: seq<string>, plan: CpPlan): (Db, ControlPlane)
  {
    var (k, view) := KubernetesReconciled(db, c, mem, ids, plan.kubernetes);
    if !k.ok then (k.db, k.mem) else StatusReconciled(k.db, c, k.mem, view, plan.kubeconfig)
  }

  function NetworkAndClusterReconciled(db: Db, c: string, mem: ControlPlane, plan: CpPlan): (Db, ControlPlane)
  {
    var (n, ids) := NetworkReconciled(db, mem, plan);
    if !n.ok then (n.db, n.mem) else ClusterReconciled(n.db, c, n.mem, ids, plan)
  }

  /** The pass over a control plane that is not being deleted, before the deferred write. */
  ghost function Synced(db: Db, c: string, mem: ControlPlane, plan: CpPlan): (Db, ControlPlane)
    requires c in db.controlPlanes
  {
    if !plan.infrastructureReady then (db, mem)
    else
      var a := FinalizerAdded(db, c, mem, plan.finalizerFault);
      if !a.ok || plan.providerConfigFails then (a.db, a.mem)
      else
        NetworkAndClusterReconciled(a.db, c, a.mem, plan)
  }

  /** What follows once the cluster is gone: the vswitches, the VPC, and at last the finalizer. */
  function TornDown(db: Db, mem: ControlPlane, plan: CpPlan): (Db, ControlPlane)
  {
    var r := RemovePass(db, mem.spec.vswitches, plan.vswitches);
    if !OnlyTimeouts(r.errors) then (r.db, mem)
    else
      var v := RemovedVpc(r.db, mem.spec.vpc, plan.vpc);
      if v.err.Some? && v.err.value != Timeout then (v.db, mem)
      else (v.db, mem.(meta := WithoutFinalizer(mem.meta, CONTROL_PLANE_FINALIZER)))
  }

  /** The pass over a control plane with a deletion timestamp, before the deferred write. */
  function Deleted(db: Db, c: string, mem: ControlPlane, plan: CpPlan): (Db, ControlPlane)
  {
    if plan.kubernetes.ReadFails? then (db, mem)
    else if c in db.kubernetes then
      if db.kubernetes[c].meta.Deleting() || plan.kubernetes.WriteFails? then (db, mem)
      else (DeleteKubernetes(db, c), mem)
    else TornDown(db, mem, plan)
  }

  ghost function WrittenControlPlane(db: Db, c: string, mem: ControlPlane, plan: CpPlan): Db
    requires c in db.controlPlanes
  {
    var stored := db.controlPlanes[c];
    PutControlPlane(db, c, WrittenBack(stored, mem, AdmitsUpdate(mem.spec, stored.spec), plan.statusFault, plan.specFault))
  }

  ghost function PassBody(db: Db, c: string, plan: CpPlan): (r: (Db, ControlPlane))
    requires c in db.controlPlanes
  {
    var cp := db.controlPlanes[c];
    if cp.meta.Deleting() then Deleted(db, c, cp, plan) else Synced(db, c, cp, plan)
  }

  /** One call of Reconcile for the control plane of cluster c. */
  ghost function ControlPlanePass(db: Db, c: string, plan: CpPlan): Db
    requires c in db.controlPlanes ==> !db.controlPlanes[c].meta.Gone()
  {
    if c !in db.controlPlanes || !plan.readable then db
    else
      PassKeepsObject(db, c, plan);
      var (after, mem) := PassBody(db, c, plan);
      WrittenControlPlane(after, c, mem, plan)
  }

  lemma VpcLeavesOwners(db: Db, owner: OwnerRef, vpc: VPC, fault: Fault)
    ensures ReconciledVpc(db, owner, vpc, fault).db.controlPlanes == db.controlPlanes
  {
  }

  lemma NetworkLeavesOwners(db: Db, mem: ControlPlane, plan: CpPlan)
    ensures var n := NetworkReconciled(db, mem, plan).0;
            && n.db.controlPlanes == db.controlPlanes && n.mem.version == mem.version
  {
    VpcLeavesOwners(db, Self(mem), mem.spec.vpc, plan.vpc);
    var v := ReconciledVpc(db, Self(mem), mem.spec.vpc, plan.vpc);
    PassContract(v.db, Self(mem), v.id, mem.spec.vswitches, plan.vswitches);
  }

  lemma ClusterLeavesOwners(db: Db, c: string, mem: ControlPlane, ids: seq<string>, plan: CpPlan)
    ensures var (after, m) := ClusterReconciled(db, c, mem, ids, plan);
            after.controlPlanes == db.controlPlanes && m.version == mem.version
  {
  }

  /** What the finalizer step leaves in the store and in memory. */
  ghost predicate Finalized(db: Db, c: string, mem: ControlPlane, a: Step)
    requires c in db.controlPlanes
  {
    && c in a.db.controlPlanes
    && a.db == db.(controlPlanes := a.db.controlPlanes)
    && a.db.controlPlanes == db.controlPlanes[c := a.db.controlPlanes[c]]
    && (a.ok ==> a.mem == a.db.controlPlanes[c] && CONTROL_PLANE_FINALIZER in a.mem.meta.finalizers)
    && a.mem == mem.(version := a.mem.version, meta := WithFinalizer(mem.meta, CONTROL_PLANE_FINALIZER))
    && a.db.controlPlanes[c] == (if a.ok then a.mem else mem)
    && a.mem.version == a.db.controlPlanes[c].version
  }

  lemma AlreadyFinalized(db: Db, c: string, mem: ControlPlane)
    requires c in db.controlPlanes && mem == db.controlPlanes[c] && CONTROL_PLANE_FINALIZER in mem.meta.finalizers
    ensures Finalized(db, c, mem, Step(db, mem, true))
  {
    assert db.controlPlanes == db.controlPlanes[c := mem];
    assert WithFinalizer(mem.meta, CONTROL_PLANE_FINALIZER).finalizers == mem.meta.finalizers;
  }

  lemma NotFinalized(db: Db, c: string, mem: ControlPlane)
    requires c in db.controlPlanes && mem == db.controlPlanes[c]
    ensures Finalized(db, c, mem, Step(db, mem.(meta := WithFinalizer(mem.meta, CONTROL_PLANE_FINALIZER)), false))
  {
    assert db.controlPlanes == db.controlPlanes[c := mem];
  }

  lemma NewlyFinalized(db: Db, c: string, mem: ControlPlane)
    requires c in db.controlPlanes && mem == db.controlPlanes[c] && !mem.meta.Gone()
    ensures var want := mem.(version := mem.version + 1, meta := WithFinalizer(mem.meta, CONTROL_PLANE_FINALIZER));
            Finalized(db, c, mem, Step(PutControlPlane(db, c, want), want, true))
  {
  }

  lemma FinalizerAddedFacts(db: Db, c: string, mem: ControlPlane, fault: Fault)
    requires c in db.controlPlanes && mem == db.controlPlanes[c] && !mem.meta.Gone()
    ensures Finalized(db, c, mem, FinalizerAdded(db, c, mem, fault))
  {
    if CONTROL_PLANE_FINALIZER in mem.meta.finalizers {
      AlreadyFinalized(db, c, mem);
    } else {
      NotFinalized(db, c, mem);
      NewlyFinalized(db, c, mem);
    }
  }

  lemma DeletedLeavesOwners(db: Db, c: string, mem: ControlPlane, plan: CpPlan)
    ensures var (after, m) := Deleted(db, c, mem, plan);
            after.controlPlanes == db.controlPlanes && m.version == mem.version
  {
    RemoveContract(db, mem.spec.vswitches, plan.vswitches);
  }

  /** Before the deferred write a pass changes at most the stored finalizers of its object. */
  lemma PassKeepsObject(db: Db, c: string, plan: CpPlan)
    requires c in db.controlPlanes && !db.controlPlanes[c].meta.Gone()
    ensures var (after, mem) := PassBody(db, c, plan);
            && after.controlPlanes.Keys == db.controlPlanes.Keys
            && after.controlPlanes[c].spec == db.controlPlanes[c].spec
            && !after.controlPlanes[c].meta.Gone()
            && mem.version == after.controlPlanes[c].version
  {
    var cp := db.controlPlanes[c];
    if cp.meta.Deleting() {
      DeletedLeavesOwners(db, c, cp, plan);
    } else {
      FinalizerAddedFacts(db, c, cp, plan.finalizerFault);
      var a := FinalizerAdded(db, c, cp, plan.finalizerFault);
      assert a.db.controlPlanes.Keys == db.controlPlanes.Keys;
      NetworkLeavesOwners(a.db, a.mem, plan);
      var (n, ids) := NetworkReconciled(a.db, a.mem, plan);
      ClusterLeavesOwners(n.db, c, n.mem, ids, plan);
    }
  }

  /** Two stores in a row amount to the second. */
  lemma PutTwice(db: Db, c: string, first: ControlPlane, second: ControlPlane)
    requires c in db.controlPlanes && !first.meta.Gone()
    ensures PutControlPlane(PutControlPlane(db, c, first), c, second) == PutControlPlane(db, c, second)
    ensures !db.controlPlanes[c].meta.Gone() ==> PutControlPlane(db, c, db.controlPlanes[c]) == db
  {
    assert db.controlPlanes[c := first][c := second] == db.controlPlanes[c := second];
    assert db.controlPlanes[c := first] - {c} == db.controlPlanes - {c};
    assert db.controlPlanes[c := db.controlPlanes[c]] == db.controlPlanes;
  }

  /******* The in-memory object and the methods *******/

  /** The control plane object a pass works on. */
  class ControlPlaneObject {
    var meta: Meta
    var version: nat
    var clusterName: string
    var region: string
    var endpoint: Endpoint
    var vpc: VpcBlock
    var vswitches: array<VSwitch>
    var status: ControlPlaneStatus

    ghost function Value(): ControlPlane
      reads this, vpc, vswitches
    {
      Stored(meta, version, ControlPlaneSpec(clusterName, region, vpc.value, vswitches[..], endpoint), status)
    }

    constructor (cp: ControlPlane)
      ensures Value() == cp && fresh(vpc) && fresh(vswitches)
    {
      meta, version, status := cp.meta, cp.version, cp.status;
      clusterName, region, endpoint := cp.spec.clusterName, cp.spec.region, cp.spec.endpoint;
      var s := cp.spec.vswitches;
      vswitches := new VSwitch[|s|](i requires 0 <= i < |s| => s[i]);
      vpc := new VpcBlock(cp.spec.vpc);
      new;
      assert vswitches[..] == s;
    }

    /** A response of the API server overwrites the whole object. */
    method Overwrite(cp: ControlPlane)
      modifies this
      ensures Value() == cp && fresh(vpc) && fresh(vswitches)
    {
      meta, version, status := cp.meta, cp.version, cp.status;
      clusterName, region, endpoint := cp.spec.clusterName, cp.spec.region, cp.spec.endpoint;
      var s := cp.spec.vswitches;
      vswitches := new VSwitch[|s|](i requires 0 <= i < |s| => s[i]);
      vpc := new VpcBlock(cp.spec.vpc);
      assert vswitches[..] == s;
    }

    method DeepCopy() returns (cp: ControlPlane)
      ensures cp == Value()
    {
      cp := Stored(meta, version, ControlPlaneSpec(clusterName, region, vpc.value, vswitches[..], endpoint), status);
    }
  }

  class ControlPlaneReconciler {
    const client: Client

    constructor (client: Client)
      ensures this.client == client
    {
      this.client := client;
    }

    method Reconcile(c: string, plan: CpPlan)
      requires c in client.db.controlPlanes ==> !client.db.controlPlanes[c].meta.Gone()
      modifies client
      ensures client.db == ControlPlanePass(old(client.db), c, plan)
    {
      if c !in client.db.controlPlanes || !plan.readable {
        return;
      }
      var cp := new ControlPlaneObject(client.db.controlPlanes[c]);
      ghost var stored := client.db;
      PassKeepsObject(stored, c, plan);
      if cp.meta.deletedAt.Some? {
        ReconcileDelete(c, cp, plan);
      } else {
        ReconcileNormal(c, cp, plan);
      }
      DeferredWrite(c, cp, plan);
    }

    method DeferredWrite(c: string, cp: ControlPlaneObject, plan: CpPlan)
      requires c in client.db.controlPlanes && !client.db.controlPlanes[c].meta.Gone()
      modifies client, cp
      ensures client.db == WrittenControlPlane(old(client.db), c, old(cp.Value()), plan)
    {
      ghost var db := client.db;
      var mem := cp.DeepCopy();
      var response := client.UpdateControlPlaneStatus(c, mem, plan.statusFault);
      if response.None? {
        PutTwice(db, c, db.controlPlanes[c], db.controlPlanes[c]);
        return;
      }
      ghost var first := response.value;
      cp.Overwrite(response.value);
      var current := cp.DeepCopy();
      var next := client.UpdateControlPlane(
        c, current.(spec := mem.spec, meta := current.meta.(finalizers := mem.meta.finalizers)), plan.specFault);
      if next.Some? {
        PutTwice(db, c, first, next.value);
        cp.Overwrite(next.value);
      }
    }

    method ReconcileNormal(c: string, cp: ControlPlaneObject, plan: CpPlan)
      requires c in client.db.controlPlanes && !client.db.controlPlanes[c].meta.Gone()
      requires cp.Value() == client.db.controlPlanes[c]
      modifies client, cp, cp.vpc, cp.vswitches
      ensures (client.db, cp.Value()) == Synced(old(client.db), c, old(cp.Value()), plan)
    {
      if !plan.infrastructureReady {
        return;
      }
      ghost var db, mem := client.db, cp.Value();
      if CONTROL_PLANE_FINALIZER !in cp.meta.finalizers {
        cp.meta := WithFinalizer(cp.meta, CONTROL_PLANE_FINALIZER);
        var want := cp.DeepCopy();
        var response := client.UpdateControlPlane(c, want, plan.finalizerFault);
        if response.None? {
          return;
        }
        cp.Overwrite(response.value);
      }
      assert Step(client.db, cp.Value(), true) == FinalizerAdded(db, c, mem, plan.finalizerFault);
      if plan.providerConfigFails {
        return;
      }
      ReconcileNetworkAndCluster(c, cp, plan);
    }

    method ReconcileNetworkAndCluster(c: string, cp: ControlPlaneObject, plan: CpPlan)
      modifies client, cp, cp.vpc, cp.vswitches
      ensures (client.db, cp.Value()) == NetworkAndClusterReconciled(old(client.db), c, old(cp.Value()), plan)
    {
      ghost var db, mem := client.db, cp.Value();
      var owner := OwnerRef(ControlPlaneKind, cp.meta.uid);
      var vpcID, vpcErr := ReconcileVPC(client, owner, cp.vpc, plan.vpc);
      ghost var v := ReconciledVpc(db, owner, mem.spec.vpc, plan.vpc);
      ghost var m1 := mem.(spec := mem.spec.(vpc := v.vpc));
      assert cp.Value() == m1 && client.db == v.db;
      if vpcErr.Some? {
        return;
      }
      var vswitchIDs, vswErr := ReconcileVSwitch(client, owner, vpcID, cp.vswitches, plan.vswitches);
      ghost var p := VswitchPass(v.db, owner, v.id, m1.spec.vswitches, plan.vswitches);
      ghost var m2 := m1.(spec := m1.spec.(vswitches := p.entries));
      assert cp.Value() == m2 && client.db == p.db;
      if vswErr.Some? {
        return;
      }
      var ok, view := ReconcileManagedKubernetes(c, cp, vswitchIDs, plan.kubernetes);
      if !ok {
        return;
      }
      SetStatus(cp, view);
      if cp.status.ready && cp.endpoint.IsValid() {
        ReconcileKubeconfig(c, cp, plan.kubeconfig);
      }
    }

    method ReconcileManagedKubernetes(c: string, cp: ControlPlaneObject, vswitchIDs: seq<string>, fault: Fault)
      returns (ok: bool, view: Option<ManagedKubernetes>)
      modifies client, cp
      ensures cp.vpc == old(cp.vpc) && cp.vswitches == old(cp.vswitches)
      ensures (Step(client.db, cp.Value(), ok), view) ==
              KubernetesReconciled(old(client.db), c, old(cp.Value()), vswitchIDs, fault)
    {
      var found := client.GetKubernetes(c, fault);
      if found.Failed? {
        return false, None;
      }
      if found.NotFound? {
        ok := client.CreateKubernetesObject(c, OwnerRef(ControlPlaneKind, cp.meta.uid), cp.clusterName, vswitchIDs, fault);
        view := None;
        if !ok {
          return;
        }
        cp.status := cp.status.(creating := true);
      } else {
        var managedKubernetes := found.value.(clusterName := cp.clusterName);
        ok := client.UpdateKubernetes(c, managedKubernetes, fault);
        if !ok {
          return false, None;
        }
        view := Some(managedKubernetes);
        if !cp.status.creating {
          cp.status := cp.status.(updating := true);
        }
      }
    }

    method SetStatus(cp: ControlPlaneObject, view: Option<ManagedKubernetes>)
      modifies cp, cp.vpc
      ensures cp.vpc == old(cp.vpc) && cp.vswitches == old(cp.vswitches)
      ensures cp.Value() == StatusSet(old(cp.Value()), view)
    {
      cp.status := cp.status.(ready := false);
      if view.None? || !view.value.status.ready {
        return;
      }
      var s := view.value.status;
      if cp.status.creating {
        cp.status := cp.status.(creating := false);
      }
      if cp.status.updating {
        cp.status := cp.status.(updating := false);
      }
      if s.endpoint.None? {
        return;
      }
      cp.status := cp.status.(ready := true, clusterId := s.id);
      cp.endpoint := s.endpoint.value;
      if cp.vpc.value.name != "" {
        cp.vpc.value := cp.vpc.value.(resourceId := s.vpcId);
      }
    }

    method ReconcileKubeconfig(c: string, cp: ControlPlaneObject, fault: Fault)
      modifies client, cp
      ensures cp.vpc == old(cp.vpc) && cp.vswitches == old(cp.vswitches)
      ensures (client.db, cp.Value()) == KubeconfigReconciled(old(client.db), c, old(cp.Value()), fault)
    {
      if fault.ReadFails? {
        return;
      }
      var ok := client.StoreKubeconfig(c, fault);
      if !ok {
        return;
      }
      cp.status := cp.status.(initialized := true);
    }

    method ReconcileDelete(c: string, cp: ControlPlaneObject, plan: CpPlan)
      modifies client, cp
      ensures cp.vpc == old(cp.vpc) && cp.vswitches == old(cp.vswitches)
      ensures (client.db, cp.Value()) == Deleted(old(client.db), c, old(cp.Value()), plan)
    {
      var found := client.GetKubernetes(c, plan.kubernetes);
      if found.Failed? {
        return;
      }
      if found.Found? {
        if found.value.meta.deletedAt.Some? {
          return;
        }
        var _ := client.DeleteKubernetesObject(c, plan.kubernetes);
        return;
      }
      var errList := ReconcileRemoveVSwitch(client, cp.vswitches[..], plan.vswitches);
      for i := 0 to |errList|
        invariant forall k :: 0 <= k < i ==> errList[k] == Timeout
      {
        if errList[i] == Timeout {
          continue;
        }
        return;
      }
      var err := ReconcileRemoveVPC(client, cp.vpc.value, plan.vpc);
      if err.Some? && err.value != Timeout {
        return;
      }
      cp.meta := WithoutFinalizer(cp.meta, CONTROL_PLANE_FINALIZER);
    }
  }
}
