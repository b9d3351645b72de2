/** What a control plane pass achieves: its own write-back is admitted, exactly when the provider
    reports the recorded VPC, and the pass that creates the cluster ends not Ready. */
module ControlPlaneResults {
  import opened Wrappers
  import opened CommonApi
  import opened ApiServer
  import opened ClusterNames
  import opened ControlPlaneWebhook
  import opened MachinePoolWebhook
  import opened VswitchReconcile
  import opened VswitchFacts
  import opened VpcReconcile
  import opened WriteBack
  import opened ControlPlaneController
  import opened MachinePoolController
  import opened Collectors
  import opened Runs
  import opened Invariant
  import opened Preservation
  import opened ControlPlaneStages
  import opened RunTheorems

  /** What the provider would have the pass record as the VPC's ResourceID is what is already
      recorded, if anything is. */
  ghost predicate ReportsRecordedVpc(db: Db, c: string)
    requires c in db.controlPlanes
  {
    var vpc := db.controlPlanes[c].spec.vpc;
    c in db.kubernetes && vpc.name != "" && vpc.resourceId != "" && WouldReport(db.kubernetes[c].status)
    ==> db.kubernetes[c].status.vpcId == vpc.resourceId
  }

  predicate WouldReport(s: KubernetesStatus)
  {
    s.ready && s.endpoint.Some?
  }

  lemma UpdateReflexive(spec: ControlPlaneSpec)
    requires ValidClusterName(spec.clusterName)
    ensures AdmitsUpdate(spec, spec)
  {
    forall k | 0 <= k < |spec.vswitches| ensures VSwitchEqual(spec.vswitches[k], spec.vswitches[k]) {}
  }

  lemma VpcAdmitted(db: Db, owner: OwnerRef, vpc: VPC, fault: Fault)
    requires vpc.name != "" && vpc.resourceId != "" ==> vpc.uid != NO_UID
    ensures var v := ReconciledVpc(db, owner, vpc, fault);
            && VpcEqual(v.vpc, vpc)
            && v.db.kubernetes == db.kubernetes
  {
  }

  lemma NetworkAdmitted(db: Db, mem: ControlPlane, plan: CpPlan)
    requires ValidClusterName(mem.spec.clusterName) && NoHalves(mem.spec)
    ensures var n := NetworkReconciled(db, mem, plan).0;
            && AdmitsUpdate(n.mem.spec, mem.spec)
            && n.db.kubernetes == db.kubernetes
            && n.mem.status == mem.status && n.mem.spec.endpoint == mem.spec.endpoint
  {
    VpcAdmitted(db, Self(mem), mem.spec.vpc, plan.vpc);
    var v := ReconciledVpc(db, Self(mem), mem.spec.vpc, plan.vpc);
    UpdateReflexive(mem.spec);
    PassIsAdmitted(v.db, Self(mem), v.id, mem.spec.vswitches, plan.vswitches);
    PassContract(v.db, Self(mem), v.id, mem.spec.vswitches, plan.vswitches);
  }

  /** The tail of the pass: only setStatus edits the spec, and only the VPC's ResourceID
      matters to the webhook. */
  lemma ClusterAdmitted(db: Db, c: string, mem: ControlPlane, ids: seq<string>, plan: CpPlan, prev: ControlPlaneSpec)
    requires AdmitsUpdate(mem.spec, prev)
    requires c in db.kubernetes && WouldReport(db.kubernetes[c].status) && mem.spec.vpc.name != "" && prev.vpc.resourceId != "" ==>
               db.kubernetes[c].status.vpcId == prev.vpc.resourceId
    ensures AdmitsUpdate(ClusterReconciled(db, c, mem, ids, plan).1.spec, prev)
  {
    var (k, view) := KubernetesReconciled(db, c, mem, ids, plan.kubernetes);
    if k.ok {
      var m := StatusSet(k.mem, view);
      assert k.mem.spec == mem.spec;
      assert m.spec.vswitches == mem.spec.vswitches && m.spec.clusterName == mem.spec.clusterName && m.spec.region == mem.spec.region;
      assert VpcEqual(m.spec.vpc, prev.vpc);
    }
  }

  /** In every reachable store, whatever the faults, the spec a pass wants to write back is
      admitted by the immutability webhook, as long as the provider reports the recorded VPC. */
  lemma OwnWriteBackAdmitted(es: seq<Event>, timeout: nat, parses: CidrParser, c: string, plan: CpPlan)
    requires c in Run(es, timeout, parses).controlPlanes
    requires ReportsRecordedVpc(Run(es, timeout, parses), c)
    ensures var db := Run(es, timeout, parses);
            AdmitsUpdate(PassBody(db, c, plan).1.spec, db.controlPlanes[c].spec)
  {
    Reachable(es, timeout, parses);
    PassAdmitted(Run(es, timeout, parses), c, plan, parses);
  }

  lemma PassAdmitted(db: Db, c: string, plan: CpPlan, parses: CidrParser)
    requires Inv(db, parses) && c in db.controlPlanes && ReportsRecordedVpc(db, c)
    ensures AdmitsUpdate(PassBody(db, c, plan).1.spec, db.controlPlanes[c].spec)
  {
    var cp := db.controlPlanes[c];
    assert ControlPlaneOk(db.log, db.kubeconfigs, c, cp);
    UpdateReflexive(cp.spec);
    if !cp.meta.Deleting() {
      FinalizerAddedFacts(db, c, cp, plan.finalizerFault);
      var a := FinalizerAdded(db, c, cp, plan.finalizerFault);
      if a.ok {
        NetworkAdmitted(a.db, a.mem, plan);
        var (n, ids) := NetworkReconciled(a.db, a.mem, plan);
        ClusterAdmitted(n.db, c, n.mem, ids, plan, cp.spec);
      }
    }
  }

  /** For a control plane whose vswitches are complete the guard is exact, in every network mode:
      a fault-free pass over an existing cluster is written back if and only if the recorded
      VPC is reported. */
  lemma WriteBackExact(db: Db, c: string, plan: CpPlan, parses: CidrParser)
    requires Inv(db, parses) && c in db.controlPlanes && c in db.kubernetes && !db.controlPlanes[c].meta.Deleting()
    requires AllComplete(db.controlPlanes[c].spec.vswitches)
    requires plan.infrastructureReady && !plan.providerConfigFails && plan.kubernetes.Works?
    ensures AdmitsUpdate(PassBody(db, c, plan).1.spec, db.controlPlanes[c].spec) <==> ReportsRecordedVpc(db, c)
  {
    var cp := db.controlPlanes[c];
    assert ControlPlaneOk(db.log, db.kubeconfigs, c, cp) && KubernetesOk(db.log, db.controlPlanes, c, db.kubernetes[c]);
    if ReportsRecordedVpc(db, c) {
      PassAdmitted(db, c, plan, parses);
    } else {
      assert FinalizerAdded(db, c, cp, plan.finalizerFault) == Step(db, cp, true);
      SettledNetwork(db, cp, plan);
      var m := ClusterReconciled(db, c, cp, CloudIds(cp.spec.vswitches, |cp.spec.vswitches|), plan).1;
      assert m.spec.vpc.resourceId == db.kubernetes[c].status.vpcId;
      assert !VpcEqual(m.spec.vpc, cp.spec.vpc);
    }
  }

  /** Nothing is left to do for the VPC: it is given by id, not wanted, or recorded. */
  predicate SettledVpc(vpc: VPC)
  {
    vpc.id != "" || vpc.name == "" || (vpc.resourceId != "" && vpc.uid != NO_UID)
  }

  lemma SettledNetwork(db: Db, mem: ControlPlane, plan: CpPlan)
    requires AllComplete(mem.spec.vswitches) && SettledVpc(mem.spec.vpc)
    ensures NetworkReconciled(db, mem, plan) == (Step(db, mem, true), CloudIds(mem.spec.vswitches, |mem.spec.vswitches|))
  {
    FirstIncompleteIs(mem.spec.vswitches, |mem.spec.vswitches|);
  }

  /******* Readiness *******/

  /** A cluster as the pass that creates it stores it: one real id per vswitch, in order. */
  ghost predicate ClusterCreated(k: ManagedKubernetes, before: ControlPlane, after: ControlPlane)
  {
    && k.meta.owners == [Self(before)] && k.clusterName == before.spec.clusterName
    && |k.vswitchIds| == |before.spec.vswitches| == |after.spec.vswitches|
    && (forall i :: 0 <= i < |k.vswitchIds| ==>
          && EntryKept(before.spec.vswitches[i], after.spec.vswitches[i])
          && k.vswitchIds[i] == CloudId(after.spec.vswitches[i]) != "")
    && !after.status.ready && after.status.creating && after.spec.endpoint == before.spec.endpoint
  }

  lemma NetworkIds(db: Db, mem: ControlPlane, plan: CpPlan)
    ensures var (n, ids) := NetworkReconciled(db, mem, plan);
            && |n.mem.spec.vswitches| == |mem.spec.vswitches| && n.mem.spec.clusterName == mem.spec.clusterName
            && (forall i :: 0 <= i < |mem.spec.vswitches| ==> EntryKept(mem.spec.vswitches[i], n.mem.spec.vswitches[i]))
            && (n.ok ==> |ids| == |mem.spec.vswitches| &&
                         forall i :: 0 <= i < |ids| ==> ids[i] == CloudId(n.mem.spec.vswitches[i]) != "")
  {
    var v := ReconciledVpc(db, Self(mem), mem.spec.vpc, plan.vpc);
    PassContract(v.db, Self(mem), v.id, mem.spec.vswitches, plan.vswitches);
    var p := VswitchPass(v.db, Self(mem), v.id, mem.spec.vswitches, plan.vswitches);
    assert forall i :: 0 <= i < |mem.spec.vswitches| ==> EntryKept(mem.spec.vswitches[i], p.entries[i]);
  }

  /** The pass that creates the cluster ends Creating and not Ready, whatever the store said
      before, and has given the cluster its name, its owner and every vswitch of the list. */
  lemma CreatingPassNotReady(db: Db, c: string, plan: CpPlan)
    requires c in db.controlPlanes && !db.controlPlanes[c].meta.Gone() && c !in db.kubernetes
    requires c in PassBody(db, c, plan).0.kubernetes
    ensures var (after, m) := PassBody(db, c, plan);
            ClusterCreated(after.kubernetes[c], db.controlPlanes[c], m)
  {
    var cp := db.controlPlanes[c];
    if cp.meta.Deleting() {
      RemoveContract(db, cp.spec.vswitches, plan.vswitches);
      assert false;
    } else {
      FinalizerAddedFacts(db, c, cp, plan.finalizerFault);
      var a := FinalizerAdded(db, c, cp, plan.finalizerFault);
      NetworkLeavesCluster(a.db, a.mem, plan);
      NetworkIds(a.db, a.mem, plan);
      var (n, ids) := NetworkReconciled(a.db, a.mem, plan);
      assert PassBody(db, c, plan) == ClusterReconciled(n.db, c, n.mem, ids, plan);
    }
  }

  lemma VpcLeavesCluster(db: Db, owner: OwnerRef, vpc: VPC, fault: Fault)
    ensures ReconciledVpc(db, owner, vpc, fault).db.kubernetes == db.kubernetes
  {
  }

  lemma NetworkLeavesCluster(db: Db, mem: ControlPlane, plan: CpPlan)
    ensures var n := NetworkReconciled(db, mem, plan).0;
            && n.db.kubernetes == db.kubernetes
            && n.mem.status == mem.status && n.mem.spec.endpoint == mem.spec.endpoint && n.mem.meta == mem.meta
  {
    VpcLeavesCluster(db, Self(mem), mem.spec.vpc, plan.vpc);
    var v := ReconciledVpc(db, Self(mem), mem.spec.vpc, plan.vpc);
    PassContract(v.db, Self(mem), v.id, mem.spec.vswitches, plan.vswitches);
  }
}
