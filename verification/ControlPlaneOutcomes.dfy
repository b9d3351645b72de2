/** Exactly what a control plane pass does, said of the store it starts from: when the finalizer is
    stored, in which VPC vswitches are created, what becomes of the cluster, the status and the
    kubeconfig, and when the finalizer is given up. */
module ControlPlaneOutcomes {
  import opened Wrappers
  import opened CommonApi
  import opened ApiServer
  import opened ControlPlaneWebhook
  import opened MachinePoolWebhook
  import opened VswitchReconcile
  import opened VswitchFacts
  import opened VswitchOutcomes
  import opened VpcReconcile
  import opened WriteBack
  import opened ControlPlaneController
  import opened Runs
  import opened Invariant
  import opened ControlPlaneResults
  import opened ControlPlaneRuns
  import opened Teardown
  import opened MachinePoolOutcomes

  /******* The finalizer *******/

  /** The finalizer is stored if and only if it was held, or the infrastructure is ready and the
      write succeeds; the webhook never refuses that write. */
  lemma FinalizerStoredExactly(db: Db, c: string, plan: CpPlan, parses: CidrParser)
    requires Inv(db, parses) && c in db.controlPlanes && !db.controlPlanes[c].meta.Deleting()
    ensures var after := PassBody(db, c, plan).0;
            && c in after.controlPlanes
            && (CONTROL_PLANE_FINALIZER in after.controlPlanes[c].meta.finalizers <==>
                  || CONTROL_PLANE_FINALIZER in db.controlPlanes[c].meta.finalizers
                  || (plan.infrastructureReady && !plan.finalizerFault.WriteFails?))
  {
    var cp := db.controlPlanes[c];
    assert ControlPlaneOk(db.log, db.kubeconfigs, c, cp);
    UpdateReflexive(cp.spec);
    FinalizerAddedFacts(db, c, cp, plan.finalizerFault);
    var a := FinalizerAdded(db, c, cp, plan.finalizerFault);
    if a.ok {
      NetworkAndClusterOwn(a.db, c, a.mem, plan);
    }
  }

  /** The pass has its finalizer and a provider config, and goes on to the network. */
  ghost predicate Proceeds(db: Db, c: string, plan: CpPlan)
    requires c in db.controlPlanes
  {
    && plan.infrastructureReady && !plan.providerConfigFails
    && (CONTROL_PLANE_FINALIZER in db.controlPlanes[c].meta.finalizers || !plan.finalizerFault.WriteFails?)
  }

  /** A pass that does not get that far changes at most the finalizer; while it waits for the
      infrastructure, not even that. */
  lemma HeldUpPassIsIdle(db: Db, c: string, plan: CpPlan)
    requires c in db.controlPlanes && !db.controlPlanes[c].meta.Deleting() && !Proceeds(db, c, plan)
    ensures var cp := db.controlPlanes[c];
            var (after, m) := PassBody(db, c, plan);
            && after == db.(controlPlanes := after.controlPlanes)
            && m.spec == cp.spec && m.status == cp.status
            && (!plan.infrastructureReady ==> after == db && m == cp)
  {
    FinalizerAddedFacts(db, c, db.controlPlanes[c], plan.finalizerFault);
  }

  /******* The network *******/

  lemma ProceedingPass(db: Db, c: string, plan: CpPlan, parses: CidrParser) returns (a: Step)
    requires Inv(db, parses) && c in db.controlPlanes && !db.controlPlanes[c].meta.Deleting()
    ensures Finalized(db, c, db.controlPlanes[c], a)
    ensures Proceeds(db, c, plan) ==>
              a.ok && PassBody(db, c, plan) == NetworkAndClusterReconciled(a.db, c, a.mem, plan)
  {
    var cp := db.controlPlanes[c];
    assert ControlPlaneOk(db.log, db.kubeconfigs, c, cp);
    UpdateReflexive(cp.spec);
    FinalizerAddedFacts(db, c, cp, plan.finalizerFault);
    a := FinalizerAdded(db, c, cp, plan.finalizerFault);
  }

  /** The VPC a spec stands for. */
  function OwnVpcId(vpc: VPC): string
  {
    if vpc.id != "" then vpc.id else vpc.resourceId
  }

  lemma NewVswitchStopsNetwork(db: Db, mem: ControlPlane, plan: CpPlan, n: string)
    requires NetworkMode(mem.spec) && NoHalves(mem.spec) && LogOk(db)
    requires mem.spec.vpc.name in db.vpcs ==> db.vpcs[mem.spec.vpc.name].meta.uid != NO_UID
    requires n !in db.vswitches && n in NetworkReconciled(db, mem, plan).0.db.vswitches
    ensures var s := NetworkReconciled(db, mem, plan).0;
            !s.ok && s.db.vswitches[n].vpcId == OwnVpcId(s.mem.spec.vpc) != ""
  {
    var owner := Self(mem);
    VpcContract(db, owner, mem.spec.vpc, plan.vpc);
    var v := ReconciledVpc(db, owner, mem.spec.vpc, plan.vpc);
    assert v.db.vswitches == db.vswitches;
    PassContract(v.db, owner, v.id, mem.spec.vswitches, plan.vswitches);
    var p := VswitchPass(v.db, owner, v.id, mem.spec.vswitches, plan.vswitches);
    assert FreshVswitch(v.db, p.db, n, owner, v.id);
    NewEntryIncomplete(v.db, owner, v.id, mem.spec.vswitches, p, n);
    var k: nat :| k < |mem.spec.vswitches| && mem.spec.vswitches[k].id == "" && !Complete(p.entries[k]);
  }

  lemma NewEntryIncomplete(db: Db, owner: OwnerRef, vpcId: string, entries: seq<VSwitch>, p: Pass, n: string)
    requires ScanGuarantee(Scan(db, entries, []), Scan(p.db, p.entries, []), owner, vpcId)
    requires forall k :: 0 <= k < |entries| ==> !HalfFilled(entries[k])
    requires n in p.db.vswitches && n !in db.vswitches
    ensures exists k: nat :: k < |entries| && entries[k].id == "" && !Complete(p.entries[k])
  {
    assert FreshVswitch(db, p.db, n, owner, vpcId);
    var k: nat :| RecordsNew(entries, p.entries, p.db, n, k);
    assert EntryKept(entries[k], p.entries[k]) && Provenance(p.db, owner, entries[k], p.entries[k]);
    assert entries[k].id == "" && !Complete(p.entries[k]);
  }

  /** Every vswitch a pass creates lies in the control plane's own VPC: the one the user gave by
      id, or else the one whose id has been recorded. */
  lemma VswitchesInOwnVpc(db: Db, c: string, plan: CpPlan, n: string, parses: CidrParser)
    requires Inv(db, parses) && c in db.controlPlanes
    requires n in PassBody(db, c, plan).0.vswitches && n !in db.vswitches
    ensures var (after, m) := PassBody(db, c, plan);
            after.vswitches[n].vpcId == (if m.spec.vpc.id != "" then m.spec.vpc.id else m.spec.vpc.resourceId) != ""
  {
    var cp := db.controlPlanes[c];
    assert ControlPlaneOk(db.log, db.kubeconfigs, c, cp);
    PassCreatesNormally(db, c, plan, n);
    var a := ProceedingPass(db, c, plan, parses);
    assert cp.spec.vpc.name in db.vpcs ==> VpcOk(db.log, cp.spec.vpc.name, db.vpcs[cp.spec.vpc.name]);
    ClusterLeavesVswitches(a.db, c, a.mem, plan);
    NewVswitchStopsNetwork(a.db, a.mem, plan, n);
  }

  lemma PassCreatesNormally(db: Db, c: string, plan: CpPlan, n: string)
    requires c in db.controlPlanes && n in PassBody(db, c, plan).0.vswitches && n !in db.vswitches
    ensures !db.controlPlanes[c].meta.Deleting() && Proceeds(db, c, plan)
  {
    if db.controlPlanes[c].meta.Deleting() {
      DeletedOrder(db, c, plan);
    } else if !Proceeds(db, c, plan) {
      HeldUpPassIsIdle(db, c, plan);
    }
  }

  lemma ClusterStageFrame(db: Db, c: string, mem: ControlPlane, ids: seq<string>, plan: CpPlan)
    ensures var (after, m) := ClusterReconciled(db, c, mem, ids, plan);
            && after.vswitches == db.vswitches && after.vpcs == db.vpcs
            && m.spec.vswitches == mem.spec.vswitches
  {
    var (k, view) := KubernetesReconciled(db, c, mem, ids, plan.kubernetes);
    CallsOnClusterFrame(db, c, mem, ids, plan.kubernetes);
    if k.ok {
      StatusStageFrame(k.db, c, k.mem, view, plan.kubeconfig);
    }
  }

  lemma CallsOnClusterFrame(db: Db, c: string, mem: ControlPlane, ids: seq<string>, fault: Fault)
    ensures var k := KubernetesReconciled(db, c, mem, ids, fault).0;
            k.db.vswitches == db.vswitches && k.db.vpcs == db.vpcs && k.mem.spec == mem.spec
  {
    var created := CreateKubernetes(db, c, [Self(mem)], mem.spec.clusterName, ids);
    assert created.vswitches == db.vswitches && created.vpcs == db.vpcs;
  }

  lemma StatusStageFrame(db: Db, c: string, mem: ControlPlane, view: Option<ManagedKubernetes>, fault: Fault)
    ensures var (after, m) := StatusReconciled(db, c, mem, view, fault);
            && after.vswitches == db.vswitches && after.vpcs == db.vpcs
            && m.spec.vswitches == mem.spec.vswitches
  {
  }

  lemma ClusterLeavesVswitches(db: Db, c: string, mem: ControlPlane, plan: CpPlan)
    ensures var s := NetworkReconciled(db, mem, plan).0;
            var (after, m) := NetworkAndClusterReconciled(db, c, mem, plan);
            && after.vswitches == s.db.vswitches && after.vpcs == s.db.vpcs
            && m.spec.vswitches == s.mem.spec.vswitches
            && (!s.ok ==> m == s.mem)
  {
    var (s, ids) := NetworkReconciled(db, mem, plan);
    ClusterStageFrame(s.db, c, s.mem, ids, plan);
  }

  /** The VPC needs nothing, or can be adopted in this pass. */
  ghost predicate VpcAtHand(db: Db, mem: ControlPlane, plan: CpPlan)
  {
    var vpc := mem.spec.vpc;
    || SettledVpc(vpc)
    || (&& !plan.vpc.ReadFails? && vpc.name in db.vpcs && db.vpcs[vpc.name].meta.OwnedBy(mem.meta.uid)
        && db.vpcs[vpc.name].cloudId !in {None, Some("")})
  }

  ghost predicate NetworkAtHand(db: Db, mem: ControlPlane, plan: CpPlan)
  {
    VpcAtHand(db, mem, plan) && AllAtHand(db, Self(mem), mem.spec.vswitches, plan.vswitches)
  }

  function FilledVpc(db: Db, vpc: VPC): VPC
    requires SettledVpc(vpc) || (vpc.name in db.vpcs && db.vpcs[vpc.name].cloudId.Some?)
  {
    if SettledVpc(vpc) then vpc
    else
      var v := db.vpcs[vpc.name];
      vpc.(resourceId := v.cloudId.value, uid := v.meta.uid)
  }

  ghost predicate RealVpcUids(db: Db)
  {
    forall n :: n in db.vpcs ==> db.vpcs[n].meta.uid != NO_UID
  }

  lemma UidsAreReal(db: Db, parses: CidrParser)
    requires Inv(db, parses)
    ensures RealUids(db) && RealVpcUids(db)
  {
    StoredUidsAreReal(db, parses);
    forall n | n in db.vpcs ensures db.vpcs[n].meta.uid != NO_UID {
      assert VpcOk(db.log, n, db.vpcs[n]);
    }
  }

  lemma VpcDone(db: Db, mem: ControlPlane, plan: CpPlan)
    requires RealVpcUids(db) && NoHalves(mem.spec)
    ensures var v := ReconciledVpc(db, Self(mem), mem.spec.vpc, plan.vpc);
            && (v.err.None? <==> VpcAtHand(db, mem, plan))
            && (v.err.None? ==> v.db == db && v.vpc == FilledVpc(db, mem.spec.vpc))
            && v.db.vswitches == db.vswitches
  {
    var owner, vpc := Self(mem), mem.spec.vpc;
    if Asks(vpc) {
      if !plan.vpc.ReadFails? && vpc.name !in db.vpcs {
        VpcCreatedAsAsked(db, owner, vpc, plan.vpc);
      } else if VpcAtHand(db, mem, plan) {
        VpcAdopted(db, owner, vpc, plan.vpc);
      } else {
        VpcWaits(db, owner, vpc, plan.vpc);
      }
    }
  }

  /** The network stage succeeds if and only if everything is at hand, and then fills what was
      missing from the stored objects and touches none of them. */
  lemma NetworkDone(db: Db, mem: ControlPlane, plan: CpPlan)
    requires RealUids(db) && RealVpcUids(db) && NoHalves(mem.spec)
    ensures var s := NetworkReconciled(db, mem, plan).0;
            && (s.ok <==> NetworkAtHand(db, mem, plan))
            && (s.ok ==> s.db.vswitches == db.vswitches && s.db.vpcs == db.vpcs)
            && (s.ok ==> EntriesFilled(db, mem.spec.vswitches, s.mem.spec.vswitches))
            && (s.ok ==> s.mem.spec.vpc == FilledVpc(db, mem.spec.vpc))
  {
    VpcDone(db, mem, plan);
    var v := ReconciledVpc(db, Self(mem), mem.spec.vpc, plan.vpc);
    if v.err.None? {
      PassSucceedsExactly(db, Self(mem), v.id, mem.spec.vswitches, plan.vswitches);
      PassContract(db, Self(mem), v.id, mem.spec.vswitches, plan.vswitches);
      var p := VswitchPass(db, Self(mem), v.id, mem.spec.vswitches, plan.vswitches);
      if p.err.None? {
        FilledFromStore(db, Self(mem), v.id, mem.spec.vswitches, plan.vswitches, p);
      }
    }
  }

  /******* The cluster, the status and the kubeconfig *******/

  /** The stored clusters after a create or an update that succeeded. A new one has its owner, its
      name and the ids; of an old one only the name changes, and no other is touched. */
  ghost predicate ClusterWritten(db: Db, after: Db, c: string, cp: ControlPlane, ids: seq<string>)
  {
    if c !in db.kubernetes then
      && c in after.kubernetes && after.kubernetes == db.kubernetes[c := after.kubernetes[c]]
      && var meta := after.kubernetes[c].meta;
      && meta == Meta(meta.uid, [OwnerRef(ControlPlaneKind, cp.meta.uid)], None, {}) && db.nextUid <= meta.uid
      && after.kubernetes[c] == ManagedKubernetes(meta, cp.spec.clusterName, ids, KubernetesStatus(false, "", "", None))
    else
      var k := db.kubernetes[c];
      after.kubernetes == if k.meta.Gone() then db.kubernetes - {c}
                          else db.kubernetes[c := k.(clusterName := cp.spec.clusterName)]
  }

  /** What a pass sees of its cluster: nothing of one it has to create. */
  function Seen(db: Db, c: string): Option<KubernetesStatus>
  {
    if c in db.kubernetes then Some(db.kubernetes[c].status) else None
  }

  /** The cluster is reported ready, with an endpoint. */
  predicate Up(s: Option<KubernetesStatus>)
  {
    s.Some? && s.value.ready && s.value.endpoint.Some?
  }

  /** The kubeconfig is written in this pass. */
  predicate Connects(s: Option<KubernetesStatus>, fault: Fault)
  {
    Up(s) && s.value.endpoint.value.host != "" && s.value.endpoint.value.port != 0 && fault.Works?
  }

  /** The in-memory status afterwards, field by field. */
  ghost predicate StatusFollows(s: Option<KubernetesStatus>, before: ControlPlane, after: ControlPlane, fault: Fault)
  {
    FlagsFollow(s, before, after) && (after.status.initialized <==> before.status.initialized || Connects(s, fault))
  }

  ghost predicate FlagsFollow(s: Option<KubernetesStatus>, before: ControlPlane, after: ControlPlane)
  {
    var ready := s.Some? && s.value.ready;
    && (after.status.ready <==> Up(s))
    && (after.status.creating <==> s.None? || (before.status.creating && !ready))
    && (after.status.updating <==>
          if s.None? then before.status.updating else !ready && (before.status.updating || !before.status.creating))
    && after.status.clusterId == (if Up(s) then s.value.id else before.status.clusterId)
  }

  /** The in-memory spec afterwards: a cluster that is up fills the endpoint and the VPC's id. */
  ghost predicate SpecFollows(s: Option<KubernetesStatus>, before: ControlPlaneSpec, after: ControlPlaneSpec)
  {
    && after.endpoint == (if Up(s) then s.value.endpoint.value else before.endpoint)
    && after.vpc == (if Up(s) && before.vpc.name != "" then before.vpc.(resourceId := s.value.vpcId) else before.vpc)
    && after.clusterName == before.clusterName && after.region == before.region && after.vswitches == before.vswitches
  }

  lemma ClusterCreation(db: Db, c: string, mem: ControlPlane, ids: seq<string>)
    requires c !in db.kubernetes
    ensures var after := CreateKubernetes(db, c, [Self(mem)], mem.spec.clusterName, ids);
            ClusterWritten(db, after, c, mem, ids) && after.kubeconfigs == db.kubeconfigs
  {
  }

  lemma CallsOnCluster(db: Db, c: string, mem: ControlPlane, ids: seq<string>, fault: Fault)
    ensures var (k, view) := KubernetesReconciled(db, c, mem, ids, fault);
            && (k.ok <==> fault.Works?)
            && (!k.ok ==> k.db == db && k.mem == mem)
            && (k.ok ==> ClusterWritten(db, k.db, c, mem, ids) && (view.Some? <==> c in db.kubernetes)
                         && (view.Some? ==> view.value.status == db.kubernetes[c].status))
            && k.db.kubeconfigs == db.kubeconfigs
  {
    if c !in db.kubernetes {
      ClusterCreation(db, c, mem, ids);
    }
  }

  lemma FlagsAfterCalls(db: Db, c: string, mem: ControlPlane, ids: seq<string>, fault: Fault)
    requires fault.Works?
    ensures KubernetesReconciled(db, c, mem, ids, fault).0.mem ==
            mem.(status := mem.status.(creating := c !in db.kubernetes || mem.status.creating,
                                       updating := mem.status.updating || (c in db.kubernetes && !mem.status.creating)))
  {
  }

  lemma StatusSetFollows(before: ControlPlane, mem: ControlPlane, view: Option<ManagedKubernetes>)
    requires mem == before.(status := before.status.(creating := view.None? || before.status.creating,
                                                     updating := before.status.updating || (view.Some? && !before.status.creating)))
    ensures var m := StatusSet(mem, view);
            var s := if view.Some? then Some(view.value.status) else None;
            && FlagsFollow(s, before, m) && SpecFollows(s, before.spec, m.spec)
            && m.status.initialized == before.status.initialized && m.meta == before.meta
  {
  }

  lemma StatusStage(db: Db, c: string, before: ControlPlane, mem: ControlPlane, view: Option<ManagedKubernetes>,
                    fault: Fault)
    requires mem == before.(status := before.status.(creating := view.None? || before.status.creating,
                                                     updating := before.status.updating || (view.Some? && !before.status.creating)))
    ensures var (after, m) := StatusReconciled(db, c, mem, view, fault);
            var s := if view.Some? then Some(view.value.status) else None;
            && StatusFollows(s, before, m, fault) && SpecFollows(s, before.spec, m.spec) && m.meta == before.meta
            && after.kubernetes == db.kubernetes
            && after.kubeconfigs == (if Connects(s, fault) then db.kubeconfigs + {c} else db.kubeconfigs)
  {
    StatusSetFollows(before, mem, view);
  }

  /** The last stages of a pass: nothing if the calls on the cluster fail, and otherwise the cluster,
      the status and the kubeconfig after what the provider reports. */
  lemma ClusterStage(db: Db, c: string, mem: ControlPlane, ids: seq<string>, plan: CpPlan)
    ensures var (after, m) := ClusterReconciled(db, c, mem, ids, plan);
            if !plan.kubernetes.Works? then after == db && m == mem
            else
              && ClusterWritten(db, after, c, mem, ids)
              && StatusFollows(Seen(db, c), mem, m, plan.kubeconfig) && SpecFollows(Seen(db, c), mem.spec, m.spec)
              && m.meta == mem.meta
              && after.kubeconfigs == (if Connects(Seen(db, c), plan.kubeconfig) then db.kubeconfigs + {c} else db.kubeconfigs)
  {
    CallsOnCluster(db, c, mem, ids, plan.kubernetes);
    if plan.kubernetes.Works? {
      FlagsAfterCalls(db, c, mem, ids, plan.kubernetes);
      var (k, view) := KubernetesReconciled(db, c, mem, ids, plan.kubernetes);
      StatusStage(k.db, c, mem, k.mem, view, plan.kubeconfig);
    }
  }

  lemma NetworkFrame(db: Db, mem: ControlPlane, plan: CpPlan)
    ensures var (s, ids) := NetworkReconciled(db, mem, plan);
            && s.db.kubernetes == db.kubernetes && s.db.kubeconfigs == db.kubeconfigs && db.nextUid <= s.db.nextUid
            && s.mem == mem.(spec := mem.spec.(vpc := s.mem.spec.vpc, vswitches := s.mem.spec.vswitches))
            && (s.ok ==> ids == CloudIds(s.mem.spec.vswitches, |s.mem.spec.vswitches|))
  {
    var v := ReconciledVpc(db, Self(mem), mem.spec.vpc, plan.vpc);
    VpcFrame(db, Self(mem), mem.spec.vpc, plan.vpc);
    PassContract(v.db, Self(mem), v.id, mem.spec.vswitches, plan.vswitches);
  }

  lemma VpcFrame(db: Db, owner: OwnerRef, vpc: VPC, fault: Fault)
    ensures var later := ReconciledVpc(db, owner, vpc, fault).db;
            later.kubernetes == db.kubernetes && later.kubeconfigs == db.kubeconfigs && db.nextUid <= later.nextUid
  {
    var created := CreateVpc(db, vpc.name, [owner], vpc.cidrBlock);
    assert created.kubernetes == db.kubernetes && created.kubeconfigs == db.kubeconfigs;
    VpcCreatesAtMost(db, owner, vpc, fault);
  }

  lemma VpcCreatesAtMost(db: Db, owner: OwnerRef, vpc: VPC, fault: Fault)
    ensures ReconciledVpc(db, owner, vpc, fault).db in {db, CreateVpc(db, vpc.name, [owner], vpc.cidrBlock)}
  {
  }

  /** What a pass that has everything at hand leaves in the store and in memory. */
  ghost predicate FullPass(db: Db, c: string, cp: ControlPlane, plan: CpPlan, after: Db, m: ControlPlane)
    requires VpcAtHand(db, cp, plan)
  {
    && after.vswitches == db.vswitches && after.vpcs == db.vpcs
    && EntriesFilled(db, cp.spec.vswitches, m.spec.vswitches)
    && var filled := cp.spec.(vpc := FilledVpc(db, cp.spec.vpc), vswitches := m.spec.vswitches);
    if !plan.kubernetes.Works? then
      && after.kubernetes == db.kubernetes && after.kubeconfigs == db.kubeconfigs
      && m.spec == filled && m.status == cp.status
    else
      && ClusterWritten(db, after, c, cp, CloudIds(m.spec.vswitches, |m.spec.vswitches|))
      && StatusFollows(Seen(db, c), cp, m, plan.kubeconfig) && SpecFollows(Seen(db, c), filled, m.spec)
      && after.kubeconfigs == (if Connects(Seen(db, c), plan.kubeconfig) then db.kubeconfigs + {c} else db.kubeconfigs)
  }

  /** The cluster, its status and the kubeconfig are left alone. */
  ghost predicate ClusterUntouched(db: Db, cp: ControlPlane, after: Db, m: ControlPlane)
  {
    && after.kubernetes == db.kubernetes && after.kubeconfigs == db.kubeconfigs
    && m.status == cp.status && m.spec.endpoint == cp.spec.endpoint
  }

  lemma NetworkThenCluster(db: Db, c: string, mem: ControlPlane, plan: CpPlan)
    requires RealUids(db) && RealVpcUids(db) && NoHalves(mem.spec)
    ensures var (after, m) := NetworkAndClusterReconciled(db, c, mem, plan);
            if NetworkAtHand(db, mem, plan) then FullPass(db, c, mem, plan, after, m) else ClusterUntouched(db, mem, after, m)
  {
    NetworkDone(db, mem, plan);
    NetworkFrame(db, mem, plan);
    if NetworkAtHand(db, mem, plan) {
      var (s, ids) := NetworkReconciled(db, mem, plan);
      ClusterStage(s.db, c, s.mem, ids, plan);
      ClusterStageFrame(s.db, c, s.mem, ids, plan);
      assert Seen(s.db, c) == Seen(db, c);
    }
  }

  /** The pass over a live control plane, exactly. If the VPC and every vswitch are at hand it fills
      what was missing, writes the cluster, and ends with the status, the endpoint, the VPC id and the
      kubeconfig that the provider's report calls for; otherwise it leaves all of these alone. */
  lemma FullPassExactly(db: Db, c: string, plan: CpPlan, parses: CidrParser)
    requires Inv(db, parses) && c in db.controlPlanes && !db.controlPlanes[c].meta.Deleting() && Proceeds(db, c, plan)
    ensures var cp := db.controlPlanes[c];
            var (after, m) := PassBody(db, c, plan);
            if NetworkAtHand(db, cp, plan) then FullPass(db, c, cp, plan, after, m) else ClusterUntouched(db, cp, after, m)
  {
    var cp := db.controlPlanes[c];
    assert ControlPlaneOk(db.log, db.kubeconfigs, c, cp);
    UidsAreReal(db, parses);
    var a := ProceedingPass(db, c, plan, parses);
    NetworkThenCluster(a.db, c, a.mem, plan);
    var (after, m) := PassBody(db, c, plan);
    AtHandAfterFinalizer(db, c, cp, a, plan);
    if NetworkAtHand(db, cp, plan) {
      FullPassAfterFinalizer(db, c, cp, a, plan, after, m);
    }
  }

  lemma AtHandAfterFinalizer(db: Db, c: string, cp: ControlPlane, a: Step, plan: CpPlan)
    requires c in db.controlPlanes && Finalized(db, c, cp, a)
    ensures NetworkAtHand(a.db, a.mem, plan) <==> NetworkAtHand(db, cp, plan)
  {
    SameAtHand(a.db, db, Self(cp), cp.spec.vswitches, plan.vswitches);
  }

  lemma FullPassAfterFinalizer(db: Db, c: string, cp: ControlPlane, a: Step, plan: CpPlan, after: Db, m: ControlPlane)
    requires c in db.controlPlanes && Finalized(db, c, cp, a) && VpcAtHand(db, cp, plan)
    requires VpcAtHand(a.db, a.mem, plan) && FullPass(a.db, c, a.mem, plan, after, m)
    ensures FullPass(db, c, cp, plan, after, m)
  {
  }

  /******* A network that is not complete yet *******/

  /** As long as the VPC is not at hand no vswitch is looked at; the VPC itself is created if its
      name is free and the calls succeed, and is otherwise left as it is. */
  lemma VpcComesFirst(db: Db, c: string, plan: CpPlan, parses: CidrParser)
    requires Inv(db, parses) && c in db.controlPlanes && !db.controlPlanes[c].meta.Deleting() && Proceeds(db, c, plan)
    requires !VpcAtHand(db, db.controlPlanes[c], plan)
    ensures var cp := db.controlPlanes[c];
            var vpc := cp.spec.vpc;
            var (after, m) := PassBody(db, c, plan);
            && after.vswitches == db.vswitches && m.spec.vswitches == cp.spec.vswitches
            && if plan.vpc.Works? && vpc.name !in db.vpcs then
                 && vpc.name in after.vpcs && after.vpcs == db.vpcs[vpc.name := after.vpcs[vpc.name]]
                 && m.spec.vpc == vpc.(uid := after.vpcs[vpc.name].meta.uid)
                 && after.vpcs[vpc.name] ==
                    Vpc(Meta(m.spec.vpc.uid, [Self(cp)], None, {}), vpc.cidrBlock, None, Messages("", "", ""))
               else after.vpcs == db.vpcs && m.spec.vpc == vpc
  {
    var cp := db.controlPlanes[c];
    var vpc := cp.spec.vpc;
    assert ControlPlaneOk(db.log, db.kubeconfigs, c, cp);
    UidsAreReal(db, parses);
    var a := ProceedingPass(db, c, plan, parses);
    VpcDone(a.db, a.mem, plan);
    if !plan.vpc.ReadFails? && vpc.name !in db.vpcs {
      VpcCreatedAsAsked(a.db, Self(cp), vpc, plan.vpc);
    } else {
      VpcWaits(a.db, Self(cp), vpc, plan.vpc);
    }
  }

  /** The VPC id a complete block hands on; none if the block asks for no VPC. */
  function HandedOn(vpc: VPC): string
  {
    if vpc.id != "" then vpc.id else if vpc.resourceId != "" && vpc.uid != NO_UID then vpc.resourceId else ""
  }

  /** The loop either stops at entry k or has come to the end of the list. */
  ghost predicate EndsAt(db: Db, mem: ControlPlane, k: nat, plan: CpPlan)
  {
    && GetsTo(db, Self(mem), mem.spec.vswitches, k, plan.vswitches)
    && (k < |mem.spec.vswitches| ==> StopsAt(db, Self(mem), mem.spec.vswitches, k, plan.vswitches))
  }

  ghost predicate NetworkDoneTo(db: Db, mem: ControlPlane, plan: CpPlan, after: Db, entries: seq<VSwitch>, k: nat)
    requires VpcAtHand(db, mem, plan)
  {
    DoneTo(db, Self(mem), HandedOn(FilledVpc(db, mem.spec.vpc)), mem.spec.vswitches, plan.vswitches,
           Pass(after, entries, [], None), k)
  }

  lemma NetworkEndsAt(db: Db, mem: ControlPlane, plan: CpPlan, k: nat)
    requires RealUids(db) && RealVpcUids(db) && NoHalves(mem.spec) && VpcAtHand(db, mem, plan) && EndsAt(db, mem, k, plan)
    ensures var s := NetworkReconciled(db, mem, plan).0;
            NetworkDoneTo(db, mem, plan, s.db, s.mem.spec.vswitches, k)
  {
    VpcDone(db, mem, plan);
    var v := ReconciledVpc(db, Self(mem), mem.spec.vpc, plan.vpc);
    VpcIdHandedOn(db, mem, plan);
    if k < |mem.spec.vswitches| {
      PassStops(db, Self(mem), v.id, mem.spec.vswitches, plan.vswitches, k);
    } else {
      PassFinishes(db, Self(mem), v.id, mem.spec.vswitches, plan.vswitches);
    }
  }

  lemma VpcIdHandedOn(db: Db, mem: ControlPlane, plan: CpPlan)
    requires RealVpcUids(db) && VpcAtHand(db, mem, plan)
    ensures ReconciledVpc(db, Self(mem), mem.spec.vpc, plan.vpc).id == HandedOn(FilledVpc(db, mem.spec.vpc))
  {
    if Asks(mem.spec.vpc) {
      VpcAdopted(db, Self(mem), mem.spec.vpc, plan.vpc);
    }
  }

  /** With the VPC at hand, the vswitches are done up to the first one whose lookup fails or whose
      name is taken, in that VPC and for this control plane. */
  lemma VswitchesDoneTo(db: Db, c: string, plan: CpPlan, k: nat, parses: CidrParser)
    requires Inv(db, parses) && c in db.controlPlanes && !db.controlPlanes[c].meta.Deleting() && Proceeds(db, c, plan)
    requires VpcAtHand(db, db.controlPlanes[c], plan) && EndsAt(db, db.controlPlanes[c], k, plan)
    ensures var (after, m) := PassBody(db, c, plan);
            NetworkDoneTo(db, db.controlPlanes[c], plan, after, m.spec.vswitches, k)
  {
    var cp := db.controlPlanes[c];
    assert ControlPlaneOk(db.log, db.kubeconfigs, c, cp);
    UidsAreReal(db, parses);
    var a := ProceedingPass(db, c, plan, parses);
    EndsAfterFinalizer(db, c, cp, a, plan, k);
    NetworkEndsAt(a.db, a.mem, plan, k);
    ClusterLeavesVswitches(a.db, c, a.mem, plan);
    var s := NetworkReconciled(a.db, a.mem, plan).0;
    var (after, m) := PassBody(db, c, plan);
    DoneAfterFinalizer(db, c, cp, a, plan, s.db, after, m.spec.vswitches, k);
  }

  lemma EndsAfterFinalizer(db: Db, c: string, cp: ControlPlane, a: Step, plan: CpPlan, k: nat)
    requires c in db.controlPlanes && Finalized(db, c, cp, a) && EndsAt(db, cp, k, plan)
    ensures EndsAt(a.db, a.mem, k, plan)
  {
    assert Self(a.mem) == Self(cp) && a.mem.spec == cp.spec && a.db.vswitches == db.vswitches;
    forall i: nat
      ensures StopsAt(a.db, Self(cp), cp.spec.vswitches, i, plan.vswitches)
              <==> StopsAt(db, Self(cp), cp.spec.vswitches, i, plan.vswitches)
    {
    }
  }

  lemma DoneAfterFinalizer(db: Db, c: string, cp: ControlPlane, a: Step, plan: CpPlan, s: Db, after: Db,
                           entries: seq<VSwitch>, k: nat)
    requires c in db.controlPlanes && Finalized(db, c, cp, a) && VpcAtHand(db, cp, plan) && VpcAtHand(a.db, a.mem, plan)
    requires NetworkDoneTo(a.db, a.mem, plan, s, entries, k) && after.vswitches == s.vswitches
    ensures NetworkDoneTo(db, cp, plan, after, entries, k)
  {
  }

  /******* Deletion *******/

  ghost predicate RecordedVpcLives(db: Db, vpc: VPC)
  {
    vpc.resourceId != "" && vpc.name in db.vpcs && db.vpcs[vpc.name].meta.deletedAt == None
  }

  /** A recorded VPC can be looked up, and deleted if it is live. */
  ghost predicate VpcCallsWork(db: Db, vpc: VPC, fault: Fault)
  {
    (vpc.resourceId != "" ==> !fault.ReadFails?) && (RecordedVpcLives(db, vpc) ==> fault.Works?)
  }

  /** The stored VPCs after the removal of one. */
  ghost predicate VpcsLeft(db: Db, later: Db, vpc: VPC, fault: Fault)
  {
    later.vpcs == if !RecordedVpcLives(db, vpc) || !fault.Works? then db.vpcs
                  else if db.vpcs[vpc.name].meta.finalizers == {} then db.vpcs - {vpc.name}
                  else
                    var v := db.vpcs[vpc.name];
                    db.vpcs[vpc.name := v.(meta := v.meta.(deletedAt := Some(db.clock)))]
  }

  /** A stored cluster keeps everything else waiting: its deletion is asked for once, and nothing
      else happens. */
  lemma ClusterGoesFirst(db: Db, c: string, plan: CpPlan)
    requires c in db.controlPlanes && db.controlPlanes[c].meta.Deleting() && c in db.kubernetes
    ensures var k := db.kubernetes[c];
            var (after, m) := PassBody(db, c, plan);
            && m == db.controlPlanes[c] && after == db.(kubernetes := after.kubernetes)
            && after.kubernetes == (if k.meta.deletedAt.Some? || !plan.kubernetes.Works? then db.kubernetes
                                    else if k.meta.finalizers == {} then db.kubernetes - {c}
                                    else db.kubernetes[c := k.(meta := k.meta.(deletedAt := Some(db.clock)))])
  {
  }

  /** With the cluster gone, the listed vswitches go; if each is gone or going, or overdue, so does
      the recorded VPC; and if that call works too, the finalizer, and not otherwise. */
  lemma TeardownExactly(db: Db, c: string, plan: CpPlan)
    requires c in db.controlPlanes && db.controlPlanes[c].meta.Deleting() && c !in db.kubernetes
    requires !plan.kubernetes.ReadFails?
    ensures var cp := db.controlPlanes[c];
            var (after, m) := PassBody(db, c, plan);
            var entries, vpc := cp.spec.vswitches, cp.spec.vpc;
            && LeftAfter(db, after, entries, |entries|, plan.vswitches)
            && (if OnlyOverdue(db, entries, plan.vswitches) then VpcsLeft(db, after, vpc, plan.vpc) else after.vpcs == db.vpcs)
            && m == (if OnlyOverdue(db, entries, plan.vswitches) && VpcCallsWork(db, vpc, plan.vpc)
                     then cp.(meta := cp.meta.(finalizers := cp.meta.finalizers - {CONTROL_PLANE_FINALIZER}))
                     else cp)
  {
    var cp := db.controlPlanes[c];
    var entries, vpc := cp.spec.vswitches, cp.spec.vpc;
    RemovalExactly(db, entries, plan.vswitches);
    RemoveContract(db, entries, plan.vswitches);
    var r := RemovePass(db, entries, plan.vswitches);
    VpcRemovalExactly(r.db, vpc, plan.vpc);
    VpcRemovalOrder(r.db, vpc, plan.vpc);
  }

  lemma UnreadableClusterWaits(db: Db, c: string, plan: CpPlan)
    requires c in db.controlPlanes && db.controlPlanes[c].meta.Deleting() && plan.kubernetes.ReadFails?
    ensures PassBody(db, c, plan) == (db, db.controlPlanes[c])
  {
  }

  /** The calls of a deleting pass up to its deferred write let the finalizer go. */
  ghost predicate LetsGo(db: Db, c: string, cp: ControlPlane, plan: CpPlan)
  {
    && c !in db.kubernetes && !plan.kubernetes.ReadFails?
    && OnlyOverdue(db, cp.spec.vswitches, plan.vswitches) && VpcCallsWork(db, cp.spec.vpc, plan.vpc)
  }

  /** A pass over a deleting control plane makes its finalizer disappear from the store if and only
      if the cluster is gone, no call fails and both writes go through. */
  lemma ReleasedExactly(db: Db, c: string, plan: CpPlan, parses: CidrParser)
    requires Inv(db, parses) && HoldsFinalizer(db, c) && db.controlPlanes[c].meta.Deleting()
    ensures !HoldsFinalizer(ControlPlanePass(db, c, plan), c) <==>
            && plan.readable && LetsGo(db, c, db.controlPlanes[c], plan)
            && !plan.statusFault.WriteFails? && !plan.specFault.WriteFails?
  {
    var cp := db.controlPlanes[c];
    assert ControlPlaneOk(db.log, db.kubeconfigs, c, cp);
    UpdateReflexive(cp.spec);
    PassKeepsObject(db, c, plan);
    DeletedOrder(db, c, plan);
    LetsGoExactly(db, c, plan);
    var (after, m) := PassBody(db, c, plan);
    TwoPhaseRefinesAtomic(cp, m, AdmitsUpdate(m.spec, cp.spec), plan.statusFault, plan.specFault);
  }

  lemma LetsGoExactly(db: Db, c: string, plan: CpPlan)
    requires c in db.controlPlanes && db.controlPlanes[c].meta.Deleting()
    ensures var cp := db.controlPlanes[c];
            PassBody(db, c, plan).1 ==
            if LetsGo(db, c, cp, plan) then cp.(meta := WithoutFinalizer(cp.meta, CONTROL_PLANE_FINALIZER)) else cp
  {
    if plan.kubernetes.ReadFails? {
      UnreadableClusterWaits(db, c, plan);
    } else if c in db.kubernetes {
      ClusterGoesFirst(db, c, plan);
    } else {
      TeardownExactly(db, c, plan);
    }
  }

  /******* What of it is stored *******/

  /** A control plane that cannot be read is left alone. Otherwise the children are stored as the
      pass left them; the status is stored exactly if its write works, the spec and the finalizers
      exactly if the second write works too and is admitted; no other control plane is touched. */
  lemma PassIsStored(db: Db, c: string, plan: CpPlan)
    requires c in db.controlPlanes && !db.controlPlanes[c].meta.Gone()
    ensures var (body, m) := PassBody(db, c, plan);
            var after := ControlPlanePass(db, c, plan);
            if !plan.readable then after == db
            else
              && after == body.(controlPlanes := after.controlPlanes)
              && (forall d :: d != c ==> (d in after.controlPlanes <==> d in db.controlPlanes))
              && (forall d :: d != c && d in db.controlPlanes ==> after.controlPlanes[d] == db.controlPlanes[d])
              && c in body.controlPlanes
              && StoredAs(db.controlPlanes[c], body.controlPlanes[c].meta.finalizers, m, plan, c, after)
  {
    if plan.readable {
      PassOwnObject(db, c, plan);
      PassKeepsObject(db, c, plan);
      PassLeavesStatus(db, c, plan);
      var (body, m) := PassBody(db, c, plan);
      var stored := body.controlPlanes[c];
      TwoPhaseRefinesAtomic(stored, m, AdmitsUpdate(m.spec, stored.spec), plan.statusFault, plan.specFault);
    }
  }

  /** The stored object after the deferred write; early are the finalizers stored before it. */
  ghost predicate StoredAs(before: ControlPlane, early: set<string>, m: ControlPlane, plan: CpPlan, c: string,
                           after: Db)
  {
    var first := !plan.statusFault.WriteFails?;
    var second := first && !plan.specFault.WriteFails? && AdmitsUpdate(m.spec, before.spec);
    var finalizers := if second then m.meta.finalizers else early;
    if before.meta.Deleting() && finalizers == {} then c !in after.controlPlanes
    else
      && c in after.controlPlanes
      && var cp := after.controlPlanes[c];
      && cp.meta == before.meta.(finalizers := finalizers)
      && cp.status == (if first then m.status else before.status)
      && cp.spec == (if second then m.spec else before.spec)
  }

  lemma PassLeavesStatus(db: Db, c: string, plan: CpPlan)
    requires c in db.controlPlanes && !db.controlPlanes[c].meta.Gone()
    ensures var body := PassBody(db, c, plan).0;
            && c in body.controlPlanes && body.controlPlanes[c].status == db.controlPlanes[c].status
            && (db.controlPlanes[c].meta.Deleting() ==> body.controlPlanes == db.controlPlanes)
  {
    var cp := db.controlPlanes[c];
    if cp.meta.Deleting() {
      DeletedOrder(db, c, plan);
    } else {
      FinalizerAddedFacts(db, c, cp, plan.finalizerFault);
      var a := FinalizerAdded(db, c, cp, plan.finalizerFault);
      NetworkAndClusterOwn(a.db, c, a.mem, plan);
    }
  }

  /** Exactly which passes over a live control plane end Ready: those that get to the status and find
      the cluster up, and of the others those that were Ready before. */
  lemma ReadyAfterPass(db: Db, c: string, plan: CpPlan, parses: CidrParser)
    requires Inv(db, parses) && c in db.controlPlanes && !db.controlPlanes[c].meta.Deleting()
    ensures var cp := db.controlPlanes[c];
            PassBody(db, c, plan).1.status.ready <==>
            if Proceeds(db, c, plan) && NetworkAtHand(db, cp, plan) && plan.kubernetes.Works? then Up(Seen(db, c))
            else cp.status.ready
  {
    if Proceeds(db, c, plan) {
      FullPassExactly(db, c, plan, parses);
    } else {
      HeldUpPassIsIdle(db, c, plan);
    }
  }
}
