/** What a dying owner, control plane or machine pool, still has to take down: a measure that no
    event of any run can raise. */
module DeletionMeasure {
  import opened Wrappers
  import opened CommonApi
  import opened ApiServer
  import opened ControlPlaneWebhook
  import opened MachinePoolWebhook
  import opened VswitchReconcile
  import opened VswitchFacts
  import opened VpcReconcile
  import opened WriteBack
  import opened ControlPlaneController
  import opened MachinePoolController
  import opened Collectors
  import opened Runs
  import opened Invariant
  import opened Preservation
  import opened ControlPlaneStages
  import opened ControlPlaneResults
  import opened ControlPlaneRuns
  import opened RunTheorems
  import opened MachinePoolResults
  import opened Teardown
  import opened MachinePoolRuns

  /** The uid has been given out, and whoever has it is being deleted (or gone already). */
  ghost predicate Dying(db: Db, o: OwnerRef)
  {
    && o.uid in db.log
    && (forall c :: c in db.controlPlanes && Self(db.controlPlanes[c]) == o ==> db.controlPlanes[c].meta.Deleting())
    && (forall p :: p in db.pools && PoolSelf(db.pools[p]) == o ==> db.pools[p].meta.Deleting())
  }

  /** First of all a child of this owner. */
  predicate BelongsTo(meta: Meta, o: OwnerRef)
  {
    meta.owners != [] && meta.owners[0] == o
  }

  ghost function OwnedVswitches(db: Db, o: OwnerRef): set<string>
  {
    set n | n in db.vswitches && BelongsTo(db.vswitches[n].meta, o)
  }

  ghost function LiveVswitches(db: Db, o: OwnerRef): set<string>
  {
    set n | n in db.vswitches && BelongsTo(db.vswitches[n].meta, o) && !db.vswitches[n].meta.Deleting()
  }

  ghost function OwnedVpcs(db: Db, o: OwnerRef): set<string>
  {
    set n | n in db.vpcs && BelongsTo(db.vpcs[n].meta, o)
  }

  ghost function LiveVpcs(db: Db, o: OwnerRef): set<string>
  {
    set n | n in db.vpcs && BelongsTo(db.vpcs[n].meta, o) && !db.vpcs[n].meta.Deleting()
  }

  ghost function OwnedClusters(db: Db, o: OwnerRef): set<string>
  {
    set c | c in db.kubernetes && BelongsTo(db.kubernetes[c].meta, o)
  }

  ghost function LiveClusters(db: Db, o: OwnerRef): set<string>
  {
    set c | c in db.kubernetes && BelongsTo(db.kubernetes[c].meta, o) && !db.kubernetes[c].meta.Deleting()
  }

  ghost function OwnedNodePools(db: Db, o: OwnerRef): set<string>
  {
    set p | p in db.nodePools && BelongsTo(db.nodePools[p].meta, o)
  }

  ghost function LiveNodePools(db: Db, o: OwnerRef): set<string>
  {
    set p | p in db.nodePools && BelongsTo(db.nodePools[p].meta, o) && !db.nodePools[p].meta.Deleting()
  }

  ghost function Holders(db: Db, o: OwnerRef): set<string>
  {
    set c | c in db.controlPlanes && Self(db.controlPlanes[c]) == o && HoldsFinalizer(db, c)
  }

  ghost function PoolHolders(db: Db, o: OwnerRef): set<string>
  {
    set p | p in db.pools && PoolSelf(db.pools[p]) == o && PoolHoldsFinalizer(db, p)
  }

  /** Two for every live child, one for every deleting child, and one for the finalizer. */
  ghost function Remaining(db: Db, o: OwnerRef): nat
  {
    |OwnedVswitches(db, o)| + |LiveVswitches(db, o)| + |OwnedVpcs(db, o)| + |LiveVpcs(db, o)| +
    |OwnedClusters(db, o)| + |LiveClusters(db, o)| + |OwnedNodePools(db, o)| + |LiveNodePools(db, o)| +
    |Holders(db, o)| + |PoolHolders(db, o)|
  }

  /** The child was there before, with the same owners, and its deletion is not taken back. */
  ghost predicate Lasts(before: Meta, after: Meta)
  {
    after.owners == before.owners && (before.Deleting() ==> after.Deleting())
  }

  ghost predicate FewerVswitches(before: map<string, Vswitch>, after: map<string, Vswitch>, o: OwnerRef)
  {
    forall n :: n in after && BelongsTo(after[n].meta, o) ==> n in before && Lasts(before[n].meta, after[n].meta)
  }

  ghost predicate FewerVpcs(before: map<string, Vpc>, after: map<string, Vpc>, o: OwnerRef)
  {
    forall n :: n in after && BelongsTo(after[n].meta, o) ==> n in before && Lasts(before[n].meta, after[n].meta)
  }

  ghost predicate FewerClusters(before: map<string, ManagedKubernetes>, after: map<string, ManagedKubernetes>,
                                o: OwnerRef)
  {
    forall c :: c in after && BelongsTo(after[c].meta, o) ==> c in before && Lasts(before[c].meta, after[c].meta)
  }

  ghost predicate FewerNodePools(before: map<string, NodePool>, after: map<string, NodePool>, o: OwnerRef)
  {
    forall p :: p in after && BelongsTo(after[p].meta, o) ==> p in before && Lasts(before[p].meta, after[p].meta)
  }

  ghost predicate FewerHolders(before: map<string, ControlPlane>, after: map<string, ControlPlane>, o: OwnerRef)
  {
    forall c :: c in after && Self(after[c]) == o ==>
      && c in before && Self(before[c]) == o && after[c].meta.Deleting()
      && after[c].meta.finalizers <= before[c].meta.finalizers
  }

  ghost predicate FewerPoolHolders(before: map<string, Pool>, after: map<string, Pool>, o: OwnerRef)
  {
    forall p :: p in after && PoolSelf(after[p]) == o ==>
      && p in before && PoolSelf(before[p]) == o && after[p].meta.Deleting()
      && after[p].meta.finalizers <= before[p].meta.finalizers
  }

  ghost predicate QuietChildren(db: Db, later: Db, o: OwnerRef)
  {
    && FewerVswitches(db.vswitches, later.vswitches, o) && FewerVpcs(db.vpcs, later.vpcs, o)
    && FewerClusters(db.kubernetes, later.kubernetes, o) && FewerNodePools(db.nodePools, later.nodePools, o)
  }

  /** Nothing was added to what this owner has to take down. */
  ghost predicate Quiet(db: Db, later: Db, o: OwnerRef)
  {
    && QuietChildren(db, later, o)
    && FewerHolders(db.controlPlanes, later.controlPlanes, o) && FewerPoolHolders(db.pools, later.pools, o)
  }

  lemma QuietLowers(db: Db, later: Db, o: OwnerRef)
    requires Quiet(db, later, o)
    ensures OwnedVswitches(later, o) <= OwnedVswitches(db, o) && LiveVswitches(later, o) <= LiveVswitches(db, o)
    ensures OwnedVpcs(later, o) <= OwnedVpcs(db, o) && LiveVpcs(later, o) <= LiveVpcs(db, o)
    ensures OwnedClusters(later, o) <= OwnedClusters(db, o) && LiveClusters(later, o) <= LiveClusters(db, o)
    ensures OwnedNodePools(later, o) <= OwnedNodePools(db, o) && LiveNodePools(later, o) <= LiveNodePools(db, o)
    ensures Holders(later, o) <= Holders(db, o) && PoolHolders(later, o) <= PoolHolders(db, o)
  {
  }

  lemma SmallerSet<T>(a: set<T>, b: set<T>)
    requires a <= b
    ensures |a| <= |b| && (a != b ==> |a| < |b|)
  {
    assert b == a + (b - a);
    assert a != b ==> b - a != {};
  }

  /** Something left that this owner had to take down. */
  ghost predicate Progress(db: Db, later: Db, o: OwnerRef)
  {
    || OwnedVswitches(later, o) != OwnedVswitches(db, o) || LiveVswitches(later, o) != LiveVswitches(db, o)
    || OwnedVpcs(later, o) != OwnedVpcs(db, o) || LiveVpcs(later, o) != LiveVpcs(db, o)
    || OwnedClusters(later, o) != OwnedClusters(db, o) || LiveClusters(later, o) != LiveClusters(db, o)
    || OwnedNodePools(later, o) != OwnedNodePools(db, o) || LiveNodePools(later, o) != LiveNodePools(db, o)
    || Holders(later, o) != Holders(db, o) || PoolHolders(later, o) != PoolHolders(db, o)
  }

  lemma RemainingLowered(db: Db, later: Db, o: OwnerRef)
    requires Quiet(db, later, o)
    ensures Remaining(later, o) <= Remaining(db, o)
    ensures Progress(db, later, o) <==> Remaining(later, o) < Remaining(db, o)
  {
    QuietLowers(db, later, o);
    SmallerSet(OwnedVswitches(later, o), OwnedVswitches(db, o));
    SmallerSet(LiveVswitches(later, o), LiveVswitches(db, o));
    SmallerSet(OwnedVpcs(later, o), OwnedVpcs(db, o));
    SmallerSet(LiveVpcs(later, o), LiveVpcs(db, o));
    SmallerSet(OwnedClusters(later, o), OwnedClusters(db, o));
    SmallerSet(LiveClusters(later, o), LiveClusters(db, o));
    SmallerSet(OwnedNodePools(later, o), OwnedNodePools(db, o));
    SmallerSet(LiveNodePools(later, o), LiveNodePools(db, o));
    SmallerSet(Holders(later, o), Holders(db, o));
    SmallerSet(PoolHolders(later, o), PoolHolders(db, o));
  }

  /******* No event adds to what a dying owner has to take down *******/

  lemma OnlyCreatesQuiet(db: Db, later: Db, owner: OwnerRef, vpcId: string, o: OwnerRef)
    requires OnlyCreates(db, later, owner, vpcId) && owner != o
    ensures FewerVswitches(db.vswitches, later.vswitches, o)
  {
    forall n | n in later.vswitches && n !in db.vswitches ensures !BelongsTo(later.vswitches[n].meta, o) {
      assert FreshVswitch(db, later, n, owner, vpcId);
    }
  }

  lemma OnlyDeletesQuiet(db: Db, later: Db, entries: seq<VSwitch>, o: OwnerRef)
    requires OnlyDeletes(db, later, entries)
    ensures FewerVswitches(db.vswitches, later.vswitches, o)
  {
    forall n | n in later.vswitches && BelongsTo(later.vswitches[n].meta, o)
      ensures n in db.vswitches && Lasts(db.vswitches[n].meta, later.vswitches[n].meta)
    {
      assert DeletedOrKept(db, later, entries, n);
    }
  }

  lemma PutVswitchQuiet(db: Db, n: string, v: Vswitch, o: OwnerRef)
    requires n in db.vswitches && Lasts(db.vswitches[n].meta, v.meta)
    ensures QuietChildren(db, PutVswitch(db, n, v), o)
  {
  }

  lemma PutVpcQuiet(db: Db, n: string, v: Vpc, o: OwnerRef)
    requires n in db.vpcs && Lasts(db.vpcs[n].meta, v.meta)
    ensures QuietChildren(db, PutVpc(db, n, v), o)
  {
  }

  lemma PutKubernetesQuiet(db: Db, c: string, k: ManagedKubernetes, o: OwnerRef)
    requires c in db.kubernetes && Lasts(db.kubernetes[c].meta, k.meta)
    ensures QuietChildren(db, PutKubernetes(db, c, k), o)
  {
  }

  lemma PutNodePoolQuiet(db: Db, p: string, np: NodePool, o: OwnerRef)
    requires p in db.nodePools && Lasts(db.nodePools[p].meta, np.meta)
    ensures QuietChildren(db, PutNodePool(db, p, np), o)
  {
  }

  lemma RemovedVpcQuiet(db: Db, vpc: VPC, fault: Fault, o: OwnerRef)
    ensures QuietChildren(db, RemovedVpc(db, vpc, fault).db, o)
  {
    if vpc.name in db.vpcs {
      var v := db.vpcs[vpc.name];
      PutVpcQuiet(db, vpc.name, v.(meta := MarkDeleted(db, v.meta)), o);
    }
  }

  lemma TornDownQuiet(db: Db, cp: ControlPlane, plan: CpPlan, o: OwnerRef)
    ensures QuietChildren(db, TornDown(db, cp, plan).0, o)
  {
    RemoveContract(db, cp.spec.vswitches, plan.vswitches);
    var r := RemovePass(db, cp.spec.vswitches, plan.vswitches);
    OnlyDeletesQuiet(db, r.db, cp.spec.vswitches, o);
    RemovedVpcQuiet(r.db, cp.spec.vpc, plan.vpc, o);
  }

  lemma DeletedQuiet(db: Db, c: string, cp: ControlPlane, plan: CpPlan, o: OwnerRef)
    ensures QuietChildren(db, Deleted(db, c, cp, plan).0, o)
  {
    if c in db.kubernetes {
      var k := db.kubernetes[c];
      PutKubernetesQuiet(db, c, k.(meta := MarkDeleted(db, k.meta)), o);
    } else {
      TornDownQuiet(db, cp, plan, o);
    }
  }

  lemma VpcQuiet(db: Db, owner: OwnerRef, vpc: VPC, fault: Fault, o: OwnerRef)
    requires owner != o
    ensures var v := ReconciledVpc(db, owner, vpc, fault);
            v.db.vswitches == db.vswitches && FewerVpcs(db.vpcs, v.db.vpcs, o)
  {
  }

  lemma NetworkQuiet(db: Db, mem: ControlPlane, plan: CpPlan, o: OwnerRef)
    requires Self(mem) != o
    ensures QuietChildren(db, NetworkReconciled(db, mem, plan).0.db, o)
  {
    VpcQuiet(db, Self(mem), mem.spec.vpc, plan.vpc, o);
    VpcLeavesCluster(db, Self(mem), mem.spec.vpc, plan.vpc);
    VpcLeavesPools(db, Self(mem), mem.spec.vpc, plan.vpc);
    var v := ReconciledVpc(db, Self(mem), mem.spec.vpc, plan.vpc);
    PassContract(v.db, Self(mem), v.id, mem.spec.vswitches, plan.vswitches);
    var p := VswitchPass(v.db, Self(mem), v.id, mem.spec.vswitches, plan.vswitches);
    OnlyCreatesQuiet(v.db, p.db, Self(mem), v.id, o);
    assert p.db.vpcs == v.db.vpcs && p.db.kubernetes == v.db.kubernetes && p.db.nodePools == v.db.nodePools;
  }

  lemma KubernetesQuiet(db: Db, c: string, mem: ControlPlane, ids: seq<string>, fault: Fault, o: OwnerRef)
    requires Self(mem) != o
    ensures QuietChildren(db, KubernetesReconciled(db, c, mem, ids, fault).0.db, o)
  {
    if c in db.kubernetes {
      PutKubernetesQuiet(db, c, db.kubernetes[c].(clusterName := mem.spec.clusterName), o);
    }
  }

  lemma ClusterQuiet(db: Db, c: string, mem: ControlPlane, ids: seq<string>, plan: CpPlan, o: OwnerRef)
    requires Self(mem) != o
    ensures QuietChildren(db, ClusterReconciled(db, c, mem, ids, plan).0, o)
  {
    KubernetesQuiet(db, c, mem, ids, plan.kubernetes, o);
    var (k, view) := KubernetesReconciled(db, c, mem, ids, plan.kubernetes);
    StatusFrame(k.db, c, k.mem, view, plan.kubeconfig);
  }

  lemma NetworkAndClusterQuiet(db: Db, c: string, mem: ControlPlane, plan: CpPlan, o: OwnerRef)
    requires Self(mem) != o
    ensures QuietChildren(db, NetworkAndClusterReconciled(db, c, mem, plan).0, o)
  {
    NetworkQuiet(db, mem, plan, o);
    NetworkLeavesCluster(db, mem, plan);
    var (n, ids) := NetworkReconciled(db, mem, plan);
    ClusterQuiet(n.db, c, n.mem, ids, plan, o);
  }

  lemma SyncedQuiet(db: Db, c: string, plan: CpPlan, o: OwnerRef)
    requires c in db.controlPlanes && !db.controlPlanes[c].meta.Gone() && Self(db.controlPlanes[c]) != o
    ensures QuietChildren(db, Synced(db, c, db.controlPlanes[c], plan).0, o)
  {
    var cp := db.controlPlanes[c];
    FinalizerAddedFacts(db, c, cp, plan.finalizerFault);
    var a := FinalizerAdded(db, c, cp, plan.finalizerFault);
    NetworkAndClusterQuiet(a.db, c, a.mem, plan, o);
  }

  lemma PassIsQuiet(db: Db, c: string, plan: CpPlan, o: OwnerRef)
    requires c in db.controlPlanes && !db.controlPlanes[c].meta.Gone() && Dying(db, o)
    ensures Quiet(db, ControlPlanePass(db, c, plan), o)
  {
    ControlPlanePassLeavesPools(db, c, plan);
    if plan.readable {
      var cp := db.controlPlanes[c];
      PassKeepsObject(db, c, plan);
      PassOwnObject(db, c, plan);
      if cp.meta.Deleting() {
        DeletedQuiet(db, c, cp, plan, o);
      } else {
        SyncedQuiet(db, c, plan, o);
      }
      var (after, m) := PassBody(db, c, plan);
      assert QuietChildren(db, after, o);
      WriteIsQuiet(db, after, c, m, plan, o);
    }
  }

  lemma WriteIsQuiet(db: Db, after: Db, c: string, mem: ControlPlane, plan: CpPlan, o: OwnerRef)
    requires c in db.controlPlanes && c in after.controlPlanes && Dying(db, o)
    requires after.controlPlanes == db.controlPlanes[c := after.controlPlanes[c]]
    requires SameBut(db.controlPlanes[c].meta, after.controlPlanes[c].meta) && SameBut(db.controlPlanes[c].meta, mem.meta)
    requires Self(db.controlPlanes[c]) == o ==>
               after.controlPlanes == db.controlPlanes && mem.meta.finalizers <= db.controlPlanes[c].meta.finalizers
    ensures FewerHolders(db.controlPlanes, WrittenControlPlane(after, c, mem, plan).controlPlanes, o)
  {
    var stored := after.controlPlanes[c];
    TwoPhaseRefinesAtomic(stored, mem, AdmitsUpdate(mem.spec, stored.spec), plan.statusFault, plan.specFault);
  }

  lemma PoolDeletedQuiet(db: Db, p: string, pool: Pool, plan: PoolPlan, o: OwnerRef)
    ensures QuietChildren(db, PoolDeleted(db, p, pool, plan).0, o)
  {
    if p in db.nodePools {
      var np := db.nodePools[p];
      PutNodePoolQuiet(db, p, np.(meta := MarkDeleted(db, np.meta)), o);
    } else {
      RemoveContract(db, pool.spec.vswitches, plan.vswitches);
      OnlyDeletesQuiet(db, RemovePass(db, pool.spec.vswitches, plan.vswitches).db, pool.spec.vswitches, o);
    }
  }

  lemma NodePoolQuiet(db: Db, p: string, mem: Pool, cp: ControlPlane, ids: seq<string>, plan: PoolPlan, o: OwnerRef)
    requires PoolSelf(mem) != o
    ensures var n := NodePoolReconciled(db, p, mem, cp, ids, plan).0;
            FewerNodePools(db.nodePools, n.db.nodePools, o)
  {
    var spec := mem.spec.(region := cp.spec.region, clusterId := cp.status.clusterId);
    if p in db.nodePools {
      var np := db.nodePools[p];
      var c := CredentialsEnsured(db, p, spec, np.spec.(vswitchIds := ids, keyName := Some(spec.keyName)), plan.secret);
      assert FewerNodePools(db.nodePools, PutNodePool(c.db, p, np.(spec := c.spec)).nodePools, o);
    } else {
      var wanted := NodePoolSpec(spec.clusterId, ids, None, None, spec.securityGroupIds);
      var c := CredentialsEnsured(db, p, spec, wanted, plan.secret);
      assert FewerNodePools(db.nodePools, CreateNodePool(c.db, p, [PoolSelf(mem)], c.spec).nodePools, o);
    }
  }

  lemma PoolChildrenQuiet(db: Db, p: string, mem: Pool, cp: ControlPlane, k: ManagedKubernetes, plan: PoolPlan,
                          o: OwnerRef)
    requires PoolSelf(mem) != o
    ensures QuietChildren(db, PoolChildrenReconciled(db, p, mem, cp, k, plan).0, o)
  {
    PoolChildrenFrame(db, p, mem, cp, k, plan);
    var v := VswitchPass(db, PoolSelf(mem), k.status.vpcId, mem.spec.vswitches, plan.vswitches);
    OnlyCreatesQuiet(db, v.db, PoolSelf(mem), k.status.vpcId, o);
    NodePoolQuiet(v.db, p, mem.(spec := mem.spec.(vswitches := v.entries)), cp, v.ids, plan, o);
  }

  lemma PoolSyncedQuiet(db: Db, p: string, parses: CidrParser, plan: PoolPlan, o: OwnerRef)
    requires p in db.pools && !db.pools[p].meta.Gone() && PoolSelf(db.pools[p]) != o
    ensures QuietChildren(db, PoolSynced(db, p, db.pools[p], parses, plan).0, o)
  {
    var pool := db.pools[p];
    PoolFinalizerAddedFacts(db, p, pool, parses, plan.finalizerFault);
    var a := PoolFinalizerAdded(db, p, pool, parses, plan.finalizerFault);
    var c := pool.spec.cluster;
    if c in db.controlPlanes && c in a.db.kubernetes {
      PoolChildrenQuiet(a.db, p, a.mem, db.controlPlanes[c], a.db.kubernetes[c], plan, o);
    }
  }

  lemma PoolWriteIsQuiet(db: Db, after: Db, p: string, mem: Pool, parses: CidrParser, plan: PoolPlan, o: OwnerRef)
    requires p in db.pools && p in after.pools && Dying(db, o)
    requires after.pools == db.pools[p := after.pools[p]]
    requires SameBut(db.pools[p].meta, after.pools[p].meta) && SameBut(db.pools[p].meta, mem.meta)
    requires PoolSelf(db.pools[p]) == o ==> after.pools == db.pools && mem.meta.finalizers <= db.pools[p].meta.finalizers
    ensures FewerPoolHolders(db.pools, WrittenPool(after, p, mem, parses, plan).pools, o)
  {
    var stored := after.pools[p];
    TwoPhaseRefinesAtomic(stored, mem, PoolAdmitsUpdate(mem.spec, stored.spec, parses), plan.statusFault, plan.specFault);
  }

  lemma PoolPassIsQuiet(db: Db, p: string, parses: CidrParser, plan: PoolPlan, o: OwnerRef)
    requires p in db.pools && !db.pools[p].meta.Gone() && Dying(db, o)
    ensures Quiet(db, PoolPass(db, p, parses, plan), o)
  {
    PoolPassFrame(db, p, parses, plan);
    if plan.readable {
      var pool := db.pools[p];
      PoolPassKeepsObject(db, p, parses, plan);
      PoolPassOwnObject(db, p, parses, plan);
      if pool.meta.Deleting() {
        PoolDeletedQuiet(db, p, pool, plan, o);
      } else {
        PoolSyncedQuiet(db, p, parses, plan, o);
      }
      var (after, m) := PoolPassBody(db, p, parses, plan);
      assert QuietChildren(db, after, o);
      PoolWriteIsQuiet(db, after, p, m, parses, plan, o);
    }
  }

  lemma SameOwnersAreQuiet(db: Db, later: Db, o: OwnerRef)
    requires Dying(db, o) && later.controlPlanes == db.controlPlanes && later.pools == db.pools
    requires QuietChildren(db, later, o)
    ensures Quiet(db, later, o)
  {
  }

  lemma CollectionIsQuiet(db: Db, n: string, plan: CollectPlan, o: OwnerRef)
    requires Dying(db, o)
    ensures Quiet(db, CollectPass(db, n, plan), o)
  {
    CollectionFrame(db, n, plan);
    UntouchedIsQuiet(db, db, o);
    if CollectPass(db, n, plan) != db {
      var v := db.vswitches[n];
      VswitchDeletionIsQuiet(db, n, o);
      PutVswitchQuiet(db, n, v.(meta := WithoutFinalizer(v.meta, MANAGED_FINALIZER)), o);
      SameOwnersAreQuiet(db, ForceCleaned(db, n), o);
    }
  }

  lemma CleaningIsQuiet(db: Db, n: string, fault: Fault, o: OwnerRef)
    requires Dying(db, o)
    ensures Quiet(db, ForceCleanVpc(db, n, fault), o)
  {
    if n in db.vpcs {
      var v := db.vpcs[n];
      PutVpcQuiet(db, n, v.(meta := WithoutFinalizer(v.meta, MANAGED_FINALIZER)), o);
    }
    SameOwnersAreQuiet(db, ForceCleanVpc(db, n, fault), o);
  }

  lemma ReportedVswitchIsQuiet(db: Db, n: string, finalizers: set<string>, cloudId: Option<string>,
                               messages: Messages, o: OwnerRef)
    requires Dying(db, o) && n in db.vswitches
    ensures Quiet(db, ReportedVswitch(db, n, finalizers, cloudId, messages), o)
  {
    var v := db.vswitches[n];
    PutVswitchQuiet(db, n, v.(meta := v.meta.(finalizers := finalizers), cloudId := cloudId, messages := messages), o);
    SameOwnersAreQuiet(db, ReportedVswitch(db, n, finalizers, cloudId, messages), o);
  }

  lemma ReportedVpcIsQuiet(db: Db, n: string, finalizers: set<string>, cloudId: Option<string>, messages: Messages,
                           o: OwnerRef)
    requires Dying(db, o) && n in db.vpcs
    ensures Quiet(db, ReportedVpc(db, n, finalizers, cloudId, messages), o)
  {
    var v := db.vpcs[n];
    PutVpcQuiet(db, n, v.(meta := v.meta.(finalizers := finalizers), cloudId := cloudId, messages := messages), o);
    SameOwnersAreQuiet(db, ReportedVpc(db, n, finalizers, cloudId, messages), o);
  }

  lemma ReportedKubernetesIsQuiet(db: Db, c: string, finalizers: set<string>, status: KubernetesStatus, o: OwnerRef)
    requires Dying(db, o) && c in db.kubernetes
    ensures Quiet(db, ReportedKubernetes(db, c, finalizers, status), o)
  {
    var k := db.kubernetes[c];
    PutKubernetesQuiet(db, c, k.(meta := k.meta.(finalizers := finalizers), status := status), o);
    SameOwnersAreQuiet(db, ReportedKubernetes(db, c, finalizers, status), o);
  }

  lemma ReportedNodePoolIsQuiet(db: Db, p: string, finalizers: set<string>, status: NodePoolStatus, o: OwnerRef)
    requires Dying(db, o) && p in db.nodePools
    ensures Quiet(db, ReportedNodePool(db, p, finalizers, status), o)
  {
    var np := db.nodePools[p];
    PutNodePoolQuiet(db, p, np.(meta := np.meta.(finalizers := finalizers), status := status), o);
    SameOwnersAreQuiet(db, ReportedNodePool(db, p, finalizers, status), o);
  }

  lemma ProviderIsQuiet(db: Db, e: Event, parses: CidrParser, o: OwnerRef)
    requires Dying(db, o) && (e.ProviderVswitch? || e.ProviderVpc? || e.ProviderKubernetes? || e.ProviderNodePool?)
    ensures Quiet(db, Next(db, e, parses), o)
  {
    UntouchedIsQuiet(db, db, o);
    if Next(db, e, parses) != db {
      match e
      case ProviderVswitch(n, fs, id, messages) => ReportedVswitchIsQuiet(db, n, fs, id, messages, o);
      case ProviderVpc(n, fs, id, messages) => ReportedVpcIsQuiet(db, n, fs, id, messages, o);
      case ProviderKubernetes(c, fs, status) => ReportedKubernetesIsQuiet(db, c, fs, status, o);
      case ProviderNodePool(p, fs, status) => ReportedNodePoolIsQuiet(db, p, fs, status, o);
    }
  }

  lemma VswitchDeletionIsQuiet(db: Db, n: string, o: OwnerRef)
    requires Dying(db, o) && n in db.vswitches
    ensures Quiet(db, DeleteVswitch(db, n), o)
  {
    PutVswitchQuiet(db, n, db.vswitches[n].(meta := MarkDeleted(db, db.vswitches[n].meta)), o);
    SameOwnersAreQuiet(db, DeleteVswitch(db, n), o);
  }

  lemma VpcDeletionIsQuiet(db: Db, n: string, o: OwnerRef)
    requires Dying(db, o) && n in db.vpcs
    ensures Quiet(db, DeleteVpc(db, n), o)
  {
    PutVpcQuiet(db, n, db.vpcs[n].(meta := MarkDeleted(db, db.vpcs[n].meta)), o);
    SameOwnersAreQuiet(db, DeleteVpc(db, n), o);
  }

  lemma KubernetesDeletionIsQuiet(db: Db, c: string, o: OwnerRef)
    requires Dying(db, o) && c in db.kubernetes
    ensures Quiet(db, DeleteKubernetes(db, c), o)
  {
    PutKubernetesQuiet(db, c, db.kubernetes[c].(meta := MarkDeleted(db, db.kubernetes[c].meta)), o);
    SameOwnersAreQuiet(db, DeleteKubernetes(db, c), o);
  }

  lemma NodePoolDeletionIsQuiet(db: Db, p: string, o: OwnerRef)
    requires Dying(db, o) && p in db.nodePools
    ensures Quiet(db, DeleteNodePool(db, p), o)
  {
    PutNodePoolQuiet(db, p, db.nodePools[p].(meta := MarkDeleted(db, db.nodePools[p].meta)), o);
    SameOwnersAreQuiet(db, DeleteNodePool(db, p), o);
  }

  lemma OutsiderIsQuiet(db: Db, e: Event, parses: CidrParser, o: OwnerRef)
    requires Dying(db, o)
    requires e.OutsiderDeletesVswitch? || e.OutsiderDeletesVpc? || e.OutsiderDeletesKubernetes? || e.OutsiderDeletesNodePool?
    ensures Quiet(db, Next(db, e, parses), o)
  {
    UntouchedIsQuiet(db, db, o);
    if Next(db, e, parses) != db {
      match e
      case OutsiderDeletesVswitch(n) => VswitchDeletionIsQuiet(db, n, o);
      case OutsiderDeletesVpc(n) => VpcDeletionIsQuiet(db, n, o);
      case OutsiderDeletesKubernetes(c) => KubernetesDeletionIsQuiet(db, c, o);
      case OutsiderDeletesNodePool(p) => NodePoolDeletionIsQuiet(db, p, o);
    }
  }

  lemma UntouchedIsQuiet(db: Db, later: Db, o: OwnerRef)
    requires Dying(db, o) && SameControlPlanes(db, later) && SamePools(db, later)
    requires later.vswitches == db.vswitches && later.vpcs == db.vpcs
    ensures Quiet(db, later, o)
  {
  }

  lemma OutsiderCreationIsQuiet(db: Db, n: string, zoneId: string, cidrBlock: string, vpcId: string, o: OwnerRef)
    requires Dying(db, o)
    ensures Quiet(db, CreateVswitch(db, n, [], zoneId, cidrBlock, vpcId), o)
  {
    SameOwnersAreQuiet(db, CreateVswitch(db, n, [], zoneId, cidrBlock, vpcId), o);
  }

  lemma NewControlPlaneIsQuiet(db: Db, c: string, spec: ControlPlaneSpec, o: OwnerRef)
    requires LogOk(db) && Dying(db, o)
    ensures Quiet(db, CreatedControlPlane(db, c, spec), o)
  {
    assert db.nextUid != o.uid;
  }

  lemma NewPoolIsQuiet(db: Db, p: string, spec: PoolSpec, o: OwnerRef)
    requires LogOk(db) && Dying(db, o)
    ensures Quiet(db, CreatedPool(db, p, spec), o)
  {
    assert db.nextUid != o.uid;
  }

  lemma UserUpdateIsQuiet(db: Db, c: string, spec: ControlPlaneSpec, o: OwnerRef)
    requires Dying(db, o) && c in db.controlPlanes
    ensures Quiet(db, UpdatedByUser(db, c, spec), o)
  {
    OwnerPutIsQuiet(db, c, db.controlPlanes[c].(version := db.controlPlanes[c].version + 1, spec := spec), o);
  }

  lemma UserDeletionIsQuiet(db: Db, c: string, o: OwnerRef)
    requires Dying(db, o) && c in db.controlPlanes
    ensures Quiet(db, DeletedControlPlane(db, c), o)
  {
    OwnerPutIsQuiet(db, c, db.controlPlanes[c].(meta := MarkDeleted(db, db.controlPlanes[c].meta)), o);
  }

  lemma OwnerPutIsQuiet(db: Db, c: string, cp: ControlPlane, o: OwnerRef)
    requires Dying(db, o) && c in db.controlPlanes && cp.meta.uid == db.controlPlanes[c].meta.uid
    requires cp.meta.finalizers == db.controlPlanes[c].meta.finalizers
    requires db.controlPlanes[c].meta.Deleting() ==> cp.meta.Deleting()
    ensures Quiet(db, PutControlPlane(db, c, cp), o)
  {
  }

  lemma PoolUpdateIsQuiet(db: Db, p: string, spec: PoolSpec, o: OwnerRef)
    requires Dying(db, o) && p in db.pools
    ensures Quiet(db, UpdatedPool(db, p, spec), o)
  {
    PoolPutIsQuiet(db, p, db.pools[p].(version := db.pools[p].version + 1, spec := spec), o);
  }

  lemma PoolDeletionIsQuiet(db: Db, p: string, o: OwnerRef)
    requires Dying(db, o) && p in db.pools
    ensures Quiet(db, DeletedPool(db, p), o)
  {
    PoolPutIsQuiet(db, p, db.pools[p].(meta := MarkDeleted(db, db.pools[p].meta)), o);
  }

  lemma PoolPutIsQuiet(db: Db, p: string, pool: Pool, o: OwnerRef)
    requires Dying(db, o) && p in db.pools && pool.meta.uid == db.pools[p].meta.uid
    requires pool.meta.finalizers == db.pools[p].meta.finalizers
    requires db.pools[p].meta.Deleting() ==> pool.meta.Deleting()
    ensures Quiet(db, PutPool(db, p, pool), o)
  {
  }

  lemma UserIsQuiet(db: Db, e: Event, parses: CidrParser, o: OwnerRef)
    requires Dying(db, o)
    requires e.UserUpdatesControlPlane? || e.UserDeletesControlPlane? || e.UserUpdatesPool? || e.UserDeletesPool?
    ensures Quiet(db, Next(db, e, parses), o)
  {
    UntouchedIsQuiet(db, db, o);
    if Next(db, e, parses) != db {
      match e
      case UserUpdatesControlPlane(c, spec) => UserUpdateIsQuiet(db, c, spec, o);
      case UserDeletesControlPlane(c) => UserDeletionIsQuiet(db, c, o);
      case UserUpdatesPool(p, spec) => PoolUpdateIsQuiet(db, p, spec, o);
      case UserDeletesPool(p) => PoolDeletionIsQuiet(db, p, o);
    }
  }

  lemma CreationIsQuiet(db: Db, e: Event, parses: CidrParser, o: OwnerRef)
    requires LogOk(db) && Dying(db, o) && (e.UserCreatesControlPlane? || e.UserCreatesPool? || e.OutsiderCreatesVswitch?)
    ensures Quiet(db, Next(db, e, parses), o)
  {
    UntouchedIsQuiet(db, db, o);
    if Next(db, e, parses) != db {
      match e
      case UserCreatesControlPlane(c, spec) => NewControlPlaneIsQuiet(db, c, spec, o);
      case UserCreatesPool(p, spec) => NewPoolIsQuiet(db, p, spec, o);
      case OutsiderCreatesVswitch(n, zoneId, cidrBlock, vpcId) => OutsiderCreationIsQuiet(db, n, zoneId, cidrBlock, vpcId, o);
    }
  }

  /** Once an owner is being deleted, no event of any kind adds to what it has to take down. */
  lemma EveryStepIsQuiet(db: Db, e: Event, parses: CidrParser, o: OwnerRef)
    requires LogOk(db) && Dying(db, o)
    ensures Quiet(db, Next(db, e, parses), o)
  {
    if e.ReconcileControlPlane? || e.ReconcilePool? {
      PassesAreQuiet(db, e, parses, o);
    } else if e.CollectVswitch? {
      CollectionIsQuiet(db, e.n, e.collectPlan, o);
    } else if e.CleanVpc? {
      CleaningIsQuiet(db, e.n, e.fault, o);
    } else if e.ProviderVswitch? || e.ProviderVpc? || e.ProviderKubernetes? || e.ProviderNodePool? {
      ProviderIsQuiet(db, e, parses, o);
    } else if e.OutsiderDeletesVswitch? || e.OutsiderDeletesVpc? || e.OutsiderDeletesKubernetes? || e.OutsiderDeletesNodePool? {
      OutsiderIsQuiet(db, e, parses, o);
    } else if e.UserUpdatesControlPlane? || e.UserDeletesControlPlane? || e.UserUpdatesPool? || e.UserDeletesPool? {
      UserIsQuiet(db, e, parses, o);
    } else if e.Tick? {
      UntouchedIsQuiet(db, db.(clock := db.clock + 1), o);
    } else {
      CreationIsQuiet(db, e, parses, o);
    }
  }

  lemma PassesAreQuiet(db: Db, e: Event, parses: CidrParser, o: OwnerRef)
    requires Dying(db, o) && (e.ReconcileControlPlane? || e.ReconcilePool?)
    ensures Quiet(db, Next(db, e, parses), o)
  {
    UntouchedIsQuiet(db, db, o);
    if e.ReconcileControlPlane? {
      if e.c in db.controlPlanes && !db.controlPlanes[e.c].meta.Gone() {
        PassIsQuiet(db, e.c, e.plan, o);
      }
    } else if e.p in db.pools && !db.pools[e.p].meta.Gone() {
      PoolPassIsQuiet(db, e.p, parses, e.poolPlan, o);
    }
  }
}
