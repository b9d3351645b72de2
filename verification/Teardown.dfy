/** Deletion: the order in which a control plane's children go, and its finalizer last. */
module Teardown {
  import opened Wrappers
  import opened CommonApi
  import opened ApiServer
  import opened ControlPlaneWebhook
  import opened MachinePoolWebhook
  import opened VswitchReconcile
  import opened VswitchFacts
  import opened VpcReconcile
  import opened WriteBack
  import opened ControlPlaneController
  import opened MachinePoolController
  import opened Collectors
  import opened Runs
  import opened Invariant
  import opened Preservation
  import opened ControlPlaneStages
  import opened ControlPlaneResults
  import opened ControlPlaneRuns
  import opened RunTheorems

  /** The set of stored objects never grew, and no uid was given out. */
  ghost predicate NothingCreated(db: Db, later: Db)
  {
    && later.nextUid == db.nextUid && later.log == db.log
    && later.vswitches.Keys <= db.vswitches.Keys && later.vpcs.Keys <= db.vpcs.Keys
    && later.kubernetes.Keys <= db.kubernetes.Keys && later.nodePools == db.nodePools
    && later.passwords == db.passwords && later.kubeconfigs == db.kubeconfigs && later.pools == db.pools
  }

  ghost predicate HoldsFinalizer(db: Db, c: string)
  {
    c in db.controlPlanes && CONTROL_PLANE_FINALIZER in db.controlPlanes[c].meta.finalizers
  }

  lemma DeletedOrder(db: Db, c: string, plan: CpPlan)
    requires c in db.controlPlanes
    ensures var cp := db.controlPlanes[c];
            var (after, m) := Deleted(db, c, cp, plan);
            && NothingCreated(db, after) && after.controlPlanes == db.controlPlanes
            && (c in db.kubernetes ==> after.vswitches == db.vswitches && after.vpcs == db.vpcs)
            && (m == cp || (&& m == cp.(meta := WithoutFinalizer(cp.meta, CONTROL_PLANE_FINALIZER))
                            && ChildrenGoing(after, c, cp.spec)))
  {
    if c !in db.kubernetes {
      TornDownOrder(db, c, db.controlPlanes[c], plan);
    } else {
      assert NothingCreated(db, DeleteKubernetes(db, c));
    }
  }

  /** The cluster is absent, and all that the spec had created is absent or marked deleting. */
  ghost predicate ChildrenGoing(db: Db, c: string, spec: ControlPlaneSpec)
  {
    && c !in db.kubernetes
    && (forall n :: SelfCreated(spec.vswitches, n) ==> AbsentOrDeleting(db, n))
    && (spec.vpc.resourceId != "" && spec.vpc.name in db.vpcs ==> db.vpcs[spec.vpc.name].meta.Deleting())
  }

  lemma VpcRemovalOrder(db: Db, vpc: VPC, fault: Fault)
    ensures var v := RemovedVpc(db, vpc, fault);
            && v.db == db.(vpcs := v.db.vpcs) && v.db.vpcs.Keys <= db.vpcs.Keys
            && ((v.err.None? || v.err.value == Timeout) && vpc.resourceId != "" && vpc.name in v.db.vpcs ==>
                  v.db.vpcs[vpc.name].meta.Deleting())
  {
  }

  lemma TornDownOrder(db: Db, c: string, cp: ControlPlane, plan: CpPlan)
    requires c !in db.kubernetes
    ensures var (after, m) := TornDown(db, cp, plan);
            && NothingCreated(db, after) && after.controlPlanes == db.controlPlanes
            && (m == cp || (&& m == cp.(meta := WithoutFinalizer(cp.meta, CONTROL_PLANE_FINALIZER))
                            && ChildrenGoing(after, c, cp.spec)))
  {
    RemoveContract(db, cp.spec.vswitches, plan.vswitches);
    var r := RemovePass(db, cp.spec.vswitches, plan.vswitches);
    VpcRemovalOrder(r.db, cp.spec.vpc, plan.vpc);
    assert NothingCreated(db, r.db) && NothingCreated(db, RemovedVpc(r.db, cp.spec.vpc, plan.vpc).db);
  }

  /** A pass over a deleting control plane creates nothing, whatever fails; as long as the
      cluster is stored it touches no vswitch and no VPC; and it gives up its finalizer only
      when the cluster is gone and everything else it created is gone or going. */
  lemma DeletionOrder(db: Db, c: string, plan: CpPlan, parses: CidrParser)
    requires Inv(db, parses) && c in db.controlPlanes && db.controlPlanes[c].meta.Deleting()
    ensures var after := ControlPlanePass(db, c, plan);
            && NothingCreated(db, after)
            && (c in db.kubernetes ==> after.vswitches == db.vswitches && after.vpcs == db.vpcs)
            && (HoldsFinalizer(db, c) && !HoldsFinalizer(after, c) ==> ChildrenGoing(after, c, db.controlPlanes[c].spec))
  {
    assert ControlPlaneOk(db.log, db.kubeconfigs, c, db.controlPlanes[c]);
    PassKeepsObject(db, c, plan);
    DeletedOrder(db, c, plan);
    var (after, m) := PassBody(db, c, plan);
    var stored := after.controlPlanes[c];
    TwoPhaseRefinesAtomic(stored, m, AdmitsUpdate(m.spec, stored.spec), plan.statusFault, plan.specFault);
  }

  /** In every run, whatever event makes a control plane's finalizer disappear, it is that
      control plane's own pass, and the children are gone or going. */
  lemma FinalizerGoesLast(es: seq<Event>, timeout: nat, parses: CidrParser, e: Event, c: string)
    requires HoldsFinalizer(Run(es, timeout, parses), c)
    requires !HoldsFinalizer(Next(Run(es, timeout, parses), e, parses), c)
    ensures var db := Run(es, timeout, parses);
            && e.ReconcileControlPlane? && e.c == c && db.controlPlanes[c].meta.Deleting()
            && ChildrenGoing(Next(db, e, parses), c, db.controlPlanes[c].spec)
  {
    Reachable(es, timeout, parses);
    var db := Run(es, timeout, parses);
    if !TouchesControlPlanes(e) {
      OtherEventsLeaveControlPlanes(db, e, parses);
    } else if e.ReconcileControlPlane? {
      if e.c in db.controlPlanes && !db.controlPlanes[e.c].meta.Gone() {
        if e.c == c && db.controlPlanes[c].meta.Deleting() {
          DeletionOrder(db, c, e.plan, parses);
        } else {
          PassKeepsFinalizer(db, e.c, e.plan, c);
        }
      }
    } else {
      OutsideKeepsFinalizer(db, e, parses, c);
    }
  }

  lemma OutsideKeepsFinalizer(db: Db, e: Event, parses: CidrParser, c: string)
    requires TouchesControlPlanes(e) && !e.ReconcileControlPlane? && HoldsFinalizer(db, c)
    ensures HoldsFinalizer(Next(db, e, parses), c)
  {
  }

  lemma PassKeepsFinalizer(db: Db, d: string, plan: CpPlan, c: string)
    requires d in db.controlPlanes && !db.controlPlanes[d].meta.Gone() && HoldsFinalizer(db, c)
    requires d == c ==> !db.controlPlanes[d].meta.Deleting()
    ensures HoldsFinalizer(ControlPlanePass(db, d, plan), c)
  {
    if plan.readable {
      PassKeepsObject(db, d, plan);
      var (after, m) := PassBody(db, d, plan);
      PassOwnObject(db, d, plan);
      var stored := after.controlPlanes[d];
      TwoPhaseRefinesAtomic(stored, m, AdmitsUpdate(m.spec, stored.spec), plan.statusFault, plan.specFault);
    }
  }

  /** Until the deferred write a pass changes no other control plane, and of its own one only
      the finalizers; the in-memory object keeps its identity. */
  lemma PassOwnObject(db: Db, c: string, plan: CpPlan)
    requires c in db.controlPlanes && !db.controlPlanes[c].meta.Gone()
    ensures var cp := db.controlPlanes[c];
            var (after, m) := PassBody(db, c, plan);
            && c in after.controlPlanes && after.controlPlanes == db.controlPlanes[c := after.controlPlanes[c]]
            && SameBut(cp.meta, after.controlPlanes[c].meta) && SameBut(cp.meta, m.meta)
            && (!cp.meta.Deleting() ==> cp.meta.finalizers <= m.meta.finalizers
                                        && cp.meta.finalizers <= after.controlPlanes[c].meta.finalizers)
            && (cp.meta.Deleting() ==> m.meta.finalizers <= cp.meta.finalizers && after.controlPlanes == db.controlPlanes)
  {
    var cp := db.controlPlanes[c];
    SameKeys(db.controlPlanes, c);
    if cp.meta.Deleting() {
      DeletedOrder(db, c, plan);
    } else {
      FinalizerAddedFacts(db, c, cp, plan.finalizerFault);
      var a := FinalizerAdded(db, c, cp, plan.finalizerFault);
      NetworkAndClusterOwn(a.db, c, a.mem, plan);
    }
  }

  /** The same object as before, but for its finalizers. */
  ghost predicate SameBut(before: Meta, after: Meta)
  {
    after == before.(finalizers := after.finalizers)
  }

  lemma NetworkAndClusterOwn(db: Db, c: string, mem: ControlPlane, plan: CpPlan)
    ensures var (after, m) := NetworkAndClusterReconciled(db, c, mem, plan);
            after.controlPlanes == db.controlPlanes && m.meta == mem.meta
  {
    NetworkLeavesCluster(db, mem, plan);
    NetworkLeavesOwners(db, mem, plan);
    var (n, ids) := NetworkReconciled(db, mem, plan);
    ClusterLeavesOwners(n.db, c, n.mem, ids, plan);
  }

  /******* Machine pools *******/

  lemma PoolDeletedOrder(db: Db, p: string, plan: PoolPlan)
    requires p in db.pools
    ensures var pool := db.pools[p];
            var (after, m) := PoolDeleted(db, p, pool, plan);
            && after == db.(vswitches := after.vswitches, nodePools := after.nodePools)
            && after.vswitches.Keys <= db.vswitches.Keys && after.nodePools.Keys <= db.nodePools.Keys
            && (p in db.nodePools ==> after.vswitches == db.vswitches)
            && (m == pool || (&& m == pool.(meta := WithoutFinalizer(pool.meta, MACHINE_POOL_FINALIZER))
                              && PoolChildrenGoing(after, p, pool.spec)))
  {
    RemoveContract(db, db.pools[p].spec.vswitches, plan.vswitches);
  }

  /** The node pool is absent, and all listed vswitches are absent or marked deleting. */
  ghost predicate PoolChildrenGoing(db: Db, p: string, spec: PoolSpec)
  {
    p !in db.nodePools && forall n :: SelfCreated(spec.vswitches, n) ==> AbsentOrDeleting(db, n)
  }

  ghost predicate PoolHoldsFinalizer(db: Db, p: string)
  {
    p in db.pools && MACHINE_POOL_FINALIZER in db.pools[p].meta.finalizers
  }

  /** A pass over a deleting pool creates nothing, whatever fails; as long as the node pool is
      stored it touches no vswitch; and it gives up its finalizer only when the node pool is
      gone and every listed vswitch is gone or going. */
  lemma PoolDeletionOrder(db: Db, p: string, parses: CidrParser, plan: PoolPlan)
    requires p in db.pools && db.pools[p].meta.Deleting() && !db.pools[p].meta.Gone()
    ensures var after := PoolPass(db, p, parses, plan);
            && after == db.(pools := after.pools, vswitches := after.vswitches, nodePools := after.nodePools)
            && after.vswitches.Keys <= db.vswitches.Keys && after.nodePools.Keys <= db.nodePools.Keys
            && (p in db.nodePools ==> after.vswitches == db.vswitches)
            && (PoolHoldsFinalizer(db, p) && !PoolHoldsFinalizer(after, p) ==> PoolChildrenGoing(after, p, db.pools[p].spec))
  {
    PoolPassKeepsObject(db, p, parses, plan);
    PoolDeletedOrder(db, p, plan);
    var (after, m) := PoolPassBody(db, p, parses, plan);
    var stored := after.pools[p];
    TwoPhaseRefinesAtomic(stored, m, PoolAdmitsUpdate(m.spec, stored.spec, parses), plan.statusFault, plan.specFault);
  }
}
