/** Machine pools over whole runs: only a pool's own pass gives up its finalizer, and it does so
    exactly when the pool's spec is consistent; otherwise the pool cannot be deleted. */
module MachinePoolRuns {
  import opened Wrappers
  import opened CommonApi
  import opened ApiServer
  import opened ControlPlaneWebhook
  import opened MachinePoolWebhook
  import opened VswitchReconcile
  import opened VswitchFacts
  import opened VpcReconcile
  import opened WriteBack
  import opened ControlPlaneController
  import opened MachinePoolController
  import opened Collectors
  import opened Runs
  import opened Invariant
  import opened ControlPlaneResults
  import opened ControlPlaneRuns
  import opened RunTheorems
  import opened MachinePoolResults
  import opened Teardown

  /******* Who touches pools *******/

  ghost predicate SamePools(db: Db, later: Db)
  {
    later.pools == db.pools && later.nodePools == db.nodePools
  }

  lemma VpcLeavesPools(db: Db, owner: OwnerRef, vpc: VPC, fault: Fault)
    ensures SamePools(db, ReconciledVpc(db, owner, vpc, fault).db)
  {
  }

  lemma KubernetesLeavesPools(db: Db, c: string, mem: ControlPlane, ids: seq<string>, fault: Fault)
    ensures SamePools(db, KubernetesReconciled(db, c, mem, ids, fault).0.db)
  {
  }

  lemma NetworkAndClusterLeavePools(db: Db, c: string, mem: ControlPlane, plan: CpPlan)
    ensures SamePools(db, NetworkAndClusterReconciled(db, c, mem, plan).0)
  {
    VpcLeavesPools(db, Self(mem), mem.spec.vpc, plan.vpc);
    var v := ReconciledVpc(db, Self(mem), mem.spec.vpc, plan.vpc);
    PassContract(v.db, Self(mem), v.id, mem.spec.vswitches, plan.vswitches);
    var (n, ids) := NetworkReconciled(db, mem, plan);
    assert SamePools(db, n.db);
    KubernetesLeavesPools(n.db, c, n.mem, ids, plan.kubernetes);
    var (k, view) := KubernetesReconciled(n.db, c, n.mem, ids, plan.kubernetes);
    StatusFrame(k.db, c, k.mem, view, plan.kubeconfig);
  }

  /** A control plane pass never touches a pool or a node pool. */
  lemma ControlPlanePassLeavesPools(db: Db, c: string, plan: CpPlan)
    requires c in db.controlPlanes && !db.controlPlanes[c].meta.Gone()
    ensures SamePools(db, ControlPlanePass(db, c, plan))
  {
    var cp := db.controlPlanes[c];
    PassKeepsObject(db, c, plan);
    if cp.meta.Deleting() {
      DeletedOrder(db, c, plan);
    } else {
      FinalizerAddedFacts(db, c, cp, plan.finalizerFault);
      var a := FinalizerAdded(db, c, cp, plan.finalizerFault);
      NetworkAndClusterLeavePools(a.db, c, a.mem, plan);
    }
  }

  predicate TouchesPools(e: Event)
  {
    e.UserCreatesPool? || e.UserUpdatesPool? || e.UserDeletesPool? || e.ReconcilePool?
  }

  lemma OutsideLeavesPools(db: Db, e: Event, parses: CidrParser)
    requires e.OutsiderCreatesVswitch? || e.OutsiderDeletesVswitch? || e.OutsiderDeletesVpc?
             || e.OutsiderDeletesKubernetes? || e.OutsiderDeletesNodePool? || e.Tick?
    ensures Next(db, e, parses).pools == db.pools
  {
  }

  lemma ReportsLeavePools(db: Db, e: Event, parses: CidrParser)
    requires e.ProviderVswitch? || e.ProviderVpc? || e.ProviderKubernetes? || e.ProviderNodePool?
    ensures Next(db, e, parses).pools == db.pools
  {
  }

  lemma UsersLeavePools(db: Db, e: Event, parses: CidrParser)
    requires e.UserCreatesControlPlane? || e.UserUpdatesControlPlane? || e.UserDeletesControlPlane?
    ensures Next(db, e, parses).pools == db.pools
  {
  }

  lemma OtherEventsLeavePools(db: Db, e: Event, parses: CidrParser)
    requires !TouchesPools(e)
    ensures Next(db, e, parses).pools == db.pools
  {
    if e.ReconcileControlPlane? {
      if e.c in db.controlPlanes && !db.controlPlanes[e.c].meta.Gone() {
        ControlPlanePassLeavesPools(db, e.c, e.plan);
      }
    } else if e.CollectVswitch? {
      CollectionFrame(db, e.n, e.collectPlan);
    } else if e.UserCreatesControlPlane? || e.UserUpdatesControlPlane? || e.UserDeletesControlPlane? {
      UsersLeavePools(db, e, parses);
    } else if e.ProviderVswitch? || e.ProviderVpc? || e.ProviderKubernetes? || e.ProviderNodePool? {
      ReportsLeavePools(db, e, parses);
    } else if !e.CleanVpc? {
      OutsideLeavesPools(db, e, parses);
    }
  }

  lemma SamePool(m: map<string, Pool>, p: string)
    requires p in m
    ensures m == m[p := m[p]]
  {
  }

  /** Until the deferred write a pass changes no other pool, and of its own one only the
      finalizers; the in-memory object keeps its identity. */
  lemma PoolPassOwnObject(db: Db, p: string, parses: CidrParser, plan: PoolPlan)
    requires p in db.pools && !db.pools[p].meta.Gone()
    ensures var pool := db.pools[p];
            var (after, m) := PoolPassBody(db, p, parses, plan);
            && p in after.pools && after.pools == db.pools[p := after.pools[p]]
            && after.pools[p].spec == pool.spec && after.pools[p].version == m.version
            && SameBut(pool.meta, after.pools[p].meta) && SameBut(pool.meta, m.meta)
            && (!pool.meta.Deleting() ==> pool.meta.finalizers <= m.meta.finalizers
                                          && pool.meta.finalizers <= after.pools[p].meta.finalizers)
            && (pool.meta.Deleting() ==> m.meta.finalizers <= pool.meta.finalizers && after.pools == db.pools)
  {
    var pool := db.pools[p];
    SamePool(db.pools, p);
    PoolPassKeepsObject(db, p, parses, plan);
    if pool.meta.Deleting() {
      PoolDeletedOrder(db, p, plan);
    } else {
      PoolFinalizerAddedFacts(db, p, pool, parses, plan.finalizerFault);
      var a := PoolFinalizerAdded(db, p, pool, parses, plan.finalizerFault);
      var c := pool.spec.cluster;
      if c in db.controlPlanes && c in a.db.kubernetes {
        PoolChildrenLeaveOwners(a.db, p, a.mem, db.controlPlanes[c], a.db.kubernetes[c], plan);
        PoolChildrenFrame(a.db, p, a.mem, db.controlPlanes[c], a.db.kubernetes[c], plan);
      }
    }
  }

  /******* The finalizer *******/

  lemma PoolPassKeepsFinalizer(db: Db, q: string, parses: CidrParser, plan: PoolPlan, p: string)
    requires q in db.pools && !db.pools[q].meta.Gone() && PoolHoldsFinalizer(db, p)
    requires q == p ==> !db.pools[q].meta.Deleting()
    ensures PoolHoldsFinalizer(PoolPass(db, q, parses, plan), p)
  {
    if plan.readable {
      PoolPassOwnObject(db, q, parses, plan);
      var (after, m) := PoolPassBody(db, q, parses, plan);
      var stored := after.pools[q];
      TwoPhaseRefinesAtomic(stored, m, PoolAdmitsUpdate(m.spec, stored.spec, parses), plan.statusFault, plan.specFault);
    }
  }

  lemma UserKeepsPoolFinalizer(db: Db, e: Event, parses: CidrParser, p: string)
    requires (e.UserCreatesPool? || e.UserUpdatesPool? || e.UserDeletesPool?) && PoolHoldsFinalizer(db, p)
    ensures PoolHoldsFinalizer(Next(db, e, parses), p)
  {
  }

  /** In every run, whatever event makes a pool's finalizer disappear, it is that pool's own pass
      over the deleting pool, and the node pool and the listed vswitches are gone or going. */
  lemma PoolFinalizerGoesLast(es: seq<Event>, timeout: nat, parses: CidrParser, e: Event, p: string)
    requires PoolHoldsFinalizer(Run(es, timeout, parses), p)
    requires !PoolHoldsFinalizer(Next(Run(es, timeout, parses), e, parses), p)
    ensures var db := Run(es, timeout, parses);
            && e.ReconcilePool? && e.p == p && db.pools[p].meta.Deleting()
            && PoolChildrenGoing(Next(db, e, parses), p, db.pools[p].spec)
  {
    Reachable(es, timeout, parses);
    PoolReleasedBy(Run(es, timeout, parses), e, parses, p);
  }

  lemma PoolReleasedBy(db: Db, e: Event, parses: CidrParser, p: string)
    requires Inv(db, parses) && PoolHoldsFinalizer(db, p) && !PoolHoldsFinalizer(Next(db, e, parses), p)
    ensures && e.ReconcilePool? && e.p == p && db.pools[p].meta.Deleting()
            && PoolChildrenGoing(Next(db, e, parses), p, db.pools[p].spec)
  {
    if !TouchesPools(e) {
      OtherEventsLeavePools(db, e, parses);
    } else if !e.ReconcilePool? {
      UserKeepsPoolFinalizer(db, e, parses, p);
    } else if e.p in db.pools && !db.pools[e.p].meta.Gone() {
      if e.p == p && db.pools[p].meta.Deleting() {
        PoolDeletionOrder(db, p, parses, e.poolPlan);
      } else {
        PoolPassKeepsFinalizer(db, e.p, parses, e.poolPlan, p);
      }
    }
  }

  /** Every call of a deleting pass succeeds. */
  ghost predicate PoolErrorFree(plan: PoolPlan)
  {
    && plan.readable && plan.nodePool.Works? && plan.statusFault.Works? && plan.specFault.Works?
    && forall k :: plan.vswitches(k) == Works
  }

  lemma ErrorFreePoolTeardown(db: Db, p: string, pool: Pool, plan: PoolPlan)
    requires p !in db.nodePools && PoolErrorFree(plan)
    ensures PoolDeleted(db, p, pool, plan) ==
            (RemovePass(db, pool.spec.vswitches, plan.vswitches).db,
             pool.(meta := WithoutFinalizer(pool.meta, MACHINE_POOL_FINALIZER)))
  {
    RemoveContract(db, pool.spec.vswitches, plan.vswitches);
  }

  /** What an error-free pass over a deleting pool without node pool stores: the vswitches are
      taken down in any case, but the update webhook lets the finalizer go only for a
      consistent spec. */
  lemma PoolTeardownPass(db: Db, p: string, parses: CidrParser, plan: PoolPlan)
    requires p in db.pools && db.pools[p].meta.Deleting() && !db.pools[p].meta.Gone()
    requires WellFormed(db.pools[p].spec, parses) && p !in db.nodePools && PoolErrorFree(plan)
    ensures var pool := db.pools[p];
            var removed := RemovePass(db, pool.spec.vswitches, plan.vswitches).db;
            var released := pool.(version := pool.version + 2, meta := WithoutFinalizer(pool.meta, MACHINE_POOL_FINALIZER));
            PoolPass(db, p, parses, plan) ==
            PutPool(removed, p, if Consistent(pool.spec) then released else pool.(version := pool.version + 1))
  {
    var pool := db.pools[p];
    PoolPassKeepsObject(db, p, parses, plan);
    ErrorFreePoolTeardown(db, p, pool, plan);
    RemoveContract(db, pool.spec.vswitches, plan.vswitches);
    ControllerEditAdmitted(pool.spec, pool.spec, parses);
    TwoPhaseRefinesAtomic(pool, PoolDeleted(db, p, pool, plan).1, Consistent(pool.spec), plan.statusFault, plan.specFault);
  }

  /** Once the node pool is gone, an error-free pass over a deleting pool gives up the finalizer
      if and only if the spec is consistent. */
  lemma PoolReleasedExactly(db: Db, p: string, parses: CidrParser, plan: PoolPlan)
    requires Inv(db, parses) && PoolHoldsFinalizer(db, p) && db.pools[p].meta.Deleting()
    requires p !in db.nodePools && PoolErrorFree(plan)
    ensures !PoolHoldsFinalizer(PoolPass(db, p, parses, plan), p) <==> Consistent(db.pools[p].spec)
  {
    assert PoolOk(db.log, p, db.pools[p], parses);
    PoolTeardownPass(db, p, parses, plan);
  }

  /******* Inconsistent pools *******/

  lemma PoolBodyEdit(db: Db, p: string, parses: CidrParser, plan: PoolPlan)
    requires p in db.pools && !db.pools[p].meta.Gone()
    ensures ControllerEdit(PoolPassBody(db, p, parses, plan).1.spec, db.pools[p].spec)
  {
    var pool := db.pools[p];
    if pool.meta.Deleting() {
      PoolDeletedOrder(db, p, plan);
    } else {
      PoolFinalizerAddedFacts(db, p, pool, parses, plan.finalizerFault);
      var a := PoolFinalizerAdded(db, p, pool, parses, plan.finalizerFault);
      var c := pool.spec.cluster;
      if c in db.controlPlanes && c in a.db.kubernetes {
        ChildrenEdit(a.db, p, a.mem, db.controlPlanes[c], a.db.kubernetes[c], plan);
      }
    }
  }

  lemma RefusedFinalizer(db: Db, p: string, parses: CidrParser, plan: PoolPlan)
    requires p in db.pools && !db.pools[p].meta.Gone()
    requires !PoolAdmitsUpdate(db.pools[p].spec, db.pools[p].spec, parses)
    ensures PoolPassBody(db, p, parses, plan).0.pools == db.pools
  {
    var pool := db.pools[p];
    if pool.meta.Deleting() {
      PoolDeletedOrder(db, p, plan);
    } else {
      var a := PoolFinalizerAdded(db, p, pool, parses, plan.finalizerFault);
      assert a.db == db;
      var c := pool.spec.cluster;
      if a.ok && c in db.controlPlanes && c in db.kubernetes {
        PoolChildrenLeaveOwners(db, p, a.mem, db.controlPlanes[c], db.kubernetes[c], plan);
      }
    }
  }

  /** Of an inconsistent pool, whether it holds its finalizer or not and whether it is being
      deleted or not, no pass with any outcome of its calls changes more than the status. */
  lemma InconsistentPoolIsFrozen(db: Db, p: string, parses: CidrParser, plan: PoolPlan)
    requires Inv(db, parses) && p in db.pools && !Consistent(db.pools[p].spec)
    ensures var after := PoolPass(db, p, parses, plan);
            && p in after.pools && after.pools == db.pools[p := after.pools[p]]
            && after.pools[p] == db.pools[p].(version := after.pools[p].version, status := after.pools[p].status)
  {
    var pool := db.pools[p];
    assert PoolOk(db.log, p, pool, parses);
    SamePool(db.pools, p);
    if plan.readable {
      PoolPassKeepsObject(db, p, parses, plan);
      PoolBodyEdit(db, p, parses, plan);
      ControllerEditAdmitted(pool.spec, pool.spec, parses);
      RefusedFinalizer(db, p, parses, plan);
      var (after, m) := PoolPassBody(db, p, parses, plan);
      ControllerEditAdmitted(m.spec, pool.spec, parses);
      TwoPhaseRefinesAtomic(pool, m, false, plan.statusFault, plan.specFault);
    }
  }

  /** The pool is being deleted, holds its finalizer, and has an inconsistent spec. */
  ghost predicate StuckPool(db: Db, p: string)
  {
    PoolHoldsFinalizer(db, p) && db.pools[p].meta.Deleting() && !Consistent(db.pools[p].spec)
  }

  lemma StuckUnderUser(db: Db, e: Event, parses: CidrParser, p: string)
    requires StuckPool(db, p) && !(e.UserUpdatesPool? && e.p == p)
    requires e.UserCreatesPool? || e.UserUpdatesPool? || e.UserDeletesPool?
    ensures p in Next(db, e, parses).pools && Next(db, e, parses).pools[p] == db.pools[p]
  {
  }

  lemma StuckStep(db: Db, e: Event, parses: CidrParser, p: string)
    requires Inv(db, parses) && StuckPool(db, p) && !(e.UserUpdatesPool? && e.p == p)
    ensures var later := Next(db, e, parses);
            StuckPool(later, p) && later.pools[p].meta == db.pools[p].meta && later.pools[p].spec == db.pools[p].spec
  {
    if !TouchesPools(e) {
      OtherEventsLeavePools(db, e, parses);
    } else if e.ReconcilePool? {
      if e.p in db.pools && !db.pools[e.p].meta.Gone() {
        StuckUnderPass(db, e.p, e.poolPlan, parses, p);
      }
    } else {
      StuckUnderUser(db, e, parses, p);
    }
  }

  lemma StuckUnderPass(db: Db, q: string, plan: PoolPlan, parses: CidrParser, p: string)
    requires Inv(db, parses) && StuckPool(db, p) && q in db.pools && !db.pools[q].meta.Gone()
    ensures var later := PoolPass(db, q, parses, plan);
            StuckPool(later, p) && later.pools[p].meta == db.pools[p].meta && later.pools[p].spec == db.pools[p].spec
  {
    if q == p {
      InconsistentPoolIsFrozen(db, p, parses, plan);
    } else {
      PoolPassOwnObject(db, q, parses, plan);
    }
  }

  ghost predicate NoUserUpdate(fs: seq<Event>, p: string)
  {
    forall i :: 0 <= i < |fs| && fs[i].UserUpdatesPool? ==> fs[i].p != p
  }

  /** An inconsistent pool that is being deleted stays for ever, with its finalizer: in every
      continuation of every run, until a user updates it. */
  lemma {:induction false} StuckUntilUpdated(es: seq<Event>, fs: seq<Event>, timeout: nat, parses: CidrParser,
                                             p: string)
    requires StuckPool(Run(es, timeout, parses), p) && NoUserUpdate(fs, p)
    ensures var before, after := Run(es, timeout, parses), Run(es + fs, timeout, parses);
            && StuckPool(after, p)
            && after.pools[p].meta == before.pools[p].meta && after.pools[p].spec == before.pools[p].spec
  {
    if fs == [] {
      assert es + fs == es;
    } else {
      var front, last := fs[..|fs| - 1], fs[|fs| - 1];
      StuckUntilUpdated(es, front, timeout, parses, p);
      assert (es + fs)[..|es + fs| - 1] == es + front && (es + fs)[|es + fs| - 1] == last;
      Reachable(es + front, timeout, parses);
      StuckStep(Run(es + front, timeout, parses), last, parses, p);
    }
  }
}
