/** Deletion terminates: every productive event lowers what is left; as long as anything but live
    VPCs is left of a dying control plane some event is productive, and of a dying pool anything
    at all, unless its spec is inconsistent. */
module DeletionProgress {
  import opened Wrappers
  import opened CommonApi
  import opened ApiServer
  import opened ClusterNames
  import opened ControlPlaneWebhook
  import opened MachinePoolWebhook
  import opened VswitchReconcile
  import opened VswitchFacts
  import opened VpcReconcile
  import opened WriteBack
  import opened ControlPlaneController
  import opened MachinePoolController
  import opened Collectors
  import opened Runs
  import opened Invariant
  import opened ControlPlaneResults
  import opened ControlPlaneRuns
  import opened RunTheorems
  import opened MachinePoolResults
  import opened Teardown
  import opened MachinePoolRuns
  import opened History
  import opened DeletionMeasure

  lemma DyingForever(db: Db, e: Event, parses: CidrParser, o: OwnerRef)
    requires LogOk(db) && Dying(db, o)
    ensures Dying(Next(db, e, parses), o)
  {
    StepExtends(db, e, parses);
    EveryStepIsQuiet(db, e, parses, o);
  }

  /******* Productive events *******/

  /** Every call of a deleting pass succeeds. */
  ghost predicate ErrorFree(plan: CpPlan)
  {
    && plan.readable && plan.kubernetes.Works? && plan.vpc.Works? && plan.statusFault.Works? && plan.specFault.Works?
    && forall k :: plan.vswitches(k) == Works
  }

  /** The pass has to wait for the provider to finish deleting the cluster. */
  predicate Waiting(db: Db, c: string)
  {
    c in db.kubernetes && db.kubernetes[c].meta.Deleting()
  }

  predicate Finishing(meta: Meta, finalizers: set<string>, o: OwnerRef)
  {
    BelongsTo(meta, o) && meta.Deleting() && finalizers == {}
  }

  predicate ForceCleanable(db: Db, meta: Meta, o: OwnerRef)
  {
    BelongsTo(meta, o) && TimedOut(db, meta) && meta.finalizers <= {MANAGED_FINALIZER}
  }

  /** The pool's pass has to wait for the provider to finish deleting the node pool. */
  predicate PoolWaiting(db: Db, p: string)
  {
    p in db.nodePools && db.nodePools[p].meta.Deleting()
  }

  /** The pool lists a live vswitch of its own. */
  ghost predicate ListsLive(db: Db, p: string, o: OwnerRef)
    requires p in db.pools
  {
    exists n :: SelfCreated(db.pools[p].spec.vswitches, n) && n in LiveVswitches(db, o)
  }

  /** What an error-free pass over a deleting pool has left to do: the node pool, a listed vswitch,
      or the finalizer, which the webhook lets go only for a consistent spec. */
  ghost predicate PoolHasWork(db: Db, p: string, o: OwnerRef)
    requires p in db.pools
  {
    || p in db.nodePools || ListsLive(db, p, o)
    || (PoolHoldsFinalizer(db, p) && Consistent(db.pools[p].spec))
  }

  /** An error-free pass of the owner that does not wait and has work; the provider finishing the
      deletion of a child; the force-clean of a child whose deletion has timed out; or the
      collection of a garbage vswitch. */
  ghost predicate Productive(db: Db, e: Event, o: OwnerRef)
  {
    match e
    case ReconcileControlPlane(c, plan) =>
      c in db.controlPlanes && Self(db.controlPlanes[c]) == o && HoldsFinalizer(db, c) && ErrorFree(plan) && !Waiting(db, c)
    case ReconcilePool(p, plan) =>
      p in db.pools && PoolSelf(db.pools[p]) == o && PoolErrorFree(plan) && !PoolWaiting(db, p) && PoolHasWork(db, p, o)
    case ProviderVswitch(n, finalizers, _, _) => n in db.vswitches && Finishing(db.vswitches[n].meta, finalizers, o)
    case ProviderVpc(n, finalizers, _, _) => n in db.vpcs && Finishing(db.vpcs[n].meta, finalizers, o)
    case ProviderKubernetes(c, finalizers, status) =>
      c in db.kubernetes && Finishing(db.kubernetes[c].meta, finalizers, o) && PlausibleStatus(status)
    case ProviderNodePool(p, finalizers, _) => p in db.nodePools && Finishing(db.nodePools[p].meta, finalizers, o)
    case CollectVswitch(n, plan) => n in db.vswitches && Collectable(db, n, plan, o)
    case CleanVpc(n, fault) => n in db.vpcs && ForceCleanable(db, db.vpcs[n].meta, o) && fault.Works?
    case _ => false
  }

  ghost predicate Collectable(db: Db, n: string, plan: CollectPlan, o: OwnerRef)
    requires n in db.vswitches
  {
    var v := db.vswitches[n];
    || (ForceCleanable(db, v.meta, o) && plan.vswitch.Works?)
    || (BelongsTo(v.meta, o) && Collects(db, v, plan))
  }

  lemma ErrorFreeTeardown(db: Db, c: string, cp: ControlPlane, plan: CpPlan)
    requires c !in db.kubernetes && ErrorFree(plan)
    ensures TornDown(db, cp, plan).1 == cp.(meta := WithoutFinalizer(cp.meta, CONTROL_PLANE_FINALIZER))
  {
    RemoveContract(db, cp.spec.vswitches, plan.vswitches);
  }

  /** With the cluster gone, an error-free pass gives up the finalizer. */
  lemma TeardownProgresses(db: Db, c: string, plan: CpPlan, o: OwnerRef)
    requires c in db.controlPlanes && Self(db.controlPlanes[c]) == o && db.controlPlanes[c].meta.Deleting()
    requires ValidClusterName(db.controlPlanes[c].spec.clusterName) && !db.controlPlanes[c].meta.Gone()
    requires HoldsFinalizer(db, c) && ErrorFree(plan) && c !in db.kubernetes
    ensures c in Holders(db, o) && c !in Holders(ControlPlanePass(db, c, plan), o)
  {
    var cp := db.controlPlanes[c];
    PassKeepsObject(db, c, plan);
    UpdateReflexive(cp.spec);
    ErrorFreeTeardown(db, c, cp, plan);
    TornDownOrder(db, c, cp, plan);
    TwoPhaseRefinesAtomic(cp, TornDown(db, cp, plan).1, true, plan.statusFault, plan.specFault);
  }

  /** With the cluster there, an error-free pass asks for its deletion, once. */
  lemma ClusterDeletionPass(db: Db, c: string, plan: CpPlan)
    requires c in db.controlPlanes && db.controlPlanes[c].meta.Deleting() && !db.controlPlanes[c].meta.Gone()
    requires ValidClusterName(db.controlPlanes[c].spec.clusterName)
    requires ErrorFree(plan) && c in db.kubernetes
    ensures var cp := db.controlPlanes[c];
            ControlPlanePass(db, c, plan) ==
            PutControlPlane(if Waiting(db, c) then db else DeleteKubernetes(db, c), c, cp.(version := cp.version + 2))
  {
    var cp := db.controlPlanes[c];
    PassKeepsObject(db, c, plan);
    UpdateReflexive(cp.spec);
    TwoPhaseRefinesAtomic(cp, cp, true, plan.statusFault, plan.specFault);
  }

  lemma IdlePass(db: Db, c: string, cp: ControlPlane, o: OwnerRef)
    requires c in db.controlPlanes && cp.meta == db.controlPlanes[c].meta && !cp.meta.Gone()
    ensures !Progress(db, PutControlPlane(db, c, cp), o)
  {
  }

  lemma ClusterDeletionProgresses(db: Db, c: string, cp: ControlPlane, o: OwnerRef)
    requires c in db.kubernetes && BelongsTo(db.kubernetes[c].meta, o) && !Waiting(db, c)
    ensures Progress(db, PutControlPlane(DeleteKubernetes(db, c), c, cp), o)
  {
    assert c in LiveClusters(db, o) && c !in LiveClusters(PutControlPlane(DeleteKubernetes(db, c), c, cp), o);
  }

  lemma ProgressExactly(db: Db, c: string, plan: CpPlan, o: OwnerRef)
    requires c in db.controlPlanes && Self(db.controlPlanes[c]) == o && db.controlPlanes[c].meta.Deleting()
    requires ValidClusterName(db.controlPlanes[c].spec.clusterName) && HoldsFinalizer(db, c) && ErrorFree(plan)
    requires c in db.kubernetes ==> BelongsTo(db.kubernetes[c].meta, o)
    ensures Progress(db, ControlPlanePass(db, c, plan), o) <==> !Waiting(db, c)
  {
    var written := db.controlPlanes[c].(version := db.controlPlanes[c].version + 2);
    if c !in db.kubernetes {
      TeardownProgresses(db, c, plan, o);
    } else if Waiting(db, c) {
      ClusterDeletionPass(db, c, plan);
      IdlePass(db, c, written, o);
    } else {
      ClusterDeletionPass(db, c, plan);
      ClusterDeletionProgresses(db, c, written, o);
    }
  }

  /** For a dying owner that still holds its finalizer, an error-free pass makes progress if and
      only if it does not have to wait. */
  lemma ProgressUnlessWaiting(db: Db, c: string, plan: CpPlan, o: OwnerRef, parses: CidrParser)
    requires Inv(db, parses) && Dying(db, o) && c in db.controlPlanes && Self(db.controlPlanes[c]) == o
    requires HoldsFinalizer(db, c) && ErrorFree(plan)
    ensures Progress(db, ControlPlanePass(db, c, plan), o) <==> !Waiting(db, c)
  {
    assert ControlPlaneOk(db.log, db.kubeconfigs, c, db.controlPlanes[c]);
    assert c in db.kubernetes ==> KubernetesOk(db.log, db.controlPlanes, c, db.kubernetes[c]);
    ProgressExactly(db, c, plan, o);
  }

  /******* The same for pools *******/

  lemma PoolIdle(db: Db, p: string, pool: Pool, o: OwnerRef)
    requires p in db.pools && pool.meta == db.pools[p].meta && !pool.meta.Gone()
    ensures !Progress(db, PutPool(db, p, pool), o)
  {
  }

  /** With the node pool there, an error-free pass asks for its deletion, once. */
  lemma NodePoolDeletionPass(db: Db, p: string, parses: CidrParser, plan: PoolPlan)
    requires p in db.pools && db.pools[p].meta.Deleting() && !db.pools[p].meta.Gone()
    requires WellFormed(db.pools[p].spec, parses) && PoolErrorFree(plan) && p in db.nodePools
    ensures var pool := db.pools[p];
            PoolPass(db, p, parses, plan) ==
            PutPool(if PoolWaiting(db, p) then db else DeleteNodePool(db, p), p,
                    pool.(version := pool.version + if Consistent(pool.spec) then 2 else 1))
  {
    var pool := db.pools[p];
    PoolPassKeepsObject(db, p, parses, plan);
    ControllerEditAdmitted(pool.spec, pool.spec, parses);
    TwoPhaseRefinesAtomic(pool, pool, Consistent(pool.spec), plan.statusFault, plan.specFault);
  }

  lemma NodePoolDeletionProgresses(db: Db, p: string, pool: Pool, o: OwnerRef)
    requires p in db.nodePools && BelongsTo(db.nodePools[p].meta, o) && !PoolWaiting(db, p)
    ensures Progress(db, PutPool(DeleteNodePool(db, p), p, pool), o)
  {
    assert p in LiveNodePools(db, o) && p !in LiveNodePools(PutPool(DeleteNodePool(db, p), p, pool), o);
  }

  /** Taking down listed vswitches is progress for their owner exactly if one of its own was live. */
  lemma VswitchesTakenDown(db: Db, p: string, pool: Pool, faults: nat -> Fault, o: OwnerRef)
    requires p in db.pools && pool.meta == db.pools[p].meta && !pool.meta.Gone()
    requires forall k :: faults(k) == Works
    ensures var removed := RemovePass(db, db.pools[p].spec.vswitches, faults).db;
            Progress(db, PutPool(removed, p, pool), o) <==> ListsLive(db, p, o)
  {
    var entries := db.pools[p].spec.vswitches;
    RemoveContract(db, entries, faults);
    var removed := RemovePass(db, entries, faults).db;
    var later := PutPool(removed, p, pool);
    assert PoolHolders(later, o) == PoolHolders(db, o);
    if ListsLive(db, p, o) {
      var n :| SelfCreated(entries, n) && n in LiveVswitches(db, o);
      assert AbsentOrDeleting(removed, n);
      assert n !in LiveVswitches(later, o);
    } else {
      forall n | n in db.vswitches && BelongsTo(db.vswitches[n].meta, o)
        ensures n in removed.vswitches && removed.vswitches[n] == db.vswitches[n]
      {
        assert DeletedOrKept(db, removed, entries, n);
      }
      assert OwnedVswitches(later, o) == OwnedVswitches(db, o);
    }
  }

  lemma PoolReleaseProgresses(db: Db, removed: Db, p: string, released: Pool, o: OwnerRef)
    requires PoolHoldsFinalizer(db, p) && PoolSelf(db.pools[p]) == o && removed.pools == db.pools
    requires MACHINE_POOL_FINALIZER !in released.meta.finalizers
    ensures Progress(db, PutPool(removed, p, released), o)
  {
    assert p in PoolHolders(db, o) && p !in PoolHolders(PutPool(removed, p, released), o);
  }

  lemma PoolTeardownProgress(db: Db, p: string, plan: PoolPlan, o: OwnerRef, parses: CidrParser)
    requires p in db.pools && PoolSelf(db.pools[p]) == o && db.pools[p].meta.Deleting() && !db.pools[p].meta.Gone()
    requires WellFormed(db.pools[p].spec, parses) && PoolErrorFree(plan) && p !in db.nodePools
    ensures Progress(db, PoolPass(db, p, parses, plan), o) <==> PoolHasWork(db, p, o)
  {
    var pool := db.pools[p];
    PoolTeardownPass(db, p, parses, plan);
    RemoveContract(db, pool.spec.vswitches, plan.vswitches);
    var removed := RemovePass(db, pool.spec.vswitches, plan.vswitches).db;
    var released := pool.(version := pool.version + 2, meta := WithoutFinalizer(pool.meta, MACHINE_POOL_FINALIZER));
    if !Consistent(pool.spec) {
      VswitchesTakenDown(db, p, pool.(version := pool.version + 1), plan.vswitches, o);
    } else if PoolHoldsFinalizer(db, p) {
      PoolReleaseProgresses(db, removed, p, released, o);
    } else {
      assert released.meta == pool.meta;
      VswitchesTakenDown(db, p, released, plan.vswitches, o);
    }
  }

  /** For a dying pool, an error-free pass makes progress if and only if it does not have to wait
      for the node pool, and either takes a child down or may give up the finalizer. */
  lemma PoolProgressExactly(db: Db, p: string, plan: PoolPlan, o: OwnerRef, parses: CidrParser)
    requires Inv(db, parses) && Dying(db, o) && p in db.pools && PoolSelf(db.pools[p]) == o && PoolErrorFree(plan)
    ensures Progress(db, PoolPass(db, p, parses, plan), o) <==> !PoolWaiting(db, p) && PoolHasWork(db, p, o)
  {
    var pool := db.pools[p];
    assert PoolOk(db.log, p, pool, parses);
    if p in db.nodePools {
      assert NodePoolOk(db.log, db.pools, db.passwords, p, db.nodePools[p]);
      var written := pool.(version := pool.version + if Consistent(pool.spec) then 2 else 1);
      NodePoolDeletionPass(db, p, parses, plan);
      if PoolWaiting(db, p) {
        PoolIdle(db, p, written, o);
      } else {
        NodePoolDeletionProgresses(db, p, written, o);
      }
    } else {
      PoolTeardownProgress(db, p, plan, o, parses);
    }
  }

  /******* Every event *******/

  lemma FinishedChildLeft(db: Db, e: Event, o: OwnerRef, parses: CidrParser)
    requires Productive(db, e, o) && (e.ProviderVswitch? || e.ProviderVpc? || e.ProviderKubernetes? || e.ProviderNodePool?)
    ensures Progress(db, Next(db, e, parses), o)
  {
    var later := Next(db, e, parses);
    match e
    case ProviderVswitch(n, _, _, _) => assert n in OwnedVswitches(db, o) && n !in OwnedVswitches(later, o);
    case ProviderVpc(n, _, _, _) => assert n in OwnedVpcs(db, o) && n !in OwnedVpcs(later, o);
    case ProviderKubernetes(c, _, _) => assert c in OwnedClusters(db, o) && c !in OwnedClusters(later, o);
    case ProviderNodePool(p, _, _) => assert p in OwnedNodePools(db, o) && p !in OwnedNodePools(later, o);
  }

  lemma CleanedChildLeft(db: Db, n: string, fault: Fault, o: OwnerRef)
    requires n in db.vpcs && ForceCleanable(db, db.vpcs[n].meta, o) && fault.Works?
    ensures Progress(db, ForceCleanVpc(db, n, fault), o)
  {
    assert n in OwnedVpcs(db, o) && n !in OwnedVpcs(ForceCleanVpc(db, n, fault), o);
  }

  lemma CollectedChildLeft(db: Db, n: string, plan: CollectPlan, o: OwnerRef)
    requires n in db.vswitches && Collectable(db, n, plan, o)
    ensures Progress(db, CollectPass(db, n, plan), o)
  {
    var v := db.vswitches[n];
    if v.meta.Deleting() {
      assert CollectPass(db, n, plan) == ForceCleaned(db, n);
      assert n in OwnedVswitches(db, o) && n !in OwnedVswitches(ForceCleaned(db, n), o);
    } else {
      assert CollectPass(db, n, plan) == DeleteVswitch(db, n);
      assert n in LiveVswitches(db, o) && n !in LiveVswitches(DeleteVswitch(db, n), o);
    }
  }

  lemma ProductiveProgresses(db: Db, e: Event, o: OwnerRef, parses: CidrParser)
    requires Inv(db, parses) && Dying(db, o) && Productive(db, e, o)
    ensures Progress(db, Next(db, e, parses), o)
  {
    if e.ReconcileControlPlane? {
      assert ControlPlaneOk(db.log, db.kubeconfigs, e.c, db.controlPlanes[e.c]);
      ProgressUnlessWaiting(db, e.c, e.plan, o, parses);
    } else if e.ReconcilePool? {
      assert PoolOk(db.log, e.p, db.pools[e.p], parses);
      PoolProgressExactly(db, e.p, e.poolPlan, o, parses);
    } else if e.CollectVswitch? {
      CollectedChildLeft(db, e.n, e.collectPlan, o);
    } else if e.CleanVpc? {
      CleanedChildLeft(db, e.n, e.fault, o);
    } else {
      FinishedChildLeft(db, e, o, parses);
    }
  }

  /** No event raises what is left, and a productive one lowers it. */
  lemma ProductiveLowers(db: Db, e: Event, o: OwnerRef, parses: CidrParser)
    requires Inv(db, parses) && Dying(db, o)
    ensures Remaining(Next(db, e, parses), o) <= Remaining(db, o)
    ensures Productive(db, e, o) ==> Remaining(Next(db, e, parses), o) < Remaining(db, o)
  {
    EveryStepIsQuiet(db, e, parses, o);
    RemainingLowered(db, Next(db, e, parses), o);
    if Productive(db, e, o) {
      ProductiveProgresses(db, e, o, parses);
    }
  }

  /** The number of productive events among fs, when they follow es. */
  ghost function ProductiveSteps(es: seq<Event>, fs: seq<Event>, timeout: nat, parses: CidrParser, o: OwnerRef): nat
  {
    if fs == [] then 0
    else
      var front, last := fs[..|fs| - 1], fs[|fs| - 1];
      ProductiveSteps(es, front, timeout, parses, o) + if Productive(Run(es + front, timeout, parses), last, o) then 1 else 0
  }

  /** From the moment its owner is dying, in every continuation of every run, what is left plus
      the productive events so far never exceeds what was left then: deletion cannot make
      progress for ever, and nothing undoes any of it. */
  lemma {:induction false} DeletionTerminates(es: seq<Event>, fs: seq<Event>, timeout: nat, parses: CidrParser,
                                              o: OwnerRef)
    requires Dying(Run(es, timeout, parses), o)
    ensures Dying(Run(es + fs, timeout, parses), o)
    ensures Remaining(Run(es + fs, timeout, parses), o) + ProductiveSteps(es, fs, timeout, parses, o)
            <= Remaining(Run(es, timeout, parses), o)
  {
    if fs == [] {
      assert es + fs == es;
    } else {
      var front, last := fs[..|fs| - 1], fs[|fs| - 1];
      DeletionTerminates(es, front, timeout, parses, o);
      var db := Run(es + front, timeout, parses);
      assert (es + fs)[..|es + fs| - 1] == es + front && (es + fs)[|es + fs| - 1] == last;
      Reachable(es + front, timeout, parses);
      DyingForever(db, last, parses, o);
      ProductiveLowers(db, last, o, parses);
    }
  }

  /******* No deadlock *******/

  /** Some child of the owner is being deleted. */
  ghost predicate SomeChildGoing(db: Db, o: OwnerRef)
  {
    || OwnedVswitches(db, o) != LiveVswitches(db, o) || OwnedVpcs(db, o) != LiveVpcs(db, o)
    || OwnedClusters(db, o) != LiveClusters(db, o) || OwnedNodePools(db, o) != LiveNodePools(db, o)
  }

  ghost predicate SomeProductive(db: Db, o: OwnerRef)
  {
    exists e :: Productive(db, e, o)
  }

  lemma GoingChildCanFinish(db: Db, o: OwnerRef)
    requires SomeChildGoing(db, o)
    ensures SomeProductive(db, o)
  {
    var quiet := Messages("", "", "");
    if OwnedVswitches(db, o) != LiveVswitches(db, o) {
      var n :| n in OwnedVswitches(db, o) && n !in LiveVswitches(db, o);
      assert Productive(db, ProviderVswitch(n, {}, None, quiet), o);
    } else if OwnedVpcs(db, o) != LiveVpcs(db, o) {
      var n :| n in OwnedVpcs(db, o) && n !in LiveVpcs(db, o);
      assert Productive(db, ProviderVpc(n, {}, None, quiet), o);
    } else if OwnedClusters(db, o) != LiveClusters(db, o) {
      var c :| c in OwnedClusters(db, o) && c !in LiveClusters(db, o);
      assert Productive(db, ProviderKubernetes(c, {}, KubernetesStatus(false, "", "", None)), o);
    } else {
      var p :| p in OwnedNodePools(db, o) && p !in LiveNodePools(db, o);
      assert Productive(db, ProviderNodePool(p, {}, NodePoolStatus(false, [], [])), o);
    }
  }

  function CleanPlan(): CpPlan
  {
    CpPlan(true, true, Works, false, Works, _ => Works, Works, Works, Works, Works)
  }

  /** For a dying control plane something productive can happen exactly as long as its finalizer
      is held or a child is being deleted. */
  lemma ProductivePossible(db: Db, o: OwnerRef, parses: CidrParser)
    requires Inv(db, parses) && Dying(db, o) && o.kind == ControlPlaneKind
    ensures SomeProductive(db, o) <==> Holders(db, o) != {} || SomeChildGoing(db, o)
  {
    if Holders(db, o) != {} {
      HolderCanProgress(db, o, parses);
    } else if SomeChildGoing(db, o) {
      GoingChildCanFinish(db, o);
    }
    if e :| Productive(db, e, o) {
      ProductiveImplies(db, e, o);
    }
  }

  lemma ProductiveImplies(db: Db, e: Event, o: OwnerRef)
    requires Productive(db, e, o) && o.kind == ControlPlaneKind
    ensures Holders(db, o) != {} || SomeChildGoing(db, o)
  {
    match e
    case ReconcileControlPlane(c, _) => assert c in Holders(db, o);
    case ProviderVswitch(n, _, _, _) => assert n in OwnedVswitches(db, o) && n !in LiveVswitches(db, o);
    case ProviderVpc(n, _, _, _) => assert n in OwnedVpcs(db, o) && n !in LiveVpcs(db, o);
    case ProviderKubernetes(c, _, _) => assert c in OwnedClusters(db, o) && c !in LiveClusters(db, o);
    case ProviderNodePool(p, _, _) => assert p in OwnedNodePools(db, o) && p !in LiveNodePools(db, o);
    case CollectVswitch(n, _) => assert n in OwnedVswitches(db, o) && n !in LiveVswitches(db, o);
    case CleanVpc(n, _) => assert n in OwnedVpcs(db, o) && n !in LiveVpcs(db, o);
  }

  lemma HolderCanProgress(db: Db, o: OwnerRef, parses: CidrParser)
    requires Inv(db, parses) && Holders(db, o) != {}
    ensures SomeProductive(db, o)
  {
    var c :| c in Holders(db, o);
    assert c in db.kubernetes ==> KubernetesOk(db.log, db.controlPlanes, c, db.kubernetes[c]);
    HolderIsProductive(db, c, o);
  }

  lemma HolderIsProductive(db: Db, c: string, o: OwnerRef)
    requires c in Holders(db, o) && (c in db.kubernetes ==> BelongsTo(db.kubernetes[c].meta, o))
    ensures SomeProductive(db, o)
  {
    if Waiting(db, c) {
      assert Productive(db, ProviderKubernetes(c, {}, KubernetesStatus(false, "", "", None)), o);
    } else {
      assert Productive(db, ReconcileControlPlane(c, CleanPlan()), o);
    }
  }

  lemma LiveChildHasHolder(db: Db, o: OwnerRef, parses: CidrParser)
    requires Inv(db, parses) && o.kind == ControlPlaneKind && (LiveVswitches(db, o) != {} || LiveClusters(db, o) != {})
    ensures Holders(db, o) != {}
  {
    if LiveVswitches(db, o) != {} {
      var n :| n in LiveVswitches(db, o);
      assert VswitchOk(db.log, db.controlPlanes, n, db.vswitches[n]);
      assert db.log[o.uid].name in Holders(db, o);
    } else {
      var c :| c in LiveClusters(db, o);
      assert KubernetesOk(db.log, db.controlPlanes, c, db.kubernetes[c]);
      assert c in Holders(db, o);
    }
  }

  lemma NoNodePoolsOfControlPlanes(db: Db, o: OwnerRef, parses: CidrParser)
    requires Inv(db, parses) && o.kind == ControlPlaneKind
    ensures OwnedNodePools(db, o) == {} && PoolHolders(db, o) == {}
  {
    forall p | p in db.nodePools ensures !BelongsTo(db.nodePools[p].meta, o) {
      assert NodePoolOk(db.log, db.pools, db.passwords, p, db.nodePools[p]);
    }
  }

  /** In every run, once nothing productive can happen any more to what a dying control plane had,
      all that is left of it are live VPCs: the finalizer, the cluster and every vswitch are gone. */
  lemma OnlyVpcsCanLeak(es: seq<Event>, timeout: nat, parses: CidrParser, o: OwnerRef)
    requires o.kind == ControlPlaneKind
    requires Dying(Run(es, timeout, parses), o) && !SomeProductive(Run(es, timeout, parses), o)
    ensures var db := Run(es, timeout, parses);
            && Holders(db, o) == {} && PoolHolders(db, o) == {} && OwnedClusters(db, o) == {}
            && OwnedVswitches(db, o) == {} && OwnedNodePools(db, o) == {}
            && OwnedVpcs(db, o) == LiveVpcs(db, o)
  {
    Reachable(es, timeout, parses);
    var db := Run(es, timeout, parses);
    ProductivePossible(db, o, parses);
    NoNodePoolsOfControlPlanes(db, o, parses);
    if LiveVswitches(db, o) != {} || LiveClusters(db, o) != {} {
      LiveChildHasHolder(db, o, parses);
    }
  }

  /******* No deadlock but one, for pools *******/

  function CleanPoolPlan(): PoolPlan
  {
    PoolPlan(true, true, true, Works, Works, _ => Works, Works, Works, Works, Works)
  }

  lemma NodePoolCanProgress(db: Db, p: string, o: OwnerRef, parses: CidrParser)
    requires Inv(db, parses) && p in db.pools && PoolSelf(db.pools[p]) == o && p in db.nodePools
    ensures SomeProductive(db, o)
  {
    assert NodePoolOk(db.log, db.pools, db.passwords, p, db.nodePools[p]);
    if PoolWaiting(db, p) {
      assert Productive(db, ProviderNodePool(p, {}, NodePoolStatus(false, [], [])), o);
    } else {
      assert Productive(db, ReconcilePool(p, CleanPoolPlan()), o);
    }
  }

  /** The pool holds its finalizer and its spec is consistent. */
  ghost predicate ReleasablePool(db: Db, o: OwnerRef)
  {
    exists p :: p in PoolHolders(db, o) && Consistent(db.pools[p].spec)
  }

  lemma ReleasableCanProgress(db: Db, o: OwnerRef, parses: CidrParser)
    requires Inv(db, parses) && ReleasablePool(db, o)
    ensures SomeProductive(db, o)
  {
    var p :| p in PoolHolders(db, o) && Consistent(db.pools[p].spec);
    if p in db.nodePools {
      NodePoolCanProgress(db, p, o, parses);
    } else {
      assert PoolHasWork(db, p, o);
      assert Productive(db, ReconcilePool(p, CleanPoolPlan()), o);
    }
  }

  lemma NodePoolHasPool(db: Db, o: OwnerRef, parses: CidrParser)
    requires Inv(db, parses) && OwnedNodePools(db, o) != {}
    ensures SomeProductive(db, o)
  {
    var p :| p in OwnedNodePools(db, o);
    assert NodePoolOk(db.log, db.pools, db.passwords, p, db.nodePools[p]);
    NodePoolCanProgress(db, p, o, parses);
  }

  /** A live vswitch of a pool without node pool is listed, and then the pool's pass takes it down,
      or it is garbage, and then the collector does. */
  lemma LiveVswitchCanProgress(db: Db, n: string, o: OwnerRef, parses: CidrParser)
    requires Inv(db, parses) && o.kind == MachinePoolKind && n in LiveVswitches(db, o) && OwnedNodePools(db, o) == {}
    ensures SomeProductive(db, o)
  {
    var uid := db.vswitches[n].meta.uid;
    if p :| p in db.pools && PoolSelf(db.pools[p]) == o && ListsUid(db.pools[p].spec.vswitches, uid) {
      ListedIsTakenDown(db, p, n, o, parses);
      NodePoolIsOwned(db, p, o, parses);
      assert Productive(db, ReconcilePool(p, CleanPoolPlan()), o);
    } else {
      UnlistedIsGarbage(db, n, o);
      assert Productive(db, CollectVswitch(n, CollectPlan(Works, false, false)), o);
    }
  }

  lemma NodePoolIsOwned(db: Db, p: string, o: OwnerRef, parses: CidrParser)
    requires Inv(db, parses) && p in db.pools && PoolSelf(db.pools[p]) == o
    ensures p in db.nodePools ==> p in OwnedNodePools(db, o)
  {
    assert p in db.nodePools ==> NodePoolOk(db.log, db.pools, db.passwords, p, db.nodePools[p]);
  }

  lemma ListedIsTakenDown(db: Db, p: string, n: string, o: OwnerRef, parses: CidrParser)
    requires Inv(db, parses) && p in db.pools && n in LiveVswitches(db, o)
    requires ListsUid(db.pools[p].spec.vswitches, db.vswitches[n].meta.uid)
    ensures ListsLive(db, p, o)
  {
    assert VswitchOk(db.log, db.controlPlanes, n, db.vswitches[n]) && PoolOk(db.log, p, db.pools[p], parses);
    var entries := db.pools[p].spec.vswitches;
    var k :| 0 <= k < |entries| && entries[k].id == "" && entries[k].uid == db.vswitches[n].meta.uid;
    assert BornTo(db.log, entries[k].uid, VswitchKind, entries[k].name, db.pools[p].meta.uid);
    assert SelfCreated(entries, n);
  }

  lemma UnlistedIsGarbage(db: Db, n: string, o: OwnerRef)
    requires o.kind == MachinePoolKind && n in LiveVswitches(db, o) && OwnedNodePools(db, o) == {}
    requires forall p :: p in db.pools && PoolSelf(db.pools[p]) == o ==>
               !ListsUid(db.pools[p].spec.vswitches, db.vswitches[n].meta.uid)
    ensures Garbage(db, db.vswitches[n])
  {
    forall m ensures !IsNodePoolOf(db, m, o.uid) {
      assert IsNodePoolOf(db, m, o.uid) ==> m in OwnedNodePools(db, o);
    }
  }

  lemma NoOtherChildrenOfPools(db: Db, o: OwnerRef, parses: CidrParser)
    requires Inv(db, parses) && o.kind == MachinePoolKind
    ensures forall n :: n in db.vpcs ==> !BelongsTo(db.vpcs[n].meta, o)
    ensures forall c :: c in db.kubernetes ==> !BelongsTo(db.kubernetes[c].meta, o)
    ensures OwnedVpcs(db, o) == {} && OwnedClusters(db, o) == {} && Holders(db, o) == {}
  {
    forall n | n in db.vpcs ensures !BelongsTo(db.vpcs[n].meta, o) {
      assert VpcOk(db.log, n, db.vpcs[n]);
    }
    forall c | c in db.kubernetes ensures !BelongsTo(db.kubernetes[c].meta, o) {
      assert KubernetesOk(db.log, db.controlPlanes, c, db.kubernetes[c]);
    }
  }

  lemma PoolPassHasWork(db: Db, p: string, plan: PoolPlan, o: OwnerRef, parses: CidrParser)
    requires Inv(db, parses) && Productive(db, ReconcilePool(p, plan), o)
    ensures OwnedVswitches(db, o) != {} || OwnedNodePools(db, o) != {} || ReleasablePool(db, o)
  {
    if p in db.nodePools {
      assert NodePoolOk(db.log, db.pools, db.passwords, p, db.nodePools[p]);
      assert p in OwnedNodePools(db, o);
    } else if ListsLive(db, p, o) {
      var n :| n in LiveVswitches(db, o);
      assert n in OwnedVswitches(db, o);
    } else {
      assert p in PoolHolders(db, o);
    }
  }

  lemma PoolProductiveImplies(db: Db, e: Event, o: OwnerRef, parses: CidrParser)
    requires Inv(db, parses) && Productive(db, e, o) && o.kind == MachinePoolKind
    ensures OwnedVswitches(db, o) != {} || OwnedNodePools(db, o) != {} || ReleasablePool(db, o)
  {
    if e.ReconcilePool? {
      PoolPassHasWork(db, e.p, e.poolPlan, o, parses);
    } else if e.ProviderVswitch? || e.CollectVswitch? {
      assert e.n in OwnedVswitches(db, o);
    } else if e.ProviderNodePool? {
      assert e.p in OwnedNodePools(db, o);
    } else {
      NoOtherChildrenOfPools(db, o, parses);
    }
  }

  /** For a dying pool something productive can happen exactly as long as a vswitch or a node pool
      of its own is left, or its finalizer is held and its spec is consistent. */
  lemma PoolProductivePossible(db: Db, o: OwnerRef, parses: CidrParser)
    requires Inv(db, parses) && Dying(db, o) && o.kind == MachinePoolKind
    ensures SomeProductive(db, o) <==> OwnedVswitches(db, o) != {} || OwnedNodePools(db, o) != {} || ReleasablePool(db, o)
  {
    if OwnedNodePools(db, o) != {} {
      NodePoolHasPool(db, o, parses);
    } else if OwnedVswitches(db, o) != LiveVswitches(db, o) {
      GoingChildCanFinish(db, o);
    } else if OwnedVswitches(db, o) != {} {
      var n :| n in LiveVswitches(db, o);
      LiveVswitchCanProgress(db, n, o, parses);
    } else if ReleasablePool(db, o) {
      ReleasableCanProgress(db, o, parses);
    }
    if e :| Productive(db, e, o) {
      PoolProductiveImplies(db, e, o, parses);
    }
  }

  /** In every run, once nothing productive can happen any more to what a dying pool had, nothing
      is left of it, or only the pool itself, stuck with an inconsistent spec. */
  lemma OnlyStuckPoolsRemain(es: seq<Event>, timeout: nat, parses: CidrParser, o: OwnerRef)
    requires o.kind == MachinePoolKind
    requires Dying(Run(es, timeout, parses), o) && !SomeProductive(Run(es, timeout, parses), o)
    ensures var db := Run(es, timeout, parses);
            && OwnedVswitches(db, o) == {} && OwnedNodePools(db, o) == {} && OwnedVpcs(db, o) == {}
            && OwnedClusters(db, o) == {} && Holders(db, o) == {}
            && forall p :: p in PoolHolders(db, o) ==> StuckPool(db, p)
  {
    Reachable(es, timeout, parses);
    var db := Run(es, timeout, parses);
    PoolProductivePossible(db, o, parses);
    NoOtherChildrenOfPools(db, o, parses);
    forall p | p in PoolHolders(db, o) ensures StuckPool(db, p) {
      assert !Consistent(db.pools[p].spec);
    }
  }
}
