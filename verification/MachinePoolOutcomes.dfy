/** Exactly what a machine pool pass does, said of the store it starts from: when it is held up, in
    which VPC vswitches are created, what becomes of the node pool and the password, and when the
    pool is Ready. */
module MachinePoolOutcomes {
  import opened Wrappers
  import opened CommonApi
  import opened ApiServer
  import opened ControlPlaneWebhook
  import opened MachinePoolWebhook
  import opened VswitchReconcile
  import opened VswitchFacts
  import opened VswitchOutcomes
  import opened WriteBack
  import opened ControlPlaneController
  import opened MachinePoolController
  import opened Invariant
  import opened ControlPlaneRuns
  import opened Teardown
  import opened MachinePoolRuns

  /******* The gates *******/

  /** There is a control plane to work for, and it is Ready. */
  ghost predicate ControlPlaneServes(db: Db, pool: Pool, plan: PoolPlan)
  {
    && plan.controlPlaneReadable && plan.sdkReady
    && pool.spec.cluster in db.controlPlanes && db.controlPlanes[pool.spec.cluster].status.ready
  }

  /** The pass has its finalizer and its cluster, and goes on to the vswitches. */
  ghost predicate PoolProceeds(db: Db, pool: Pool, plan: PoolPlan)
  {
    && ControlPlaneServes(db, pool, plan)
    && (MACHINE_POOL_FINALIZER in pool.meta.finalizers || (!plan.finalizerFault.WriteFails? && Consistent(pool.spec)))
    && !plan.kubernetes.ReadFails? && pool.spec.cluster in db.kubernetes
  }

  lemma PoolFinalizerStep(db: Db, p: string, parses: CidrParser, fault: Fault) returns (a: PoolStep)
    requires Inv(db, parses) && p in db.pools
    ensures a == PoolFinalizerAdded(db, p, db.pools[p], parses, fault) && PoolFinalized(db, p, db.pools[p], a)
    ensures a.ok <==>
              MACHINE_POOL_FINALIZER in db.pools[p].meta.finalizers || (!fault.WriteFails? && Consistent(db.pools[p].spec))
  {
    var pool := db.pools[p];
    assert PoolOk(db.log, p, pool, parses);
    ControllerEditAdmitted(pool.spec, pool.spec, parses);
    PoolFinalizerAddedFacts(db, p, pool, parses, fault);
    a := PoolFinalizerAdded(db, p, pool, parses, fault);
  }

  /** The finalizer is stored if and only if it was held, or the control plane serves, the spec is
      consistent and the write succeeds. */
  lemma PoolFinalizerStoredExactly(db: Db, p: string, parses: CidrParser, plan: PoolPlan)
    requires Inv(db, parses) && p in db.pools && !db.pools[p].meta.Deleting()
    ensures var pool := db.pools[p];
            var after := PoolPassBody(db, p, parses, plan).0;
            && p in after.pools
            && (MACHINE_POOL_FINALIZER in after.pools[p].meta.finalizers <==>
                  || MACHINE_POOL_FINALIZER in pool.meta.finalizers
                  || (ControlPlaneServes(db, pool, plan) && !plan.finalizerFault.WriteFails? && Consistent(pool.spec)))
  {
    var pool := db.pools[p];
    var a := PoolFinalizerStep(db, p, parses, plan.finalizerFault);
    var c := pool.spec.cluster;
    if c in db.controlPlanes && c in a.db.kubernetes {
      PoolChildrenLeaveOwners(a.db, p, a.mem, db.controlPlanes[c], a.db.kubernetes[c], plan);
    }
  }

  /** A pass that does not get to the vswitches changes at most the finalizer; while it waits for the
      control plane, not even that. */
  lemma HeldUpPoolPassIsIdle(db: Db, p: string, parses: CidrParser, plan: PoolPlan)
    requires Inv(db, parses) && p in db.pools && !db.pools[p].meta.Deleting() && !PoolProceeds(db, db.pools[p], plan)
    ensures var pool := db.pools[p];
            var (after, m) := PoolPassBody(db, p, parses, plan);
            && after == db.(pools := after.pools)
            && m.spec == pool.spec && m.status == pool.status
            && (!ControlPlaneServes(db, pool, plan) ==> after == db && m == pool)
  {
    var a := PoolFinalizerStep(db, p, parses, plan.finalizerFault);
  }

  lemma ProceedingPoolPass(db: Db, p: string, parses: CidrParser, plan: PoolPlan) returns (a: PoolStep)
    requires Inv(db, parses) && p in db.pools && !db.pools[p].meta.Deleting() && PoolProceeds(db, db.pools[p], plan)
    ensures PoolFinalized(db, p, db.pools[p], a)
    ensures var c := db.pools[p].spec.cluster;
            PoolPassBody(db, p, parses, plan) ==
            PoolChildrenReconciled(a.db, p, a.mem, db.controlPlanes[c], db.kubernetes[c], plan)
  {
    a := PoolFinalizerStep(db, p, parses, plan.finalizerFault);
  }

  /******* The vswitches *******/

  /** Every vswitch a pass creates lies in the VPC that the provider reports for the pool's cluster. */
  lemma VswitchesInClusterVpc(db: Db, p: string, parses: CidrParser, plan: PoolPlan, n: string)
    requires Inv(db, parses) && p in db.pools
    requires n in PoolPassBody(db, p, parses, plan).0.vswitches && n !in db.vswitches
    ensures var c := db.pools[p].spec.cluster;
            && c in db.kubernetes
            && PoolPassBody(db, p, parses, plan).0.vswitches[n].vpcId == db.kubernetes[c].status.vpcId
  {
    PoolCreatesNormally(db, p, parses, plan, n);
    var a := ProceedingPoolPass(db, p, parses, plan);
    var c := db.pools[p].spec.cluster;
    PoolChildrenFrame(a.db, p, a.mem, db.controlPlanes[c], db.kubernetes[c], plan);
    var v := VswitchPass(a.db, PoolSelf(a.mem), db.kubernetes[c].status.vpcId, a.mem.spec.vswitches, plan.vswitches);
    assert FreshVswitch(a.db, v.db, n, PoolSelf(a.mem), db.kubernetes[c].status.vpcId);
  }

  lemma PoolCreatesNormally(db: Db, p: string, parses: CidrParser, plan: PoolPlan, n: string)
    requires Inv(db, parses) && p in db.pools
    requires n in PoolPassBody(db, p, parses, plan).0.vswitches && n !in db.vswitches
    ensures !db.pools[p].meta.Deleting() && PoolProceeds(db, db.pools[p], plan)
  {
    if db.pools[p].meta.Deleting() {
      PoolDeletedOrder(db, p, plan);
    } else if !PoolProceeds(db, db.pools[p], plan) {
      HeldUpPoolPassIsIdle(db, p, parses, plan);
    }
  }

  /******* The node pool *******/

  /** The two calls on the node pool and, if a password is needed, the one on its secret succeed. */
  ghost predicate NodePoolCallsWork(spec: PoolSpec, plan: PoolPlan)
  {
    plan.nodePool.Works? && (spec.keyName != "" || plan.secret.Works?)
  }

  /** The credential part of a node pool spec, for the pool's key or the secret of its own name. */
  ghost predicate HoldsCredential(p: string, spec: PoolSpec, np: NodePoolSpec)
  {
    if spec.keyName != "" then np.keyName == Some(spec.keyName) && np.passwordSecret == None
    else np.keyName == None && np.passwordSecret == Some(p + "-password")
  }

  /** The stored node pools after a create or an update that succeeded: a new one has its owner, the
      cluster, the ids and the pool's security groups; of an old one only the ids and the credential
      change, and no other is touched. */
  ghost predicate NodePoolStored(db: Db, after: Db, p: string, pool: Pool, cp: ControlPlane, ids: seq<string>)
  {
    if p !in db.nodePools then
      && p in after.nodePools && after.nodePools == db.nodePools[p := after.nodePools[p]]
      && var np := after.nodePools[p];
      && np.meta == Meta(np.meta.uid, [OwnerRef(MachinePoolKind, pool.meta.uid)], None, {}) && db.nextUid <= np.meta.uid
      && np.status == NodePoolStatus(false, [], [])
      && np.spec.clusterId == cp.status.clusterId && np.spec.vswitchIds == ids
      && np.spec.securityGroupIds == pool.spec.securityGroupIds && HoldsCredential(p, pool.spec, np.spec)
    else if db.nodePools[p].meta.Gone() then after.nodePools == db.nodePools - {p}
    else
      && p in after.nodePools && after.nodePools == db.nodePools[p := after.nodePools[p]]
      && var was, np := db.nodePools[p], after.nodePools[p];
      && np.meta == was.meta && np.status == was.status
      && np.spec.clusterId == was.spec.clusterId && np.spec.vswitchIds == ids
      && np.spec.securityGroupIds == was.spec.securityGroupIds && HoldsCredential(p, pool.spec, np.spec)
  }

  /** The password of a pool without a key is stored under the pool's own name; no other is touched. */
  ghost predicate PasswordsAfter(db: Db, after: Db, p: string, spec: PoolSpec, plan: PoolPlan)
  {
    after.passwords == if spec.keyName == "" && !plan.nodePool.ReadFails? && plan.secret.Works?
                       then db.passwords[p + "-password" := spec.password] else db.passwords
  }

  /** The store after a pass that got to the node pool. */
  ghost predicate NodePoolFollows(db: Db, p: string, pool: Pool, cp: ControlPlane, ids: seq<string>, plan: PoolPlan,
                                  after: Db)
  {
    && PasswordsAfter(db, after, p, pool.spec, plan)
    && if NodePoolCallsWork(pool.spec, plan) then NodePoolStored(db, after, p, pool, cp, ids) else after.nodePools == db.nodePools
  }

  /** Whatever the pool holds besides: a key needs no secret and replaces any reference to one, and
      without key and password the credential stays as it was. */
  lemma KeyComesFirst(db: Db, p: string, pool: PoolSpec, spec: NodePoolSpec, fault: Fault)
    requires pool.keyName != "" || pool.password == ""
    ensures var c := CredentialsEnsured(db, p, pool, spec, fault);
            && c.ok && c.db == db
            && (pool.keyName != "" ==> c.spec.keyName == Some(pool.keyName) && c.spec.passwordSecret == None)
            && (pool.keyName == "" ==> c.spec == spec)
  {
  }

  lemma CredentialStep(db: Db, p: string, pool: PoolSpec, spec: NodePoolSpec, fault: Fault)
    requires OneCredential(pool)
    ensures var c := CredentialsEnsured(db, p, pool, spec, fault);
            && (c.ok <==> pool.keyName != "" || fault.Works?)
            && (c.ok ==> HoldsCredential(p, pool, c.spec))
            && c.db.passwords == if pool.keyName == "" && fault.Works?
                                 then db.passwords[p + "-password" := pool.password] else db.passwords
  {
  }

  /** The pool as it goes into its node pool. */
  function Located(mem: Pool, cp: ControlPlane): Pool
  {
    mem.(spec := mem.spec.(region := cp.spec.region, clusterId := cp.status.clusterId))
  }

  lemma CreatedIsStored(db: Db, c: Credentialed, p: string, mem: Pool, cp: ControlPlane, ids: seq<string>)
    requires p !in db.nodePools && c.db == db.(passwords := c.db.passwords)
    requires c.spec.clusterId == cp.status.clusterId && c.spec.vswitchIds == ids
    requires c.spec.securityGroupIds == mem.spec.securityGroupIds && HoldsCredential(p, mem.spec, c.spec)
    ensures var later := CreateNodePool(c.db, p, [PoolSelf(mem)], c.spec);
            NodePoolStored(db, later, p, mem, cp, ids) && later.passwords == c.db.passwords
  {
  }

  lemma NodePoolCreate(db: Db, p: string, mem: Pool, cp: ControlPlane, ids: seq<string>, plan: PoolPlan)
    requires OneCredential(mem.spec) && p !in db.nodePools && !plan.nodePool.ReadFails?
    ensures var (n, view) := NodePoolReconciled(db, p, mem, cp, ids, plan);
            && (n.ok <==> NodePoolCallsWork(mem.spec, plan)) && view.None?
            && NodePoolFollows(db, p, mem, cp, ids, plan, n.db)
  {
    var spec := Located(mem, cp).spec;
    var wanted := NodePoolSpec(spec.clusterId, ids, None, None, spec.securityGroupIds);
    CredentialStep(db, p, spec, wanted, plan.secret);
    var c := CredentialsEnsured(db, p, spec, wanted, plan.secret);
    if c.ok {
      CreatedIsStored(db, c, p, mem, cp, ids);
    }
  }

  lemma UpdatedIsStored(db: Db, c: Credentialed, p: string, mem: Pool, cp: ControlPlane, ids: seq<string>)
    requires p in db.nodePools && c.db == db.(passwords := c.db.passwords)
    requires c.spec ==
             db.nodePools[p].spec.(vswitchIds := ids, keyName := c.spec.keyName, passwordSecret := c.spec.passwordSecret)
    requires HoldsCredential(p, mem.spec, c.spec)
    ensures var later := PutNodePool(c.db, p, db.nodePools[p].(spec := c.spec));
            NodePoolStored(db, later, p, mem, cp, ids) && later.passwords == c.db.passwords
  {
  }

  lemma NodePoolUpdate(db: Db, p: string, mem: Pool, cp: ControlPlane, ids: seq<string>, plan: PoolPlan)
    requires OneCredential(mem.spec) && p in db.nodePools && !plan.nodePool.ReadFails?
    ensures var (n, view) := NodePoolReconciled(db, p, mem, cp, ids, plan);
            && (n.ok <==> NodePoolCallsWork(mem.spec, plan))
            && (n.ok ==> view.Some? && view.value.status == db.nodePools[p].status)
            && NodePoolFollows(db, p, mem, cp, ids, plan, n.db)
  {
    var spec := Located(mem, cp).spec;
    var changed := db.nodePools[p].spec.(vswitchIds := ids, keyName := Some(spec.keyName));
    CredentialStep(db, p, spec, changed, plan.secret);
    var c := CredentialsEnsured(db, p, spec, changed, plan.secret);
    if c.ok {
      UpdatedIsStored(db, c, p, mem, cp, ids);
    }
  }

  /** What the calls on the node pool leave in memory. */
  lemma NodePoolFlags(db: Db, p: string, mem: Pool, cp: ControlPlane, ids: seq<string>, plan: PoolPlan)
    ensures var n := NodePoolReconciled(db, p, mem, cp, ids, plan).0;
            && n.mem.spec == (if plan.nodePool.ReadFails? then mem.spec else Located(mem, cp).spec)
            && n.mem.meta == mem.meta && n.mem.status.ready == mem.status.ready
            && (n.mem.status.creating <==> mem.status.creating || (n.ok && p !in db.nodePools))
            && (n.mem.status.updating <==> mem.status.updating || (n.ok && p in db.nodePools && !mem.status.creating))
  {
  }

  /** The in-memory pool after a pass that got to the node pool. Region and cluster id follow the
      control plane once the node pool could be looked up. If all calls work the pool is Ready
      exactly if the node pool existed and is, and empty security groups become the observed ones. */
  ghost predicate PoolFollows(db: Db, p: string, pool: Pool, cp: ControlPlane, plan: PoolPlan, m: Pool)
  {
    var works := NodePoolCallsWork(pool.spec, plan);
    var existed := p in db.nodePools;
    var ready := existed && db.nodePools[p].status.ready;
    && (m.status.ready <==> if works then ready else pool.status.ready)
    && (m.status.creating <==> pool.status.creating || (works && !existed))
    && (m.status.updating <==> pool.status.updating || (works && existed && !pool.status.creating))
    && m.spec.securityGroupIds == (if works && ready && pool.spec.securityGroupIds == []
                                   then db.nodePools[p].status.securityGroupIds else pool.spec.securityGroupIds)
    && m.spec.region == (if plan.nodePool.ReadFails? then pool.spec.region else cp.spec.region)
    && m.spec.clusterId == (if plan.nodePool.ReadFails? then pool.spec.clusterId else cp.status.clusterId)
    && m.spec.cluster == pool.spec.cluster && m.spec.keyName == pool.spec.keyName && m.spec.password == pool.spec.password
    && m.spec.vswitches == pool.spec.vswitches
  }

  lemma NodePoolStage(db: Db, p: string, mem: Pool, cp: ControlPlane, ids: seq<string>, plan: PoolPlan)
    requires OneCredential(mem.spec)
    ensures var (n, view) := NodePoolReconciled(db, p, mem, cp, ids, plan);
            && NodePoolFollows(db, p, mem, cp, ids, plan, n.db)
            && (n.ok <==> NodePoolCallsWork(mem.spec, plan))
            && PoolFollows(db, p, mem, cp, plan, if n.ok then PoolStatusSet(n.mem, view) else n.mem)
  {
    NodePoolFlags(db, p, mem, cp, ids, plan);
    if !plan.nodePool.ReadFails? {
      if p in db.nodePools {
        NodePoolUpdate(db, p, mem, cp, ids, plan);
      } else {
        NodePoolCreate(db, p, mem, cp, ids, plan);
      }
    }
  }

  /******* The whole pass *******/

  /** What a pass that gets past its vswitches leaves. */
  ghost predicate FullPoolPass(db: Db, p: string, pool: Pool, cp: ControlPlane, plan: PoolPlan, after: Db, m: Pool)
  {
    && NodePoolFollows(db, p, pool, cp, CloudIds(m.spec.vswitches, |m.spec.vswitches|), plan, after)
    && PoolFollows(db, p, pool.(spec := pool.spec.(vswitches := m.spec.vswitches)), cp, plan, m)
  }

  /** The node pool and the passwords are left alone, and of the pool all but the vswitches. */
  ghost predicate NodePoolUntouched(db: Db, pool: Pool, after: Db, m: Pool)
  {
    && after.nodePools == db.nodePools && after.passwords == db.passwords
    && m.status == pool.status && m.spec == pool.spec.(vswitches := m.spec.vswitches)
  }

  lemma VswitchesThenNodePool(db: Db, p: string, mem: Pool, cp: ControlPlane, k: ManagedKubernetes, plan: PoolPlan)
    requires RealUids(db) && OneCredential(mem.spec)
    ensures var (after, m) := PoolChildrenReconciled(db, p, mem, cp, k, plan);
            if AllAtHand(db, PoolSelf(mem), mem.spec.vswitches, plan.vswitches)
            then FullPoolPass(db, p, mem, cp, plan, after, m)
            else NodePoolUntouched(db, mem, after, m)
  {
    var owner, vpcId := PoolSelf(mem), k.status.vpcId;
    PassSucceedsExactly(db, owner, vpcId, mem.spec.vswitches, plan.vswitches);
    PassContract(db, owner, vpcId, mem.spec.vswitches, plan.vswitches);
    var v := VswitchPass(db, owner, vpcId, mem.spec.vswitches, plan.vswitches);
    if v.err.None? {
      NodePoolStage(v.db, p, mem.(spec := mem.spec.(vswitches := v.entries)), cp, v.ids, plan);
      assert v.ids == CloudIds(v.entries, |v.entries|);
    }
  }

  /** The pass over a live pool, exactly. If its vswitches are at hand the node pool, the password
      and the pool itself follow the control plane, the pool's credential and the provider's
      report; otherwise all of these are left alone. */
  lemma FullPoolPassExactly(db: Db, p: string, parses: CidrParser, plan: PoolPlan)
    requires Inv(db, parses) && p in db.pools && !db.pools[p].meta.Deleting() && PoolProceeds(db, db.pools[p], plan)
    ensures var pool := db.pools[p];
            var (after, m) := PoolPassBody(db, p, parses, plan);
            if AllAtHand(db, PoolSelf(pool), pool.spec.vswitches, plan.vswitches)
            then FullPoolPass(db, p, pool, db.controlPlanes[pool.spec.cluster], plan, after, m)
            else NodePoolUntouched(db, pool, after, m)
  {
    var pool := db.pools[p];
    assert PoolOk(db.log, p, pool, parses);
    StoredUidsAreReal(db, parses);
    var a := ProceedingPoolPass(db, p, parses, plan);
    VswitchesThenNodePool(a.db, p, a.mem, db.controlPlanes[pool.spec.cluster], db.kubernetes[pool.spec.cluster], plan);
    SameAtHand(a.db, db, PoolSelf(pool), pool.spec.vswitches, plan.vswitches);
  }

  lemma StoredUidsAreReal(db: Db, parses: CidrParser)
    requires Inv(db, parses)
    ensures RealUids(db)
  {
    forall n | n in db.vswitches ensures db.vswitches[n].meta.uid != NO_UID {
      assert VswitchOk(db.log, db.controlPlanes, n, db.vswitches[n]);
    }
  }

  /** All calls of the pass up to the status succeed. */
  ghost predicate GetsToStatus(db: Db, pool: Pool, plan: PoolPlan)
  {
    && PoolProceeds(db, pool, plan) && AllAtHand(db, PoolSelf(pool), pool.spec.vswitches, plan.vswitches)
    && NodePoolCallsWork(pool.spec, plan)
  }

  /** Exactly which passes over a live pool end Ready: those that get to the status and find the node
      pool stored and reported ready, and of the others those over a pool that was Ready before. */
  lemma PoolReadyAfterPass(db: Db, p: string, parses: CidrParser, plan: PoolPlan)
    requires Inv(db, parses) && p in db.pools && !db.pools[p].meta.Deleting()
    ensures var pool := db.pools[p];
            PoolPassBody(db, p, parses, plan).1.status.ready <==>
            if GetsToStatus(db, pool, plan) then p in db.nodePools && db.nodePools[p].status.ready else pool.status.ready
  {
    if PoolProceeds(db, db.pools[p], plan) {
      FullPoolPassExactly(db, p, parses, plan);
    } else {
      HeldUpPoolPassIsIdle(db, p, parses, plan);
    }
  }

  /** The pass that turns a pool Ready is one that gets to the status and finds the node pool ready;
      the pool then has security groups of its own, or else the observed ones. */
  lemma PoolTurnsReady(db: Db, p: string, parses: CidrParser, plan: PoolPlan)
    requires Inv(db, parses) && p in db.pools && !db.pools[p].meta.Deleting() && !db.pools[p].status.ready
    ensures var pool, m := db.pools[p], PoolPassBody(db, p, parses, plan).1;
            && (m.status.ready <==> GetsToStatus(db, pool, plan) && p in db.nodePools && db.nodePools[p].status.ready)
            && (m.status.ready ==>
                  m.spec.securityGroupIds == if pool.spec.securityGroupIds != [] then pool.spec.securityGroupIds
                                             else db.nodePools[p].status.securityGroupIds)
            && (!m.status.ready ==> m.spec.securityGroupIds == pool.spec.securityGroupIds)
  {
    PoolReadyAfterPass(db, p, parses, plan);
    if PoolProceeds(db, db.pools[p], plan) {
      FullPoolPassExactly(db, p, parses, plan);
    } else {
      HeldUpPoolPassIsIdle(db, p, parses, plan);
    }
  }

  /******* Vswitches of an unfinished pass *******/

  ghost predicate PoolEndsAt(db: Db, pool: Pool, k: nat, plan: PoolPlan)
  {
    && GetsTo(db, PoolSelf(pool), pool.spec.vswitches, k, plan.vswitches)
    && (k < |pool.spec.vswitches| ==> StopsAt(db, PoolSelf(pool), pool.spec.vswitches, k, plan.vswitches))
  }

  ghost predicate PoolDoneTo(db: Db, pool: Pool, vpcId: string, plan: PoolPlan, after: Db, entries: seq<VSwitch>,
                             k: nat)
  {
    DoneTo(db, PoolSelf(pool), vpcId, pool.spec.vswitches, plan.vswitches, Pass(after, entries, [], None), k)
  }

  lemma PoolVswitchesEndAt(db: Db, mem: Pool, vpcId: string, plan: PoolPlan, i: nat)
    requires PoolEndsAt(db, mem, i, plan)
    ensures var v := VswitchPass(db, PoolSelf(mem), vpcId, mem.spec.vswitches, plan.vswitches);
            PoolDoneTo(db, mem, vpcId, plan, v.db, v.entries, i)
  {
    if i < |mem.spec.vswitches| {
      PassStops(db, PoolSelf(mem), vpcId, mem.spec.vswitches, plan.vswitches, i);
    } else {
      PassFinishes(db, PoolSelf(mem), vpcId, mem.spec.vswitches, plan.vswitches);
    }
  }

  lemma NodePoolLeavesVswitches(db: Db, p: string, mem: Pool, cp: ControlPlane, k: ManagedKubernetes, plan: PoolPlan)
    ensures var v := VswitchPass(db, PoolSelf(mem), k.status.vpcId, mem.spec.vswitches, plan.vswitches);
            var (after, m) := PoolChildrenReconciled(db, p, mem, cp, k, plan);
            after.vswitches == v.db.vswitches && m.spec.vswitches == v.entries
  {
    PoolChildrenFrame(db, p, mem, cp, k, plan);
    var v := VswitchPass(db, PoolSelf(mem), k.status.vpcId, mem.spec.vswitches, plan.vswitches);
    NodePoolFlags(v.db, p, mem.(spec := mem.spec.(vswitches := v.entries)), cp, v.ids, plan);
  }

  /** The vswitches are done up to the first one whose lookup fails or whose name is taken, in the
      VPC that the provider reports for the cluster and for this pool. */
  lemma PoolVswitchesDoneTo(db: Db, p: string, parses: CidrParser, plan: PoolPlan, k: nat)
    requires Inv(db, parses) && p in db.pools && !db.pools[p].meta.Deleting() && PoolProceeds(db, db.pools[p], plan)
    requires PoolEndsAt(db, db.pools[p], k, plan)
    ensures var pool := db.pools[p];
            var (after, m) := PoolPassBody(db, p, parses, plan);
            PoolDoneTo(db, pool, db.kubernetes[pool.spec.cluster].status.vpcId, plan, after, m.spec.vswitches, k)
  {
    var pool := db.pools[p];
    var c := pool.spec.cluster;
    var a := ProceedingPoolPass(db, p, parses, plan);
    PoolEndsAfterFinalizer(db, p, pool, a, plan, k);
    var vpcId := db.kubernetes[c].status.vpcId;
    PoolVswitchesEndAt(a.db, a.mem, vpcId, plan, k);
    NodePoolLeavesVswitches(a.db, p, a.mem, db.controlPlanes[c], db.kubernetes[c], plan);
    var v := VswitchPass(a.db, PoolSelf(a.mem), vpcId, a.mem.spec.vswitches, plan.vswitches);
    var (after, m) := PoolPassBody(db, p, parses, plan);
    PoolDoneAfterFinalizer(db, p, pool, a, plan, vpcId, v.db, after, m.spec.vswitches, k);
  }

  lemma PoolEndsAfterFinalizer(db: Db, p: string, pool: Pool, a: PoolStep, plan: PoolPlan, k: nat)
    requires p in db.pools && PoolFinalized(db, p, pool, a) && PoolEndsAt(db, pool, k, plan)
    ensures PoolEndsAt(a.db, a.mem, k, plan)
  {
    var entries := pool.spec.vswitches;
    assert PoolSelf(a.mem) == PoolSelf(pool) && a.mem.spec == pool.spec && a.db.vswitches == db.vswitches;
    forall i: nat
      ensures StopsAt(a.db, PoolSelf(pool), entries, i, plan.vswitches)
              <==> StopsAt(db, PoolSelf(pool), entries, i, plan.vswitches)
    {
    }
  }

  lemma PoolDoneAfterFinalizer(db: Db, p: string, pool: Pool, a: PoolStep, plan: PoolPlan, vpcId: string, v: Db,
                               after: Db,
                               entries: seq<VSwitch>, k: nat)
    requires p in db.pools && PoolFinalized(db, p, pool, a)
    requires PoolDoneTo(a.db, a.mem, vpcId, plan, v, entries, k) && after.vswitches == v.vswitches
    ensures PoolDoneTo(db, pool, vpcId, plan, after, entries, k)
  {
  }

  /******* Deletion *******/

  /** A stored node pool keeps everything else waiting: its deletion is asked for once, and nothing
      else happens. */
  lemma NodePoolGoesFirst(db: Db, p: string, parses: CidrParser, plan: PoolPlan)
    requires p in db.pools && db.pools[p].meta.Deleting() && p in db.nodePools
    ensures var np := db.nodePools[p];
            var (after, m) := PoolPassBody(db, p, parses, plan);
            && m == db.pools[p] && after == db.(nodePools := after.nodePools)
            && after.nodePools == (if np.meta.deletedAt.Some? || !plan.nodePool.Works? then db.nodePools
                                   else if np.meta.finalizers == {} then db.nodePools - {p}
                                   else db.nodePools[p := np.(meta := np.meta.(deletedAt := Some(db.clock)))])
  {
  }

  /** With the node pool gone, the listed vswitches go; if each is gone or going, or overdue, so does
      the finalizer, and not otherwise. */
  lemma PoolTeardownExactly(db: Db, p: string, parses: CidrParser, plan: PoolPlan)
    requires p in db.pools && db.pools[p].meta.Deleting() && p !in db.nodePools && !plan.nodePool.ReadFails?
    ensures var pool := db.pools[p];
            var (after, m) := PoolPassBody(db, p, parses, plan);
            var entries := pool.spec.vswitches;
            && LeftAfter(db, after, entries, |entries|, plan.vswitches)
            && m == (if OnlyOverdue(db, entries, plan.vswitches)
                     then pool.(meta := pool.meta.(finalizers := pool.meta.finalizers - {MACHINE_POOL_FINALIZER}))
                     else pool)
  {
    RemovalExactly(db, db.pools[p].spec.vswitches, plan.vswitches);
  }

  lemma UnreadableNodePoolWaits(db: Db, p: string, parses: CidrParser, plan: PoolPlan)
    requires p in db.pools && db.pools[p].meta.Deleting() && plan.nodePool.ReadFails?
    ensures PoolPassBody(db, p, parses, plan) == (db, db.pools[p])
  {
  }

  /** The calls of a deleting pass up to its deferred write let the finalizer go. */
  ghost predicate PoolLetsGo(db: Db, p: string, pool: Pool, plan: PoolPlan)
  {
    p !in db.nodePools && !plan.nodePool.ReadFails? && OnlyOverdue(db, pool.spec.vswitches, plan.vswitches)
  }

  lemma PoolLetsGoExactly(db: Db, p: string, parses: CidrParser, plan: PoolPlan)
    requires p in db.pools && db.pools[p].meta.Deleting()
    ensures var pool := db.pools[p];
            PoolPassBody(db, p, parses, plan).1 ==
            if PoolLetsGo(db, p, pool, plan) then pool.(meta := WithoutFinalizer(pool.meta, MACHINE_POOL_FINALIZER))
            else pool
  {
    if p in db.nodePools {
      NodePoolGoesFirst(db, p, parses, plan);
    } else if !plan.nodePool.ReadFails? {
      PoolTeardownExactly(db, p, parses, plan);
    }
  }

  /** Whatever fails: a pass over a deleting pool makes its finalizer disappear from the store if and
      only if the node pool is gone, no call fails, both writes go through and the spec is consistent. */
  lemma PoolReleasedWhen(db: Db, p: string, parses: CidrParser, plan: PoolPlan)
    requires Inv(db, parses) && PoolHoldsFinalizer(db, p) && db.pools[p].meta.Deleting()
    ensures !PoolHoldsFinalizer(PoolPass(db, p, parses, plan), p) <==>
            && plan.readable && PoolLetsGo(db, p, db.pools[p], plan) && Consistent(db.pools[p].spec)
            && !plan.statusFault.WriteFails? && !plan.specFault.WriteFails?
  {
    var pool := db.pools[p];
    assert PoolOk(db.log, p, pool, parses);
    ControllerEditAdmitted(pool.spec, pool.spec, parses);
    PoolPassKeepsObject(db, p, parses, plan);
    PoolDeletedOrder(db, p, plan);
    PoolLetsGoExactly(db, p, parses, plan);
    var (after, m) := PoolPassBody(db, p, parses, plan);
    TwoPhaseRefinesAtomic(pool, m, PoolAdmitsUpdate(m.spec, pool.spec, parses), plan.statusFault, plan.specFault);
  }

  /******* What of it is stored *******/

  /** A pool that cannot be read is left alone. Otherwise the children are stored as the pass left
      them; the status is stored exactly if its write works, the spec and the finalizers exactly if
      the second write works too and is admitted; no other pool is touched. */
  lemma PoolPassIsStored(db: Db, p: string, parses: CidrParser, plan: PoolPlan)
    requires p in db.pools && !db.pools[p].meta.Gone()
    ensures var (body, m) := PoolPassBody(db, p, parses, plan);
            var after := PoolPass(db, p, parses, plan);
            if !plan.readable then after == db
            else
              && after == body.(pools := after.pools)
              && (forall q :: q != p ==> (q in after.pools <==> q in db.pools))
              && (forall q :: q != p && q in db.pools ==> after.pools[q] == db.pools[q])
              && p in body.pools
              && PoolStoredAs(db.pools[p], body.pools[p].meta.finalizers, m, parses, plan, p, after)
  {
    if plan.readable {
      PoolPassOwnObject(db, p, parses, plan);
      PoolPassLeavesStatus(db, p, parses, plan);
      var (body, m) := PoolPassBody(db, p, parses, plan);
      var stored := body.pools[p];
      TwoPhaseRefinesAtomic(stored, m, PoolAdmitsUpdate(m.spec, stored.spec, parses), plan.statusFault, plan.specFault);
    }
  }

  /** The stored object after the deferred write; early are the finalizers stored before it. */
  ghost predicate PoolStoredAs(before: Pool, early: set<string>, m: Pool, parses: CidrParser, plan: PoolPlan,
                               p: string, after: Db)
  {
    var first := !plan.statusFault.WriteFails?;
    var second := first && !plan.specFault.WriteFails? && PoolAdmitsUpdate(m.spec, before.spec, parses);
    var finalizers := if second then m.meta.finalizers else early;
    if before.meta.Deleting() && finalizers == {} then p !in after.pools
    else
      && p in after.pools
      && var pool := after.pools[p];
      && pool.meta == before.meta.(finalizers := finalizers)
      && pool.status == (if first then m.status else before.status)
      && pool.spec == (if second then m.spec else before.spec)
  }

  lemma PoolPassLeavesStatus(db: Db, p: string, parses: CidrParser, plan: PoolPlan)
    requires p in db.pools && !db.pools[p].meta.Gone()
    ensures var body := PoolPassBody(db, p, parses, plan).0;
            && p in body.pools && body.pools[p].status == db.pools[p].status
            && (db.pools[p].meta.Deleting() ==> body.pools == db.pools)
  {
    var pool := db.pools[p];
    if pool.meta.Deleting() {
      PoolDeletedOrder(db, p, plan);
    } else {
      PoolFinalizerAddedFacts(db, p, pool, parses, plan.finalizerFault);
      var a := PoolFinalizerAdded(db, p, pool, parses, plan.finalizerFault);
      var c := pool.spec.cluster;
      if c in db.controlPlanes && c in a.db.kubernetes {
        PoolChildrenLeaveOwners(a.db, p, a.mem, db.controlPlanes[c], a.db.kubernetes[c], plan);
      }
    }
  }
}
