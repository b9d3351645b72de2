/** What a machine pool pass achieves: the node pool it writes, and the admitted pools it can
    never work on. */
module MachinePoolResults {
  import opened Wrappers
  import opened CommonApi
  import opened ApiServer
  import opened ControlPlaneWebhook
  import opened MachinePoolWebhook
  import opened VswitchReconcile
  import opened VswitchFacts
  import opened WriteBack
  import opened ControlPlaneController
  import opened MachinePoolController
  import opened Collectors
  import opened Runs
  import opened Invariant
  import opened MachinePoolStages
  import opened ControlPlaneRuns
  import opened RunTheorems

  /** The node pool uses the pool's key, or else refers to the secret that holds the pool's
      current password; never both. */
  ghost predicate UsesCredential(passwords: map<string, string>, p: string, spec: PoolSpec, np: NodePoolSpec)
  {
    var secret := PasswordSecretName(p);
    if spec.keyName != "" then np.keyName == Some(spec.keyName) && np.passwordSecret == None
    else np.keyName == None && np.passwordSecret == Some(secret) && secret in passwords && passwords[secret] == spec.password
  }

  lemma CredentialWritten(db: Db, p: string, pool: PoolSpec, spec: NodePoolSpec, fault: Fault)
    requires OneCredential(pool)
    ensures var c := CredentialsEnsured(db, p, pool, spec, fault);
            && (c.ok <==> pool.keyName != "" || fault.Works?)
            && (c.ok ==> UsesCredential(c.db.passwords, p, pool, c.spec))
  {
  }

  /** Every successful create or update of a node pool, whatever it held before, leaves it with
      the given vswitches and exactly the pool's current credential; an update never moves it
      to another cluster. */
  lemma NodePoolWritten(db: Db, p: string, mem: Pool, cp: ControlPlane, ids: seq<string>, plan: PoolPlan)
    requires OneCredential(mem.spec)
    ensures var n := NodePoolReconciled(db, p, mem, cp, ids, plan).0;
            && (n.ok <==> plan.nodePool.Works? && (mem.spec.keyName != "" || plan.secret.Works?))
            && (n.ok && p in n.db.nodePools ==>
                  && var np := n.db.nodePools[p];
                  && np.spec.vswitchIds == ids
                  && UsesCredential(n.db.passwords, p, mem.spec, np.spec)
                  && np.spec.clusterId == (if p in db.nodePools then db.nodePools[p].spec.clusterId else cp.status.clusterId))
            && (!n.ok ==> n.db.nodePools == db.nodePools)
  {
    if p in db.nodePools {
      NodePoolUpdated(db, p, mem, cp, ids, plan);
    } else {
      NodePoolCreated(db, p, mem, cp, ids, plan);
    }
  }

  lemma NodePoolUpdated(db: Db, p: string, mem: Pool, cp: ControlPlane, ids: seq<string>, plan: PoolPlan)
    requires OneCredential(mem.spec) && p in db.nodePools
    ensures var n := NodePoolReconciled(db, p, mem, cp, ids, plan).0;
            && (n.ok <==> plan.nodePool.Works? && (mem.spec.keyName != "" || plan.secret.Works?))
            && (n.ok && p in n.db.nodePools ==>
                  && var np := n.db.nodePools[p];
                  && np.spec.vswitchIds == ids
                  && UsesCredential(n.db.passwords, p, mem.spec, np.spec)
                  && np.spec.clusterId == db.nodePools[p].spec.clusterId)
            && (!n.ok ==> n.db.nodePools == db.nodePools)
  {
    var spec := mem.spec.(region := cp.spec.region, clusterId := cp.status.clusterId);
    var np := db.nodePools[p];
    var changed := np.spec.(vswitchIds := ids, keyName := Some(spec.keyName));
    CredentialWritten(db, p, spec, changed, plan.secret);
    var c := CredentialsEnsured(db, p, spec, changed, plan.secret);
    var n := NodePoolReconciled(db, p, mem, cp, ids, plan).0;
    assert n.ok ==> n.db == PutNodePool(c.db, p, np.(spec := c.spec));
  }

  lemma NodePoolCreated(db: Db, p: string, mem: Pool, cp: ControlPlane, ids: seq<string>, plan: PoolPlan)
    requires OneCredential(mem.spec) && p !in db.nodePools
    ensures var n := NodePoolReconciled(db, p, mem, cp, ids, plan).0;
            && (n.ok <==> plan.nodePool.Works? && (mem.spec.keyName != "" || plan.secret.Works?))
            && (n.ok ==>
                  && p in n.db.nodePools
                  && var np := n.db.nodePools[p];
                  && np.spec.vswitchIds == ids
                  && UsesCredential(n.db.passwords, p, mem.spec, np.spec)
                  && np.spec.clusterId == cp.status.clusterId)
            && (!n.ok ==> n.db.nodePools == db.nodePools)
  {
    var spec := mem.spec.(region := cp.spec.region, clusterId := cp.status.clusterId);
    var wanted := NodePoolSpec(spec.clusterId, ids, None, None, spec.securityGroupIds);
    CredentialWritten(db, p, spec, wanted, plan.secret);
    var c := CredentialsEnsured(db, p, spec, wanted, plan.secret);
    var n := NodePoolReconciled(db, p, mem, cp, ids, plan).0;
    assert n.ok ==> n.db == CreateNodePool(c.db, p, [PoolSelf(mem)], c.spec);
  }

  /** A node pool as the pass that creates it stores it: one real id per vswitch, in order. */
  ghost predicate WellCreated(np: NodePool, cp: ControlPlane, before: Pool, after: Pool)
  {
    && np.meta.owners == [PoolSelf(before)]
    && np.spec.clusterId == after.spec.clusterId == cp.status.clusterId != ""
    && after.spec.region == cp.spec.region
    && |np.spec.vswitchIds| == |before.spec.vswitches| == |after.spec.vswitches|
    && (forall k :: 0 <= k < |np.spec.vswitchIds| ==>
          && EntryKept(before.spec.vswitches[k], after.spec.vswitches[k])
          && np.spec.vswitchIds[k] == CloudId(after.spec.vswitches[k]) != "")
    && after.status.creating && !after.status.ready
  }

  lemma ChildrenCreate(db: Db, p: string, mem: Pool, cp: ControlPlane, k: ManagedKubernetes, plan: PoolPlan)
    requires p !in db.nodePools && OneCredential(mem.spec) && cp.status.clusterId != ""
    requires p in PoolChildrenReconciled(db, p, mem, cp, k, plan).0.nodePools
    ensures var (after, m) := PoolChildrenReconciled(db, p, mem, cp, k, plan);
            && WellCreated(after.nodePools[p], cp, mem, m)
            && UsesCredential(after.passwords, p, mem.spec, after.nodePools[p].spec)
  {
    PassContract(db, PoolSelf(mem), k.status.vpcId, mem.spec.vswitches, plan.vswitches);
    var v := VswitchPass(db, PoolSelf(mem), k.status.vpcId, mem.spec.vswitches, plan.vswitches);
    var m := mem.(spec := mem.spec.(vswitches := v.entries));
    NodePoolWritten(v.db, p, m, cp, v.ids, plan);
    var (n, view) := NodePoolReconciled(v.db, p, m, cp, v.ids, plan);
    assert n.ok && view.None? && n.mem.meta == mem.meta;
    assert n.db.nodePools[p].meta.owners == [PoolSelf(mem)];
  }

  /** In every run, the pass that creates a node pool does so for a Ready control plane, with
      its region and non-empty cluster id, one real vswitch id per entry of the pool's list, and
      the pool's current credential, and it ends Creating and not Ready. */
  lemma NodePoolCreation(es: seq<Event>, timeout: nat, parses: CidrParser, p: string, plan: PoolPlan)
    requires var db := Run(es, timeout, parses);
             p in db.pools && p !in db.nodePools && p in PoolPassBody(db, p, parses, plan).0.nodePools
    ensures var db := Run(es, timeout, parses);
            var pool, c := db.pools[p], db.pools[p].spec.cluster;
            var (after, m) := PoolPassBody(db, p, parses, plan);
            && c in db.controlPlanes && db.controlPlanes[c].status.ready
            && WellCreated(after.nodePools[p], db.controlPlanes[c], pool, m)
            && UsesCredential(after.passwords, p, pool.spec, after.nodePools[p].spec)
  {
    Reachable(es, timeout, parses);
    CreationPass(Run(es, timeout, parses), p, parses, plan);
  }

  lemma CreationPass(db: Db, p: string, parses: CidrParser, plan: PoolPlan)
    requires Inv(db, parses) && p in db.pools && p !in db.nodePools && p in PoolPassBody(db, p, parses, plan).0.nodePools
    ensures var pool, c := db.pools[p], db.pools[p].spec.cluster;
            var (after, m) := PoolPassBody(db, p, parses, plan);
            && c in db.controlPlanes && db.controlPlanes[c].status.ready
            && WellCreated(after.nodePools[p], db.controlPlanes[c], pool, m)
            && UsesCredential(after.passwords, p, pool.spec, after.nodePools[p].spec)
  {
    var pool := db.pools[p];
    assert PoolOk(db.log, p, pool, parses);
    if pool.meta.Deleting() {
      RemoveContract(db, pool.spec.vswitches, plan.vswitches);
      assert false;
    } else {
      PoolFinalizerAddedFacts(db, p, pool, parses, plan.finalizerFault);
      var a := PoolFinalizerAdded(db, p, pool, parses, plan.finalizerFault);
      var c := pool.spec.cluster;
      assert ControlPlaneOk(db.log, db.kubeconfigs, c, db.controlPlanes[c]);
      ChildrenCreate(a.db, p, a.mem, db.controlPlanes[c], a.db.kubernetes[c], plan);
    }
  }

  /******* Admitted pools that are stuck *******/

  lemma RefusedBody(db: Db, p: string, parses: CidrParser, plan: PoolPlan)
    requires p in db.pools && !db.pools[p].meta.Deleting() && MACHINE_POOL_FINALIZER !in db.pools[p].meta.finalizers
    requires !PoolAdmitsUpdate(db.pools[p].spec, db.pools[p].spec, parses)
    ensures var (after, m) := PoolPassBody(db, p, parses, plan);
            after == db && m.spec == db.pools[p].spec
  {
  }

  lemma RefusedWrite(db: Db, p: string, m: Pool, parses: CidrParser, plan: PoolPlan)
    requires p in db.pools && !db.pools[p].meta.Gone() && m.spec == db.pools[p].spec
    requires !PoolAdmitsUpdate(db.pools[p].spec, db.pools[p].spec, parses)
    ensures var after := WrittenPool(db, p, m, parses, plan);
            && after == db.(pools := after.pools) && after.pools.Keys == db.pools.Keys
            && after.pools[p] == db.pools[p].(version := after.pools[p].version, status := after.pools[p].status)
            && forall q :: q != p && q in db.pools ==> after.pools[q] == db.pools[q]
  {
    TwoPhaseRefinesAtomic(db.pools[p], m, false, plan.statusFault, plan.specFault);
  }

  /** A pool that was admitted without a zone, or with two networks under one name, never gets
      anywhere: no pass over it, whatever the environment does, changes more of the whole store
      than this pool's status and version. */
  lemma InconsistentPoolIsStuck(db: Db, p: string, parses: CidrParser, plan: PoolPlan)
    requires Inv(db, parses) && p in db.pools && !db.pools[p].meta.Deleting()
    requires MACHINE_POOL_FINALIZER !in db.pools[p].meta.finalizers && !Consistent(db.pools[p].spec)
    ensures var after := PoolPass(db, p, parses, plan);
            && after == db.(pools := after.pools) && after.pools.Keys == db.pools.Keys
            && after.pools[p] == db.pools[p].(version := after.pools[p].version, status := after.pools[p].status)
            && forall q :: q != p && q in db.pools ==> after.pools[q] == db.pools[q]
  {
    var pool := db.pools[p];
    assert PoolOk(db.log, p, pool, parses);
    ControllerEditAdmitted(pool.spec, pool.spec, parses);
    RefusedBody(db, p, parses, plan);
    RefusedWrite(db, p, PoolPassBody(db, p, parses, plan).1, parses, plan);
  }

  /** And inconsistency is exactly what holds it up: a pass with a Ready control plane in which
      the calls up to that point succeed stores the finalizer if and only if the spec is consistent. */
  lemma FinalizerNeedsConsistency(db: Db, p: string, parses: CidrParser, plan: PoolPlan)
    requires Inv(db, parses) && p in db.pools && !db.pools[p].meta.Deleting()
    requires MACHINE_POOL_FINALIZER !in db.pools[p].meta.finalizers
    requires db.pools[p].spec.cluster in db.controlPlanes && db.controlPlanes[db.pools[p].spec.cluster].status.ready
    requires plan.controlPlaneReadable && plan.sdkReady && plan.finalizerFault.Works?
    ensures var after := PoolPassBody(db, p, parses, plan).0;
            && p in after.pools
            && (MACHINE_POOL_FINALIZER in after.pools[p].meta.finalizers <==> Consistent(db.pools[p].spec))
  {
    var pool := db.pools[p];
    assert PoolOk(db.log, p, pool, parses);
    ControllerEditAdmitted(pool.spec, pool.spec, parses);
    PoolFinalizerAddedFacts(db, p, pool, parses, plan.finalizerFault);
    var a := PoolFinalizerAdded(db, p, pool, parses, plan.finalizerFault);
    var c := pool.spec.cluster;
    if a.ok && c in a.db.kubernetes {
      PoolChildrenLeaveOwners(a.db, p, a.mem, db.controlPlanes[c], a.db.kubernetes[c], plan);
    }
  }

  /******* New vswitches and the collector *******/

  lemma NodePoolEdits(db: Db, p: string, mem: Pool, cp: ControlPlane, ids: seq<string>, plan: PoolPlan)
    ensures var n := NodePoolReconciled(db, p, mem, cp, ids, plan).0;
            n.mem.spec == mem.spec.(region := n.mem.spec.region, clusterId := n.mem.spec.clusterId)
  {
  }

  /** The pass edits only what the update webhook leaves to the controller. */
  lemma ChildrenEdit(db: Db, p: string, mem: Pool, cp: ControlPlane, k: ManagedKubernetes, plan: PoolPlan)
    ensures var v := VswitchPass(db, PoolSelf(mem), k.status.vpcId, mem.spec.vswitches, plan.vswitches);
            var m := PoolChildrenReconciled(db, p, mem, cp, k, plan).1;
            ControllerEdit(m.spec, mem.spec) && m.spec.vswitches == v.entries
  {
    PassContract(db, PoolSelf(mem), k.status.vpcId, mem.spec.vswitches, plan.vswitches);
    var v := VswitchPass(db, PoolSelf(mem), k.status.vpcId, mem.spec.vswitches, plan.vswitches);
    forall i | 0 <= i < |v.entries| ensures SameUserFields(v.entries[i], mem.spec.vswitches[i]) {
      assert EntryKept(mem.spec.vswitches[i], v.entries[i]);
    }
    NodePoolEdits(v.db, p, mem.(spec := mem.spec.(vswitches := v.entries)), cp, v.ids, plan);
  }

  /** The in-memory list records the uid of every vswitch the pass has created. */
  ghost predicate RecordedInMemory(db: Db, after: Db, before: Pool, mem: Pool, n: string)
    requires n in after.vswitches
  {
    var v := after.vswitches[n];
    && db.nextUid <= v.meta.uid && v.meta == Meta(v.meta.uid, [PoolSelf(before)], None, {}) && v.cloudId == None
    && ControllerEdit(mem.spec, before.spec) && ListsUid(mem.spec.vswitches, v.meta.uid)
  }

  lemma ChildrenRecord(db: Db, p: string, mem: Pool, cp: ControlPlane, k: ManagedKubernetes, plan: PoolPlan, n: string)
    requires n in PoolChildrenReconciled(db, p, mem, cp, k, plan).0.vswitches && n !in db.vswitches
    requires forall i :: 0 <= i < |mem.spec.vswitches| && mem.spec.vswitches[i].id != "" ==> mem.spec.vswitches[i].name == ""
    ensures var (after, m) := PoolChildrenReconciled(db, p, mem, cp, k, plan);
            RecordedInMemory(db, after, mem, m, n)
  {
    PoolChildrenFrame(db, p, mem, cp, k, plan);
    ChildrenEdit(db, p, mem, cp, k, plan);
    var owner := PoolSelf(mem);
    PassContract(db, owner, k.status.vpcId, mem.spec.vswitches, plan.vswitches);
    var v := VswitchPass(db, owner, k.status.vpcId, mem.spec.vswitches, plan.vswitches);
    assert FreshVswitch(db, v.db, n, owner, k.status.vpcId);
    var i: nat :| RecordsNew(mem.spec.vswitches, v.entries, v.db, n, i);
    assert EntryKept(mem.spec.vswitches[i], v.entries[i]);
  }

  lemma PassRecords(db: Db, p: string, parses: CidrParser, plan: PoolPlan, n: string)
    requires Inv(db, parses) && p in db.pools
    requires n in PoolPassBody(db, p, parses, plan).0.vswitches && n !in db.vswitches
    ensures var (after, m) := PoolPassBody(db, p, parses, plan);
            RecordedInMemory(db, after, db.pools[p], m, n)
  {
    var pool := db.pools[p];
    assert PoolOk(db.log, p, pool, parses);
    if pool.meta.Deleting() {
      RemoveContract(db, pool.spec.vswitches, plan.vswitches);
      assert false;
    } else {
      PoolFinalizerAddedFacts(db, p, pool, parses, plan.finalizerFault);
      var a := PoolFinalizerAdded(db, p, pool, parses, plan.finalizerFault);
      var c := pool.spec.cluster;
      forall i | 0 <= i < |a.mem.spec.vswitches| && a.mem.spec.vswitches[i].id != "" ensures a.mem.spec.vswitches[i].name == "" {
        assert WellFormedEntry(pool.spec.vswitches[i], parses);
      }
      ChildrenRecord(a.db, p, a.mem, db.controlPlanes[c], a.db.kubernetes[c], plan, n);
    }
  }

  /** The uid is not one that a reachable store already knew, so no stored spec lists it. */
  lemma FreshUidUnlisted(db: Db, p: string, uid: Uid, parses: CidrParser)
    requires Inv(db, parses) && p in db.pools && db.nextUid <= uid
    ensures !ListsUid(db.pools[p].spec.vswitches, uid)
  {
    assert PoolOk(db.log, p, db.pools[p], parses);
  }

  lemma NewVswitchListed(db: Db, p: string, parses: CidrParser, plan: PoolPlan, n: string)
    requires Inv(db, parses) && p in db.pools && !db.pools[p].meta.Gone()
    requires n in PoolPass(db, p, parses, plan).vswitches && n !in db.vswitches
    ensures var after := PoolPass(db, p, parses, plan);
            var v := after.vswitches[n];
            && p in after.pools && after.pools[p].meta.uid == db.pools[p].meta.uid
            && v.meta == Meta(v.meta.uid, [PoolSelf(db.pools[p])], None, {}) && v.cloudId == None
            && (ListsUid(after.pools[p].spec.vswitches, v.meta.uid) <==>
                  !plan.statusFault.WriteFails? && !plan.specFault.WriteFails? && Consistent(db.pools[p].spec))
  {
    var pool := db.pools[p];
    assert PoolOk(db.log, p, pool, parses);
    PoolPassKeepsObject(db, p, parses, plan);
    PassRecords(db, p, parses, plan, n);
    var (body, m) := PoolPassBody(db, p, parses, plan);
    FreshUidUnlisted(db, p, body.vswitches[n].meta.uid, parses);
    ControllerEditAdmitted(m.spec, pool.spec, parses);
    TwoPhaseRefinesAtomic(body.pools[p], m, PoolAdmitsUpdate(m.spec, pool.spec, parses), plan.statusFault, plan.specFault);
    PassOwnPool(db, p, parses, plan);
  }

  lemma PassOwnPool(db: Db, p: string, parses: CidrParser, plan: PoolPlan)
    requires p in db.pools && !db.pools[p].meta.Gone() && !db.pools[p].meta.Deleting()
    ensures var (after, m) := PoolPassBody(db, p, parses, plan);
            && p in after.pools && after.pools[p].meta.uid == db.pools[p].meta.uid
            && after.pools[p].meta.deletedAt == None && m.meta.deletedAt == None
  {
    PoolFinalizerAddedFacts(db, p, db.pools[p], parses, plan.finalizerFault);
    var a := PoolFinalizerAdded(db, p, db.pools[p], parses, plan.finalizerFault);
    var c := db.pools[p].spec.cluster;
    if c in db.controlPlanes && c in a.db.kubernetes {
      PoolChildrenLeaveOwners(a.db, p, a.mem, db.controlPlanes[c], a.db.kubernetes[c], plan);
      PoolChildrenFrame(a.db, p, a.mem, db.controlPlanes[c], a.db.kubernetes[c], plan);
    }
  }

  /** In every run, a vswitch that a pool pass has just created survives the collector's next
      error-free pass if and only if the pool's write-back went through: neither call failed, and
      the spec was consistent. Otherwise the two controllers create and delete it in turn. */
  lemma NewVswitchSurvives(es: seq<Event>, timeout: nat, parses: CidrParser, p: string, plan: PoolPlan, n: string)
    requires var db := Run(es, timeout, parses);
             && p in db.pools && !db.pools[p].meta.Gone()
             && n in PoolPass(db, p, parses, plan).vswitches && n !in db.vswitches
    ensures var db := Run(es, timeout, parses);
            var after := PoolPass(db, p, parses, plan);
            CollectPass(after, n, CollectPlan(Works, false, false)) == after <==>
            !plan.statusFault.WriteFails? && !plan.specFault.WriteFails? && Consistent(db.pools[p].spec)
  {
    Reachable(es, timeout, parses);
    var db := Run(es, timeout, parses);
    var after := PoolPass(db, p, parses, plan);
    NewVswitchListed(db, p, parses, plan, n);
    PoolPassKeeps(db, p, plan, parses);
    LookupsAreUnique(after, parses);
    NewVswitchWanted(after, p, n);
    CollectsExactlyGarbage(after, n, CollectPlan(Works, false, false));
  }

  lemma NewVswitchWanted(db: Db, p: string, n: string)
    requires p in db.pools && n in db.vswitches && UniqueLookups(db)
    requires var meta := db.vswitches[n].meta; meta == Meta(meta.uid, [PoolSelf(db.pools[p])], None, {})
    requires db.vswitches[n].cloudId == None
    ensures Garbage(db, db.vswitches[n]) <==> !ListsUid(db.pools[p].spec.vswitches, db.vswitches[n].meta.uid)
  {
    assert IsPool(db, p, db.pools[p].meta.uid);
  }
}
