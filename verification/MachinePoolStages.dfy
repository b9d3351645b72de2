/** The machine pool pass keeps the invariant, stage by stage. */
module MachinePoolStages {
  import opened Wrappers
  import opened CommonApi
  import opened ApiServer
  import opened ControlPlaneWebhook
  import opened MachinePoolWebhook
  import opened VswitchReconcile
  import opened VswitchFacts
  import opened WriteBack
  import opened ControlPlaneController
  import opened MachinePoolController
  import opened Invariant
  import opened Preservation
  import opened ControlPlaneStages

  /** The in-memory pool while a pass is past the finalizer. */
  ghost predicate PoolMemOk(db: Db, p: string, mem: Pool, parses: CidrParser)
  {
    && p in db.pools && mem.meta == db.pools[p].meta
    && MACHINE_POOL_FINALIZER in mem.meta.finalizers && !mem.meta.Deleting()
    && PoolOk(db.log, p, mem, parses)
  }

  lemma PoolFinalizerStage(db: Db, p: string, fault: Fault, parses: CidrParser)
    requires Inv(db, parses) && p in db.pools && !db.pools[p].meta.Deleting()
    ensures var a := PoolFinalizerAdded(db, p, db.pools[p], parses, fault);
            && Inv(a.db, parses)
            && (a.ok ==> PoolMemOk(a.db, p, a.mem, parses))
  {
    var pool := db.pools[p];
    assert PoolOk(db.log, p, pool, parses);
    PoolFinalizerAddedFacts(db, p, pool, parses, fault);
    var a := PoolFinalizerAdded(db, p, pool, parses, fault);
    if a.ok && MACHINE_POOL_FINALIZER !in pool.meta.finalizers {
      PoolReplaced(db, p, a.mem, parses);
      assert a.db == PutPool(db, p, a.mem);
    }
  }

  lemma PoolVswitchStage(db: Db, p: string, mem: Pool, vpcId: string, faults: nat -> Fault, parses: CidrParser)
    requires Inv(db, parses) && PoolMemOk(db, p, mem, parses)
    ensures var v := VswitchPass(db, PoolSelf(mem), vpcId, mem.spec.vswitches, faults);
            && Inv(v.db, parses)
            && PoolMemOk(v.db, p, mem.(spec := mem.spec.(vswitches := v.entries)), parses)
  {
    var owner := PoolSelf(mem);
    var v := VswitchPass(db, owner, vpcId, mem.spec.vswitches, faults);
    forall n | n in db.vswitches ensures Logged(db.log, VswitchKind, n, db.vswitches[n].meta) {
      assert VswitchOk(db.log, db.controlPlanes, n, db.vswitches[n]);
    }
    PassOwnsEntries(db, owner, vpcId, mem.spec.vswitches, faults);
    PassContract(db, owner, vpcId, mem.spec.vswitches, faults);
    PoolVswitchesCreated(db, v.db, owner, vpcId, parses);
    PoolEntriesFilled(db, p, mem, v, parses);
  }

  lemma PoolVswitchesCreated(db: Db, later: Db, owner: OwnerRef, vpcId: string, parses: CidrParser)
    requires Inv(db, parses) && OnlyCreates(db, later, owner, vpcId) && owner.kind == MachinePoolKind
    requires LogGrows(db.log, later.log) && LogOk(later)
    ensures Inv(later, parses)
  {
    SameOwners(db, later);
    ChildrenKept(db, later, parses);
    forall n | n in later.vswitches ensures VswitchOk(later.log, later.controlPlanes, n, later.vswitches[n]) {
      if n !in db.vswitches {
        assert FreshVswitch(db, later, n, owner, vpcId);
      }
    }
  }

  lemma PoolEntriesFilled(db: Db, p: string, mem: Pool, v: Pass, parses: CidrParser)
    requires PoolMemOk(db, p, mem, parses) && |v.entries| == |mem.spec.vswitches|
    requires v.db == db.(nextUid := v.db.nextUid, log := v.db.log, vswitches := v.db.vswitches)
    requires LogGrows(db.log, v.db.log) && OwnsEntries(v.db.log, v.entries, mem.meta.uid)
    requires forall k :: 0 <= k < |v.entries| ==> EntryKept(mem.spec.vswitches[k], v.entries[k])
    ensures PoolMemOk(v.db, p, mem.(spec := mem.spec.(vswitches := v.entries)), parses)
  {
    forall k | 0 <= k < |v.entries| ensures WellFormedEntry(v.entries[k], parses) {
      assert EntryKept(mem.spec.vswitches[k], v.entries[k]) && WellFormedEntry(mem.spec.vswitches[k], parses);
    }
  }

  lemma PasswordStored(db: Db, secret: string, password: string, parses: CidrParser)
    requires Inv(db, parses) && password != ""
    ensures var later := db.(passwords := db.passwords[secret := password]);
            Inv(later, parses) && Grows(db, later)
  {
    var later := db.(passwords := db.passwords[secret := password]);
    SameOwners(db, later);
    ChildrenKept(db, later, parses);
  }

  /** Whatever the old node pool spec held, the result holds exactly one credential, and a
      password it refers to is stored, with the pool's current value. */
  lemma CredentialStage(db: Db, p: string, mem: Pool, spec: NodePoolSpec, fault: Fault, parses: CidrParser)
    requires Inv(db, parses) && PoolMemOk(db, p, mem, parses)
    ensures var c := CredentialsEnsured(db, p, mem.spec, spec, fault);
            && Inv(c.db, parses) && PoolMemOk(c.db, p, mem, parses)
            && (c.ok ==> CredentialOk(c.db.passwords, c.spec))
            && (c.ok && c.spec.passwordSecret.Some? ==> c.db.passwords[c.spec.passwordSecret.value] == mem.spec.password)
  {
    if mem.spec.keyName == "" && fault.Works? {
      PasswordStored(db, PasswordSecretName(p), mem.spec.password, parses);
    }
  }

  lemma NodePoolCreationKeeps(db: Db, p: string, mem: Pool, spec: NodePoolSpec, parses: CidrParser)
    requires Inv(db, parses) && PoolMemOk(db, p, mem, parses) && p !in db.nodePools
    requires CredentialOk(db.passwords, spec) && spec.clusterId != "" && "" !in spec.vswitchIds
    ensures var later := CreateNodePool(db, p, [PoolSelf(mem)], spec);
            Inv(later, parses) && PoolMemOk(later, p, mem, parses)
  {
    var later := CreateNodePool(db, p, [PoolSelf(mem)], spec);
    BirthGrows(db, NodePoolKind, p, [PoolSelf(mem)]);
    SameOwners(db, later);
    ChildrenKept(db, later, parses);
    PoolOkGrows(db, later, p, mem, parses);
    assert PoolSelf(later.pools[p]) == PoolSelf(mem);
    assert NodePoolOk(later.log, later.pools, later.passwords, p, later.nodePools[p]);
  }

  lemma PoolEdited(db: Db, p: string, mem: Pool, region: string, clusterId: string, status: PoolStatus,
                   parses: CidrParser)
    requires PoolMemOk(db, p, mem, parses)
    ensures PoolMemOk(db, p, mem.(spec := mem.spec.(region := region, clusterId := clusterId), status := status), parses)
  {
  }

  lemma NodePoolStage(db: Db, p: string, mem: Pool, cp: ControlPlane, ids: seq<string>, plan: PoolPlan,
                      parses: CidrParser)
    requires Inv(db, parses) && PoolMemOk(db, p, mem, parses)
    requires cp.status.clusterId != "" && "" !in ids
    ensures var n := NodePoolReconciled(db, p, mem, cp, ids, plan).0;
            Inv(n.db, parses) && PoolMemOk(n.db, p, n.mem, parses)
  {
    if !plan.nodePool.ReadFails? {
      PoolEdited(db, p, mem, cp.spec.region, cp.status.clusterId, mem.status, parses);
      var m := mem.(spec := mem.spec.(region := cp.spec.region, clusterId := cp.status.clusterId));
      if p in db.nodePools {
        NodePoolUpdateStage(db, p, m, ids, plan, parses);
      } else {
        NodePoolCreateStage(db, p, m, ids, plan, parses);
      }
    }
  }

  lemma NodePoolCreateStage(db: Db, p: string, m: Pool, ids: seq<string>, plan: PoolPlan, parses: CidrParser)
    requires Inv(db, parses) && PoolMemOk(db, p, m, parses) && p !in db.nodePools
    requires m.spec.clusterId != "" && "" !in ids
    ensures var wanted := NodePoolSpec(m.spec.clusterId, ids, None, None, m.spec.securityGroupIds);
            var c := CredentialsEnsured(db, p, m.spec, wanted, plan.secret);
            && Inv(c.db, parses) && PoolMemOk(c.db, p, m, parses)
            && (c.ok ==>
                  var later := CreateNodePool(c.db, p, [PoolSelf(m)], c.spec);
                  Inv(later, parses) && PoolMemOk(later, p, m.(status := m.status.(creating := true)), parses))
  {
    var wanted := NodePoolSpec(m.spec.clusterId, ids, None, None, m.spec.securityGroupIds);
    CredentialStage(db, p, m, wanted, plan.secret, parses);
    var c := CredentialsEnsured(db, p, m.spec, wanted, plan.secret);
    if c.ok {
      NodePoolCreationKeeps(c.db, p, m, c.spec, parses);
      PoolEdited(CreateNodePool(c.db, p, [PoolSelf(m)], c.spec), p, m, m.spec.region, m.spec.clusterId,
                 m.status.(creating := true), parses);
    }
  }

  lemma NodePoolUpdateStage(db: Db, p: string, m: Pool, ids: seq<string>, plan: PoolPlan, parses: CidrParser)
    requires Inv(db, parses) && PoolMemOk(db, p, m, parses) && p in db.nodePools && "" !in ids
    ensures var np := db.nodePools[p];
            var c := CredentialsEnsured(db, p, m.spec, np.spec.(vswitchIds := ids, keyName := Some(m.spec.keyName)), plan.secret);
            && Inv(c.db, parses) && PoolMemOk(c.db, p, m, parses)
            && (c.ok ==>
                  var later := PutNodePool(c.db, p, np.(spec := c.spec));
                  Inv(later, parses) && PoolMemOk(later, p, m, parses) &&
                  PoolMemOk(later, p, m.(status := m.status.(updating := true)), parses))
  {
    var np := db.nodePools[p];
    assert NodePoolOk(db.log, db.pools, db.passwords, p, np);
    var changed := np.spec.(vswitchIds := ids, keyName := Some(m.spec.keyName));
    CredentialStage(db, p, m, changed, plan.secret, parses);
    var c := CredentialsEnsured(db, p, m.spec, changed, plan.secret);
    if c.ok {
      NodePoolChanged(c.db, p, np.(spec := c.spec), parses);
      PoolEdited(PutNodePool(c.db, p, np.(spec := c.spec)), p, m, m.spec.region, m.spec.clusterId,
                 m.status.(updating := true), parses);
    }
  }

  /** The in-memory object before the deferred write, in the normal case. */
  ghost predicate PoolWritable(db: Db, p: string, mem: Pool, parses: CidrParser)
  {
    && p in db.pools && PoolOk(db.log, p, mem, parses)
    && mem.meta.uid == db.pools[p].meta.uid && mem.meta.deletedAt == db.pools[p].meta.deletedAt
    && KeepsPool(db.pools[p], mem)
  }

  lemma PoolMemIsWritable(db: Db, p: string, mem: Pool, view: Option<NodePool>, parses: CidrParser)
    requires PoolMemOk(db, p, mem, parses)
    ensures PoolWritable(db, p, mem, parses) && PoolWritable(db, p, PoolStatusSet(mem, view), parses)
  {
  }

  lemma PoolChildrenStage(db: Db, p: string, mem: Pool, cp: ControlPlane, k: ManagedKubernetes, plan: PoolPlan,
                          parses: CidrParser)
    requires Inv(db, parses) && PoolMemOk(db, p, mem, parses) && cp.status.clusterId != ""
    ensures var (after, m) := PoolChildrenReconciled(db, p, mem, cp, k, plan);
            Inv(after, parses) && PoolWritable(after, p, m, parses)
  {
    PoolVswitchStage(db, p, mem, k.status.vpcId, plan.vswitches, parses);
    var v := VswitchPass(db, PoolSelf(mem), k.status.vpcId, mem.spec.vswitches, plan.vswitches);
    var m := mem.(spec := mem.spec.(vswitches := v.entries));
    PoolMemIsWritable(v.db, p, m, None, parses);
    if v.err.None? {
      PassContract(db, PoolSelf(mem), k.status.vpcId, mem.spec.vswitches, plan.vswitches);
      NodePoolStage(v.db, p, m, cp, v.ids, plan, parses);
      var (n, view) := NodePoolReconciled(v.db, p, m, cp, v.ids, plan);
      PoolMemIsWritable(n.db, p, n.mem, view, parses);
    }
  }

  lemma PoolUnfinalizedIsWritable(db: Db, p: string, fault: Fault, parses: CidrParser)
    requires p in db.pools && PoolOk(db.log, p, db.pools[p], parses)
    ensures PoolWritable(db, p, db.pools[p], parses)
    ensures var a := PoolFinalizerAdded(db, p, db.pools[p], parses, fault);
            !a.ok ==> PoolWritable(a.db, p, a.mem, parses)
  {
    PoolFinalizerAddedFacts(db, p, db.pools[p], parses, fault);
  }

  lemma PoolFinalizedStage(db: Db, p: string, mem: Pool, c: string, cp: ControlPlane, plan: PoolPlan,
                           parses: CidrParser)
    requires Inv(db, parses) && PoolMemOk(db, p, mem, parses) && cp.status.clusterId != ""
    ensures PoolWritable(db, p, mem, parses)
    ensures c in db.kubernetes ==>
              var (after, m) := PoolChildrenReconciled(db, p, mem, cp, db.kubernetes[c], plan);
              Inv(after, parses) && PoolWritable(after, p, m, parses)
  {
    PoolMemIsWritable(db, p, mem, None, parses);
    if c in db.kubernetes {
      PoolChildrenStage(db, p, mem, cp, db.kubernetes[c], plan, parses);
    }
  }

  lemma PoolSyncedStage(db: Db, p: string, plan: PoolPlan, parses: CidrParser)
    requires Inv(db, parses) && p in db.pools && !db.pools[p].meta.Deleting()
    ensures var (after, m) := PoolSynced(db, p, db.pools[p], parses, plan);
            Inv(after, parses) && PoolWritable(after, p, m, parses)
  {
    var c := db.pools[p].spec.cluster;
    assert PoolOk(db.log, p, db.pools[p], parses);
    PoolUnfinalizedIsWritable(db, p, plan.finalizerFault, parses);
    if c in db.controlPlanes && db.controlPlanes[c].status.ready {
      assert ControlPlaneOk(db.log, db.kubeconfigs, c, db.controlPlanes[c]);
      PoolFinalizerStage(db, p, plan.finalizerFault, parses);
      var a := PoolFinalizerAdded(db, p, db.pools[p], parses, plan.finalizerFault);
      if a.ok {
        PoolFinalizedStage(a.db, p, a.mem, c, db.controlPlanes[c], plan, parses);
      }
    }
  }

  ghost predicate PoolReleasable(db: Db, p: string, mem: Pool)
  {
    && p in db.pools && NoNodePool(db, p)
    && mem == db.pools[p].(meta := WithoutFinalizer(db.pools[p].meta, MACHINE_POOL_FINALIZER))
  }

  lemma PoolTeardownStage(db: Db, p: string, faults: nat -> Fault, parses: CidrParser)
    requires Inv(db, parses) && p in db.pools
    ensures var r := RemovePass(db, db.pools[p].spec.vswitches, faults);
            Inv(r.db, parses) && r.db == db.(vswitches := r.db.vswitches)
  {
    RemoveContract(db, db.pools[p].spec.vswitches, faults);
    OnlyDeletesKeeps(db, RemovePass(db, db.pools[p].spec.vswitches, faults).db, db.pools[p].spec.vswitches, parses);
  }

  lemma PoolDeletedStage(db: Db, p: string, plan: PoolPlan, parses: CidrParser)
    requires Inv(db, parses) && p in db.pools
    ensures var (after, m) := PoolDeleted(db, p, db.pools[p], plan);
            && Inv(after, parses)
            && (m == db.pools[p] || PoolReleasable(after, p, m))
            && after.pools == db.pools && after.log == db.log
  {
    if p in db.nodePools {
      NodePoolDeletionKeeps(db, p, parses);
      assert DeleteNodePool(db, p).pools == db.pools;
    } else {
      PoolTeardownStage(db, p, plan.vswitches, parses);
    }
  }

  lemma PoolWriteStage(db: Db, p: string, mem: Pool, plan: PoolPlan, parses: CidrParser)
    requires Inv(db, parses) && (PoolWritable(db, p, mem, parses) || PoolReleasable(db, p, mem))
    ensures Inv(WrittenPool(db, p, mem, parses, plan), parses)
  {
    var stored := db.pools[p];
    var admitted := PoolAdmitsUpdate(mem.spec, stored.spec, parses);
    var after := WrittenBack(stored, mem, admitted, plan.statusFault, plan.specFault);
    assert PoolOk(db.log, p, stored, parses);
    TwoPhaseRefinesAtomic(stored, mem, admitted, plan.statusFault, plan.specFault);
    assert PoolWritable(db, p, mem, parses) ==> PoolOk(db.log, p, after, parses) && KeepsPool(stored, after);
    PoolReplaced(db, p, after, parses);
  }

  lemma PoolPassKeeps(db: Db, p: string, plan: PoolPlan, parses: CidrParser)
    requires Inv(db, parses) && p in db.pools && !db.pools[p].meta.Gone()
    ensures Inv(PoolPass(db, p, parses, plan), parses)
  {
    var pool := db.pools[p];
    PoolPassKeepsObject(db, p, parses, plan);
    var (after, mem) := PoolPassBody(db, p, parses, plan);
    if plan.readable {
      if pool.meta.Deleting() {
        PoolDeletedStage(db, p, plan, parses);
        assert PoolOk(db.log, p, pool, parses);
      } else {
        PoolSyncedStage(db, p, plan, parses);
      }
      PoolWriteStage(after, p, mem, plan, parses);
    }
  }
}
