/** internal/controller/infrastructure/aliyunmanagedmachinepool_controller.go and its _utils.go:
    one pass over a machine pool, up to and including its deferred write. */
module MachinePoolController {
  import opened Wrappers
  import opened CommonApi
  import opened ApiServer
  import opened KubeClient
  import opened ControlPlaneWebhook
  import opened MachinePoolWebhook
  import opened VswitchReconcile
  import opened VswitchFacts
  import opened WriteBack

  /** What the environment decides during one pass. */
  datatype PoolPlan = PoolPlan(
    readable: bool, controlPlaneReadable: bool, sdkReady: bool, finalizerFault: Fault, kubernetes: Fault,
    vswitches: nat -> Fault, nodePool: Fault, secret: Fault, statusFault: Fault, specFault: Fault)

  /** The store and the in-memory pool; ok tells whether the pass goes on. */
  datatype PoolStep = PoolStep(db: Db, mem: Pool, ok: bool)

  function PoolSelf(pool: Pool): OwnerRef
  {
    OwnerRef(MachinePoolKind, pool.meta.uid)
  }

  function PasswordSecretName(pool: string): string
  {
    pool + "-password"
  }

  ghost function PoolFinalizerAdded(db: Db, p: string, mem: Pool, parses: CidrParser, fault: Fault): PoolStep
    requires p in db.pools
  {
    if MACHINE_POOL_FINALIZER in mem.meta.finalizers then PoolStep(db, mem, true)
    else
      var want := mem.(meta := WithFinalizer(mem.meta, MACHINE_POOL_FINALIZER));
      var stored := db.pools[p];
      match UpdateObject(stored, want, PoolAdmitsUpdate(want.spec, stored.spec, parses), fault)
      case None => PoolStep(db, want, false)
      case Some(response) => PoolStep(PutPool(db, p, response), response, true)
  }

  datatype Credentialed = Credentialed(db: Db, spec: NodePoolSpec, ok: bool)

  /** ensurePasswordAndKeyName: the key, or else a reference to the stored password. */
  function CredentialsEnsured(db: Db, p: string, pool: PoolSpec, spec: NodePoolSpec, fault: Fault): (c: Credentialed)
    ensures c.db == db.(passwords := c.db.passwords)
    ensures c.spec == spec.(keyName := c.spec.keyName, passwordSecret := c.spec.passwordSecret)
  {
    if pool.keyName != "" then Credentialed(db, spec.(keyName := Some(pool.keyName), passwordSecret := None), true)
    else if pool.password != "" then
      if !fault.Works? then Credentialed(db, spec, false)
      else
        Credentialed(db.(passwords := db.passwords[PasswordSecretName(p) := pool.password]),
                     spec.(keyName := None, passwordSecret := Some(PasswordSecretName(p))), true)
    else Credentialed(db, spec, true)
  }

  /** Creates or updates the KubernetesNodePool object; the view is what the caller sees. */
  function NodePoolReconciled(db: Db, p: string, mem: Pool, cp: ControlPlane, ids: seq<string>, plan: PoolPlan)
    : (PoolStep, Option<NodePool>)
  {
    if plan.nodePool.ReadFails? then (PoolStep(db, mem, false), None)
    else
      var m := mem.(spec := mem.spec.(region := cp.spec.region, clusterId := cp.status.clusterId));
      if p !in db.nodePools then
        var wanted := NodePoolSpec(m.spec.clusterId, ids, None, None, m.spec.securityGroupIds);
        var c := CredentialsEnsured(db, p, m.spec, wanted, plan.secret);
        if !c.ok || plan.nodePool.WriteFails? then (PoolStep(c.db, m, false), None)
        else (PoolStep(CreateNodePool(c.db, p, [PoolSelf(m)], c.spec), m.(status := m.status.(creating := true)), true), None)
      else
        var np := db.nodePools[p];
        var changed := np.spec.(vswitchIds := ids, keyName := Some(m.spec.keyName));
        var c := CredentialsEnsured(db, p, m.spec, changed, plan.secret);
        if !c.ok || plan.nodePool.WriteFails? then (PoolStep(c.db, m, false), None)
        else
          (PoolStep(PutNodePool(c.db, p, np.(spec := c.spec)),
                    if m.status.creating then m else m.(status := m.status.(updating := true)), true),
           Some(np.(spec := c.spec)))
  }

  function PoolStatusSet(mem: Pool, view: Option<NodePool>): Pool
  {
    if view.None? || !view.value.status.ready then mem.(status := mem.status.(ready := false))
    else
      mem.(status := mem.status.(ready := true),
           spec := if mem.spec.securityGroupIds == [] then mem.spec.(securityGroupIds := view.value.status.securityGroupIds)
                   else mem.spec)
  }

  function PoolChildrenReconciled(db: Db, p: string, mem: Pool, cp: ControlPlane, k: ManagedKubernetes,
                                  plan: PoolPlan): (Db, Pool)
  {
    var v := VswitchPass(db, PoolSelf(mem), k.status.vpcId, mem.spec.vswitches, plan.vswitches);
    var m := mem.(spec := mem.spec.(vswitches := v.entries));
    if v.err.Some? then (v.db, m)
    else
      var (n, view) := NodePoolReconciled(v.db, p, m, cp, v.ids, plan);
      if !n.ok then (n.db, n.mem) else (n.db, PoolStatusSet(n.mem, view))
  }

  /** The pass over a pool that is not being deleted, before the deferred write. It waits for
      a ready control plane. */
  ghost function PoolSynced(db: Db, p: string, mem: Pool, parses: CidrParser, plan: PoolPlan): (Db, Pool)
    requires p in db.pools
  {
    var c := mem.spec.cluster;
    if !plan.controlPlaneReadable || c !in db.controlPlanes || !db.controlPlanes[c].status.ready || !plan.sdkReady then (db, mem)
    else
      var a := PoolFinalizerAdded(db, p, mem, parses, plan.finalizerFault);
      if !a.ok || plan.kubernetes.ReadFails? || c !in a.db.kubernetes then (a.db, a.mem)
      else PoolChildrenReconciled(a.db, p, a.mem, db.controlPlanes[c], a.db.kubernetes[c], plan)
  }

  /** The pass over a pool with a deletion timestamp, before the deferred write. */
  function PoolDeleted(db: Db, p: string, mem: Pool, plan: PoolPlan): (Db, Pool)
  {
    if plan.nodePool.ReadFails? then (db, mem)
    else if p in db.nodePools then
      if db.nodePools[p].meta.Deleting() || plan.nodePool.WriteFails? then (db, mem)
      else (DeleteNodePool(db, p), mem)
    else
      var r := RemovePass(db, mem.spec.vswitches, plan.vswitches);
      if !OnlyTimeouts(r.errors) then (r.db, mem)
      else (r.db, mem.(meta := WithoutFinalizer(mem.meta, MACHINE_POOL_FINALIZER)))
  }

  ghost function WrittenPool(db: Db, p: string, mem: Pool, parses: CidrParser, plan: PoolPlan): Db
    requires p in db.pools
  {
    var stored := db.pools[p];
    PutPool(db, p, WrittenBack(stored, mem, PoolAdmitsUpdate(mem.spec, stored.spec, parses), plan.statusFault, plan.specFault))
  }

  ghost function PoolPassBody(db: Db, p: string, parses: CidrParser, plan: PoolPlan): (Db, Pool)
    requires p in db.pools
  {
    var pool := db.pools[p];
    if pool.meta.Deleting() then PoolDeleted(db, p, pool, plan) else PoolSynced(db, p, pool, parses, plan)
  }

  /** One call of Reconcile for the pool p. */
  ghost function PoolPass(db: Db, p: string, parses: CidrParser, plan: PoolPlan): Db
    requires p in db.pools ==> !db.pools[p].meta.Gone()
  {
    if p !in db.pools || !plan.readable then db
    else
      PoolPassKeepsObject(db, p, parses, plan);
      var (after, mem) := PoolPassBody(db, p, parses, plan);
      WrittenPool(after, p, mem, parses, plan)
  }

  /** What the finalizer step leaves in the store and in memory. */
  ghost predicate PoolFinalized(db: Db, p: string, mem: Pool, a: PoolStep)
    requires p in db.pools
  {
    && p in a.db.pools
    && a.db == db.(pools := a.db.pools)
    && a.db.pools == db.pools[p := a.db.pools[p]]
    && (a.ok ==> a.mem == a.db.pools[p] && MACHINE_POOL_FINALIZER in a.mem.meta.finalizers)
    && a.mem == mem.(version := a.mem.version, meta := WithFinalizer(mem.meta, MACHINE_POOL_FINALIZER))
    && a.db.pools[p] == (if a.ok then a.mem else mem)
    && a.mem.version == a.db.pools[p].version
  }

  lemma PoolAlreadyFinalized(db: Db, p: string, mem: Pool)
    requires p in db.pools && mem == db.pools[p] && MACHINE_POOL_FINALIZER in mem.meta.finalizers
    ensures PoolFinalized(db, p, mem, PoolStep(db, mem, true))
  {
    assert db.pools == db.pools[p := mem];
    assert WithFinalizer(mem.meta, MACHINE_POOL_FINALIZER).finalizers == mem.meta.finalizers;
  }

  lemma PoolNotFinalized(db: Db, p: string, mem: Pool)
    requires p in db.pools && mem == db.pools[p]
    ensures PoolFinalized(db, p, mem, PoolStep(db, mem.(meta := WithFinalizer(mem.meta, MACHINE_POOL_FINALIZER)), false))
  {
    assert db.pools == db.pools[p := mem];
  }

  lemma PoolNewlyFinalized(db: Db, p: string, mem: Pool)
    requires p in db.pools && mem == db.pools[p] && !mem.meta.Gone()
    ensures var want := mem.(version := mem.version + 1, meta := WithFinalizer(mem.meta, MACHINE_POOL_FINALIZER));
            PoolFinalized(db, p, mem, PoolStep(PutPool(db, p, want), want, true))
  {
  }

  lemma PoolFinalizerAddedFacts(db: Db, p: string, mem: Pool, parses: CidrParser, fault: Fault)
    requires p in db.pools && mem == db.pools[p] && !mem.meta.Gone()
    ensures PoolFinalized(db, p, mem, PoolFinalizerAdded(db, p, mem, parses, fault))
  {
    if MACHINE_POOL_FINALIZER in mem.meta.finalizers {
      PoolAlreadyFinalized(db, p, mem);
    } else {
      PoolNotFinalized(db, p, mem);
      PoolNewlyFinalized(db, p, mem);
    }
  }

  lemma NodePoolLeavesOwners(db: Db, p: string, mem: Pool, cp: ControlPlane, ids: seq<string>, plan: PoolPlan)
    ensures var n := NodePoolReconciled(db, p, mem, cp, ids, plan).0;
            n.db.pools == db.pools && n.db.controlPlanes == db.controlPlanes && n.mem.version == mem.version
  {
    var spec := mem.spec.(region := cp.spec.region, clusterId := cp.status.clusterId);
    if p in db.nodePools {
      var np := db.nodePools[p];
      var c := CredentialsEnsured(db, p, spec, np.spec.(vswitchIds := ids, keyName := Some(spec.keyName)), plan.secret);
      var later := PutNodePool(c.db, p, np.(spec := c.spec));
      assert later.pools == db.pools && later.controlPlanes == db.controlPlanes;
    } else {
      var c := CredentialsEnsured(db, p, spec, NodePoolSpec(spec.clusterId, ids, None, None, spec.securityGroupIds), plan.secret);
      var later := CreateNodePool(c.db, p, [PoolSelf(mem)], c.spec);
      assert later.pools == db.pools && later.controlPlanes == db.controlPlanes;
    }
  }

  lemma PoolChildrenLeaveOwners(db: Db, p: string, mem: Pool, cp: ControlPlane, k: ManagedKubernetes, plan: PoolPlan)
    ensures var (after, m) := PoolChildrenReconciled(db, p, mem, cp, k, plan);
            after.pools == db.pools && after.controlPlanes == db.controlPlanes && m.version == mem.version
  {
    PassContract(db, PoolSelf(mem), k.status.vpcId, mem.spec.vswitches, plan.vswitches);
    var v := VswitchPass(db, PoolSelf(mem), k.status.vpcId, mem.spec.vswitches, plan.vswitches);
    if v.err.None? {
      NodePoolLeavesOwners(v.db, p, mem.(spec := mem.spec.(vswitches := v.entries)), cp, v.ids, plan);
    }
  }

  lemma PoolDeletedLeavesOwners(db: Db, p: string, mem: Pool, plan: PoolPlan)
    ensures var (after, m) := PoolDeleted(db, p, mem, plan); after.pools == db.pools && m.version == mem.version
  {
    RemoveContract(db, mem.spec.vswitches, plan.vswitches);
  }

  /** Before the deferred write a pass changes at most the stored finalizers of its object. */
  lemma PoolPassKeepsObject(db: Db, p: string, parses: CidrParser, plan: PoolPlan)
    requires p in db.pools && !db.pools[p].meta.Gone()
    ensures var (after, mem) := PoolPassBody(db, p, parses, plan);
            && after.pools.Keys == db.pools.Keys
            && after.pools[p].spec == db.pools[p].spec
            && !after.pools[p].meta.Gone()
            && mem.version == after.pools[p].version
  {
    var pool := db.pools[p];
    if pool.meta.Deleting() {
      PoolDeletedLeavesOwners(db, p, pool, plan);
    } else {
      PoolFinalizerAddedFacts(db, p, pool, parses, plan.finalizerFault);
      var a := PoolFinalizerAdded(db, p, pool, parses, plan.finalizerFault);
      var c := pool.spec.cluster;
      assert a.db.pools.Keys == db.pools.Keys;
      if c in db.controlPlanes && c in a.db.kubernetes {
        PoolChildrenLeaveOwners(a.db, p, a.mem, db.controlPlanes[c], a.db.kubernetes[c], plan);
      }
    }
  }

  lemma PutPoolTwice(db: Db, p: string, first: Pool, second: Pool)
    requires p in db.pools && !first.meta.Gone()
    ensures PutPool(PutPool(db, p, first), p, second) == PutPool(db, p, second)
    ensures !db.pools[p].meta.Gone() ==> PutPool(db, p, db.pools[p]) == db
  {
    assert db.pools[p := first][p := second] == db.pools[p := second];
    assert db.pools[p := first] - {p} == db.pools - {p};
    assert db.pools[p := db.pools[p]] == db.pools;
  }

  /******* The in-memory object and the methods *******/

  /** The machine pool object a pass works on. */
  class PoolObject {
    var meta: Meta
    var version: nat
    var cluster: string
    var region: string
    var clusterId: string
    var vswitches: array<VSwitch>
    var keyName: string
    var password: string
    var securityGroupIds: seq<string>
    var status: PoolStatus

    ghost function Value(): Pool
      reads this, vswitches
    {
      Stored(meta, version, PoolSpec(cluster, region, clusterId, vswitches[..], keyName, password, securityGroupIds), status)
    }

    constructor (pool: Pool)
      ensures Value() == pool && fresh(vswitches)
    {
      meta, version, status := pool.meta, pool.version, pool.status;
      cluster, region, clusterId := pool.spec.cluster, pool.spec.region, pool.spec.clusterId;
      keyName, password, securityGroupIds := pool.spec.keyName, pool.spec.password, pool.spec.securityGroupIds;
      var s := pool.spec.vswitches;
      vswitches := new VSwitch[|s|](i requires 0 <= i < |s| => s[i]);
      new;
      assert vswitches[..] == s;
    }

    method Overwrite(pool: Pool)
      modifies this
      ensures Value() == pool && fresh(vswitches)
    {
      meta, version, status := pool.meta, pool.version, pool.status;
      cluster, region, clusterId := pool.spec.cluster, pool.spec.region, pool.spec.clusterId;
      keyName, password, securityGroupIds := pool.spec.keyName, pool.spec.password, pool.spec.securityGroupIds;
      var s := pool.spec.vswitches;
      vswitches := new VSwitch[|s|](i requires 0 <= i < |s| => s[i]);
      assert vswitches[..] == s;
    }

    method DeepCopy() returns (pool: Pool)
      ensures pool == Value()
    {
      pool := Stored(meta, version,
                     PoolSpec(cluster, region, clusterId, vswitches[..], keyName, password, securityGroupIds), status);
    }
  }

  /** The KubernetesNodePool object under construction. */
  class NodePoolObject {
    var spec: NodePoolSpec

    constructor (spec: NodePoolSpec)
      ensures this.spec == spec
    {
      this.spec := spec;
    }
  }

  class MachinePoolReconciler {
    const client: Client

    constructor (client: Client)
      ensures this.client == client
    {
      this.client := client;
    }

    method Reconcile(p: string, plan: PoolPlan)
      requires p in client.db.pools ==> !client.db.pools[p].meta.Gone()
      modifies client
      ensures client.db == PoolPass(old(client.db), p, client.parses, plan)
    {
      if p !in client.db.pools || !plan.readable {
        return;
      }
      var pool := new PoolObject(client.db.pools[p]);
      PoolPassKeepsObject(client.db, p, client.parses, plan);
      if pool.meta.deletedAt.Some? {
        ReconcileDelete(p, pool, plan);
      } else {
        ReconcileNormal(p, pool, plan);
      }
      DeferredWrite(p, pool, plan);
    }

    method DeferredWrite(p: string, pool: PoolObject, plan: PoolPlan)
      requires p in client.db.pools && !client.db.pools[p].meta.Gone()
      modifies client, pool
      ensures client.db == WrittenPool(old(client.db), p, old(pool.Value()), client.parses, plan)
    {
      ghost var db := client.db;
      var mem := pool.DeepCopy();
      var response := client.UpdatePoolStatus(p, mem, plan.statusFault);
      if response.None? {
        PutPoolTwice(db, p, db.pools[p], db.pools[p]);
        return;
      }
      ghost var first := response.value;
      pool.Overwrite(response.value);
      var current := pool.DeepCopy();
      var next := client.UpdatePool(
        p, current.(spec := mem.spec, meta := current.meta.(finalizers := mem.meta.finalizers)), plan.specFault);
      if next.Some? {
        PutPoolTwice(db, p, first, next.value);
        pool.Overwrite(next.value);
      }
    }

    method ReconcileNormal(p: string, pool: PoolObject, plan: PoolPlan)
      requires p in client.db.pools && !client.db.pools[p].meta.Gone()
      requires pool.Value() == client.db.pools[p]
      modifies client, pool, pool.vswitches
      ensures (client.db, pool.Value()) == PoolSynced(old(client.db), p, old(pool.Value()), client.parses, plan)
    {
      ghost var db, mem := client.db, pool.Value();
      var c := pool.cluster;
      if !plan.controlPlaneReadable || c !in client.db.controlPlanes {
        return;
      }
      var controlPlane := client.db.controlPlanes[c];
      if !controlPlane.status.ready || !plan.sdkReady {
        return;
      }
      if MACHINE_POOL_FINALIZER !in pool.meta.finalizers {
        pool.meta := WithFinalizer(pool.meta, MACHINE_POOL_FINALIZER);
        var want := pool.DeepCopy();
        var response := client.UpdatePool(p, want, plan.finalizerFault);
        if response.None? {
          return;
        }
        pool.Overwrite(response.value);
      }
      assert PoolStep(client.db, pool.Value(), true) == PoolFinalizerAdded(db, p, mem, client.parses, plan.finalizerFault);
      var found := client.GetKubernetes(c, plan.kubernetes);
      if !found.Found? {
        return;
      }
      ReconcileChildren(p, pool, controlPlane, found.value, plan);
    }

    method ReconcileChildren(p: string, pool: PoolObject, controlPlane: ControlPlane, kubernetes: ManagedKubernetes,
                             plan: PoolPlan)
      modifies client, pool, pool.vswitches
      ensures (client.db, pool.Value()) ==
              PoolChildrenReconciled(old(client.db), p, old(pool.Value()), controlPlane, kubernetes, plan)
    {
      var vswitchIDs, err := ReconcileVSwitch(
        client, OwnerRef(MachinePoolKind, pool.meta.uid), kubernetes.status.vpcId, pool.vswitches, plan.vswitches);
      if err.Some? {
        return;
      }
      var ok, view := ReconcileKubernetesNodePool(p, pool, controlPlane, vswitchIDs, plan);
      if !ok {
        return;
      }
      SetStatus(pool, view);
    }

    method ReconcileKubernetesNodePool(p: string, pool: PoolObject, controlPlane: ControlPlane,
                                       vswitchIDs: seq<string>, plan: PoolPlan)
      returns (ok: bool, view: Option<NodePool>)
      modifies client, pool
      ensures pool.vswitches == old(pool.vswitches)
      ensures (PoolStep(client.db, pool.Value(), ok), view) ==
              NodePoolReconciled(old(client.db), p, old(pool.Value()), controlPlane, vswitchIDs, plan)
    {
      var found := client.GetNodePool(p, plan.nodePool);
      if found.Failed? {
        return false, None;
      }
      pool.region := controlPlane.spec.region;
      pool.clusterId := controlPlane.status.clusterId;
      if found.NotFound? {
        var nodePool := new NodePoolObject(NodePoolSpec(pool.clusterId, vswitchIDs, None, None, pool.securityGroupIds));
        ok := EnsurePasswordAndKeyName(p, pool, nodePool, plan.secret);
        if !ok {
          return false, None;
        }
        ok := client.CreateNodePoolObject(p, OwnerRef(MachinePoolKind, pool.meta.uid), nodePool.spec, plan.nodePool);
        view := None;
        if !ok {
          return;
        }
        pool.status := pool.status.(creating := true);
      } else {
        var nodePool := new NodePoolObject(found.value.spec.(vswitchIds := vswitchIDs, keyName := Some(pool.keyName)));
        ok := EnsurePasswordAndKeyName(p, pool, nodePool, plan.secret);
        if !ok {
          return false, None;
        }
        var updated := found.value.(spec := nodePool.spec);
        ok := client.UpdateNodePool(p, updated, plan.nodePool);
        if !ok {
          return false, None;
        }
        view := Some(updated);
        if !pool.status.creating {
          pool.status := pool.status.(updating := true);
        }
      }
    }

    method EnsurePasswordAndKeyName(p: string, pool: PoolObject, nodePool: NodePoolObject,
                                    fault: Fault) returns (ok: bool)
      modifies client, nodePool
      ensures Credentialed(client.db, nodePool.spec, ok) ==
              CredentialsEnsured(old(client.db), p, pool.Value().spec, old(nodePool.spec), fault)
    {
      ok := true;
      if pool.keyName != "" {
        nodePool.spec := nodePool.spec.(keyName := Some(pool.keyName), passwordSecret := None);
      } else if pool.password != "" {
        if fault.ReadFails? {
          return false;
        }
        ok := client.StorePassword(PasswordSecretName(p), pool.password, fault);
        if !ok {
          return;
        }
        nodePool.spec := nodePool.spec.(keyName := None, passwordSecret := Some(PasswordSecretName(p)));
      }
    }

    method SetStatus(pool: PoolObject, view: Option<NodePool>)
      modifies pool
      ensures pool.vswitches == old(pool.vswitches)
      ensures pool.Value() == PoolStatusSet(old(pool.Value()), view)
    {
      if view.None? || !view.value.status.ready {
        pool.status := pool.status.(ready := false);
        return;
      }
      pool.status := pool.status.(ready := true);
      if |pool.securityGroupIds| == 0 {
        pool.securityGroupIds := view.value.status.securityGroupIds;
      }
    }

    method ReconcileDelete(p: string, pool: PoolObject, plan: PoolPlan)
      modifies client, pool
      ensures pool.vswitches == old(pool.vswitches)
      ensures (client.db, pool.Value()) == PoolDeleted(old(client.db), p, old(pool.Value()), plan)
    {
      var found := client.GetNodePool(p, plan.nodePool);
      if found.Failed? {
        return;
      }
      if found.Found? {
        if found.value.meta.deletedAt.Some? {
          return;
        }
        var _ := client.DeleteNodePoolObject(p, plan.nodePool);
        return;
      }
      var errList := ReconcileRemoveVSwitch(client, pool.vswitches[..], plan.vswitches);
      for i := 0 to |errList|
        invariant forall k :: 0 <= k < i ==> errList[k] == Timeout
      {
        if errList[i] == Timeout {
          continue;
        }
        return;
      }
      pool.meta := WithoutFinalizer(pool.meta, MACHINE_POOL_FINALIZER);
    }
  }
}
