/** internal/controller/cs/vswitch/vswitch_controller.go and .../vpc/vpc_controller.go: the
    collector of unreferenced pool vswitches, and the force-clean of timed-out deletions. */
module Collectors {
  import opened Wrappers
  import opened CommonApi
  import opened ApiServer
  import opened KubeClient

  /** A pool with this uid exists (the index lookup by uid finds it). */
  ghost predicate IsPool(db: Db, p: string, uid: Uid)
  {
    p in db.pools && db.pools[p].meta.uid == uid
  }

  /** The node pool belongs to the pool of this uid (the index lookup by owner finds it). */
  ghost predicate IsNodePoolOf(db: Db, n: string, uid: Uid)
  {
    && n in db.nodePools && db.nodePools[n].meta.owners != []
    && db.nodePools[n].meta.owners[0] == OwnerRef(MachinePoolKind, uid)
  }

  /** The API server never gives one uid to two pools, nor a pool two node pools. */
  ghost predicate UniqueLookups(db: Db)
  {
    && (forall p, q :: p in db.pools && q in db.pools && db.pools[p].meta.uid == db.pools[q].meta.uid ==> p == q)
    && (forall n, m, uid :: IsNodePoolOf(db, n, uid) && IsNodePoolOf(db, m, uid) ==> n == m)
  }

  /** Some vswitch of the pool spec that is not given by id records this uid. */
  ghost predicate ListsUid(entries: seq<VSwitch>, uid: Uid)
  {
    exists k :: 0 <= k < |entries| && entries[k].id == "" && entries[k].uid == uid
  }

  /** The pool still wants the vswitch: its spec lists it, or its node pool is observed using it. */
  ghost predicate Wanted(db: Db, v: Vswitch, owner: Uid)
  {
    exists p :: IsPool(db, p, owner) &&
      (|| ListsUid(db.pools[p].spec.vswitches, v.meta.uid)
       || exists n :: IsNodePoolOf(db, n, owner) && v.cloudId.Some? && v.cloudId.value in db.nodePools[n].status.vswitchIds)
  }

  /** Garbage: owned by a pool first of all, not deleting, and not wanted. */
  ghost predicate Garbage(db: Db, v: Vswitch)
  {
    && !v.meta.Deleting() && v.meta.owners != [] && v.meta.owners[0].kind == MachinePoolKind
    && !Wanted(db, v, v.meta.owners[0].uid)
  }

  /** The calls that may fail during one collection. */
  datatype CollectPlan = CollectPlan(vswitch: Fault, poolListFails: bool, nodePoolListFails: bool)

  function ForceCleaned(db: Db, n: string): Db
    requires n in db.vswitches
  {
    var v := db.vswitches[n];
    PutVswitch(db, n, v.(meta := WithoutFinalizer(v.meta, MANAGED_FINALIZER)))
  }

  /** The lists are read in turn, and a failed read ends the pass before any deletion that
      would have depended on it. */
  ghost predicate Collects(db: Db, v: Vswitch, plan: CollectPlan)
  {
    && Garbage(db, v) && plan.vswitch.Works? && !plan.poolListFails
    && ((exists p :: IsPool(db, p, v.meta.owners[0].uid)) ==> !plan.nodePoolListFails)
  }

  /** One call of the vswitch collector. */
  ghost function CollectPass(db: Db, n: string, plan: CollectPlan): Db
  {
    if plan.vswitch.ReadFails? || n !in db.vswitches then db
    else
      var v := db.vswitches[n];
      if v.meta.Deleting() then
        if TimedOut(db, v.meta) && plan.vswitch.Works? then ForceCleaned(db, n) else db
      else if Collects(db, v, plan) then DeleteVswitch(db, n)
      else db
  }

  class VswitchReconciler {
    const client: Client

    constructor (client: Client)
      ensures this.client == client
    {
      this.client := client;
    }

    /** r.List with the pool index. */
    method ListPools(uid: Uid) returns (items: seq<Pool>)
      ensures items != [] ==> exists p :: IsPool(client.db, p, uid) && items[0] == client.db.pools[p]
      ensures items == [] ==> !exists p :: IsPool(client.db, p, uid)
    {
      if p :| p in client.db.pools && client.db.pools[p].meta.uid == uid {
        assert IsPool(client.db, p, uid);
        items := [client.db.pools[p]];
      } else {
        items := [];
      }
    }

    /** r.List with the node pool index. */
    method ListNodePools(uid: Uid) returns (items: seq<NodePool>)
      ensures items != [] ==> exists n :: IsNodePoolOf(client.db, n, uid) && items[0] == client.db.nodePools[n]
      ensures items == [] ==> !exists n :: IsNodePoolOf(client.db, n, uid)
    {
      if n :| && n in client.db.nodePools && client.db.nodePools[n].meta.owners != []
              && client.db.nodePools[n].meta.owners[0] == OwnerRef(MachinePoolKind, uid) {
        assert IsNodePoolOf(client.db, n, uid);
        items := [client.db.nodePools[n]];
      } else {
        items := [];
      }
    }

    method Reconcile(name: string, plan: CollectPlan)
      requires UniqueLookups(client.db)
      modifies client
      ensures client.db == CollectPass(old(client.db), name, plan)
    {
      var found := client.GetVswitch(name, plan.vswitch);
      if !found.Found? {
        return;
      }
      var vswitch := found.value;
      if vswitch.meta.deletedAt.Some? {
        if vswitch.meta.deletedAt.value < client.db.clock - client.db.timeout {
          if plan.vswitch.Works? {
            client.db := PutVswitch(client.db, name, vswitch.(meta := WithoutFinalizer(vswitch.meta, MANAGED_FINALIZER)));
          }
        }
        return;
      }
      if |vswitch.meta.owners| == 0 {
        return;
      }
      var ownerRef := vswitch.meta.owners[0];
      if ownerRef.kind != MachinePoolKind {
        return;
      }
      if plan.poolListFails {
        return;
      }
      var pools := ListPools(ownerRef.uid);
      if |pools| == 0 {
        var _ := client.DeleteVswitchObject(name, plan.vswitch);
        return;
      }
      var aliyunPool := pools[0];
      ghost var p :| IsPool(client.db, p, ownerRef.uid) && aliyunPool == client.db.pools[p];
      for k := 0 to |aliyunPool.spec.vswitches|
        invariant forall i :: 0 <= i < k ==>
                    aliyunPool.spec.vswitches[i].id != "" || aliyunPool.spec.vswitches[i].uid != vswitch.meta.uid
      {
        var vsw := aliyunPool.spec.vswitches[k];
        if vsw.id != "" {
          continue;
        }
        if vsw.uid == vswitch.meta.uid {
          assert ListsUid(client.db.pools[p].spec.vswitches, vswitch.meta.uid);
          return;
        }
      }
      assert !ListsUid(aliyunPool.spec.vswitches, vswitch.meta.uid);
      if plan.nodePoolListFails {
        return;
      }
      var nodepools := ListNodePools(aliyunPool.meta.uid);
      if |nodepools| == 0 {
        var _ := client.DeleteVswitchObject(name, plan.vswitch);
        return;
      }
      var nodepool := nodepools[0];
      ghost var m :| IsNodePoolOf(client.db, m, ownerRef.uid) && nodepool == client.db.nodePools[m];
      if |nodepool.status.vswitchIds| == 0 {
        var _ := client.DeleteVswitchObject(name, plan.vswitch);
        return;
      }
      for k := 0 to |nodepool.status.vswitchIds|
        invariant forall i :: 0 <= i < k ==> vswitch.cloudId != Some(nodepool.status.vswitchIds[i])
      {
        if vswitch.cloudId.None? {
          continue;
        }
        if vswitch.cloudId.value == nodepool.status.vswitchIds[k] {
          assert Wanted(client.db, vswitch, ownerRef.uid);
          return;
        }
      }
      var _ := client.DeleteVswitchObject(name, plan.vswitch);
    }
  }

  /** Exactness: an error-free pass over a vswitch that is not being deleted asks for its
      deletion when it is garbage, and otherwise changes nothing at all. */
  lemma CollectsExactlyGarbage(db: Db, n: string, plan: CollectPlan)
    requires n in db.vswitches && !db.vswitches[n].meta.Deleting()
    requires plan == CollectPlan(Works, false, false)
    ensures var after := CollectPass(db, n, plan);
            && (Garbage(db, db.vswitches[n]) <==> after != db)
            && (Garbage(db, db.vswitches[n]) <==> (n in after.vswitches ==> after.vswitches[n].meta.Deleting()))
            && (forall m :: m != n && m in db.vswitches ==> m in after.vswitches && after.vswitches[m] == db.vswitches[m])
  {
    var after := CollectPass(db, n, plan);
    if Garbage(db, db.vswitches[n]) {
      assert n in after.vswitches ==> after.vswitches[n] != db.vswitches[n];
    }
  }

  /** No leak: a vswitch whose pool has vanished does not survive its next error-free pass. */
  lemma OrphansAreCollected(db: Db, n: string)
    requires n in db.vswitches && db.vswitches[n].meta.owners != []
    requires db.vswitches[n].meta.owners[0].kind == MachinePoolKind
    requires forall p :: p in db.pools ==> db.pools[p].meta.uid != db.vswitches[n].meta.owners[0].uid
    ensures var after := CollectPass(db, n, CollectPlan(Works, false, false));
            n in after.vswitches ==> after.vswitches[n].meta.Deleting()
  {
    var v := db.vswitches[n];
    if !v.meta.Deleting() {
      assert Garbage(db, v) by {
        assert forall p :: !IsPool(db, p, v.meta.owners[0].uid);
      }
    }
  }

  /** A list call that fails ends the pass before any deletion that would have depended on it. */
  lemma FailedListsDeleteNothing(db: Db, n: string, plan: CollectPlan)
    requires n in db.vswitches && db.vswitches[n].meta.deletedAt == None && db.vswitches[n].meta.owners != []
    requires plan.poolListFails ||
             (plan.nodePoolListFails && exists p :: p in db.pools && db.pools[p].meta.uid == db.vswitches[n].meta.owners[0].uid)
    ensures CollectPass(db, n, plan) == db
  {
    var uid := db.vswitches[n].meta.owners[0].uid;
    if p :| p in db.pools && db.pools[p].meta.uid == uid {
      assert IsPool(db, p, uid);
    }
  }

  /** The finalizers without crossplane's. */
  function WithoutManaged(finalizers: set<string>): set<string>
  {
    finalizers - {"finalizer.managedresource.crossplane.io"}
  }

  /** Patience: as long as no more than the timeout has passed since its deletion was asked for, a
      vswitch is left to the provider; from then on an error-free pass takes crossplane's finalizer
      away, and nothing else of the vswitch or of the store. */
  lemma ForceCleanExactly(db: Db, n: string, plan: CollectPlan, t: nat)
    requires n in db.vswitches && db.vswitches[n].meta.deletedAt == Some(t) && plan.vswitch.Works?
    ensures var v, after := db.vswitches[n], CollectPass(db, n, plan);
            var left := WithoutManaged(v.meta.finalizers);
            after == if db.clock <= t + db.timeout then db
                     else if left == {} then db.(vswitches := db.vswitches - {n})
                     else db.(vswitches := db.vswitches[n := v.(meta := v.meta.(finalizers := left))])
  {
  }

  /** A failed call changes nothing. */
  lemma FailedForceCleanIsIdle(db: Db, n: string, plan: CollectPlan)
    requires n in db.vswitches && db.vswitches[n].meta.deletedAt.Some? && !plan.vswitch.Works?
    ensures CollectPass(db, n, plan) == db
  {
  }

  /******* The VPC controller *******/

  function ForceCleanVpc(db: Db, n: string, fault: Fault): Db
  {
    if n !in db.vpcs || !fault.Works? || !TimedOut(db, db.vpcs[n].meta) then db
    else
      var v := db.vpcs[n];
      PutVpc(db, n, v.(meta := WithoutFinalizer(v.meta, MANAGED_FINALIZER)))
  }

  class VpcReconciler {
    const client: Client

    constructor (client: Client)
      ensures this.client == client
    {
      this.client := client;
    }

    method Reconcile(name: string, fault: Fault)
      modifies client
      ensures client.db == ForceCleanVpc(old(client.db), name, fault)
    {
      var found := client.GetVpc(name, fault);
      if !found.Found? {
        return;
      }
      var vpc := found.value;
      if vpc.meta.deletedAt.None? {
        return;
      }
      if vpc.meta.deletedAt.value < client.db.clock - client.db.timeout {
        if fault.Works? {
          client.db := PutVpc(client.db, name, vpc.(meta := WithoutFinalizer(vpc.meta, MANAGED_FINALIZER)));
        }
      }
    }
  }

  /** The same patience for VPCs; a live VPC is never touched. */
  lemma ForceCleanVpcExactly(db: Db, n: string, fault: Fault)
    requires n in db.vpcs && fault.Works?
    ensures var v, after := db.vpcs[n], ForceCleanVpc(db, n, fault);
            var left := WithoutManaged(v.meta.finalizers);
            after == if v.meta.deletedAt.None? || db.clock <= v.meta.deletedAt.value + db.timeout then db
                     else if left == {} then db.(vpcs := db.vpcs - {n})
                     else db.(vpcs := db.vpcs[n := v.(meta := v.meta.(finalizers := left))])
  {
  }
}
