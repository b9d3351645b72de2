/** Every event keeps the invariant: owners replaced or removed, children created, changed
    and deleted, and then each reconciler pass as a chain of such stages. */
module Preservation {
  import opened Wrappers
  import opened CommonApi
  import opened ApiServer
  import opened ControlPlaneWebhook
  import opened MachinePoolWebhook
  import opened VswitchReconcile
  import opened VswitchFacts
  import opened VpcReconcile
  import opened WriteBack
  import opened ControlPlaneController
  import opened MachinePoolController
  import opened Collectors
  import opened Runs
  import opened Invariant

  ghost predicate ChildOf(meta: Meta, uid: Uid)
  {
    OwnedByControlPlane(meta) && meta.owners[0].uid == uid
  }

  /** Nothing depends on the control plane of c any more. */
  ghost predicate NoChildren(db: Db, c: string)
    requires c in db.controlPlanes
  {
    && c !in db.kubernetes
    && forall n :: n in db.vswitches && ChildOf(db.vswitches[n].meta, db.controlPlanes[c].meta.uid) ==>
                     db.vswitches[n].meta.Deleting()
  }

  lemma NoFinalizerNoChildren(db: Db, c: string, parses: CidrParser)
    requires Inv(db, parses) && c in db.controlPlanes && CONTROL_PLANE_FINALIZER !in db.controlPlanes[c].meta.finalizers
    ensures NoChildren(db, c)
  {
    assert c in db.kubernetes ==> KubernetesOk(db.log, db.controlPlanes, c, db.kubernetes[c]);
    assert ControlPlaneOk(db.log, db.kubeconfigs, c, db.controlPlanes[c]);
    forall n | n in db.vswitches && ChildOf(db.vswitches[n].meta, db.controlPlanes[c].meta.uid)
      ensures db.vswitches[n].meta.Deleting()
    {
      assert VswitchOk(db.log, db.controlPlanes, n, db.vswitches[n]);
    }
  }

  lemma ControlPlaneKept(db: Db, c: string, cp: ControlPlane, parses: CidrParser)
    requires Inv(db, parses) && c in db.controlPlanes
    requires !cp.meta.Gone() && ControlPlaneOk(db.log, db.kubeconfigs, c, cp) && KeepsHold(db.controlPlanes[c], cp)
    ensures Inv(PutControlPlane(db, c, cp), parses)
  {
    var later := PutControlPlane(db, c, cp);
    assert KeepsHolders(db.controlPlanes, later.controlPlanes);
    ChildrenKept(db, later, parses);
  }

  lemma ControlPlaneReleased(db: Db, c: string, cp: ControlPlane, parses: CidrParser)
    requires Inv(db, parses) && c in db.controlPlanes && cp.meta.uid == db.controlPlanes[c].meta.uid
    requires !cp.meta.Gone() ==> ControlPlaneOk(db.log, db.kubeconfigs, c, cp)
    requires NoChildren(db, c)
    ensures Inv(PutControlPlane(db, c, cp), parses)
  {
    var later := PutControlPlane(db, c, cp);
    forall n | n in later.vswitches ensures VswitchOk(later.log, later.controlPlanes, n, later.vswitches[n]) {
      ReleasedVswitch(db, later, c, n, parses);
    }
    forall k | k in later.kubernetes ensures KubernetesOk(later.log, later.controlPlanes, k, later.kubernetes[k]) {
      assert KubernetesOk(db.log, db.controlPlanes, k, db.kubernetes[k]);
    }
  }

  lemma ReleasedVswitch(db: Db, later: Db, c: string, n: string, parses: CidrParser)
    requires Inv(db, parses) && c in db.controlPlanes && NoChildren(db, c)
    requires later == db.(controlPlanes := later.controlPlanes)
    requires forall d :: d != c && d in db.controlPlanes ==> d in later.controlPlanes && later.controlPlanes[d] == db.controlPlanes[d]
    requires n in db.vswitches
    ensures VswitchOk(later.log, later.controlPlanes, n, db.vswitches[n])
  {
    var v := db.vswitches[n];
    assert VswitchOk(db.log, db.controlPlanes, n, v);
    if OwnedByControlPlane(v.meta) && !v.meta.Deleting() {
      assert db.log[v.meta.owners[0].uid].name != c;
    }
  }

  ghost predicate NoNodePool(db: Db, p: string)
  {
    p !in db.nodePools
  }

  lemma PoolReplaced(db: Db, p: string, pool: Pool, parses: CidrParser)
    requires Inv(db, parses) && p in db.pools && pool.meta.uid == db.pools[p].meta.uid
    requires !pool.meta.Gone() ==> PoolOk(db.log, p, pool, parses)
    requires (!pool.meta.Gone() && KeepsPool(db.pools[p], pool)) || NoNodePool(db, p)
    ensures Inv(PutPool(db, p, pool), parses)
  {
    var later := PutPool(db, p, pool);
    forall q | q in later.nodePools ensures NodePoolOk(later.log, later.pools, later.passwords, q, later.nodePools[q]) {
      assert NodePoolOk(db.log, db.pools, db.passwords, q, db.nodePools[q]);
    }
  }

  /******* Events that touch one child *******/

  lemma VswitchChanged(db: Db, n: string, v: Vswitch, parses: CidrParser)
    requires Inv(db, parses) && n in db.vswitches
    requires v.meta.uid == db.vswitches[n].meta.uid && v.meta.owners == db.vswitches[n].meta.owners
    requires v.vpcId == db.vswitches[n].vpcId && (db.vswitches[n].meta.Deleting() ==> v.meta.Deleting())
    ensures Inv(PutVswitch(db, n, v), parses)
  {
    assert VswitchOk(db.log, db.controlPlanes, n, db.vswitches[n]);
    assert VswitchOk(db.log, db.controlPlanes, n, v);
  }

  lemma VpcChanged(db: Db, n: string, v: Vpc, parses: CidrParser)
    requires Inv(db, parses) && n in db.vpcs
    requires v.meta.uid == db.vpcs[n].meta.uid && v.meta.owners == db.vpcs[n].meta.owners
    ensures Inv(PutVpc(db, n, v), parses)
  {
    assert VpcOk(db.log, n, v);
  }

  lemma KubernetesChanged(db: Db, c: string, k: ManagedKubernetes, parses: CidrParser)
    requires Inv(db, parses) && c in db.kubernetes
    requires k.meta.uid == db.kubernetes[c].meta.uid && k.meta.owners == db.kubernetes[c].meta.owners
    requires PlausibleStatus(k.status)
    ensures Inv(PutKubernetes(db, c, k), parses)
  {
    assert KubernetesOk(db.log, db.controlPlanes, c, db.kubernetes[c]);
    assert KubernetesOk(db.log, db.controlPlanes, c, k);
  }

  lemma NodePoolChanged(db: Db, p: string, np: NodePool, parses: CidrParser)
    requires Inv(db, parses) && p in db.nodePools
    requires np.meta.uid == db.nodePools[p].meta.uid && np.meta.owners == db.nodePools[p].meta.owners
    requires CredentialOk(db.passwords, np.spec) && np.spec.clusterId != "" && "" !in np.spec.vswitchIds
    ensures Inv(PutNodePool(db, p, np), parses)
  {
    assert NodePoolOk(db.log, db.pools, db.passwords, p, db.nodePools[p]);
    assert NodePoolOk(db.log, db.pools, db.passwords, p, np);
  }

  lemma ReportedVswitchKeeps(db: Db, n: string, finalizers: set<string>, cloudId: Option<string>, messages: Messages,
                             parses: CidrParser)
    requires Inv(db, parses) && n in db.vswitches
    ensures Inv(ReportedVswitch(db, n, finalizers, cloudId, messages), parses)
  {
    var v := db.vswitches[n];
    VswitchChanged(db, n, v.(meta := v.meta.(finalizers := finalizers), cloudId := cloudId, messages := messages), parses);
  }

  lemma ReportedVpcKeeps(db: Db, n: string, finalizers: set<string>, cloudId: Option<string>, messages: Messages,
                         parses: CidrParser)
    requires Inv(db, parses) && n in db.vpcs
    ensures Inv(ReportedVpc(db, n, finalizers, cloudId, messages), parses)
  {
    var v := db.vpcs[n];
    VpcChanged(db, n, v.(meta := v.meta.(finalizers := finalizers), cloudId := cloudId, messages := messages), parses);
  }

  lemma ReportedKubernetesKeeps(db: Db, c: string, finalizers: set<string>, status: KubernetesStatus,
                                parses: CidrParser)
    requires Inv(db, parses) && c in db.kubernetes && PlausibleStatus(status)
    ensures Inv(ReportedKubernetes(db, c, finalizers, status), parses)
  {
    var k := db.kubernetes[c];
    KubernetesChanged(db, c, k.(meta := k.meta.(finalizers := finalizers), status := status), parses);
  }

  lemma ReportedNodePoolKeeps(db: Db, p: string, finalizers: set<string>, status: NodePoolStatus, parses: CidrParser)
    requires Inv(db, parses) && p in db.nodePools
    ensures Inv(ReportedNodePool(db, p, finalizers, status), parses)
  {
    var np := db.nodePools[p];
    assert NodePoolOk(db.log, db.pools, db.passwords, p, np);
    NodePoolChanged(db, p, np.(meta := np.meta.(finalizers := finalizers), status := status), parses);
  }

  lemma OutsiderCreationKeeps(db: Db, n: string, zoneId: string, cidrBlock: string, vpcId: string, parses: CidrParser)
    requires Inv(db, parses) && n !in db.vswitches
    ensures Inv(CreateVswitch(db, n, [], zoneId, cidrBlock, vpcId), parses)
  {
    BirthGrows(db, VswitchKind, n, []);
    var later := CreateVswitch(db, n, [], zoneId, cidrBlock, vpcId);
    SameOwners(db, later);
    ChildrenKept(db, later, parses);
    assert VswitchOk(later.log, later.controlPlanes, n, later.vswitches[n]);
  }

  lemma SameOwners(db: Db, later: Db)
    requires later.controlPlanes == db.controlPlanes && later.pools == db.pools
    ensures KeepsHolders(db.controlPlanes, later.controlPlanes) && KeepsPools(db.pools, later.pools)
  {
  }

  lemma VswitchDeletionKeeps(db: Db, n: string, parses: CidrParser)
    requires Inv(db, parses) && n in db.vswitches
    ensures Inv(DeleteVswitch(db, n), parses)
  {
    VswitchChanged(db, n, db.vswitches[n].(meta := MarkDeleted(db, db.vswitches[n].meta)), parses);
  }

  lemma VpcDeletionKeeps(db: Db, n: string, parses: CidrParser)
    requires Inv(db, parses) && n in db.vpcs
    ensures Inv(DeleteVpc(db, n), parses)
  {
    VpcChanged(db, n, db.vpcs[n].(meta := MarkDeleted(db, db.vpcs[n].meta)), parses);
  }

  lemma KubernetesDeletionKeeps(db: Db, c: string, parses: CidrParser)
    requires Inv(db, parses) && c in db.kubernetes
    ensures Inv(DeleteKubernetes(db, c), parses)
  {
    assert KubernetesOk(db.log, db.controlPlanes, c, db.kubernetes[c]);
    KubernetesChanged(db, c, db.kubernetes[c].(meta := MarkDeleted(db, db.kubernetes[c].meta)), parses);
  }

  lemma NodePoolDeletionKeeps(db: Db, p: string, parses: CidrParser)
    requires Inv(db, parses) && p in db.nodePools
    ensures Inv(DeleteNodePool(db, p), parses)
  {
    assert NodePoolOk(db.log, db.pools, db.passwords, p, db.nodePools[p]);
    NodePoolChanged(db, p, db.nodePools[p].(meta := MarkDeleted(db, db.nodePools[p].meta)), parses);
  }

  lemma CollectionKeeps(db: Db, n: string, plan: CollectPlan, parses: CidrParser)
    requires Inv(db, parses)
    ensures Inv(CollectPass(db, n, plan), parses)
  {
    if n in db.vswitches {
      var v := db.vswitches[n];
      VswitchChanged(db, n, v.(meta := WithoutFinalizer(v.meta, MANAGED_FINALIZER)), parses);
      VswitchDeletionKeeps(db, n, parses);
    }
  }

  lemma VpcCleaningKeeps(db: Db, n: string, fault: Fault, parses: CidrParser)
    requires Inv(db, parses)
    ensures Inv(ForceCleanVpc(db, n, fault), parses)
  {
    if n in db.vpcs {
      var v := db.vpcs[n];
      VpcChanged(db, n, v.(meta := WithoutFinalizer(v.meta, MANAGED_FINALIZER)), parses);
    }
  }

  /******* Events of the users *******/

  lemma NoRecordsOwned(log: Log, entries: seq<VSwitch>, uid: Uid)
    requires NoRecords(entries)
    ensures OwnsEntries(log, entries, uid) && forall k :: 0 <= k < |entries| ==> !HalfFilled(entries[k])
  {
  }

  lemma CarriedOwned(log: Log, entries: seq<VSwitch>, prev: seq<VSwitch>, uid: Uid)
    requires OwnsEntries(log, prev, uid) && CarriesRecords(entries, prev)
    ensures OwnsEntries(log, entries, uid)
  {
  }

  lemma UserCreatesControlPlaneKeeps(db: Db, c: string, spec: ControlPlaneSpec, parses: CidrParser)
    requires Inv(db, parses) && c !in db.controlPlanes && AdmitsCreate(spec, parses) && NoRecords(spec.vswitches)
    requires spec.vpc.resourceId == "" && spec.vpc.uid == NO_UID
    ensures Inv(CreatedControlPlane(db, c, spec), parses)
  {
    AdmittedMode(spec, parses);
    BirthGrows(db, ControlPlaneKind, c, []);
    var later := CreatedControlPlane(db, c, spec);
    NoRecordsOwned(later.log, spec.vswitches, db.nextUid);
    assert KeepsHolders(db.controlPlanes, later.controlPlanes);
    ChildrenKept(db, later, parses);
    assert ControlPlaneOk(later.log, later.kubeconfigs, c, later.controlPlanes[c]);
  }

  lemma UserUpdatesControlPlaneKeeps(db: Db, c: string, spec: ControlPlaneSpec, parses: CidrParser)
    requires Inv(db, parses) && c in db.controlPlanes
    requires UserMayUpdate(spec, db.controlPlanes[c].spec)
    ensures Inv(UpdatedByUser(db, c, spec), parses)
  {
    var cp := db.controlPlanes[c];
    var after := cp.(version := cp.version + 1, spec := spec);
    UserUpdateKeepsHold(db.log, db.kubeconfigs, c, cp, spec);
    ControlPlaneKept(db, c, after, parses);
    assert UpdatedByUser(db, c, spec) == PutControlPlane(db, c, after);
  }

  lemma UserUpdateKeepsHold(log: Log, kubeconfigs: set<string>, c: string, cp: ControlPlane, spec: ControlPlaneSpec)
    requires ControlPlaneOk(log, kubeconfigs, c, cp) && UserMayUpdate(spec, cp.spec)
    ensures var after := cp.(version := cp.version + 1, spec := spec);
            ControlPlaneOk(log, kubeconfigs, c, after) && KeepsHold(cp, after) && !after.meta.Gone()
  {
    UserUpdateOk(log, cp.spec, spec, cp.meta.uid);
  }

  lemma UserDeletesControlPlaneKeeps(db: Db, c: string, parses: CidrParser)
    requires Inv(db, parses) && c in db.controlPlanes
    ensures Inv(DeletedControlPlane(db, c), parses)
  {
    var cp := db.controlPlanes[c];
    var marked := cp.(meta := MarkDeleted(db, cp.meta));
    assert ControlPlaneOk(db.log, db.kubeconfigs, c, cp);
    if marked.meta.Gone() {
      NoFinalizerNoChildren(db, c, parses);
      ControlPlaneReleased(db, c, marked, parses);
    } else {
      ControlPlaneKept(db, c, marked, parses);
    }
  }

  lemma UserUpdateOk(log: Log, prev: ControlPlaneSpec, spec: ControlPlaneSpec, uid: Uid)
    requires SpecOk(log, prev, uid) && AdmitsUpdate(spec, prev) && KeepsRecords(spec, prev)
    ensures SpecOk(log, spec, uid)
    ensures forall k :: 0 <= k < |prev.vswitches| ==>
              spec.vswitches[k].id == prev.vswitches[k].id && spec.vswitches[k].name == prev.vswitches[k].name
  {
    UpdateKeepsNetworkMode(spec, prev);
    forall k | 0 <= k < |prev.vswitches|
      ensures spec.vswitches[k].id == prev.vswitches[k].id && spec.vswitches[k].name == prev.vswitches[k].name
      ensures !HalfFilled(spec.vswitches[k])
    {
      assert VSwitchEqual(spec.vswitches[k], prev.vswitches[k]) && !HalfFilled(prev.vswitches[k]);
    }
  }

  lemma UserCreatesPoolKeeps(db: Db, p: string, spec: PoolSpec, parses: CidrParser)
    requires Inv(db, parses) && p !in db.pools && PoolAdmitsCreate(spec, parses) && NoRecords(spec.vswitches)
    ensures Inv(CreatedPool(db, p, spec), parses)
  {
    AdmittedIsWellFormed(spec, spec, parses);
    BirthGrows(db, MachinePoolKind, p, []);
    var later := CreatedPool(db, p, spec);
    NoRecordsOwned(later.log, spec.vswitches, db.nextUid);
    assert KeepsPools(db.pools, later.pools);
    ChildrenKept(db, later, parses);
    assert PoolOk(later.log, p, later.pools[p], parses);
  }

  lemma UserUpdatesPoolKeeps(db: Db, p: string, spec: PoolSpec, parses: CidrParser)
    requires Inv(db, parses) && p in db.pools && UserMayUpdatePool(spec, db.pools[p].spec, parses)
    ensures Inv(UpdatedPool(db, p, spec), parses)
  {
    var pool := db.pools[p];
    assert PoolOk(db.log, p, pool, parses);
    AdmittedIsWellFormed(spec, pool.spec, parses);
    CarriedOwned(db.log, spec.vswitches, pool.spec.vswitches, pool.meta.uid);
    PoolReplaced(db, p, pool.(version := pool.version + 1, spec := spec), parses);
  }

  lemma UserDeletesPoolKeeps(db: Db, p: string, parses: CidrParser)
    requires Inv(db, parses) && p in db.pools
    ensures Inv(DeletedPool(db, p), parses)
  {
    var pool := db.pools[p];
    assert PoolOk(db.log, p, pool, parses);
    assert p in db.nodePools ==> NodePoolOk(db.log, db.pools, db.passwords, p, db.nodePools[p]);
    PoolReplaced(db, p, pool.(meta := MarkDeleted(db, pool.meta)), parses);
  }
}
