/** The inductive invariant of all runs, object by object. */
module Invariant {
  import opened Wrappers
  import opened CommonApi
  import opened ApiServer
  import opened ControlPlaneWebhook
  import opened MachinePoolWebhook
  import opened VswitchFacts
  import opened ControlPlaneController
  import opened MachinePoolController
  import opened Collectors
  import opened ClusterNames

  type Log = map<Uid, Birth>

  /** The uid was given to the stored object itself. */
  ghost predicate Logged(log: Log, kind: Kind, name: string, meta: Meta)
  {
    meta.uid in log && log[meta.uid] == Birth(kind, name, meta.owners)
  }

  /** The uid was given to an object of this kind and name whose first owner was this owner. */
  ghost predicate BornTo(log: Log, uid: Uid, kind: Kind, name: string, owner: Uid)
  {
    && uid in log && log[uid].kind == kind && log[uid].name == name
    && log[uid].owners != [] && log[uid].owners[0].uid == owner
  }

  /** Exclusive ownership: whatever a vswitch list records was born to the list's owner. */
  ghost predicate OwnsEntries(log: Log, entries: seq<VSwitch>, owner: Uid)
  {
    forall k :: 0 <= k < |entries| && entries[k].uid != NO_UID ==>
                  BornTo(log, entries[k].uid, VswitchKind, entries[k].name, owner)
  }

  ghost predicate OwnsVpc(log: Log, vpc: VPC, owner: Uid)
  {
    vpc.uid != NO_UID ==> BornTo(log, vpc.uid, VpcKind, vpc.name, owner)
  }

  /** A ResourceID is never recorded without the uid. */
  ghost predicate NoHalves(spec: ControlPlaneSpec)
  {
    && (forall k :: 0 <= k < |spec.vswitches| ==> !HalfFilled(spec.vswitches[k]))
    && (spec.vpc.name != "" && spec.vpc.resourceId != "" ==> spec.vpc.uid != NO_UID)
  }

  ghost predicate SpecOk(log: Log, spec: ControlPlaneSpec, uid: Uid)
  {
    && OwnsEntries(log, spec.vswitches, uid) && OwnsVpc(log, spec.vpc, uid)
    && NetworkMode(spec) && ValidClusterName(spec.clusterName) && NoHalves(spec)
  }

  ghost predicate StatusOk(kubeconfigs: set<string>, c: string, status: ControlPlaneStatus)
  {
    && (status.ready ==> status.clusterId != "")
    && (status.initialized ==> c in kubeconfigs)
  }

  ghost predicate OwnerMetaOk(log: Log, kind: Kind, name: string, meta: Meta)
  {
    Logged(log, kind, name, meta) && meta.owners == [] && !meta.Gone()
  }

  ghost predicate ControlPlaneOk(log: Log, kubeconfigs: set<string>, c: string, cp: ControlPlane)
  {
    && OwnerMetaOk(log, ControlPlaneKind, c, cp.meta)
    && SpecOk(log, cp.spec, cp.meta.uid) && StatusOk(kubeconfigs, c, cp.status)
  }

  ghost predicate PoolOk(log: Log, p: string, pool: Pool, parses: CidrParser)
  {
    && OwnerMetaOk(log, MachinePoolKind, p, pool.meta)
    && OwnsEntries(log, pool.spec.vswitches, pool.meta.uid) && WellFormed(pool.spec, parses)
  }

  /** The control plane of this uid is stored, carries its finalizer and lists the vswitch. */
  ghost predicate Held(log: Log, controlPlanes: map<string, ControlPlane>, uid: Uid, n: string)
  {
    && uid in log && log[uid].kind == ControlPlaneKind
    && log[uid].name in controlPlanes
    && var cp := controlPlanes[log[uid].name];
    && cp.meta.uid == uid && CONTROL_PLANE_FINALIZER in cp.meta.finalizers && SelfCreated(cp.spec.vswitches, n)
  }

  ghost predicate OwnedByControlPlane(meta: Meta)
  {
    meta.owners != [] && meta.owners[0].kind == ControlPlaneKind
  }

  ghost predicate VswitchOk(log: Log, controlPlanes: map<string, ControlPlane>, n: string, v: Vswitch)
  {
    && Logged(log, VswitchKind, n, v.meta)
    && (OwnedByControlPlane(v.meta) ==> v.vpcId != "")
    && (OwnedByControlPlane(v.meta) && !v.meta.Deleting() ==> Held(log, controlPlanes, v.meta.owners[0].uid, n))
  }

  ghost predicate VpcOk(log: Log, n: string, v: Vpc)
  {
    Logged(log, VpcKind, n, v.meta) && OwnedByControlPlane(v.meta)
  }

  /** A ManagedKubernetes object outlives neither its control plane nor that one's finalizer. */
  ghost predicate KubernetesOk(log: Log, controlPlanes: map<string, ControlPlane>, c: string, k: ManagedKubernetes)
  {
    && Logged(log, KubernetesKind, c, k.meta)
    && c in controlPlanes && k.meta.owners == [Self(controlPlanes[c])]
    && CONTROL_PLANE_FINALIZER in controlPlanes[c].meta.finalizers
    && (k.status.ready ==> k.status.id != "" && (k.status.endpoint.Some? ==> k.status.endpoint.value.host != ""))
  }

  /** Exactly one of the two credentials, and a referenced password is stored. */
  ghost predicate CredentialOk(passwords: map<string, string>, spec: NodePoolSpec)
  {
    && (spec.keyName.Some? != spec.passwordSecret.Some?)
    && (spec.keyName.Some? ==> spec.keyName.value != "")
    && (spec.passwordSecret.Some? ==> spec.passwordSecret.value in passwords && passwords[spec.passwordSecret.value] != "")
  }

  ghost predicate NodePoolOk(log: Log, pools: map<string, Pool>, passwords: map<string, string>, p: string,
                             np: NodePool)
  {
    && Logged(log, NodePoolKind, p, np.meta)
    && p in pools && np.meta.owners == [PoolSelf(pools[p])]
    && MACHINE_POOL_FINALIZER in pools[p].meta.finalizers
    && CredentialOk(passwords, np.spec)
    && np.spec.clusterId != "" && "" !in np.spec.vswitchIds
  }

  ghost predicate LogOk(db: Db)
  {
    db.nextUid != NO_UID && NO_UID !in db.log && forall u :: u in db.log ==> u < db.nextUid
  }

  ghost predicate Inv(db: Db, parses: CidrParser)
  {
    && LogOk(db)
    && (forall c :: c in db.controlPlanes ==> ControlPlaneOk(db.log, db.kubeconfigs, c, db.controlPlanes[c]))
    && (forall p :: p in db.pools ==> PoolOk(db.log, p, db.pools[p], parses))
    && (forall n :: n in db.vswitches ==> VswitchOk(db.log, db.controlPlanes, n, db.vswitches[n]))
    && (forall n :: n in db.vpcs ==> VpcOk(db.log, n, db.vpcs[n]))
    && (forall c :: c in db.kubernetes ==> KubernetesOk(db.log, db.controlPlanes, c, db.kubernetes[c]))
    && (forall p :: p in db.nodePools ==> NodePoolOk(db.log, db.pools, db.passwords, p, db.nodePools[p]))
  }

  /******* What keeps each part *******/

  ghost predicate LogGrows(log: Log, later: Log)
  {
    forall u :: u in log ==> u in later && later[u] == log[u]
  }

  /** The log has grown by fresh uids only. */
  ghost predicate Grows(db: Db, later: Db)
  {
    && LogGrows(db.log, later.log) && LogOk(later)
    && db.kubeconfigs <= later.kubeconfigs
    && (forall s :: s in db.passwords ==> s in later.passwords && (db.passwords[s] != "" ==> later.passwords[s] != ""))
  }

  lemma BirthGrows(db: Db, kind: Kind, name: string, owners: seq<OwnerRef>)
    requires LogOk(db)
    ensures LogGrows(db.log, Born(db, kind, name, owners).log) && LogOk(Born(db, kind, name, owners))
  {
  }

  lemma ControlPlaneOkGrows(db: Db, later: Db, c: string, cp: ControlPlane)
    requires Grows(db, later) && ControlPlaneOk(db.log, db.kubeconfigs, c, cp)
    ensures ControlPlaneOk(later.log, later.kubeconfigs, c, cp)
  {
    SpecOkGrows(db.log, later.log, cp.spec, cp.meta.uid);
  }

  lemma SpecOkGrows(log: Log, later: Log, spec: ControlPlaneSpec, uid: Uid)
    requires LogGrows(log, later) && SpecOk(log, spec, uid)
    ensures SpecOk(later, spec, uid)
  {
    OwnsEntriesGrows(log, later, spec.vswitches, uid);
  }

  lemma OwnsEntriesGrows(log: Log, later: Log, entries: seq<VSwitch>, uid: Uid)
    requires LogGrows(log, later) && OwnsEntries(log, entries, uid)
    ensures OwnsEntries(later, entries, uid)
  {
    forall k | 0 <= k < |entries| && entries[k].uid != NO_UID
      ensures BornTo(later, entries[k].uid, VswitchKind, entries[k].name, uid)
    {
      assert BornTo(log, entries[k].uid, VswitchKind, entries[k].name, uid);
    }
  }

  lemma PoolOkGrows(db: Db, later: Db, p: string, pool: Pool, parses: CidrParser)
    requires Grows(db, later) && PoolOk(db.log, p, pool, parses)
    ensures PoolOk(later.log, p, pool, parses)
  {
    OwnsEntriesGrows(db.log, later.log, pool.spec.vswitches, pool.meta.uid);
  }

  /** The owners a later store must still have for the children of an earlier one. */
  ghost predicate KeepsHolders(controlPlanes: map<string, ControlPlane>, later: map<string, ControlPlane>)
  {
    forall c :: c in controlPlanes ==> c in later && KeepsHold(controlPlanes[c], later[c])
  }

  ghost predicate KeepsHold(cp: ControlPlane, later: ControlPlane)
  {
    && later.meta.uid == cp.meta.uid
    && (CONTROL_PLANE_FINALIZER in cp.meta.finalizers ==> CONTROL_PLANE_FINALIZER in later.meta.finalizers)
    && |later.spec.vswitches| == |cp.spec.vswitches|
    && forall k :: 0 <= k < |cp.spec.vswitches| ==>
         later.spec.vswitches[k].id == cp.spec.vswitches[k].id && later.spec.vswitches[k].name == cp.spec.vswitches[k].name
  }

  lemma SelfCreatedKept(cp: ControlPlane, later: ControlPlane, n: string)
    requires KeepsHold(cp, later) && SelfCreated(cp.spec.vswitches, n)
    ensures SelfCreated(later.spec.vswitches, n)
  {
    var k :| 0 <= k < |cp.spec.vswitches| && cp.spec.vswitches[k].id == "" && cp.spec.vswitches[k].name == n;
    assert later.spec.vswitches[k].id == "" && later.spec.vswitches[k].name == n;
  }

  lemma VswitchOkKept(log: Log, later: Log, cps: map<string, ControlPlane>, cpsLater: map<string, ControlPlane>,
                      n: string, v: Vswitch)
    requires LogGrows(log, later) && KeepsHolders(cps, cpsLater) && VswitchOk(log, cps, n, v)
    ensures VswitchOk(later, cpsLater, n, v)
  {
    if OwnedByControlPlane(v.meta) && !v.meta.Deleting() {
      var c := log[v.meta.owners[0].uid].name;
      SelfCreatedKept(cps[c], cpsLater[c], n);
    }
  }

  lemma KubernetesOkKept(log: Log, later: Log, cps: map<string, ControlPlane>, cpsLater: map<string, ControlPlane>,
                         c: string, k: ManagedKubernetes)
    requires LogGrows(log, later) && KeepsHolders(cps, cpsLater) && KubernetesOk(log, cps, c, k)
    ensures KubernetesOk(later, cpsLater, c, k)
  {
    assert KeepsHold(cps[c], cpsLater[c]);
  }

  ghost predicate KeepsPools(pools: map<string, Pool>, later: map<string, Pool>)
  {
    forall p :: p in pools ==> p in later && KeepsPool(pools[p], later[p])
  }

  ghost predicate KeepsPool(pool: Pool, later: Pool)
  {
    && later.meta.uid == pool.meta.uid
    && (MACHINE_POOL_FINALIZER in pool.meta.finalizers ==> MACHINE_POOL_FINALIZER in later.meta.finalizers)
  }

  /** Stored children stay in order as long as the log only grows and their owners keep
      holding them: the frame of almost every event. */
  lemma ChildrenKept(db: Db, later: Db, parses: CidrParser)
    requires Inv(db, parses) && Grows(db, later)
    requires KeepsHolders(db.controlPlanes, later.controlPlanes) && KeepsPools(db.pools, later.pools)
    ensures forall n :: n in db.vswitches ==> VswitchOk(later.log, later.controlPlanes, n, db.vswitches[n])
    ensures forall n :: n in db.vpcs ==> VpcOk(later.log, n, db.vpcs[n])
    ensures forall c :: c in db.kubernetes ==> KubernetesOk(later.log, later.controlPlanes, c, db.kubernetes[c])
    ensures forall p :: p in db.nodePools ==> NodePoolOk(later.log, later.pools, later.passwords, p, db.nodePools[p])
    ensures forall c :: c in db.controlPlanes ==> ControlPlaneOk(later.log, later.kubeconfigs, c, db.controlPlanes[c])
    ensures forall p :: p in db.pools ==> PoolOk(later.log, p, db.pools[p], parses)
  {
    forall n | n in db.vswitches ensures VswitchOk(later.log, later.controlPlanes, n, db.vswitches[n]) {
      VswitchOkKept(db.log, later.log, db.controlPlanes, later.controlPlanes, n, db.vswitches[n]);
    }
    forall c | c in db.kubernetes ensures KubernetesOk(later.log, later.controlPlanes, c, db.kubernetes[c]) {
      KubernetesOkKept(db.log, later.log, db.controlPlanes, later.controlPlanes, c, db.kubernetes[c]);
    }
    forall p | p in db.nodePools ensures NodePoolOk(later.log, later.pools, later.passwords, p, db.nodePools[p]) {
      NodePoolOkKept(db, later, p, db.nodePools[p]);
    }
    forall c | c in db.controlPlanes ensures ControlPlaneOk(later.log, later.kubeconfigs, c, db.controlPlanes[c]) {
      ControlPlaneOkGrows(db, later, c, db.controlPlanes[c]);
    }
    forall p | p in db.pools ensures PoolOk(later.log, p, db.pools[p], parses) {
      PoolOkGrows(db, later, p, db.pools[p], parses);
    }
  }

  lemma NodePoolOkKept(db: Db, later: Db, p: string, np: NodePool)
    requires Grows(db, later) && KeepsPools(db.pools, later.pools)
    requires NodePoolOk(db.log, db.pools, db.passwords, p, np)
    ensures NodePoolOk(later.log, later.pools, later.passwords, p, np)
  {
    assert KeepsPool(db.pools[p], later.pools[p]);
  }
}
