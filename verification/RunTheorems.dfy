/** What holds in every state of every run. */
module RunTheorems {
  import opened Wrappers
  import opened CommonApi
  import opened ApiServer
  import opened ControlPlaneWebhook
  import opened MachinePoolWebhook
  import opened VswitchReconcile
  import opened VswitchFacts
  import opened VpcReconcile
  import opened WriteBack
  import opened ControlPlaneController
  import opened MachinePoolController
  import opened Collectors
  import opened Runs
  import opened Invariant
  import opened Preservation
  import opened ControlPlaneStages
  import opened MachinePoolStages

  lemma UserStepKeeps(db: Db, e: Event, parses: CidrParser)
    requires Inv(db, parses)
    requires e.UserCreatesControlPlane? || e.UserUpdatesControlPlane? || e.UserDeletesControlPlane?
             || e.UserCreatesPool? || e.UserUpdatesPool? || e.UserDeletesPool?
    ensures Inv(Next(db, e, parses), parses)
  {
    match e
    case UserCreatesControlPlane(c, spec) =>
      if c !in db.controlPlanes && AdmitsCreate(spec, parses) && NoRecords(spec.vswitches) &&
         spec.vpc.resourceId == "" && spec.vpc.uid == NO_UID {
        UserCreatesControlPlaneKeeps(db, c, spec, parses);
      }
    case UserUpdatesControlPlane(c, spec) =>
      if c in db.controlPlanes && UserMayUpdate(spec, db.controlPlanes[c].spec) {
        UserUpdatesControlPlaneKeeps(db, c, spec, parses);
      }
    case UserDeletesControlPlane(c) => if c in db.controlPlanes { UserDeletesControlPlaneKeeps(db, c, parses); }
    case UserCreatesPool(p, spec) =>
      if p !in db.pools && PoolAdmitsCreate(spec, parses) && NoRecords(spec.vswitches) {
        UserCreatesPoolKeeps(db, p, spec, parses);
      }
    case UserUpdatesPool(p, spec) =>
      if p in db.pools && UserMayUpdatePool(spec, db.pools[p].spec, parses) {
        UserUpdatesPoolKeeps(db, p, spec, parses);
      }
    case UserDeletesPool(p) => if p in db.pools { UserDeletesPoolKeeps(db, p, parses); }
  }

  lemma PassStepKeeps(db: Db, e: Event, parses: CidrParser)
    requires Inv(db, parses) && (e.ReconcileControlPlane? || e.ReconcilePool?)
    ensures Inv(Next(db, e, parses), parses)
  {
    match e
    case ReconcileControlPlane(c, plan) =>
      if c in db.controlPlanes && !db.controlPlanes[c].meta.Gone() {
        ControlPlanePassKeeps(db, c, plan, parses);
      }
    case ReconcilePool(p, plan) =>
      if p in db.pools && !db.pools[p].meta.Gone() {
        PoolPassKeeps(db, p, plan, parses);
      }
  }

  lemma CollectorStepKeeps(db: Db, e: Event, parses: CidrParser)
    requires Inv(db, parses) && (e.CollectVswitch? || e.CleanVpc?)
    ensures Inv(Next(db, e, parses), parses)
  {
    match e
    case CollectVswitch(n, plan) => CollectionKeeps(db, n, plan, parses);
    case CleanVpc(n, fault) => VpcCleaningKeeps(db, n, fault, parses);
  }

  lemma ProviderStepKeeps(db: Db, e: Event, parses: CidrParser)
    requires Inv(db, parses)
    requires e.ProviderVswitch? || e.ProviderVpc? || e.ProviderKubernetes? || e.ProviderNodePool?
    ensures Inv(Next(db, e, parses), parses)
  {
    var later := Next(db, e, parses);
    if later != db {
      match e
      case ProviderVswitch(n, fs, id, messages) => ReportedVswitchKeeps(db, n, fs, id, messages, parses);
      case ProviderVpc(n, fs, id, messages) => ReportedVpcKeeps(db, n, fs, id, messages, parses);
      case ProviderKubernetes(c, fs, status) => ReportedKubernetesKeeps(db, c, fs, status, parses);
      case ProviderNodePool(p, fs, status) => ReportedNodePoolKeeps(db, p, fs, status, parses);
    }
  }

  lemma OutsiderNetworkStepKeeps(db: Db, e: Event, parses: CidrParser)
    requires Inv(db, parses) && (e.OutsiderDeletesVswitch? || e.OutsiderDeletesVpc?)
    ensures Inv(Next(db, e, parses), parses)
  {
    if Next(db, e, parses) != db {
      match e
      case OutsiderDeletesVswitch(n) => VswitchDeletionKeeps(db, n, parses);
      case OutsiderDeletesVpc(n) => VpcDeletionKeeps(db, n, parses);
    }
  }

  lemma OutsiderClusterStepKeeps(db: Db, e: Event, parses: CidrParser)
    requires Inv(db, parses) && (e.OutsiderDeletesKubernetes? || e.OutsiderDeletesNodePool?)
    ensures Inv(Next(db, e, parses), parses)
  {
    if Next(db, e, parses) != db {
      match e
      case OutsiderDeletesKubernetes(c) => KubernetesDeletionKeeps(db, c, parses);
      case OutsiderDeletesNodePool(p) => NodePoolDeletionKeeps(db, p, parses);
    }
  }

  lemma TickKeeps(db: Db, parses: CidrParser)
    requires Inv(db, parses)
    ensures Inv(db.(clock := db.clock + 1), parses)
  {
  }

  lemma NextKeeps(db: Db, e: Event, parses: CidrParser)
    requires Inv(db, parses)
    ensures Inv(Next(db, e, parses), parses)
  {
    if e.ReconcileControlPlane? || e.ReconcilePool? {
      PassStepKeeps(db, e, parses);
    } else if e.CollectVswitch? || e.CleanVpc? {
      CollectorStepKeeps(db, e, parses);
    } else if e.UserCreatesControlPlane? || e.UserUpdatesControlPlane? || e.UserDeletesControlPlane?
              || e.UserCreatesPool? || e.UserUpdatesPool? || e.UserDeletesPool? {
      UserStepKeeps(db, e, parses);
    } else if e.ProviderVswitch? || e.ProviderVpc? || e.ProviderKubernetes? || e.ProviderNodePool? {
      ProviderStepKeeps(db, e, parses);
    } else if e.Tick? {
      TickKeeps(db, parses);
    } else if e.OutsiderCreatesVswitch? {
      if e.n !in db.vswitches {
        OutsiderCreationKeeps(db, e.n, e.zoneId, e.cidrBlock, e.vpcId, parses);
      }
    } else if e.OutsiderDeletesVswitch? || e.OutsiderDeletesVpc? {
      OutsiderNetworkStepKeeps(db, e, parses);
    } else {
      OutsiderClusterStepKeeps(db, e, parses);
    }
  }

  /** Every reachable store satisfies the invariant. */
  lemma {:induction false} Reachable(es: seq<Event>, timeout: nat, parses: CidrParser)
    ensures Inv(Run(es, timeout, parses), parses)
  {
    if es != [] {
      Reachable(es[..|es| - 1], timeout, parses);
      NextKeeps(Run(es[..|es| - 1], timeout, parses), es[|es| - 1], parses);
    }
  }

  /******* Exclusive ownership *******/

  /** The owner with this uid has this vswitch uid in its stored spec. */
  ghost predicate RecordsVswitch(db: Db, owner: Uid, uid: Uid)
  {
    || (exists c :: c in db.controlPlanes && db.controlPlanes[c].meta.uid == owner && HasUid(db.controlPlanes[c].spec.vswitches, uid))
    || (exists p :: p in db.pools && db.pools[p].meta.uid == owner && HasUid(db.pools[p].spec.vswitches, uid))
  }

  ghost predicate HasUid(entries: seq<VSwitch>, uid: Uid)
  {
    exists k :: 0 <= k < |entries| && entries[k].uid == uid
  }

  /** Whoever records a vswitch uid is the first owner of the stored vswitch that has it. */
  lemma RecordedVswitchIsOwned(es: seq<Event>, timeout: nat, parses: CidrParser, owner: Uid, n: string)
    requires n in Run(es, timeout, parses).vswitches
    requires RecordsVswitch(Run(es, timeout, parses), owner, Run(es, timeout, parses).vswitches[n].meta.uid)
    ensures Run(es, timeout, parses).vswitches[n].meta.OwnedBy(owner)
  {
    Reachable(es, timeout, parses);
    var db := Run(es, timeout, parses);
    assert VswitchOk(db.log, db.controlPlanes, n, db.vswitches[n]);
    RecordedWasBornToOwner(db, owner, db.vswitches[n].meta.uid, parses);
  }

  lemma RecordedWasBornToOwner(db: Db, owner: Uid, uid: Uid, parses: CidrParser)
    requires Inv(db, parses) && uid != NO_UID && RecordsVswitch(db, owner, uid)
    ensures uid in db.log && db.log[uid].kind == VswitchKind && db.log[uid].owners != [] && db.log[uid].owners[0].uid == owner
  {
    if c :| c in db.controlPlanes && db.controlPlanes[c].meta.uid == owner && HasUid(db.controlPlanes[c].spec.vswitches, uid) {
      assert ControlPlaneOk(db.log, db.kubeconfigs, c, db.controlPlanes[c]);
    } else {
      var p :| p in db.pools && db.pools[p].meta.uid == owner && HasUid(db.pools[p].spec.vswitches, uid);
      assert PoolOk(db.log, p, db.pools[p], parses);
    }
  }

  /** Two owners, of whatever kinds, never record the same vswitch, alive or gone. */
  lemma NoSharedVswitch(es: seq<Event>, timeout: nat, parses: CidrParser, owner1: Uid, owner2: Uid, uid: Uid)
    requires uid != NO_UID
    requires RecordsVswitch(Run(es, timeout, parses), owner1, uid) && RecordsVswitch(Run(es, timeout, parses), owner2, uid)
    ensures owner1 == owner2
  {
    Reachable(es, timeout, parses);
    RecordedWasBornToOwner(Run(es, timeout, parses), owner1, uid, parses);
    RecordedWasBornToOwner(Run(es, timeout, parses), owner2, uid, parses);
  }

  /** A recorded VPC uid is that of the VPC of this name, and its first owner is the recorder. */
  lemma RecordedVpcIsOwned(es: seq<Event>, timeout: nat, parses: CidrParser, c: string, n: string)
    requires var db := Run(es, timeout, parses);
             && c in db.controlPlanes && n in db.vpcs && db.controlPlanes[c].spec.vpc.uid == db.vpcs[n].meta.uid
    ensures var db := Run(es, timeout, parses);
            db.controlPlanes[c].spec.vpc.name == n && db.vpcs[n].meta.OwnedBy(db.controlPlanes[c].meta.uid)
  {
    Reachable(es, timeout, parses);
    var db := Run(es, timeout, parses);
    assert ControlPlaneOk(db.log, db.kubeconfigs, c, db.controlPlanes[c]) && VpcOk(db.log, n, db.vpcs[n]);
  }

  /** Nor do two control planes ever record the same VPC. */
  lemma NoSharedVpc(es: seq<Event>, timeout: nat, parses: CidrParser, c: string, d: string)
    requires var db := Run(es, timeout, parses);
             && c in db.controlPlanes && d in db.controlPlanes
             && db.controlPlanes[c].spec.vpc.uid == db.controlPlanes[d].spec.vpc.uid != NO_UID
    ensures c == d
  {
    Reachable(es, timeout, parses);
    var db := Run(es, timeout, parses);
    assert ControlPlaneOk(db.log, db.kubeconfigs, c, db.controlPlanes[c]);
    assert ControlPlaneOk(db.log, db.kubeconfigs, d, db.controlPlanes[d]);
  }

  /******* Finalizers *******/

  /** A control plane with a live vswitch is stored and carries its finalizer ... */
  lemma LiveVswitchIsHeld(es: seq<Event>, timeout: nat, parses: CidrParser, n: string)
    requires var db := Run(es, timeout, parses);
             && n in db.vswitches && OwnedByControlPlane(db.vswitches[n].meta) && !db.vswitches[n].meta.Deleting()
    ensures var db := Run(es, timeout, parses);
            exists c :: c in db.controlPlanes && db.controlPlanes[c].meta.uid == db.vswitches[n].meta.owners[0].uid &&
                        CONTROL_PLANE_FINALIZER in db.controlPlanes[c].meta.finalizers &&
                        SelfCreated(db.controlPlanes[c].spec.vswitches, n)
  {
    Reachable(es, timeout, parses);
    var db := Run(es, timeout, parses);
    assert VswitchOk(db.log, db.controlPlanes, n, db.vswitches[n]);
  }

  /** ... and so is one with a cluster, or a pool with a node pool, even while these are
      being deleted. */
  lemma ClusterIsHeld(es: seq<Event>, timeout: nat, parses: CidrParser)
    ensures var db := Run(es, timeout, parses);
            && (forall c :: c in db.kubernetes ==>
                  c in db.controlPlanes && db.kubernetes[c].meta.owners == [Self(db.controlPlanes[c])] &&
                  CONTROL_PLANE_FINALIZER in db.controlPlanes[c].meta.finalizers)
            && (forall p :: p in db.nodePools ==>
                  p in db.pools && db.nodePools[p].meta.owners == [PoolSelf(db.pools[p])] &&
                  MACHINE_POOL_FINALIZER in db.pools[p].meta.finalizers)
  {
    Reachable(es, timeout, parses);
    var db := Run(es, timeout, parses);
    forall c | c in db.kubernetes ensures KubernetesOk(db.log, db.controlPlanes, c, db.kubernetes[c]) {}
    forall p | p in db.nodePools ensures NodePoolOk(db.log, db.pools, db.passwords, p, db.nodePools[p]) {}
  }

  /******* Network and readiness *******/

  /** No vswitch is ever created for a control plane with an empty VPC id. */
  lemma NoEmptyVpcId(es: seq<Event>, timeout: nat, parses: CidrParser, n: string)
    requires n in Run(es, timeout, parses).vswitches && OwnedByControlPlane(Run(es, timeout, parses).vswitches[n].meta)
    ensures Run(es, timeout, parses).vswitches[n].vpcId != ""
  {
    Reachable(es, timeout, parses);
    var db := Run(es, timeout, parses);
    assert VswitchOk(db.log, db.controlPlanes, n, db.vswitches[n]);
  }

  /** Ready comes with a cluster id, Initialized with a stored kubeconfig, and every node pool
      knows its cluster, uses real vswitches, and holds exactly one usable credential. */
  lemma ReadinessChain(es: seq<Event>, timeout: nat, parses: CidrParser)
    ensures var db := Run(es, timeout, parses);
            && (forall c :: c in db.controlPlanes && db.controlPlanes[c].status.ready ==>
                  db.controlPlanes[c].status.clusterId != "")
            && (forall c :: c in db.controlPlanes && db.controlPlanes[c].status.initialized ==> c in db.kubeconfigs)
            && (forall p :: p in db.nodePools ==>
                  db.nodePools[p].spec.clusterId != "" && "" !in db.nodePools[p].spec.vswitchIds &&
                  CredentialOk(db.passwords, db.nodePools[p].spec))
  {
    Reachable(es, timeout, parses);
    var db := Run(es, timeout, parses);
    forall c | c in db.controlPlanes ensures ControlPlaneOk(db.log, db.kubeconfigs, c, db.controlPlanes[c]) {}
    forall p | p in db.nodePools ensures NodePoolOk(db.log, db.pools, db.passwords, p, db.nodePools[p]) {}
  }

  /******* The collector *******/

  /** In every reachable store the collector's index lookups find at most one object. */
  lemma LookupsAreUnique(db: Db, parses: CidrParser)
    requires Inv(db, parses)
    ensures UniqueLookups(db)
  {
    forall p, q | p in db.pools && q in db.pools && db.pools[p].meta.uid == db.pools[q].meta.uid ensures p == q {
      assert PoolOk(db.log, p, db.pools[p], parses) && PoolOk(db.log, q, db.pools[q], parses);
    }
    forall n, m, uid | IsNodePoolOf(db, n, uid) && IsNodePoolOf(db, m, uid) ensures n == m {
      assert NodePoolOk(db.log, db.pools, db.passwords, n, db.nodePools[n]);
      assert NodePoolOk(db.log, db.pools, db.passwords, m, db.nodePools[m]);
      assert PoolOk(db.log, n, db.pools[n], parses) && PoolOk(db.log, m, db.pools[m], parses);
    }
  }

  /** A pool, stored under p, lists this vswitch uid among those it created. */
  ghost predicate ListedByPool(db: Db, uid: Uid)
  {
    exists p :: p in db.pools && ListsUid(db.pools[p].spec.vswitches, uid)
  }

  /** The vswitch belongs to a stored pool whose node pool is observed to use it. */
  ghost predicate UsedByOwner(db: Db, v: Vswitch)
  {
    exists p :: p in db.pools && p in db.nodePools && v.meta.OwnedBy(db.pools[p].meta.uid) &&
                v.cloudId.Some? && v.cloudId.value in db.nodePools[p].status.vswitchIds
  }

  lemma ListedIsWanted(db: Db, n: string, parses: CidrParser)
    requires Inv(db, parses) && n in db.vswitches && ListedByPool(db, db.vswitches[n].meta.uid)
    ensures var meta := db.vswitches[n].meta;
            meta.owners != [] && Wanted(db, db.vswitches[n], meta.owners[0].uid)
  {
    var v := db.vswitches[n];
    assert VswitchOk(db.log, db.controlPlanes, n, v);
    var p :| p in db.pools && ListsUid(db.pools[p].spec.vswitches, v.meta.uid);
    assert PoolOk(db.log, p, db.pools[p], parses);
    var k :| 0 <= k < |db.pools[p].spec.vswitches| && db.pools[p].spec.vswitches[k].uid == v.meta.uid;
    assert BornTo(db.log, v.meta.uid, VswitchKind, db.pools[p].spec.vswitches[k].name, db.pools[p].meta.uid);
    assert IsPool(db, p, v.meta.owners[0].uid);
  }

  lemma UsedIsWanted(db: Db, n: string, parses: CidrParser)
    requires Inv(db, parses) && n in db.vswitches && UsedByOwner(db, db.vswitches[n])
    ensures var meta := db.vswitches[n].meta;
            meta.owners != [] && Wanted(db, db.vswitches[n], meta.owners[0].uid)
  {
    var v := db.vswitches[n];
    var p :| p in db.pools && p in db.nodePools && v.meta.OwnedBy(db.pools[p].meta.uid) &&
             v.cloudId.Some? && v.cloudId.value in db.nodePools[p].status.vswitchIds;
    assert NodePoolOk(db.log, db.pools, db.passwords, p, db.nodePools[p]);
    assert IsPool(db, p, v.meta.owners[0].uid) && IsNodePoolOf(db, p, v.meta.owners[0].uid);
  }

  lemma WantedIsLeftAlone(db: Db, n: string, plan: CollectPlan)
    requires n in db.vswitches && !db.vswitches[n].meta.Deleting()
    requires OwnedByControlPlane(db.vswitches[n].meta) ||
             (db.vswitches[n].meta.owners != [] && Wanted(db, db.vswitches[n], db.vswitches[n].meta.owners[0].uid))
    ensures CollectPass(db, n, plan) == db
  {
    assert !Garbage(db, db.vswitches[n]);
  }

  /** Safety of the collector in every run: a vswitch that belongs to a control plane, or whose
      uid any pool lists, or whose cloud id the node pool of its stored pool is observed to use,
      is never deleted by it. */
  lemma CollectorSafety(es: seq<Event>, timeout: nat, parses: CidrParser, n: string, plan: CollectPlan)
    requires n in Run(es, timeout, parses).vswitches && !Run(es, timeout, parses).vswitches[n].meta.Deleting()
    requires var db := Run(es, timeout, parses);
             var v := db.vswitches[n];
             OwnedByControlPlane(v.meta) || ListedByPool(db, v.meta.uid) || UsedByOwner(db, v)
    ensures Next(Run(es, timeout, parses), CollectVswitch(n, plan), parses) == Run(es, timeout, parses)
  {
    Reachable(es, timeout, parses);
    var db := Run(es, timeout, parses);
    if ListedByPool(db, db.vswitches[n].meta.uid) {
      ListedIsWanted(db, n, parses);
    } else if UsedByOwner(db, db.vswitches[n]) {
      UsedIsWanted(db, n, parses);
    }
    WantedIsLeftAlone(db, n, plan);
  }
}
