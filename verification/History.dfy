/** The log only grows: no event gives out a uid twice or forgets what it was given to. */
module History {
  import opened Wrappers
  import opened CommonApi
  import opened ApiServer
  import opened ControlPlaneWebhook
  import opened MachinePoolWebhook
  import opened VswitchReconcile
  import opened VswitchFacts
  import opened VpcReconcile
  import opened WriteBack
  import opened ControlPlaneController
  import opened MachinePoolController
  import opened Collectors
  import opened Runs
  import opened Invariant
  import opened ControlPlaneResults
  import opened ControlPlaneRuns
  import opened RunTheorems
  import opened Teardown

  /** Old births stay, new ones have fresh uids. */
  ghost predicate Extends(db: Db, later: Db)
  {
    LogOk(later) && LogGrows(db.log, later.log)
  }

  lemma OnlyCreatesExtends(db: Db, later: Db, owner: OwnerRef, vpcId: string)
    requires LogOk(db) && OnlyCreates(db, later, owner, vpcId)
    ensures Extends(db, later)
  {
  }

  lemma VpcExtends(db: Db, owner: OwnerRef, vpc: VPC, fault: Fault)
    requires LogOk(db)
    ensures Extends(db, ReconciledVpc(db, owner, vpc, fault).db)
  {
    BirthGrows(db, VpcKind, vpc.name, [owner]);
  }

  lemma NetworkExtends(db: Db, mem: ControlPlane, plan: CpPlan)
    requires LogOk(db)
    ensures Extends(db, NetworkReconciled(db, mem, plan).0.db)
  {
    VpcExtends(db, Self(mem), mem.spec.vpc, plan.vpc);
    var v := ReconciledVpc(db, Self(mem), mem.spec.vpc, plan.vpc);
    PassContract(v.db, Self(mem), v.id, mem.spec.vswitches, plan.vswitches);
    OnlyCreatesExtends(v.db, VswitchPass(v.db, Self(mem), v.id, mem.spec.vswitches, plan.vswitches).db, Self(mem), v.id);
  }

  lemma KubernetesExtends(db: Db, c: string, mem: ControlPlane, ids: seq<string>, fault: Fault)
    requires LogOk(db)
    ensures Extends(db, KubernetesReconciled(db, c, mem, ids, fault).0.db)
  {
    BirthGrows(db, KubernetesKind, c, [Self(mem)]);
  }

  lemma ClusterExtends(db: Db, c: string, mem: ControlPlane, ids: seq<string>, plan: CpPlan)
    requires LogOk(db)
    ensures Extends(db, ClusterReconciled(db, c, mem, ids, plan).0)
  {
    KubernetesExtends(db, c, mem, ids, plan.kubernetes);
    var (k, view) := KubernetesReconciled(db, c, mem, ids, plan.kubernetes);
    StatusFrame(k.db, c, k.mem, view, plan.kubeconfig);
  }

  lemma PassExtends(db: Db, c: string, plan: CpPlan)
    requires LogOk(db) && c in db.controlPlanes && !db.controlPlanes[c].meta.Gone()
    ensures Extends(db, ControlPlanePass(db, c, plan))
  {
    if plan.readable {
      PassKeepsObject(db, c, plan);
      var cp := db.controlPlanes[c];
      if cp.meta.Deleting() {
        DeletedOrder(db, c, plan);
      } else {
        FinalizerAddedFacts(db, c, cp, plan.finalizerFault);
        var a := FinalizerAdded(db, c, cp, plan.finalizerFault);
        NetworkExtends(a.db, a.mem, plan);
        var (n, ids) := NetworkReconciled(a.db, a.mem, plan);
        ClusterExtends(n.db, c, n.mem, ids, plan);
      }
    }
  }

  lemma NodePoolExtends(db: Db, p: string, mem: Pool, cp: ControlPlane, ids: seq<string>, plan: PoolPlan)
    requires LogOk(db)
    ensures Extends(db, NodePoolReconciled(db, p, mem, cp, ids, plan).0.db)
  {
    var spec := mem.spec.(region := cp.spec.region, clusterId := cp.status.clusterId);
    if p in db.nodePools {
      var np := db.nodePools[p];
      var c := CredentialsEnsured(db, p, spec, np.spec.(vswitchIds := ids, keyName := Some(spec.keyName)), plan.secret);
      assert Extends(db, c.db) && Extends(db, PutNodePool(c.db, p, np.(spec := c.spec)));
    } else {
      var c := CredentialsEnsured(db, p, spec, NodePoolSpec(spec.clusterId, ids, None, None, spec.securityGroupIds), plan.secret);
      BirthGrows(c.db, NodePoolKind, p, [PoolSelf(mem)]);
      assert Extends(db, c.db) && Extends(db, CreateNodePool(c.db, p, [PoolSelf(mem)], c.spec));
    }
  }

  lemma PoolBodyExtends(db: Db, p: string, parses: CidrParser, plan: PoolPlan)
    requires LogOk(db) && p in db.pools && !db.pools[p].meta.Gone() && !db.pools[p].meta.Deleting()
    ensures Extends(db, PoolSynced(db, p, db.pools[p], parses, plan).0)
  {
    var pool := db.pools[p];
    PoolFinalizerAddedFacts(db, p, pool, parses, plan.finalizerFault);
    var a := PoolFinalizerAdded(db, p, pool, parses, plan.finalizerFault);
    var c := pool.spec.cluster;
    if c in db.controlPlanes && c in a.db.kubernetes {
      PoolChildrenExtends(a.db, p, a.mem, db.controlPlanes[c], a.db.kubernetes[c], plan);
    }
  }

  lemma PoolPassExtends(db: Db, p: string, parses: CidrParser, plan: PoolPlan)
    requires LogOk(db) && p in db.pools && !db.pools[p].meta.Gone()
    ensures Extends(db, PoolPass(db, p, parses, plan))
  {
    if plan.readable {
      PoolPassKeepsObject(db, p, parses, plan);
      if db.pools[p].meta.Deleting() {
        PoolDeletedFrame(db, p, db.pools[p], plan);
      } else {
        PoolBodyExtends(db, p, parses, plan);
      }
      var (after, m) := PoolPassBody(db, p, parses, plan);
      assert Extends(db, after);
      var written := WrittenPool(after, p, m, parses, plan);
      assert written.log == after.log && written.nextUid == after.nextUid;
    }
  }

  lemma PoolChildrenExtends(db: Db, p: string, mem: Pool, cp: ControlPlane, k: ManagedKubernetes, plan: PoolPlan)
    requires LogOk(db)
    ensures Extends(db, PoolChildrenReconciled(db, p, mem, cp, k, plan).0)
  {
    PassContract(db, PoolSelf(mem), k.status.vpcId, mem.spec.vswitches, plan.vswitches);
    var v := VswitchPass(db, PoolSelf(mem), k.status.vpcId, mem.spec.vswitches, plan.vswitches);
    OnlyCreatesExtends(db, v.db, PoolSelf(mem), k.status.vpcId);
    NodePoolExtends(v.db, p, mem.(spec := mem.spec.(vswitches := v.entries)), cp, v.ids, plan);
  }

  /** Events of the provider and of outsiders that give no uid out. */
  predicate OutsideHistory(e: Event)
  {
    || e.ProviderVswitch? || e.ProviderVpc? || e.ProviderKubernetes? || e.ProviderNodePool? || e.Tick?
    || e.OutsiderDeletesVswitch? || e.OutsiderDeletesVpc? || e.OutsiderDeletesKubernetes? || e.OutsiderDeletesNodePool?
  }

  lemma OutsideLeavesHistory(db: Db, e: Event, parses: CidrParser)
    requires OutsideHistory(e)
    ensures Next(db, e, parses).log == db.log && Next(db, e, parses).nextUid == db.nextUid
  {
  }

  lemma ChangeLeavesHistory(db: Db, e: Event, parses: CidrParser)
    requires e.UserUpdatesControlPlane? || e.UserDeletesControlPlane? || e.UserUpdatesPool? || e.UserDeletesPool?
             || e.CollectVswitch? || e.CleanVpc?
    ensures Next(db, e, parses).log == db.log && Next(db, e, parses).nextUid == db.nextUid
  {
    if e.CollectVswitch? {
      CollectionFrame(db, e.n, e.collectPlan);
    }
  }

  lemma CreationExtends(db: Db, e: Event, parses: CidrParser)
    requires LogOk(db) && (e.UserCreatesControlPlane? || e.UserCreatesPool? || e.OutsiderCreatesVswitch?)
    ensures Extends(db, Next(db, e, parses))
  {
    var later := Next(db, e, parses);
    if later != db {
      match e
      case UserCreatesControlPlane(c, _) =>
        BirthGrows(db, ControlPlaneKind, c, []);
        assert later.log == Born(db, ControlPlaneKind, c, []).log;
      case UserCreatesPool(p, _) =>
        BirthGrows(db, MachinePoolKind, p, []);
        assert later.log == Born(db, MachinePoolKind, p, []).log;
      case OutsiderCreatesVswitch(n, _, _, _) =>
        BirthGrows(db, VswitchKind, n, []);
        assert later.log == Born(db, VswitchKind, n, []).log;
    }
  }

  /** A uid is never given out twice, and what it was given to is never forgotten. */
  lemma StepExtends(db: Db, e: Event, parses: CidrParser)
    requires LogOk(db)
    ensures Extends(db, Next(db, e, parses))
  {
    if e.ReconcileControlPlane? {
      if e.c in db.controlPlanes && !db.controlPlanes[e.c].meta.Gone() {
        PassExtends(db, e.c, e.plan);
      }
    } else if e.ReconcilePool? {
      if e.p in db.pools && !db.pools[e.p].meta.Gone() {
        PoolPassExtends(db, e.p, parses, e.poolPlan);
      }
    } else if e.UserCreatesControlPlane? || e.UserCreatesPool? || e.OutsiderCreatesVswitch? {
      CreationExtends(db, e, parses);
    } else if OutsideHistory(e) {
      OutsideLeavesHistory(db, e, parses);
    } else {
      ChangeLeavesHistory(db, e, parses);
    }
  }
}
