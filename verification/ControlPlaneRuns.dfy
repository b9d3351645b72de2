/** Two promises of the control plane status over whole runs: Creating and Updating exclude
    each other, and Ready comes with a recorded endpoint. */
module ControlPlaneRuns {
  import opened Wrappers
  import opened CommonApi
  import opened ApiServer
  import opened ControlPlaneWebhook
  import opened MachinePoolWebhook
  import opened VswitchReconcile
  import opened VswitchFacts
  import opened WriteBack
  import opened ControlPlaneController
  import opened MachinePoolController
  import opened Collectors
  import opened Runs
  import opened Invariant
  import opened ControlPlaneResults
  import opened RunTheorems

  /******* What a pool pass leaves alone *******/

  lemma NodePoolFrame(db: Db, p: string, mem: Pool, cp: ControlPlane, ids: seq<string>, plan: PoolPlan)
    ensures var n := NodePoolReconciled(db, p, mem, cp, ids, plan).0;
            && n.db == db.(nextUid := n.db.nextUid, log := n.db.log, nodePools := n.db.nodePools, passwords := n.db.passwords)
            && n.mem.meta == mem.meta
  {
    if p in db.nodePools {
      var changed := db.nodePools[p].spec.(vswitchIds := ids, keyName := Some(mem.spec.keyName));
      var c := CredentialsEnsured(db, p, mem.spec, changed, plan.secret);
      assert PutNodePool(c.db, p, db.nodePools[p].(spec := c.spec)).vswitches == db.vswitches;
    }
  }

  /** Every stage of a pool pass that stores anything, in the normal case. */
  lemma PoolChildrenFrame(db: Db, p: string, mem: Pool, cp: ControlPlane, k: ManagedKubernetes, plan: PoolPlan)
    ensures var v := VswitchPass(db, PoolSelf(mem), k.status.vpcId, mem.spec.vswitches, plan.vswitches);
            var (after, m) := PoolChildrenReconciled(db, p, mem, cp, k, plan);
            && after == v.db.(nextUid := after.nextUid, log := after.log, nodePools := after.nodePools, passwords := after.passwords)
            && OnlyCreates(db, v.db, PoolSelf(mem), k.status.vpcId)
            && m.meta == mem.meta
  {
    PassContract(db, PoolSelf(mem), k.status.vpcId, mem.spec.vswitches, plan.vswitches);
    var v := VswitchPass(db, PoolSelf(mem), k.status.vpcId, mem.spec.vswitches, plan.vswitches);
    if v.err.None? {
      NodePoolFrame(v.db, p, mem.(spec := mem.spec.(vswitches := v.entries)), cp, v.ids, plan);
    }
  }

  lemma PoolDeletedFrame(db: Db, p: string, mem: Pool, plan: PoolPlan)
    ensures var (after, m) := PoolDeleted(db, p, mem, plan);
            after == db.(vswitches := after.vswitches, nodePools := after.nodePools) && m.meta.uid == mem.meta.uid
  {
    RemoveContract(db, mem.spec.vswitches, plan.vswitches);
  }

  lemma PoolBodyFrame(db: Db, p: string, parses: CidrParser, plan: PoolPlan)
    requires p in db.pools && !db.pools[p].meta.Gone()
    ensures var after := PoolPassBody(db, p, parses, plan).0;
            after.controlPlanes == db.controlPlanes && after.kubernetes == db.kubernetes && after.vpcs == db.vpcs
  {
    var pool := db.pools[p];
    if pool.meta.Deleting() {
      PoolDeletedFrame(db, p, pool, plan);
    } else {
      PoolFinalizerAddedFacts(db, p, pool, parses, plan.finalizerFault);
      var a := PoolFinalizerAdded(db, p, pool, parses, plan.finalizerFault);
      var c := pool.spec.cluster;
      if c in db.controlPlanes && c in a.db.kubernetes {
        PoolChildrenFrame(a.db, p, a.mem, db.controlPlanes[c], a.db.kubernetes[c], plan);
      }
    }
  }

  /** A pool pass never touches a control plane, a cluster or a VPC. */
  lemma PoolPassFrame(db: Db, p: string, parses: CidrParser, plan: PoolPlan)
    requires p in db.pools && !db.pools[p].meta.Gone()
    ensures var after := PoolPass(db, p, parses, plan);
            after.controlPlanes == db.controlPlanes && after.kubernetes == db.kubernetes && after.vpcs == db.vpcs
  {
    PoolPassKeepsObject(db, p, parses, plan);
    PoolBodyFrame(db, p, parses, plan);
  }

  /** The events that may change a control plane or a cluster. */
  predicate TouchesControlPlanes(e: Event)
  {
    || e.UserCreatesControlPlane? || e.UserUpdatesControlPlane? || e.UserDeletesControlPlane?
    || e.ReconcileControlPlane? || e.ProviderKubernetes? || e.OutsiderDeletesKubernetes?
  }

  lemma PoolEventsLeaveControlPlanes(db: Db, e: Event, parses: CidrParser)
    requires e.UserCreatesPool? || e.UserUpdatesPool? || e.UserDeletesPool?
    ensures SameControlPlanes(db, Next(db, e, parses))
  {
    if Next(db, e, parses) != db {
      match e
      case UserCreatesPool(p, spec) => assert SameControlPlanes(db, CreatedPool(db, p, spec));
      case UserUpdatesPool(p, spec) => assert SameControlPlanes(db, UpdatedPool(db, p, spec));
      case UserDeletesPool(p) => assert SameControlPlanes(db, DeletedPool(db, p));
      case _ =>
    }
  }

  lemma CollectionFrame(db: Db, n: string, plan: CollectPlan)
    ensures CollectPass(db, n, plan) == db ||
            (n in db.vswitches && (CollectPass(db, n, plan) == ForceCleaned(db, n) || CollectPass(db, n, plan) == DeleteVswitch(db, n)))
  {
  }

  lemma CollectorsLeaveControlPlanes(db: Db, e: Event, parses: CidrParser)
    requires e.CollectVswitch? || e.CleanVpc?
    ensures SameControlPlanes(db, Next(db, e, parses))
  {
    if e.CollectVswitch? {
      CollectionFrame(db, e.n, e.collectPlan);
    }
  }

  lemma ReportsLeaveControlPlanes(db: Db, e: Event, parses: CidrParser)
    requires e.ProviderVswitch? || e.ProviderVpc? || e.ProviderNodePool?
    ensures SameControlPlanes(db, Next(db, e, parses))
  {
  }

  ghost predicate SameControlPlanes(db: Db, later: Db)
  {
    later.controlPlanes == db.controlPlanes && later.kubernetes == db.kubernetes
  }

  lemma OtherEventsLeaveControlPlanes(db: Db, e: Event, parses: CidrParser)
    requires !TouchesControlPlanes(e)
    ensures SameControlPlanes(db, Next(db, e, parses))
  {
    if e.ReconcilePool? {
      if e.p in db.pools && !db.pools[e.p].meta.Gone() {
        PoolPassFrame(db, e.p, parses, e.poolPlan);
      }
    } else if e.UserCreatesPool? || e.UserUpdatesPool? || e.UserDeletesPool? {
      PoolEventsLeaveControlPlanes(db, e, parses);
    } else if e.CollectVswitch? || e.CleanVpc? {
      CollectorsLeaveControlPlanes(db, e, parses);
    } else if e.ProviderVswitch? || e.ProviderVpc? || e.ProviderNodePool? {
      ReportsLeaveControlPlanes(db, e, parses);
    }
  }

  /******* Creating and Updating *******/

  /** Never both; and while the control plane is not being deleted its cluster is not being
      deleted either, and exists if the control plane is Updating. */
  ghost predicate FlagsOk(cp: ControlPlane, c: string, kubernetes: map<string, ManagedKubernetes>)
  {
    && !(cp.status.creating && cp.status.updating)
    && (!cp.meta.Deleting() ==> (c in kubernetes ==> !kubernetes[c].meta.Deleting()) && (cp.status.updating ==> c in kubernetes))
  }

  ghost predicate AllFlagsOk(db: Db)
  {
    forall c :: c in db.controlPlanes ==> FlagsOk(db.controlPlanes[c], c, db.kubernetes)
  }

  ghost predicate SameElsewhere(before: map<string, ManagedKubernetes>, after: map<string, ManagedKubernetes>,
                                c: string)
  {
    forall d :: d != c ==> (d in after <==> d in before) && (d in before ==> after[d] == before[d])
  }

  lemma RenamedFlags(db: Db, c: string, mem: ControlPlane, status: ControlPlaneStatus)
    requires FlagsOk(mem, c, db.kubernetes) && !mem.meta.Deleting() && c in db.kubernetes
    requires status == mem.status || (!mem.status.creating && status == mem.status.(updating := true))
    ensures var later := PutKubernetes(db, c, db.kubernetes[c].(clusterName := mem.spec.clusterName));
            && FlagsOk(mem.(status := status), c, later.kubernetes)
            && SameElsewhere(db.kubernetes, later.kubernetes, c)
  {
  }

  lemma CreatedFlags(db: Db, c: string, mem: ControlPlane, ids: seq<string>)
    requires FlagsOk(mem, c, db.kubernetes) && !mem.meta.Deleting() && c !in db.kubernetes
    ensures var later := CreateKubernetes(db, c, [Self(mem)], mem.spec.clusterName, ids);
            && FlagsOk(mem, c, later.kubernetes) && FlagsOk(mem.(status := mem.status.(creating := true)), c, later.kubernetes)
            && SameElsewhere(db.kubernetes, later.kubernetes, c)
  {
  }

  lemma KubernetesFlags(db: Db, c: string, mem: ControlPlane, ids: seq<string>, fault: Fault)
    requires FlagsOk(mem, c, db.kubernetes) && !mem.meta.Deleting()
    ensures var k := KubernetesReconciled(db, c, mem, ids, fault).0;
            && k.mem == mem.(status := k.mem.status) && k.db.controlPlanes == db.controlPlanes
            && FlagsOk(k.mem, c, k.db.kubernetes) && FlagsOk(mem, c, k.db.kubernetes)
            && SameElsewhere(db.kubernetes, k.db.kubernetes, c)
  {
    if c in db.kubernetes {
      ExistingFlags(db, c, mem, ids, fault);
    } else {
      CreatedFlags(db, c, mem, ids);
    }
  }

  lemma ExistingFlags(db: Db, c: string, mem: ControlPlane, ids: seq<string>, fault: Fault)
    requires FlagsOk(mem, c, db.kubernetes) && !mem.meta.Deleting() && c in db.kubernetes
    ensures var k := KubernetesReconciled(db, c, mem, ids, fault).0;
            && k.mem == mem.(status := k.mem.status) && k.db.controlPlanes == db.controlPlanes
            && FlagsOk(k.mem, c, k.db.kubernetes) && FlagsOk(mem, c, k.db.kubernetes)
            && SameElsewhere(db.kubernetes, k.db.kubernetes, c)
  {
    RenamedFlags(db, c, mem, mem.status);
    if !mem.status.creating {
      RenamedFlags(db, c, mem, mem.status.(updating := true));
    }
  }

  lemma StatusFrame(db: Db, c: string, mem: ControlPlane, view: Option<ManagedKubernetes>, fault: Fault)
    ensures var (after, m) := StatusReconciled(db, c, mem, view, fault);
            after == db.(kubeconfigs := after.kubeconfigs)
  {
  }

  lemma StatusFlags(db: Db, c: string, mem: ControlPlane, view: Option<ManagedKubernetes>, fault: Fault)
    requires FlagsOk(mem, c, db.kubernetes)
    ensures var (after, m) := StatusReconciled(db, c, mem, view, fault);
            && m.meta == mem.meta && SameControlPlanes(db, after)
            && FlagsOk(m, c, db.kubernetes)
  {
  }

  /** The tail of a pass keeps the flags in order, in memory and for the status still stored. */
  lemma ClusterFlags(db: Db, c: string, mem: ControlPlane, ids: seq<string>, plan: CpPlan)
    requires FlagsOk(mem, c, db.kubernetes) && !mem.meta.Deleting()
    ensures var (after, m) := ClusterReconciled(db, c, mem, ids, plan);
            && m.meta == mem.meta && after.controlPlanes == db.controlPlanes
            && FlagsOk(m, c, after.kubernetes) && FlagsOk(mem, c, after.kubernetes)
            && SameElsewhere(db.kubernetes, after.kubernetes, c)
  {
    KubernetesFlags(db, c, mem, ids, plan.kubernetes);
    var (k, view) := KubernetesReconciled(db, c, mem, ids, plan.kubernetes);
    if k.ok {
      StatusFlags(k.db, c, k.mem, view, plan.kubeconfig);
    }
  }

  lemma PassFlags(db: Db, c: string, plan: CpPlan)
    requires c in db.controlPlanes && !db.controlPlanes[c].meta.Gone() && FlagsOk(db.controlPlanes[c], c, db.kubernetes)
    requires !db.controlPlanes[c].meta.Deleting()
    ensures var (after, m) := PassBody(db, c, plan);
            && c in after.controlPlanes
            && FlagsOk(after.controlPlanes[c], c, after.kubernetes) && FlagsOk(m, c, after.kubernetes)
            && m.meta.deletedAt == None && after.controlPlanes[c].meta.deletedAt == None
            && SameElsewhere(db.kubernetes, after.kubernetes, c)
            && after.controlPlanes == db.controlPlanes[c := after.controlPlanes[c]]
  {
    var cp := db.controlPlanes[c];
    assert db.controlPlanes == db.controlPlanes[c := cp];
    FinalizerAddedFacts(db, c, cp, plan.finalizerFault);
    var a := FinalizerAdded(db, c, cp, plan.finalizerFault);
    if a.ok {
      NetworkLeavesCluster(a.db, a.mem, plan);
      NetworkLeavesOwners(a.db, a.mem, plan);
      var (n, ids) := NetworkReconciled(a.db, a.mem, plan);
      ClusterFlags(n.db, c, n.mem, ids, plan);
    }
  }

  lemma TornDownFrame(db: Db, mem: ControlPlane, plan: CpPlan)
    ensures var (after, m) := TornDown(db, mem, plan);
            && after == db.(vswitches := after.vswitches, vpcs := after.vpcs)
            && m == mem.(meta := mem.meta.(finalizers := m.meta.finalizers))
  {
    RemoveContract(db, mem.spec.vswitches, plan.vswitches);
  }

  /** A pass over a deleting control plane leaves its spec and status alone. */
  lemma DeletedFlags(db: Db, c: string, plan: CpPlan)
    requires c in db.controlPlanes && db.controlPlanes[c].meta.Deleting()
    ensures var (after, m) := PassBody(db, c, plan);
            && m == db.controlPlanes[c].(meta := m.meta) && m.meta.deletedAt == db.controlPlanes[c].meta.deletedAt
            && after.controlPlanes == db.controlPlanes
            && SameElsewhere(db.kubernetes, after.kubernetes, c)
  {
    TornDownFrame(db, db.controlPlanes[c], plan);
  }

  lemma PassKeepsFlags(db: Db, c: string, plan: CpPlan)
    requires c in db.controlPlanes && !db.controlPlanes[c].meta.Gone() && AllFlagsOk(db)
    ensures AllFlagsOk(ControlPlanePass(db, c, plan))
  {
    if plan.readable {
      PassKeepsObject(db, c, plan);
      var (after, m) := PassBody(db, c, plan);
      if db.controlPlanes[c].meta.Deleting() {
        DeletedFlags(db, c, plan);
      } else {
        PassFlags(db, c, plan);
      }
      WrittenFlags(after, c, m, plan);
    }
  }

  lemma WrittenFlags(db: Db, c: string, mem: ControlPlane, plan: CpPlan)
    requires c in db.controlPlanes && mem.meta.deletedAt == db.controlPlanes[c].meta.deletedAt
    requires FlagsOk(mem, c, db.kubernetes) && AllFlagsOk(db)
    ensures AllFlagsOk(WrittenControlPlane(db, c, mem, plan))
  {
    var stored := db.controlPlanes[c];
    TwoPhaseRefinesAtomic(stored, mem, AdmitsUpdate(mem.spec, stored.spec), plan.statusFault, plan.specFault);
  }

  lemma ReportKeepsFlags(db: Db, c: string, finalizers: set<string>, status: KubernetesStatus, parses: CidrParser)
    requires Inv(db, parses) && AllFlagsOk(db) && c in db.kubernetes
    ensures AllFlagsOk(ReportedKubernetes(db, c, finalizers, status))
  {
    assert KubernetesOk(db.log, db.controlPlanes, c, db.kubernetes[c]);
    assert FlagsOk(db.controlPlanes[c], c, db.kubernetes);
  }

  lemma NewControlPlaneFlags(db: Db, c: string, spec: ControlPlaneSpec, parses: CidrParser)
    requires Inv(db, parses) && AllFlagsOk(db) && c !in db.controlPlanes
    ensures AllFlagsOk(CreatedControlPlane(db, c, spec))
  {
    assert c in db.kubernetes ==> KubernetesOk(db.log, db.controlPlanes, c, db.kubernetes[c]);
  }

  lemma UserKeepsFlags(db: Db, e: Event, parses: CidrParser)
    requires AllFlagsOk(db) && (e.UserUpdatesControlPlane? || e.UserDeletesControlPlane?)
    ensures AllFlagsOk(Next(db, e, parses))
  {
    if e.UserUpdatesControlPlane? {
      if e.c in db.controlPlanes {
        assert AllFlagsOk(UpdatedByUser(db, e.c, e.spec));
      }
    } else if e.c in db.controlPlanes {
      assert AllFlagsOk(DeletedControlPlane(db, e.c));
    }
  }

  ghost predicate NoOutsiderDeletesKubernetes(es: seq<Event>)
  {
    forall i :: 0 <= i < |es| ==> !es[i].OutsiderDeletesKubernetes?
  }

  lemma StepKeepsFlags(db: Db, e: Event, parses: CidrParser)
    requires Inv(db, parses) && AllFlagsOk(db) && TouchesControlPlanes(e) && !e.OutsiderDeletesKubernetes?
    ensures AllFlagsOk(Next(db, e, parses))
  {
    if e.ProviderKubernetes? {
      if e.c in db.kubernetes {
        ReportKeepsFlags(db, e.c, e.finalizers, e.kubernetesStatus, parses);
      }
    } else if e.ReconcileControlPlane? {
      if e.c in db.controlPlanes && !db.controlPlanes[e.c].meta.Gone() {
        PassKeepsFlags(db, e.c, e.plan);
      }
    } else if e.UserCreatesControlPlane? {
      if e.c !in db.controlPlanes {
        NewControlPlaneFlags(db, e.c, e.spec, parses);
      }
    } else {
      UserKeepsFlags(db, e, parses);
    }
  }

  /** In every run in which nobody removes a cluster from outside, no control plane is ever
      Creating and Updating at once, and no cluster is being deleted before its control plane. */
  lemma {:induction false} CreatingExcludesUpdating(es: seq<Event>, timeout: nat, parses: CidrParser)
    requires NoOutsiderDeletesKubernetes(es)
    ensures AllFlagsOk(Run(es, timeout, parses))
  {
    if es != [] {
      var before, e := es[..|es| - 1], es[|es| - 1];
      CreatingExcludesUpdating(before, timeout, parses);
      Reachable(before, timeout, parses);
      if TouchesControlPlanes(e) {
        StepKeepsFlags(Run(before, timeout, parses), e, parses);
      } else {
        OtherEventsLeaveControlPlanes(Run(before, timeout, parses), e, parses);
      }
    }
  }

  /******* Ready and the endpoint *******/

  ghost predicate ReadyHasEndpoint(cp: ControlPlane)
  {
    cp.status.ready ==> cp.spec.endpoint.host != ""
  }

  ghost predicate AllReadyHaveEndpoints(db: Db)
  {
    forall c :: c in db.controlPlanes ==> ReadyHasEndpoint(db.controlPlanes[c])
  }

  lemma SameKeys(m: map<string, ControlPlane>, c: string)
    requires c in m
    ensures m == m[c := m[c]]
  {
  }

  lemma PassBodyEndpoint(db: Db, c: string, plan: CpPlan, parses: CidrParser)
    requires Inv(db, parses) && c in db.controlPlanes && ReadyHasEndpoint(db.controlPlanes[c])
    ensures var (after, m) := PassBody(db, c, plan);
            && ReadyHasEndpoint(m)
            && c in after.controlPlanes && after.controlPlanes[c].spec == db.controlPlanes[c].spec
            && after.controlPlanes[c].status == db.controlPlanes[c].status
            && after.controlPlanes == db.controlPlanes[c := after.controlPlanes[c]]
  {
    assert ControlPlaneOk(db.log, db.kubeconfigs, c, db.controlPlanes[c]);
    SameKeys(db.controlPlanes, c);
    if db.controlPlanes[c].meta.Deleting() {
      DeletedFlags(db, c, plan);
    } else {
      assert c in db.kubernetes ==> KubernetesOk(db.log, db.controlPlanes, c, db.kubernetes[c]);
      NormalPassEndpoint(db, c, plan);
    }
  }

  lemma NormalPassEndpoint(db: Db, c: string, plan: CpPlan)
    requires c in db.controlPlanes && ReadyHasEndpoint(db.controlPlanes[c]) && !db.controlPlanes[c].meta.Deleting()
    requires c in db.kubernetes && WouldReport(db.kubernetes[c].status) ==> db.kubernetes[c].status.endpoint.value.host != ""
    ensures var (after, m) := Synced(db, c, db.controlPlanes[c], plan);
            && ReadyHasEndpoint(m)
            && c in after.controlPlanes && after.controlPlanes[c].spec == db.controlPlanes[c].spec
            && after.controlPlanes[c].status == db.controlPlanes[c].status
            && after.controlPlanes == db.controlPlanes[c := after.controlPlanes[c]]
  {
    var cp := db.controlPlanes[c];
    SameKeys(db.controlPlanes, c);
    FinalizerAddedFacts(db, c, cp, plan.finalizerFault);
    var a := FinalizerAdded(db, c, cp, plan.finalizerFault);
    if a.ok {
      SyncedEndpoint(a.db, c, a.mem, plan);
    }
  }

  lemma SyncedEndpoint(db: Db, c: string, mem: ControlPlane, plan: CpPlan)
    requires ReadyHasEndpoint(mem)
    requires c in db.kubernetes && WouldReport(db.kubernetes[c].status) ==> db.kubernetes[c].status.endpoint.value.host != ""
    ensures var (after, m) := NetworkAndClusterReconciled(db, c, mem, plan);
            ReadyHasEndpoint(m) && after.controlPlanes == db.controlPlanes
  {
    NetworkLeavesCluster(db, mem, plan);
    NetworkLeavesOwners(db, mem, plan);
    var (n, ids) := NetworkReconciled(db, mem, plan);
    ClusterEndpoint(n.db, c, n.mem, ids, plan);
  }

  lemma ClusterEndpoint(db: Db, c: string, mem: ControlPlane, ids: seq<string>, plan: CpPlan)
    requires ReadyHasEndpoint(mem)
    requires c in db.kubernetes && WouldReport(db.kubernetes[c].status) ==> db.kubernetes[c].status.endpoint.value.host != ""
    ensures var (after, m) := ClusterReconciled(db, c, mem, ids, plan);
            ReadyHasEndpoint(m) && after.controlPlanes == db.controlPlanes
  {
  }

  /** The pass's second write goes through. */
  ghost predicate Writes(db: Db, e: Event)
  {
    e.ReconcileControlPlane? && e.c in db.controlPlanes ==> !e.plan.specFault.WriteFails? && ReportsRecordedVpc(db, e.c)
  }

  ghost predicate AlwaysWrites(es: seq<Event>, timeout: nat, parses: CidrParser)
  {
    forall i :: 0 <= i < |es| ==> Writes(Run(es[..i], timeout, parses), es[i])
  }

  lemma PassKeepsEndpoints(db: Db, c: string, plan: CpPlan, parses: CidrParser)
    requires Inv(db, parses) && c in db.controlPlanes && !db.controlPlanes[c].meta.Gone() && AllReadyHaveEndpoints(db)
    requires !plan.specFault.WriteFails? && ReportsRecordedVpc(db, c)
    ensures AllReadyHaveEndpoints(ControlPlanePass(db, c, plan))
  {
    if plan.readable {
      PassKeepsObject(db, c, plan);
      PassBodyEndpoint(db, c, plan, parses);
      PassAdmitted(db, c, plan, parses);
      var (after, m) := PassBody(db, c, plan);
      var stored := after.controlPlanes[c];
      TwoPhaseRefinesAtomic(stored, m, AdmitsUpdate(m.spec, stored.spec), plan.statusFault, plan.specFault);
    }
  }

  lemma StepKeepsEndpoints(db: Db, e: Event, parses: CidrParser)
    requires Inv(db, parses) && AllReadyHaveEndpoints(db) && Writes(db, e)
    ensures AllReadyHaveEndpoints(Next(db, e, parses))
  {
    if !TouchesControlPlanes(e) {
      OtherEventsLeaveControlPlanes(db, e, parses);
    } else if e.ReconcileControlPlane? {
      if e.c in db.controlPlanes && !db.controlPlanes[e.c].meta.Gone() {
        PassKeepsEndpoints(db, e.c, e.plan, parses);
      }
    } else {
      UserKeepsEndpoints(db, e, parses);
    }
  }

  /** In every run whose passes get their second write through, a Ready control plane has a
      recorded endpoint. */
  lemma {:induction false} ReadyComesWithEndpoint(es: seq<Event>, timeout: nat, parses: CidrParser)
    requires AlwaysWrites(es, timeout, parses)
    ensures AllReadyHaveEndpoints(Run(es, timeout, parses))
  {
    if es != [] {
      var before, e := es[..|es| - 1], es[|es| - 1];
      assert AlwaysWrites(before, timeout, parses) by {
        assert forall i :: 0 <= i < |before| ==> before[..i] == es[..i] && before[i] == es[i];
      }
      ReadyComesWithEndpoint(before, timeout, parses);
      Reachable(before, timeout, parses);
      StepKeepsEndpoints(Run(before, timeout, parses), e, parses);
    }
  }

  lemma UserKeepsEndpoints(db: Db, e: Event, parses: CidrParser)
    requires AllReadyHaveEndpoints(db) && TouchesControlPlanes(e) && !e.ReconcileControlPlane?
    ensures AllReadyHaveEndpoints(Next(db, e, parses))
  {
    match e
    case UserCreatesControlPlane(c, spec) =>
      if c !in db.controlPlanes {
        assert AllReadyHaveEndpoints(CreatedControlPlane(db, c, spec));
      }
    case UserUpdatesControlPlane(c, spec) =>
      if c in db.controlPlanes && UserMayUpdate(spec, db.controlPlanes[c].spec) {
        assert AllReadyHaveEndpoints(UpdatedByUser(db, c, spec));
      }
    case _ =>
  }

  /** The condition is exact: a pass that finds its control plane without an endpoint and ends
      Ready stores Ready without the endpoint if and only if the status write succeeds and the
      second write fails, or is refused because another VPC is reported than is recorded. */
  lemma ReadyWithoutEndpoint(db: Db, c: string, plan: CpPlan, parses: CidrParser)
    requires Inv(db, parses) && c in db.controlPlanes && plan.readable
    requires !db.controlPlanes[c].status.ready && db.controlPlanes[c].spec.endpoint.host == ""
    requires PassBody(db, c, plan).1.status.ready
    ensures var after := ControlPlanePass(db, c, plan);
            && c in after.controlPlanes
            && (!ReadyHasEndpoint(after.controlPlanes[c]) <==>
                  !plan.statusFault.WriteFails? && (plan.specFault.WriteFails? || !ReportsRecordedVpc(db, c)))
  {
    var cp := db.controlPlanes[c];
    assert ControlPlaneOk(db.log, db.kubeconfigs, c, cp);
    PassKeepsObject(db, c, plan);
    PassBodyEndpoint(db, c, plan, parses);
    var (after, m) := PassBody(db, c, plan);
    var stored := after.controlPlanes[c];
    ReadyIsAdmittedExactly(db, c, plan, parses);
    TwoPhaseRefinesAtomic(stored, m, AdmitsUpdate(m.spec, stored.spec), plan.statusFault, plan.specFault);
    assert m.meta.deletedAt == None && stored.meta.deletedAt == None by {
      ReadyPassIsNormal(db, c, plan);
    }
  }

  /** The in-memory object says exactly what the provider reports about its cluster. */
  ghost predicate RecordsReport(m: ControlPlane, s: KubernetesStatus)
  {
    && s.ready && s.endpoint.Some?
    && m.status.clusterId == s.id && m.spec.endpoint == s.endpoint.value
    && (m.spec.vpc.name != "" ==> m.spec.vpc.resourceId == s.vpcId)
    && !m.status.creating && !m.status.updating
  }

  /** A pass that turns its control plane Ready is one over a live object whose cluster existed
      before, and records the id, the endpoint and the VPC the provider reports. */
  lemma ReadyPassIsNormal(db: Db, c: string, plan: CpPlan)
    requires c in db.controlPlanes && !db.controlPlanes[c].meta.Gone() && !db.controlPlanes[c].status.ready
    requires PassBody(db, c, plan).1.status.ready
    ensures var (after, m) := PassBody(db, c, plan);
            && !db.controlPlanes[c].meta.Deleting() && c in after.controlPlanes
            && m.meta.deletedAt == None && after.controlPlanes[c].meta.deletedAt == None
            && c in db.kubernetes && RecordsReport(m, db.kubernetes[c].status)
            && m.spec.vpc.name == db.controlPlanes[c].spec.vpc.name
  {
    var cp := db.controlPlanes[c];
    if cp.meta.Deleting() {
      DeletedFlags(db, c, plan);
    } else {
      FinalizerAddedFacts(db, c, cp, plan.finalizerFault);
      var a := FinalizerAdded(db, c, cp, plan.finalizerFault);
      NetworkLeavesCluster(a.db, a.mem, plan);
      NetworkLeavesOwners(a.db, a.mem, plan);
      var (n, ids) := NetworkReconciled(a.db, a.mem, plan);
      assert n.mem.spec.vpc.name == cp.spec.vpc.name;
      ClusterReady(n.db, c, n.mem, ids, plan);
    }
  }

  lemma ClusterReady(db: Db, c: string, mem: ControlPlane, ids: seq<string>, plan: CpPlan)
    requires !mem.status.ready
    ensures var (after, m) := ClusterReconciled(db, c, mem, ids, plan);
            && m.meta == mem.meta && after.controlPlanes == db.controlPlanes && m.spec.vpc.name == mem.spec.vpc.name
            && (m.status.ready <==> plan.kubernetes.Works? && c in db.kubernetes && WouldReport(db.kubernetes[c].status))
            && (m.status.ready ==> RecordsReport(m, db.kubernetes[c].status))
  {
    var (k, view) := KubernetesReconciled(db, c, mem, ids, plan.kubernetes);
    assert k.mem == mem.(status := k.mem.status) && k.db.controlPlanes == db.controlPlanes && !k.mem.status.ready;
    assert view.Some? ==> c in db.kubernetes && view.value.status == db.kubernetes[c].status;
    if k.ok {
      StatusReady(k.db, c, k.mem, view, plan.kubeconfig);
    }
  }

  lemma StatusReady(db: Db, c: string, mem: ControlPlane, view: Option<ManagedKubernetes>, fault: Fault)
    ensures var (after, m) := StatusReconciled(db, c, mem, view, fault);
            && m.meta == mem.meta && after.controlPlanes == db.controlPlanes && m.spec.vpc.name == mem.spec.vpc.name
            && (m.status.ready <==> view.Some? && WouldReport(view.value.status))
            && (m.status.ready ==> RecordsReport(m, view.value.status))
  {
  }

  /** Once the network is complete and the finalizer stored, a pass in which the calls on the
      cluster succeed ends Ready if and only if the cluster existed and is reported ready with an
      endpoint, whatever the control plane said before. */
  lemma ReadyExactly(db: Db, c: string, plan: CpPlan)
    requires c in db.controlPlanes && !db.controlPlanes[c].meta.Deleting() && HasNetwork(db.controlPlanes[c])
    requires plan.infrastructureReady && !plan.providerConfigFails && plan.kubernetes.Works?
    ensures PassBody(db, c, plan).1.status.ready <==> c in db.kubernetes && WouldReport(db.kubernetes[c].status)
  {
    var cp := db.controlPlanes[c];
    SettledNetwork(db, cp, plan);
    assert PassBody(db, c, plan) == ClusterReconciled(db, c, cp, CloudIds(cp.spec.vswitches, |cp.spec.vswitches|), plan);
  }

  predicate HasNetwork(cp: ControlPlane)
  {
    && CONTROL_PLANE_FINALIZER in cp.meta.finalizers
    && (forall k :: 0 <= k < |cp.spec.vswitches| ==> Complete(cp.spec.vswitches[k]))
    && SettledVpc(cp.spec.vpc)
  }

  lemma ReadyIsAdmittedExactly(db: Db, c: string, plan: CpPlan, parses: CidrParser)
    requires Inv(db, parses) && c in db.controlPlanes && !db.controlPlanes[c].status.ready
    requires PassBody(db, c, plan).1.status.ready
    ensures AdmitsUpdate(PassBody(db, c, plan).1.spec, db.controlPlanes[c].spec) <==> ReportsRecordedVpc(db, c)
  {
    assert ControlPlaneOk(db.log, db.kubeconfigs, c, db.controlPlanes[c]);
    ReadyPassIsNormal(db, c, plan);
    if ReportsRecordedVpc(db, c) {
      PassAdmitted(db, c, plan, parses);
    }
  }

  lemma ReadyClusterPass(plan: CpPlan)
    requires plan.infrastructureReady && !plan.providerConfigFails && plan.kubernetes.Works?
    ensures var db := ReadyCluster(); PassBody(db, "c", plan).1.status.ready && ReportsRecordedVpc(db, "c")
  {
    var db := ReadyCluster();
    var cp := db.controlPlanes["c"];
    FirstIncompleteIs(cp.spec.vswitches, 1);
    assert NetworkReconciled(db, cp, plan).0 == Step(db, cp, true);
  }

  /** A store in order, with a cluster that has just become ready and a pass whose second write
      fails: the control plane is stored Ready without an endpoint. */
  lemma ReadyCanLackEndpoint(parses: CidrParser)
    ensures exists db, plan :: Inv(db, parses) && LosesEndpoint(db, "c", plan)
  {
    var plan := CpPlan(true, true, Works, false, Works, _ => Works, Works, Works, Works, WriteFails);
    ReadyClusterOk(parses);
    ReadyClusterPass(plan);
    ReadyWithoutEndpoint(ReadyCluster(), "c", plan, parses);
    assert LosesEndpoint(ReadyCluster(), "c", plan);
  }

  ghost predicate LosesEndpoint(db: Db, c: string, plan: CpPlan)
  {
    && c in db.controlPlanes && !db.controlPlanes[c].meta.Gone() && ReadyHasEndpoint(db.controlPlanes[c])
    && c in ControlPlanePass(db, c, plan).controlPlanes
    && !ReadyHasEndpoint(ControlPlanePass(db, c, plan).controlPlanes[c])
  }

  function ReadyCluster(): Db
  {
    var owner := OwnerRef(ControlPlaneKind, 1);
    var spec := ControlPlaneSpec("c", "region", VPC("vpc", "", "", NO_UID, ""),
                                 [VSwitch("vsw", "", "", NO_UID, "", "")], Endpoint("", 0));
    var cp := Stored(Meta(1, [], None, {CONTROL_PLANE_FINALIZER}), 0, spec, ControlPlaneStatus(false, false, "", true, false));
    var k := ManagedKubernetes(Meta(2, [owner], None, {}), "c", ["vsw"],
                               KubernetesStatus(true, "id", "vpc", Some(Endpoint("host", 6443))));
    Empty(0).(nextUid := 3, log := map[1 := Birth(ControlPlaneKind, "c", []), 2 := Birth(KubernetesKind, "c", [owner])],
              controlPlanes := map["c" := cp], kubernetes := map["c" := k])
  }

  lemma ReadyClusterOk(parses: CidrParser)
    ensures Inv(ReadyCluster(), parses)
  {
    var db := ReadyCluster();
    assert ControlPlaneOk(db.log, db.kubeconfigs, "c", db.controlPlanes["c"]);
    assert KubernetesOk(db.log, db.controlPlanes, "c", db.kubernetes["c"]);
  }
}
