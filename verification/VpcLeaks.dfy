/** Which VPC a deleted control plane leaves behind: at most the one its spec names, and exactly
    when its ResourceID was not recorded and it was live when the finalizer was given up. */
module VpcLeaks {
  import opened Wrappers
  import opened CommonApi
  import opened ApiServer
  import opened ClusterNames
  import opened ControlPlaneWebhook
  import opened VswitchReconcile
  import opened VswitchFacts
  import opened VpcReconcile
  import opened WriteBack
  import opened ControlPlaneController
  import opened MachinePoolController
  import opened Collectors
  import opened Runs
  import opened Invariant
  import opened ControlPlaneResults
  import opened ControlPlaneRuns
  import opened RunTheorems
  import opened Teardown
  import opened History
  import opened DeletionMeasure
  import opened DeletionProgress

  /******* One VPC per control plane *******/

  /** Every VPC was created for a known control plane, under the name that one's spec gives, and
      is the only one of its owner. */
  ghost predicate VpcsOk(log: Log, controlPlanes: map<string, ControlPlane>, vpcs: map<string, Vpc>)
  {
    && (forall n :: n in vpcs ==> vpcs[n].meta.owners != [] && vpcs[n].meta.owners[0].uid in log)
    && (forall n, c :: n in vpcs && c in controlPlanes && BelongsTo(vpcs[n].meta, Self(controlPlanes[c])) ==>
          controlPlanes[c].spec.vpc.name == n)
    && (forall n, m :: n in vpcs && m in vpcs && vpcs[n].meta.owners != [] && BelongsTo(vpcs[m].meta, vpcs[n].meta.owners[0]) ==>
          n == m)
  }

  /** VPCs may have left, but none has come or changed hands. */
  ghost predicate OnlyLeave(before: map<string, Vpc>, after: map<string, Vpc>)
  {
    forall n :: n in after ==> n in before && after[n].meta.owners == before[n].meta.owners
  }

  /** Control planes keep their uid and their VPC's name, and new ones have new uids. */
  ghost predicate KeepNames(log: Log, before: map<string, ControlPlane>, after: map<string, ControlPlane>)
  {
    forall c :: c in after ==>
      || after[c].meta.uid !in log
      || (c in before && after[c].meta.uid == before[c].meta.uid && after[c].spec.vpc.name == before[c].spec.vpc.name)
  }

  lemma VpcsLeave(log: Log, later: Log, cps: map<string, ControlPlane>, cpsLater: map<string, ControlPlane>,
                  vpcs: map<string, Vpc>, vpcsLater: map<string, Vpc>)
    requires VpcsOk(log, cps, vpcs) && LogGrows(log, later) && KeepNames(log, cps, cpsLater) && OnlyLeave(vpcs, vpcsLater)
    ensures VpcsOk(later, cpsLater, vpcsLater)
  {
  }

  /** The one VPC that a pass may add. */
  ghost predicate AddsOwn(db: Db, later: Db, c: string)
    requires c in db.controlPlanes
  {
    var n := db.controlPlanes[c].spec.vpc.name;
    && n !in db.vpcs && n in later.vpcs && later.vpcs[n].meta.owners == [Self(db.controlPlanes[c])]
    && OnlyLeave(db.vpcs, later.vpcs - {n})
  }

  lemma OneMore(log: Log, cps: map<string, ControlPlane>, vpcs: map<string, Vpc>, n: string, o: OwnerRef)
    requires VpcsOk(log, cps, vpcs - {n}) && n in vpcs && vpcs[n].meta.owners == [o] && o.uid in log
    requires forall c :: c in cps && Self(cps[c]) == o ==> cps[c].spec.vpc.name == n
    requires forall m :: m in vpcs && m != n ==> !BelongsTo(vpcs[m].meta, o)
    ensures VpcsOk(log, cps, vpcs)
  {
    var others := vpcs - {n};
    assert forall m :: m in vpcs && m != n ==> m in others && others[m] == vpcs[m];
  }

  lemma VpcAdded(db: Db, later: Db, c: string, parses: CidrParser)
    requires Inv(db, parses) && VpcsOk(db.log, db.controlPlanes, db.vpcs) && c in db.controlPlanes
    requires LogGrows(db.log, later.log) && KeepNames(db.log, db.controlPlanes, later.controlPlanes) && AddsOwn(db, later, c)
    ensures VpcsOk(later.log, later.controlPlanes, later.vpcs)
  {
    var cp, n := db.controlPlanes[c], db.controlPlanes[c].spec.vpc.name;
    assert ControlPlaneOk(db.log, db.kubeconfigs, c, cp);
    VpcsLeave(db.log, later.log, db.controlPlanes, later.controlPlanes, db.vpcs, later.vpcs - {n});
    forall d | d in later.controlPlanes && Self(later.controlPlanes[d]) == Self(cp)
      ensures later.controlPlanes[d].spec.vpc.name == n
    {
      assert ControlPlaneOk(db.log, db.kubeconfigs, d, db.controlPlanes[d]);
    }
    forall m | m in later.vpcs && m != n ensures !BelongsTo(later.vpcs[m].meta, Self(cp)) {
      assert m in later.vpcs - {n} && m in db.vpcs;
      assert BelongsTo(db.vpcs[m].meta, Self(cp)) ==> m == n;
    }
    OneMore(later.log, later.controlPlanes, later.vpcs, n, Self(cp));
  }

  /******* Every step *******/

  lemma BodyKeepsVpcName(db: Db, c: string, mem: ControlPlane, plan: CpPlan)
    ensures NetworkAndClusterReconciled(db, c, mem, plan).1.spec.vpc.name == mem.spec.vpc.name
  {
    var (n, ids) := NetworkReconciled(db, mem, plan);
    assert n.mem.spec.vpc.name == mem.spec.vpc.name;
    ClusterKeepsVpcName(n.db, c, n.mem, ids, plan);
  }

  lemma ClusterKeepsVpcName(db: Db, c: string, mem: ControlPlane, ids: seq<string>, plan: CpPlan)
    ensures var (after, m) := ClusterReconciled(db, c, mem, ids, plan);
            m.spec.vpc.name == mem.spec.vpc.name && after.vpcs == db.vpcs
  {
    var (k, view) := KubernetesReconciled(db, c, mem, ids, plan.kubernetes);
    assert k.mem.spec == mem.spec && k.db.vpcs == db.vpcs;
    StatusFrame(k.db, c, k.mem, view, plan.kubeconfig);
  }

  lemma PassKeepsNames(db: Db, c: string, plan: CpPlan)
    requires c in db.controlPlanes && !db.controlPlanes[c].meta.Gone()
    ensures KeepNames(db.log, db.controlPlanes, ControlPlanePass(db, c, plan).controlPlanes)
  {
    if plan.readable {
      var cp := db.controlPlanes[c];
      PassKeepsObject(db, c, plan);
      PassOwnObject(db, c, plan);
      var (after, m) := PassBody(db, c, plan);
      assert m.spec.vpc.name == cp.spec.vpc.name by {
        if cp.meta.Deleting() {
          DeletedOrder(db, c, plan);
        } else {
          FinalizerAddedFacts(db, c, cp, plan.finalizerFault);
          var a := FinalizerAdded(db, c, cp, plan.finalizerFault);
          BodyKeepsVpcName(a.db, c, a.mem, plan);
        }
      }
      var stored := after.controlPlanes[c];
      TwoPhaseRefinesAtomic(stored, m, AdmitsUpdate(m.spec, stored.spec), plan.statusFault, plan.specFault);
    }
  }

  lemma ReconciledVpcs(db: Db, owner: OwnerRef, vpc: VPC, fault: Fault)
    ensures var after := ReconciledVpc(db, owner, vpc, fault).db;
            after.vpcs == db.vpcs || (vpc.name !in db.vpcs && after.vpcs == CreateVpc(db, vpc.name, [owner], vpc.cidrBlock).vpcs)
  {
  }

  lemma NetworkVpcs(db: Db, c: string, mem: ControlPlane, plan: CpPlan)
    ensures var after := NetworkAndClusterReconciled(db, c, mem, plan).0;
            || after.vpcs == db.vpcs
            || (mem.spec.vpc.name !in db.vpcs &&
                after.vpcs == CreateVpc(db, mem.spec.vpc.name, [Self(mem)], mem.spec.vpc.cidrBlock).vpcs)
  {
    ReconciledVpcs(db, Self(mem), mem.spec.vpc, plan.vpc);
    var v := ReconciledVpc(db, Self(mem), mem.spec.vpc, plan.vpc);
    PassContract(v.db, Self(mem), v.id, mem.spec.vswitches, plan.vswitches);
    var (n, ids) := NetworkReconciled(db, mem, plan);
    assert n.db.vpcs == v.db.vpcs;
    ClusterKeepsVpcName(n.db, c, n.mem, ids, plan);
  }

  /** A normal pass leaves the stored VPCs alone; it may add the owner's own. */
  lemma SyncedVpcs(db: Db, c: string, plan: CpPlan)
    requires c in db.controlPlanes && !db.controlPlanes[c].meta.Gone() && !db.controlPlanes[c].meta.Deleting()
    ensures var after := ControlPlanePass(db, c, plan);
            after.vpcs == db.vpcs || (AddsOwn(db, after, c) && after.vpcs - {db.controlPlanes[c].spec.vpc.name} == db.vpcs)
  {
    if plan.readable {
      var cp := db.controlPlanes[c];
      PassKeepsObject(db, c, plan);
      FinalizerAddedFacts(db, c, cp, plan.finalizerFault);
      var a := FinalizerAdded(db, c, cp, plan.finalizerFault);
      NetworkVpcs(a.db, c, a.mem, plan);
      assert ControlPlanePass(db, c, plan).vpcs == PassBody(db, c, plan).0.vpcs;
    }
  }

  /** What a deletion step may do to the VPCs. */
  ghost predicate DeletesOnly(before: map<string, Vpc>, after: map<string, Vpc>, vpc: VPC)
  {
    && OnlyLeave(before, after)
    && (vpc.resourceId == "" ==> after == before)
    && (forall n :: n != vpc.name && n in before ==> n in after && after[n] == before[n])
  }

  lemma DeletedVpcs(db: Db, c: string, cp: ControlPlane, plan: CpPlan)
    ensures DeletesOnly(db.vpcs, Deleted(db, c, cp, plan).0.vpcs, cp.spec.vpc)
  {
    RemoveContract(db, cp.spec.vswitches, plan.vswitches);
    RemovedVpcVpcs(RemovePass(db, cp.spec.vswitches, plan.vswitches).db, cp.spec.vpc, plan.vpc);
  }

  /** A deleting pass leaves all VPCs alone but the one its spec names, and that one too if no
      ResourceID is recorded. */
  lemma DeletingVpcs(db: Db, c: string, plan: CpPlan)
    requires c in db.controlPlanes && !db.controlPlanes[c].meta.Gone() && db.controlPlanes[c].meta.Deleting()
    ensures DeletesOnly(db.vpcs, ControlPlanePass(db, c, plan).vpcs, db.controlPlanes[c].spec.vpc)
  {
    if plan.readable {
      PassKeepsObject(db, c, plan);
      DeletedVpcs(db, c, db.controlPlanes[c], plan);
    }
  }

  lemma RemovedVpcVpcs(db: Db, vpc: VPC, fault: Fault)
    ensures DeletesOnly(db.vpcs, RemovedVpc(db, vpc, fault).db.vpcs, vpc)
  {
    if vpc.name in db.vpcs {
      var v := db.vpcs[vpc.name];
      PutOnlyLeaves(db, vpc.name, v.(meta := MarkDeleted(db, v.meta)));
    }
  }

  lemma PassKeepsVpcs(db: Db, c: string, plan: CpPlan, parses: CidrParser)
    requires Inv(db, parses) && VpcsOk(db.log, db.controlPlanes, db.vpcs)
    requires c in db.controlPlanes && !db.controlPlanes[c].meta.Gone()
    ensures var after := ControlPlanePass(db, c, plan); VpcsOk(after.log, after.controlPlanes, after.vpcs)
  {
    var after := ControlPlanePass(db, c, plan);
    PassExtends(db, c, plan);
    PassKeepsNames(db, c, plan);
    if db.controlPlanes[c].meta.Deleting() {
      DeletingVpcs(db, c, plan);
    } else {
      SyncedVpcs(db, c, plan);
    }
    if c in db.controlPlanes && AddsOwn(db, after, c) {
      VpcAdded(db, after, c, parses);
    } else {
      VpcsLeave(db.log, after.log, db.controlPlanes, after.controlPlanes, db.vpcs, after.vpcs);
    }
  }

  predicate TouchesVpcs(e: Event)
  {
    e.ReconcileControlPlane? || e.ProviderVpc? || e.CleanVpc? || e.OutsiderDeletesVpc?
  }

  lemma PutOnlyLeaves(db: Db, n: string, v: Vpc)
    requires n in db.vpcs && v.meta.owners == db.vpcs[n].meta.owners
    ensures OnlyLeave(db.vpcs, PutVpc(db, n, v).vpcs)
  {
  }

  lemma VpcEventsOnlyLeave(db: Db, e: Event, parses: CidrParser)
    requires e.ProviderVpc? || e.CleanVpc? || e.OutsiderDeletesVpc?
    ensures OnlyLeave(db.vpcs, Next(db, e, parses).vpcs)
  {
    if e.n in db.vpcs {
      var v := db.vpcs[e.n];
      if e.ProviderVpc? {
        PutOnlyLeaves(db, e.n, v.(meta := v.meta.(finalizers := e.finalizers), cloudId := e.cloudId, messages := e.messages));
      } else if e.CleanVpc? {
        PutOnlyLeaves(db, e.n, v.(meta := WithoutFinalizer(v.meta, MANAGED_FINALIZER)));
      } else {
        PutOnlyLeaves(db, e.n, v.(meta := MarkDeleted(db, v.meta)));
      }
    }
  }

  lemma ReportsLeaveVpcs(db: Db, e: Event, parses: CidrParser)
    requires e.ProviderVswitch? || e.ProviderKubernetes? || e.ProviderNodePool? || e.Tick?
    ensures Next(db, e, parses).vpcs == db.vpcs
  {
  }

  lemma OutsidersLeaveVpcs(db: Db, e: Event, parses: CidrParser)
    requires e.OutsiderCreatesVswitch? || e.OutsiderDeletesVswitch? || e.OutsiderDeletesKubernetes?
             || e.OutsiderDeletesNodePool?
    ensures Next(db, e, parses).vpcs == db.vpcs
  {
  }

  lemma UsersLeaveVpcs(db: Db, e: Event, parses: CidrParser)
    requires e.UserCreatesControlPlane? || e.UserUpdatesControlPlane? || e.UserDeletesControlPlane?
             || e.UserCreatesPool? || e.UserUpdatesPool? || e.UserDeletesPool?
    ensures Next(db, e, parses).vpcs == db.vpcs
  {
  }

  lemma OtherEventsLeaveVpcs(db: Db, e: Event, parses: CidrParser)
    requires !TouchesVpcs(e)
    ensures Next(db, e, parses).vpcs == db.vpcs
  {
    if e.ReconcilePool? {
      if e.p in db.pools && !db.pools[e.p].meta.Gone() {
        PoolPassFrame(db, e.p, parses, e.poolPlan);
      }
    } else if e.CollectVswitch? {
      CollectionFrame(db, e.n, e.collectPlan);
    } else if e.ProviderVswitch? || e.ProviderKubernetes? || e.ProviderNodePool? || e.Tick? {
      ReportsLeaveVpcs(db, e, parses);
    } else if e.OutsiderCreatesVswitch? || e.OutsiderDeletesVswitch? || e.OutsiderDeletesKubernetes?
              || e.OutsiderDeletesNodePool? {
      OutsidersLeaveVpcs(db, e, parses);
    } else {
      UsersLeaveVpcs(db, e, parses);
    }
  }

  lemma UserKeepsNames(db: Db, e: Event, parses: CidrParser)
    requires LogOk(db) && (e.UserCreatesControlPlane? || e.UserUpdatesControlPlane? || e.UserDeletesControlPlane?)
    ensures KeepNames(db.log, db.controlPlanes, Next(db, e, parses).controlPlanes)
  {
    if Next(db, e, parses) != db {
      match e
      case UserCreatesControlPlane(c, spec) => assert Next(db, e, parses) == CreatedControlPlane(db, c, spec);
      case UserUpdatesControlPlane(c, spec) => assert Next(db, e, parses) == UpdatedByUser(db, c, spec);
      case UserDeletesControlPlane(c) => assert Next(db, e, parses) == DeletedControlPlane(db, c);
    }
  }

  lemma OtherEventsKeepNames(db: Db, e: Event, parses: CidrParser)
    requires LogOk(db) && !e.ReconcileControlPlane?
    ensures KeepNames(db.log, db.controlPlanes, Next(db, e, parses).controlPlanes)
  {
    if !TouchesControlPlanes(e) {
      OtherEventsLeaveControlPlanes(db, e, parses);
    } else if e.UserCreatesControlPlane? || e.UserUpdatesControlPlane? || e.UserDeletesControlPlane? {
      UserKeepsNames(db, e, parses);
    }
  }

  lemma StepKeepsVpcs(db: Db, e: Event, parses: CidrParser)
    requires Inv(db, parses) && VpcsOk(db.log, db.controlPlanes, db.vpcs)
    ensures var later := Next(db, e, parses); VpcsOk(later.log, later.controlPlanes, later.vpcs)
  {
    var later := Next(db, e, parses);
    if e.ReconcileControlPlane? {
      if e.c in db.controlPlanes && !db.controlPlanes[e.c].meta.Gone() {
        PassKeepsVpcs(db, e.c, e.plan, parses);
      }
    } else {
      StepExtends(db, e, parses);
      OtherEventsKeepNames(db, e, parses);
      if TouchesVpcs(e) {
        VpcEventsOnlyLeave(db, e, parses);
      } else {
        OtherEventsLeaveVpcs(db, e, parses);
      }
      VpcsLeave(db.log, later.log, db.controlPlanes, later.controlPlanes, db.vpcs, later.vpcs);
    }
  }

  lemma {:induction false} VpcsReachable(es: seq<Event>, timeout: nat, parses: CidrParser)
    ensures var db := Run(es, timeout, parses); VpcsOk(db.log, db.controlPlanes, db.vpcs)
  {
    if es != [] {
      VpcsReachable(es[..|es| - 1], timeout, parses);
      Reachable(es[..|es| - 1], timeout, parses);
      StepKeepsVpcs(Run(es[..|es| - 1], timeout, parses), es[|es| - 1], parses);
    }
  }

  /** In every run no owner ever has two VPCs. */
  lemma AtMostOneVpc(es: seq<Event>, timeout: nat, parses: CidrParser, o: OwnerRef)
    ensures |OwnedVpcs(Run(es, timeout, parses), o)| <= 1
  {
    VpcsReachable(es, timeout, parses);
    var db := Run(es, timeout, parses);
    if OwnedVpcs(db, o) != {} {
      var n :| n in OwnedVpcs(db, o);
      SmallerSet(OwnedVpcs(db, o), {n});
    }
  }

  /******* When it leaks *******/

  lemma ReleaseVpcs(db: Db, c: string, plan: CpPlan, parses: CidrParser)
    requires Inv(db, parses) && VpcsOk(db.log, db.controlPlanes, db.vpcs)
    requires HoldsFinalizer(db, c) && db.controlPlanes[c].meta.Deleting()
    requires ChildrenGoing(ControlPlanePass(db, c, plan), c, db.controlPlanes[c].spec)
    ensures var o := Self(db.controlPlanes[c]);
            LiveVpcs(ControlPlanePass(db, c, plan), o) != {} <==>
            db.controlPlanes[c].spec.vpc.resourceId == "" && LiveVpcs(db, o) != {}
  {
    var cp, after := db.controlPlanes[c], ControlPlanePass(db, c, plan);
    DeletingVpcs(db, c, plan);
    if cp.spec.vpc.resourceId == "" {
      assert LiveVpcs(after, Self(cp)) == LiveVpcs(db, Self(cp));
    } else {
      forall n | n in after.vpcs && BelongsTo(after.vpcs[n].meta, Self(cp)) ensures after.vpcs[n].meta.Deleting() {
        assert BelongsTo(db.vpcs[n].meta, Self(cp));
      }
      assert LiveVpcs(after, Self(cp)) == {};
    }
  }

  /** In every run, when a control plane's finalizer goes, a live VPC of its own stays behind if and
      only if there was one and its ResourceID was not recorded. */
  lemma ReleaseLeaksExactly(es: seq<Event>, timeout: nat, parses: CidrParser, e: Event, c: string)
    requires HoldsFinalizer(Run(es, timeout, parses), c)
    requires !HoldsFinalizer(Next(Run(es, timeout, parses), e, parses), c)
    ensures var db := Run(es, timeout, parses);
            var o := Self(db.controlPlanes[c]);
            LiveVpcs(Next(db, e, parses), o) != {} <==>
            db.controlPlanes[c].spec.vpc.resourceId == "" && LiveVpcs(db, o) != {}
  {
    var db := Run(es, timeout, parses);
    Reachable(es, timeout, parses);
    VpcsReachable(es, timeout, parses);
    FinalizerGoesLast(es, timeout, parses, e, c);
    assert ControlPlaneOk(db.log, db.kubeconfigs, c, db.controlPlanes[c]);
    ReleaseVpcs(db, c, e.plan, parses);
  }

  /** The event asks for the deletion of the VPC: from outside, or as the deleting pass of a control
      plane that names it and has a ResourceID recorded. */
  ghost predicate Removes(db: Db, e: Event, n: string)
  {
    || e == OutsiderDeletesVpc(n)
    || (&& e.ReconcileControlPlane? && e.c in db.controlPlanes && db.controlPlanes[e.c].meta.Deleting()
        && db.controlPlanes[e.c].spec.vpc.name == n && db.controlPlanes[e.c].spec.vpc.resourceId != "")
  }

  lemma LeakStays(db: Db, e: Event, parses: CidrParser, n: string, o: OwnerRef)
    requires n in LiveVpcs(db, o) && !Removes(db, e, n)
    ensures n in LiveVpcs(Next(db, e, parses), o)
  {
    if e.ReconcileControlPlane? {
      if e.c in db.controlPlanes && !db.controlPlanes[e.c].meta.Gone() {
        if db.controlPlanes[e.c].meta.Deleting() {
          DeletingVpcs(db, e.c, e.plan);
        } else {
          SyncedVpcs(db, e.c, e.plan);
        }
      }
    } else if !TouchesVpcs(e) {
      OtherEventsLeaveVpcs(db, e, parses);
    } else {
      VpcEventKeepsLive(db, e, parses, n, o);
    }
  }

  lemma VpcEventKeepsLive(db: Db, e: Event, parses: CidrParser, n: string, o: OwnerRef)
    requires n in LiveVpcs(db, o) && (e.ProviderVpc? || e.CleanVpc? || e.OutsiderDeletesVpc?) && e != OutsiderDeletesVpc(n)
    ensures n in LiveVpcs(Next(db, e, parses), o)
  {
  }

  ghost predicate NobodyRemoves(es: seq<Event>, fs: seq<Event>, timeout: nat, parses: CidrParser, n: string)
  {
    forall i :: 0 <= i < |fs| ==> !Removes(Run(es + fs[..i], timeout, parses), fs[i], n)
  }

  /** Live VPCs of a dying owner only become fewer, and one that nobody removes stays. */
  lemma {:induction false} LiveVpcsLater(es: seq<Event>, fs: seq<Event>, timeout: nat, parses: CidrParser, n: string,
                                         o: OwnerRef)
    requires Dying(Run(es, timeout, parses), o) && NobodyRemoves(es, fs, timeout, parses, n)
    ensures Dying(Run(es + fs, timeout, parses), o)
    ensures LiveVpcs(Run(es + fs, timeout, parses), o) <= LiveVpcs(Run(es, timeout, parses), o)
    ensures n in LiveVpcs(Run(es, timeout, parses), o) ==> n in LiveVpcs(Run(es + fs, timeout, parses), o)
  {
    if fs == [] {
      assert es + fs == es;
    } else {
      var front, last := fs[..|fs| - 1], fs[|fs| - 1];
      assert NobodyRemoves(es, front, timeout, parses, n) by {
        assert forall i :: 0 <= i < |front| ==> front[..i] == fs[..i] && front[i] == fs[i];
      }
      LiveVpcsLater(es, front, timeout, parses, n, o);
      var db := Run(es + front, timeout, parses);
      assert (es + fs)[..|es + fs| - 1] == es + front && (es + fs)[|es + fs| - 1] == last;
      Reachable(es + front, timeout, parses);
      DyingForever(db, last, parses, o);
      EveryStepIsQuiet(db, last, parses, o);
      QuietLowers(db, Next(db, last, parses), o);
      if n in LiveVpcs(db, o) {
        assert !Removes(db, last, n);
        LeakStays(db, last, parses, n, o);
      }
    }
  }

  lemma DeletingIsDying(db: Db, c: string, parses: CidrParser)
    requires Inv(db, parses) && c in db.controlPlanes && db.controlPlanes[c].meta.Deleting()
    ensures Dying(db, Self(db.controlPlanes[c]))
  {
    assert ControlPlaneOk(db.log, db.kubeconfigs, c, db.controlPlanes[c]);
    forall d | d in db.controlPlanes && Self(db.controlPlanes[d]) == Self(db.controlPlanes[c]) ensures d == c {
      assert ControlPlaneOk(db.log, db.kubeconfigs, d, db.controlPlanes[d]);
    }
  }

  /** In every continuation of every run after a control plane's finalizer went, as long as nobody
      else removes it, exactly one VPC is left over if the ResourceID was unrecorded and the VPC
      live at that moment, and none otherwise. */
  lemma LeaksExactly(es: seq<Event>, e: Event, fs: seq<Event>, timeout: nat, parses: CidrParser, c: string)
    requires HoldsFinalizer(Run(es, timeout, parses), c) && !HoldsFinalizer(Run(es + [e], timeout, parses), c)
    requires NobodyRemoves(es + [e], fs, timeout, parses, Run(es, timeout, parses).controlPlanes[c].spec.vpc.name)
    ensures var db := Run(es, timeout, parses);
            var o := Self(db.controlPlanes[c]);
            |LiveVpcs(Run(es + [e] + fs, timeout, parses), o)| ==
            if db.controlPlanes[c].spec.vpc.resourceId == "" && LiveVpcs(db, o) != {} then 1 else 0
  {
    var db := Run(es, timeout, parses);
    var cp := db.controlPlanes[c];
    var o, n := Self(cp), cp.spec.vpc.name;
    assert (es + [e])[..|es + [e]| - 1] == es && (es + [e])[|es|] == e;
    var released := Run(es + [e], timeout, parses);
    FinalizerGoesLast(es, timeout, parses, e, c);
    ReleaseLeaksExactly(es, timeout, parses, e, c);
    Reachable(es, timeout, parses);
    VpcsReachable(es, timeout, parses);
    DeletingIsDying(db, c, parses);
    DyingForever(db, e, parses, o);
    EveryStepIsQuiet(db, e, parses, o);
    QuietLowers(db, released, o);
    LiveVpcsLater(es + [e], fs, timeout, parses, n, o);
    OwnVpcName(db, c);
    SingletonOrEmpty(LiveVpcs(released, o), LiveVpcs(Run(es + [e] + fs, timeout, parses), o), n);
  }

  lemma OwnVpcName(db: Db, c: string)
    requires VpcsOk(db.log, db.controlPlanes, db.vpcs) && c in db.controlPlanes
    ensures LiveVpcs(db, Self(db.controlPlanes[c])) <= {db.controlPlanes[c].spec.vpc.name}
  {
  }

  lemma SingletonOrEmpty(a: set<string>, b: set<string>, n: string)
    requires a <= {n} && b <= a && (n in a ==> n in b)
    ensures |b| == if a != {} then 1 else 0
  {
    if a != {} {
      var m :| m in a;
      assert b == {n};
    }
  }
}
