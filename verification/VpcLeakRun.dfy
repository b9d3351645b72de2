/** A run in which nothing fails and a VPC is left behind all the same. */
module VpcLeakRun {
  import opened Wrappers
  import opened CommonApi
  import opened ApiServer
  import opened ClusterNames
  import opened ControlPlaneWebhook
  import opened VswitchReconcile
  import opened VswitchFacts
  import opened VpcReconcile
  import opened WriteBack
  import opened ControlPlaneController
  import opened MachinePoolController
  import opened Collectors
  import opened Runs
  import opened Invariant
  import opened ControlPlaneResults
  import opened ControlPlaneRuns
  import opened RunTheorems
  import opened Teardown
  import opened History
  import opened DeletionMeasure
  import opened DeletionProgress
  import opened VpcLeaks

  function LeakySpec(uid: Uid): ControlPlaneSpec
  {
    ControlPlaneSpec("c", "region", VPC("", "vpc", "", uid, "10.0.0.0/8"),
                     [VSwitch("", "vsw", "", NO_UID, "z", "10.0.0.0/24")], Endpoint("", 0))
  }

  function LeakyControlPlane(version: nat, deletedAt: Option<nat>, finalizers: set<string>, uid: Uid): ControlPlane
  {
    Stored(Meta(1, [], deletedAt, finalizers), version, LeakySpec(uid), ControlPlaneStatus(false, false, "", false, false))
  }

  /** A control plane is created ... */
  function Leak1(): Db
  {
    Empty(0).(nextUid := 2, log := map[1 := Birth(ControlPlaneKind, "c", [])],
              controlPlanes := map["c" := LeakyControlPlane(0, None, {}, NO_UID)])
  }

  /** ... its first pass creates the VPC, to which the provider has given no id yet ... */
  function Leak2(): Db
  {
    var owner := OwnerRef(ControlPlaneKind, 1);
    Leak1().(nextUid := 3, log := Leak1().log[2 := Birth(VpcKind, "vpc", [owner])],
             vpcs := map["vpc" := Vpc(Meta(2, [owner], None, {}), "10.0.0.0/8", None, Messages("", "", ""))],
             controlPlanes := map["c" := LeakyControlPlane(3, None, {CONTROL_PLANE_FINALIZER}, 2)])
  }

  /** ... it is deleted ... */
  function Leak3(): Db
  {
    Leak2().(controlPlanes := map["c" := LeakyControlPlane(3, Some(0), {CONTROL_PLANE_FINALIZER}, 2)])
  }

  /** ... and its next pass lets it go, without the VPC. */
  function Leak4(): Db
  {
    Leak3().(controlPlanes := map[])
  }

  function LeakyEvents(): seq<Event>
  {
    [UserCreatesControlPlane("c", LeakySpec(NO_UID)), ReconcileControlPlane("c", CleanPlan()),
     UserDeletesControlPlane("c"), ReconcileControlPlane("c", CleanPlan())]
  }

  lemma LeakyIsAdmitted(parses: CidrParser)
    requires parses("10.0.0.0/8") && parses("10.0.0.0/24")
    ensures AdmitsCreate(LeakySpec(NO_UID), parses) && ValidClusterName("c")
  {
    var spec := LeakySpec(NO_UID);
    assert spec.clusterName == "c" && |spec.vswitches| == 1;
    assert ValidClusterName("c");
    forall e ensures !BreaksOnCreate(spec, parses, e) {
      assert IsNameChar(spec.clusterName[0]);
    }
  }

  lemma LeakStep1(parses: CidrParser)
    requires AdmitsCreate(LeakySpec(NO_UID), parses)
    ensures Next(Empty(0), LeakyEvents()[0], parses) == Leak1()
  {
    assert Next(Empty(0), LeakyEvents()[0], parses) == CreatedControlPlane(Empty(0), "c", LeakySpec(NO_UID));
  }

  lemma LeakPass(parses: CidrParser)
    requires ValidClusterName("c")
    ensures ControlPlanePass(Leak1(), "c", CleanPlan()) == Leak2()
  {
    var db, plan := Leak1(), CleanPlan();
    var cp := db.controlPlanes["c"];
    UpdateReflexive(cp.spec);
    var held := LeakyControlPlane(1, None, {CONTROL_PLANE_FINALIZER}, NO_UID);
    assert cp.meta.finalizers + {CONTROL_PLANE_FINALIZER} == {CONTROL_PLANE_FINALIZER};
    var a := FinalizerAdded(db, "c", cp, plan.finalizerFault);
    assert a == Step(PutControlPlane(db, "c", held), held, true);
    var recorded := LeakyControlPlane(1, None, {CONTROL_PLANE_FINALIZER}, 2);
    var created := CreateVpc(a.db, "vpc", [Self(held)], "10.0.0.0/8");
    assert NetworkAndClusterReconciled(a.db, "c", held, plan) == (created, recorded);
    assert PassBody(db, "c", plan) == (created, recorded);
    PassKeepsObject(db, "c", plan);
    LeakWrite(created, held, recorded);
  }

  lemma LeakWrite(db: Db, held: ControlPlane, recorded: ControlPlane)
    requires ValidClusterName("c") && "c" in db.controlPlanes && db.controlPlanes["c"] == held
    requires held == LeakyControlPlane(1, None, {CONTROL_PLANE_FINALIZER}, NO_UID)
    requires recorded == LeakyControlPlane(1, None, {CONTROL_PLANE_FINALIZER}, 2)
    ensures WrittenControlPlane(db, "c", recorded, CleanPlan()) ==
            PutControlPlane(db, "c", LeakyControlPlane(3, None, {CONTROL_PLANE_FINALIZER}, 2))
  {
    assert AdmitsUpdate(recorded.spec, held.spec);
    TwoPhaseRefinesAtomic(held, recorded, true, Works, Works);
  }

  lemma LeakTeardown(parses: CidrParser)
    requires ValidClusterName("c")
    ensures ControlPlanePass(Leak3(), "c", CleanPlan()) == Leak4()
  {
    var db, plan := Leak3(), CleanPlan();
    var cp := db.controlPlanes["c"];
    UpdateReflexive(cp.spec);
    assert RemoveFrom(Removal(db, []), cp.spec.vswitches, 1, plan.vswitches) == Removal(db, []);
    assert RemovePass(db, cp.spec.vswitches, plan.vswitches) == Removal(db, []);
    var released := cp.(meta := WithoutFinalizer(cp.meta, CONTROL_PLANE_FINALIZER));
    assert PassBody(db, "c", plan) == (db, released);
    PassKeepsObject(db, "c", plan);
    TwoPhaseRefinesAtomic(cp, released, true, Works, Works);
    assert released.meta.finalizers == {};
  }

  lemma LeakFirstHalf(parses: CidrParser)
    requires parses("10.0.0.0/8") && parses("10.0.0.0/24")
    ensures Run(LeakyEvents()[..2], 0, parses) == Leak2()
  {
    var es := LeakyEvents();
    LeakyIsAdmitted(parses);
    LeakStep1(parses);
    RunStep([], es[0], parses);
    LeakPass(parses);
    LeakNext(parses);
    RunStep([es[0]], es[1], parses);
    assert es[..2] == [es[0]] + [es[1]];
  }

  lemma LeakRun(parses: CidrParser)
    requires parses("10.0.0.0/8") && parses("10.0.0.0/24")
    ensures Run(LeakyEvents(), 0, parses) == Leak4()
  {
    var es := LeakyEvents();
    LeakFirstHalf(parses);
    LeakyIsAdmitted(parses);
    LeakNext(parses);
    LeakTeardown(parses);
    RunStep(es[..2], es[2], parses);
    RunStep(es[..2] + [es[2]], es[3], parses);
    assert es == es[..2] + [es[2]] + [es[3]];
  }

  lemma RunStep(es: seq<Event>, e: Event, parses: CidrParser)
    ensures Run(es + [e], 0, parses) == Next(Run(es, 0, parses), e, parses)
  {
    assert (es + [e])[..|es|] == es && (es + [e])[|es|] == e;
  }

  lemma LeakNext(parses: CidrParser)
    ensures Next(Leak1(), LeakyEvents()[1], parses) == ControlPlanePass(Leak1(), "c", CleanPlan())
    ensures Next(Leak2(), LeakyEvents()[2], parses) == Leak3()
    ensures Next(Leak3(), LeakyEvents()[3], parses) == ControlPlanePass(Leak3(), "c", CleanPlan())
  {
    assert Next(Leak2(), LeakyEvents()[2], parses) == DeletedControlPlane(Leak2(), "c");
  }

  lemma LeakIsFinal(parses: CidrParser)
    requires Inv(Leak4(), parses)
    ensures var o := OwnerRef(ControlPlaneKind, 1);
            Dying(Leak4(), o) && !SomeProductive(Leak4(), o) && LiveVpcs(Leak4(), o) == {"vpc"}
  {
    var o := OwnerRef(ControlPlaneKind, 1);
    ProductivePossible(Leak4(), o, parses);
    assert OwnedVpcs(Leak4(), o) == {"vpc"} && LiveVpcs(Leak4(), o) == {"vpc"};
    assert Holders(Leak4(), o) == {};
  }

  /** Four events with nothing failing, after which the owner is gone, its VPC is live, and nothing
      productive can happen any more. */
  lemma VpcCanLeak(parses: CidrParser)
    requires parses("10.0.0.0/8") && parses("10.0.0.0/24")
    ensures var db := Run(LeakyEvents(), 0, parses);
            var o := OwnerRef(ControlPlaneKind, 1);
            && Dying(db, o) && !SomeProductive(db, o) && db.controlPlanes == map[] && LiveVpcs(db, o) == {"vpc"}
  {
    LeakRun(parses);
    Reachable(LeakyEvents(), 0, parses);
    LeakIsFinal(parses);
  }
}
