/** A pool with an inconsistent spec and the vswitch collector undo each other's work for ever;
    and how an accepted update gets a pool there, or keeps it from being deleted. */
module CreateDeleteLoop {
  import opened Wrappers
  import opened CommonApi
  import opened ApiServer
  import opened ClusterNames
  import opened ControlPlaneWebhook
  import opened MachinePoolWebhook
  import opened VswitchReconcile
  import opened VswitchFacts
  import opened ControlPlaneController
  import opened MachinePoolController
  import opened Collectors
  import opened Runs
  import opened Invariant
  import opened Preservation
  import opened MachinePoolStages
  import opened RunTheorems
  import opened ControlPlaneRuns
  import opened MachinePoolResults
  import opened Teardown
  import opened MachinePoolRuns

  /** A live pool past its finalizer, with everything its pass needs, but an inconsistent spec. */
  ghost predicate Looping(db: Db, p: string, parses: CidrParser)
  {
    && Inv(db, parses) && PoolHoldsFinalizer(db, p) && !db.pools[p].meta.Deleting() && !Consistent(db.pools[p].spec)
    && var c := db.pools[p].spec.cluster;
    && c in db.controlPlanes && db.controlPlanes[c].status.ready && c in db.kubernetes
    && NamesFree(db.vswitches, db.pools[p])
  }

  /** No name of an unfinished entry is taken by anybody else. */
  ghost predicate NamesFree(vswitches: map<string, Vswitch>, pool: Pool)
  {
    forall k :: 0 <= k < |pool.spec.vswitches| && !Complete(pool.spec.vswitches[k]) ==>
                  var n := pool.spec.vswitches[k].name; n in vswitches ==> vswitches[n].meta.OwnedBy(pool.meta.uid)
  }

  /** The pool has an unfinished entry for this vswitch. */
  ghost predicate Wants(pool: Pool, n: string)
  {
    exists k :: 0 <= k < |pool.spec.vswitches| && !Complete(pool.spec.vswitches[k]) && pool.spec.vswitches[k].name == n
  }

  /** The calls up to the vswitches succeed; the others may do as they like. */
  ghost predicate Creates(plan: PoolPlan)
  {
    && plan.readable && plan.controlPlaneReadable && plan.sdkReady && plan.kubernetes.Works?
    && forall k :: plan.vswitches(k) == Works
  }

  lemma LoopBody(db: Db, p: string, parses: CidrParser, plan: PoolPlan, n: string)
    requires Looping(db, p, parses) && Wants(db.pools[p], n) && Creates(plan)
    ensures var after := PoolPassBody(db, p, parses, plan).0;
            n in after.vswitches && NamesFree(after.vswitches, db.pools[p])
  {
    var pool := db.pools[p];
    var k := db.kubernetes[pool.spec.cluster];
    var cp := db.controlPlanes[pool.spec.cluster];
    assert PoolPassBody(db, p, parses, plan) == PoolChildrenReconciled(db, p, pool, cp, k, plan);
    PoolChildrenFrame(db, p, pool, cp, k, plan);
    forall m | m in db.vswitches ensures db.vswitches[m].meta.uid != NO_UID {
      assert VswitchOk(db.log, db.controlPlanes, m, db.vswitches[m]);
    }
    CleanPass(db, PoolSelf(pool), k.status.vpcId, pool.spec.vswitches, plan.vswitches);
    PassContract(db, PoolSelf(pool), k.status.vpcId, pool.spec.vswitches, plan.vswitches);
    VswitchesOfPass(db, p, k.status.vpcId, plan.vswitches, n);
  }

  lemma VswitchesOfPass(db: Db, p: string, vpcId: string, faults: nat -> Fault, n: string)
    requires p in db.pools && NamesFree(db.vswitches, db.pools[p]) && Wants(db.pools[p], n)
    requires var v := VswitchPass(db, PoolSelf(db.pools[p]), vpcId, db.pools[p].spec.vswitches, faults);
             && OnlyCreates(db, v.db, PoolSelf(db.pools[p]), vpcId)
             && (forall k :: 0 <= k < |v.entries| ==> EntryKept(db.pools[p].spec.vswitches[k], v.entries[k]))
             && (forall k :: 0 <= k < |v.entries| ==> !Missing(v.db, v.entries[k]))
             && forall k :: 0 <= k < |v.entries| ==>
                  Provenance(v.db, PoolSelf(db.pools[p]), db.pools[p].spec.vswitches[k], v.entries[k])
    ensures var v := VswitchPass(db, PoolSelf(db.pools[p]), vpcId, db.pools[p].spec.vswitches, faults);
            n in v.db.vswitches && NamesFree(v.db.vswitches, db.pools[p])
  {
    var pool := db.pools[p];
    var v := VswitchPass(db, PoolSelf(pool), vpcId, pool.spec.vswitches, faults);
    var k :| 0 <= k < |pool.spec.vswitches| && !Complete(pool.spec.vswitches[k]) && pool.spec.vswitches[k].name == n;
    assert EntryKept(pool.spec.vswitches[k], v.entries[k]) && !Missing(v.db, v.entries[k]);
    forall m | m in v.db.vswitches && m !in db.vswitches ensures v.db.vswitches[m].meta.OwnedBy(pool.meta.uid) {
      assert FreshVswitch(db, v.db, m, PoolSelf(pool), vpcId);
    }
  }

  /** Whenever a wanted vswitch is not there, an error-free pass creates it, and the pool is left
      as it was: nothing of what the pass did is recorded. */
  lemma LoopCreates(db: Db, p: string, parses: CidrParser, plan: PoolPlan, n: string)
    requires Looping(db, p, parses) && Wants(db.pools[p], n) && n !in db.vswitches && Creates(plan)
    ensures var mid := PoolPass(db, p, parses, plan);
            && n in mid.vswitches && Looping(mid, p, parses) && Wants(mid.pools[p], n)
            && mid.vswitches[n].meta == Meta(mid.vswitches[n].meta.uid, [PoolSelf(db.pools[p])], None, {})
            && Garbage(mid, mid.vswitches[n])
  {
    var mid := PoolPass(db, p, parses, plan);
    assert PoolOk(db.log, p, db.pools[p], parses);
    LoopBody(db, p, parses, plan, n);
    InconsistentPoolIsFrozen(db, p, parses, plan);
    PoolPassFrame(db, p, parses, plan);
    PoolPassKeeps(db, p, plan, parses);
    PoolPassKeepsObject(db, p, parses, plan);
    assert mid.vswitches == PoolPassBody(db, p, parses, plan).0.vswitches;
    NewVswitchListed(db, p, parses, plan, n);
    LookupsAreUnique(mid, parses);
    NewVswitchWanted(mid, p, n);
  }

  /** The collector's next error-free pass then removes it, and all is as before. */
  lemma LoopDeletes(mid: Db, p: string, parses: CidrParser, n: string)
    requires Looping(mid, p, parses) && Wants(mid.pools[p], n) && n in mid.vswitches
    requires mid.vswitches[n].meta.finalizers == {} && Garbage(mid, mid.vswitches[n])
    ensures var after := CollectPass(mid, n, CollectPlan(Works, false, false));
            n !in after.vswitches && Looping(after, p, parses) && Wants(after.pools[p], n)
  {
    var plan := CollectPlan(Works, false, false);
    CollectionKeeps(mid, n, plan, parses);
    assert CollectPass(mid, n, plan) == DeleteVswitch(mid, n);
  }

  /** The loop is about to start over: the wanted vswitch is not there. */
  ghost predicate AtStart(db: Db, p: string, parses: CidrParser, n: string)
  {
    Looping(db, p, parses) && Wants(db.pools[p], n) && n !in db.vswitches
  }

  /** One round: the pool's pass, then the collector's. */
  ghost function Round(db: Db, p: string, parses: CidrParser, plan: PoolPlan, n: string): Db
  {
    Next(Next(db, ReconcilePool(p, plan), parses), CollectVswitch(n, CollectPlan(Works, false, false)), parses)
  }

  /** The states before each of any number of rounds in a row. */
  ghost predicate Rounds(states: seq<Db>, p: string, parses: CidrParser, plan: PoolPlan, n: string)
  {
    forall i :: 0 < i < |states| ==> states[i] == Round(states[i - 1], p, parses, plan, n)
  }

  /** The round from here creates the vswitch and deletes it again. */
  ghost predicate CreatesAndDeletes(db: Db, p: string, parses: CidrParser, plan: PoolPlan, n: string)
  {
    && n !in db.vswitches && n in Next(db, ReconcilePool(p, plan), parses).vswitches
    && n !in Round(db, p, parses, plan, n).vswitches
  }

  lemma RoundIs(db: Db, p: string, parses: CidrParser, plan: PoolPlan, n: string)
    requires p in db.pools && !db.pools[p].meta.Gone()
    ensures var mid := PoolPass(db, p, parses, plan);
            && Next(db, ReconcilePool(p, plan), parses) == mid
            && Round(db, p, parses, plan, n) == CollectPass(mid, n, CollectPlan(Works, false, false))
  {
  }

  lemma OneRound(db: Db, p: string, parses: CidrParser, plan: PoolPlan, n: string)
    requires AtStart(db, p, parses, n) && Creates(plan)
    ensures AtStart(Round(db, p, parses, plan, n), p, parses, n) && CreatesAndDeletes(db, p, parses, plan, n)
  {
    assert PoolOk(db.log, p, db.pools[p], parses);
    RoundIs(db, p, parses, plan, n);
    LoopCreates(db, p, parses, plan, n);
    LoopDeletes(PoolPass(db, p, parses, plan), p, parses, n);
  }

  /** However many rounds have passed, the next one creates the vswitch and deletes it again. */
  lemma {:induction false} LoopsForever(states: seq<Db>, p: string, parses: CidrParser, plan: PoolPlan, n: string,
                                        k: nat)
    requires k < |states| && Rounds(states, p, parses, plan, n)
    requires AtStart(states[0], p, parses, n) && Creates(plan)
    ensures AtStart(states[k], p, parses, n) && CreatesAndDeletes(states[k], p, parses, plan, n)
  {
    if k > 0 {
      LoopsForever(states, p, parses, plan, n, k - 1);
      OneRound(states[k - 1], p, parses, plan, n);
    }
    OneRound(states[k], p, parses, plan, n);
  }

  /******* How a pool gets there *******/

  function SettledPoolSpec(): PoolSpec
  {
    PoolSpec("c", "region", "id", [VSwitch("v", "", "", NO_UID, "", "")], "key", "", [])
  }

  /** The same with two networks under one new name. */
  function SplitPoolSpec(): PoolSpec
  {
    SettledPoolSpec().(vswitches := SettledPoolSpec().vswitches +
      [VSwitch("", "x", "", NO_UID, "z", "10.0.0.0/24"), VSwitch("", "x", "", NO_UID, "z", "10.0.1.0/24")])
  }

  /** A ready cluster with one pool, settled and past its finalizer. */
  function SettledStore(): Db
  {
    var owner := OwnerRef(ControlPlaneKind, 1);
    var spec := ControlPlaneSpec("c", "region", VPC("vpc", "", "", NO_UID, ""),
                                 [VSwitch("vsw", "", "", NO_UID, "", "")], Endpoint("host", 6443));
    var cp := Stored(Meta(1, [], None, {CONTROL_PLANE_FINALIZER}), 0, spec, ControlPlaneStatus(true, false, "id", false, false));
    var k := ManagedKubernetes(Meta(2, [owner], None, {}), "c", ["vsw"],
                               KubernetesStatus(true, "id", "vpc", Some(Endpoint("host", 6443))));
    var pool := Stored(Meta(3, [], None, {MACHINE_POOL_FINALIZER}), 0, SettledPoolSpec(), PoolStatus(false, false, false));
    Empty(0).(nextUid := 4,
              log := map[1 := Birth(ControlPlaneKind, "c", []), 2 := Birth(KubernetesKind, "c", [owner]),
                         3 := Birth(MachinePoolKind, "p", [])],
              controlPlanes := map["c" := cp], kubernetes := map["c" := k], pools := map["p" := pool])
  }

  lemma SettledStoreOk(parses: CidrParser)
    ensures Inv(SettledStore(), parses)
  {
    var db := SettledStore();
    assert ControlPlaneOk(db.log, db.kubeconfigs, "c", db.controlPlanes["c"]);
    assert KubernetesOk(db.log, db.controlPlanes, "c", db.kubernetes["c"]);
    assert PoolOk(db.log, "p", db.pools["p"], parses);
  }

  /** The update check compares new entries with the old ones only, not with each other. */
  lemma SplitIsAccepted(parses: CidrParser)
    requires parses("10.0.0.0/24") && parses("10.0.1.0/24")
    ensures PoolAdmitsCreate(SettledPoolSpec(), parses) && Consistent(SettledPoolSpec())
    ensures UserMayUpdatePool(SplitPoolSpec(), SettledPoolSpec(), parses) && !Consistent(SplitPoolSpec())
  {
    var prev, spec := SettledPoolSpec(), SplitPoolSpec();
    assert spec.vswitches[1].name == spec.vswitches[2].name && spec.vswitches[1].cidrBlock != spec.vswitches[2].cidrBlock;
    forall e ensures !PoolBreaksOnUpdate(spec, prev, parses, e) {}
    forall e ensures !PoolBreaksOnCreate(prev, parses, e) {}
    assert prev.vswitches[0].id == spec.vswitches[0].id;
  }

  /** The settled store after that update. */
  function SplitStore(): Db
  {
    UpdatedPool(SettledStore(), "p", SplitPoolSpec())
  }

  lemma SplitStoreIs(parses: CidrParser)
    requires UserMayUpdatePool(SplitPoolSpec(), SettledPoolSpec(), parses)
    ensures Next(SettledStore(), UserUpdatesPool("p", SplitPoolSpec()), parses) == SplitStore()
  {
    assert SettledStore().pools["p"].spec == SettledPoolSpec();
  }

  lemma SplitStoreOk(parses: CidrParser)
    requires parses("10.0.0.0/24") && parses("10.0.1.0/24")
    ensures Inv(SplitStore(), parses)
  {
    SettledStoreOk(parses);
    SplitIsAccepted(parses);
    assert SettledStore().pools["p"].spec == SettledPoolSpec();
    UserUpdatesPoolKeeps(SettledStore(), "p", SplitPoolSpec(), parses);
  }

  lemma SplitStoreLoops(parses: CidrParser)
    requires Inv(SplitStore(), parses) && !Consistent(SplitPoolSpec())
    ensures AtStart(SplitStore(), "p", parses, "x")
  {
    var pool := SplitStore().pools["p"];
    assert pool.spec.vswitches[1].name == "x" && !Complete(pool.spec.vswitches[1]);
  }

  ghost predicate StartsLoop(db: Db, e: Event, parses: CidrParser, p: string, n: string)
  {
    && Inv(db, parses) && PoolHoldsFinalizer(db, p) && Consistent(db.pools[p].spec) && e.UserUpdatesPool?
    && AtStart(Next(db, e, parses), p, parses, n)
  }

  /** A store in order and an accepted update after which the loop begins. */
  lemma LoopCanStart(parses: CidrParser)
    requires parses("10.0.0.0/24") && parses("10.0.1.0/24")
    ensures exists db, e :: StartsLoop(db, e, parses, "p", "x")
  {
    SettledStoreOk(parses);
    SplitIsAccepted(parses);
    SplitStoreIs(parses);
    SplitStoreOk(parses);
    SplitStoreLoops(parses);
    assert StartsLoop(SettledStore(), UserUpdatesPool("p", SplitPoolSpec()), parses, "p", "x");
  }

  ghost predicate GetsStuck(db: Db, update: Event, parses: CidrParser, p: string)
  {
    && Inv(db, parses) && PoolHoldsFinalizer(db, p) && Consistent(db.pools[p].spec) && update.UserUpdatesPool?
    && StuckPool(Next(Next(db, update, parses), UserDeletesPool(p), parses), p)
  }

  lemma DeletedSplitStore(parses: CidrParser)
    requires !Consistent(SplitPoolSpec())
    ensures StuckPool(Next(SplitStore(), UserDeletesPool("p"), parses), "p")
  {
    assert Next(SplitStore(), UserDeletesPool("p"), parses) == DeletedPool(SplitStore(), "p");
  }

  /** The same store and update, followed by the user's deletion: a pool that cannot be deleted. */
  lemma PoolCanGetStuck(parses: CidrParser)
    requires parses("10.0.0.0/24") && parses("10.0.1.0/24")
    ensures exists db, update :: GetsStuck(db, update, parses, "p")
  {
    SettledStoreOk(parses);
    SplitIsAccepted(parses);
    SplitStoreIs(parses);
    DeletedSplitStore(parses);
    assert GetsStuck(SettledStore(), UserUpdatesPool("p", SplitPoolSpec()), parses, "p");
  }
}
