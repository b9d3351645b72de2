/** The control plane pass keeps the invariant, stage by stage. */
module ControlPlaneStages {
  import opened Wrappers
  import opened CommonApi
  import opened ApiServer
  import opened ControlPlaneWebhook
  import opened MachinePoolWebhook
  import opened VswitchReconcile
  import opened VswitchFacts
  import opened VpcReconcile
  import opened WriteBack
  import opened ControlPlaneController
  import opened MachinePoolController
  import opened Invariant
  import opened Preservation

  /** The in-memory object while a pass is past the finalizer: it agrees with the stored one
      on the metadata and on the user's part of the spec. */
  ghost predicate MemOk(db: Db, c: string, mem: ControlPlane)
  {
    && c in db.controlPlanes && mem.meta == db.controlPlanes[c].meta
    && CONTROL_PLANE_FINALIZER in mem.meta.finalizers && !mem.meta.Deleting()
    && ControlPlaneOk(db.log, db.kubeconfigs, c, mem) && KeepsHold(db.controlPlanes[c], mem)
  }

  lemma FinalizerStage(db: Db, c: string, fault: Fault, parses: CidrParser)
    requires Inv(db, parses) && c in db.controlPlanes && !db.controlPlanes[c].meta.Deleting()
    ensures var a := FinalizerAdded(db, c, db.controlPlanes[c], fault);
            && Inv(a.db, parses)
            && (a.ok ==> MemOk(a.db, c, a.mem))
  {
    var cp := db.controlPlanes[c];
    assert ControlPlaneOk(db.log, db.kubeconfigs, c, cp);
    FinalizerAddedFacts(db, c, cp, fault);
    var a := FinalizerAdded(db, c, cp, fault);
    if a.ok && CONTROL_PLANE_FINALIZER !in cp.meta.finalizers {
      ControlPlaneKept(db, c, a.mem, parses);
      assert a.db == PutControlPlane(db, c, a.mem);
    }
  }

  /** Creating a VPC or vswitch for a stored owner keeps the invariant. */
  lemma VpcCreationKeeps(db: Db, n: string, owner: OwnerRef, cidrBlock: string, parses: CidrParser)
    requires Inv(db, parses) && n !in db.vpcs && owner.kind == ControlPlaneKind
    ensures Inv(CreateVpc(db, n, [owner], cidrBlock), parses)
    ensures Grows(db, CreateVpc(db, n, [owner], cidrBlock))
  {
    var later := CreateVpc(db, n, [owner], cidrBlock);
    BirthGrows(db, VpcKind, n, [owner]);
    SameOwners(db, later);
    ChildrenKept(db, later, parses);
  }

  lemma VpcStage(db: Db, c: string, mem: ControlPlane, fault: Fault, parses: CidrParser)
    requires Inv(db, parses) && MemOk(db, c, mem)
    ensures var v := ReconciledVpc(db, Self(mem), mem.spec.vpc, fault);
            && Inv(v.db, parses)
            && MemOk(v.db, c, mem.(spec := mem.spec.(vpc := v.vpc)))
            && (v.err.None? && v.id == "" ==> AllComplete(mem.spec.vswitches))
            && (v.err.None? && v.vpc.name != "" ==> v.vpc.uid != NO_UID)
  {
    var v := ReconciledVpc(db, Self(mem), mem.spec.vpc, fault);
    assert mem.spec.vpc.name in db.vpcs ==> VpcOk(db.log, mem.spec.vpc.name, db.vpcs[mem.spec.vpc.name]);
    VpcContract(db, Self(mem), mem.spec.vpc, fault);
    if v.db != db {
      VpcCreationKeeps(db, mem.spec.vpc.name, Self(mem), mem.spec.vpc.cidrBlock, parses);
      ControlPlaneOkGrows(db, v.db, c, mem);
    }
    VpcFilled(db, c, mem, v, fault);
  }

  lemma VpcFilled(db: Db, c: string, mem: ControlPlane, v: VpcPass, fault: Fault)
    requires MemOk(db, c, mem) && LogOk(db)
    requires v == ReconciledVpc(db, Self(mem), mem.spec.vpc, fault)
    requires mem.spec.vpc.name in db.vpcs ==> VpcOk(db.log, mem.spec.vpc.name, db.vpcs[mem.spec.vpc.name])
    requires ControlPlaneOk(v.db.log, v.db.kubeconfigs, c, mem)
    ensures MemOk(v.db, c, mem.(spec := mem.spec.(vpc := v.vpc)))
    ensures v.err.None? && v.id == "" ==> AllComplete(mem.spec.vswitches)
    ensures v.err.None? && v.vpc.name != "" ==> v.vpc.uid != NO_UID
  {
    VpcContract(db, Self(mem), mem.spec.vpc, fault);
    VpcRecordOwned(db, Self(mem), mem.spec.vpc, fault);
    VpcReplacedOk(v.db.log, mem.spec, v.vpc, mem.meta.uid);
    var m := mem.(spec := mem.spec.(vpc := v.vpc));
    assert KeepsHold(db.controlPlanes[c], m) && v.db.controlPlanes == db.controlPlanes;
  }

  lemma VpcRecordOwned(db: Db, owner: OwnerRef, vpc: VPC, fault: Fault)
    requires OwnsVpc(db.log, vpc, owner.uid) && LogOk(db)
    requires vpc.name in db.vpcs ==> VpcOk(db.log, vpc.name, db.vpcs[vpc.name])
    requires vpc.name != "" && vpc.resourceId != "" ==> vpc.uid != NO_UID
    ensures var v := ReconciledVpc(db, owner, vpc, fault);
            && OwnsVpc(v.db.log, v.vpc, owner.uid)
            && (v.vpc.name != "" && v.vpc.resourceId != "" ==> v.vpc.uid != NO_UID)
  {
  }

  lemma VpcReplacedOk(log: Log, spec: ControlPlaneSpec, vpc: VPC, uid: Uid)
    requires SpecOk(log, spec, uid) && OwnsVpc(log, vpc, uid)
    requires vpc.id == spec.vpc.id && vpc.name == spec.vpc.name
    requires vpc.name != "" && vpc.resourceId != "" ==> vpc.uid != NO_UID
    ensures SpecOk(log, spec.(vpc := vpc), uid)
  {
  }

  /** The recorded uids after a pass over a vswitch list were all born to its owner. */
  lemma PassOwnsEntries(db: Db, owner: OwnerRef, vpcId: string, entries: seq<VSwitch>, faults: nat -> Fault)
    requires LogOk(db) && OwnsEntries(db.log, entries, owner.uid)
    requires forall n :: n in db.vswitches ==> Logged(db.log, VswitchKind, n, db.vswitches[n].meta)
    ensures var p := VswitchPass(db, owner, vpcId, entries, faults);
            && LogGrows(db.log, p.db.log) && LogOk(p.db)
            && OwnsEntries(p.db.log, p.entries, owner.uid)
            && (forall k :: 0 <= k < |entries| && !HalfFilled(entries[k]) ==> !HalfFilled(p.entries[k]))
  {
    var p := VswitchPass(db, owner, vpcId, entries, faults);
    PassContract(db, owner, vpcId, entries, faults);
    assert OnlyCreates(db, p.db, owner, vpcId);
    forall k | 0 <= k < |entries|
      ensures p.entries[k].uid != NO_UID ==> BornTo(p.db.log, p.entries[k].uid, VswitchKind, p.entries[k].name, owner.uid)
      ensures !HalfFilled(entries[k]) ==> !HalfFilled(p.entries[k])
    {
      assert EntryKept(entries[k], p.entries[k]) && Provenance(p.db, owner, entries[k], p.entries[k]);
      var n := p.entries[k].name;
      if p.entries[k] == entries[k] {
        assert p.entries[k].uid != NO_UID ==> BornTo(db.log, p.entries[k].uid, VswitchKind, n, owner.uid);
      } else if n in db.vswitches {
        assert Logged(db.log, VswitchKind, n, db.vswitches[n].meta);
      } else {
        assert FreshVswitch(db, p.db, n, owner, vpcId);
      }
    }
  }

  lemma VswitchStage(db: Db, c: string, mem: ControlPlane, vpcId: string, faults: nat -> Fault, parses: CidrParser)
    requires Inv(db, parses) && MemOk(db, c, mem) && (vpcId == "" ==> AllComplete(mem.spec.vswitches))
    ensures var p := VswitchPass(db, Self(mem), vpcId, mem.spec.vswitches, faults);
            && Inv(p.db, parses)
            && MemOk(p.db, c, mem.(spec := mem.spec.(vswitches := p.entries)))
  {
    var owner := Self(mem);
    var p := VswitchPass(db, owner, vpcId, mem.spec.vswitches, faults);
    forall n | n in db.vswitches ensures Logged(db.log, VswitchKind, n, db.vswitches[n].meta) {
      assert VswitchOk(db.log, db.controlPlanes, n, db.vswitches[n]);
    }
    PassOwnsEntries(db, owner, vpcId, mem.spec.vswitches, faults);
    PassContract(db, owner, vpcId, mem.spec.vswitches, faults);
    assert OnlyCreates(db, p.db, owner, vpcId);
    SameOwners(db, p.db);
    ChildrenKept(db, p.db, parses);
    forall n | n in p.db.vswitches ensures VswitchOk(p.db.log, p.db.controlPlanes, n, p.db.vswitches[n]) {
      if n !in db.vswitches {
        NewVswitchHeld(db, c, mem, vpcId, faults, n);
      }
    }
    EntriesFilled(db, c, mem, p);
  }

  lemma NewVswitchHeld(db: Db, c: string, mem: ControlPlane, vpcId: string, faults: nat -> Fault, n: string)
    requires MemOk(db, c, mem) && LogOk(db) && (vpcId == "" ==> AllComplete(mem.spec.vswitches))
    requires n in VswitchPass(db, Self(mem), vpcId, mem.spec.vswitches, faults).db.vswitches && n !in db.vswitches
    ensures var p := VswitchPass(db, Self(mem), vpcId, mem.spec.vswitches, faults);
            VswitchOk(p.db.log, p.db.controlPlanes, n, p.db.vswitches[n])
  {
    var p := VswitchPass(db, Self(mem), vpcId, mem.spec.vswitches, faults);
    PassContract(db, Self(mem), vpcId, mem.spec.vswitches, faults);
    assert OnlyCreates(db, p.db, Self(mem), vpcId) && FreshVswitch(db, p.db, n, Self(mem), vpcId);
    var k: nat :| RecordsNew(mem.spec.vswitches, p.entries, p.db, n, k);
    assert EntryKept(mem.spec.vswitches[k], p.entries[k]);
    var cp := db.controlPlanes[c];
    assert cp.spec.vswitches[k].id == "" && cp.spec.vswitches[k].name == n;
    assert SelfCreated(cp.spec.vswitches, n);
  }

  lemma EntriesFilled(db: Db, c: string, mem: ControlPlane, p: Pass)
    requires MemOk(db, c, mem) && |p.entries| == |mem.spec.vswitches|
    requires p.db == db.(nextUid := p.db.nextUid, log := p.db.log, vswitches := p.db.vswitches)
    requires LogGrows(db.log, p.db.log) && OwnsEntries(p.db.log, p.entries, mem.meta.uid)
    requires forall k :: 0 <= k < |p.entries| ==> EntryKept(mem.spec.vswitches[k], p.entries[k])
    requires forall k :: 0 <= k < |p.entries| && !HalfFilled(mem.spec.vswitches[k]) ==> !HalfFilled(p.entries[k])
    ensures MemOk(p.db, c, mem.(spec := mem.spec.(vswitches := p.entries)))
  {
    forall k | 0 <= k < |p.entries|
      ensures p.entries[k].id == mem.spec.vswitches[k].id && p.entries[k].name == mem.spec.vswitches[k].name
      ensures !HalfFilled(p.entries[k])
    {
      assert EntryKept(mem.spec.vswitches[k], p.entries[k]);
      assert !HalfFilled(mem.spec.vswitches[k]);
    }
  }

  lemma FlagsKept(db: Db, c: string, mem: ControlPlane, creating: bool, updating: bool)
    requires MemOk(db, c, mem)
    ensures MemOk(db, c, mem.(status := mem.status.(creating := creating, updating := updating)))
  {
  }

  lemma KubernetesStage(db: Db, c: string, mem: ControlPlane, ids: seq<string>, fault: Fault, parses: CidrParser)
    requires Inv(db, parses) && MemOk(db, c, mem)
    ensures var (k, view) := KubernetesReconciled(db, c, mem, ids, fault);
            && Inv(k.db, parses) && MemOk(k.db, c, k.mem) && k.mem.spec == mem.spec
            && (view.Some? ==> PlausibleStatusOf(view.value))
  {
    if fault.Works? {
      if c in db.kubernetes {
        KubernetesUpdateKeeps(db, c, mem, parses);
        var renamed := db.kubernetes[c].(clusterName := mem.spec.clusterName);
        FlagsKept(PutKubernetes(db, c, renamed), c, mem, mem.status.creating, true);
      } else {
        KubernetesCreationKeeps(db, c, mem, ids, parses);
        FlagsKept(CreateKubernetes(db, c, [Self(mem)], mem.spec.clusterName, ids), c, mem, true, mem.status.updating);
      }
    }
  }

  lemma KubernetesUpdateKeeps(db: Db, c: string, mem: ControlPlane, parses: CidrParser)
    requires Inv(db, parses) && MemOk(db, c, mem) && c in db.kubernetes
    ensures var k := db.kubernetes[c].(clusterName := mem.spec.clusterName);
            Inv(PutKubernetes(db, c, k), parses) && MemOk(PutKubernetes(db, c, k), c, mem) && PlausibleStatusOf(k)
  {
    assert KubernetesOk(db.log, db.controlPlanes, c, db.kubernetes[c]);
    KubernetesChanged(db, c, db.kubernetes[c].(clusterName := mem.spec.clusterName), parses);
  }

  ghost predicate PlausibleStatusOf(k: ManagedKubernetes)
  {
    k.status.ready ==> k.status.id != "" && (k.status.endpoint.Some? ==> k.status.endpoint.value.host != "")
  }

  lemma KubernetesCreationKeeps(db: Db, c: string, mem: ControlPlane, ids: seq<string>, parses: CidrParser)
    requires Inv(db, parses) && MemOk(db, c, mem) && c !in db.kubernetes
    ensures var later := CreateKubernetes(db, c, [Self(mem)], mem.spec.clusterName, ids);
            Inv(later, parses) && MemOk(later, c, mem)
  {
    var later := CreateKubernetes(db, c, [Self(mem)], mem.spec.clusterName, ids);
    KubernetesCreationFrame(db, c, Self(mem), mem.spec.clusterName, ids, parses);
    ControlPlaneOkGrows(db, later, c, mem);
    assert Self(later.controlPlanes[c]) == Self(mem);
    assert KubernetesOk(later.log, later.controlPlanes, c, later.kubernetes[c]);
  }

  lemma KubernetesCreationFrame(db: Db, c: string, owner: OwnerRef, clusterName: string, ids: seq<string>,
                                parses: CidrParser)
    requires Inv(db, parses) && c !in db.kubernetes
    ensures var later := CreateKubernetes(db, c, [owner], clusterName, ids);
            Grows(db, later) &&
            (KubernetesOk(later.log, later.controlPlanes, c, later.kubernetes[c]) ==> Inv(later, parses))
  {
    var later := CreateKubernetes(db, c, [owner], clusterName, ids);
    BirthGrows(db, KubernetesKind, c, [owner]);
    SameOwners(db, later);
    ChildrenKept(db, later, parses);
  }

  /** The in-memory object before the deferred write, in the normal case. */
  ghost predicate Writable(db: Db, c: string, mem: ControlPlane)
  {
    && c in db.controlPlanes && ControlPlaneOk(db.log, db.kubeconfigs, c, mem)
    && mem.meta.uid == db.controlPlanes[c].meta.uid && mem.meta.deletedAt == db.controlPlanes[c].meta.deletedAt
    && KeepsHold(db.controlPlanes[c], mem)
  }

  lemma StatusSetOk(db: Db, c: string, mem: ControlPlane, view: Option<ManagedKubernetes>)
    requires MemOk(db, c, mem) && (view.Some? ==> PlausibleStatusOf(view.value))
    requires mem.spec.vpc.name != "" ==> mem.spec.vpc.uid != NO_UID
    ensures var m := StatusSet(mem, view);
            && m.meta == mem.meta && m.spec.vswitches == mem.spec.vswitches && m.status.initialized == mem.status.initialized
            && ControlPlaneOk(db.log, db.kubeconfigs, c, m)
  {
    var m := StatusSet(mem, view);
    VpcReplacedOk(db.log, mem.spec, m.spec.vpc, mem.meta.uid);
    EndpointReplacedOk(db.log, mem.spec.(vpc := m.spec.vpc), m.spec.endpoint, mem.meta.uid);
    assert m.spec == mem.spec.(vpc := m.spec.vpc).(endpoint := m.spec.endpoint);
  }

  lemma EndpointReplacedOk(log: Log, spec: ControlPlaneSpec, endpoint: Endpoint, uid: Uid)
    requires SpecOk(log, spec, uid)
    ensures SpecOk(log, spec.(endpoint := endpoint), uid)
  {
  }

  lemma KubeconfigStored(db: Db, c: string, parses: CidrParser)
    requires Inv(db, parses)
    ensures var later := db.(kubeconfigs := db.kubeconfigs + {c});
            Inv(later, parses) && Grows(db, later)
  {
    var later := db.(kubeconfigs := db.kubeconfigs + {c});
    SameOwners(db, later);
    ChildrenKept(db, later, parses);
  }

  lemma StatusStage(db: Db, c: string, mem: ControlPlane, view: Option<ManagedKubernetes>, fault: Fault,
                    parses: CidrParser)
    requires Inv(db, parses) && MemOk(db, c, mem) && (view.Some? ==> PlausibleStatusOf(view.value))
    requires mem.spec.vpc.name != "" ==> mem.spec.vpc.uid != NO_UID
    ensures var (after, m) := StatusReconciled(db, c, mem, view, fault);
            Inv(after, parses) && Writable(after, c, m)
  {
    var m := StatusSet(mem, view);
    StatusSetOk(db, c, mem, view);
    assert KeepsHold(db.controlPlanes[c], m);
    if m.status.ready && m.spec.endpoint.IsValid() && fault.Works? {
      KubeconfigStored(db, c, parses);
      var later := db.(kubeconfigs := db.kubeconfigs + {c});
      ControlPlaneOkGrows(db, later, c, m);
      InitializedOk(later, c, m);
    }
  }

  lemma InitializedOk(db: Db, c: string, mem: ControlPlane)
    requires c in db.kubeconfigs && ControlPlaneOk(db.log, db.kubeconfigs, c, mem)
    ensures ControlPlaneOk(db.log, db.kubeconfigs, c, mem.(status := mem.status.(initialized := true)))
  {
  }

  /******* The whole pass *******/

  lemma MemIsWritable(db: Db, c: string, mem: ControlPlane)
    requires MemOk(db, c, mem)
    ensures Writable(db, c, mem)
  {
  }

  lemma NetworkStage(db: Db, c: string, mem: ControlPlane, plan: CpPlan, parses: CidrParser)
    requires Inv(db, parses) && MemOk(db, c, mem)
    ensures var n := NetworkReconciled(db, mem, plan).0;
            && Inv(n.db, parses) && MemOk(n.db, c, n.mem)
            && (n.ok && n.mem.spec.vpc.name != "" ==> n.mem.spec.vpc.uid != NO_UID)
  {
    VpcStage(db, c, mem, plan.vpc, parses);
    var v := ReconciledVpc(db, Self(mem), mem.spec.vpc, plan.vpc);
    var m1 := mem.(spec := mem.spec.(vpc := v.vpc));
    if v.err.None? {
      VswitchStage(v.db, c, m1, v.id, plan.vswitches, parses);
    }
  }

  lemma ClusterStage(db: Db, c: string, mem: ControlPlane, ids: seq<string>, plan: CpPlan, parses: CidrParser)
    requires Inv(db, parses) && MemOk(db, c, mem)
    requires mem.spec.vpc.name != "" ==> mem.spec.vpc.uid != NO_UID
    ensures var (after, m) := ClusterReconciled(db, c, mem, ids, plan);
            Inv(after, parses) && Writable(after, c, m)
  {
    KubernetesStage(db, c, mem, ids, plan.kubernetes, parses);
    var (k, view) := KubernetesReconciled(db, c, mem, ids, plan.kubernetes);
    if k.ok {
      StatusStage(k.db, c, k.mem, view, plan.kubeconfig, parses);
    } else {
      MemIsWritable(k.db, c, k.mem);
    }
  }

  lemma NetworkAndClusterStage(db: Db, c: string, mem: ControlPlane, plan: CpPlan, parses: CidrParser)
    requires Inv(db, parses) && MemOk(db, c, mem)
    ensures var (after, m) := NetworkAndClusterReconciled(db, c, mem, plan);
            Inv(after, parses) && Writable(after, c, m)
  {
    NetworkStage(db, c, mem, plan, parses);
    var (n, ids) := NetworkReconciled(db, mem, plan);
    if n.ok {
      ClusterStage(n.db, c, n.mem, ids, plan, parses);
    } else {
      MemIsWritable(n.db, c, n.mem);
    }
  }

  lemma UnfinalizedIsWritable(db: Db, c: string, fault: Fault)
    requires c in db.controlPlanes && ControlPlaneOk(db.log, db.kubeconfigs, c, db.controlPlanes[c])
    ensures Writable(db, c, db.controlPlanes[c])
    ensures var a := FinalizerAdded(db, c, db.controlPlanes[c], fault);
            !a.ok ==> Writable(a.db, c, a.mem)
  {
    FinalizerAddedFacts(db, c, db.controlPlanes[c], fault);
  }

  lemma SyncedStage(db: Db, c: string, plan: CpPlan, parses: CidrParser)
    requires Inv(db, parses) && c in db.controlPlanes && !db.controlPlanes[c].meta.Deleting()
    ensures var (after, m) := Synced(db, c, db.controlPlanes[c], plan);
            Inv(after, parses) && Writable(after, c, m)
  {
    var cp := db.controlPlanes[c];
    assert ControlPlaneOk(db.log, db.kubeconfigs, c, cp);
    UnfinalizedIsWritable(db, c, plan.finalizerFault);
    FinalizerStage(db, c, plan.finalizerFault, parses);
    var a := FinalizerAdded(db, c, cp, plan.finalizerFault);
    if a.ok {
      MemIsWritable(a.db, c, a.mem);
      NetworkAndClusterStage(a.db, c, a.mem, plan, parses);
    }
  }

  /** Deleting vswitches keeps the invariant. */
  lemma OnlyDeletesKeeps(db: Db, later: Db, entries: seq<VSwitch>, parses: CidrParser)
    requires Inv(db, parses) && OnlyDeletes(db, later, entries)
    ensures Inv(later, parses)
  {
    forall n | n in later.vswitches ensures VswitchOk(later.log, later.controlPlanes, n, later.vswitches[n]) {
      assert VswitchOk(db.log, db.controlPlanes, n, db.vswitches[n]) && DeletedOrKept(db, later, entries, n);
    }
  }

  lemma RemovedVpcKeeps(db: Db, vpc: VPC, fault: Fault, parses: CidrParser)
    requires Inv(db, parses)
    ensures var v := RemovedVpc(db, vpc, fault);
            Inv(v.db, parses) && v.db == db.(vpcs := v.db.vpcs)
  {
    if vpc.name in db.vpcs {
      VpcChanged(db, vpc.name, db.vpcs[vpc.name].(meta := MarkDeleted(db, db.vpcs[vpc.name].meta)), parses);
    }
  }

  /** The in-memory object before the deferred write, when the finalizer is to go. */
  ghost predicate Releasable(db: Db, c: string, mem: ControlPlane)
  {
    && c in db.controlPlanes && NoChildren(db, c)
    && mem == db.controlPlanes[c].(meta := WithoutFinalizer(db.controlPlanes[c].meta, CONTROL_PLANE_FINALIZER))
  }

  /** The finalizer goes only when the cluster is absent and every vswitch of the list is
      absent or deleting, and then no child of the control plane is left alive. */
  lemma DeletedStage(db: Db, c: string, plan: CpPlan, parses: CidrParser)
    requires Inv(db, parses) && c in db.controlPlanes && db.controlPlanes[c].meta.Deleting()
    ensures var (after, m) := Deleted(db, c, db.controlPlanes[c], plan);
            && Inv(after, parses)
            && (m == db.controlPlanes[c] || Releasable(after, c, m))
            && after.controlPlanes == db.controlPlanes && after.log == db.log && after.kubeconfigs == db.kubeconfigs
  {
    if c in db.kubernetes {
      KubernetesDeletionKeeps(db, c, parses);
      assert DeleteKubernetes(db, c) == db.(kubernetes := DeleteKubernetes(db, c).kubernetes);
    } else if plan.kubernetes.ReadFails? {
      assert Deleted(db, c, db.controlPlanes[c], plan) == (db, db.controlPlanes[c]);
    } else {
      TeardownStage(db, c, plan, parses);
    }
  }

  lemma TeardownStage(db: Db, c: string, plan: CpPlan, parses: CidrParser)
    requires Inv(db, parses) && c in db.controlPlanes && c !in db.kubernetes
    ensures var (after, m) := TornDown(db, db.controlPlanes[c], plan);
            && Inv(after, parses)
            && (m == db.controlPlanes[c] || Releasable(after, c, m))
            && after == db.(vswitches := after.vswitches, vpcs := after.vpcs)
  {
    var cp := db.controlPlanes[c];
    RemoveContract(db, cp.spec.vswitches, plan.vswitches);
    var r := RemovePass(db, cp.spec.vswitches, plan.vswitches);
    OnlyDeletesKeeps(db, r.db, cp.spec.vswitches, parses);
    if OnlyTimeouts(r.errors) {
      RemovedVpcKeeps(r.db, cp.spec.vpc, plan.vpc, parses);
      AllListedDeleting(db, r.db, c, parses);
    }
  }

  lemma AllListedDeleting(db: Db, later: Db, c: string, parses: CidrParser)
    requires Inv(later, parses) && c in db.controlPlanes && later.controlPlanes == db.controlPlanes && c !in later.kubernetes
    requires forall n :: SelfCreated(db.controlPlanes[c].spec.vswitches, n) ==> AbsentOrDeleting(later, n)
    ensures NoChildren(later, c)
  {
    assert ControlPlaneOk(later.log, later.kubeconfigs, c, later.controlPlanes[c]);
    forall n | n in later.vswitches && ChildOf(later.vswitches[n].meta, later.controlPlanes[c].meta.uid)
      ensures later.vswitches[n].meta.Deleting()
    {
      assert VswitchOk(later.log, later.controlPlanes, n, later.vswitches[n]);
    }
  }

  /******* The deferred write *******/

  lemma StatusMixed(log: Log, kubeconfigs: set<string>, c: string, cp: ControlPlane, mem: ControlPlane)
    requires ControlPlaneOk(log, kubeconfigs, c, cp) && ControlPlaneOk(log, kubeconfigs, c, mem)
    ensures var mixed := cp.(version := cp.version + 1, status := mem.status);
            ControlPlaneOk(log, kubeconfigs, c, mixed) && KeepsHold(cp, mixed)
  {
  }

  lemma AtomicallyWritten(log: Log, kubeconfigs: set<string>, c: string, cp: ControlPlane, mem: ControlPlane)
    requires ControlPlaneOk(log, kubeconfigs, c, cp) && ControlPlaneOk(log, kubeconfigs, c, mem)
    requires mem.meta.uid == cp.meta.uid && mem.meta.deletedAt == cp.meta.deletedAt && KeepsHold(cp, mem)
    ensures var written := AtomicWrite(cp, mem).(version := cp.version + 2);
            ControlPlaneOk(log, kubeconfigs, c, written) && KeepsHold(cp, written)
  {
  }

  lemma WriteStage(db: Db, c: string, mem: ControlPlane, plan: CpPlan, parses: CidrParser)
    requires Inv(db, parses) && Writable(db, c, mem)
    ensures Inv(WrittenControlPlane(db, c, mem, plan), parses)
  {
    var stored := db.controlPlanes[c];
    var admitted := AdmitsUpdate(mem.spec, stored.spec);
    var after := WrittenBack(stored, mem, admitted, plan.statusFault, plan.specFault);
    assert ControlPlaneOk(db.log, db.kubeconfigs, c, stored);
    TwoPhaseRefinesAtomic(stored, mem, admitted, plan.statusFault, plan.specFault);
    StatusMixed(db.log, db.kubeconfigs, c, stored, mem);
    AtomicallyWritten(db.log, db.kubeconfigs, c, stored, mem);
    ControlPlaneKept(db, c, after, parses);
  }

  lemma ReleaseStage(db: Db, c: string, mem: ControlPlane, plan: CpPlan, parses: CidrParser)
    requires Inv(db, parses) && Releasable(db, c, mem)
    ensures Inv(WrittenControlPlane(db, c, mem, plan), parses)
  {
    var stored := db.controlPlanes[c];
    var admitted := AdmitsUpdate(mem.spec, stored.spec);
    var after := WrittenBack(stored, mem, admitted, plan.statusFault, plan.specFault);
    assert ControlPlaneOk(db.log, db.kubeconfigs, c, stored);
    TwoPhaseRefinesAtomic(stored, mem, admitted, plan.statusFault, plan.specFault);
    ControlPlaneReleased(db, c, after, parses);
  }

  lemma ControlPlanePassKeeps(db: Db, c: string, plan: CpPlan, parses: CidrParser)
    requires Inv(db, parses) && c in db.controlPlanes && !db.controlPlanes[c].meta.Gone()
    ensures Inv(ControlPlanePass(db, c, plan), parses)
  {
    var cp := db.controlPlanes[c];
    PassKeepsObject(db, c, plan);
    var (after, mem) := PassBody(db, c, plan);
    if plan.readable {
      if !cp.meta.Deleting() {
        SyncedStage(db, c, plan, parses);
        WriteStage(after, c, mem, plan, parses);
      } else {
        DeletedStage(db, c, plan, parses);
        if Releasable(after, c, mem) {
          ReleaseStage(after, c, mem, plan, parses);
        } else {
          assert ControlPlaneOk(db.log, db.kubeconfigs, c, cp);
          assert Writable(after, c, mem);
          WriteStage(after, c, mem, plan, parses);
        }
      }
    }
  }
}
