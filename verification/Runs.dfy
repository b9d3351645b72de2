/** Runs of the whole system: users, an outsider with kubectl, the cloud provider, the clock
    and the four reconcilers act on one store, in any order and with any faults. */
module Runs {
  import opened Wrappers
  import opened CommonApi
  import opened ApiServer
  import opened ControlPlaneWebhook
  import opened MachinePoolWebhook
  import opened ControlPlaneController
  import opened MachinePoolController
  import opened Collectors

  datatype Event =
    | UserCreatesControlPlane(c: string, spec: ControlPlaneSpec)
    | UserUpdatesControlPlane(c: string, spec: ControlPlaneSpec)
    | UserDeletesControlPlane(c: string)
    | ReconcileControlPlane(c: string, plan: CpPlan)
    | UserCreatesPool(p: string, poolSpec: PoolSpec)
    | UserUpdatesPool(p: string, poolSpec: PoolSpec)
    | UserDeletesPool(p: string)
    | ReconcilePool(p: string, poolPlan: PoolPlan)
    | CollectVswitch(n: string, collectPlan: CollectPlan)
    | CleanVpc(n: string, fault: Fault)
    | ProviderVswitch(n: string, finalizers: set<string>, cloudId: Option<string>, messages: Messages)
    | ProviderVpc(n: string, finalizers: set<string>, cloudId: Option<string>, messages: Messages)
    | ProviderKubernetes(c: string, finalizers: set<string>, kubernetesStatus: KubernetesStatus)
    | ProviderNodePool(p: string, finalizers: set<string>, nodePoolStatus: NodePoolStatus)
    | OutsiderCreatesVswitch(n: string, zoneId: string, cidrBlock: string, vpcId: string)
    | OutsiderDeletesVswitch(n: string)
    | OutsiderDeletesVpc(n: string)
    | OutsiderDeletesKubernetes(c: string)
    | OutsiderDeletesNodePool(p: string)
    | Tick

  /** Users never write the back-filled fields: the records are empty on creation ... */
  predicate NoRecords(entries: seq<VSwitch>)
  {
    forall k :: 0 <= k < |entries| ==> entries[k].resourceId == "" && entries[k].uid == NO_UID
  }

  /** ... an update of a control plane keeps them in place ... */
  predicate KeepsRecords(spec: ControlPlaneSpec, prev: ControlPlaneSpec)
  {
    && spec.vpc.resourceId == prev.vpc.resourceId && spec.vpc.uid == prev.vpc.uid
    && |spec.vswitches| == |prev.vswitches|
    && (forall k :: 0 <= k < |spec.vswitches| ==>
          spec.vswitches[k].resourceId == prev.vswitches[k].resourceId && spec.vswitches[k].uid == prev.vswitches[k].uid)
    && spec.endpoint == prev.endpoint
  }

  ghost predicate UserMayUpdate(spec: ControlPlaneSpec, prev: ControlPlaneSpec)
  {
    AdmitsUpdate(spec, prev) && KeepsRecords(spec, prev)
  }

  /** ... and an update of a pool, which may drop, add and reorder vswitches, either clears
      them or carries them along with the name. */
  predicate CarriesRecords(entries: seq<VSwitch>, prev: seq<VSwitch>)
  {
    forall k :: 0 <= k < |entries| ==>
      || (entries[k].resourceId == "" && entries[k].uid == NO_UID)
      || exists j :: 0 <= j < |prev| && entries[k].id == prev[j].id && entries[k].name == prev[j].name &&
                     entries[k].resourceId == prev[j].resourceId && entries[k].uid == prev[j].uid
  }

  ghost predicate UserMayUpdatePool(spec: PoolSpec, prev: PoolSpec, parses: CidrParser)
  {
    PoolAdmitsUpdate(spec, prev, parses) && spec.cluster == prev.cluster && CarriesRecords(spec.vswitches, prev.vswitches)
  }

  /** A cluster the provider calls ready has an id, and an endpoint that decodes has a host. */
  predicate PlausibleStatus(s: KubernetesStatus)
  {
    s.ready ==> s.id != "" && (s.endpoint.Some? ==> s.endpoint.value.host != "")
  }

  function CreatedControlPlane(db: Db, c: string, spec: ControlPlaneSpec): Db
  {
    Born(db, ControlPlaneKind, c, []).(controlPlanes := db.controlPlanes[c :=
      Stored(NewMeta(db, []), 0, spec, ControlPlaneStatus(false, false, "", false, false))])
  }

  function CreatedPool(db: Db, p: string, spec: PoolSpec): Db
  {
    Born(db, MachinePoolKind, p, []).(pools := db.pools[p :=
      Stored(NewMeta(db, []), 0, spec, PoolStatus(false, false, false))])
  }

  function UpdatedByUser(db: Db, c: string, spec: ControlPlaneSpec): Db
    requires c in db.controlPlanes
  {
    var cp := db.controlPlanes[c];
    PutControlPlane(db, c, cp.(version := cp.version + 1, spec := spec))
  }

  function DeletedControlPlane(db: Db, c: string): Db
    requires c in db.controlPlanes
  {
    var cp := db.controlPlanes[c];
    PutControlPlane(db, c, cp.(meta := MarkDeleted(db, cp.meta)))
  }

  function UpdatedPool(db: Db, p: string, spec: PoolSpec): Db
    requires p in db.pools
  {
    var pool := db.pools[p];
    PutPool(db, p, pool.(version := pool.version + 1, spec := spec))
  }

  function DeletedPool(db: Db, p: string): Db
    requires p in db.pools
  {
    var pool := db.pools[p];
    PutPool(db, p, pool.(meta := MarkDeleted(db, pool.meta)))
  }

  /** The provider reports on a managed resource and sets or removes its finalizers. */
  function ReportedVswitch(db: Db, n: string, finalizers: set<string>, cloudId: Option<string>, messages: Messages): Db
    requires n in db.vswitches
  {
    var v := db.vswitches[n];
    PutVswitch(db, n, v.(meta := v.meta.(finalizers := finalizers), cloudId := cloudId, messages := messages))
  }

  function ReportedVpc(db: Db, n: string, finalizers: set<string>, cloudId: Option<string>, messages: Messages): Db
    requires n in db.vpcs
  {
    var v := db.vpcs[n];
    PutVpc(db, n, v.(meta := v.meta.(finalizers := finalizers), cloudId := cloudId, messages := messages))
  }

  function ReportedKubernetes(db: Db, c: string, finalizers: set<string>, status: KubernetesStatus): Db
    requires c in db.kubernetes
  {
    var k := db.kubernetes[c];
    PutKubernetes(db, c, k.(meta := k.meta.(finalizers := finalizers), status := status))
  }

  function ReportedNodePool(db: Db, p: string, finalizers: set<string>, status: NodePoolStatus): Db
    requires p in db.nodePools
  {
    var np := db.nodePools[p];
    PutNodePool(db, p, np.(meta := np.meta.(finalizers := finalizers), status := status))
  }

  /** One step of the system; an event that is not possible changes nothing. */
  ghost function Next(db: Db, e: Event, parses: CidrParser): Db
  {
    match e
    case UserCreatesControlPlane(c, spec) =>
      if c !in db.controlPlanes && AdmitsCreate(spec, parses) && NoRecords(spec.vswitches) &&
         spec.vpc.resourceId == "" && spec.vpc.uid == NO_UID
      then CreatedControlPlane(db, c, spec) else db
    case UserUpdatesControlPlane(c, spec) =>
      if c in db.controlPlanes && UserMayUpdate(spec, db.controlPlanes[c].spec)
      then UpdatedByUser(db, c, spec) else db
    case UserDeletesControlPlane(c) => if c in db.controlPlanes then DeletedControlPlane(db, c) else db
    case ReconcileControlPlane(c, plan) =>
      if c in db.controlPlanes && !db.controlPlanes[c].meta.Gone() then ControlPlanePass(db, c, plan) else db
    case UserCreatesPool(p, spec) =>
      if p !in db.pools && PoolAdmitsCreate(spec, parses) && NoRecords(spec.vswitches) then CreatedPool(db, p, spec) else db
    case UserUpdatesPool(p, spec) =>
      if p in db.pools && UserMayUpdatePool(spec, db.pools[p].spec, parses) then UpdatedPool(db, p, spec) else db
    case UserDeletesPool(p) => if p in db.pools then DeletedPool(db, p) else db
    case ReconcilePool(p, plan) =>
      if p in db.pools && !db.pools[p].meta.Gone() then PoolPass(db, p, parses, plan) else db
    case CollectVswitch(n, plan) => CollectPass(db, n, plan)
    case CleanVpc(n, fault) => ForceCleanVpc(db, n, fault)
    case ProviderVswitch(n, finalizers, cloudId, messages) =>
      if n in db.vswitches then ReportedVswitch(db, n, finalizers, cloudId, messages) else db
    case ProviderVpc(n, finalizers, cloudId, messages) =>
      if n in db.vpcs then ReportedVpc(db, n, finalizers, cloudId, messages) else db
    case ProviderKubernetes(c, finalizers, status) =>
      if c in db.kubernetes && PlausibleStatus(status) then ReportedKubernetes(db, c, finalizers, status) else db
    case ProviderNodePool(p, finalizers, status) =>
      if p in db.nodePools then ReportedNodePool(db, p, finalizers, status) else db
    case OutsiderCreatesVswitch(n, zoneId, cidrBlock, vpcId) =>
      if n !in db.vswitches then CreateVswitch(db, n, [], zoneId, cidrBlock, vpcId) else db
    case OutsiderDeletesVswitch(n) => if n in db.vswitches then DeleteVswitch(db, n) else db
    case OutsiderDeletesVpc(n) => if n in db.vpcs then DeleteVpc(db, n) else db
    case OutsiderDeletesKubernetes(c) => if c in db.kubernetes then DeleteKubernetes(db, c) else db
    case OutsiderDeletesNodePool(p) => if p in db.nodePools then DeleteNodePool(db, p) else db
    case Tick => db.(clock := db.clock + 1)
  }

  function Empty(timeout: nat): Db
  {
    Db(0, timeout, 1, map[], map[], map[], map[], map[], map[], map[], map[], {})
  }

  /** The store after a sequence of events. */
  ghost function Run(es: seq<Event>, timeout: nat, parses: CidrParser): Db
  {
    if es == [] then Empty(timeout)
    else Next(Run(es[..|es| - 1], timeout, parses), es[|es| - 1], parses)
  }
}
