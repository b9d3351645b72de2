/** The objects kept by the Kubernetes API server. Names are unique per kind. Every created
    object gets a fresh uid, and the log remembers, for ever, which object and which owners
    each uid was born with. */
module ApiServer {
  import opened Wrappers
  import opened CommonApi

  /** Sets metadata.finalizers of the owner objects and of the managed resources. */
  const CONTROL_PLANE_FINALIZER := "aliyunmanagedcontrolplane.controlplane.cluster.x-k8s.io"
  const MACHINE_POOL_FINALIZER := "aliyunmanagedmachinepools.infrastructure.cluster.x-k8s.io"
  const MANAGED_FINALIZER := "finalizer.managedresource.crossplane.io"

  datatype Kind = ControlPlaneKind | MachinePoolKind | VswitchKind | VpcKind | KubernetesKind | NodePoolKind

  datatype OwnerRef = OwnerRef(kind: Kind, uid: Uid)

  datatype Meta = Meta(uid: Uid, owners: seq<OwnerRef>, deletedAt: Option<nat>, finalizers: set<string>) {
    predicate Deleting() { deletedAt.Some? }
    /** The ownership test of the reconcilers: only the first owner reference counts. */
    predicate OwnedBy(uid: Uid) { owners != [] && owners[0].uid == uid }
    /** An object whose deletion was asked for disappears with its last finalizer. */
    predicate Gone() { Deleting() && finalizers == {} }
  }

  /** The three condition messages a managed resource may carry (empty when there is none). */
  datatype Messages = Messages(synced: string, async: string, lastAsync: string)

  datatype Vswitch = Vswitch(meta: Meta, zoneId: string, cidrBlock: string, vpcId: string,
                             cloudId: Option<string>, messages: Messages)
  datatype Vpc = Vpc(meta: Meta, cidrBlock: string, cloudId: Option<string>, messages: Messages)

  datatype Endpoint = Endpoint(host: string, port: int) {
    predicate IsValid() { host != "" && port != 0 }
  }

  /** What the provider reports about a cluster; endpoint is None when it cannot be decoded. */
  datatype KubernetesStatus = KubernetesStatus(ready: bool, id: string, vpcId: string, endpoint: Option<Endpoint>)
  datatype ManagedKubernetes = ManagedKubernetes(meta: Meta, clusterName: string, vswitchIds: seq<string>,
                                                 status: KubernetesStatus)

  datatype NodePoolSpec = NodePoolSpec(clusterId: string, vswitchIds: seq<string>,
                                       keyName: Option<string>, passwordSecret: Option<string>,
                                       securityGroupIds: seq<string>)
  datatype NodePoolStatus = NodePoolStatus(ready: bool, vswitchIds: seq<string>, securityGroupIds: seq<string>)
  datatype NodePool = NodePool(meta: Meta, spec: NodePoolSpec, status: NodePoolStatus)

  /** An owner object, with the resource version that guards its updates. */
  datatype Stored<S, T> = Stored(meta: Meta, version: nat, spec: S, status: T)

  datatype ControlPlaneSpec = ControlPlaneSpec(clusterName: string, region: string, vpc: VPC, vswitches: seq<VSwitch>,
                                               endpoint: Endpoint)
  datatype ControlPlaneStatus = ControlPlaneStatus(ready: bool, initialized: bool, clusterId: string,
                                                   creating: bool, updating: bool)
  type ControlPlane = Stored<ControlPlaneSpec, ControlPlaneStatus>

  datatype PoolSpec = PoolSpec(cluster: string, region: string, clusterId: string, vswitches: seq<VSwitch>,
                               keyName: string, password: string, securityGroupIds: seq<string>)
  datatype PoolStatus = PoolStatus(ready: bool, creating: bool, updating: bool)
  type Pool = Stored<PoolSpec, PoolStatus>

  /** Which object a uid was given to, for ever. */
  datatype Birth = Birth(kind: Kind, name: string, owners: seq<OwnerRef>)

  /** Everything stored. Control planes are keyed by the name of their cluster and pools by
      their own name, so those names are taken to be distinct across namespaces. */
  datatype Db = Db(
    clock: nat, timeout: nat, nextUid: Uid, log: map<Uid, Birth>,
    controlPlanes: map<string, ControlPlane>, pools: map<string, Pool>,
    vswitches: map<string, Vswitch>, vpcs: map<string, Vpc>,
    kubernetes: map<string, ManagedKubernetes>, nodePools: map<string, NodePool>,
    passwords: map<string, string>, kubeconfigs: set<string>)

  /** What the API server does to the calls about one object during a pass. */
  datatype Fault = Works | ReadFails | WriteFails

  datatype Lookup<+T> = Found(value: T) | NotFound | Failed

  /** The object is past its deletion deadline: DeletionTimestamp.Before(now - timeout). */
  predicate TimedOut(db: Db, meta: Meta)
  {
    meta.Deleting() && meta.deletedAt.value < db.clock - db.timeout
  }

  function Born(db: Db, kind: Kind, name: string, owners: seq<OwnerRef>): Db
  {
    db.(nextUid := db.nextUid + 1, log := db.log[db.nextUid := Birth(kind, name, owners)])
  }

  function NewMeta(db: Db, owners: seq<OwnerRef>): Meta
  {
    Meta(db.nextUid, owners, None, {})
  }

  /** metadata after a Delete call, for an object that stays because of its finalizers. */
  function MarkDeleted(db: Db, meta: Meta): Meta
  {
    if meta.Deleting() then meta else meta.(deletedAt := Some(db.clock))
  }

  function CreateVswitch(db: Db, name: string, owners: seq<OwnerRef>, zoneId: string, cidrBlock: string,
                         vpcId: string): Db
  {
    Born(db, VswitchKind, name, owners).(vswitches := db.vswitches[name :=
      Vswitch(NewMeta(db, owners), zoneId, cidrBlock, vpcId, None, Messages("", "", ""))])
  }

  function CreateKubernetes(db: Db, name: string, owners: seq<OwnerRef>, clusterName: string,
                            vswitchIds: seq<string>): Db
  {
    Born(db, KubernetesKind, name, owners).(kubernetes := db.kubernetes[name :=
      ManagedKubernetes(NewMeta(db, owners), clusterName, vswitchIds, KubernetesStatus(false, "", "", None))])
  }

  function CreateNodePool(db: Db, name: string, owners: seq<OwnerRef>, spec: NodePoolSpec): Db
  {
    Born(db, NodePoolKind, name, owners).(nodePools := db.nodePools[name :=
      NodePool(NewMeta(db, owners), spec, NodePoolStatus(false, [], []))])
  }

  function CreateVpc(db: Db, name: string, owners: seq<OwnerRef>, cidrBlock: string): Db
  {
    Born(db, VpcKind, name, owners).(vpcs := db.vpcs[name :=
      Vpc(NewMeta(db, owners), cidrBlock, None, Messages("", "", ""))])
  }

  /** Stores a vswitch's new version; one that has lost its last finalizer disappears. */
  function PutVswitch(db: Db, name: string, v: Vswitch): Db
  {
    db.(vswitches := if v.meta.Gone() then db.vswitches - {name} else db.vswitches[name := v])
  }

  function PutVpc(db: Db, name: string, v: Vpc): Db
  {
    db.(vpcs := if v.meta.Gone() then db.vpcs - {name} else db.vpcs[name := v])
  }

  function PutKubernetes(db: Db, name: string, k: ManagedKubernetes): Db
  {
    db.(kubernetes := if k.meta.Gone() then db.kubernetes - {name} else db.kubernetes[name := k])
  }

  function PutNodePool(db: Db, name: string, np: NodePool): Db
  {
    db.(nodePools := if np.meta.Gone() then db.nodePools - {name} else db.nodePools[name := np])
  }

  function PutControlPlane(db: Db, name: string, cp: ControlPlane): Db
  {
    db.(controlPlanes := if cp.meta.Gone() then db.controlPlanes - {name} else db.controlPlanes[name := cp])
  }

  function PutPool(db: Db, name: string, p: Pool): Db
  {
    db.(pools := if p.meta.Gone() then db.pools - {name} else db.pools[name := p])
  }

  function DeleteVswitch(db: Db, name: string): Db
    requires name in db.vswitches
  {
    var v := db.vswitches[name];
    PutVswitch(db, name, v.(meta := MarkDeleted(db, v.meta)))
  }

  function DeleteVpc(db: Db, name: string): Db
    requires name in db.vpcs
  {
    var v := db.vpcs[name];
    PutVpc(db, name, v.(meta := MarkDeleted(db, v.meta)))
  }

  function DeleteKubernetes(db: Db, name: string): Db
    requires name in db.kubernetes
  {
    var k := db.kubernetes[name];
    PutKubernetes(db, name, k.(meta := MarkDeleted(db, k.meta)))
  }

  function DeleteNodePool(db: Db, name: string): Db
    requires name in db.nodePools
  {
    var np := db.nodePools[name];
    PutNodePool(db, name, np.(meta := MarkDeleted(db, np.meta)))
  }

  /** controllerutil.RemoveFinalizer */
  function WithoutFinalizer(meta: Meta, finalizer: string): Meta
  {
    meta.(finalizers := meta.finalizers - {finalizer})
  }

  /** controllerutil.AddFinalizer */
  function WithFinalizer(meta: Meta, finalizer: string): Meta
  {
    meta.(finalizers := meta.finalizers + {finalizer})
  }

  /** An update of the status subresource: the stored status changes, nothing else does, and
      the new version of the object comes back as the response. */
  function UpdateStatus<S, T>(stored: Stored<S, T>, obj: Stored<S, T>, fault: Fault): Option<Stored<S, T>>
  {
    if fault.WriteFails? || obj.version != stored.version then None
    else Some(stored.(version := stored.version + 1, status := obj.status))
  }

  /** An update of the object itself: it ignores the status, and the webhook must admit it. */
  function UpdateObject<S, T>(stored: Stored<S, T>, obj: Stored<S, T>, admitted: bool, fault: Fault): Option<Stored<S,
                              T>>
  {
    if fault.WriteFails? || obj.version != stored.version || !admitted then None
    else Some(stored.(version := stored.version + 1, spec := obj.spec,
                      meta := stored.meta.(finalizers := obj.meta.finalizers)))
  }
}
