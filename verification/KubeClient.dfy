/** The client handed to every reconciler: each call changes the stored objects as the API
    server does, and may fail. Updates of owner objects go through the webhooks. */
module KubeClient {
  import opened Wrappers
  import opened CommonApi
  import opened ApiServer
  import opened ControlPlaneWebhook
  import opened MachinePoolWebhook

  class Client {
    var db: Db
    const parses: CidrParser

    constructor (db: Db, parses: CidrParser)
      ensures this.db == db && this.parses == parses
    {
      this.db := db;
      this.parses := parses;
    }

    method GetVswitch(name: string, fault: Fault) returns (r: Lookup<Vswitch>)
      ensures r == if fault.ReadFails? then Failed else if name in db.vswitches then Found(db.vswitches[name]) else NotFound
    {
      r := if fault.ReadFails? then Failed else if name in db.vswitches then Found(db.vswitches[name]) else NotFound;
    }

    method GetVpc(name: string, fault: Fault) returns (r: Lookup<Vpc>)
      ensures r == if fault.ReadFails? then Failed else if name in db.vpcs then Found(db.vpcs[name]) else NotFound
    {
      r := if fault.ReadFails? then Failed else if name in db.vpcs then Found(db.vpcs[name]) else NotFound;
    }

    method CreateVswitchObject(name: string, owner: OwnerRef, zoneId: string, cidrBlock: string, vpcId: string,
                               fault: Fault)
      returns (created: Option<Uid>)
      requires name !in db.vswitches
      modifies this
      ensures created == if fault.WriteFails? then None else Some(old(db.nextUid))
      ensures db == if fault.WriteFails? then old(db) else CreateVswitch(old(db), name, [owner], zoneId, cidrBlock, vpcId)
    {
      if fault.WriteFails? {
        return None;
      }
      created := Some(db.nextUid);
      db := CreateVswitch(db, name, [owner], zoneId, cidrBlock, vpcId);
    }

    method CreateVpcObject(name: string, owner: OwnerRef, cidrBlock: string,
                           fault: Fault) returns (created: Option<Uid>)
      requires name !in db.vpcs
      modifies this
      ensures created == if fault.WriteFails? then None else Some(old(db.nextUid))
      ensures db == if fault.WriteFails? then old(db) else CreateVpc(old(db), name, [owner], cidrBlock)
    {
      if fault.WriteFails? {
        return None;
      }
      created := Some(db.nextUid);
      db := CreateVpc(db, name, [owner], cidrBlock);
    }

    method UpdateControlPlaneStatus(name: string, obj: ControlPlane,
                                    fault: Fault) returns (response: Option<ControlPlane>)
      requires name in db.controlPlanes
      modifies this
      ensures response == UpdateStatus(old(db).controlPlanes[name], obj, fault)
      ensures db == if response.Some? then PutControlPlane(old(db), name, response.value) else old(db)
    {
      response := UpdateStatus(db.controlPlanes[name], obj, fault);
      if response.Some? {
        db := PutControlPlane(db, name, response.value);
      }
    }

    method UpdateControlPlane(name: string, obj: ControlPlane, fault: Fault) returns (response: Option<ControlPlane>)
      requires name in db.controlPlanes
      modifies this
      ensures response == UpdateObject(old(db).controlPlanes[name], obj,
                                       AdmitsUpdate(obj.spec, old(db).controlPlanes[name].spec), fault)
      ensures db == if response.Some? then PutControlPlane(old(db), name, response.value) else old(db)
    {
      var errs := ValidateUpdate(obj.spec, db.controlPlanes[name].spec);
      response := UpdateObject(db.controlPlanes[name], obj, errs == [], fault);
      if response.Some? {
        db := PutControlPlane(db, name, response.value);
      }
    }

    method DeleteVswitchObject(name: string, fault: Fault) returns (ok: bool)
      requires name in db.vswitches
      modifies this
      ensures ok == !fault.WriteFails?
      ensures db == if ok then DeleteVswitch(old(db), name) else old(db)
    {
      ok := !fault.WriteFails?;
      if ok {
        db := DeleteVswitch(db, name);
      }
    }

    method DeleteVpcObject(name: string, fault: Fault) returns (ok: bool)
      requires name in db.vpcs
      modifies this
      ensures ok == !fault.WriteFails?
      ensures db == if ok then DeleteVpc(old(db), name) else old(db)
    {
      ok := !fault.WriteFails?;
      if ok {
        db := DeleteVpc(db, name);
      }
    }

    method UpdatePoolStatus(name: string, obj: Pool, fault: Fault) returns (response: Option<Pool>)
      requires name in db.pools
      modifies this
      ensures response == UpdateStatus(old(db).pools[name], obj, fault)
      ensures db == if response.Some? then PutPool(old(db), name, response.value) else old(db)
    {
      response := UpdateStatus(db.pools[name], obj, fault);
      if response.Some? {
        db := PutPool(db, name, response.value);
      }
    }

    method UpdatePool(name: string, obj: Pool, fault: Fault) returns (response: Option<Pool>)
      requires name in db.pools
      modifies this
      ensures response == UpdateObject(old(db).pools[name], obj,
                                       PoolAdmitsUpdate(obj.spec, old(db).pools[name].spec, parses), fault)
      ensures db == if response.Some? then PutPool(old(db), name, response.value) else old(db)
    {
      var errs := ValidatePoolUpdate(obj.spec, db.pools[name].spec, parses);
      response := UpdateObject(db.pools[name], obj, errs == [], fault);
      if response.Some? {
        db := PutPool(db, name, response.value);
      }
    }

    method GetKubernetes(name: string, fault: Fault) returns (r: Lookup<ManagedKubernetes>)
      ensures r == if fault.ReadFails? then Failed else if name in db.kubernetes then Found(db.kubernetes[name]) else NotFound
    {
      r := if fault.ReadFails? then Failed else if name in db.kubernetes then Found(db.kubernetes[name]) else NotFound;
    }

    method CreateKubernetesObject(name: string, owner: OwnerRef, clusterName: string, vswitchIds: seq<string>,
                                  fault: Fault)
      returns (ok: bool)
      modifies this
      ensures ok == !fault.WriteFails?
      ensures db == if ok then CreateKubernetes(old(db), name, [owner], clusterName, vswitchIds) else old(db)
    {
      ok := !fault.WriteFails?;
      if ok {
        db := CreateKubernetes(db, name, [owner], clusterName, vswitchIds);
      }
    }

    method UpdateKubernetes(name: string, k: ManagedKubernetes, fault: Fault) returns (ok: bool)
      modifies this
      ensures ok == !fault.WriteFails?
      ensures db == if ok then PutKubernetes(old(db), name, k) else old(db)
    {
      ok := !fault.WriteFails?;
      if ok {
        db := PutKubernetes(db, name, k);
      }
    }

    method DeleteKubernetesObject(name: string, fault: Fault) returns (ok: bool)
      requires name in db.kubernetes
      modifies this
      ensures ok == !fault.WriteFails?
      ensures db == if ok then DeleteKubernetes(old(db), name) else old(db)
    {
      ok := !fault.WriteFails?;
      if ok {
        db := DeleteKubernetes(db, name);
      }
    }

    method GetNodePool(name: string, fault: Fault) returns (r: Lookup<NodePool>)
      ensures r == if fault.ReadFails? then Failed else if name in db.nodePools then Found(db.nodePools[name]) else NotFound
    {
      r := if fault.ReadFails? then Failed else if name in db.nodePools then Found(db.nodePools[name]) else NotFound;
    }

    method CreateNodePoolObject(name: string, owner: OwnerRef, spec: NodePoolSpec, fault: Fault) returns (ok: bool)
      modifies this
      ensures ok == !fault.WriteFails?
      ensures db == if ok then CreateNodePool(old(db), name, [owner], spec) else old(db)
    {
      ok := !fault.WriteFails?;
      if ok {
        db := CreateNodePool(db, name, [owner], spec);
      }
    }

    method UpdateNodePool(name: string, np: NodePool, fault: Fault) returns (ok: bool)
      modifies this
      ensures ok == !fault.WriteFails?
      ensures db == if ok then PutNodePool(old(db), name, np) else old(db)
    {
      ok := !fault.WriteFails?;
      if ok {
        db := PutNodePool(db, name, np);
      }
    }

    method DeleteNodePoolObject(name: string, fault: Fault) returns (ok: bool)
      requires name in db.nodePools
      modifies this
      ensures ok == !fault.WriteFails?
      ensures db == if ok then DeleteNodePool(old(db), name) else old(db)
    {
      ok := !fault.WriteFails?;
      if ok {
        db := DeleteNodePool(db, name);
      }
    }

    /** Creates or updates the secret of that name. */
    method StorePassword(name: string, password: string, fault: Fault) returns (ok: bool)
      modifies this
      ensures ok == !fault.WriteFails?
      ensures db == if ok then old(db).(passwords := old(db).passwords[name := password]) else old(db)
    {
      ok := !fault.WriteFails?;
      if ok {
        db := db.(passwords := db.passwords[name := password]);
      }
    }

    method StoreKubeconfig(cluster: string, fault: Fault) returns (ok: bool)
      modifies this
      ensures ok == !fault.WriteFails?
      ensures db == if ok then old(db).(kubeconfigs := old(db).kubeconfigs + {cluster}) else old(db)
    {
      ok := !fault.WriteFails?;
      if ok {
        db := db.(kubeconfigs := db.kubeconfigs + {cluster});
      }
    }
  }
}
