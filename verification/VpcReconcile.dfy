/** internal/common/vpc.go: create, adopt or back-fill the one VPC of a control plane, and
    ask for its deletion. */
module VpcReconcile {
  import opened Wrappers
  import opened CommonApi
  import opened ApiServer
  import opened KubeClient
  import opened VswitchReconcile

  datatype VpcError =
    | VpcGetFailed
    | VpcAlreadyExists(name: string)
    | VpcCreateFailed
    | VpcPending(why: EntryError)

  datatype VpcPass = VpcPass(db: Db, vpc: VPC, id: string, err: Option<VpcError>)

  /** What one call of ReconcileVPC does. */
  function ReconciledVpc(db: Db, owner: OwnerRef, vpc: VPC, fault: Fault): VpcPass
  {
    if vpc.id != "" then VpcPass(db, vpc, vpc.id, None)
    else if vpc.resourceId != "" && vpc.uid != NO_UID then VpcPass(db, vpc, vpc.resourceId, None)
    else if vpc.name == "" then VpcPass(db, vpc, "", None)
    else if fault.ReadFails? then VpcPass(db, vpc, "", Some(VpcGetFailed))
    else if vpc.name in db.vpcs then
      var stored := db.vpcs[vpc.name];
      if !stored.meta.OwnedBy(owner.uid) then VpcPass(db, vpc, "", Some(VpcAlreadyExists(vpc.name)))
      else if stored.cloudId.Some? && stored.cloudId.value != "" then
        VpcPass(db, vpc.(resourceId := stored.cloudId.value, uid := stored.meta.uid), stored.cloudId.value, None)
      else VpcPass(db, vpc, "", Some(VpcPending(Pending(stored.messages))))
    else if fault.WriteFails? then VpcPass(db, vpc, "", Some(VpcCreateFailed))
    else VpcPass(CreateVpc(db, vpc.name, [owner], vpc.cidrBlock), vpc.(uid := db.nextUid), "", Some(VpcPending(NotReady)))
  }

  /** The Vpc block of the in-memory control plane, filled in place. */
  class VpcBlock {
    var value: VPC

    constructor (value: VPC)
      ensures this.value == value
    {
      this.value := value;
    }
  }

  method ReconcileVPC(client: Client, owner: OwnerRef, aliyunVPC: VpcBlock, fault: Fault)
    returns (vpcID: string, err: Option<VpcError>)
    modifies client, aliyunVPC
    ensures VpcPass(client.db, aliyunVPC.value, vpcID, err) ==
            ReconciledVpc(old(client.db), owner, old(aliyunVPC.value), fault)
  {
    vpcID, err := "", None;
    if aliyunVPC.value.id != "" {
      vpcID := aliyunVPC.value.id;
      return;
    }
    if aliyunVPC.value.resourceId != "" && aliyunVPC.value.uid != NO_UID {
      vpcID := aliyunVPC.value.resourceId;
      return;
    }
    if aliyunVPC.value.name == "" {
      return;
    }
    var found := client.GetVpc(aliyunVPC.value.name, fault);
    if found.Failed? {
      return "", Some(VpcGetFailed);
    }
    if found.Found? {
      var vpc := found.value;
      if |vpc.meta.owners| == 0 || vpc.meta.owners[0].uid != owner.uid {
        return "", Some(VpcAlreadyExists(aliyunVPC.value.name));
      }
      if vpc.cloudId.Some? && vpc.cloudId.value != "" {
        vpcID := vpc.cloudId.value;
        aliyunVPC.value := aliyunVPC.value.(resourceId := vpc.cloudId.value, uid := vpc.meta.uid);
        return;
      }
      if vpc.messages.synced != "" {
        return "", Some(VpcPending(SyncedFailed(vpc.messages.synced)));
      }
      if vpc.messages.async != "" {
        return "", Some(VpcPending(AsyncFailed(vpc.messages.async)));
      }
      if vpc.messages.lastAsync != "" {
        return "", Some(VpcPending(LastAsyncFailed(vpc.messages.lastAsync)));
      }
      err := Some(VpcPending(NotReady));
    } else {
      var created := client.CreateVpcObject(aliyunVPC.value.name, owner, aliyunVPC.value.cidrBlock, fault);
      if created.None? {
        return "", Some(VpcCreateFailed);
      }
      aliyunVPC.value := aliyunVPC.value.(uid := created.value);
      err := Some(VpcPending(NotReady));
    }
  }

  /** The full contract: no error exactly when nothing was created and the block is complete or
      asks for nothing, and then the id is the recorded one; the user's fields never change; a
      filled block holds the uid of the stored VPC of that name, whose first owner is the
      reconciled object. */
  lemma VpcContract(db: Db, owner: OwnerRef, vpc: VPC, fault: Fault)
    requires db.nextUid != NO_UID && (vpc.name in db.vpcs ==> db.vpcs[vpc.name].meta.uid != NO_UID)
    ensures var p := ReconciledVpc(db, owner, vpc, fault);
            && p.vpc.id == vpc.id && p.vpc.name == vpc.name && p.vpc.cidrBlock == vpc.cidrBlock
            && (p.err.None? <==>
                  p.db == db && (p.vpc.id != "" || (p.vpc.resourceId != "" && p.vpc.uid != NO_UID) || p.vpc.name == ""))
            && (p.err.None? ==> p.id == if p.vpc.id != "" then p.vpc.id
                                        else if p.vpc.resourceId != "" && p.vpc.uid != NO_UID then p.vpc.resourceId else "")
            && (p.err.None? && p.id == "" ==> vpc.id == "" && vpc.name == "")
            && (p.vpc != vpc ==>
                  && vpc.name in p.db.vpcs && p.db.vpcs[vpc.name].meta.OwnedBy(owner.uid)
                  && p.vpc.uid == p.db.vpcs[vpc.name].meta.uid)
            && (p.db == db || (vpc.name !in db.vpcs && p.db == CreateVpc(db, vpc.name, [owner], vpc.cidrBlock) &&
                               p.vpc.uid == db.nextUid))
  {
  }

  /** The VPC write-back is admitted whatever the store and the faults, exactly when the
      block is not half filled: a ResourceID without a uid. */
  lemma VpcWriteBackAlwaysAdmitted(owner: OwnerRef, vpc: VPC, base: Db)
    ensures (forall db, fault :: VpcEqual(ReconciledVpc(db, owner, vpc, fault).vpc, vpc))
            <==> !(vpc.id == "" && vpc.name != "" && vpc.resourceId != "" && vpc.uid == NO_UID)
  {
    if vpc.id == "" && vpc.name != "" && vpc.resourceId != "" && vpc.uid == NO_UID {
      var stored := Vpc(Meta(1, [owner], None, {}), "", Some(vpc.resourceId + "'"), Messages("", "", ""));
      var db := base.(vpcs := map[vpc.name := stored]);
      assert ReconciledVpc(db, owner, vpc, Works).vpc.resourceId == vpc.resourceId + "'";
      assert |vpc.resourceId + "'"| == |vpc.resourceId| + 1;
      assert !VpcEqual(ReconciledVpc(db, owner, vpc, Works).vpc, vpc);
    }
  }

  /******* ReconcileRemoveVPC *******/

  datatype VpcRemoval = VpcRemoval(db: Db, err: Option<RemoveError>)

  /** A VPC whose ResourceID was never recorded is left alone. */
  function RemovedVpc(db: Db, vpc: VPC, fault: Fault): VpcRemoval
  {
    if vpc.resourceId == "" then VpcRemoval(db, None)
    else if fault.ReadFails? then VpcRemoval(db, Some(LookupFailed))
    else if vpc.name !in db.vpcs then VpcRemoval(db, None)
    else if db.vpcs[vpc.name].meta.Deleting() then
      VpcRemoval(db, if TimedOut(db, db.vpcs[vpc.name].meta) then Some(Timeout) else None)
    else if fault.WriteFails? then VpcRemoval(db, Some(DeleteFailed))
    else VpcRemoval(DeleteVpc(db, vpc.name), None)
  }

  method ReconcileRemoveVPC(client: Client, aliyunVPC: VPC, fault: Fault) returns (err: Option<RemoveError>)
    modifies client
    ensures VpcRemoval(client.db, err) == RemovedVpc(old(client.db), aliyunVPC, fault)
  {
    err := None;
    if aliyunVPC.resourceId == "" {
      return;
    }
    var found := client.GetVpc(aliyunVPC.name, fault);
    if found.Failed? {
      return Some(LookupFailed);
    }
    if found.Found? {
      if found.value.meta.deletedAt.Some? {
        if found.value.meta.deletedAt.value < client.db.clock - client.db.timeout {
          return Some(Timeout);
        }
        return;
      }
      var ok := client.DeleteVpcObject(aliyunVPC.name, fault);
      if !ok {
        return Some(DeleteFailed);
      }
    }
  }

  /** A fault-free removal leaves the VPC absent or deleting exactly when it already was, or
      its ResourceID had been recorded: an unrecorded VPC leaks. */
  lemma RemovalLeaksUnrecorded(db: Db, vpc: VPC)
    ensures var after := RemovedVpc(db, vpc, Works).db;
            (vpc.name in after.vpcs ==> after.vpcs[vpc.name].meta.Deleting())
            <==> (vpc.resourceId != "" || (vpc.name in db.vpcs ==> db.vpcs[vpc.name].meta.Deleting()))
  {
  }

  /** The VPC block names an object that has to be created or waited for. */
  predicate Asks(vpc: VPC)
  {
    vpc.id == "" && vpc.name != "" && (vpc.resourceId == "" || vpc.uid == NO_UID)
  }

  /** A name that cannot be looked up, or belongs to somebody else, or whose object has no id yet,
      leaves store and block as they are and is reported as such. */
  lemma VpcWaits(db: Db, owner: OwnerRef, vpc: VPC, fault: Fault)
    requires Asks(vpc) && (fault.ReadFails? || vpc.name in db.vpcs)
    requires !fault.ReadFails? && db.vpcs[vpc.name].meta.OwnedBy(owner.uid) ==> db.vpcs[vpc.name].cloudId in {None, Some("")}
    ensures var p := ReconciledVpc(db, owner, vpc, fault);
            && p.db == db && p.vpc == vpc
            && p.err == Some(if fault.ReadFails? then VpcGetFailed
                             else if db.vpcs[vpc.name].meta.owners == [] || db.vpcs[vpc.name].meta.owners[0].uid != owner.uid
                             then VpcAlreadyExists(vpc.name)
                             else VpcPending(Pending(db.vpcs[vpc.name].messages)))
  {
  }

  /** An own object with an id is adopted: the block records that id and that object's uid. */
  lemma VpcAdopted(db: Db, owner: OwnerRef, vpc: VPC, fault: Fault)
    requires Asks(vpc) && !fault.ReadFails? && vpc.name in db.vpcs && db.vpcs[vpc.name].meta.OwnedBy(owner.uid)
    requires db.vpcs[vpc.name].cloudId.Some? && db.vpcs[vpc.name].cloudId.value != ""
    ensures var p, id := ReconciledVpc(db, owner, vpc, fault), db.vpcs[vpc.name].cloudId.value;
            && p.db == db && p.err == None && p.id == id
            && p.vpc == VPC("", vpc.name, id, db.vpcs[vpc.name].meta.uid, vpc.cidrBlock)
  {
  }

  /** A free name is taken: the object has the CIDR block asked for and a fresh uid, which the block
      records; the caller has to wait. */
  lemma VpcCreatedAsAsked(db: Db, owner: OwnerRef, vpc: VPC, fault: Fault)
    requires Asks(vpc) && !fault.ReadFails? && vpc.name !in db.vpcs
    ensures var p := ReconciledVpc(db, owner, vpc, fault);
            if fault.WriteFails? then p.db == db && p.vpc == vpc && p.err == Some(VpcCreateFailed)
            else
              && p.db.vpcs == db.vpcs[vpc.name := Vpc(Meta(db.nextUid, [owner], None, {}), vpc.cidrBlock, None, Messages("", "", ""))]
              && p.db.vswitches == db.vswitches && p.db.kubernetes == db.kubernetes
              && p.vpc == vpc.(uid := db.nextUid) && p.err == Some(VpcPending(NotReady))
  {
  }

  /** A time-out is reported if and only if the recorded VPC was marked deleted more than the timeout
      ago, and its deletion is asked for if and only if it is recorded, stored and live; a failed
      call is reported and changes nothing. */
  lemma VpcRemovalExactly(db: Db, vpc: VPC, fault: Fault)
    ensures var r := RemovedVpc(db, vpc, fault);
            var recorded := vpc.resourceId != "" && vpc.name in db.vpcs;
            var live := recorded && db.vpcs[vpc.name].meta.deletedAt == None;
            && (r.err == Some(LookupFailed) <==> vpc.resourceId != "" && fault.ReadFails?)
            && (r.err == Some(Timeout) <==>
                  recorded && !live && !fault.ReadFails? && db.vpcs[vpc.name].meta.deletedAt.value + db.timeout < db.clock)
            && (r.err == Some(DeleteFailed) <==> live && fault.WriteFails?)
            && r.db.vpcs == (if !live || !fault.Works? then db.vpcs
                             else if db.vpcs[vpc.name].meta.finalizers == {} then db.vpcs - {vpc.name}
                             else
                               var v := db.vpcs[vpc.name];
                               db.vpcs[vpc.name := v.(meta := v.meta.(deletedAt := Some(db.clock)))])
  {
  }
}
