/** internal/common/vswitch.go: the create/adopt/back-fill loop over a vswitch list, and the
    delete loop. Each loop is a method over the client and the list; the function beside it
    says what one pass does, visit by visit, and is what the other modules reason about. */
module VswitchReconcile {
  import opened Wrappers
  import opened CommonApi
  import opened ApiServer
  import opened KubeClient

  datatype EntryError =
    | SyncedFailed(message: string)
    | AsyncFailed(message: string)
    | LastAsyncFailed(message: string)
    | NotReady
    | CreateFailed

  datatype VswitchError =
    | GetFailed(name: string)
    | AlreadyExists(name: string)
    | Aggregate(errors: seq<EntryError>)
    | IncompleteAt(position: nat)

  /** Why an existing vswitch has no cloud id yet, in the order the messages are consulted. */
  function Pending(messages: Messages): (e: EntryError)
    ensures messages.synced != "" <==> e == SyncedFailed(messages.synced)
    ensures messages.synced == "" && messages.async != "" <==> e == AsyncFailed(messages.async)
    ensures messages.synced == messages.async == "" && messages.lastAsync != "" <==> e == LastAsyncFailed(messages.lastAsync)
    ensures messages == Messages("", "", "") <==> e == NotReady
  {
    if messages.synced != "" then SyncedFailed(messages.synced)
    else if messages.async != "" then AsyncFailed(messages.async)
    else if messages.lastAsync != "" then LastAsyncFailed(messages.lastAsync)
    else NotReady
  }

  datatype Scan = Scan(db: Db, entries: seq<VSwitch>, errors: seq<EntryError>)
  datatype Visit = Go(scan: Scan) | Halt(scan: Scan, error: VswitchError)
  datatype Pass = Pass(db: Db, entries: seq<VSwitch>, ids: seq<string>, err: Option<VswitchError>)

  /** One iteration of the loop, on entry i. */
  function VisitEntry(s: Scan, i: nat, owner: OwnerRef, vpcId: string, fault: Fault): (v: Visit)
    requires i < |s.entries|
    ensures |v.scan.entries| == |s.entries|
  {
    var vsw := s.entries[i];
    if Complete(vsw) then Go(s)
    else if fault.ReadFails? then Halt(s, GetFailed(vsw.name))
    else if vsw.name in s.db.vswitches then
      var stored := s.db.vswitches[vsw.name];
      if !stored.meta.OwnedBy(owner.uid) then Halt(s, AlreadyExists(vsw.name))
      else if stored.cloudId.Some? && stored.cloudId.value != "" then
        Go(s.(entries := s.entries[i := vsw.(resourceId := stored.cloudId.value, uid := stored.meta.uid)]))
      else Go(s.(errors := s.errors + [Pending(stored.messages)]))
    else if fault.WriteFails? then Go(s.(errors := s.errors + [CreateFailed]))
    else Go(s.(db := CreateVswitch(s.db, vsw.name, [owner], vsw.zoneId, vsw.cidrBlock, vpcId),
               entries := s.entries[i := vsw.(uid := s.db.nextUid)]))
  }

  /** The rest of the loop, from entry i on. */
  function ScanFrom(s: Scan, i: nat, owner: OwnerRef, vpcId: string, faults: nat -> Fault): (v: Visit)
    requires i <= |s.entries|
    ensures |v.scan.entries| == |s.entries|
    decreases |s.entries| - i
  {
    if i == |s.entries| then Go(s)
    else match VisitEntry(s, i, owner, vpcId, faults(i))
      case Halt(s', e) => Halt(s', e)
      case Go(s') => ScanFrom(s', i + 1, owner, vpcId, faults)
  }

  /** What one call of ReconcileVSwitch does. */
  function VswitchPass(db: Db, owner: OwnerRef, vpcId: string, entries: seq<VSwitch>, faults: nat -> Fault): (p: Pass)
    ensures |p.entries| == |entries|
  {
    var k := FirstIncomplete(entries);
    if k == |entries| then Pass(db, entries, CloudIds(entries, k), None)
    else match ScanFrom(Scan(db, entries, []), 0, owner, vpcId, faults)
      case Halt(s, e) => Pass(s.db, s.entries, CloudIds(entries, k), Some(e))
      case Go(s) =>
        if s.errors != [] then Pass(s.db, s.entries, [], Some(Aggregate(s.errors)))
        else
          var j := FirstIncomplete(s.entries);
          Pass(s.db, s.entries, CloudIds(s.entries, j), if j == |s.entries| then None else Some(IncompleteAt(j)))
  }

  method ReconcileVSwitch(client: Client, owner: OwnerRef, vpcId: string, vSwitches: array<VSwitch>,
                          faults: nat -> Fault)
    returns (ids: seq<string>, err: Option<VswitchError>)
    modifies client, vSwitches
    ensures Pass(client.db, vSwitches[..], ids, err) ==
            VswitchPass(old(client.db), owner, vpcId, old(vSwitches[..]), faults)
  {
    var incomplete;
    ids, incomplete := GetIdList(vSwitches[..]);
    if incomplete.None? {
      return ids, None;
    }
    var errList: seq<EntryError> := [];
    ghost var start := Scan(client.db, vSwitches[..], []);
    for i := 0 to vSwitches.Length
      invariant |start.entries| == vSwitches.Length
      invariant ScanFrom(Scan(client.db, vSwitches[..], errList), i, owner, vpcId, faults) ==
                ScanFrom(start, 0, owner, vpcId, faults)
    {
      ghost var here := Scan(client.db, vSwitches[..], errList);
      ghost var visit := VisitEntry(here, i, owner, vpcId, faults(i));
      var vsw := vSwitches[i];
      if vsw.id != "" || (vsw.resourceId != "" && vsw.uid != NO_UID) {
        assert visit == Go(here);
        continue;
      }
      var found := client.GetVswitch(vsw.name, faults(i));
      if found.Failed? {
        return ids, Some(GetFailed(vsw.name));
      }
      if found.Found? {
        var stored := found.value;
        if |stored.meta.owners| == 0 || stored.meta.owners[0].uid != owner.uid {
          return ids, Some(AlreadyExists(vsw.name));
        }
        if stored.cloudId.Some? && stored.cloudId.value != "" {
          vSwitches[i] := vsw.(resourceId := stored.cloudId.value, uid := stored.meta.uid);
          assert vSwitches[..] == here.entries[i := vSwitches[i]];
          continue;
        }
        if stored.messages.synced != "" {
          errList := errList + [SyncedFailed(stored.messages.synced)];
          continue;
        }
        if stored.messages.async != "" {
          errList := errList + [AsyncFailed(stored.messages.async)];
          continue;
        }
        if stored.messages.lastAsync != "" {
          errList := errList + [LastAsyncFailed(stored.messages.lastAsync)];
          continue;
        }
        errList := errList + [NotReady];
      } else {
        var created := client.CreateVswitchObject(vsw.name, owner, vsw.zoneId, vsw.cidrBlock, vpcId, faults(i));
        if created.None? {
          errList := errList + [CreateFailed];
          continue;
        }
        vSwitches[i] := vsw.(uid := created.value);
        assert vSwitches[..] == here.entries[i := vSwitches[i]];
      }
    }
    if |errList| != 0 {
      return [], Some(Aggregate(errList));
    }
    ids, incomplete := GetIdList(vSwitches[..]);
    err := if incomplete.None? then None else Some(IncompleteAt(incomplete.value));
  }

  /******* ReconcileRemoveVSwitch *******/

  datatype RemoveError = LookupFailed | Timeout | DeleteFailed

  datatype Removal = Removal(db: Db, errors: seq<RemoveError>)

  /** One iteration: a vswitch given by id stays, one already deleting is only timed, any
      other stored vswitch of that name is deleted, whoever owns it. */
  function RemoveEntry(r: Removal, vsw: VSwitch, fault: Fault): Removal
  {
    if vsw.id != "" then r
    else if fault.ReadFails? then r.(errors := r.errors + [LookupFailed])
    else if vsw.name !in r.db.vswitches then r
    else if r.db.vswitches[vsw.name].meta.Deleting() then
      if TimedOut(r.db, r.db.vswitches[vsw.name].meta) then r.(errors := r.errors + [Timeout]) else r
    else if fault.WriteFails? then r.(errors := r.errors + [DeleteFailed])
    else r.(db := DeleteVswitch(r.db, vsw.name))
  }

  function RemoveFrom(r: Removal, entries: seq<VSwitch>, i: nat, faults: nat -> Fault): Removal
    requires i <= |entries|
    decreases |entries| - i
  {
    if i == |entries| then r else RemoveFrom(RemoveEntry(r, entries[i], faults(i)), entries, i + 1, faults)
  }

  function RemovePass(db: Db, entries: seq<VSwitch>, faults: nat -> Fault): Removal
  {
    RemoveFrom(Removal(db, []), entries, 0, faults)
  }

  method ReconcileRemoveVSwitch(client: Client, vSwitches: seq<VSwitch>, faults: nat -> Fault)
    returns (errList: seq<RemoveError>)
    modifies client
    ensures Removal(client.db, errList) == RemovePass(old(client.db), vSwitches, faults)
  {
    errList := [];
    for i := 0 to |vSwitches|
      invariant RemoveFrom(Removal(client.db, errList), vSwitches, i, faults) == RemovePass(old(client.db), vSwitches, faults)
    {
      var vsw := vSwitches[i];
      if vsw.id != "" {
        continue;
      }
      var found := client.GetVswitch(vsw.name, faults(i));
      if found.Failed? {
        errList := errList + [LookupFailed];
      } else if found.Found? {
        if found.value.meta.deletedAt.Some? {
          if found.value.meta.deletedAt.value < client.db.clock - client.db.timeout {
            errList := errList + [Timeout];
          }
          continue;
        }
        var ok := client.DeleteVswitchObject(vsw.name, faults(i));
        if !ok {
          errList := errList + [DeleteFailed];
          continue;
        }
      }
    }
  }
}
