/** api/infrastructure/v1beta2/aliyunmanagedmachinepool_webhook.go: admission of a machine pool. */
module MachinePoolWebhook {
  import opened Wrappers
  import opened CommonApi
  import opened ApiServer
  import opened ControlPlaneWebhook

  datatype PoolError =
    | PoolVswitchCount
    | PoolIdWithFields(i: nat)
    | PoolMissingFields(i: nat)
    | PoolBadCidr(i: nat)
    | IdentityChanged(i: nat, j: nat)
    | SecurityGroupsChanged
    | Credentials

  /** Exactly one of key name and password is given. */
  predicate OneCredential(spec: PoolSpec)
  {
    (spec.keyName != "") != (spec.password != "")
  }

  ghost predicate PoolBreaksOnCreate(spec: PoolSpec, parses: CidrParser, e: PoolError)
  {
    var vsws := spec.vswitches;
    match e
    case PoolVswitchCount => !(1 <= |vsws| <= 8)
    case PoolIdWithFields(i) => i < |vsws| && vsws[i].id != "" && (vsws[i].name != "" || vsws[i].cidrBlock != "")
    case PoolMissingFields(i) => i < |vsws| && vsws[i].id == "" && (vsws[i].name == "" || vsws[i].cidrBlock == "")
    case PoolBadCidr(i) =>
      i < |vsws| && vsws[i].id == "" && vsws[i].name != "" && vsws[i].cidrBlock != "" && !parses(vsws[i].cidrBlock)
    case Credentials => !OneCredential(spec)
    case _ => false
  }

  ghost predicate PoolAdmitsCreate(spec: PoolSpec, parses: CidrParser)
  {
    forall e :: !PoolBreaksOnCreate(spec, parses, e)
  }

  function IdSet(ids: seq<string>): set<string>
  {
    set k | 0 <= k < |ids| :: ids[k]
  }

  predicate Filled(vsw: VSwitch)
  {
    vsw.name != "" && vsw.cidrBlock != "" && vsw.zoneId != ""
  }

  /** The rules broken by an update; unlike on creation, the zone is required too. */
  ghost predicate PoolBreaksOnUpdate(spec: PoolSpec, prev: PoolSpec, parses: CidrParser, e: PoolError)
  {
    var vsws := spec.vswitches;
    match e
    case PoolIdWithFields(i) => i < |vsws| && vsws[i].id != "" && (vsws[i].name != "" || vsws[i].cidrBlock != "")
    case PoolMissingFields(i) => i < |vsws| && vsws[i].id == "" && !Filled(vsws[i])
    case PoolBadCidr(i) => i < |vsws| && vsws[i].id == "" && Filled(vsws[i]) && !parses(vsws[i].cidrBlock)
    case IdentityChanged(i, j) =>
      && i < |vsws| && j < |prev.vswitches| && vsws[i].id == "" && Filled(vsws[i]) && parses(vsws[i].cidrBlock)
      && prev.vswitches[j].name == vsws[i].name
      && (prev.vswitches[j].cidrBlock != vsws[i].cidrBlock || prev.vswitches[j].zoneId != vsws[i].zoneId)
    case SecurityGroupsChanged =>
      IdSet(prev.securityGroupIds) != {} && IdSet(prev.securityGroupIds) != IdSet(spec.securityGroupIds)
    case Credentials => !OneCredential(spec)
    case _ => false
  }

  ghost predicate PoolAdmitsUpdate(spec: PoolSpec, prev: PoolSpec, parses: CidrParser)
  {
    forall e :: !PoolBreaksOnUpdate(spec, prev, parses, e)
  }

  method ValidatePoolCreate(spec: PoolSpec, parses: CidrParser) returns (allErrs: seq<PoolError>)
    ensures forall e :: e in allErrs <==> PoolBreaksOnCreate(spec, parses, e)
    ensures allErrs == [] <==> PoolAdmitsCreate(spec, parses)
  {
    var vsws := spec.vswitches;
    allErrs := [];
    if |vsws| < 1 || |vsws| > 8 {
      allErrs := allErrs + [PoolVswitchCount];
    }
    for i := 0 to |vsws|
      invariant forall e :: e in allErrs <==>
                  ((e.PoolVswitchCount? || ((e.PoolIdWithFields? || e.PoolMissingFields? || e.PoolBadCidr?) && e.i < i)) &&
                   PoolBreaksOnCreate(spec, parses, e))
    {
      var vsw := vsws[i];
      if vsw.id != "" {
        if vsw.name != "" || vsw.cidrBlock != "" {
          allErrs := allErrs + [PoolIdWithFields(i)];
        }
      } else if vsw.name == "" || vsw.cidrBlock == "" {
        allErrs := allErrs + [PoolMissingFields(i)];
      } else if !parses(vsw.cidrBlock) {
        allErrs := allErrs + [PoolBadCidr(i)];
      }
    }
    if (spec.keyName == "" && spec.password == "") || (spec.keyName != "" && spec.password != "") {
      allErrs := allErrs + [Credentials];
    }
    assert allErrs != [] ==> allErrs[0] in allErrs;
  }

  method ValidatePoolUpdate(spec: PoolSpec, prev: PoolSpec, parses: CidrParser) returns (allErrs: seq<PoolError>)
    ensures forall e :: e in allErrs <==> PoolBreaksOnUpdate(spec, prev, parses, e)
    ensures allErrs == [] <==> PoolAdmitsUpdate(spec, prev, parses)
  {
    var vsws := spec.vswitches;
    allErrs := [];
    var sgSetOld := Collect(prev.securityGroupIds);
    var sgSetNew := Collect(spec.securityGroupIds);
    if |sgSetOld| != 0 && sgSetOld != sgSetNew {
      allErrs := allErrs + [SecurityGroupsChanged];
    }
    for i := 0 to |vsws|
      invariant forall e :: e in allErrs <==>
                  ((e.SecurityGroupsChanged? ||
                    ((e.PoolIdWithFields? || e.PoolMissingFields? || e.PoolBadCidr? || e.IdentityChanged?) && e.i < i)) &&
                   PoolBreaksOnUpdate(spec, prev, parses, e))
    {
      var vsw := vsws[i];
      if vsw.id != "" {
        if vsw.name != "" || vsw.cidrBlock != "" {
          allErrs := allErrs + [PoolIdWithFields(i)];
        }
      } else if vsw.name == "" || vsw.cidrBlock == "" || vsw.zoneId == "" {
        allErrs := allErrs + [PoolMissingFields(i)];
      } else if !parses(vsw.cidrBlock) {
        allErrs := allErrs + [PoolBadCidr(i)];
      } else {
        ghost var before := allErrs;
        for j := 0 to |prev.vswitches|
          invariant forall e :: e in allErrs <==>
                      (e in before || (e.IdentityChanged? && e.i == i && e.j < j && PoolBreaksOnUpdate(spec, prev, parses, e)))
        {
          var oldVsw := prev.vswitches[j];
          if oldVsw.name != vsw.name {
            continue;
          }
          if oldVsw.cidrBlock != vsw.cidrBlock || oldVsw.zoneId != vsw.zoneId {
            allErrs := allErrs + [IdentityChanged(i, j)];
          }
        }
      }
    }
    if (spec.keyName == "" && spec.password == "") || (spec.keyName != "" && spec.password != "") {
      allErrs := allErrs + [Credentials];
    }
    assert allErrs != [] ==> allErrs[0] in allErrs;
  }

  method Collect(ids: seq<string>) returns (s: set<string>)
    ensures s == IdSet(ids)
  {
    s := {};
    for k := 0 to |ids|
      invariant s == IdSet(ids[..k])
    {
      s := s + {ids[k]};
      assert IdSet(ids[..k + 1]) == IdSet(ids[..k]) + {ids[k]} by {
        assert ids[..k + 1] == ids[..k] + [ids[k]];
        assert forall x :: x in IdSet(ids[..k]) ==> x in ids[..k];
      }
    }
    assert ids[..|ids|] == ids;
  }

  /******* Chains of accepted updates *******/

  ghost predicate PoolChain(versions: seq<PoolSpec>, parses: CidrParser)
  {
    forall i :: 0 < i < |versions| ==> PoolAdmitsUpdate(versions[i], versions[i - 1], parses)
  }

  /** Once non-empty, the set of security groups never changes. */
  lemma {:induction false} SecurityGroupsFrozen(versions: seq<PoolSpec>, parses: CidrParser, i: nat, j: nat)
    requires PoolChain(versions, parses) && i <= j < |versions|
    requires versions[i].securityGroupIds != []
    ensures IdSet(versions[j].securityGroupIds) == IdSet(versions[i].securityGroupIds)
    decreases j
  {
    assert versions[i].securityGroupIds[0] in IdSet(versions[i].securityGroupIds);
    if i < j {
      SecurityGroupsFrozen(versions, parses, i, j - 1);
      assert PoolAdmitsUpdate(versions[j], versions[j - 1], parses);
      assert !PoolBreaksOnUpdate(versions[j], versions[j - 1], parses, SecurityGroupsChanged);
    }
  }

  /** The list holds a vswitch to be created under this name. */
  ghost predicate Lists(spec: PoolSpec, name: string)
  {
    exists k :: 0 <= k < |spec.vswitches| && spec.vswitches[k].id == "" && spec.vswitches[k].name == name
  }

  /** All vswitches of this name have this network identity. */
  ghost predicate Identifies(spec: PoolSpec, name: string, cidrBlock: string, zoneId: string)
  {
    forall k :: 0 <= k < |spec.vswitches| && spec.vswitches[k].name == name ==>
                  spec.vswitches[k].cidrBlock == cidrBlock && spec.vswitches[k].zoneId == zoneId
  }

  lemma IdentityStep(spec: PoolSpec, prev: PoolSpec, parses: CidrParser, k: nat, j: nat)
    requires PoolAdmitsUpdate(spec, prev, parses)
    requires k < |spec.vswitches| && j < |prev.vswitches|
    requires spec.vswitches[k].name == prev.vswitches[j].name != ""
    ensures spec.vswitches[k].cidrBlock == prev.vswitches[j].cidrBlock && spec.vswitches[k].zoneId == prev.vswitches[j].zoneId
  {
    assert !PoolBreaksOnUpdate(spec, prev, parses, PoolIdWithFields(k));
    assert !PoolBreaksOnUpdate(spec, prev, parses, PoolMissingFields(k));
    assert !PoolBreaksOnUpdate(spec, prev, parses, PoolBadCidr(k));
    assert !PoolBreaksOnUpdate(spec, prev, parses, IdentityChanged(k, j));
  }

  /** While a name stays listed in every version, every vswitch of that name, in every version
      that had to pass the update check, has the CIDR block and the zone of each vswitch of that
      name in the first version. */
  lemma {:induction false} IdentityAlongChain(versions: seq<PoolSpec>, parses: CidrParser, name: string, j: nat,
                                              first: nat)
    requires PoolChain(versions, parses) && 0 < j < |versions| && name != ""
    requires forall i :: 0 <= i <= j ==> Lists(versions[i], name)
    requires first < |versions[0].vswitches| && versions[0].vswitches[first].name == name
    ensures Identifies(versions[j], name, versions[0].vswitches[first].cidrBlock, versions[0].vswitches[first].zoneId)
    decreases j
  {
    var vsw := versions[0].vswitches[first];
    assert PoolAdmitsUpdate(versions[j], versions[j - 1], parses);
    forall k | 0 <= k < |versions[j].vswitches| && versions[j].vswitches[k].name == name
      ensures versions[j].vswitches[k].cidrBlock == vsw.cidrBlock && versions[j].vswitches[k].zoneId == vsw.zoneId
    {
      if j == 1 {
        IdentityStep(versions[1], versions[0], parses, k, first);
      } else {
        IdentityAlongChain(versions, parses, name, j - 1, first);
        assert Lists(versions[j - 1], name);
        var m :| 0 <= m < |versions[j - 1].vswitches| && versions[j - 1].vswitches[m].id == "" &&
                 versions[j - 1].vswitches[m].name == name;
        IdentityStep(versions[j], versions[j - 1], parses, k, m);
      }
    }
  }

  lemma {:induction false} CredentialAlongChain(versions: seq<PoolSpec>, parses: CidrParser, j: nat)
    requires PoolChain(versions, parses) && j < |versions| && PoolAdmitsCreate(versions[0], parses)
    ensures OneCredential(versions[j])
  {
    if j == 0 {
      assert !PoolBreaksOnCreate(versions[0], parses, Credentials);
    } else {
      assert PoolAdmitsUpdate(versions[j], versions[j - 1], parses);
      assert !PoolBreaksOnUpdate(versions[j], versions[j - 1], parses, Credentials);
    }
  }

  /******* The controller's own updates of a pool *******/

  /** Every vswitch to be created has a zone, and two of one name agree on their network. */
  predicate Consistent(spec: PoolSpec)
  {
    var vsws := spec.vswitches;
    && (forall i :: 0 <= i < |vsws| && vsws[i].id == "" ==> vsws[i].zoneId != "")
    && (forall i, j :: 0 <= i < |vsws| && 0 <= j < |vsws| && vsws[i].id == "" && vsws[j].name == vsws[i].name ==>
          vsws[j].cidrBlock == vsws[i].cidrBlock && vsws[j].zoneId == vsws[i].zoneId)
  }

  /** What a controller pass may do to the stored spec: fill vswitch fields the user does not
      own, and fill the security groups when there are none. */
  ghost predicate ControllerEdit(spec: PoolSpec, prev: PoolSpec)
  {
    && |spec.vswitches| == |prev.vswitches|
    && (forall k :: 0 <= k < |spec.vswitches| ==> SameUserFields(spec.vswitches[k], prev.vswitches[k]))
    && spec.keyName == prev.keyName && spec.password == prev.password
    && (prev.securityGroupIds != [] ==> spec.securityGroupIds == prev.securityGroupIds)
  }

  ghost predicate SameUserFields(vsw: VSwitch, prev: VSwitch)
  {
    vsw.id == prev.id && vsw.name == prev.name && vsw.zoneId == prev.zoneId && vsw.cidrBlock == prev.cidrBlock
  }

  /** What holds of every spec that passed either check. */
  ghost predicate WellFormed(spec: PoolSpec, parses: CidrParser)
  {
    && OneCredential(spec)
    && forall k :: 0 <= k < |spec.vswitches| ==> WellFormedEntry(spec.vswitches[k], parses)
  }

  ghost predicate WellFormedEntry(vsw: VSwitch, parses: CidrParser)
  {
    if vsw.id != "" then vsw.name == "" && vsw.cidrBlock == ""
    else vsw.name != "" && vsw.cidrBlock != "" && parses(vsw.cidrBlock)
  }

  lemma AdmittedIsWellFormed(spec: PoolSpec, prev: PoolSpec, parses: CidrParser)
    requires PoolAdmitsCreate(spec, parses) || PoolAdmitsUpdate(spec, prev, parses)
    ensures WellFormed(spec, parses)
  {
    assert !PoolBreaksOnCreate(spec, parses, Credentials) || !PoolBreaksOnUpdate(spec, prev, parses, Credentials);
    forall k: nat | k < |spec.vswitches| ensures WellFormedEntry(spec.vswitches[k], parses) {
      if PoolAdmitsCreate(spec, parses) {
        assert !PoolBreaksOnCreate(spec, parses, PoolIdWithFields(k));
        assert !PoolBreaksOnCreate(spec, parses, PoolMissingFields(k));
        assert !PoolBreaksOnCreate(spec, parses, PoolBadCidr(k));
      } else {
        assert !PoolBreaksOnUpdate(spec, prev, parses, PoolIdWithFields(k));
        assert !PoolBreaksOnUpdate(spec, prev, parses, PoolMissingFields(k));
        assert !PoolBreaksOnUpdate(spec, prev, parses, PoolBadCidr(k));
      }
    }
  }

  /** Admission lets in pools that no later update can keep: any update by the controller, the
      one that adds the finalizer included, is admitted exactly when the spec is consistent. */
  lemma ControllerEditAdmitted(spec: PoolSpec, prev: PoolSpec, parses: CidrParser)
    requires WellFormed(prev, parses) && ControllerEdit(spec, prev)
    ensures PoolAdmitsUpdate(spec, prev, parses) <==> Consistent(prev)
  {
    forall k | 0 <= k < |prev.vswitches|
      ensures SameUserFields(spec.vswitches[k], prev.vswitches[k]) && WellFormedEntry(prev.vswitches[k], parses)
    {
    }
    if PoolAdmitsUpdate(spec, prev, parses) {
      forall i: nat, j: nat | i < |prev.vswitches| && j < |prev.vswitches| && prev.vswitches[i].id == ""
        ensures prev.vswitches[i].zoneId != ""
        ensures prev.vswitches[j].name == prev.vswitches[i].name ==>
                  prev.vswitches[j].cidrBlock == prev.vswitches[i].cidrBlock && prev.vswitches[j].zoneId == prev.vswitches[i].zoneId
      {
        assert !PoolBreaksOnUpdate(spec, prev, parses, PoolMissingFields(i));
        if prev.vswitches[j].name == prev.vswitches[i].name {
          IdentityStep(spec, prev, parses, i, j);
        }
      }
    }
    if Consistent(prev) {
      forall e ensures !PoolBreaksOnUpdate(spec, prev, parses, e) {
      }
    }
  }

  /** The gap is real: a pool with one vswitch and no zone is created and then never updatable. */
  lemma CreatedButStuck(parses: CidrParser)
    requires parses("10.0.0.0/24")
    ensures exists spec :: PoolAdmitsCreate(spec, parses) && NeverUpdatable(spec, parses)
  {
    var spec := PoolSpec("c", "", "", [VSwitch("", "a", "", NO_UID, "", "10.0.0.0/24")], "key", "", []);
    assert PoolAdmitsCreate(spec, parses);
    AdmittedIsWellFormed(spec, spec, parses);
    assert !Consistent(spec) by {
      assert spec.vswitches[0].id == "" && spec.vswitches[0].zoneId == "";
    }
    forall next | ControllerEdit(next, spec) ensures !PoolAdmitsUpdate(next, spec, parses) {
      ControllerEditAdmitted(next, spec, parses);
    }
  }

  ghost predicate NeverUpdatable(spec: PoolSpec, parses: CidrParser)
  {
    forall next :: ControllerEdit(next, spec) ==> !PoolAdmitsUpdate(next, spec, parses)
  }
}
