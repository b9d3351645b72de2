/** api/controlplane/v1beta2/aliyunmanagedcontrolplane_webhook.go: admission of a control plane. */
module ControlPlaneWebhook {
  import opened Wrappers
  import opened CommonApi
  import opened ApiServer
  import opened ClusterNames

  /** net.ParseCIDR succeeds. */
  type CidrParser = string -> bool

  datatype FieldError =
    | ClusterName(error: NameError)
    | RegionRequired
    | VswitchCount
    | IdWithFields(i: nat)
    | MissingFields(i: nat)
    | BadCidr(i: nat)
    | IdRequired(i: nat)
    | IdForbidden(i: nat)
    | BadVpcCidr
    | VpcIdAndName
    | RegionImmutable
    | VpcImmutable
    | VSwitchesImmutable

  /** The rules broken by a spec on creation. */
  ghost predicate BreaksOnCreate(spec: ControlPlaneSpec, parses: CidrParser, e: FieldError)
  {
    var vsws := spec.vswitches;
    match e
    case ClusterName(TooLong) => |spec.clusterName| > MAX_CLUSTER_NAME_LENGTH
    case ClusterName(BadPrefix) => "-" <= spec.clusterName || "_" <= spec.clusterName
    case ClusterName(BadCharacters) => exists i :: 0 <= i < |spec.clusterName| && !IsNameChar(spec.clusterName[i])
    case RegionRequired => spec.region == ""
    case VswitchCount => !(1 <= |vsws| <= 5)
    case IdWithFields(i) => i < |vsws| && vsws[i].id != "" && (vsws[i].name != "" || vsws[i].cidrBlock != "")
    case MissingFields(i) => i < |vsws| && vsws[i].id == "" && (vsws[i].name == "" || vsws[i].cidrBlock == "")
    case BadCidr(i) =>
      i < |vsws| && vsws[i].id == "" && vsws[i].name != "" && vsws[i].cidrBlock != "" && !parses(vsws[i].cidrBlock)
    case IdRequired(i) => i < |vsws| && vsws[i].id == "" && spec.vpc.id == "" && spec.vpc.name == ""
    case IdForbidden(i) => i < |vsws| && vsws[i].id != "" && spec.vpc.id == "" && spec.vpc.name != ""
    case BadVpcCidr => spec.vpc.id == "" && spec.vpc.name != "" && !parses(spec.vpc.cidrBlock)
    case VpcIdAndName => spec.vpc.id != "" && spec.vpc.name != ""
    case _ => false
  }

  ghost predicate AdmitsCreate(spec: ControlPlaneSpec, parses: CidrParser)
  {
    forall e :: !BreaksOnCreate(spec, parses, e)
  }

  method ValidateCreate(spec: ControlPlaneSpec, parses: CidrParser) returns (allErrs: seq<FieldError>)
    ensures forall e :: e in allErrs <==> BreaksOnCreate(spec, parses, e)
    ensures allErrs == [] <==> AdmitsCreate(spec, parses)
  {
    var vsws := spec.vswitches;
    allErrs := NameErrors(spec.clusterName);
    if spec.region == "" {
      allErrs := allErrs + [RegionRequired];
    }
    if |vsws| < 1 || |vsws| > 5 {
      allErrs := allErrs + [VswitchCount];
    }
    ghost var head := allErrs;
    for i := 0 to |vsws|
      invariant forall e :: e in allErrs <==>
                  (e in head || ((e.IdWithFields? || e.MissingFields? || e.BadCidr?) && e.i < i && BreaksOnCreate(spec, parses, e)))
    {
      var vsw := vsws[i];
      if vsw.id != "" {
        if vsw.name != "" || vsw.cidrBlock != "" {
          allErrs := allErrs + [IdWithFields(i)];
        }
      } else if vsw.name == "" || vsw.cidrBlock == "" {
        allErrs := allErrs + [MissingFields(i)];
      } else if !parses(vsw.cidrBlock) {
        allErrs := allErrs + [BadCidr(i)];
      }
    }
    ghost var fields := allErrs;
    if spec.vpc.id == "" && spec.vpc.name == "" {
      for i := 0 to |vsws|
        invariant forall e :: e in allErrs <==> (e in fields || (e.IdRequired? && e.i < i && BreaksOnCreate(spec, parses, e)))
      {
        if vsws[i].id != "" {
          continue;
        }
        allErrs := allErrs + [IdRequired(i)];
      }
    } else if spec.vpc.id != "" && spec.vpc.name == "" {
    } else if spec.vpc.id == "" && spec.vpc.name != "" {
      if !parses(spec.vpc.cidrBlock) {
        allErrs := allErrs + [BadVpcCidr];
      }
      ghost var vpc := allErrs;
      for i := 0 to |vsws|
        invariant forall e :: e in allErrs <==> (e in vpc || (e.IdForbidden? && e.i < i && BreaksOnCreate(spec, parses, e)))
      {
        if vsws[i].id == "" {
          continue;
        }
        allErrs := allErrs + [IdForbidden(i)];
      }
    } else {
      allErrs := allErrs + [VpcIdAndName];
    }
    assert allErrs != [] ==> allErrs[0] in allErrs;
  }

  method NameErrors(name: string) returns (errs: seq<FieldError>)
    ensures forall e :: e in errs <==>
              && e.ClusterName?
              && match e.error
                 case TooLong => |name| > MAX_CLUSTER_NAME_LENGTH
                 case BadPrefix => "-" <= name || "_" <= name
                 case BadCharacters => exists i :: 0 <= i < |name| && !IsNameChar(name[i])
    ensures errs == [] <==> ValidClusterName(name)
  {
    var nameErrs := ValidateClusterName(name);
    errs := seq(|nameErrs|, i requires 0 <= i < |nameErrs| => ClusterName(nameErrs[i]));
    forall e: FieldError | e.ClusterName? && e.error in nameErrs ensures e in errs {
      var i :| 0 <= i < |nameErrs| && nameErrs[i] == e.error;
      assert errs[i] == e;
    }
  }

  /** What survives of an update: a valid name, the same region, and a VPC and vswitch list
      that differ from the stored ones at most by a first back-fill. */
  ghost predicate AdmitsUpdate(spec: ControlPlaneSpec, prev: ControlPlaneSpec)
  {
    && ValidClusterName(spec.clusterName)
    && spec.region == prev.region
    && VpcEqual(spec.vpc, prev.vpc)
    && VSwitchesEqual(spec.vswitches, prev.vswitches)
  }

  method ValidateUpdate(spec: ControlPlaneSpec, prev: ControlPlaneSpec) returns (allErrs: seq<FieldError>)
    ensures allErrs == [] <==> AdmitsUpdate(spec, prev)
    ensures RegionImmutable in allErrs <==> spec.region != prev.region
    ensures VpcImmutable in allErrs <==> !VpcEqual(spec.vpc, prev.vpc)
    ensures VSwitchesImmutable in allErrs <==> !VSwitchesEqual(spec.vswitches, prev.vswitches)
  {
    allErrs := NameErrors(spec.clusterName);
    if spec.region != prev.region {
      allErrs := allErrs + [RegionImmutable];
    }
    if !VpcEqual(spec.vpc, prev.vpc) {
      allErrs := allErrs + [VpcImmutable];
    }
    var same := CompareVSwitches(spec.vswitches, prev.vswitches);
    if !same {
      allErrs := allErrs + [VSwitchesImmutable];
    }
  }

  /** Defaulting of the cluster name, before validation. */
  function Default(spec: ControlPlaneSpec, name: string, namespace: string, hash: Hash): ControlPlaneSpec
  {
    if spec.clusterName == "" then spec.(clusterName := GenerateClusterName(name, namespace, hash)) else spec
  }

  /** A defaulted name never makes admission fail: with no name given, only the rules about
      the other fields can reject the spec, on creation and on update. */
  lemma DefaultedNameIsAdmitted(spec: ControlPlaneSpec, name: string, namespace: string, hash: Hash,
                                parses: CidrParser, e: FieldError)
    requires IsDnsLabel(namespace) && IsDnsSubdomain(name) && HashesTo(hash, HASH_LENGTH)
    requires spec.clusterName == "" && BreaksOnCreate(Default(spec, name, namespace, hash), parses, e)
    ensures !e.ClusterName? && BreaksOnCreate(spec, parses, e)
  {
    GeneratedNameIsValid(name, namespace, hash);
  }

  /** Defaulting touches nothing but an empty cluster name: a name the user gave is kept, every
      other field always, and a second defaulting changes nothing. */
  lemma DefaultKeepsTheRest(spec: ControlPlaneSpec, name: string, namespace: string, hash: Hash)
    requires IsDnsLabel(namespace)
    ensures var d := Default(spec, name, namespace, hash);
            && (spec.clusterName != "" ==> d == spec)
            && d.region == spec.region && d.vpc == spec.vpc && d.vswitches == spec.vswitches && d.endpoint == spec.endpoint
            && d.clusterName != "" && forall n, ns :: Default(d, n, ns, hash) == d
  {
  }

  /** A cluster name generated for a pair that fits is the pair: it decodes back to it. */
  lemma DefaultedNameDecodes(spec: ControlPlaneSpec, name: string, namespace: string, hash: Hash)
    requires IsDnsLabel(namespace) && IsDnsSubdomain(name) && spec.clusterName == ""
    requires |namespace| + 1 + |name| < 63
    ensures DecodeClusterName(Default(spec, name, namespace, hash).clusterName) == (namespace, name)
  {
    DecodesFullName(name, namespace);
  }

  /** For any longer pair the name is the prefix and one base-36 digit per byte of the hash. */
  lemma LongNameIsHashed(spec: ControlPlaneSpec, name: string, namespace: string, hash: Hash)
    requires HashesTo(hash, HASH_LENGTH) && spec.clusterName == "" && |namespace| + 1 + |name| >= 63
    ensures var generated := Default(spec, name, namespace, hash).clusterName;
            && |generated| == 32 && generated[..5] == "capa_"
            && forall i :: 5 <= i < 32 ==> generated[i] == Base36Char(hash(FullName(namespace, name))[i - 5] % 36)
  {
    assert |hash(FullName(namespace, name))| == HASH_LENGTH == 27;
  }

  /** The network modes: without any VPC block every vswitch is given by id; with a VPC to be
      created none is; and a VPC is never given both ways. */
  ghost predicate NetworkMode(spec: ControlPlaneSpec)
  {
    && !(spec.vpc.id != "" && spec.vpc.name != "")
    && (spec.vpc.id == "" && spec.vpc.name == "" ==> forall i :: 0 <= i < |spec.vswitches| ==> spec.vswitches[i].id != "")
    && (spec.vpc.id == "" && spec.vpc.name != "" ==> forall i :: 0 <= i < |spec.vswitches| ==> spec.vswitches[i].id == "")
    && (forall i :: 0 <= i < |spec.vswitches| ==> spec.vswitches[i].id == "" ==> spec.vswitches[i].name != "")
  }

  ghost predicate UpdateChain(versions: seq<ControlPlaneSpec>)
  {
    forall i :: 0 < i < |versions| ==> AdmitsUpdate(versions[i], versions[i - 1])
  }

  lemma UpdateKeepsNetworkMode(spec: ControlPlaneSpec, prev: ControlPlaneSpec)
    requires AdmitsUpdate(spec, prev) && NetworkMode(prev)
    ensures NetworkMode(spec)
  {
    assert forall i :: 0 <= i < |spec.vswitches| ==> VSwitchEqual(spec.vswitches[i], prev.vswitches[i]);
  }

  /** The mode a spec was created in holds in every later accepted version. */
  lemma {:induction false} NetworkModeForever(versions: seq<ControlPlaneSpec>, parses: CidrParser, j: nat)
    requires UpdateChain(versions) && j < |versions| && AdmitsCreate(versions[0], parses)
    ensures NetworkMode(versions[j])
    decreases j
  {
    if j == 0 {
      AdmittedMode(versions[0], parses);
    } else {
      NetworkModeForever(versions, parses, j - 1);
      UpdateKeepsNetworkMode(versions[j], versions[j - 1]);
    }
  }

  lemma AdmittedMode(spec: ControlPlaneSpec, parses: CidrParser)
    requires AdmitsCreate(spec, parses)
    ensures NetworkMode(spec) && ValidClusterName(spec.clusterName) && spec.region != ""
  {
    assert !BreaksOnCreate(spec, parses, VpcIdAndName) && !BreaksOnCreate(spec, parses, RegionRequired);
    assert !BreaksOnCreate(spec, parses, ClusterName(TooLong));
    assert !BreaksOnCreate(spec, parses, ClusterName(BadPrefix));
    assert !BreaksOnCreate(spec, parses, ClusterName(BadCharacters));
    forall i: nat | i < |spec.vswitches|
      ensures spec.vpc.id == "" && spec.vpc.name == "" ==> spec.vswitches[i].id != ""
      ensures spec.vpc.id == "" && spec.vpc.name != "" ==> spec.vswitches[i].id == ""
      ensures spec.vswitches[i].id == "" ==> spec.vswitches[i].name != ""
    {
      assert !BreaksOnCreate(spec, parses, IdRequired(i)) && !BreaksOnCreate(spec, parses, IdForbidden(i));
      assert !BreaksOnCreate(spec, parses, MissingFields(i));
    }
  }
}
