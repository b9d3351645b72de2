/** The VPC and vswitch blocks shared by the control plane and the machine pool specs
    (package api/common): completeness, the immutability test with back-fill, and the
    list of cloud ids. */
module CommonApi {
  import opened Wrappers

  /** Object uids; NO_UID is the empty string of the source. */
  type Uid = nat
  const NO_UID: Uid := 0

  datatype VPC = VPC(id: string, name: string, resourceId: string, uid: Uid, cidrBlock: string)

  datatype VSwitch = VSwitch(id: string, name: string, resourceId: string, uid: Uid, zoneId: string, cidrBlock: string)

  /** A register that may be written once: from empty to a value, then never again. */
  predicate Backfills(now: string, before: string)
  {
    (now != "" && before == "") || now == before
  }

  predicate VpcEqual(vpc: VPC, prev: VPC)
  {
    && vpc.id == prev.id && vpc.name == prev.name && vpc.cidrBlock == prev.cidrBlock
    && Backfills(vpc.resourceId, prev.resourceId)
  }

  predicate VSwitchEqual(vsw: VSwitch, prev: VSwitch)
  {
    && vsw.id == prev.id && vsw.name == prev.name && vsw.cidrBlock == prev.cidrBlock
    && Backfills(vsw.resourceId, prev.resourceId)
  }

  /** What VSwitches.Equal decides: same length, and equal position by position. */
  ghost predicate VSwitchesEqual(vsws: seq<VSwitch>, prev: seq<VSwitch>)
  {
    && |vsws| == |prev|
    && forall i :: 0 <= i < |vsws| ==> VSwitchEqual(vsws[i], prev[i])
  }

  method CompareVSwitches(vsws: seq<VSwitch>, prev: seq<VSwitch>) returns (equal: bool)
    ensures equal <==> VSwitchesEqual(vsws, prev)
  {
    if |vsws| != |prev| {
      return false;
    }
    var i, j := 0, 0;
    while i < |vsws| && j < |prev|
      invariant 0 <= i == j <= |vsws|
      invariant forall k :: 0 <= k < i ==> VSwitchEqual(vsws[k], prev[k])
    {
      if !VSwitchEqual(vsws[i], prev[j]) {
        return false;
      }
      i, j := i + 1, j + 1;
    }
    return true;
  }

  /** A vswitch that needs no more work: it was given by id, or both its fields are filled. */
  predicate Complete(vsw: VSwitch)
  {
    vsw.id != "" || (vsw.resourceId != "" && vsw.uid != NO_UID)
  }

  function CloudId(vsw: VSwitch): string
  {
    if vsw.id != "" then vsw.id else vsw.resourceId
  }

  /** The position of the first vswitch without an id, or the length of the list. */
  function FirstIncomplete(vsws: seq<VSwitch>): (k: nat)
    ensures k <= |vsws|
    ensures forall i :: 0 <= i < k ==> Complete(vsws[i])
    ensures k < |vsws| ==> !Complete(vsws[k])
  {
    if vsws == [] || !Complete(vsws[0]) then 0 else 1 + FirstIncomplete(vsws[1..])
  }

  function CloudIds(vsws: seq<VSwitch>, k: nat): (ids: seq<string>)
    requires k <= |vsws|
  {
    seq(k, i requires 0 <= i < k => CloudId(vsws[i]))
  }

  ghost predicate AllComplete(vsws: seq<VSwitch>)
  {
    forall i :: 0 <= i < |vsws| ==> Complete(vsws[i])
  }

  /** GetIDList: the ids up to the first incomplete vswitch, whose position is the error. */
  method GetIdList(vsws: seq<VSwitch>) returns (ids: seq<string>, err: Option<nat>)
    ensures ids == CloudIds(vsws, FirstIncomplete(vsws))
    ensures err == if AllComplete(vsws) then None else Some(FirstIncomplete(vsws))
    ensures err.None? ==> |ids| == |vsws| && forall i :: 0 <= i < |ids| ==> ids[i] == CloudId(vsws[i]) != ""
    ensures |ids| <= |vsws| && err == if |ids| == |vsws| then None else Some(|ids|)
    ensures forall i :: 0 <= i < |ids| ==>
              if vsws[i].id != "" then ids[i] == vsws[i].id
              else ids[i] == vsws[i].resourceId != "" && vsws[i].uid != NO_UID
    ensures |ids| < |vsws| ==> var vsw := vsws[|ids|]; vsw.id == "" && (vsw.resourceId == "" || vsw.uid == NO_UID)
  {
    ids, err := [], None;
    for i := 0 to |vsws|
      invariant |ids| == i
      invariant forall k :: 0 <= k < i ==> Complete(vsws[k]) && ids[k] == CloudId(vsws[k])
      invariant err.None?
    {
      var vsw := vsws[i];
      if vsw.id != "" {
        ids := ids + [vsw.id];
      } else if vsw.resourceId != "" && vsw.uid != NO_UID {
        ids := ids + [vsw.resourceId];
      } else {
        err := Some(i);
        FirstIncompleteIs(vsws, i);
        return;
      }
    }
    FirstIncompleteIs(vsws, |vsws|);
  }

  lemma FirstIncompleteIs(vsws: seq<VSwitch>, k: nat)
    requires k <= |vsws|
    requires forall i :: 0 <= i < k ==> Complete(vsws[i])
    requires k < |vsws| ==> !Complete(vsws[k])
    ensures FirstIncomplete(vsws) == k
  {
  }

  /******* Chains of accepted updates *******/

  ghost predicate VpcChain(versions: seq<VPC>)
  {
    forall i :: 0 < i < |versions| ==> VpcEqual(versions[i], versions[i - 1])
  }

  ghost predicate VSwitchesChain(versions: seq<seq<VSwitch>>)
  {
    forall i :: 0 < i < |versions| ==> VSwitchesEqual(versions[i], versions[i - 1])
  }

  /** The immutability test composes along any chain of accepted updates. */
  lemma {:induction false} VpcChainEqual(versions: seq<VPC>, i: nat, j: nat)
    requires VpcChain(versions) && i <= j < |versions|
    ensures VpcEqual(versions[j], versions[i])
    decreases j
  {
    if i < j {
      VpcChainEqual(versions, i, j - 1);
      assert VpcEqual(versions[j], versions[j - 1]);
    }
  }

  lemma {:induction false} VSwitchesChainEqual(versions: seq<seq<VSwitch>>, i: nat, j: nat)
    requires VSwitchesChain(versions) && i <= j < |versions|
    ensures VSwitchesEqual(versions[j], versions[i])
    decreases j
  {
    if i < j {
      VSwitchesChainEqual(versions, i, j - 1);
      assert VSwitchesEqual(versions[j], versions[j - 1]);
    } else {
      forall k | 0 <= k < |versions[i]| ensures VSwitchEqual(versions[i][k], versions[i][k]) {}
    }
  }

  /** A sequence of register values that is empty up to some point and one constant after it. */
  ghost predicate WrittenOnce(values: seq<string>)
  {
    exists k :: 0 <= k <= |values| && WrittenAt(values, k)
  }

  ghost predicate WrittenAt(values: seq<string>, k: nat)
    requires k <= |values|
  {
    && (forall i :: 0 <= i < k ==> values[i] == "")
    && (forall i :: k <= i < |values| ==> values[i] == values[|values| - 1] != "")
  }

  lemma {:induction false} RegisterWrittenOnce(values: seq<string>)
    requires forall i :: 0 < i < |values| ==> Backfills(values[i], values[i - 1])
    ensures WrittenOnce(values)
  {
    if values == [] {
      assert WrittenAt(values, 0);
    } else {
      var front, last := values[..|values| - 1], |values| - 1;
      assert forall i :: 0 < i < |front| ==> Backfills(front[i], front[i - 1]) by {
        forall i | 0 < i < |front| ensures Backfills(front[i], front[i - 1]) {
          assert Backfills(values[i], values[i - 1]);
        }
      }
      RegisterWrittenOnce(front);
      var k :| 0 <= k <= |front| && WrittenAt(front, k);
      if last > 0 {
        assert Backfills(values[last], values[last - 1]);
        assert values[last - 1] == front[|front| - 1];
      }
      if values[last] == "" {
        assert WrittenAt(values, |values|);
      } else if k < |front| {
        assert WrittenAt(values, k);
      } else {
        assert WrittenAt(values, last);
      }
    }
  }

  /** Over any chain of accepted control plane updates the VPC's identity never changes and
      its ResourceID is written at most once. */
  lemma {:induction false} VpcWrittenOnce(versions: seq<VPC>)
    requires VpcChain(versions)
    ensures forall i, j :: 0 <= i < j < |versions| ==>
              versions[i].id == versions[j].id && versions[i].name == versions[j].name &&
              versions[i].cidrBlock == versions[j].cidrBlock
    ensures WrittenOnce(seq(|versions|, i requires 0 <= i < |versions| => versions[i].resourceId))
  {
    forall i, j | 0 <= i < j < |versions| ensures VpcEqual(versions[j], versions[i]) {
      VpcChainEqual(versions, i, j);
    }
    RegisterWrittenOnce(seq(|versions|, i requires 0 <= i < |versions| => versions[i].resourceId));
  }

  /** The same for every position of the vswitch list, whose length and order are frozen. */
  lemma {:induction false} VSwitchesWrittenOnce(versions: seq<seq<VSwitch>>, k: nat)
    requires VSwitchesChain(versions) && versions != [] && k < |versions[0]|
    ensures forall i :: 0 <= i < |versions| ==>
              |versions[i]| == |versions[0]| && versions[i][k].id == versions[0][k].id &&
              versions[i][k].name == versions[0][k].name && versions[i][k].cidrBlock == versions[0][k].cidrBlock
    ensures WrittenOnce(seq(|versions|, i requires 0 <= i < |versions| =>
                                  if k < |versions[i]| then versions[i][k].resourceId else ""))
  {
    forall i | 0 <= i < |versions| ensures VSwitchesEqual(versions[i], versions[0]) {
      VSwitchesChainEqual(versions, 0, i);
    }
    var values := seq(|versions|, i requires 0 <= i < |versions| =>
                                        if k < |versions[i]| then versions[i][k].resourceId else "");
    forall i | 0 < i < |values| ensures Backfills(values[i], values[i - 1]) {
      assert VSwitchesEqual(versions[i], versions[i - 1]);
      assert VSwitchEqual(versions[i][k], versions[i - 1][k]);
    }
    RegisterWrittenOnce(values);
  }
}
