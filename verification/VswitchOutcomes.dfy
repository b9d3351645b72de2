/** Exactly what the two vswitch loops do, entry by entry, said of the store, the list and the
    faults they start from: where the create loop stops and why, what each visited entry and each
    created vswitch looks like, and which errors both loops report. */
module VswitchOutcomes {
  import opened Wrappers
  import opened CommonApi
  import opened ApiServer
  import opened VswitchReconcile
  import opened VswitchFacts

  /******* The create loop *******/

  /** The name is stored, and its first owner, if it has one, is somebody else. */
  ghost predicate Taken(db: Db, owner: OwnerRef, n: string)
  {
    && n in db.vswitches
    && (db.vswitches[n].meta.owners == [] || db.vswitches[n].meta.owners[0].uid != owner.uid)
  }

  /** The loop cannot get past entry k: its name cannot be looked up, or is taken. */
  ghost predicate StopsAt(db: Db, owner: OwnerRef, entries: seq<VSwitch>, k: nat, faults: nat -> Fault)
  {
    k < |entries| && !Complete(entries[k]) && (faults(k).ReadFails? || Taken(db, owner, entries[k].name))
  }

  /** The loop gets to entry k. */
  ghost predicate GetsTo(db: Db, owner: OwnerRef, entries: seq<VSwitch>, k: nat, faults: nat -> Fault)
  {
    k <= |entries| && forall i: nat :: i < k ==> !StopsAt(db, owner, entries, i, faults)
  }

  /** Entry k asks for a vswitch nobody has stored, and the call that creates it would succeed. */
  ghost predicate CouldCreate(db: Db, entries: seq<VSwitch>, k: nat, faults: nat -> Fault)
  {
    k < |entries| && !Complete(entries[k]) && entries[k].name !in db.vswitches && !faults(k).WriteFails?
  }

  ghost predicate CreatedBefore(db: Db, entries: seq<VSwitch>, k: nat, faults: nat -> Fault)
    requires k < |entries|
  {
    exists i: nat :: i < k && CouldCreate(db, entries, i, faults) && entries[i].name == entries[k].name
  }

  /** Entry k is the one that creates the vswitch of its name. */
  ghost predicate CreatesAt(db: Db, entries: seq<VSwitch>, k: nat, faults: nat -> Fault)
  {
    CouldCreate(db, entries, k, faults) && !CreatedBefore(db, entries, k, faults)
  }

  /** The error a visited entry adds, if any. */
  ghost function Problem(db: Db, entries: seq<VSwitch>, k: nat, faults: nat -> Fault): Option<EntryError>
    requires k < |entries|
  {
    var vsw := entries[k];
    if Complete(vsw) then None
    else if vsw.name in db.vswitches then
      if HasCloudId(db.vswitches[vsw.name]) then None else Some(Pending(db.vswitches[vsw.name].messages))
    else if CreatedBefore(db, entries, k, faults) then Some(NotReady)
    else if faults(k).WriteFails? then Some(CreateFailed)
    else None
  }

  predicate HasCloudId(v: Vswitch)
  {
    v.cloudId.Some? && v.cloudId.value != ""
  }

  /** The errors of the first k entries, in order. */
  ghost function Problems(db: Db, entries: seq<VSwitch>, k: nat, faults: nat -> Fault): seq<EntryError>
    requires k <= |entries|
  {
    if k == 0 then []
    else
      var rest, p := Problems(db, entries, k - 1, faults), Problem(db, entries, k - 1, faults);
      if p.Some? then rest + [p.value] else rest
  }

  /** A visited entry afterwards: filled from its stored vswitch if the provider has given that one
      an id, given the uid of the vswitch it has created, and otherwise untouched. */
  ghost predicate Visited(db: Db, later: Db, entries: seq<VSwitch>, k: nat, faults: nat -> Fault, after: VSwitch)
    requires k < |entries|
  {
    var vsw := entries[k];
    if !Complete(vsw) && vsw.name in db.vswitches && HasCloudId(db.vswitches[vsw.name]) then
      var stored := db.vswitches[vsw.name];
      after == vsw.(resourceId := stored.cloudId.value, uid := stored.meta.uid)
    else if CreatesAt(db, entries, k, faults) then
      vsw.name in later.vswitches && after == vsw.(uid := later.vswitches[vsw.name].meta.uid)
    else after == vsw
  }

  /** The vswitch created for an entry: as the entry asks, in the given VPC, with a fresh uid. */
  ghost predicate CreatedFor(db: Db, vsw: VSwitch, owner: OwnerRef, vpcId: string, v: Vswitch)
  {
    && db.nextUid <= v.meta.uid
    && v == Vswitch(Meta(v.meta.uid, [owner], None, {}), vsw.zoneId, vsw.cidrBlock, vpcId, None, Messages("", "", ""))
  }

  /** The stored vswitches after the first k entries: those from before, and one for each creation. */
  ghost predicate StoredAfter(db: Db, later: Db, entries: seq<VSwitch>, k: nat, owner: OwnerRef, vpcId: string,
                              faults: nat -> Fault)
  {
    && k <= |entries|
    && (forall n :: n in db.vswitches ==> n in later.vswitches && later.vswitches[n] == db.vswitches[n])
    && (forall n :: n in later.vswitches ==> n in db.vswitches || CreatedUpTo(db, entries, k, faults, n))
    && (forall i: nat :: i < k && CreatesAt(db, entries, i, faults) ==>
          entries[i].name in later.vswitches && CreatedFor(db, entries[i], owner, vpcId, later.vswitches[entries[i].name]))
  }

  ghost predicate CreatedUpTo(db: Db, entries: seq<VSwitch>, k: nat, faults: nat -> Fault, n: string)
  {
    exists i: nat :: i < k && CreatesAt(db, entries, i, faults) && entries[i].name == n
  }

  /** The state of the loop when it gets to entry i. */
  ghost predicate ScannedTo(db: Db, owner: OwnerRef, vpcId: string, entries: seq<VSwitch>, faults: nat -> Fault,
                            s: Scan, i: nat)
  {
    && i <= |entries| == |s.entries|
    && s.entries[i..] == entries[i..]
    && (forall k: nat :: k < i ==> Visited(db, s.db, entries, k, faults, s.entries[k]))
    && StoredAfter(db, s.db, entries, i, owner, vpcId, faults) && db.nextUid <= s.db.nextUid
    && s.errors == Problems(db, entries, i, faults)
  }

  /** Some entry before k really created what an earlier one could have. */
  lemma {:induction false} FirstCreates(db: Db, entries: seq<VSwitch>, k: nat, faults: nat -> Fault)
    requires k < |entries| && CreatedBefore(db, entries, k, faults)
    ensures CreatedUpTo(db, entries, k, faults, entries[k].name)
  {
    var i: nat :| i < k && CouldCreate(db, entries, i, faults) && entries[i].name == entries[k].name;
    if CreatedBefore(db, entries, i, faults) {
      FirstCreates(db, entries, i, faults);
      var j: nat :| j < i && CreatesAt(db, entries, j, faults) && entries[j].name == entries[i].name;
      assert CreatesAt(db, entries, j, faults) && entries[j].name == entries[k].name;
    } else {
      assert CreatesAt(db, entries, i, faults);
    }
  }

  lemma VisitStops(db: Db, owner: OwnerRef, vpcId: string, entries: seq<VSwitch>, faults: nat -> Fault, s: Scan, i: nat)
    requires ScannedTo(db, owner, vpcId, entries, faults, s, i) && StopsAt(db, owner, entries, i, faults)
    ensures VisitEntry(s, i, owner, vpcId, faults(i)) ==
            Halt(s, if faults(i).ReadFails? then GetFailed(entries[i].name) else AlreadyExists(entries[i].name))
  {
    assert s.entries[i] == s.entries[i..][0] == entries[i];
  }

  lemma VisitGoesOn(db: Db, owner: OwnerRef, vpcId: string, entries: seq<VSwitch>, faults: nat -> Fault, s: Scan,
                    i: nat)
    requires ScannedTo(db, owner, vpcId, entries, faults, s, i)
    requires i < |entries| && !StopsAt(db, owner, entries, i, faults)
    ensures var v := VisitEntry(s, i, owner, vpcId, faults(i));
            v.Go? && ScannedTo(db, owner, vpcId, entries, faults, v.scan, i + 1)
  {
    var vsw := entries[i];
    assert s.entries[i] == s.entries[i..][0] == vsw;
    assert s.entries[i + 1..] == s.entries[i..][1..] == entries[i + 1..];
    if Complete(vsw) {
      VisitedLeavesStore(db, owner, vpcId, entries, faults, s, i);
    } else if vsw.name in db.vswitches {
      VisitedLeavesStore(db, owner, vpcId, entries, faults, s, i);
    } else if CreatedBefore(db, entries, i, faults) {
      FirstCreates(db, entries, i, faults);
      VisitedLeavesStore(db, owner, vpcId, entries, faults, s, i);
    } else {
      assert vsw.name !in s.db.vswitches;
      if faults(i).WriteFails? {
        VisitedLeavesStore(db, owner, vpcId, entries, faults, s, i);
      } else {
        VisitCreates(db, owner, vpcId, entries, faults, s, i);
      }
    }
  }

  /** An entry that creates nothing leaves the account of the stored vswitches as it was. */
  lemma VisitedLeavesStore(db: Db, owner: OwnerRef, vpcId: string, entries: seq<VSwitch>, faults: nat -> Fault,
                           s: Scan, i: nat)
    requires ScannedTo(db, owner, vpcId, entries, faults, s, i)
    requires i < |entries| && !CreatesAt(db, entries, i, faults)
    ensures StoredAfter(db, s.db, entries, i + 1, owner, vpcId, faults)
  {
    forall n | n in s.db.vswitches && n !in db.vswitches ensures CreatedUpTo(db, entries, i + 1, faults, n) {
      var k: nat :| k < i && CreatesAt(db, entries, k, faults) && entries[k].name == n;
      assert k < i + 1;
    }
  }

  lemma StoredOneMore(db: Db, before: Db, entries: seq<VSwitch>, i: nat, owner: OwnerRef, vpcId: string,
                      faults: nat -> Fault)
    requires StoredAfter(db, before, entries, i, owner, vpcId, faults) && db.nextUid <= before.nextUid
    requires i < |entries| && CreatesAt(db, entries, i, faults) && entries[i].name !in before.vswitches
    ensures var vsw := entries[i];
            var later := CreateVswitch(before, vsw.name, [owner], vsw.zoneId, vsw.cidrBlock, vpcId);
            StoredAfter(db, later, entries, i + 1, owner, vpcId, faults)
  {
    var vsw := entries[i];
    var later := CreateVswitch(before, vsw.name, [owner], vsw.zoneId, vsw.cidrBlock, vpcId);
    forall n | n in later.vswitches && n !in db.vswitches ensures CreatedUpTo(db, entries, i + 1, faults, n) {
      if n == vsw.name {
        assert CreatesAt(db, entries, i, faults);
      } else {
        var k: nat :| k < i && CreatesAt(db, entries, k, faults) && entries[k].name == n;
        assert k < i + 1;
      }
    }
  }

  lemma VisitCreates(db: Db, owner: OwnerRef, vpcId: string, entries: seq<VSwitch>, faults: nat -> Fault, s: Scan,
                     i: nat)
    requires ScannedTo(db, owner, vpcId, entries, faults, s, i)
    requires i < |entries| && CreatesAt(db, entries, i, faults) && entries[i].name !in s.db.vswitches
    ensures var vsw := entries[i];
            var later := CreateVswitch(s.db, vsw.name, [owner], vsw.zoneId, vsw.cidrBlock, vpcId);
            var m := s.(db := later, entries := s.entries[i := vsw.(uid := s.db.nextUid)]);
            ScannedTo(db, owner, vpcId, entries, faults, m, i + 1)
  {
    assert s.entries[i + 1..] == s.entries[i..][1..] == entries[i + 1..];
    StoredOneMore(db, s.db, entries, i, owner, vpcId, faults);
    forall k: nat | k < i && CreatesAt(db, entries, k, faults) ensures entries[k].name != entries[i].name {
      assert entries[k].name in s.db.vswitches;
    }
  }

  lemma ScanStarts(db: Db, owner: OwnerRef, vpcId: string, entries: seq<VSwitch>, faults: nat -> Fault)
    ensures ScannedTo(db, owner, vpcId, entries, faults, Scan(db, entries, []), 0)
  {
  }

  lemma {:induction false} ScanGetsTo(db: Db, owner: OwnerRef, vpcId: string, entries: seq<VSwitch>,
                                      faults: nat -> Fault, k: nat)
    returns (s: Scan)
    requires GetsTo(db, owner, entries, k, faults)
    ensures ScannedTo(db, owner, vpcId, entries, faults, s, k)
    ensures ScanFrom(Scan(db, entries, []), 0, owner, vpcId, faults) == ScanFrom(s, k, owner, vpcId, faults)
  {
    if k == 0 {
      ScanStarts(db, owner, vpcId, entries, faults);
      s := Scan(db, entries, []);
    } else {
      var before := ScanGetsTo(db, owner, vpcId, entries, faults, k - 1);
      VisitGoesOn(db, owner, vpcId, entries, faults, before, k - 1);
      s := VisitEntry(before, k - 1, owner, vpcId, faults(k - 1)).scan;
      assert ScanFrom(before, k - 1, owner, vpcId, faults) == ScanFrom(s, k, owner, vpcId, faults);
    }
  }

  /** How far the pass got: the entries and vswitches up to k are done, the rest is untouched. */
  ghost predicate DoneTo(db: Db, owner: OwnerRef, vpcId: string, entries: seq<VSwitch>, faults: nat -> Fault, p: Pass,
                         k: nat)
  {
    && k <= |entries| == |p.entries| && p.entries[k..] == entries[k..]
    && (forall i: nat :: i < k ==> Visited(db, p.db, entries, i, faults, p.entries[i]))
    && StoredAfter(db, p.db, entries, k, owner, vpcId, faults)
  }

  /** The pass stops at the first entry whose name cannot be looked up or is taken, with the error
      that says so; the entries before it are done, and nothing from it on is touched. */
  lemma PassStops(db: Db, owner: OwnerRef, vpcId: string, entries: seq<VSwitch>, faults: nat -> Fault, k: nat)
    requires GetsTo(db, owner, entries, k, faults) && StopsAt(db, owner, entries, k, faults)
    ensures var p := VswitchPass(db, owner, vpcId, entries, faults);
            && p.err == Some(if faults(k).ReadFails? then GetFailed(entries[k].name) else AlreadyExists(entries[k].name))
            && DoneTo(db, owner, vpcId, entries, faults, p, k)
            && p.ids == CloudIds(entries, FirstIncomplete(entries))
  {
    var s := ScanGetsTo(db, owner, vpcId, entries, faults, k);
    VisitStops(db, owner, vpcId, entries, faults, s, k);
    assert FirstIncomplete(entries) < |entries|;
  }

  /** A pass that nothing stops is done with every entry; it reports the problems of all entries
      together, or else the first entry that is still incomplete, or else nothing. */
  lemma PassFinishes(db: Db, owner: OwnerRef, vpcId: string, entries: seq<VSwitch>, faults: nat -> Fault)
    requires GetsTo(db, owner, entries, |entries|, faults)
    ensures var p := VswitchPass(db, owner, vpcId, entries, faults);
            var errors := Problems(db, entries, |entries|, faults);
            && DoneTo(db, owner, vpcId, entries, faults, p, |entries|)
            && p.err == (if errors != [] then Some(Aggregate(errors))
                         else if FirstIncomplete(p.entries) < |entries| then Some(IncompleteAt(FirstIncomplete(p.entries)))
                         else None)
            && p.ids == (if errors != [] then [] else CloudIds(p.entries, FirstIncomplete(p.entries)))
  {
    if AllComplete(entries) {
      NoProblems(db, entries, |entries|, faults);
      FirstIncompleteIs(entries, |entries|);
    } else {
      var s := ScanGetsTo(db, owner, vpcId, entries, faults, |entries|);
    }
  }

  lemma {:induction false} NoProblems(db: Db, entries: seq<VSwitch>, k: nat, faults: nat -> Fault)
    requires AllComplete(entries) && k <= |entries|
    ensures Problems(db, entries, k, faults) == []
  {
    if k > 0 {
      NoProblems(db, entries, k - 1, faults);
    }
  }

  /** A taken name stops the pass: nothing from there on is looked at, and every vswitch that is
      new was asked for by an earlier entry. */
  lemma ForeignNameStops(db: Db, owner: OwnerRef, vpcId: string, entries: seq<VSwitch>, faults: nat -> Fault, k: nat)
    requires k < |entries| && !Complete(entries[k]) && Taken(db, owner, entries[k].name)
    requires forall i: nat :: i <= k && !Complete(entries[i]) ==> !faults(i).ReadFails?
    requires forall i: nat :: i < k && !Complete(entries[i]) ==> !Taken(db, owner, entries[i].name)
    ensures var p := VswitchPass(db, owner, vpcId, entries, faults);
            && p.err == Some(AlreadyExists(entries[k].name)) && p.entries[k..] == entries[k..]
            && forall n :: n in p.db.vswitches && n !in db.vswitches ==> exists i :: 0 <= i < k && entries[i].name == n
  {
    PassStops(db, owner, vpcId, entries, faults, k);
    NewNamesBefore(db, owner, vpcId, entries, faults, k);
  }

  /** So does a failed lookup. */
  lemma FailedReadStops(db: Db, owner: OwnerRef, vpcId: string, entries: seq<VSwitch>, faults: nat -> Fault, k: nat)
    requires k < |entries| && !Complete(entries[k]) && faults(k).ReadFails?
    requires forall i: nat :: i < k && !Complete(entries[i]) ==> !faults(i).ReadFails? && !Taken(db, owner, entries[i].name)
    ensures var p := VswitchPass(db, owner, vpcId, entries, faults);
            && p.err == Some(GetFailed(entries[k].name)) && p.entries[k..] == entries[k..]
            && forall n :: n in p.db.vswitches && n !in db.vswitches ==> exists i :: 0 <= i < k && entries[i].name == n
  {
    PassStops(db, owner, vpcId, entries, faults, k);
    NewNamesBefore(db, owner, vpcId, entries, faults, k);
  }

  lemma NewNamesBefore(db: Db, owner: OwnerRef, vpcId: string, entries: seq<VSwitch>, faults: nat -> Fault, k: nat)
    requires StoredAfter(db, VswitchPass(db, owner, vpcId, entries, faults).db, entries, k, owner, vpcId, faults)
    ensures var later := VswitchPass(db, owner, vpcId, entries, faults).db;
            forall n :: n in later.vswitches && n !in db.vswitches ==> exists i :: 0 <= i < k && entries[i].name == n
  {
    var later := VswitchPass(db, owner, vpcId, entries, faults).db;
    forall n | n in later.vswitches && n !in db.vswitches ensures exists i :: 0 <= i < k && entries[i].name == n {
      var i: nat :| i < k && CreatesAt(db, entries, i, faults) && entries[i].name == n;
      assert entries[i].name == n;
    }
  }

  /******* When a pass succeeds *******/

  /** Entry k needs nothing, or its own vswitch has an id, or it holds an id already and lacks only
      the uid of the vswitch it is about to create. */
  ghost predicate AtHand(db: Db, owner: OwnerRef, entries: seq<VSwitch>, k: nat, faults: nat -> Fault)
    requires k < |entries|
  {
    var vsw := entries[k];
    || Complete(vsw)
    || (&& !faults(k).ReadFails?
        && if vsw.name in db.vswitches then
             db.vswitches[vsw.name].meta.OwnedBy(owner.uid) && HasCloudId(db.vswitches[vsw.name])
           else HalfFilled(vsw) && CreatesAt(db, entries, k, faults))
  }

  ghost predicate AllAtHand(db: Db, owner: OwnerRef, entries: seq<VSwitch>, faults: nat -> Fault)
  {
    forall k: nat :: k < |entries| ==> AtHand(db, owner, entries, k, faults)
  }

  lemma SameCreations(db: Db, other: Db, entries: seq<VSwitch>, k: nat, faults: nat -> Fault)
    requires db.vswitches == other.vswitches && k < |entries|
    ensures CreatesAt(db, entries, k, faults) <==> CreatesAt(other, entries, k, faults)
  {
    assert forall i: nat :: CouldCreate(db, entries, i, faults) <==> CouldCreate(other, entries, i, faults);
  }

  /** Only the stored vswitches matter for that. */
  lemma SameAtHand(db: Db, other: Db, owner: OwnerRef, entries: seq<VSwitch>, faults: nat -> Fault)
    requires db.vswitches == other.vswitches
    ensures AllAtHand(db, owner, entries, faults) <==> AllAtHand(other, owner, entries, faults)
  {
    forall k: nat | k < |entries|
      ensures AtHand(db, owner, entries, k, faults) <==> AtHand(other, owner, entries, k, faults)
    {
      SameCreations(db, other, entries, k, faults);
    }
  }

  lemma VisitedCompletes(db: Db, owner: OwnerRef, vpcId: string, entries: seq<VSwitch>, faults: nat -> Fault, p: Pass,
                         k: nat)
    requires RealUids(db) && DoneTo(db, owner, vpcId, entries, faults, p, |entries|)
    requires k < |entries| && !StopsAt(db, owner, entries, k, faults)
    ensures Complete(p.entries[k]) <==> AtHand(db, owner, entries, k, faults)
  {
    assert Visited(db, p.db, entries, k, faults, p.entries[k]);
    if CreatesAt(db, entries, k, faults) {
      assert CreatedFor(db, entries[k], owner, vpcId, p.db.vswitches[entries[k].name]);
    }
  }

  lemma {:induction false} StopMeansError(db: Db, owner: OwnerRef, vpcId: string, entries: seq<VSwitch>,
                                          faults: nat -> Fault, k: nat)
    requires StopsAt(db, owner, entries, k, faults)
    ensures VswitchPass(db, owner, vpcId, entries, faults).err.Some?
  {
    if i: nat :| i < k && StopsAt(db, owner, entries, i, faults) {
      StopMeansError(db, owner, vpcId, entries, faults, i);
    } else {
      PassStops(db, owner, vpcId, entries, faults, k);
    }
  }

  /** The exact condition, on the store and the list a pass starts from, for it to succeed; then it
      has done every entry. */
  lemma PassSucceedsExactly(db: Db, owner: OwnerRef, vpcId: string, entries: seq<VSwitch>, faults: nat -> Fault)
    requires RealUids(db)
    ensures var p := VswitchPass(db, owner, vpcId, entries, faults);
            && (p.err.None? <==> AllAtHand(db, owner, entries, faults))
            && (p.err.None? ==> DoneTo(db, owner, vpcId, entries, faults, p, |entries|))
  {
    if k: nat :| StopsAt(db, owner, entries, k, faults) {
      assert !AtHand(db, owner, entries, k, faults);
      StopMeansError(db, owner, vpcId, entries, faults, k);
    } else {
      PassFinishes(db, owner, vpcId, entries, faults);
      PassContract(db, owner, vpcId, entries, faults);
      var p := VswitchPass(db, owner, vpcId, entries, faults);
      forall k: nat | k < |entries| ensures Complete(p.entries[k]) <==> AtHand(db, owner, entries, k, faults) {
        VisitedCompletes(db, owner, vpcId, entries, faults, p, k);
      }
      assert AllComplete(p.entries) <==> AllAtHand(db, owner, entries, faults);
    }
  }

  /** An entry filled from its stored vswitch. */
  function FilledEntry(db: Db, vsw: VSwitch): VSwitch
    requires Complete(vsw) || (vsw.name in db.vswitches && HasCloudId(db.vswitches[vsw.name]))
  {
    if Complete(vsw) then vsw
    else
      var v := db.vswitches[vsw.name];
      vsw.(resourceId := v.cloudId.value, uid := v.meta.uid)
  }

  ghost predicate EntriesFilled(db: Db, before: seq<VSwitch>, after: seq<VSwitch>)
  {
    && |after| == |before|
    && forall k :: 0 <= k < |after| ==>
         && (Complete(before[k]) || (before[k].name in db.vswitches && HasCloudId(db.vswitches[before[k].name])))
         && after[k] == FilledEntry(db, before[k])
  }

  /** A list without half-filled entries is completed from the stored vswitches alone: nothing is
      created. */
  lemma FilledFromStore(db: Db, owner: OwnerRef, vpcId: string, entries: seq<VSwitch>, faults: nat -> Fault, p: Pass)
    requires AllAtHand(db, owner, entries, faults) && DoneTo(db, owner, vpcId, entries, faults, p, |entries|)
    requires forall k :: 0 <= k < |entries| ==> !HalfFilled(entries[k])
    ensures EntriesFilled(db, entries, p.entries) && p.db.vswitches == db.vswitches
  {
    forall k: nat | k < |entries|
      ensures Complete(entries[k]) || (entries[k].name in db.vswitches && HasCloudId(db.vswitches[entries[k].name]))
      ensures p.entries[k] == FilledEntry(db, entries[k]) && !CreatesAt(db, entries, k, faults)
    {
      assert AtHand(db, owner, entries, k, faults) && Visited(db, p.db, entries, k, faults, p.entries[k]);
    }
  }

  /******* The delete loop *******/

  /** Its deletion was asked for longer ago than the timeout. */
  predicate Overdue(db: Db, meta: Meta)
  {
    meta.deletedAt.Some? && meta.deletedAt.value + db.timeout < db.clock
  }

  /** Entry k stands for a live vswitch of the controllers' own, and the calls to delete it succeed. */
  ghost predicate Removes(db: Db, entries: seq<VSwitch>, k: nat, faults: nat -> Fault)
  {
    && k < |entries| && entries[k].id == "" && faults(k).Works?
    && entries[k].name in db.vswitches && db.vswitches[entries[k].name].meta.deletedAt == None
  }

  ghost predicate RemovedUpTo(db: Db, entries: seq<VSwitch>, k: nat, faults: nat -> Fault, n: string)
  {
    exists i: nat :: i < k && Removes(db, entries, i, faults) && entries[i].name == n
  }

  /** The error entry k adds, if any. */
  ghost function RemovalProblem(db: Db, entries: seq<VSwitch>, k: nat, faults: nat -> Fault): Option<RemoveError>
    requires k < |entries|
  {
    var n := entries[k].name;
    if entries[k].id != "" then None
    else if faults(k).ReadFails? then Some(LookupFailed)
    else if n !in db.vswitches || RemovedUpTo(db, entries, k, faults, n) then None
    else if db.vswitches[n].meta.deletedAt.Some? then if Overdue(db, db.vswitches[n].meta) then Some(Timeout) else None
    else if faults(k).WriteFails? then Some(DeleteFailed)
    else None
  }

  ghost function RemovalProblems(db: Db, entries: seq<VSwitch>, k: nat, faults: nat -> Fault): seq<RemoveError>
    requires k <= |entries|
  {
    if k == 0 then []
    else
      var rest, p := RemovalProblems(db, entries, k - 1, faults), RemovalProblem(db, entries, k - 1, faults);
      if p.Some? then rest + [p.value] else rest
  }

  /** A removed vswitch is gone, or stays marked because of its finalizers; the others stay as they are. */
  ghost predicate LeftAfter(db: Db, later: Db, entries: seq<VSwitch>, k: nat, faults: nat -> Fault)
  {
    && later.clock == db.clock && later.timeout == db.timeout && later.vswitches.Keys <= db.vswitches.Keys
    && forall n :: n in db.vswitches ==>
         var v := db.vswitches[n];
         if !RemovedUpTo(db, entries, k, faults, n) then n in later.vswitches && later.vswitches[n] == v
         else if v.meta.finalizers == {} then n !in later.vswitches
         else n in later.vswitches && later.vswitches[n] == v.(meta := v.meta.(deletedAt := Some(db.clock)))
  }

  /** An entry that removes nothing, or nothing that is left, adds its problem at most. */
  lemma NothingRemoved(db: Db, entries: seq<VSwitch>, r: Removal, i: nat, faults: nat -> Fault)
    requires i < |entries| && LeftAfter(db, r.db, entries, i, faults)
    requires Removes(db, entries, i, faults) ==> RemovedUpTo(db, entries, i, faults, entries[i].name)
    ensures var m := RemoveEntry(r, entries[i], faults(i));
            var p := RemovalProblem(db, entries, i, faults);
            m.db == r.db && m.errors == if p.Some? then r.errors + [p.value] else r.errors
  {
  }

  lemma OneRemoved(db: Db, entries: seq<VSwitch>, r: Removal, i: nat, faults: nat -> Fault)
    requires i < |entries| && LeftAfter(db, r.db, entries, i, faults)
    requires Removes(db, entries, i, faults) && !RemovedUpTo(db, entries, i, faults, entries[i].name)
    ensures RemoveEntry(r, entries[i], faults(i)) == r.(db := DeleteVswitch(r.db, entries[i].name))
    ensures RemovalProblem(db, entries, i, faults) == None
  {
  }

  lemma LeftAfterOne(db: Db, entries: seq<VSwitch>, before: Db, i: nat, faults: nat -> Fault)
    requires i < |entries| && LeftAfter(db, before, entries, i, faults)
    requires Removes(db, entries, i, faults) && !RemovedUpTo(db, entries, i, faults, entries[i].name)
    ensures LeftAfter(db, DeleteVswitch(before, entries[i].name), entries, i + 1, faults)
  {
    forall n ensures RemovedUpTo(db, entries, i + 1, faults, n) <==> RemovedUpTo(db, entries, i, faults, n) || entries[i].name == n {
      RemovedOneMore(db, entries, i, faults, n);
    }
  }

  lemma LeftAfterNone(db: Db, entries: seq<VSwitch>, before: Db, i: nat, faults: nat -> Fault)
    requires i < |entries| && LeftAfter(db, before, entries, i, faults)
    requires Removes(db, entries, i, faults) ==> RemovedUpTo(db, entries, i, faults, entries[i].name)
    ensures LeftAfter(db, before, entries, i + 1, faults)
  {
    forall n ensures RemovedUpTo(db, entries, i + 1, faults, n) <==> RemovedUpTo(db, entries, i, faults, n) {
      RemovedOneMore(db, entries, i, faults, n);
    }
  }

  lemma RemovalStep(db: Db, entries: seq<VSwitch>, r: Removal, i: nat, faults: nat -> Fault)
    requires i < |entries| && LeftAfter(db, r.db, entries, i, faults) && r.errors == RemovalProblems(db, entries, i, faults)
    ensures var m := RemoveEntry(r, entries[i], faults(i));
            LeftAfter(db, m.db, entries, i + 1, faults) && m.errors == RemovalProblems(db, entries, i + 1, faults)
  {
    if Removes(db, entries, i, faults) && !RemovedUpTo(db, entries, i, faults, entries[i].name) {
      OneRemoved(db, entries, r, i, faults);
      LeftAfterOne(db, entries, r.db, i, faults);
    } else {
      NothingRemoved(db, entries, r, i, faults);
      LeftAfterNone(db, entries, r.db, i, faults);
    }
  }

  lemma RemovedOneMore(db: Db, entries: seq<VSwitch>, i: nat, faults: nat -> Fault, n: string)
    ensures RemovedUpTo(db, entries, i + 1, faults, n) <==>
            RemovedUpTo(db, entries, i, faults, n) || (i < |entries| && Removes(db, entries, i, faults) && entries[i].name == n)
  {
    if RemovedUpTo(db, entries, i, faults, n) {
      var k: nat :| k < i && Removes(db, entries, k, faults) && entries[k].name == n;
      assert k < i + 1;
    }
  }

  lemma {:induction false} RemovalGetsTo(db: Db, entries: seq<VSwitch>, k: nat,
                                         faults: nat -> Fault) returns (r: Removal)
    requires k <= |entries|
    ensures RemovePass(db, entries, faults) == RemoveFrom(r, entries, k, faults)
    ensures LeftAfter(db, r.db, entries, k, faults) && r.errors == RemovalProblems(db, entries, k, faults)
  {
    if k == 0 {
      r := Removal(db, []);
    } else {
      var before := RemovalGetsTo(db, entries, k - 1, faults);
      RemovalStep(db, entries, before, k - 1, faults);
      r := RemoveEntry(before, entries[k - 1], faults(k - 1));
    }
  }

  /** Exactly the live, listed vswitches whose calls succeed are removed, and exactly the failed calls
      and the overdue deletions are reported, in the order of the list. */
  lemma RemovalExactly(db: Db, entries: seq<VSwitch>, faults: nat -> Fault)
    ensures var t := RemovePass(db, entries, faults);
            LeftAfter(db, t.db, entries, |entries|, faults) && t.errors == RemovalProblems(db, entries, |entries|, faults)
  {
    var r := RemovalGetsTo(db, entries, |entries|, faults);
  }

  /** The entry's lookup works and finds a deletion that is overdue. */
  ghost predicate FindsOverdue(db: Db, entries: seq<VSwitch>, k: nat, faults: nat -> Fault)
  {
    && k < |entries| && entries[k].id == "" && !faults(k).ReadFails?
    && entries[k].name in db.vswitches && Overdue(db, db.vswitches[entries[k].name].meta)
  }

  /** A time-out is reported if and only if some listed vswitch was marked deleted more than the
      timeout ago. */
  lemma TimeoutExactly(db: Db, entries: seq<VSwitch>, faults: nat -> Fault)
    ensures Timeout in RemovePass(db, entries, faults).errors <==> exists k: nat :: FindsOverdue(db, entries, k, faults)
  {
    RemovalExactly(db, entries, faults);
    TimeoutAmong(db, entries, |entries|, faults);
  }

  lemma {:induction false} TimeoutAmong(db: Db, entries: seq<VSwitch>, k: nat, faults: nat -> Fault)
    requires k <= |entries|
    ensures Timeout in RemovalProblems(db, entries, k, faults) <==> exists i: nat :: i < k && FindsOverdue(db, entries, i, faults)
  {
    if k > 0 {
      TimeoutAmong(db, entries, k - 1, faults);
      assert RemovalProblem(db, entries, k - 1, faults) == Some(Timeout) <==> FindsOverdue(db, entries, k - 1, faults);
    }
  }

  /** Every problem of the vswitch loop is a time-out. */
  ghost predicate OnlyOverdue(db: Db, entries: seq<VSwitch>, faults: nat -> Fault)
  {
    OnlyTimeouts(RemovalProblems(db, entries, |entries|, faults))
  }
}
