/** What a pass over a vswitch list guarantees, on every exit: which entries it may touch,
    where the recorded uids come from, what it may add to the store, when it succeeds,
    and that repeated passes converge. */
module VswitchFacts {
  import opened Wrappers
  import opened CommonApi
  import opened ApiServer
  import opened VswitchReconcile

  /** The user's part of an entry never changes, nor does an entry that was complete. */
  ghost predicate EntryKept(before: VSwitch, after: VSwitch)
  {
    && after.id == before.id && after.name == before.name
    && after.zoneId == before.zoneId && after.cidrBlock == before.cidrBlock
    && (Complete(before) ==> after == before)
  }

  /** A changed entry names a stored vswitch whose first owner is the reconciled object; it
      holds that vswitch's uid, and its new ResourceID is that vswitch's cloud id. */
  ghost predicate Provenance(db: Db, owner: OwnerRef, before: VSwitch, after: VSwitch)
  {
    after != before ==>
      && after.name in db.vswitches
      && var v := db.vswitches[after.name];
      && v.meta.OwnedBy(owner.uid)
      && after.uid == v.meta.uid
      && (after.resourceId == before.resourceId || (after.resourceId != "" && v.cloudId == Some(after.resourceId)))
  }

  /** A vswitch as the pass creates it. */
  ghost predicate FreshVswitch(before: Db, after: Db, n: string, owner: OwnerRef, vpcId: string)
    requires n in after.vswitches
  {
    var v := after.vswitches[n];
    && before.nextUid <= v.meta.uid < after.nextUid
    && v.meta == Meta(v.meta.uid, [owner], None, {})
    && v.vpcId == vpcId && v.cloudId == None
    && v.meta.uid in after.log && after.log[v.meta.uid] == Birth(VswitchKind, n, [owner])
  }

  /** The pass only adds vswitches of this owner to the store; it changes nothing else. */
  ghost predicate OnlyCreates(before: Db, after: Db, owner: OwnerRef, vpcId: string)
  {
    && after == before.(nextUid := after.nextUid, log := after.log, vswitches := after.vswitches)
    && before.nextUid <= after.nextUid
    && (forall u :: u in before.log && u < before.nextUid ==> u in after.log && after.log[u] == before.log[u])
    && (forall u :: u in after.log ==>
         u in before.log || (before.nextUid <= u < after.nextUid && after.log[u].owners == [owner] && after.log[u].kind == VswitchKind))
    && (forall n :: n in before.vswitches ==> n in after.vswitches && after.vswitches[n] == before.vswitches[n])
    && (forall n :: n in after.vswitches && n !in before.vswitches ==> FreshVswitch(before, after, n, owner, vpcId))
  }

  /** Entry k was incomplete and now records the uid of the vswitch n, which has been created
      with the entry's zone and CIDR block. */
  ghost predicate RecordsNew(before: seq<VSwitch>, after: seq<VSwitch>, db: Db, n: string, k: nat)
    requires |before| == |after| && n in db.vswitches
  {
    && k < |after| && !Complete(before[k]) && after[k].name == n && after[k].uid == db.vswitches[n].meta.uid
    && db.vswitches[n].zoneId == before[k].zoneId && db.vswitches[n].cidrBlock == before[k].cidrBlock
  }

  ghost predicate EveryCreationRecorded(before: Scan, after: Scan)
    requires |before.entries| == |after.entries|
  {
    forall n :: n in after.db.vswitches && n !in before.db.vswitches ==>
      exists k: nat :: RecordsNew(before.entries, after.entries, after.db, n, k)
  }

  ghost predicate ScanGuarantee(s: Scan, t: Scan, owner: OwnerRef, vpcId: string)
  {
    && |t.entries| == |s.entries|
    && OnlyCreates(s.db, t.db, owner, vpcId)
    && (forall k :: 0 <= k < |s.entries| ==>
          EntryKept(s.entries[k], t.entries[k]) && Provenance(t.db, owner, s.entries[k], t.entries[k]))
    && EveryCreationRecorded(s, t)
  }

  lemma {:induction false} ScanKeepsGuarantee(s: Scan, i: nat, owner: OwnerRef, vpcId: string, faults: nat -> Fault)
    requires i <= |s.entries|
    ensures var t := ScanFrom(s, i, owner, vpcId, faults).scan;
            ScanGuarantee(s, t, owner, vpcId) && t.entries[..i] == s.entries[..i]
    decreases |s.entries| - i
  {
    if i == |s.entries| {
    } else {
      match VisitEntry(s, i, owner, vpcId, faults(i))
      case Halt(_, _) =>
      case Go(m) =>
        ScanKeepsGuarantee(m, i + 1, owner, vpcId, faults);
        var t := ScanFrom(m, i + 1, owner, vpcId, faults).scan;
        assert t.entries[i] == t.entries[..i + 1][i] == m.entries[..i + 1][i] == m.entries[i];
        assert t.entries[..i] == t.entries[..i + 1][..i] == m.entries[..i] == s.entries[..i];
        VisitThenScan(s, m, t, i, owner, vpcId, faults(i));
    }
  }

  lemma OnlyCreatesTransitive(a: Db, b: Db, c: Db, owner: OwnerRef, vpcId: string)
    requires OnlyCreates(a, b, owner, vpcId) && OnlyCreates(b, c, owner, vpcId)
    ensures OnlyCreates(a, c, owner, vpcId)
  {
    forall n | n in c.vswitches && n !in a.vswitches
      ensures FreshVswitch(a, c, n, owner, vpcId)
    {
      if n in b.vswitches {
        assert FreshVswitch(a, b, n, owner, vpcId);
      } else {
        assert FreshVswitch(b, c, n, owner, vpcId);
      }
    }
  }

  lemma VisitOnlyCreates(s: Scan, i: nat, owner: OwnerRef, vpcId: string, fault: Fault)
    requires i < |s.entries|
    ensures OnlyCreates(s.db, VisitEntry(s, i, owner, vpcId, fault).scan.db, owner, vpcId)
  {
  }

  lemma {:induction false} VisitThenScan(s: Scan, m: Scan, t: Scan, i: nat, owner: OwnerRef, vpcId: string,
                                         fault: Fault)
    requires i < |s.entries| && VisitEntry(s, i, owner, vpcId, fault) == Go(m)
    requires ScanGuarantee(m, t, owner, vpcId) && t.entries[i] == m.entries[i]
    ensures ScanGuarantee(s, t, owner, vpcId)
  {
    VisitOnlyCreates(s, i, owner, vpcId, fault);
    OnlyCreatesTransitive(s.db, m.db, t.db, owner, vpcId);
    forall k | 0 <= k < |s.entries|
      ensures EntryKept(s.entries[k], t.entries[k]) && Provenance(t.db, owner, s.entries[k], t.entries[k])
    {
      assert EntryKept(m.entries[k], t.entries[k]) && Provenance(t.db, owner, m.entries[k], t.entries[k]);
      if k == i {
        VisitedEntry(s, m, t.db, i, owner, vpcId, fault);
      }
    }
    forall n | n in t.db.vswitches && n !in s.db.vswitches
      ensures exists k: nat :: RecordsNew(s.entries, t.entries, t.db, n, k)
    {
      if n in m.db.vswitches {
        assert t.db.vswitches[n] == m.db.vswitches[n];
        assert RecordsNew(s.entries, t.entries, t.db, n, i);
      } else {
        var k: nat :| RecordsNew(m.entries, t.entries, t.db, n, k);
        assert k != i ==> s.entries[k] == m.entries[k];
        assert RecordsNew(s.entries, t.entries, t.db, n, k);
      }
    }
  }

  lemma VisitedEntry(s: Scan, m: Scan, end: Db, i: nat, owner: OwnerRef, vpcId: string, fault: Fault)
    requires i < |s.entries| && VisitEntry(s, i, owner, vpcId, fault) == Go(m)
    requires OnlyCreates(m.db, end, owner, vpcId)
    ensures EntryKept(s.entries[i], m.entries[i]) && Provenance(end, owner, s.entries[i], m.entries[i])
  {
    if m.entries[i] != s.entries[i] {
      var n := s.entries[i].name;
      assert n in m.db.vswitches && end.vswitches[n] == m.db.vswitches[n];
    }
  }

  /******* The contract of one pass *******/

  /** A visit that stops the scan or reports an error leaves its entry incomplete. */
  lemma VisitOutcome(s: Scan, i: nat, owner: OwnerRef, vpcId: string, fault: Fault)
    requires i < |s.entries|
    ensures var v := VisitEntry(s, i, owner, vpcId, fault);
            && |s.errors| <= |v.scan.errors|
            && (v.Halt? || |s.errors| < |v.scan.errors| ==> !Complete(v.scan.entries[i]))
  {
  }

  lemma {:induction false} ScanOutcome(s: Scan, i: nat, owner: OwnerRef, vpcId: string, faults: nat -> Fault)
    requires i <= |s.entries|
    ensures var v := ScanFrom(s, i, owner, vpcId, faults);
            && |s.errors| <= |v.scan.errors|
            && (v.Halt? || |s.errors| < |v.scan.errors| ==>
                  exists k :: i <= k < |s.entries| && !Complete(v.scan.entries[k]))
    decreases |s.entries| - i
  {
    if i < |s.entries| {
      VisitOutcome(s, i, owner, vpcId, faults(i));
      var visit := VisitEntry(s, i, owner, vpcId, faults(i));
      if visit.Go? {
        var m := visit.scan;
        ScanOutcome(m, i + 1, owner, vpcId, faults);
        ScanKeepsGuarantee(m, i + 1, owner, vpcId, faults);
        var t := ScanFrom(m, i + 1, owner, vpcId, faults).scan;
        assert t.entries[i] == t.entries[..i + 1][i] == m.entries[i];
      }
    }
  }

  /** The full contract, over every store, owner and fault plan: no error exactly when every
      entry ends complete, and then one non-empty id per entry, in order; on every exit the
      user's fields and the complete entries are untouched, only new vswitches of this owner
      appear in the store, and each of them has its uid recorded in an entry. */
  lemma PassContract(db: Db, owner: OwnerRef, vpcId: string, entries: seq<VSwitch>, faults: nat -> Fault)
    ensures var p := VswitchPass(db, owner, vpcId, entries, faults);
            && ScanGuarantee(Scan(db, entries, []), Scan(p.db, p.entries, []), owner, vpcId)
            && (p.err.None? <==> AllComplete(p.entries))
            && (p.err.None? ==> |p.ids| == |entries| && forall k :: 0 <= k < |entries| ==> p.ids[k] == CloudId(p.entries[k]) != "")
  {
    var start := Scan(db, entries, []);
    ScanKeepsGuarantee(start, 0, owner, vpcId, faults);
    ScanOutcome(start, 0, owner, vpcId, faults);
    var v := ScanFrom(start, 0, owner, vpcId, faults);
    if FirstIncomplete(entries) < |entries| {
      assert !Complete(entries[FirstIncomplete(entries)]);
      assert ScanGuarantee(start, v.scan, owner, vpcId);
    }
  }

  /******* The pass's own result against the immutability webhook *******/

  /** An entry with a ResourceID but no uid would be visited again. */
  predicate HalfFilled(vsw: VSwitch)
  {
    vsw.id == "" && vsw.resourceId != "" && vsw.uid == NO_UID
  }

  lemma PassIsAdmitted(db: Db, owner: OwnerRef, vpcId: string, entries: seq<VSwitch>, faults: nat -> Fault)
    requires forall k :: 0 <= k < |entries| ==> !HalfFilled(entries[k])
    ensures VSwitchesEqual(VswitchPass(db, owner, vpcId, entries, faults).entries, entries)
  {
    PassContract(db, owner, vpcId, entries, faults);
    var after := VswitchPass(db, owner, vpcId, entries, faults).entries;
    forall k | 0 <= k < |entries| ensures VSwitchEqual(after[k], entries[k]) {
      assert EntryKept(entries[k], after[k]);
    }
  }

  /** A store in which every name of the list is already taken by this owner, with one cloud id. */
  function NamesOf(entries: seq<VSwitch>): set<string>
  {
    set k | 0 <= k < |entries| :: entries[k].name
  }

  function Adoptable(db: Db, owner: OwnerRef, entries: seq<VSwitch>, cloudId: string): Db
  {
    db.(vswitches := map n | n in NamesOf(entries) ::
      Vswitch(Meta(1, [owner], None, {}), "", "", "", Some(cloudId), Messages("", "", "")))
  }

  lemma {:induction false} AdoptsAll(s: Scan, i: nat, owner: OwnerRef, cloudId: string, base: Db, entries: seq<VSwitch>)
    requires i <= |s.entries| == |entries| && cloudId != "" && s.db == Adoptable(base, owner, entries, cloudId)
    requires forall k :: 0 <= k < |entries| ==> s.entries[k].name == entries[k].name
    ensures var t := ScanFrom(s, i, owner, "", _ => Works).scan.entries;
            t[..i] == s.entries[..i] &&
            forall k :: i <= k < |entries| && !Complete(s.entries[k]) ==> t[k].resourceId == cloudId
    decreases |entries| - i
  {
    if i < |entries| {
      assert entries[i].name in s.db.vswitches;
      match VisitEntry(s, i, owner, "", Works)
      case Go(m) =>
        AdoptsAll(m, i + 1, owner, cloudId, base, entries);
        var t := ScanFrom(m, i + 1, owner, "", _ => Works).scan.entries;
        assert ScanFrom(s, i, owner, "", _ => Works) == ScanFrom(m, i + 1, owner, "", _ => Works);
        assert t[i] == t[..i + 1][i] == m.entries[i];
        assert t[..i] == t[..i + 1][..i] == s.entries[..i];
    }
  }

  /** The controller's own write-back of the list is admitted whatever the store and the
      faults are, exactly when no entry is half filled. */
  lemma WriteBackAlwaysAdmitted(owner: OwnerRef, entries: seq<VSwitch>, base: Db)
    ensures (forall db, vpcId, faults :: VSwitchesEqual(VswitchPass(db, owner, vpcId, entries, faults).entries, entries))
            <==> (forall k :: 0 <= k < |entries| ==> !HalfFilled(entries[k]))
  {
    if forall k :: 0 <= k < |entries| ==> !HalfFilled(entries[k]) {
      forall db, vpcId, faults ensures VSwitchesEqual(VswitchPass(db, owner, vpcId, entries, faults).entries, entries) {
        PassIsAdmitted(db, owner, vpcId, entries, faults);
      }
    } else {
      var k :| 0 <= k < |entries| && HalfFilled(entries[k]);
      var other := entries[k].resourceId + "'";
      var db := Adoptable(base, owner, entries, other);
      AdoptsAll(Scan(db, entries, []), 0, owner, other, base, entries);
      var after := VswitchPass(db, owner, "", entries, _ => Works).entries;
      assert after[k].resourceId == other != entries[k].resourceId;
      assert !VSwitchEqual(after[k], entries[k]);
      assert !VSwitchesEqual(after, entries);
    }
  }

  /******* Convergence *******/

  /** The name is free or belongs to the reconciled object. */
  ghost predicate NotForeign(db: Db, owner: OwnerRef, vsw: VSwitch)
  {
    vsw.name in db.vswitches ==> db.vswitches[vsw.name].meta.OwnedBy(owner.uid)
  }

  ghost predicate Missing(db: Db, vsw: VSwitch)
  {
    !Complete(vsw) && vsw.name !in db.vswitches
  }

  /** The provider has assigned the cloud id this entry waits for. */
  ghost predicate Assigned(db: Db, vsw: VSwitch)
  {
    && !Complete(vsw) && vsw.name in db.vswitches
    && db.vswitches[vsw.name].cloudId.Some? && db.vswitches[vsw.name].cloudId.value != ""
  }

  ghost function CountMissing(db: Db, entries: seq<VSwitch>): nat
  {
    if entries == [] then 0
    else (if Missing(db, entries[0]) then 1 else 0) + CountMissing(db, entries[1..])
  }

  function CountIncomplete(entries: seq<VSwitch>): nat
  {
    if entries == [] then 0 else (if Complete(entries[0]) then 0 else 1) + CountIncomplete(entries[1..])
  }

  lemma {:induction false} IncompleteNeverGrows(before: seq<VSwitch>, after: seq<VSwitch>)
    requires |after| == |before| && forall k :: 0 <= k < |before| ==> EntryKept(before[k], after[k])
    ensures CountIncomplete(after) <= CountIncomplete(before)
    ensures (exists k :: 0 <= k < |before| && !Complete(before[k]) && Complete(after[k])) ==>
              CountIncomplete(after) < CountIncomplete(before)
  {
    if before != [] {
      assert EntryKept(before[0], after[0]);
      IncompleteNeverGrows(before[1..], after[1..]);
      if k :| 0 <= k < |before| && !Complete(before[k]) && Complete(after[k]) {
        if k > 0 {
          assert !Complete(before[1..][k - 1]) && Complete(after[1..][k - 1]);
        }
      }
    }
  }

  lemma {:induction false} MissingNeverGrows(a: Db, before: seq<VSwitch>, b: Db, after: seq<VSwitch>)
    requires |after| == |before| && a.vswitches.Keys <= b.vswitches.Keys
    requires forall k :: 0 <= k < |before| ==> EntryKept(before[k], after[k])
    ensures CountMissing(b, after) <= CountMissing(a, before)
  {
    if before != [] {
      assert EntryKept(before[0], after[0]);
      MissingNeverGrows(a, before[1..], b, after[1..]);
    }
  }

  lemma {:induction false} NothingMissing(db: Db, entries: seq<VSwitch>)
    ensures CountMissing(db, entries) == 0 <==> forall k :: 0 <= k < |entries| ==> !Missing(db, entries[k])
  {
    if entries != [] {
      NothingMissing(db, entries[1..]);
      assert forall k :: 0 < k < |entries| ==> entries[k] == entries[1..][k - 1];
      assert forall k :: 0 <= k < |entries[1..]| ==> entries[1..][k] == entries[k + 1];
    }
  }

  /** Uids in the store are real ones, not the empty string. */
  ghost predicate RealUids(db: Db)
  {
    db.nextUid != NO_UID && forall n :: n in db.vswitches ==> db.vswitches[n].meta.uid != NO_UID
  }

  /** From entry i on, no name of an unfinished entry belongs to anybody else. */
  ghost predicate NoneForeign(s: Scan, i: nat, owner: OwnerRef)
  {
    forall k :: i <= k < |s.entries| && !Complete(s.entries[k]) ==> NotForeign(s.db, owner, s.entries[k])
  }

  /** A visit without a fault goes on, keeps the situation, and leaves its entry not missing. */
  lemma CleanVisit(s: Scan, i: nat, owner: OwnerRef, vpcId: string)
    requires i < |s.entries| && RealUids(s.db) && NoneForeign(s, i, owner)
    ensures var v := VisitEntry(s, i, owner, vpcId, Works);
            && v.Go? && RealUids(v.scan.db) && NoneForeign(v.scan, i + 1, owner)
            && !Missing(v.scan.db, v.scan.entries[i])
            && (Assigned(s.db, s.entries[i]) ==> Complete(v.scan.entries[i]))
            && (forall k :: i < k < |s.entries| && Assigned(s.db, s.entries[k]) ==> Assigned(v.scan.db, v.scan.entries[k]))
  {
    assert !Complete(s.entries[i]) ==> NotForeign(s.db, owner, s.entries[i]);
  }

  lemma {:induction false} CleanScan(s: Scan, i: nat, owner: OwnerRef, vpcId: string, faults: nat -> Fault)
    requires i <= |s.entries| && RealUids(s.db) && NoneForeign(s, i, owner)
    requires forall k :: i <= k < |s.entries| ==> faults(k) == Works
    ensures var v := ScanFrom(s, i, owner, vpcId, faults);
            && v.Go?
            && (forall k :: i <= k < |s.entries| ==> !Missing(v.scan.db, v.scan.entries[k]))
            && (forall k :: i <= k < |s.entries| && Assigned(s.db, s.entries[k]) ==> Complete(v.scan.entries[k]))
    decreases |s.entries| - i
  {
    if i < |s.entries| {
      CleanVisit(s, i, owner, vpcId);
      var m := VisitEntry(s, i, owner, vpcId, Works).scan;
      CleanScan(m, i + 1, owner, vpcId, faults);
      ScanKeepsGuarantee(m, i + 1, owner, vpcId, faults);
      var t := ScanFrom(m, i + 1, owner, vpcId, faults).scan;
      assert ScanFrom(s, i, owner, vpcId, faults) == ScanFrom(m, i + 1, owner, vpcId, faults);
      assert t.entries[i] == t.entries[..i + 1][i] == m.entries[i];
    }
  }

  /** No pass, faulty or not, increases either component of the measure (missing objects,
      incomplete entries). */
  lemma PassNeverRegresses(db: Db, owner: OwnerRef, vpcId: string, entries: seq<VSwitch>, faults: nat -> Fault)
    ensures var p := VswitchPass(db, owner, vpcId, entries, faults);
            CountMissing(p.db, p.entries) <= CountMissing(db, entries) && CountIncomplete(p.entries) <= CountIncomplete(entries)
  {
    PassContract(db, owner, vpcId, entries, faults);
    var p := VswitchPass(db, owner, vpcId, entries, faults);
    MissingNeverGrows(db, entries, p.db, p.entries);
    IncompleteNeverGrows(entries, p.entries);
  }

  lemma CleanPass(db: Db, owner: OwnerRef, vpcId: string, entries: seq<VSwitch>, faults: nat -> Fault)
    requires RealUids(db)
    requires forall k :: 0 <= k < |entries| ==> faults(k) == Works
    requires forall k :: 0 <= k < |entries| && !Complete(entries[k]) ==> NotForeign(db, owner, entries[k])
    ensures var p := VswitchPass(db, owner, vpcId, entries, faults);
            && (forall k :: 0 <= k < |entries| ==> !Missing(p.db, p.entries[k]))
            && (forall k :: 0 <= k < |entries| && Assigned(db, entries[k]) ==> Complete(p.entries[k]))
  {
    if FirstIncomplete(entries) < |entries| {
      var start := Scan(db, entries, []);
      assert NoneForeign(start, 0, owner);
      CleanScan(start, 0, owner, vpcId, faults);
    }
  }

  /** A pass without faults and without foreign names creates whatever was missing, and the
      measure falls whenever something was missing or the provider has assigned an awaited id. */
  lemma CleanPassProgresses(db: Db, owner: OwnerRef, vpcId: string, entries: seq<VSwitch>, faults: nat -> Fault)
    requires RealUids(db)
    requires forall k :: 0 <= k < |entries| ==> faults(k) == Works
    requires forall k :: 0 <= k < |entries| && !Complete(entries[k]) ==> NotForeign(db, owner, entries[k])
    ensures var p := VswitchPass(db, owner, vpcId, entries, faults);
            && CountMissing(p.db, p.entries) == 0
            && (forall k :: 0 <= k < |entries| && Assigned(db, entries[k]) ==> Complete(p.entries[k]))
            && ((exists k :: 0 <= k < |entries| && Assigned(db, entries[k])) ==>
                  CountIncomplete(p.entries) < CountIncomplete(entries))
  {
    var p := VswitchPass(db, owner, vpcId, entries, faults);
    CleanPass(db, owner, vpcId, entries, faults);
    NothingMissing(p.db, p.entries);
    if k :| 0 <= k < |entries| && Assigned(db, entries[k]) {
      assert Complete(p.entries[k]);
      PassContract(db, owner, vpcId, entries, faults);
      IncompleteNeverGrows(entries, p.entries);
    }
  }

  /** Once every entry is complete, no pass makes any call that matters. */
  lemma SettledPass(entries: seq<VSwitch>, any: Db, who: OwnerRef, vpcId: string, plan: nat -> Fault)
    requires AllComplete(entries)
    ensures VswitchPass(any, who, vpcId, entries, plan) == Pass(any, entries, CloudIds(entries, |entries|), None)
  {
    FirstIncompleteIs(entries, |entries|);
  }

  /** The provider has given a cloud id to every vswitch of the earlier store. */
  ghost predicate AllAssigned(db: Db, later: Db)
  {
    forall n :: n in db.vswitches ==>
      && n in later.vswitches && later.vswitches[n].meta == db.vswitches[n].meta
      && later.vswitches[n].cloudId.Some? && later.vswitches[n].cloudId.value != ""
  }

  lemma AwaitedAreAssigned(db: Db, owner: OwnerRef, vpcId: string, entries: seq<VSwitch>, faults: nat -> Fault,
                           later: Db, k: nat)
    requires RealUids(db) && k < |entries|
    requires forall i :: 0 <= i < |entries| ==> faults(i) == Works
    requires forall i :: 0 <= i < |entries| && !Complete(entries[i]) ==> NotForeign(db, owner, entries[i])
    requires AllAssigned(VswitchPass(db, owner, vpcId, entries, faults).db, later)
    requires !Complete(VswitchPass(db, owner, vpcId, entries, faults).entries[k])
    ensures var vsw := VswitchPass(db, owner, vpcId, entries, faults).entries[k];
            Assigned(later, vsw) && NotForeign(later, owner, vsw)
  {
    var p := VswitchPass(db, owner, vpcId, entries, faults);
    PassContract(db, owner, vpcId, entries, faults);
    CleanPass(db, owner, vpcId, entries, faults);
    assert EntryKept(entries[k], p.entries[k]) && !Missing(p.db, p.entries[k]);
    var n := p.entries[k].name;
    if n in db.vswitches {
      assert NotForeign(db, owner, entries[k]);
    } else {
      assert FreshVswitch(db, p.db, n, owner, vpcId);
    }
  }

  /** Two clean passes are enough: if after the first the provider assigns every awaited id,
      the second succeeds, and from then on every pass, whatever the store and the faults,
      leaves store and list alone and returns the same ids. */
  lemma Converges(db: Db, owner: OwnerRef, vpcId: string, entries: seq<VSwitch>, faults: nat -> Fault, later: Db)
    requires RealUids(db) && RealUids(later)
    requires forall k :: 0 <= k < |entries| ==> faults(k) == Works
    requires forall k :: 0 <= k < |entries| && !Complete(entries[k]) ==> NotForeign(db, owner, entries[k])
    requires AllAssigned(VswitchPass(db, owner, vpcId, entries, faults).db, later)
    ensures var p := VswitchPass(db, owner, vpcId, entries, faults);
            var q := VswitchPass(later, owner, vpcId, p.entries, faults);
            && q.err == None && |q.ids| == |entries|
            && forall any, who, vpc, plan ::
                 VswitchPass(any, who, vpc, q.entries, plan) == Pass(any, q.entries, q.ids, None)
  {
    var p := VswitchPass(db, owner, vpcId, entries, faults);
    forall k: nat | k < |entries| && !Complete(p.entries[k])
      ensures Assigned(later, p.entries[k]) && NotForeign(later, owner, p.entries[k])
    {
      AwaitedAreAssigned(db, owner, vpcId, entries, faults, later, k);
    }
    CleanPass(later, owner, vpcId, p.entries, faults);
    PassContract(later, owner, vpcId, p.entries, faults);
    var q := VswitchPass(later, owner, vpcId, p.entries, faults);
    forall k | 0 <= k < |entries| ensures Complete(q.entries[k]) {
      assert EntryKept(p.entries[k], q.entries[k]);
    }
    SettledPass(q.entries, later, owner, vpcId, faults);
    forall any, who, vpc, plan ensures VswitchPass(any, who, vpc, q.entries, plan) == Pass(any, q.entries, q.ids, None) {
      SettledPass(q.entries, any, who, vpc, plan);
      FirstIncompleteIs(q.entries, |q.entries|);
    }
  }

  /******* The delete loop *******/

  /** The entry stands for a vswitch of the controllers' own, stored under the name n. */
  predicate SelfCreated(entries: seq<VSwitch>, n: string)
  {
    exists k :: 0 <= k < |entries| && entries[k].id == "" && entries[k].name == n
  }

  ghost predicate AbsentOrDeleting(db: Db, n: string)
  {
    n in db.vswitches ==> db.vswitches[n].meta.Deleting()
  }

  /** The delete loop touches only vswitches named by the list, and only by deleting them. */
  ghost predicate OnlyDeletes(before: Db, after: Db, entries: seq<VSwitch>)
  {
    && after == before.(vswitches := after.vswitches)
    && after.vswitches.Keys <= before.vswitches.Keys
    && forall n :: n in before.vswitches ==> DeletedOrKept(before, after, entries, n)
  }

  ghost predicate DeletedOrKept(before: Db, after: Db, entries: seq<VSwitch>, n: string)
    requires n in before.vswitches
  {
    var v := before.vswitches[n];
    || (n in after.vswitches && after.vswitches[n] == v)
    || (&& SelfCreated(entries, n) && !v.meta.Deleting()
        && if v.meta.finalizers == {} then n !in after.vswitches
           else n in after.vswitches && after.vswitches[n] == v.(meta := v.meta.(deletedAt := Some(before.clock))))
  }

  predicate OnlyTimeouts(errors: seq<RemoveError>)
  {
    forall k :: 0 <= k < |errors| ==> errors[k] == Timeout
  }

  lemma {:induction false} RemoveGuarantee(r: Removal, entries: seq<VSwitch>, i: nat, faults: nat -> Fault)
    requires i <= |entries|
    ensures var t := RemoveFrom(r, entries, i, faults);
            && OnlyDeletes(r.db, t.db, entries)
            && r.errors <= t.errors
            && (OnlyTimeouts(t.errors) ==>
                  forall k :: i <= k < |entries| && entries[k].id == "" ==> AbsentOrDeleting(t.db, entries[k].name))
            && ((forall k :: i <= k < |entries| ==> faults(k) == Works) && OnlyTimeouts(r.errors) ==> OnlyTimeouts(t.errors))
    decreases |entries| - i
  {
    if i < |entries| {
      var m := RemoveEntry(r, entries[i], faults(i));
      RemoveGuarantee(m, entries, i + 1, faults);
      var t := RemoveFrom(m, entries, i + 1, faults);
      RemoveEntryFacts(r, entries, i, faults(i));
      OnlyDeletesTransitive(r.db, m.db, t.db, entries);
      if OnlyTimeouts(t.errors) && entries[i].id == "" {
        assert OnlyTimeouts(m.errors) by {
          assert forall k :: 0 <= k < |m.errors| ==> m.errors[k] == t.errors[k];
        }
        assert AbsentOrDeleting(m.db, entries[i].name);
        assert entries[i].name in m.db.vswitches ==> DeletedOrKept(m.db, t.db, entries, entries[i].name);
      }
    }
  }

  lemma RemoveEntryFacts(r: Removal, entries: seq<VSwitch>, i: nat, fault: Fault)
    requires i < |entries|
    ensures var m := RemoveEntry(r, entries[i], fault);
            && OnlyDeletes(r.db, m.db, entries)
            && r.errors <= m.errors
            && (OnlyTimeouts(m.errors) && entries[i].id == "" ==> AbsentOrDeleting(m.db, entries[i].name))
            && (fault == Works && OnlyTimeouts(r.errors) ==> OnlyTimeouts(m.errors))
  {
    var m := RemoveEntry(r, entries[i], fault);
    assert entries[i].id == "" ==> SelfCreated(entries, entries[i].name);
    assert |m.errors| > |r.errors| ==> m.errors[|r.errors|] in m.errors;
  }

  lemma OnlyDeletesTransitive(a: Db, b: Db, c: Db, entries: seq<VSwitch>)
    requires OnlyDeletes(a, b, entries) && OnlyDeletes(b, c, entries)
    ensures OnlyDeletes(a, c, entries)
  {
    forall n | n in a.vswitches ensures DeletedOrKept(a, c, entries, n) {
      assert DeletedOrKept(a, b, entries, n);
      assert n in b.vswitches ==> DeletedOrKept(b, c, entries, n);
    }
  }

  /** No error, or none but time-outs, means that every vswitch of the list is absent or marked
      deleting, and without faults that is always the outcome. */
  lemma RemoveContract(db: Db, entries: seq<VSwitch>, faults: nat -> Fault)
    ensures var t := RemovePass(db, entries, faults);
            && OnlyDeletes(db, t.db, entries)
            && (OnlyTimeouts(t.errors) ==> forall n :: SelfCreated(entries, n) ==> AbsentOrDeleting(t.db, n))
            && ((forall k :: 0 <= k < |entries| ==> faults(k) == Works) ==> OnlyTimeouts(t.errors))
  {
    RemoveGuarantee(Removal(db, []), entries, 0, faults);
  }
}
