/** What the metadata check reports (internal/store/fsck.go), and that its verdict is exact. */
module Fsck {
  import opened Wrappers
  import opened Blob
  import opened Index
  import opened Journal
  import opened Apply
  import opened Disk
  import opened Overlap
  import opened Counters
  import Machine

  datatype Report = Report(journalRecords: nat, objects: nat, references: nat, missing: set<Slot>,
                           unreferenced: nat, stale: nat, rebuilt: bool)

  predicate Healthy(r: Report) {
    r.missing == {} && r.stale == 0
  }

  function StoreObjects(db: Db): set<Slot> {
    set s | s in db.objs && s.ns.scope.StoreScope?
  }

  function Missing(d: Disk): set<Slot> {
    set s | s in StoreObjects(d.db) && d.db.objs[s].hash.Some? && d.db.objs[s].hash.value !in d.blobs
  }

  function Referenced(db: Db): set<Hash> {
    set s | s in StoreObjects(db) && db.objs[s].hash.Some? :: db.objs[s].hash.value
  }

  function Stale(d: Disk): set<Hash> {
    set h | h in d.db.refs && d.db.refs[h].count > 0 && h !in d.blobs
  }

  /** The report on a disk; the journal's records are counted only as a rebuild replays them. */
  function Verdict(d: Disk, rebuilt: bool): Report {
    Report(if rebuilt then |d.journal| else 0, |StoreObjects(d.db)|, |d.db.refs|, Missing(d),
           |d.blobs.Keys - Referenced(d.db)|, |Stale(d)|, rebuilt)
  }

  /** The disk after someone removed blobs behind the store's back. */
  function Damaged(d: Disk, lost: set<Hash>): Disk {
    d.(blobs := d.blobs - lost)
  }

  /** The blobs on disk to which the journal binds no key, those in `lost` left out. */
  ghost function Unbound(d: Disk, lost: set<Hash>): set<Hash> {
    set h | h in d.blobs && h !in lost && !Binds(Fold(d.journal), h)
  }

  /** The keys that the journal binds to a blob in `lost`. */
  function LostKeys(rs: seq<Record>, lost: set<Hash>): set<Slot> {
    set s | s in Fold(rs) && Fold(rs)[s].hash in lost
  }

  /** Every field of the report after some blobs were removed by hand from a sane store. */
  lemma DamageIsReported(d: Disk, now: Time, lost: set<Hash>, rebuilt: bool)
    requires Sane(d, now) && CaughtUp(d) && Hashed(d.db.objs)
    ensures var v := Verdict(Damaged(d, lost), rebuilt);
            && v.missing == LostKeys(d.journal, lost)
            && v.stale == |set h | h in lost && Demand(d.db, h) > 0|
            && v.objects == |Fold(d.journal)| && v.unreferenced == |Unbound(d, lost)|
            && v.references == |d.db.refs| && v.rebuilt == rebuilt
            && v.journalRecords == if rebuilt then |d.journal| else 0
  {
    MissingIsExact(d, now, lost);
    StaleIsExact(d, now, lost);
    UnreferencedIsExact(d, now, lost);
    hide Sane, CaughtUp, Missing, Stale, Unbound, LostKeys, Fold, Demand, Referenced, StoreObjects, Hashed;
  }

  lemma MissingIsExact(d: Disk, now: Time, lost: set<Hash>)
    requires Sane(d, now) && CaughtUp(d) && Hashed(d.db.objs)
    ensures Missing(Damaged(d, lost)) == LostKeys(d.journal, lost)
    ensures StoreObjects(d.db) == Fold(d.journal).Keys && |StoreObjects(d.db)| == |Fold(d.journal)|
  {
    hide WellPlaced, Orderly, Timely, Fold, Conserved;
    CaughtUpView(d, now);
    assert |Fold(d.journal)| == |Fold(d.journal).Keys|;
  }

  lemma StaleIsExact(d: Disk, now: Time, lost: set<Hash>)
    requires Sane(d, now) && CaughtUp(d)
    ensures Stale(Damaged(d, lost)) == set h | h in lost && Demand(d.db, h) > 0
  {
    hide WellPlaced, Orderly, Timely, Fold;
    forall h ensures h in Stale(Damaged(d, lost)) <==> h in lost && Demand(d.db, h) > 0 {
      assert Drift(d.db, h) == 0;
      if Demand(d.db, h) > 0 { HeldIsBacked(d, now, h); }
    }
  }

  lemma UnreferencedIsExact(d: Disk, now: Time, lost: set<Hash>)
    requires Sane(d, now) && CaughtUp(d) && Hashed(d.db.objs)
    ensures Damaged(d, lost).blobs.Keys - Referenced(d.db) == Unbound(d, lost)
  {
    hide WellPlaced, Orderly, Timely, Fold, Conserved, Backed;
    CaughtUpView(d, now);
    forall h ensures h in Referenced(d.db) <==> Binds(Fold(d.journal), h) {
      if Binds(Fold(d.journal), h) {
        var s :| s in ViewOf(d.db) && ViewOf(d.db)[s].hash == h;
        assert s in StoreObjects(d.db) && d.db.objs[s].hash == Some(h);
      }
      if h in Referenced(d.db) {
        var s :| s in StoreObjects(d.db) && d.db.objs[s].hash == Some(h);
        assert ViewOf(d.db)[s].hash == h;
      }
    }
  }

  /**
   On a reachable store that is idle, the report after removing any set of blobs by hand names
   exactly the keys bound to one of them, counts exactly the held blobs among them, all keys,
   and the blobs that are left without a key; and it is clean exactly if none of them was held.
   */
  lemma VerdictIsExact(w: Machine.World, lost: set<Hash>)
    requires Machine.Reachable(w) && w.phase.Idle?
    ensures var v := Verdict(Damaged(w.disk, lost), false);
            && v.missing == LostKeys(w.disk.journal, lost)
            && v.stale == |set h | h in lost && Demand(w.disk.db, h) > 0|
            && v.objects == |Fold(w.disk.journal)| && v.unreferenced == |Unbound(w.disk, lost)|
            && v.references == |w.disk.db.refs| && v.journalRecords == 0 && !v.rebuilt
            && (Healthy(v) <==> forall h :: h in lost ==> Demand(w.disk.db, h) == 0)
  {
    Machine.ReachableHasInv(w);
    Machine.IdleIsSettled(w);
    ReachableIsTidy(w);
    assert Sane(w.disk, w.now) && Hashed(w.disk.db.objs);
    hide Machine.Inv, Machine.Reachable, Sane, CaughtUp, Hashed, Fold, Unbound, LostKeys, Missing, Stale, Demand;
    DamageIsReported(w.disk, w.now, lost, false);
    HealthyIfNoneHeld(w.disk, w.now, lost, false);
  }

  lemma HealthyIfNoneHeld(d: Disk, now: Time, lost: set<Hash>, rebuilt: bool)
    requires Sane(d, now) && CaughtUp(d) && Hashed(d.db.objs)
    ensures Healthy(Verdict(Damaged(d, lost), rebuilt)) <==> forall h :: h in lost ==> Demand(d.db, h) == 0
  {
    hide Sane, CaughtUp, Fold, Conserved, Missing, Stale, Demand;
    DamageIsReported(d, now, lost, rebuilt);
    var held := set h | h in lost && Demand(d.db, h) > 0;
    forall s | s in LostKeys(d.journal, lost) ensures Fold(d.journal)[s].hash in held {
      BoundIsHeld(d, now, s);
    }
    if held == {} {
      forall h | h in lost ensures Demand(d.db, h) == 0 {
        assert h !in held;
      }
    }
  }

  lemma BoundIsHeld(d: Disk, now: Time, s: Slot)
    requires Sane(d, now) && CaughtUp(d) && s in Fold(d.journal)
    ensures Demand(d.db, Fold(d.journal)[s].hash) > 0
  {
    hide WellPlaced, Orderly, Timely, Fold, Conserved;
    CaughtUpView(d, now);
    BoundHasHolder(d.db, Fold(d.journal)[s].hash);
  }

  lemma HeldIsBacked(d: Disk, now: Time, h: Hash)
    requires Sane(d, now) && CaughtUp(d) && Demand(d.db, h) > 0
    ensures h in d.blobs
  {
    hide Fold, WellPlaced, Orderly, Timely;
    CaughtUpView(d, now);
    BoundHasHolder(d.db, h);
    if PartSlots(d.db.uploads, h) != {} {
      var x :| x in PartSlots(d.db.uploads, h);
    }
  }

  /** A record's effect on bindings and counts does not depend on the open uploads. */
  lemma ApplyIgnoresUploads(d: Db, r: Record, now: Time, uploads: map<UploadId, Upload>)
    ensures ApplyAt(d.(uploads := uploads), r, now) == ApplyAt(d, r, now).(uploads := uploads)
  {
    hide MoveRef;
    match r.op
    case Put(b, k, hash, _, _, _) => MoveIgnoresUploads(d, HashAt(d, At(b, k)), Some(hash), now, uploads);
    case Delete(b, k) => MoveIgnoresUploads(d.Delete(At(b, k)), HashAt(d, At(b, k)), None, now, uploads);
    case GC(_) =>
  }

  lemma MoveIgnoresUploads(d: Db, from: Option<Hash>, to: Option<Hash>, now: Time, uploads: map<UploadId, Upload>)
    ensures MoveRef(d.(uploads := uploads), from, to, now) == MoveRef(d, from, to, now).(uploads := uploads)
  {
  }

  lemma {:induction false} ReplayIgnoresUploads(d: Db, rs: seq<Record>, uploads: map<UploadId, Upload>)
    ensures ApplyAll(d.(uploads := uploads), rs) == ApplyAll(d, rs).(uploads := uploads)
  {
    hide ApplyAt;
    if rs != [] {
      var n := |rs| - 1;
      ReplayIgnoresUploads(d, rs[..n], uploads);
      ApplyIgnoresUploads(ApplyAll(d, rs[..n]), rs[n], rs[n].time, uploads);
    }
  }

  /** The store as a rebuild finds it once it has dropped the index, open uploads set aside. */
  function Bare(d: Disk): Disk {
    d.(db := Wiped(d.db).(uploads := map[]))
  }

  lemma BareIsSane(d: Disk, now: Time)
    requires Sane(d, now)
    ensures Sane(Bare(d), now)
  {
    hide Orderly, Timely, WellPlaced, Sound, Fold, ViewOf, Conserved, Wiped;
    FoldOfNothing();
    assert d.journal[..0] == [];
    WipedIsEmpty(d.db.(uploads := map[]));
    assert Bare(d).db == Wiped(d.db.(uploads := map[])) && Bare(d).db.applied == 0 by { WipedSetsAside(d.db); }
  }

  lemma WipedSetsAside(d: Db)
    ensures Wiped(d.(uploads := map[])) == Wiped(d).(uploads := map[]) == Wiped(Wiped(d).(uploads := map[]))
    ensures Wiped(d).applied == 0
  {
  }

  lemma SameFindings(a: Disk, b: Disk, rebuilt: bool)
    requires a.blobs == b.blobs && a.journal == b.journal && a.db.objs == b.db.objs && a.db.refs == b.db.refs
    ensures Verdict(a, rebuilt) == Verdict(b, rebuilt)
  {
    assert Missing(a) == Missing(b) && Stale(a) == Stale(b);
  }

  /** The store as rebuilt with its open uploads set aside. */
  lemma BareRebuilt(w: Machine.World)
    requires Machine.Reachable(w)
    ensures var d, d' := Rebuilt(w.disk), Rebuilt(Bare(w.disk));
            && Sane(d', w.now) && CaughtUp(d') && Hashed(d'.db.objs) && d'.db.uploads == map[]
            && d'.blobs == d.blobs == w.disk.blobs && d'.journal == d.journal == w.disk.journal
            && d'.db.objs == d.db.objs && d'.db.refs == d.db.refs
  {
    Machine.ReachableHasInv(w);
    assert Sane(w.disk, w.now);
    ReachableIsTidy(w);
    hide Machine.Reachable, Machine.Inv, Sane, CaughtUp, ApplyAll, Wiped, Exact;
    BareIsSane(w.disk, w.now);
    RebuildIsSane(Bare(w.disk), w.now);
    ReplayIgnoresUploads(Wiped(w.disk.db), w.disk.journal, map[]);
    WipedSetsAside(w.disk.db);
    RebuildKeepsTidy(w.disk);
  }

  lemma UploadlessDemand(d: Disk, now: Time, h: Hash)
    requires Sane(d, now) && CaughtUp(d) && d.db.uploads == map[]
    ensures Demand(d.db, h) > 0 <==> Binds(Fold(d.journal), h)
  {
    hide WellPlaced, Orderly, Timely, Fold, Conserved;
    CaughtUpView(d, now);
    BoundHasHolder(d.db, h);
    assert PartSlots(d.db.uploads, h) == {};
  }

  /** With no upload open, held means bound. */
  lemma UploadlessReport(d: Disk, now: Time, lost: set<Hash>)
    requires Sane(d, now) && CaughtUp(d) && Hashed(d.db.objs) && d.db.uploads == map[]
    ensures var v := Verdict(Damaged(d, lost), true);
            && v.stale == |set h | h in lost && Binds(Fold(d.journal), h)|
            && (Healthy(v) <==> forall h :: h in lost ==> !Binds(Fold(d.journal), h))
  {
    hide Sane, CaughtUp, Fold, Demand, Verdict, Binds, Hashed, Healthy, Unbound, LostKeys;
    forall h ensures Demand(d.db, h) > 0 <==> Binds(Fold(d.journal), h) {
      UploadlessDemand(d, now, h);
    }
    DamageIsReported(d, now, lost, true);
    HealthyIfNoneHeld(d, now, lost, true);
    assert (set h | h in lost && Demand(d.db, h) > 0) == set h | h in lost && Binds(Fold(d.journal), h);
  }

  lemma UnboundAlike(a: Disk, b: Disk, lost: set<Hash>)
    requires a.blobs == b.blobs && a.journal == b.journal
    ensures Unbound(a, lost) == Unbound(b, lost)
  {
    hide Fold, Binds;
  }

  lemma DamagedRebuilt(d: Disk, lost: set<Hash>)
    ensures Rebuilt(Damaged(d, lost)) == Damaged(Rebuilt(d), lost) && Rebuilt(d).blobs == d.blobs
  {
    hide ApplyAll, Wiped;
  }

  /**
   The same of a rebuild first, from any reachable state and whatever uploads are open: lost
   blobs count as stale now if a key is still bound to them, and the journal's records are counted.
   */
  lemma RebuiltVerdictIsExact(w: Machine.World, lost: set<Hash>)
    requires Machine.Reachable(w)
    ensures var v := Verdict(Rebuilt(Damaged(w.disk, lost)), true);
            && v.missing == LostKeys(w.disk.journal, lost)
            && v.stale == |set h | h in lost && Binds(Fold(w.disk.journal), h)|
            && v.objects == |Fold(w.disk.journal)| && v.unreferenced == |Unbound(w.disk, lost)|
            && v.journalRecords == |w.disk.journal| && v.rebuilt
            && (Healthy(v) <==> forall h :: h in lost ==> !Binds(Fold(w.disk.journal), h))
  {
    hide *;
    var d := Rebuilt(Bare(w.disk));
    BareRebuilt(w);
    UploadlessReport(d, w.now, lost);
    DamageIsReported(d, w.now, lost, true);
    DamagedRebuilt(w.disk, lost);
    DamagedAlike(Rebuilt(w.disk), d, lost);
    UnboundAlike(d, w.disk, lost);
  }

  lemma DamagedAlike(a: Disk, b: Disk, lost: set<Hash>)
    requires a.blobs == b.blobs && a.journal == b.journal && a.db.objs == b.db.objs && a.db.refs == b.db.refs
    ensures Verdict(Damaged(a, lost), true) == Verdict(Damaged(b, lost), true)
  {
    SameFindings(Damaged(a, lost), Damaged(b, lost), true);
    hide *;
  }

  /**
   On an undamaged store the check finds nothing a human must see to, and neither does it once
   the index is rebuilt, whenever that happens and whatever uploads are open.
   */
  lemma ReachableIsHealthy(w: Machine.World)
    requires Machine.Reachable(w)
    ensures w.phase.Idle? ==> Healthy(Verdict(w.disk, false))
    ensures Healthy(Verdict(Rebuilt(w.disk), true))
  {
    hide Machine.Reachable, Rebuilt, Verdict, Healthy, Fold, Demand;
    assert Damaged(w.disk, {}) == w.disk;
    if w.phase.Idle? { VerdictIsExact(w, {}); }
    RebuiltVerdictIsExact(w, {});
  }

  /**
   A rebuild with uploads open: the bindings are right in any case, but each count is short by
   the part slots that hold the blob, so all are right if and only if no open upload has a part.
   */
  lemma RebuildWithOpenUploads(d: Disk, now: Time)
    requires Sane(d, now)
    ensures ViewOf(Rebuilt(d).db) == Fold(d.journal)
    ensures forall h :: Drift(Rebuilt(d).db, h) == |PartSlots(d.db.uploads, h)|
    ensures Conserved(Rebuilt(d).db) <==> forall h :: PartSlots(d.db.uploads, h) == {}
  {
    hide Sane, CaughtUp, ApplyAll, Wiped, Fold, Holders, PartSlots, Clocked;
    BareIsSane(d, now);
    RebuildIsSane(Bare(d), now);
    var db := Rebuilt(Bare(d)).db;
    ReplayIgnoresUploads(Wiped(d.db), d.journal, map[]);
    WipedSetsAside(d.db);
    RebuiltKeepsUploads(d);
    assert Conserved(db) by { SaneConserves(Rebuilt(Bare(d)), now); }
    assert Clocked(Rebuilt(d).db) by { SameClocks(db, Rebuilt(d).db); }
    forall h ensures Drift(Rebuilt(d).db, h) == |PartSlots(d.db.uploads, h)| {
      assert Drift(db, h) == 0;
      NoSlots(h);
    }
  }

  lemma SaneConserves(d: Disk, now: Time)
    requires Sane(d, now)
    ensures Conserved(d.db)
  {
  }

  lemma SameClocks(a: Db, b: Db)
    requires Clocked(a) && a.refs == b.refs
    ensures Clocked(b)
  {
  }

  lemma NoSlots(h: Hash)
    ensures PartSlots(map[], h) == {}
  {
  }

  lemma RebuiltKeepsUploads(d: Disk)
    ensures Rebuilt(d).db.uploads == d.db.uploads && Rebuilt(Bare(d)).db.uploads == map[]
  {
    hide ApplyAll;
    ApplyAllKeepsUploads(Wiped(d.db), d.journal);
    ApplyAllKeepsUploads(Wiped(Bare(d).db), d.journal);
  }

  lemma {:induction false} ReplayLeavesAgent(d: Db, rs: seq<Record>, s: Slot)
    requires s.ns.scope.AgentScope?
    ensures ApplyAll(d, rs).Get(s) == d.Get(s) && ApplyAll(d, rs).StatsOf(s.ns) == d.StatsOf(s.ns)
  {
    hide ApplyAt;
    if rs != [] {
      var n := |rs| - 1;
      ReplayLeavesAgent(d, rs[..n], s);
      ApplyShape(ApplyAll(d, rs[..n]), rs[n], rs[n].time);
      ApplyCountsOwn(ApplyAll(d, rs[..n]), rs[n], rs[n].time, s.ns);
    }
  }

  /** A record moves only the counters of its own bucket. */
  lemma ApplyCountsOwn(d: Db, r: Record, now: Time, ns: Ns)
    requires ns.scope.AgentScope?
    ensures ApplyAt(d, r, now).StatsOf(ns) == d.StatsOf(ns)
  {
    match r.op
    case Put(b, k, hash, _, _, _) => MoveRefShape(d, HashAt(d, At(b, k)), Some(hash), now);
    case Delete(b, k) => MoveRefShape(d.Delete(At(b, k)), HashAt(d, At(b, k)), None, now);
    case GC(_) =>
  }

  /** An agent's entries and counters are neither reported nor changed by a rebuild. */
  lemma AgentIsLeftAlone(d: Disk, s: Slot)
    requires s.ns.scope.AgentScope?
    ensures Rebuilt(d).db.Get(s) == d.db.Get(s) && Rebuilt(d).db.StatsOf(s.ns) == d.db.StatsOf(s.ns)
    ensures s !in Missing(d)
  {
    hide ApplyAll;
    ReplayLeavesAgent(Wiped(d.db), d.journal, s);
  }
}
