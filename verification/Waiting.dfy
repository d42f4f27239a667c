/**
 The grace period, as the collector's comment promises it (internal/store/gc.go:30-37): nothing
 goes before a whole period has passed since its last holder let go. Of keys this is true
 without exception, for expired blobs and for orphans. Of the parts of uploads, which the
 journal does not know, it is true of a blob exactly while the blob is `PartSafe`; only recovery
 and rebuild can end that, and here is exactly when they do.
 */
module Waiting {
  import opened Wrappers
  import opened ByteStrings
  import opened Blob
  import opened Index
  import opened Journal
  import opened Apply
  import opened Disk
  import opened Grace
  import opened Multipart
  import opened Machine

  /** A whole grace period has passed since a part last let go of h, if one ever did. */
  predicate PartsWaited(w: World, h: Hash) {
    h in w.ends ==> w.ends[h] + w.grace <= PassTime(w)
  }

  /** The file's own time, which is the clock of a blob without a record, is no earlier than that. */
  predicate FileCovers(w: World, h: Hash) {
    PartsWaited(w, h) || (h in w.disk.blobs ==> w.ends[h] <= w.disk.blobs[h].mod)
  }

  predicate ClockCovers(w: World, h: Hash, clock: Option<Time>) {
    PartsWaited(w, h) || (clock.Some? ==> w.ends[h] <= clock.value)
  }

  /** Whatever clock the collector would go by has not started before a part last let go of h. */
  predicate PartSafe(w: World, h: Hash) {
    if h in w.disk.db.refs then ClockCovers(w, h, w.disk.db.refs[h].unrefAt) else FileCovers(w, h)
  }

  // ---------------------------------------------------------- collection

  lemma DroppedIsDue(w: World, h: Hash)
    requires Inv(w) && Enabled(w, GcCheck(h)) && Next(w, GcCheck(h)).phase == GcDropped(h)
    ensures Sane(w.disk, w.now) && CaughtUp(w.disk) && Timed(w)
    ensures w.pass.Some? && h in w.disk.db.refs && w.disk.db.refs[h].Collectable(w.pass.value.at, w.grace)
  {
    hide Sane, Explained, Timed, CaughtUp;
  }

  /**
   Expired blobs: the re-check drops a blob only if at no moment of the grace period before the
   pass, nor since, a key was bound to it, and no part holds it; and parts have waited as long
   if and only if it was safe.
   */
  lemma CollectionWaitsOutGrace(w: World, h: Hash, t: Time)
    requires Reachable(w) && Enabled(w, GcCheck(h)) && Next(w, GcCheck(h)).phase == GcDropped(h)
    requires t > w.pass.value.at - w.grace
    ensures !BoundAt(w.disk.journal, w.now, h, t)
    ensures PartSlots(w.disk.db.uploads, h) == {} && (PartSafe(w, h) <==> PartsWaited(w, h))
  {
    ReachableHasInv(w);
    hide Inv, Enabled, Next, Sane, CaughtUp, Fold, Binds, Reachable, BoundAt, Covers, Outlived, GcsWaited;
    DroppedIsDue(w, h);
    var d := w.disk;
    CaughtUpBasics(d, w.now);
    CoversSkipGc(d.db.refs, d.journal, d.db.applied, |d.journal|);
    StampedLongAgo(d.db.refs, d.journal, w.now, h, t);
    UncountedIsUnheld(d, w.now, h);
  }

  /** Orphans: the same of every blob without a record that the pass removes. */
  lemma OrphansWaitOutGrace(w: World, victims: set<Hash>, h: Hash, t: Time)
    requires Reachable(w) && Enabled(w, GcOrphans(victims)) && h in victims
    requires t > w.pass.value.at - w.grace
    ensures !BoundAt(w.disk.journal, w.now, h, t)
    ensures PartSlots(w.disk.db.uploads, h) == {} && (PartSafe(w, h) <==> PartsWaited(w, h))
  {
    ReachableHasInv(w);
    hide WellPlaced, Orderly, Timely, Explained, ViewOf, Fold, Conserved, Backed, Sound, Binds, Reachable, BoundAt;
    hide Covers, GcsWaited, Outlived;
    var d := w.disk;
    OutlivedSkipGc(d.db.refs, d.journal, d.db.applied, |d.journal|, w.grace, w.pass.value.at);
    UnrecordedLongAgo(d.db.refs, d.journal, w.now, h, w.grace, w.pass.value.at, t);
    UncountedIsUnheld(d, w.now, h);
  }

  /** Waiting until the collector may act, and one pass that does. */
  function EarlyPass(w: World, h: Hash): seq<Step>
    requires h in w.disk.db.refs ==> w.disk.db.refs[h].unrefAt.Some?
    requires h !in w.disk.db.refs ==> h in w.disk.blobs
  {
    var clock := if h in w.disk.db.refs then w.disk.db.refs[h].unrefAt.value else w.disk.blobs[h].mod;
    var wait := if clock + w.grace > w.now then clock + w.grace - w.now else 0;
    [Tick(wait), GcWalk, if h in w.disk.db.refs then GcCheck(h) else GcOrphans({h})]
  }

  /** What it takes for a blob not to be safe. */
  lemma UnsafeClock(w: World, h: Hash)
    requires Inv(w) && w.pass.None? && !PartSafe(w, h)
    ensures h in w.ends && w.now < w.ends[h] + w.grace
    ensures h in w.disk.db.refs ==>
              var r := w.disk.db.refs[h]; r.unrefAt.Some? && r.count <= 0 && r.unrefAt.value < w.ends[h]
    ensures h !in w.disk.db.refs ==> h in w.disk.blobs && w.disk.blobs[h].mod < w.ends[h]
  {
    hide WellPlaced, Orderly, Timely, Explained, ViewOf, Fold, Backed, Sound, Binds, Covers, Outlived, GcsWaited, Phased;
  }

  /** One pass after the wait, with whichever half of the collector is due. */
  lemma PassTakes(w: World, h: Hash, wait: nat, take: Step)
    requires w.phase.Idle? && w.pass.None?
    requires if h in w.disk.db.refs then take == GcCheck(h) && w.disk.db.refs[h].Collectable(w.now + wait, w.grace)
             else take == GcOrphans({h}) && h in w.disk.blobs && w.now + wait - w.disk.blobs[h].mod >= w.grace
    ensures var steps := [Tick(wait), GcWalk, take];
            && Legal(w, steps)
            && Run(w, steps).now == w.now + wait
            && if h in w.disk.db.refs then Run(w, steps).phase == GcDropped(h) else h !in Run(w, steps).disk.blobs
  {
    hide Legal, Run;
    var w1 := Next(w, Tick(wait));
    var w2 := Next(w1, GcWalk);
    var w3 := Next(w2, take);
    ThreeSteps(w, [Tick(wait), GcWalk, take], w1, w2, w3);
  }

  /** The condition is the right one: a blob that is not safe can be taken before its period is over. */
  lemma UnsafeIsTaken(w: World, h: Hash)
    requires Reachable(w) && w.phase.Idle? && w.pass.None? && !PartSafe(w, h)
    ensures h in w.disk.db.refs ==> w.disk.db.refs[h].unrefAt.Some?
    ensures h !in w.disk.db.refs ==> h in w.disk.blobs
    ensures var steps := EarlyPass(w, h);
            && Legal(w, steps)
            && h in w.ends && Run(w, steps).now < w.ends[h] + w.grace
            && if h in w.disk.db.refs then Run(w, steps).phase == GcDropped(h) else h !in Run(w, steps).disk.blobs
  {
    ReachableHasInv(w);
    hide Inv, Reachable, Legal, Run, PartSafe;
    UnsafeClock(w, h);
    var steps := EarlyPass(w, h);
    PassTakes(w, h, steps[0].dt, steps[2]);
  }

  // ---------------------------------------------------------- every step

  /** The index changes only in that clocks are set now, or start with their record; files only land. */
  lemma ChangeKeepsSafe(w: World, w': World, h: Hash)
    requires PartSafe(w, h) && w'.grace == w.grace && PassTime(w) <= PassTime(w')
    requires h in w.ends ==> w.ends[h] <= w.now
    requires StampsFrom(w.disk.db.refs, w'.disk.db.refs, w.now) && w.disk.db.refs.Keys <= w'.disk.db.refs.Keys
    requires h in w'.disk.blobs ==> (if h in w.disk.blobs then w'.disk.blobs[h] == w.disk.blobs[h]
                                     else w'.disk.blobs[h].mod == w.now)
    requires h in w'.ends ==> || (h in w.ends && w'.ends[h] == w.ends[h])
                              || (w'.ends[h] == w.now && h in w.disk.db.refs && !Stamped(w.disk.db.refs, h))
    ensures PartSafe(w', h)
  {
    if h in w'.disk.db.refs && w'.disk.db.refs[h].unrefAt.Some? {
      assert Stamped(w'.disk.db.refs, h);
    }
  }

  /** A part keeps its blob counted. */
  lemma HeldIsUnstamped(db: Db, h: Hash)
    requires Conserved(db) && PartSlots(db.uploads, h) != {}
    ensures h in db.refs && !Stamped(db.refs, h)
  {
    assert Drift(db, h) == 0;
  }

  lemma PartsAreHeld(db: Db, u: UploadId, h: Hash)
    requires Conserved(db) && u in db.uploads && h in HashesOf(db.uploads[u].parts)
    ensures h in db.refs && !Stamped(db.refs, h)
  {
    var n :| n in db.uploads[u].parts && db.uploads[u].parts[n].hash == h;
    assert (u, n) in PartSlots(db.uploads, h);
    HeldIsUnstamped(db, h);
  }

  lemma ClientKeepsSafe(w: World, s: Step, h: Hash)
    requires Inv(w) && Enabled(w, s) && PartSafe(w, h)
    requires s.Tick? || s.Issue? || s.StoreBlob? || s.WriteJournal? || s.CommitIndex? || s.Crash? || s.NewUpload?
    ensures PartSafe(Next(w, s), h)
  {
    hide Sane, Explained, Covers, Outlived, GcsWaited, StampsFrom, ApplyAt, CaughtUp, OneAhead, Recoverable, ObjAsked, PartSafe;
    assert StampsFrom(w.disk.db.refs, w.disk.db.refs, w.now) by { NoStamps(w.disk.db.refs, w.now); }
    if s.CommitIndex? { CommitIsTimed(w); }
    ChangeKeepsSafe(w, Next(w, s), h);
  }

  lemma NoStamps(refs: Refs, now: Time)
    ensures StampsFrom(refs, refs, now)
  {
  }

  lemma CollectorKeepsSafe(w: World, s: Step, h: Hash)
    requires Inv(w) && Enabled(w, s) && PartSafe(w, h)
    requires s.GcWalk? || s.GcCheck? || s.GcRemove? || s.GcLog? || s.GcOrphans?
    ensures PartSafe(Next(w, s), h)
  {
    hide Sane, Explained, Covers, Outlived, GcsWaited, CaughtUp, OneAhead, ObjAsked, Land, Orphans;
    hide Recovered, Rebuilt, PartStored, Aborted, Completed, ApplyAt, Committed, Begun;
  }

  lemma StorePartKeepsSafe(w: World, u: UploadId, n: nat, content: Bytes, h: Hash)
    requires Inv(w) && Enabled(w, StorePart(u, n, content)) && PartSafe(w, h)
    ensures PartSafe(Next(w, StorePart(u, n, content)), h)
  {
    hide Sane, Explained, Covers, Outlived, GcsWaited, CaughtUp, PartSafe, PartStored, StampsFrom, PartSlots, Conserved;
    PartStoredIsSane(w.disk, u, n, content, w.now);
    PartStoredShape(w.disk, u, n, content, w.now);
    SaneBounds(w.disk, w.now);
    if PartHash(w.disk.db, u, n) == Some(h) { PartsAreHeld(w.disk.db, u, h); }
    ChangeKeepsSafe(w, Next(w, StorePart(u, n, content)), h);
  }

  lemma AbortKeepsSafe(w: World, u: UploadId, h: Hash)
    requires Inv(w) && Enabled(w, Abort(u)) && PartSafe(w, h)
    ensures PartSafe(Next(w, Abort(u)), h)
  {
    hide Sane, Explained, Covers, Outlived, GcsWaited, CaughtUp, PartSafe, StampsFrom, PartSlots, Conserved;
    DiscardIsSane(w.disk, u, w.now);
    SaneBounds(w.disk, w.now);
    if h in HashesOf(w.disk.db.uploads[u].parts) { PartsAreHeld(w.disk.db, u, h); }
    ChangeKeepsSafe(w, Next(w, Abort(u)), h);
  }

  lemma CompleteKeepsSafe(w: World, u: UploadId, wants: seq<Want>, mtime: Time, h: Hash)
    requires Inv(w) && Enabled(w, Complete(u, wants, mtime)) && PartSafe(w, h)
    ensures PartSafe(Next(w, Complete(u, wants, mtime)), h)
  {
    IdleIsSettled(w);
    CompleteIsFive(w, u, wants, mtime);
    hide Inv, Enabled, Next, PartSafe;
    var steps := AsPut(w, u, wants, mtime);
    var w1 := Next(w, steps[0]);
    StepKeepsInv(w, steps[0]);
    ClientKeepsSafe(w, steps[0], h);
    var w2 := Next(w1, StoreBlob);
    StepKeepsInv(w1, StoreBlob);
    ClientKeepsSafe(w1, StoreBlob, h);
    var w3 := Next(w2, WriteJournal);
    StepKeepsInv(w2, WriteJournal);
    ClientKeepsSafe(w2, WriteJournal, h);
    var w4 := Next(w3, CommitIndex);
    StepKeepsInv(w3, CommitIndex);
    ClientKeepsSafe(w3, CommitIndex, h);
    AbortKeepsSafe(w4, u, h);
  }

  /** Only recovery and rebuild can end it. */
  lemma StepKeepsSafe(w: World, s: Step, h: Hash)
    requires Inv(w) && Enabled(w, s) && PartSafe(w, h) && !s.Recover? && !s.Rebuild?
    ensures PartSafe(Next(w, s), h)
  {
    hide *;
    match s
    case StorePart(u, n, content) => StorePartKeepsSafe(w, u, n, content, h);
    case Abort(u) => AbortKeepsSafe(w, u, h);
    case Complete(u, wants, mtime) => CompleteKeepsSafe(w, u, wants, mtime, h);
    case GcWalk => CollectorKeepsSafe(w, s, h);
    case GcCheck(_) => CollectorKeepsSafe(w, s, h);
    case GcRemove => CollectorKeepsSafe(w, s, h);
    case GcLog => CollectorKeepsSafe(w, s, h);
    case GcOrphans(_) => CollectorKeepsSafe(w, s, h);
    case _ => ClientKeepsSafe(w, s, h);
  }

  // ------------------------------------------------- recovery and rebuild

  predicate Collects(rs: seq<Record>, from: nat, to: nat, h: Hash)
    requires to <= |rs|
  {
    exists i :: from <= i < to && rs[i].op == GC(h)
  }

  /** A collection of h is still to be replayed, and nothing after it binds a key to h again. */
  ghost predicate WillBeDropped(d: Disk, h: Hash) {
    Collects(d.journal, d.db.applied, |d.journal|, h) && !Binds(Fold(d.journal), h)
  }

  /** Replaying collections drops exactly the records they name. */
  lemma {:induction false} CollectionsDrop(d: Db, rs: seq<Record>, from: nat, to: nat, h: Hash)
    requires from <= to <= |rs| && OnlyGc(rs, from, to)
    ensures if Collects(rs, from, to, h) then h !in ApplyAll(d, rs[from..to]).refs
            else SameRef(d.refs, ApplyAll(d, rs[from..to]).refs, h)
  {
    hide ApplyAt;
    if from < to {
      CollectionsDrop(d, rs, from, to - 1, h);
      assert rs[from..to][..to - 1 - from] == rs[from..to - 1];
      var mid, r := ApplyAll(d, rs[from..to - 1]), rs[to - 1];
      ApplyShape(mid, r, r.time);
      if r.op == GC(h) {
        assert Collects(rs, from, to, h);
      } else {
        assert Collects(rs, from, to, h) <==> Collects(rs, from, to - 1, h);
      }
    }
  }

  lemma CollectedIsUnbound(rs: seq<Record>, from: nat, to: nat, h: Hash)
    requires from <= to <= |rs| && OnlyGc(rs, from, to) && WellPlaced(rs) && Collects(rs, from, to, h)
    ensures !Binds(Fold(rs[..to]), h)
  {
    hide Fold, Binds;
    var i :| from <= i < to && rs[i].op == GC(h);
    GcFoldsToNothing(rs, i, to);
  }

  /** Recovery drops the record of h if that is due; otherwise it stays, or starts its clock after any part let go. */
  ghost predicate RecordKept(w: World, refs': Refs, h: Hash) {
    var refs := w.disk.db.refs;
    if WillBeDropped(w.disk, h) then h !in refs'
    else
      && (h in refs ==> h in refs')
      && (Stamped(refs', h) ==> || (h in w.ends ==> w.ends[h] <= StampOf(refs', h))
                                || (Stamped(refs, h) && StampOf(refs', h) == StampOf(refs, h)))
  }

  lemma CollectionsOnly(w: World, h: Hash)
    requires Inv(w) && CaughtUp(w.disk)
    ensures RecordKept(w, Recovered(w.disk).db.refs, h)
  {
    hide Explained, Phased, Timed, ApplyAll, Fold, ViewOf, Conserved, Binds, Backed, Sound, Collects, WellPlaced, OnlyGc;
    var d, rs, n := w.disk, w.disk.journal, |w.disk.journal|;
    assert rs[d.db.applied..n] == rs[d.db.applied..] && rs[..n] == rs;
    CollectionsDrop(d.db, rs, d.db.applied, n, h);
    if Collects(rs, d.db.applied, n, h) { CollectedIsUnbound(rs, d.db.applied, n, h); }
    if d.db.applied == n { assert rs[d.db.applied..] == []; NothingToReplay(d.db); }
  }

  lemma NothingToReplay(d: Db)
    ensures ApplyAll(d, []) == d
  {
  }

  lemma CollectionsThenOne(w: World, h: Hash)
    requires Inv(w) && w.phase.Down? && !CaughtUp(w.disk)
    ensures RecordKept(w, Recovered(w.disk).db.refs, h)
  {
    hide Explained, Covers, Outlived, GcsWaited, ApplyAt, Fold, ViewOf, Conserved, Binds, Backed, Sound, Collects, WellPlaced;
    var d, rs, n := w.disk, w.disk.journal, |w.disk.journal| - 1;
    var from, r := d.db.applied, rs[n];
    assert rs[from..n + 1] == rs[from..] && rs[from..][..n - from] == rs[from..n] && rs[..n + 1] == rs;
    var mid := ApplyAll(d.db, rs[from..n]);
    CollectionsDrop(d.db, rs, from, n, h);
    assert Collects(rs, from, n + 1, h) <==> Collects(rs, from, n, h) by { NotThisOne(rs, from, n, h); }
    RecoverIsSane(d, w.now);
    ReplayReachesFold(d.db, rs, from, n);
    ReplayConserves(d.db, rs, from, n);
    var d' := Recovered(d).db;
    assert d' == ApplyAt(mid, r, r.time);
    if Binds(Fold(rs), h) {
      BoundIsRecorded(d', h);
      if Stamped(d'.refs, h) { StampedIsUnbound(d', h); }
    } else if Collects(rs, from, n, h) {
      CollectedIsUnbound(rs, from, n, h);
      ApplyLeavesRef(mid, r, r.time, h);
    } else {
      ApplyStamps(mid, r, r.time);
      if h in mid.refs { ApplyDrops(mid, r, r.time, h); }
    }
  }

  lemma NotThisOne(rs: seq<Record>, from: nat, n: nat, h: Hash)
    requires n < |rs| && !rs[n].op.GC?
    ensures Collects(rs, from, n + 1, h) <==> Collects(rs, from, n, h)
  {
  }

  ghost predicate RecoveryCovers(w: World, h: Hash) {
    WillBeDropped(w.disk, h) ==> FileCovers(w, h)
  }

  /**
   Recovery keeps a blob safe if and only if it does not replay a collection of it, or the
   file's time makes up for the record dropped.
   */
  lemma RecoveryKeepsSafe(w: World, h: Hash)
    requires Inv(w) && Enabled(w, Recover) && PartSafe(w, h)
    ensures PartSafe(Next(w, Recover), h) <==> RecoveryCovers(w, h)
  {
    hide *;
    assert RecordKept(w, Recovered(w.disk).db.refs, h) by { RecoveryKeepsRecord(w, h); }
    RecoveryIsQuick(w, h);
    SafeAfterRecovery(w, Next(w, Recover), h);
  }

  lemma RecoveryKeepsRecord(w: World, h: Hash)
    requires Inv(w) && Enabled(w, Recover)
    ensures RecordKept(w, Recovered(w.disk).db.refs, h)
  {
    if CaughtUp(w.disk) { CollectionsOnly(w, h); } else { CollectionsThenOne(w, h); }
    hide *;
  }

  lemma RecoveryIsQuick(w: World, h: Hash)
    requires Enabled(w, Recover)
    ensures var w' := Next(w, Recover);
            && w'.disk == Recovered(w.disk) && w'.disk.blobs == w.disk.blobs
            && w'.ends == w.ends && w'.grace == w.grace && PassTime(w') == PassTime(w)
  {
    hide ApplyAll;
  }

  lemma SafeAfterRecovery(w: World, w': World, h: Hash)
    requires PartSafe(w, h) && RecordKept(w, w'.disk.db.refs, h)
    requires w'.disk.blobs == w.disk.blobs && w'.ends == w.ends && w'.grace == w.grace && PassTime(w') == PassTime(w)
    ensures PartSafe(w', h) <==> RecoveryCovers(w, h)
  {
    hide WillBeDropped, PassTime;
  }

  /** By what clock a rebuilt index would have the collector wait, if by any. */
  ghost predicate RebuildCovers(w: World, h: Hash) {
    match TraceOf(w.disk.journal, h)
    case Unknown => FileCovers(w, h)
    case Counted => true
    case Since(t) => ClockCovers(w, h, Some(t))
  }

  lemma RebuiltShows(w: World, h: Hash)
    requires Inv(w) && w.disk.db.uploads == map[]
    ensures Shows(Rebuilt(w.disk).db.refs, h, TraceOf(w.disk.journal, h))
  {
    hide Explained, Covers, Outlived, GcsWaited, ApplyAll, Fold, ViewOf, Conserved, Binds, Backed, Sound, WellPlaced, Shows, Phased;
    var rs := w.disk.journal;
    WipedIsEmpty(w.disk.db);
    assert rs[..|rs|] == rs;
    ReplayShows(Wiped(w.disk.db), rs, |rs|, h);
  }

  /**
   A rebuild keeps a blob safe if and only if a part last let go of it no later than the journal
   says a key did; of a blob the journal says nothing of, no later than its file landed.
   */
  lemma RebuildKeepsSafe(w: World, h: Hash)
    requires Inv(w) && Enabled(w, Rebuild)
    ensures PartSafe(Next(w, Rebuild), h) <==> RebuildCovers(w, h)
  {
    hide Inv, TraceOf, Rebuilt, PartsWaited;
    RebuiltShows(w, h);
    RebuiltKeepsBlobs(w.disk);
    assert PartsWaited(Next(w, Rebuild), h) == PartsWaited(w, h) by { RebuildIsQuick(w, h); }
  }

  lemma RebuiltKeepsBlobs(d: Disk)
    ensures Rebuilt(d).blobs == d.blobs
  {
  }

  lemma RebuildIsQuick(w: World, h: Hash)
    requires Enabled(w, Rebuild)
    ensures PartsWaited(Next(w, Rebuild), h) == PartsWaited(w, h)
  {
    hide Rebuilt, PartSlots;
  }

  /** Whether every recovery and rebuild in a run meets its condition for h. */
  ghost predicate Sparing(w: World, steps: seq<Step>, h: Hash)
    requires Legal(w, steps)
    decreases |steps|
  {
    steps != [] ==>
    && (steps[0].Recover? ==> RecoveryCovers(w, h))
    && (steps[0].Rebuild? ==> RebuildCovers(w, h))
    && Sparing(Next(w, steps[0]), steps[1..], h)
  }

  /** Along such a run a blob stays safe, and so the collector waits for parts as it does for keys. */
  lemma {:induction false} PartsStaySafe(w: World, steps: seq<Step>, h: Hash)
    requires Inv(w) && Legal(w, steps) && PartSafe(w, h) && Sparing(w, steps, h)
    ensures PartSafe(Run(w, steps), h)
    decreases |steps|
  {
    hide Inv, Enabled, Next, PartSafe, RecoveryCovers, RebuildCovers;
    if steps != [] {
      StepKeepsInv(w, steps[0]);
      if steps[0].Recover? {
        RecoveryKeepsSafe(w, h);
      } else if steps[0].Rebuild? {
        RebuildKeepsSafe(w, h);
      } else {
        StepKeepsSafe(w, steps[0], h);
      }
      PartsStaySafe(Next(w, steps[0]), steps[1..], h);
    }
  }

  /** The collector removes h, or is about to: its record is dropped, or its file goes as an orphan's. */
  predicate IsTaken(w: World, s: Step, h: Hash) {
    && Enabled(w, s)
    && ((s == GcCheck(h) && Next(w, s).phase == GcDropped(h)) || (s.GcOrphans? && h in s.victims))
  }

  /** Altogether: after any run that spares h, nothing takes it before its parts have waited too. */
  lemma SparedPartsWait(w0: World, steps: seq<Step>, s: Step, h: Hash)
    requires Init(w0) && Legal(w0, steps) && Sparing(w0, steps, h)
    requires IsTaken(Run(w0, steps), s, h)
    ensures PartsWaited(Run(w0, steps), h) && PartSlots(Run(w0, steps).disk.db.uploads, h) == {}
  {
    var w := Run(w0, steps);
    InitHasInv(w0);
    assert PartSafe(w0, h);
    hide Inv, Legal, Run, Init, Sparing, PartSafe, PartsWaited, PartSlots, Enabled, Next, BoundAt;
    PartsStaySafe(w0, steps, h);
    assert Reachable(w);
    if s.GcCheck? {
      CollectionWaitsOutGrace(w, h, w.pass.value.at - w.grace + 1);
    } else {
      OrphansWaitOutGrace(w, s.victims, h, w.pass.value.at - w.grace + 1);
    }
  }
}
