/**
 The store's durable state and the sub-steps that change it, each of which a crash may follow:

   blob durable -> journal durable -> index committed -> ack      (internal/store/store.go:9-18)

 and what every one of those sub-steps keeps.
 */
module Disk {
  import opened Wrappers
  import opened ByteStrings
  import opened Blob
  import opened Index
  import opened Journal
  import opened Apply

  datatype Disk = Disk(blobs: Blobs, journal: seq<Record>, db: Db)

  const EMPTY_DISK := Disk(map[], [], EMPTY_DB)

  // ------------------------------------------------------------ sub-steps

  function Landed(d: Disk, content: Bytes, now: Time): Disk {
    d.(blobs := Land(d.blobs, content, now))
  }

  function NextRecord(d: Disk, op: Op, now: Time): Record {
    Record(|d.journal| + 1, now, op)
  }

  function Logged(d: Disk, op: Op, now: Time): Disk {
    d.(journal := d.journal + [NextRecord(d, op, now)])
  }

  function Committed(d: Disk, r: Record, now: Time): Disk {
    d.(db := ApplyAt(d.db, r, now))
  }

  /** Recover: the records the index has not applied yet, folded in with their own times. */
  function Recovered(d: Disk): Disk {
    if d.db.applied >= |d.journal| then d
    else d.(db := ApplyAll(d.db, d.journal[d.db.applied..]))
  }

  /** rebuildIndex's first half: the store's namespaces and every reference record are dropped. */
  function Wiped(d: Db): Db {
    d.(objs := map s | s in d.objs && !s.ns.scope.StoreScope? :: d.objs[s],
       stats := map ns | ns in d.stats && !ns.scope.StoreScope? :: d.stats[ns],
       refs := map[], applied := 0)
  }

  function Rebuilt(d: Disk): Disk {
    d.(db := ApplyAll(Wiped(d.db), d.journal))
  }

  /** A read: the bytes behind a key, or None when the key or its blob is missing. */
  function ReadBack(d: Disk, s: Slot): Option<Bytes> {
    var v := ViewOf(d.db);
    if s in v && v[s].hash in d.blobs then Some(d.blobs[v[s].hash].content) else None
  }

  // ----------------------------------------------------------- invariants

  /** Every blob the durable journal binds a key to, and every open upload's part, is on disk. */
  ghost predicate Backed(d: Disk) {
    && (forall s :: s in Fold(d.journal) ==> Fold(d.journal)[s].hash in d.blobs)
    && (forall u, n :: u in d.db.uploads && n in d.db.uploads[u].parts ==>
                         d.db.uploads[u].parts[n].hash in d.blobs)
  }

  ghost predicate Timely(rs: seq<Record>, now: Time) {
    forall i :: 0 <= i < |rs| ==> rs[i].time <= now
  }

  /** What holds of the disk at every moment, crash or no crash. */
  ghost predicate Sane(d: Disk, now: Time) {
    && Orderly(d.journal) && Timely(d.journal, now) && WellPlaced(d.journal)
    && d.db.applied <= |d.journal|
    && ViewOf(d.db) == Fold(d.journal[..d.db.applied])
    && Conserved(d.db)
    && Sound(d.blobs) && Backed(d)
  }

  /** All records in rs[from..to] are collections, which bind and unbind nothing. */
  ghost predicate OnlyGc(rs: seq<Record>, from: nat, to: nat) {
    forall i :: from <= i < to && i < |rs| ==> rs[i].op.GC?
  }

  /** The index stands for the whole journal: nothing but collections is unapplied. */
  ghost predicate CaughtUp(d: Disk) {
    OnlyGc(d.journal, d.db.applied, |d.journal|)
  }

  /** The journal is one mutation ahead of the index. */
  ghost predicate OneAhead(d: Disk) {
    d.db.applied < |d.journal| && OnlyGc(d.journal, d.db.applied, |d.journal| - 1)
  }

  // ---------------------------------------------------------------- lemmas

  lemma {:induction false} GcFoldsToNothing(rs: seq<Record>, from: nat, to: nat)
    requires from <= to <= |rs| && OnlyGc(rs, from, to)
    ensures Fold(rs[..from]) == Fold(rs[..to])
  {
    if from < to {
      GcFoldsToNothing(rs, from, to - 1);
      assert rs[..to][..to - 1] == rs[..to - 1];
      assert rs[to - 1].op.GC?;
    }
  }

  lemma CaughtUpView(d: Disk, now: Time)
    requires Sane(d, now) && CaughtUp(d)
    ensures ViewOf(d.db) == Fold(d.journal)
  {
    hide *;
    assert d.journal[..|d.journal|] == d.journal;
    CaughtUpBasics(d, now);
    GcFoldsToNothing(d.journal, d.db.applied, |d.journal|);
  }

  lemma CaughtUpBasics(d: Disk, now: Time)
    requires Sane(d, now) && CaughtUp(d)
    ensures d.db.applied <= |d.journal| && ViewOf(d.db) == Fold(d.journal[..d.db.applied])
    ensures OnlyGc(d.journal, d.db.applied, |d.journal|)
  {
  }

  lemma LandIsSane(d: Disk, content: Bytes, now: Time)
    requires Sane(d, now)
    ensures Sane(Landed(d, content, now), now)
  {
    hide Conserved, WellPlaced, Orderly, Timely, ViewOf, Fold;
  }

  lemma AppendIsOrderly(rs: seq<Record>, r: Record)
    requires Orderly(rs) && Timely(rs, r.time) && r.seqno == |rs| + 1
    ensures Orderly(rs + [r])
  {
  }

  /** A mutation may be logged once its blob is on disk, a collection once nothing is bound to its blob. */
  ghost predicate Loggable(d: Disk, op: Op) {
    match op
    case Put(_, _, hash, _, _, _) => hash in d.blobs
    case Delete(_, _) => true
    case GC(hash) => !Binds(Fold(d.journal), hash)
  }

  lemma LogIsSane(d: Disk, op: Op, now: Time)
    requires Sane(d, now) && Loggable(d, op)
    ensures Sane(Logged(d, op, now), now)
    ensures Fold(Logged(d, op, now).journal) == StepView(Fold(d.journal), op)
  {
    hide Conserved, ViewOf, WellPlaced;
    var r := NextRecord(d, op, now);
    var d' := Logged(d, op, now);
    FoldAppend(d.journal, r);
    AppendIsOrderly(d.journal, r);
    WellPlacedAppend(d.journal, r);
    assert d'.journal[..d.db.applied] == d.journal[..d.db.applied];
  }

  /** The newest record, committed at any later time, brings the index up to date. */
  lemma CommitIsSane(d: Disk, now: Time)
    requires Sane(d, now) && OneAhead(d) && !d.journal[|d.journal| - 1].op.GC?
    ensures var d' := Committed(d, d.journal[|d.journal| - 1], now);
            Sane(d', now) && CaughtUp(d') && d'.db.uploads == d.db.uploads
  {
    hide Conserved, ViewOf, WellPlaced, ApplyAt, Binds, StepView;
    var n := |d.journal| - 1;
    var r := d.journal[n];
    GcFoldsToNothing(d.journal, d.db.applied, n);
    ApplyMovesView(d.db, r, now);
    ApplyShape(d.db, r, now);
    ApplyKeepsConserved(d.db, r, now);
    assert d.journal[..n + 1] == d.journal && d.journal[..n + 1][..n] == d.journal[..n];
  }

  lemma ReplaySane(d: Disk, start: Db, now: Time)
    requires Sane(d, now) && start.applied <= |d.journal|
    requires ViewOf(start) == Fold(d.journal[..start.applied]) && Conserved(start)
    requires start.uploads == d.db.uploads && PartsSpared(start.uploads, d.journal, start.applied, |d.journal|)
    ensures var d' := d.(db := ApplyAll(start, d.journal[start.applied..]));
            Sane(d', now) && d'.db.applied == |d.journal| && d'.db.uploads == d.db.uploads
  {
    hide Conserved, ViewOf, WellPlaced, ApplyAll, Fold;
    var n := |d.journal|;
    ReplayReachesFold(start, d.journal, start.applied, n);
    ReplayConserves(start, d.journal, start.applied, n);
    assert d.journal[start.applied..n] == d.journal[start.applied..] && d.journal[..n] == d.journal;
  }

  /** No unapplied collection concerns a blob that an open upload's part holds. */
  predicate Recoverable(d: Disk) {
    PartsSpared(d.db.uploads, d.journal, d.db.applied, |d.journal|)
  }

  lemma NoUploadsRecoverable(d: Disk)
    requires d.db.uploads == map[]
    ensures Recoverable(d)
  {
    NoPartsToSpare(d.journal, d.db.applied, |d.journal|);
  }

  /**
   Recovery from any crash brings the index to the fold of the journal and leaves the open
   uploads as they were, if no unapplied collection concerns a part of theirs.
   */
  lemma RecoverIsSane(d: Disk, now: Time)
    requires Sane(d, now) && Recoverable(d)
    ensures Sane(Recovered(d), now) && CaughtUp(Recovered(d)) && Recovered(d).db.uploads == d.db.uploads
    ensures ViewOf(Recovered(d).db) == Fold(d.journal) && Recovered(d).db.applied == |d.journal|
  {
    hide Conserved, ViewOf, WellPlaced, ApplyAll, Fold, Orderly, Timely, Sound, Backed, PartsSpared;
    if d.db.applied < |d.journal| { ReplaySane(d, d.db, now); }
    assert CaughtUp(Recovered(d));
    CaughtUpView(Recovered(d), now);
  }

  lemma WipedIsEmpty(d: Db)
    ensures ViewOf(Wiped(d)) == map[]
    ensures d.uploads == map[] ==> Conserved(Wiped(d))
  {
    forall h ensures Holders(Wiped(d).objs, h) == {} {}
    if d.uploads == map[] {
      forall h ensures Drift(Wiped(d), h) == 0 {
        assert PartSlots(d.uploads, h) == {};
      }
    }
  }

  /** So does a rebuild from nothing, which no trace of the old index survives. */
  lemma RebuildIsSane(d: Disk, now: Time)
    requires Sane(d, now) && d.db.uploads == map[]
    ensures Sane(Rebuilt(d), now) && CaughtUp(Rebuilt(d)) && Rebuilt(d).db.uploads == map[]
    ensures ViewOf(Rebuilt(d).db) == Fold(d.journal)
  {
    hide Conserved, ViewOf, WellPlaced, ApplyAll, Fold, Orderly, Timely, Sound, Backed;
    WipedIsEmpty(d.db);
    FoldOfNothing();
    NoPartsToSpare(d.journal, 0, |d.journal|);
    assert d.journal[..0] == [] && d.journal[0..] == d.journal;
    ReplaySane(d, Wiped(d.db), now);
    CaughtUpView(Rebuilt(d), now);
  }

  lemma FoldOfNothing()
    ensures Fold([]) == map[]
  {
  }

  /**
   Replay refines the live path: from any state a crash can leave, recovering the current index
   and rebuilding it from empty both reach the bindings of the whole journal's fold, and every
   count is then the number of keys that fold binds to the blob.
   */
  lemma RecoverAndRebuildAgree(d: Disk, now: Time, h: Hash)
    requires Sane(d, now) && d.db.uploads == map[]
    ensures ViewOf(Recovered(d).db) == ViewOf(Rebuilt(d).db) == Fold(d.journal)
    ensures Recovered(d).db.Count(h) == Rebuilt(d).db.Count(h)
            == |set s | s in Fold(d.journal) && Fold(d.journal)[s].hash == h|
  {
    hide ViewOf, WellPlaced, ApplyAll, Fold, Orderly, Timely, Sound, Backed, Recovered, Rebuilt;
    NoUploadsRecoverable(d);
    RecoverIsSane(d, now);
    RebuildIsSane(d, now);
    CountsFollowBindings(Recovered(d).db, Rebuilt(d).db, h);
  }

  /** Removing blobs that nothing references. */
  lemma RemoveIsSane(d: Disk, gone: set<Hash>, now: Time)
    requires Sane(d, now)
    requires forall h :: h in gone ==> !Binds(Fold(d.journal), h) && PartSlots(d.db.uploads, h) == {}
    ensures Sane(d.(blobs := d.blobs - gone), now)
  {
    hide Conserved, ViewOf, WellPlaced, Fold, Orderly, Timely;
    var d' := d.(blobs := d.blobs - gone);
    var v := Fold(d.journal);
    forall s | s in v ensures v[s].hash in d'.blobs {
      assert Binds(v, v[s].hash);
    }
    forall u, n | u in d.db.uploads && n in d.db.uploads[u].parts
      ensures d.db.uploads[u].parts[n].hash in d'.blobs
    {
      assert (u, n) in PartSlots(d.db.uploads, d.db.uploads[u].parts[n].hash);
    }
  }

  /** With the index caught up, a blob whose count is not positive has no holder of any kind. */
  lemma UncountedIsUnheld(d: Disk, now: Time, h: Hash)
    requires Sane(d, now) && CaughtUp(d) && d.db.Count(h) <= 0
    ensures !Binds(Fold(d.journal), h) && PartSlots(d.db.uploads, h) == {} && Demand(d.db, h) == 0
  {
    CaughtUpView(d, now);
    assert Drift(d.db, h) == 0;
    BoundHasHolder(d.db, h);
  }

  lemma DropIsSane(d: Disk, now: Time, h: Hash)
    requires Sane(d, now) && CaughtUp(d) && d.db.Count(h) <= 0
    ensures var d' := d.(db := d.db.DropRef(h)); Sane(d', now) && CaughtUp(d')
  {
    UncountedIsUnheld(d, now, h);
    var d' := d.(db := d.db.DropRef(h));
    forall x ensures Drift(d'.db, x) == 0 {
      assert Drift(d.db, x) == 0;
    }
  }
}
