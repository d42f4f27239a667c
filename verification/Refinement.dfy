/**
 The code's calls are runs of the machine: what module ObjectStore proves its methods to do,
 uninterrupted, is what module Machine does in the corresponding steps. Everything proved of
 reachable states therefore applies to a store driven through those methods.
 */
module Refinement {
  import opened Wrappers
  import opened ByteStrings
  import opened Blob
  import opened Index
  import opened Journal
  import opened Apply
  import opened Disk
  import opened Machine
  import opened Multipart
  import opened Overlap
  import O = ObjectStore

  lemma {:induction false} RunAppend(w: World, a: seq<Step>, b: seq<Step>)
    requires Legal(w, a) && Legal(Run(w, a), b)
    ensures Legal(w, a + b) && Run(w, a + b) == Run(Run(w, a), b)
    decreases |a|
  {
    hide Enabled, Next;
    if a == [] {
      assert a + b == b;
    } else {
      assert (a + b)[0] == a[0] && (a + b)[1..] == a[1..] + b;
      RunAppend(Next(w, a[0]), a[1..], b);
    }
  }

  /** A put whose declared digest is right, if any, is these four steps. */
  lemma PutIsARun(w: World, job: Job)
    requires w.phase.Idle? && job.PutJob? && (job.declared.Some? ==> job.declared.value == Sha256(job.content))
    ensures var steps := [Issue(job), StoreBlob, WriteJournal, CommitIndex];
            && Legal(w, steps)
            && Run(w, steps).disk == O.PutDone(w.disk, O.PutRecordOp(job.Slot(), job.content, job.etag, job.mtime),
                                               job.content, w.now, w.now, w.now)
            && Run(w, steps).phase == Idle && |w.issued| in Run(w, steps).acked
            && Run(w, steps).issued == w.issued + [job]
  {
    hide ApplyAt, Land, Begun, PartStored, Aborted, Completed, Assembled, PartsEnd, Recovered, Rebuilt, Candidates, Orphans;
    hide Legal, Run;
    var steps := [Issue(job), StoreBlob, WriteJournal, CommitIndex];
    var w1 := Next(w, Issue(job));
    var w2 := Next(w1, StoreBlob);
    var w3 := Next(w2, WriteJournal);
    var w4 := Next(w3, CommitIndex);
    FourSteps(w, steps, w1, w2, w3, w4);
  }

  /** A delete of a key that is there is these three. */
  lemma DeleteIsARun(w: World, job: Job)
    requires w.phase.Idle? && job.DeleteJob? && job.Slot() in w.disk.db.objs
    ensures var steps := [Issue(job), WriteJournal, CommitIndex];
            && Legal(w, steps)
            && Run(w, steps).disk == O.DeleteDone(w.disk, Op.Delete(job.bucket, job.key), w.now, w.now)
            && Run(w, steps).phase == Idle && |w.issued| in Run(w, steps).acked
  {
    hide ApplyAt, Legal, Run, Land, PartStored, Aborted, Completed, Recovered, Rebuilt, Candidates, Orphans;
    var steps := [Issue(job), WriteJournal, CommitIndex];
    var w1 := Next(w, Issue(job));
    var w2 := Next(w1, WriteJournal);
    var w3 := Next(w2, CommitIndex);
    ThreeSteps(w, steps, w1, w2, w3);
  }

  function GcSteps(order: seq<Hash>): seq<Step> {
    if order == [] then []
    else GcSteps(order[..|order| - 1]) + [GcCheck(order[|order| - 1]), GcRemove, GcLog]
  }

  /** Collecting one candidate is these three steps. */
  lemma CollectOneIsARun(w: World, h: Hash)
    requires w.phase.Idle? && w.pass.Some? && h in w.pass.value.todo
    requires h in Candidates(w.disk.db, w.pass.value.at, w.grace)
    ensures var steps := [GcCheck(h), GcRemove, GcLog];
            && Legal(w, steps)
            && Run(w, steps) == w.(disk := Disk(w.disk.blobs - {h}, w.disk.journal + [NextRecord(w.disk, Op.GC(h), w.now)],
                                                w.disk.db.DropRef(h)),
                                   pass := Some(w.pass.value.(todo := w.pass.value.todo - {h})))
  {
    hide Legal, Run, ApplyAt, Land, PartStored, Aborted, Completed, Recovered, Rebuilt, Orphans;
    var w1 := Next(w, GcCheck(h));
    var w2 := Next(w1, GcRemove);
    var w3 := Next(w2, GcLog);
    ThreeSteps(w, [GcCheck(h), GcRemove, GcLog], w1, w2, w3);
  }

  /** A collection pass over its candidates, with nothing in between, is the code's. */
  lemma {:induction false} CollectIsARun(w: World, order: seq<Hash>)
    requires w.phase.Idle? && w.pass.Some? && O.Lists(order, O.SetOf(order))
    requires forall h :: h in order ==> h in w.pass.value.todo && h in Candidates(w.disk.db, w.pass.value.at, w.grace)
    ensures Legal(w, GcSteps(order))
    ensures Run(w, GcSteps(order)) == w.(disk := O.Collected(w.disk, order, w.now),
                                         pass := Some(w.pass.value.(todo := w.pass.value.todo - O.SetOf(order))))
  {
    if order == [] {
      NothingCollected(w);
    } else {
      var n := |order| - 1;
      var before, h := order[..n], order[n];
      hide Enabled, Next, O.GcRecords;
      assert O.Lists(before, O.SetOf(before));
      CollectIsARun(w, before);
      var mid := Run(w, GcSteps(before));
      assert h !in O.SetOf(before);
      assert h in Candidates(mid.disk.db, mid.pass.value.at, mid.grace);
      CollectOneIsARun(mid, h);
      RunAppend(w, GcSteps(before), [GcCheck(h), GcRemove, GcLog]);
      O.CollectOneMore(w.disk, before, h, w.now);
      assert before + [h] == order;
      assert w.pass.value.todo - O.SetOf(before) - {h} == w.pass.value.todo - O.SetOf(order) by {
        assert O.SetOf(order) == O.SetOf(before) + {h};
      }
    }
  }

  lemma NothingCollected(w: World)
    requires w.pass.Some?
    ensures O.Collected(w.disk, [], w.now) == w.disk && w.pass.value.todo - O.SetOf<Hash>([]) == w.pass.value.todo
    ensures w == w.(disk := w.disk, pass := Some(w.pass.value.(todo := w.pass.value.todo)))
  {
    assert O.SetOf<Hash>([]) == {};
    assert w.disk.journal + [] == w.disk.journal;
  }

  // ----------------------------------------------- a part that recovery drops

  function PutSteps(job: Job): seq<Step> {
    [Issue(job), StoreBlob, WriteJournal, CommitIndex]
  }

  function DeleteSteps(job: Job): seq<Step> {
    [Issue(job), WriteJournal, CommitIndex]
  }

  /** Content is put, deleted and collected after the grace period, and then uploaded again as a part. */
  function DroppingRun(grace: Time, bucket: Bytes, key: Key, content: Bytes, u: UploadId): seq<Step> {
    PutSteps(PutJob(bucket, key, content, NoTag, 0, None)) + DeleteSteps(DeleteJob(bucket, key))
    + [Tick(if grace > 0 then grace else 0), GcWalk]
    + [GcCheck(Sha256(content)), GcRemove, GcLog]
    + [NewUpload(u, key), StorePart(u, 1, content)]
  }

  lemma FirstPut(d0: Db, r: Record, now: Time)
    requires r.op.Put? && d0.refs == map[] && HashAt(d0, Target(r.op).value) == None
    ensures var d := ApplyAt(d0, r, now);
            && d.refs == map[r.op.hash := Ref(1, None)] && HashAt(d, Target(r.op).value) == Some(r.op.hash)
            && d.uploads == d0.uploads && d.applied == r.seqno
  {
    ApplyShape(d0, r, now);
  }

  lemma LastDelete(d: Db, r: Record, now: Time, h: Hash)
    requires r.op.Delete? && d.refs == map[h := Ref(1, None)] && HashAt(d, Target(r.op).value) == Some(h)
    ensures var d' := ApplyAt(d, r, now);
            d'.refs == map[h := Ref(0, Some(now))] && d'.uploads == d.uploads && d'.applied == r.seqno
  {
    ApplyShape(d, r, now);
  }

  /** The records of a put and of the deletion of the same key. */
  predicate PutAndDelete(rs: seq<Record>, s: Slot, h: Hash, at: Time) {
    && |rs| == 2 && rs[0].op.Put? && rs[0].op.hash == h && rs[1].op.Delete?
    && Target(rs[0].op) == Target(rs[1].op) == Some(s) && rs[0].time == rs[1].time == at
  }

  /** The first two calls leave a blob that nothing refers to. */
  lemma PutThenDelete(w0: World, bucket: Bytes, key: Key, content: Bytes)
    requires Init(w0)
    ensures var steps := PutSteps(PutJob(bucket, key, content, NoTag, 0, None)) + DeleteSteps(DeleteJob(bucket, key));
            && Legal(w0, steps)
            && var w := Run(w0, steps);
               && w.phase == Idle && w.pass == None && w.now == w0.now && w.grace == w0.grace
               && w.disk.db.refs == map[Sha256(content) := Ref(0, Some(w0.now))]
               && w.disk.db.uploads == map[] && w.disk.db.applied == 2 == |w.disk.journal|
               && PutAndDelete(w.disk.journal, At(bucket, key), Sha256(content), w0.now)
  {
    hide ApplyAt, Land, Begun, PartStored, Aborted, Completed, Assembled, PartsEnd, Recovered, Rebuilt, Candidates, Orphans, Enabled, Next;
    var put, del := PutJob(bucket, key, content, NoTag, 0, None), DeleteJob(bucket, key);
    PutIsARun(w0, put);
    var w1 := Run(w0, PutSteps(put));
    QuietRun(w0, PutSteps(put));
    var landed := Landed(w0.disk, content, w0.now);
    var r1 := NextRecord(landed, O.PutRecordOp(put.Slot(), content, NoTag, 0), w0.now);
    FirstPut(EMPTY_DB, r1, w0.now);
    assert w1.disk.db == ApplyAt(EMPTY_DB, r1, w0.now);
    assert put.Slot() in w1.disk.db.objs;
    DeleteIsARun(w1, del);
    QuietRun(w1, DeleteSteps(del));
    LastDelete(w1.disk.db, NextRecord(w1.disk, Op.Delete(bucket, key), w0.now), w0.now, Sha256(content));
    hide Legal, Run;
    RunAppend(w0, PutSteps(put), DeleteSteps(del));
  }

  /** Steps of a put or a delete leave the clock and the collector alone. */
  lemma {:induction false} QuietRun(w: World, steps: seq<Step>)
    requires Legal(w, steps)
    requires forall i :: 0 <= i < |steps| ==>
               steps[i].Issue? || steps[i].StoreBlob? || steps[i].WriteJournal? || steps[i].CommitIndex?
    ensures Run(w, steps).pass == w.pass && Run(w, steps).now == w.now && Run(w, steps).grace == w.grace
    decreases |steps|
  {
    hide ApplyAt, Land;
    if steps != [] { QuietRun(Next(w, steps[0]), steps[1..]); }
  }

  /** Once the grace period is over, a walk finds the blob. */
  lemma WaitAndWalk(w: World, h: Hash)
    requires w.phase == Idle && w.pass == None && w.disk.db.refs == map[h := Ref(0, Some(w.now))]
    ensures var steps := [Tick(if w.grace > 0 then w.grace else 0), GcWalk];
            && Legal(w, steps)
            && var w' := Run(w, steps);
               w'.phase == Idle && w'.disk == w.disk && w'.grace == w.grace
               && w'.pass.Some? && h in w'.pass.value.todo && h in Candidates(w'.disk.db, w'.pass.value.at, w'.grace)
  {
    hide Legal, Run;
    var steps := [Tick(if w.grace > 0 then w.grace else 0), GcWalk];
    var w1 := Next(w, steps[0]);
    TwoSteps(w, steps, w1, Next(w1, steps[1]));
  }

  /** The part arrives once its blob has been collected. */
  lemma PartArrives(w: World, u: UploadId, key: Key, content: Bytes)
    requires w.phase == Idle && w.disk.db.uploads == map[]
    ensures var steps := [NewUpload(u, key), StorePart(u, 1, content)];
            && Legal(w, steps)
            && var w' := Run(w, steps);
               && w'.phase == Idle && w'.now == w.now && w'.grace == w.grace && w'.pass == w.pass
               && w'.disk.journal == w.disk.journal && w'.disk.db.applied == w.disk.db.applied
               && w'.disk.blobs == Land(w.disk.blobs, content, w.now)
               && PartSlots(w'.disk.db.uploads, Sha256(content)) == {(u, 1)}
               && w'.disk.db.uploads == map[u := Upload(key, map[1 := Part(Sha256(content), Md5(content), |content|)])]
  {
    hide Legal, Run;
    hide Land, ApplyAt, Aborted, Completed, Assembled, PartsEnd, Recovered, Rebuilt, Candidates, Orphans, Logged, Committed;
    var steps := [NewUpload(u, key), StorePart(u, 1, content)];
    var w1 := Next(w, steps[0]);
    TwoSteps(w, steps, w1, Next(w1, steps[1]));
  }

  /**
   Recovery with an upload open does lose a count. In the state this run leads to, every count
   is right; were the process to stop there, recovery would replay the collection, which the
   live index has outlived, and forget the reference of the part.
   */
  lemma RecoveryCanDropAPart(w0: World, bucket: Bytes, key: Key, content: Bytes, u: UploadId)
    requires Init(w0)
    ensures var steps := DroppingRun(w0.grace, bucket, key, content, u);
            && Legal(w0, steps)
            && var w, h := Run(w0, steps), Sha256(content);
               && Reachable(w) && w.phase == Idle
               && PartSlots(w.disk.db.uploads, h) == {(u, 1)} && Drift(w.disk.db, h) == 0
               && PartSlots(Recovered(w.disk).db.uploads, h) == {(u, 1)} && Drift(Recovered(w.disk).db, h) == 1
  {
    hide Legal, Run, Init, Enabled, Next, PartSlots, Recovered, Conserved, Sane, Drift, Candidates;
    var h := Sha256(content);
    var a := PutSteps(PutJob(bucket, key, content, NoTag, 0, None)) + DeleteSteps(DeleteJob(bucket, key));
    var b := [Tick(if w0.grace > 0 then w0.grace else 0), GcWalk];
    var c, d := [GcCheck(h), GcRemove, GcLog], [NewUpload(u, key), StorePart(u, 1, content)];
    PutThenDelete(w0, bucket, key, content);
    var w1 := Run(w0, a);
    WaitAndWalk(w1, h);
    var w2 := Run(w1, b);
    CollectOneIsARun(w2, h);
    var w3 := Run(w2, c);
    PartArrives(w3, u, key, content);
    var w := Run(w3, d);
    assert w.disk.journal[2].op == GC(h);
    hide *;
    RunAppend(w0, a, b);
    RunAppend(w0, a + b, c);
    RunAppend(w0, a + b + c, d);
    DroppedThere(w0, DroppingRun(w0.grace, bucket, key, content, u), w, u, h);
  }

  lemma DroppedThere(w0: World, steps: seq<Step>, w: World, u: UploadId, h: Hash)
    requires Init(w0) && Legal(w0, steps) && Run(w0, steps) == w && w.phase == Idle
    requires w.disk.db.applied == 2 && |w.disk.journal| == 3 && w.disk.journal[2].op == GC(h)
    requires u in w.disk.db.uploads && w.disk.db.uploads.Keys == {u}
    requires w.disk.db.uploads[u].parts.Keys == {1} && w.disk.db.uploads[u].parts[1].hash == h
    ensures Reachable(w)
    ensures PartSlots(w.disk.db.uploads, h) == {(u, 1)} && Drift(w.disk.db, h) == 0
    ensures PartSlots(Recovered(w.disk).db.uploads, h) == {(u, 1)} && Drift(Recovered(w.disk).db, h) == 1
  {
    hide ApplyAll, Run, Legal, Init, Phased, Explained, Timed, Fold, WellPlaced, Orderly, Timely, Backed, Sound;
    assert Reachable(w);
    ReachableHasInv(w);
    assert Drift(w.disk.db, h) == 0;
    assert PartSlots(w.disk.db.uploads, h) == {(u, 1)};
    hide Drift, PartSlots, Sane, Conserved;
    var more := w.disk.journal[2..];
    assert more[0].op == GC(h) && |more| == 1;
    assert LastGc(more, h) == 0;
    RecoveryDrift(w.disk, w.now, h);
    ApplyAllKeepsUploads(w.disk.db, more);
  }

  // ------------------------------------------- what a rebuild forgets of parts

  /** Content is put and deleted, then held by a part until a rebuild, and collected right after it. */
  function ForgettingRun(grace: nat, bucket: Bytes, key: Key, content: Bytes, u: UploadId): seq<Step> {
    PutSteps(PutJob(bucket, key, content, NoTag, 0, None)) + DeleteSteps(DeleteJob(bucket, key))
    + [NewUpload(u, key), StorePart(u, 1, content)] + [Tick(grace), Abort(u)]
    + [Crash, Rebuild] + [GcWalk, GcCheck(Sha256(content))]
  }

  /** The two records replayed over a wiped index stamp the blob with the time of the deletion. */
  lemma TwoReplayed(d: Db, rs: seq<Record>, s: Slot, h: Hash, at: Time)
    requires PutAndDelete(rs, s, h, at) && s.ns.scope.StoreScope?
    ensures ApplyAll(Wiped(d), rs).refs == map[h := Ref(0, Some(at))]
  {
    hide ApplyAt;
    var d1 := ApplyAt(Wiped(d), rs[0], at);
    assert rs[..1][..0] == [];
    assert ApplyAll(Wiped(d), rs[..1]) == d1;
    FirstPut(Wiped(d), rs[0], at);
    LastDelete(d1, rs[1], at, h);
  }

  lemma WaitAndAbort(w: World, u: UploadId, dt: nat)
    requires w.phase == Idle && w.disk.db.uploads.Keys == {u}
    ensures var steps := [Tick(dt), Abort(u)];
            && Legal(w, steps)
            && var w' := Run(w, steps);
               && w'.phase == Idle && w'.disk.journal == w.disk.journal && w'.disk.db.uploads == map[]
               && w'.disk.blobs == w.disk.blobs && w'.disk.db.applied == w.disk.db.applied
               && w'.now == w.now + dt && w'.grace == w.grace && w'.pass == w.pass
  {
    hide Legal, Run;
    hide Land, Recovered, Rebuilt, Candidates, Orphans, Completed;
    var steps := [Tick(dt), Abort(u)];
    var w1 := Next(w, steps[0]);
    TwoSteps(w, steps, w1, Next(w1, steps[1]));
  }

  lemma CrashAndRebuild(w: World, s: Slot, h: Hash, at: Time)
    requires w.phase == Idle && w.disk.db.uploads == map[]
    requires PutAndDelete(w.disk.journal, s, h, at) && s.ns.scope.StoreScope?
    ensures var steps := [Crash, Rebuild];
            && Legal(w, steps)
            && var w' := Run(w, steps);
               && w'.phase == Idle && w'.pass == None && w'.now == w.now && w'.grace == w.grace
               && w'.disk.db.refs == map[h := Ref(0, Some(at))]
  {
    hide Legal, Run;
    hide ApplyAll, Wiped;
    var steps := [Crash, Rebuild];
    var w1 := Next(w, steps[0]);
    TwoSteps(w, steps, w1, Next(w1, steps[1]));
    TwoReplayed(w.disk.db, w.disk.journal, s, h, at);
  }

  lemma WalkAndDrop(w: World, h: Hash, at: Time)
    requires w.phase == Idle && w.pass == None && w.disk.db.refs == map[h := Ref(0, Some(at))]
    requires w.now - at >= w.grace
    ensures var steps := [GcWalk, GcCheck(h)];
            && Legal(w, steps)
            && Run(w, steps).phase == GcDropped(h) && Run(w, steps).now == w.now
  {
    hide Legal, Run;
    var steps := [GcWalk, GcCheck(h)];
    var w1 := Next(w, steps[0]);
    TwoSteps(w, steps, w1, Next(w1, steps[1]));
  }

  /**
   Grace does not reach across a rebuild for upload parts. In this run a part holds a blob
   until the very moment at which, after a rebuild, the collector drops it: replay knows when
   the last key let go of the blob, and nothing of parts.
   */
  lemma RebuildForgetsParts(w0: World, bucket: Bytes, key: Key, content: Bytes, u: UploadId)
    requires Init(w0) && w0.grace > 0
    ensures var steps := ForgettingRun(w0.grace, bucket, key, content, u);
            var h := Sha256(content);
            && Legal(w0, steps) && Run(w0, steps).phase == GcDropped(h)
            && Legal(w0, steps[..10])
            && PartSlots(Run(w0, steps[..10]).disk.db.uploads, h) != {}
            && Run(w0, steps[..10]).now == Run(w0, steps).now
  {
    hide Legal, Run, Init, Enabled, Next, PartSlots, Recovered, Conserved, Sane, Drift, Candidates;
    var h := Sha256(content);
    var a := PutSteps(PutJob(bucket, key, content, NoTag, 0, None)) + DeleteSteps(DeleteJob(bucket, key));
    var b := [NewUpload(u, key), StorePart(u, 1, content)];
    var c, d, e := [Tick(w0.grace), Abort(u)], [Crash, Rebuild], [GcWalk, GcCheck(h)];
    PutThenDelete(w0, bucket, key, content);
    var w1 := Run(w0, a);
    PartArrives(w1, u, key, content);
    var w2 := Run(w1, b);
    WaitAndAbort(w2, u, w0.grace);
    var w3 := Run(w2, c);
    CrashAndRebuild(w3, At(bucket, key), h, w0.now);
    var w4 := Run(w3, d);
    WalkAndDrop(w4, h, w0.now);
    var steps := ForgettingRun(w0.grace, bucket, key, content, u);
    StillHeld(w0, a, b, w2, w0.grace, h);
    hide Legal, Run, Init, Enabled, Next, PartSlots;
    RunAppend(w0, a, b);
    RunAppend(w0, a + b, c);
    RunAppend(w0, a + b + c, d);
    RunAppend(w0, a + b + c + d, e);
    assert steps == a + b + c + d + e;
    assert |a + b| == 9 && steps[..10] == a + b + [Tick(w0.grace)];
  }

  /** Content is uploaded as a part and gone as an orphan right after recovery. */
  function SweptTail(grace: nat, key: Key, content: Bytes, u: UploadId): seq<Step> {
    [NewUpload(u, key), StorePart(u, 1, content)] + [Tick(grace), Abort(u)]
    + [Crash, Recover] + [GcWalk, GcOrphans({Sha256(content)})]
  }

  /** It had been put, deleted and collected before. */
  function SweepingRun(grace: nat, bucket: Bytes, key: Key, content: Bytes, u: UploadId): seq<Step> {
    PutSteps(PutJob(bucket, key, content, NoTag, 0, None)) + DeleteSteps(DeleteJob(bucket, key))
    + [Tick(grace), GcWalk] + [GcCheck(Sha256(content)), GcRemove, GcLog] + [GcOrphans({})]
    + SweptTail(grace, key, content, u)
  }

  lemma EndOfPass(w: World)
    requires w.phase == Idle && w.pass.Some?
    ensures Legal(w, [GcOrphans({})]) && Run(w, [GcOrphans({})]) == w.(pass := None)
  {
    hide Legal, Run;
    OneStep(w, GcOrphans({}));
    assert w.disk.blobs - {} == w.disk.blobs;
  }

  lemma CrashAndRecover(w: World, h: Hash)
    requires w.phase == Idle && w.disk.db.uploads == map[]
    requires w.disk.db.applied == 2 && |w.disk.journal| == 3 && w.disk.journal[2].op == GC(h)
    ensures var steps := [Crash, Recover];
            && Legal(w, steps)
            && var w' := Run(w, steps);
               && w'.phase == Idle && w'.pass == None && w'.now == w.now && w'.grace == w.grace
               && w'.disk.blobs == w.disk.blobs && h !in w'.disk.db.refs
  {
    hide Legal, Run;
    var steps := [Crash, Recover];
    var w1 := Next(w, steps[0]);
    NoUploadsRecoverable(w.disk);
    TwoSteps(w, steps, w1, Next(w1, steps[1]));
    var rs := w.disk.journal[2..];
    assert rs[..0] == [] && rs[0].op == GC(h);
    assert ApplyAll(w.disk.db, rs) == ApplyAt(w.disk.db, rs[0], rs[0].time);
  }

  lemma WalkAndSweep(w: World, h: Hash)
    requires w.phase == Idle && w.pass == None && h !in w.disk.db.refs && h in w.disk.blobs
    requires w.now - w.disk.blobs[h].mod >= w.grace
    ensures var steps := [GcWalk, GcOrphans({h})];
            && Legal(w, steps) && h !in Run(w, steps).disk.blobs && Run(w, steps).now == w.now
  {
    hide Legal, Run;
    var steps := [GcWalk, GcOrphans({h})];
    var w1 := Next(w, steps[0]);
    TwoSteps(w, steps, w1, Next(w1, steps[1]));
  }

  lemma SweptThere(w0: World, before: seq<Step>, key: Key, content: Bytes, u: UploadId)
    requires Legal(w0, before)
    requires var w, h := Run(w0, before), Sha256(content);
             && w.phase == Idle && w.pass == None && w.grace > 0 && w.disk.db.uploads == map[] && h !in w.disk.blobs
             && w.disk.db.applied == 2 && |w.disk.journal| == 3 && w.disk.journal[2].op == GC(h)
    ensures var h, w := Sha256(content), Run(w0, before);
            var steps := before + SweptTail(w.grace, key, content, u);
            && Legal(w0, steps) && h !in Run(w0, steps).disk.blobs
            && var held := steps[..|before| + 3];
               && Legal(w0, held) && h in Run(w0, held).disk.blobs
               && PartSlots(Run(w0, held).disk.db.uploads, h) != {} && Run(w0, held).now == Run(w0, steps).now
  {
    hide Legal, Run, Enabled, Next, PartSlots, Recovered;
    var w, h := Run(w0, before), Sha256(content);
    var d, e, f := [NewUpload(u, key), StorePart(u, 1, content)], [Tick(w.grace), Abort(u)], [Crash, Recover];
    PartArrives(w, u, key, content);
    var w1 := Run(w, d);
    WaitAndAbort(w1, u, w.grace);
    var w2 := Run(w1, e);
    CrashAndRecover(w2, h);
    var w3 := Run(w2, f);
    WalkAndSweep(w3, h);
    StillHeld(w0, before, d, w1, w.grace, h);
    hide *;
    RunAppend(w0, before, d);
    RunAppend(w0, before + d, e);
    RunAppend(w0, before + d + e, f);
    RunAppend(w0, before + d + e + f, [GcWalk, GcOrphans({h})]);
    var steps := before + SweptTail(w.grace, key, content, u);
    assert steps == before + d + e + f + [GcWalk, GcOrphans({h})];
    assert steps[..|before| + 3] == before + d + [Tick(w.grace)];
  }

  /**
   Nor does it reach across a recovery that replays a collection. In this run, without any
   rebuild, a part holds a blob until the very moment at which the collector removes the blob as
   an orphan: replay has dropped its record, clock and all, and the file is as old as the part.
   */
  lemma RecoveryForgetsParts(w0: World, bucket: Bytes, key: Key, content: Bytes, u: UploadId)
    requires Init(w0) && w0.grace > 0
    ensures var steps := SweepingRun(w0.grace, bucket, key, content, u);
            var h := Sha256(content);
            && Legal(w0, steps) && h !in Run(w0, steps).disk.blobs
            && Legal(w0, steps[..16])
            && h in Run(w0, steps[..16]).disk.blobs && PartSlots(Run(w0, steps[..16]).disk.db.uploads, h) != {}
            && Run(w0, steps[..16]).now == Run(w0, steps).now
  {
    hide Legal, Run, Init, Enabled, Next, PartSlots, Recovered, Conserved, Sane, Drift, Candidates;
    var h, grace := Sha256(content), w0.grace;
    var a := PutSteps(PutJob(bucket, key, content, NoTag, 0, None)) + DeleteSteps(DeleteJob(bucket, key));
    var b, c := [Tick(grace), GcWalk], [GcCheck(h), GcRemove, GcLog];
    PutThenDelete(w0, bucket, key, content);
    var w1 := Run(w0, a);
    WaitAndWalk(w1, h);
    var w2 := Run(w1, b);
    CollectOneIsARun(w2, h);
    var w3 := Run(w2, c);
    EndOfPass(w3);
    hide *;
    RunAppend(w0, a, b);
    RunAppend(w0, a + b, c);
    RunAppend(w0, a + b + c, [GcOrphans({})]);
    var before := a + b + c + [GcOrphans({})];
    SweptThere(w0, before, key, content, u);
    assert SweepingRun(grace, bucket, key, content, u) == before + SweptTail(grace, key, content, u);
    assert |before| == 13;
  }

  lemma StillHeld(w0: World, a: seq<Step>, b: seq<Step>, w: World, dt: nat, h: Hash)
    requires Legal(w0, a) && Legal(Run(w0, a), b) && Run(Run(w0, a), b) == w
    ensures var steps := a + b + [Tick(dt)];
            Legal(w0, steps) && Run(w0, steps) == w.(now := w.now + dt)
  {
    hide Legal, Run;
    RunAppend(w0, a, b);
    OneStep(w, Tick(dt));
    RunAppend(w0, a + b, [Tick(dt)]);
  }

  lemma OneStep(w: World, s: Step)
    requires Enabled(w, s)
    ensures Legal(w, [s]) && Run(w, [s]) == Next(w, s)
  {
    hide Enabled, Next;
    assert [s][1..] == [];
  }
}
