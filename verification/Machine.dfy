/**
 The whole store as a machine that can stop at any moment.

 One client mutation runs at a time, and a crash may fall between any two of its sub-steps.
 Whole client operations may run between the collector's walk and its re-check of each
 candidate; re-check, removal and journal record are not interleaved with clients, but a crash
 may separate them. Multipart calls are single steps, and a crash finds no upload open that
 recovery could do harm to.
 */
module Machine {
  import opened Wrappers
  import opened ByteStrings
  import opened Blob
  import opened Index
  import opened Journal
  import opened Apply
  import opened Disk
  import opened Grace
  import opened Multipart

  /** What a client asked for. */
  datatype Job =
    | PutJob(bucket: Bytes, key: Key, content: Bytes, etag: ETag, mtime: Time, declared: Option<Hash>)
    | DeleteJob(bucket: Bytes, key: Key)
  {
    function Slot(): Index.Slot { At(bucket, key) }

    /** The bytes the key should read back once the job has taken effect. */
    function Effect(): Option<Bytes> {
      if PutJob? then Some(content) else None
    }

    /** And what the index should say of it: hash, tag, size and modification time. */
    function Result(): Option<Obj> {
      if DeleteJob? then None
      else if etag == NoTag then Some(Obj(Sha256(content), Md5(content), |content|, mtime))
      else Some(Obj(Sha256(content), etag, |content|, mtime))
    }
  }

  /** Where the one mutation in progress, or the collector, stands. */
  datatype Phase =
    | Idle
    | Sent(job: Job)            // issued; nothing durable yet
    | BlobDurable(op: Op)       // the content is on disk
    | JournalDurable(r: Record) // the record is on disk, the index does not know it
    | GcDropped(h: Hash)        // the reference record is gone, the blob is not
    | GcRemoved(h: Hash)        // the blob is gone, the journal does not know it
    | Down

  /** A collection pass: its idea of the time, and the candidates it has yet to re-check. */
  datatype Pass = Pass(at: Time, todo: set<Hash>)

  datatype World = World(
    disk: Disk, now: Time, grace: Time, phase: Phase, pass: Option<Pass>,
    issued: seq<Job>,       // every mutation a client asked for, in order
    took: set<nat>,         // those whose effect is durable
    shown: set<nat>,        // those whose effect the index shows
    acked: set<nat>,        // those the client was told had succeeded
    ends: map<Hash, Time>)  // when a part slot last let go of a blob

  datatype Step =
    | Tick(dt: nat)
    | Issue(job: Job)
    | StoreBlob
    | WriteJournal
    | CommitIndex
    | GcWalk
    | GcCheck(h: Hash)
    | GcRemove
    | GcLog
    | GcOrphans(victims: set<Hash>)
    | Crash
    | Recover
    | Rebuild
    | NewUpload(u: UploadId, key: Key)
    | StorePart(u: UploadId, n: nat, content: Bytes)
    | Complete(u: UploadId, wants: seq<Want>, mtime: Time)
    | Abort(u: UploadId)

  function Candidates(db: Db, at: Time, grace: Time): set<Hash> {
    set h | h in db.refs && db.refs[h].Collectable(at, grace)
  }

  /** Blobs old enough that no reference record mentions at all. */
  function Orphans(d: Disk, at: Time, grace: Time): set<Hash> {
    set h | h in d.blobs && at - d.blobs[h].mod >= grace && h !in d.db.refs
  }

  function PutOp(j: Job): Op
    requires j.PutJob?
  {
    Op.Put(j.bucket, j.key, Sha256(j.content), if j.etag == NoTag then Md5(j.content) else j.etag,
           |j.content|, j.mtime)
  }

  predicate Enabled(w: World, s: Step) {
    match s
    case Tick(_) => true
    case Issue(_) => w.phase.Idle?
    case StoreBlob => w.phase.Sent? && w.phase.job.PutJob?
    case WriteJournal => w.phase.BlobDurable? || (w.phase.Sent? && w.phase.job.DeleteJob?)
    case CommitIndex => w.phase.JournalDurable?
    case GcWalk => w.phase.Idle? && w.pass.None?
    case GcCheck(h) => w.phase.Idle? && w.pass.Some? && h in w.pass.value.todo
    case GcRemove => w.phase.GcDropped?
    case GcLog => w.phase.GcRemoved?
    case GcOrphans(victims) =>
      w.phase.Idle? && w.pass.Some? && victims <= Orphans(w.disk, w.pass.value.at, w.grace)
    case Crash => Recoverable(w.disk)
    case Recover => w.phase.Down?
    case Rebuild => w.phase.Down? && w.disk.db.uploads == map[]
    case NewUpload(u, _) => w.phase.Idle? && u !in w.disk.db.uploads
    case StorePart(u, n, _) => w.phase.Idle? && u in w.disk.db.uploads && 1 <= n <= MAX_PARTS
    case Complete(u, wants, _) =>
      && w.phase.Idle? && u in w.disk.db.uploads && wants != []
      && Assembled(w.disk.blobs, w.disk.db.uploads[u].parts, wants).Ok?
    case Abort(u) => w.phase.Idle? && u in w.disk.db.uploads
  }

  function LastIssued(w: World): nat {
    if w.issued == [] then 0 else |w.issued| - 1
  }

  /** The moments at which an upload's parts let go. */
  function PartsEnd(ends: map<Hash, Time>, parts: map<nat, Part>, now: Time): map<Hash, Time> {
    ends + map h | h in HashesOf(parts) :: now
  }

  function AfterStoreBlob(w: World): World
    requires Enabled(w, StoreBlob)
  {
    var j := w.phase.job;
    var w := w.(disk := Landed(w.disk, j.content, w.now));
    // A digest the client declared wrongly ends the request; the blob stays for the collector.
    if j.declared.Some? && j.declared.value != Sha256(j.content) then w.(phase := Idle)
    else w.(phase := BlobDurable(PutOp(j)))
  }

  function AfterWriteJournal(w: World): World
    requires Enabled(w, WriteJournal)
  {
    if w.phase.Sent? && w.phase.job.Slot() !in w.disk.db.objs then
      // Deleting what is not there succeeds at once.
      var last := LastIssued(w);
      w.(phase := Idle, took := w.took + {last}, shown := w.shown + {last}, acked := w.acked + {last})
    else
      var op := if w.phase.Sent? then Op.Delete(w.phase.job.bucket, w.phase.job.key) else w.phase.op;
      w.(disk := Logged(w.disk, op, w.now), phase := JournalDurable(NextRecord(w.disk, op, w.now)),
         took := w.took + {LastIssued(w)})
  }

  function AfterGcCheck(w: World, h: Hash): World
    requires Enabled(w, GcCheck(h))
  {
    var p := w.pass.value;
    var w' := w.(pass := Some(p.(todo := p.todo - {h})));
    if h in w.disk.db.refs && w.disk.db.refs[h].Collectable(p.at, w.grace)
    then w'.(disk := w.disk.(db := w.disk.db.DropRef(h)), phase := GcDropped(h))
    else w'
  }

  function AfterStorePart(w: World, u: UploadId, n: nat, content: Bytes): World
    requires Enabled(w, StorePart(u, n, content))
  {
    var prev := PartHash(w.disk.db, u, n);
    w.(disk := PartStored(w.disk, u, n, content, w.now),
       ends := if prev.Some? then w.ends[prev.value := w.now] else w.ends)
  }

  function AfterComplete(w: World, u: UploadId, wants: seq<Want>, mtime: Time): World
    requires Enabled(w, Complete(u, wants, mtime))
  {
    var up := w.disk.db.uploads[u];
    var got := Assembled(w.disk.blobs, up.parts, wants).value;
    var mine := |w.issued|;
    w.(disk := Completed(w.disk, u, got.0, got.1, mtime, w.now),
       ends := PartsEnd(w.ends, up.parts, w.now),
       issued := w.issued + [PutJob(u.bucket, up.key, got.0, Md5OfParts(got.1), mtime, None)],
       took := w.took + {mine}, shown := w.shown + {mine}, acked := w.acked + {mine})
  }

  function Next(w: World, s: Step): World
    requires Enabled(w, s)
  {
    match s
    case Tick(dt) => w.(now := w.now + dt)
    case Issue(job) => w.(issued := w.issued + [job], phase := Sent(job))
    case StoreBlob => AfterStoreBlob(w)
    case WriteJournal => AfterWriteJournal(w)
    case CommitIndex =>
      w.(disk := Committed(w.disk, w.phase.r, w.now), phase := Idle,
         shown := w.took, acked := w.acked + {LastIssued(w)})
    case GcWalk => w.(pass := Some(Pass(w.now, Candidates(w.disk.db, w.now, w.grace))))
    case GcCheck(h) => AfterGcCheck(w, h)
    case GcRemove => w.(disk := w.disk.(blobs := w.disk.blobs - {w.phase.h}), phase := GcRemoved(w.phase.h))
    case GcLog => w.(disk := Logged(w.disk, Op.GC(w.phase.h), w.now), phase := Idle)
    case GcOrphans(victims) => w.(disk := w.disk.(blobs := w.disk.blobs - victims), pass := None)
    case Crash => w.(phase := Down, pass := None)
    case Recover => w.(disk := Recovered(w.disk), phase := Idle, shown := w.took)
    case Rebuild => w.(disk := Rebuilt(w.disk), phase := Idle, shown := w.took)
    case NewUpload(u, key) => w.(disk := Begun(w.disk, u, key))
    case StorePart(u, n, content) => AfterStorePart(w, u, n, content)
    case Complete(u, wants, mtime) => AfterComplete(w, u, wants, mtime)
    case Abort(u) =>
      w.(disk := Aborted(w.disk, u, w.now), ends := PartsEnd(w.ends, w.disk.db.uploads[u].parts, w.now))
  }

  // ------------------------------------------------------------ invariant

  function EffectOf(op: Op): Option<Obj> {
    if op.Put? then Some(Obj(op.hash, op.etag, op.size, op.mtime)) else None
  }

  /** The operation is the one the last issued job asks for. */
  ghost predicate Carries(w: World, op: Op) {
    && w.issued != [] && !op.GC?
    && var j := w.issued[|w.issued| - 1];
       Target(op) == Some(j.Slot()) && EffectOf(op) == j.Result()
  }

  /** The index stands for the whole journal and shows every request that took effect. */
  ghost predicate Settled(w: World) {
    CaughtUp(w.disk) && w.shown == w.took
  }

  /** What each phase says of the disk; outside a mutation everything is settled. */
  ghost predicate Phased(w: World) {
    match w.phase
    case Idle => Settled(w)
    case Sent(job) => Settled(w) && w.issued != [] && w.issued[|w.issued| - 1] == job
    case BlobDurable(op) => Settled(w) && op.Put? && op.hash in w.disk.blobs && Carries(w, op)
    case JournalDurable(r) =>
      && OneAhead(w.disk) && w.disk.journal[|w.disk.journal| - 1] == r
      && Carries(w, r.op) && LastIssued(w) in w.took && Serving(w)
    case GcDropped(h) => Settled(w) && h !in w.disk.db.refs
    case GcRemoved(h) => Settled(w) && h !in w.disk.db.refs
    case Down => w.pass == None && Recoverable(w.disk) && (CaughtUp(w.disk) || OneAhead(w.disk))
  }

  /** The last request on s among those in `took`. */
  function LastOn(issued: seq<Job>, took: set<nat>, s: Slot): (j: Option<nat>)
    ensures match j
            case None => forall i :: i in took && i < |issued| ==> issued[i].Slot() != s
            case Some(j) => && j in took && j < |issued| && issued[j].Slot() == s
                            && forall i :: i in took && i < |issued| && issued[i].Slot() == s ==> i <= j
  {
    if issued == [] then None
    else
      var n := |issued| - 1;
      if n in took && issued[n].Slot() == s then Some(n)
      else
        var j := LastOn(issued[..n], took, s);
        assert forall i: nat :: i < n ==> issued[i] == issued[..n][i];
        j
  }

  function ObjAsked(issued: seq<Job>, took: set<nat>, s: Slot): Option<Obj> {
    match LastOn(issued, took, s)
    case None => None
    case Some(j) => issued[j].Result()
  }

  /** Every key's value is what the last request on it in `took` asked for. */
  ghost predicate Explained(v: View, issued: seq<Job>, took: set<nat>) {
    && (forall i :: i in took ==> i < |issued|)
    && forall s :: ObjAt(v, s) == ObjAsked(issued, took, s)
  }

  /** What the index says is what requests asked for, and is on disk: reads may be served. */
  ghost predicate Serving(w: World) {
    && Explained(ViewOf(w.disk.db), w.issued, w.shown)
    && forall s :: s in ViewOf(w.disk.db) ==> ViewOf(w.disk.db)[s].hash in w.disk.blobs
  }

  /** Part slots let go in the past, and before every mutation still to be replayed. */
  ghost predicate EndsPast(w: World) {
    && (forall h :: h in w.ends ==> w.ends[h] <= w.now)
    && forall i, h ::
         w.disk.db.applied <= i < |w.disk.journal| && !w.disk.journal[i].op.GC? && h in w.ends ==>
           w.ends[h] <= w.disk.journal[i].time
  }

  /** The time by which the collector judges, or would if a pass began now. */
  function PassTime(w: World): Time {
    if w.pass.Some? then w.pass.value.at else w.now
  }

  /** What grace stamps promise, and missing records. */
  ghost predicate Timed(w: World) {
    && w.disk.db.applied <= |w.disk.journal|
    && Covers(w.disk.db.refs, w.disk.journal, w.disk.db.applied)
    && Outlived(w.disk.db.refs, w.disk.journal, w.disk.db.applied, w.grace, PassTime(w))
    && GcsWaited(w.disk.journal, w.grace) && EndsPast(w) && PassTime(w) <= w.now
  }

  ghost predicate Inv(w: World) {
    && Sane(w.disk, w.now) && Phased(w) && Timed(w)
    && Explained(Fold(w.disk.journal), w.issued, w.took) && w.acked <= w.shown <= w.took
  }

  ghost predicate Init(w: World) {
    && w.disk == EMPTY_DISK && w.phase == Idle && w.pass == None
    && w.issued == [] && w.took == w.shown == w.acked == {} && w.ends == map[]
  }

  // ------------------------------------------------------- client history

  lemma IssueExplained(v: View, issued: seq<Job>, took: set<nat>, job: Job)
    requires Explained(v, issued, took)
    ensures Explained(v, issued + [job], took)
  {
    assert (issued + [job])[..|issued|] == issued;
  }

  /** A request yet to come makes no difference to those before it. */
  lemma {:induction false} LastOnSoFar(issued: seq<Job>, took: set<nat>, i: nat, s: Slot)
    requires i >= |issued|
    ensures LastOn(issued, took + {i}, s) == LastOn(issued, took, s)
  {
    if issued != [] { LastOnSoFar(issued[..|issued| - 1], took, i, s); }
  }

  /** The request in progress takes effect: where it stands, and everywhere else. */
  lemma TakesEffect(issued: seq<Job>, took: set<nat>, s: Slot)
    requires issued != []
    ensures var last := |issued| - 1;
            ObjAsked(issued, took + {last}, s)
            == if issued[last].Slot() == s then issued[last].Result() else ObjAsked(issued, took, s)
  {
    var last := |issued| - 1;
    LastOnSoFar(issued[..last], took, last, s);
  }

  /** A durable record gives its key the value the request in progress asks for. */
  lemma WriteExplained(v: View, issued: seq<Job>, took: set<nat>, op: Op)
    requires Explained(v, issued, took) && issued != [] && !op.GC?
    requires var j := issued[|issued| - 1]; Target(op) == Some(j.Slot()) && EffectOf(op) == j.Result()
    ensures Explained(StepView(v, op), issued, took + {|issued| - 1})
  {
    var last := |issued| - 1;
    forall s ensures ObjAt(StepView(v, op), s) == ObjAsked(issued, took + {last}, s) {
      TakesEffect(issued, took, s);
    }
  }

  /** A request that finds things as it wants them takes effect at once. */
  lemma AckExplained(v: View, issued: seq<Job>, took: set<nat>)
    requires Explained(v, issued, took) && issued != []
    requires var j := issued[|issued| - 1]; ObjAt(v, j.Slot()) == j.Result()
    ensures Explained(v, issued, took + {|issued| - 1})
  {
    var last := |issued| - 1;
    forall s ensures ObjAt(v, s) == ObjAsked(issued, took + {last}, s) {
      TakesEffect(issued, took, s);
    }
  }

  // ------------------------------------------------------ step by step

  lemma QuietKeepsInv(w: World, s: Step)
    requires Inv(w) && Enabled(w, s) && (s.Tick? || s.GcWalk? || s.Crash?)
    ensures Inv(Next(w, s))
  {
    hide Conserved, WellPlaced, ViewOf, Fold, Explained, Covers, Outlived, GcsWaited, Backed, Sound, Orderly;
    hide CaughtUp, OneAhead, Recoverable;
    OutlivedLonger(w.disk.db.refs, w.disk.journal, w.disk.db.applied, w.grace, PassTime(w), PassTime(Next(w, s)));
  }

  lemma IssueKeepsInv(w: World, job: Job)
    requires Inv(w) && Enabled(w, Issue(job))
    ensures Inv(Next(w, Issue(job)))
  {
    hide Sane, Explained, Covers, Outlived, GcsWaited;
    IssueExplained(Fold(w.disk.journal), w.issued, w.took, job);
  }

  lemma StoreBlobKeepsInv(w: World)
    requires Inv(w) && Enabled(w, StoreBlob)
    ensures Inv(Next(w, StoreBlob))
  {
    hide Sane, Explained, Covers, Outlived, GcsWaited, Fold;
    LandIsSane(w.disk, w.phase.job.content, w.now);
  }

  lemma LoggedSteady(w: World, op: Op)
    requires Sane(w.disk, w.now) && CaughtUp(w.disk) && Timed(w)
    requires op.GC? ==> op.hash !in w.disk.db.refs
    ensures var d' := Logged(w.disk, op, w.now);
            Timed(w.(disk := d')) && OneAhead(d') && (op.GC? ==> CaughtUp(d'))
  {
    hide Conserved, WellPlaced, ViewOf, Fold, Covers, Binds, Outlived, GcsWaited, Backed, Sound;
    var d, r := w.disk, NextRecord(w.disk, op, w.now);
    CoversAppend(d.db.refs, d.journal, r, d.db.applied);
    OutlivedAppend(d.db.refs, d.journal, r, d.db.applied, w.grace, PassTime(w));
    if op.GC? { HasWaited(w, op.hash); }
    WaitedAppend(d.journal, r, w.grace);
  }

  /** A blob without a record has been unbound for a grace period: its collection may be logged. */
  lemma HasWaited(w: World, h: Hash)
    requires Timed(w) && CaughtUp(w.disk) && h !in w.disk.db.refs
    ensures var rs := w.disk.journal;
            forall i :: 0 <= i <= |rs| && Binds(Fold(rs[..i]), h) ==> i < |rs| && rs[i].time + w.grace <= w.now
  {
    hide Fold, Binds, Covers, GcsWaited;
    var d := w.disk;
    OutlivedSkipGc(d.db.refs, d.journal, d.db.applied, |d.journal|, w.grace, PassTime(w));
  }

  lemma ServesWhenCaughtUp(w: World)
    requires Sane(w.disk, w.now) && Settled(w) && Explained(Fold(w.disk.journal), w.issued, w.took)
    ensures Serving(w)
  {
    hide Conserved, WellPlaced, Orderly, Timely, Explained, Fold, ViewOf;
    CaughtUpView(w.disk, w.now);
  }

  /** Writing the record of a mutation whose blob is durable. */
  lemma LogKeepsInv(w: World, op: Op)
    requires Inv(w) && Settled(w) && Loggable(w.disk, op) && Carries(w, op)
    ensures Inv(w.(disk := Logged(w.disk, op, w.now), phase := JournalDurable(NextRecord(w.disk, op, w.now)),
                   took := w.took + {LastIssued(w)}))
  {
    hide Sane, Explained, Covers, Outlived, GcsWaited, Loggable, StepView, CaughtUp, OneAhead, Fold, ViewOf, ObjAsked;
    SaneBounds(w.disk, w.now);
    LogIsSane(w.disk, op, w.now);
    LoggedSteady(w, op);
    ServesWhenCaughtUp(w);
    WriteExplained(Fold(w.disk.journal), w.issued, w.took, op);
  }

  lemma SaneBounds(d: Disk, now: Time)
    requires Sane(d, now)
    ensures d.db.applied <= |d.journal| && ViewOf(d.db) == Fold(d.journal[..d.db.applied])
    ensures Orderly(d.journal) && Timely(d.journal, now) && Conserved(d.db) && WellPlaced(d.journal)
  {
  }

  lemma WriteJournalKeepsInv(w: World)
    requires Inv(w) && Enabled(w, WriteJournal)
    ensures Inv(Next(w, WriteJournal))
  {
    hide Sane, Explained, Covers, Outlived, GcsWaited, Logged, CaughtUp, OneAhead;
    if w.phase.BlobDurable? {
      LogKeepsInv(w, w.phase.op);
    } else {
      var job := w.phase.job;
      if job.Slot() !in w.disk.db.objs {
        CaughtUpView(w.disk, w.now);
        AckExplained(Fold(w.disk.journal), w.issued, w.took);
      } else {
        LogKeepsInv(w, Op.Delete(job.bucket, job.key));
      }
    }
  }

  /** Committing the newest record at any later time keeps the promises of the stamps. */
  lemma CommitIsTimed(w: World)
    requires Sane(w.disk, w.now) && OneAhead(w.disk) && !w.disk.journal[|w.disk.journal| - 1].op.GC? && Timed(w)
    ensures var d' := Committed(w.disk, w.disk.journal[|w.disk.journal| - 1], w.now);
            && Timed(w.(disk := d')) && StampsFrom(w.disk.db.refs, d'.db.refs, w.now)
            && w.disk.db.refs.Keys <= d'.db.refs.Keys
  {
    hide Conserved, WellPlaced, ViewOf, Fold, Covers, Outlived, GcsWaited, ApplyAt, StampsFrom, Backed, Sound;
    var d := w.disk;
    var n := |d.journal| - 1;
    var r := d.journal[n];
    var db := ApplyAt(d.db, r, w.now);
    CommitIsSane(d, w.now);
    CoversSkipGc(d.db.refs, d.journal, d.db.applied, n);
    OutlivedSkipGc(d.db.refs, d.journal, d.db.applied, n, w.grace, PassTime(w));
    ApplyStamps(d.db, r, w.now);
    ApplyShape(d.db, r, w.now);
    assert d.journal[..n + 1] == d.journal;
    CoversOneMore(d.db.refs, db, d.journal, n, w.now);
    forall h | h in d.db.refs ensures h in db.refs {
      ApplyDrops(d.db, r, w.now, h);
    }
    OutlivedOneMore(d.db, db, d.journal, n, w.grace, PassTime(w));
  }

  lemma CommitKeepsInv(w: World)
    requires Inv(w) && Enabled(w, CommitIndex)
    ensures Inv(Next(w, CommitIndex))
  {
    hide Sane, Explained, Covers, Outlived, GcsWaited, StampsFrom, Fold, ApplyAt, CaughtUp, OneAhead, ObjAsked;
    CommitIsSane(w.disk, w.now);
    CommitIsTimed(w);
  }

  /** Dropping a record whose grace period is over keeps both promises. */
  lemma DropIsTimed(refs: Refs, gone: Hash, rs: seq<Record>, n: nat, grace: Time, limit: Time)
    requires n <= |rs| && Covers(refs, rs, n) && Outlived(refs, rs, n, grace, limit)
    requires Stamped(refs, gone) && StampOf(refs, gone) + grace <= limit
    ensures Covers(refs - {gone}, rs, n) && Outlived(refs - {gone}, rs, n, grace, limit)
  {
    hide Binds, Fold;
    forall h, i | Stamped(refs - {gone}, h) && 0 <= i <= n && Binds(Fold(rs[..i]), h)
      ensures i < n && rs[i].time <= StampOf(refs - {gone}, h)
    {
      assert Stamped(refs, h) && StampOf(refs, h) == StampOf(refs - {gone}, h);
    }
    forall h, i | h !in refs - {gone} && 0 <= i <= n && Binds(Fold(rs[..i]), h)
      ensures i < n && rs[i].time + grace <= limit
    {
      if h == gone { assert rs[i].time <= StampOf(refs, gone); }
    }
  }

  lemma GcCheckKeepsInv(w: World, h: Hash)
    requires Inv(w) && Enabled(w, GcCheck(h))
    ensures Inv(Next(w, GcCheck(h)))
  {
    hide Sane, Explained, Fold, CaughtUp, Covers, Outlived, GcsWaited;
    if h in w.disk.db.refs && w.disk.db.refs[h].Collectable(w.pass.value.at, w.grace) {
      DropIsSane(w.disk, w.now, h);
      DropIsTimed(w.disk.db.refs, h, w.disk.journal, w.disk.db.applied, w.grace, w.pass.value.at);
    }
  }

  lemma GcRemoveKeepsInv(w: World)
    requires Inv(w) && Enabled(w, GcRemove)
    ensures Inv(Next(w, GcRemove))
  {
    hide Sane, Explained, Covers, Outlived, GcsWaited, Fold, Binds;
    UncountedIsUnheld(w.disk, w.now, w.phase.h);
    RemoveIsSane(w.disk, {w.phase.h}, w.now);
  }

  lemma GcLogKeepsInv(w: World)
    requires Inv(w) && Enabled(w, GcLog)
    ensures Inv(Next(w, GcLog))
  {
    hide Sane, Explained, Covers, Outlived, GcsWaited, Binds, CaughtUp, OneAhead, Fold;
    var op := Op.GC(w.phase.h);
    UncountedIsUnheld(w.disk, w.now, w.phase.h);
    LogIsSane(w.disk, op, w.now);
    LoggedSteady(w, op);
  }

  lemma GcOrphansKeepsInv(w: World, victims: set<Hash>)
    requires Inv(w) && Enabled(w, GcOrphans(victims))
    ensures Inv(Next(w, GcOrphans(victims)))
  {
    hide Sane, Explained, Covers, Outlived, GcsWaited, Fold, Binds;
    forall h | h in victims
      ensures !Binds(Fold(w.disk.journal), h) && PartSlots(w.disk.db.uploads, h) == {}
    {
      UncountedIsUnheld(w.disk, w.now, h);
    }
    RemoveIsSane(w.disk, victims, w.now);
    OutlivedLonger(w.disk.db.refs, w.disk.journal, w.disk.db.applied, w.grace, PassTime(w), w.now);
  }

  /** Replay from any point the index stands for keeps what stamps and missing records promise. */
  lemma ReplayIsTimed(w: World, start: Db)
    requires Sane(w.disk, w.now) && Timed(w) && w.pass == None && start.applied <= |w.disk.journal|
    requires ViewOf(start) == Fold(w.disk.journal[..start.applied]) && Conserved(start)
    requires start.uploads == w.disk.db.uploads
    requires PartsSpared(start.uploads, w.disk.journal, start.applied, |w.disk.journal|)
    requires Covers(start.refs, w.disk.journal, start.applied)
    requires Outlived(start.refs, w.disk.journal, start.applied, w.grace, w.now)
    ensures Timed(w.(disk := w.disk.(db := ApplyAll(start, w.disk.journal[start.applied..]))))
  {
    hide Fold, ApplyAll, ViewOf, Conserved, Orderly, WellPlaced, Covers, Outlived, GcsWaited, Backed, Sound, PartsSpared;
    var rs := w.disk.journal;
    assert rs[start.applied..|rs|] == rs[start.applied..];
    ReplaySane(w.disk, start, w.now);
    CoversReplay(start, rs, start.applied, |rs|);
    OutlivedReplay(start, rs, start.applied, |rs|, w.grace, w.now);
  }

  lemma RecoverKeepsInv(w: World)
    requires Inv(w) && Enabled(w, Recover)
    ensures Inv(Next(w, Recover))
  {
    hide Sane, Explained, Covers, Outlived, GcsWaited, Fold, ApplyAll, CaughtUp, OneAhead, ViewOf, Conserved, PartsSpared;
    RecoverIsSane(w.disk, w.now);
    SaneBounds(w.disk, w.now);
    if w.disk.db.applied < |w.disk.journal| { ReplayIsTimed(w, w.disk.db); }
  }

  lemma RebuildKeepsInv(w: World)
    requires Inv(w) && Enabled(w, Rebuild)
    ensures Inv(Next(w, Rebuild))
  {
    hide Sane, Explained, Fold, ApplyAll, CaughtUp, OneAhead, ViewOf, Conserved, GcsWaited, PartsSpared;
    var d := w.disk;
    var start := Wiped(d.db);
    RebuildIsSane(d, w.now);
    WipedIsEmpty(d.db);
    FoldOfNothing();
    NoPartsToSpare(d.journal, 0, |d.journal|);
    assert d.journal[..0] == [] && d.journal[0..] == d.journal;
    NothingBinds();
    ReplayIsTimed(w, start);
  }

  lemma NothingBinds()
    ensures forall h :: !Binds(map[], h)
  {
  }

  // ----------------------------------------------------------- uploads

  lemma NewUploadKeepsInv(w: World, u: UploadId, key: Key)
    requires Inv(w) && Enabled(w, NewUpload(u, key))
    ensures Inv(Next(w, NewUpload(u, key)))
  {
    hide Sane, Explained, Covers, Outlived, GcsWaited, Fold;
    BegunIsSane(w.disk, u, key, w.now);
  }

  /** Index changes of an upload call, with the blobs it lets go of noted in `let`. */
  lemma UploadIsTimed(w: World, d': Disk, free: set<Hash>, ends: map<Hash, Time>)
    requires Sane(w.disk, w.now) && Timed(w) && CaughtUp(w.disk) && Sane(d', w.now)
    requires d'.journal == w.disk.journal && d'.db.applied == w.disk.db.applied && d'.db.objs == w.disk.db.objs
    requires StampsFrom(w.disk.db.refs, d'.db.refs, w.now) && w.disk.db.refs.Keys <= d'.db.refs.Keys
    requires ends == w.ends + map h | h in free :: w.now
    ensures Timed(w.(disk := d', ends := ends)) && CaughtUp(d')
  {
    hide Covers, ViewOfObjs, Fold, Binds, GcsWaited, Conserved, Backed, Sound, WellPlaced, Orderly;
    CoversSameView(w.disk.db.refs, d'.db, d'.journal, d'.db.applied, w.now);
  }

  lemma StorePartKeepsInv(w: World, u: UploadId, n: nat, content: Bytes)
    requires Inv(w) && Enabled(w, StorePart(u, n, content))
    ensures Inv(Next(w, StorePart(u, n, content)))
  {
    hide Sane, Explained, Covers, Outlived, GcsWaited, Fold, Timed, PartStored, StampsFrom, CaughtUp, WithPart, PartRefs;
    var d' := PartStored(w.disk, u, n, content, w.now);
    PartStoredIsSane(w.disk, u, n, content, w.now);
    PartStoredShape(w.disk, u, n, content, w.now);
    var prev := PartHash(w.disk.db, u, n);
    var free := if prev.Some? then {prev.value} else {};
    var ends := if prev.Some? then w.ends[prev.value := w.now] else w.ends;
    assert ends == w.ends + map h | h in free :: w.now;
    UploadIsTimed(w, d', free, ends);
  }

  lemma AbortKeepsInv(w: World, u: UploadId)
    requires Inv(w) && Enabled(w, Abort(u))
    ensures Inv(Next(w, Abort(u)))
  {
    hide Sane, Explained, Covers, Outlived, GcsWaited, Fold, Timed, StampsFrom, CaughtUp, PartSlots;
    DiscardIsSane(w.disk, u, w.now);
    UploadIsTimed(w, Aborted(w.disk, u, w.now), HashesOf(w.disk.db.uploads[u].parts),
                  PartsEnd(w.ends, w.disk.db.uploads[u].parts, w.now));
  }

  /** A completion is a whole put, issued and acknowledged, followed by an abort of the upload. */
  function AsPut(w: World, u: UploadId, wants: seq<Want>, mtime: Time): seq<Step>
    requires Enabled(w, Complete(u, wants, mtime))
  {
    var up := w.disk.db.uploads[u];
    var got := Assembled(w.disk.blobs, up.parts, wants).value;
    [Issue(PutJob(u.bucket, up.key, got.0, Md5OfParts(got.1), mtime, None)),
     StoreBlob, WriteJournal, CommitIndex, Abort(u)]
  }

  lemma CompleteIsFive(w: World, u: UploadId, wants: seq<Want>, mtime: Time)
    requires Enabled(w, Complete(u, wants, mtime)) && w.shown == w.took
    ensures var s := AsPut(w, u, wants, mtime);
            && Enabled(w, s[0]) && var w1 := Next(w, s[0]);
               Enabled(w1, s[1]) && var w2 := Next(w1, s[1]);
               Enabled(w2, s[2]) && var w3 := Next(w2, s[2]);
               Enabled(w3, s[3]) && var w4 := Next(w3, s[3]);
               Enabled(w4, s[4]) && Next(w4, s[4]) == Next(w, Complete(u, wants, mtime))
  {
    hide Logged, Committed, Discarded, Assembled, PartsEnd, Land, ApplyAll, Begun, PartStored, Orphans, Candidates, Wiped;
    var w2 := Next(Next(w, AsPut(w, u, wants, mtime)[0]), StoreBlob);
    var w3 := Next(w2, WriteJournal);
    LogAppends(w2.disk, w2.phase.op, w2.now);
    CommitLeavesUploads(w3.disk, w3.phase.r, w3.now);
  }

  lemma CompleteKeepsInv(w: World, u: UploadId, wants: seq<Want>, mtime: Time)
    requires Inv(w) && Enabled(w, Complete(u, wants, mtime))
    ensures Inv(Next(w, Complete(u, wants, mtime)))
  {
    IdleIsSettled(w);
    CompleteIsFive(w, u, wants, mtime);
    hide Inv, Enabled, Next;
    var steps := AsPut(w, u, wants, mtime);
    IssueKeepsInv(w, steps[0].job);
    var w1 := Next(w, steps[0]);
    StoreBlobKeepsInv(w1);
    var w2 := Next(w1, StoreBlob);
    WriteJournalKeepsInv(w2);
    var w3 := Next(w2, WriteJournal);
    CommitKeepsInv(w3);
    AbortKeepsInv(Next(w3, CommitIndex), u);
  }

  lemma IdleIsSettled(w: World)
    requires Inv(w) && w.phase.Idle?
    ensures w.shown == w.took && CaughtUp(w.disk) && w.acked <= w.took
  {
  }

  lemma CommitLeavesUploads(d: Disk, r: Record, now: Time)
    ensures Committed(d, r, now).db.uploads == d.db.uploads
  {
    ApplyShape(d.db, r, now);
  }

  lemma LogAppends(d: Disk, op: Op, now: Time)
    ensures var d' := Logged(d, op, now);
            d'.journal != [] && d'.journal[|d'.journal| - 1] == NextRecord(d, op, now) && d'.db == d.db
  {
  }

  // --------------------------------------------------------------- runs

  lemma StepKeepsInv(w: World, s: Step)
    requires Inv(w) && Enabled(w, s)
    ensures Inv(Next(w, s))
  {
    hide *;
    match s
    case Tick(dt) => QuietKeepsInv(w, s);
    case Issue(job) => IssueKeepsInv(w, job);
    case StoreBlob => StoreBlobKeepsInv(w);
    case WriteJournal => WriteJournalKeepsInv(w);
    case CommitIndex => CommitKeepsInv(w);
    case GcWalk => QuietKeepsInv(w, s);
    case GcCheck(h) => GcCheckKeepsInv(w, h);
    case GcRemove => GcRemoveKeepsInv(w);
    case GcLog => GcLogKeepsInv(w);
    case GcOrphans(victims) => GcOrphansKeepsInv(w, victims);
    case Crash => QuietKeepsInv(w, s);
    case Recover => RecoverKeepsInv(w);
    case Rebuild => RebuildKeepsInv(w);
    case NewUpload(u, key) => NewUploadKeepsInv(w, u, key);
    case StorePart(u, n, content) => StorePartKeepsInv(w, u, n, content);
    case Complete(u, wants, mtime) => CompleteKeepsInv(w, u, wants, mtime);
    case Abort(u) => AbortKeepsInv(w, u);
  }

  /** A run: each step enabled in the state the ones before it lead to. */
  predicate Legal(w: World, steps: seq<Step>)
    decreases |steps|
  {
    steps == [] || (Enabled(w, steps[0]) && Legal(Next(w, steps[0]), steps[1..]))
  }

  function Run(w: World, steps: seq<Step>): World
    requires Legal(w, steps)
    decreases |steps|
  {
    if steps == [] then w else Run(Next(w, steps[0]), steps[1..])
  }

  lemma TwoSteps(w: World, steps: seq<Step>, w1: World, w2: World)
    requires |steps| == 2
    requires Enabled(w, steps[0]) && w1 == Next(w, steps[0]) && Enabled(w1, steps[1]) && w2 == Next(w1, steps[1])
    ensures Legal(w, steps) && Run(w, steps) == w2
  {
    hide Enabled, Next;
    assert steps[1..][1..] == [];
    assert Legal(w1, steps[1..]) && Run(w1, steps[1..]) == w2;
  }

  lemma ThreeSteps(w: World, steps: seq<Step>, w1: World, w2: World, w3: World)
    requires |steps| == 3
    requires Enabled(w, steps[0]) && w1 == Next(w, steps[0]) && Enabled(w1, steps[1]) && w2 == Next(w1, steps[1])
    requires Enabled(w2, steps[2]) && w3 == Next(w2, steps[2])
    ensures Legal(w, steps) && Run(w, steps) == w3
  {
    hide Enabled, Next;
    assert steps[1..][1..] == steps[2..] && steps[2..][1..] == [];
    assert Legal(w2, steps[2..]) && Run(w2, steps[2..]) == w3;
    assert Legal(w1, steps[1..]) && Run(w1, steps[1..]) == w3;
  }

  lemma FourSteps(w: World, steps: seq<Step>, w1: World, w2: World, w3: World, w4: World)
    requires |steps| == 4
    requires Enabled(w, steps[0]) && w1 == Next(w, steps[0]) && Enabled(w1, steps[1]) && w2 == Next(w1, steps[1])
    requires Enabled(w2, steps[2]) && w3 == Next(w2, steps[2]) && Enabled(w3, steps[3]) && w4 == Next(w3, steps[3])
    ensures Legal(w, steps) && Run(w, steps) == w4
  {
    hide Enabled, Next;
    assert steps[1..][1..] == steps[2..] && steps[2..][1..] == steps[3..] && steps[3..][1..] == [];
    assert Legal(w3, steps[3..]) && Run(w3, steps[3..]) == w4;
    assert Legal(w2, steps[2..]) && Run(w2, steps[2..]) == w4;
    assert Legal(w1, steps[1..]) && Run(w1, steps[1..]) == w4;
  }

  lemma {:induction false} RunKeepsInv(w: World, steps: seq<Step>)
    requires Inv(w) && Legal(w, steps)
    ensures Inv(Run(w, steps))
    decreases |steps|
  {
    hide Inv, Next, Enabled;
    if steps != [] {
      StepKeepsInv(w, steps[0]);
      RunKeepsInv(Next(w, steps[0]), steps[1..]);
    }
  }

  lemma InitHasInv(w: World)
    requires Init(w)
    ensures Inv(w)
  {
    assert Conserved(EMPTY_DB) by {
      forall h ensures Drift(EMPTY_DB, h) == 0 {
        assert Holders(map[], h) == {} && PartSlots(map[], h) == {};
      }
    }
    FoldOfNothing();
  }

  /** Every state a store can get into, from empty, through any steps and crashes. */
  ghost predicate Reachable(w: World) {
    exists w0, steps :: Init(w0) && Legal(w0, steps) && Run(w0, steps) == w
  }

  lemma ReachableHasInv(w: World)
    requires Reachable(w)
    ensures Inv(w)
  {
    hide Inv, Run, Legal, Init;
    var w0, steps :| Init(w0) && Legal(w0, steps) && Run(w0, steps) == w;
    InitHasInv(w0);
    RunKeepsInv(w0, steps);
  }

  // --------------------------------------------------------- main results

  /** No moment, crash included, finds the durable journal naming a blob that is not on disk. */
  lemma BoundBlobsAreOnDisk(w: World, s: Slot)
    requires Reachable(w) && s in Fold(w.disk.journal)
    ensures var h := Fold(w.disk.journal)[s].hash;
            h in w.disk.blobs && Sha256(w.disk.blobs[h].content) == h
  {
    ReachableHasInv(w);
    hide Conserved, WellPlaced, Orderly, Timely, Explained, Timed, Phased, ViewOf, Fold;
  }

  /** Between a crash and the end of recovery nothing is served; at every other moment reads may be. */
  lemma UpIsServing(w: World)
    requires Inv(w) && !w.phase.Down?
    ensures Serving(w)
  {
    hide Sane, Explained, Serving, Timed, Fold, CaughtUp, OneAhead;
    if !w.phase.JournalDurable? { ServesWhenCaughtUp(w); }
  }

  /** What the last request on s that the index shows asked for; None if there is none. */
  function Asked(w: World, s: Slot): Option<Bytes> {
    match LastOn(w.issued, w.shown, s)
    case None => None
    case Some(j) => w.issued[j].Effect()
  }

  lemma ReadsFollowSource(w: World, s: Slot)
    requires Inv(w) && !w.phase.Down?
    ensures ReadBack(w.disk, s) == Asked(w, s)
    ensures ObjAt(ViewOf(w.disk.db), s) == ObjAsked(w.issued, w.shown, s)
  {
    UpIsServing(w);
    hide Conserved, WellPlaced, Orderly, Timely, Timed, Fold, ViewOf, Phased;
    var v := ViewOf(w.disk.db);
    assert ObjAt(v, s) == ObjAsked(w.issued, w.shown, s);
    if s in v { assert v[s].hash in w.disk.blobs; }
  }

  /**
   Crash safety: at every moment the store is up, in the midst of a mutation or a collection
   too, a key reads back exactly what the last request on it among those shown asked for, and
   the index gives that request's size, tag and modification time. Every acknowledged request
   is shown, and none is shown that did not durably take effect: neither a put refused for its
   digest nor a request a crash cut off before its record.
   */
  lemma ReadsAreExplained(w: World, s: Slot)
    requires Reachable(w) && !w.phase.Down?
    ensures ReadBack(w.disk, s) == Asked(w, s)
    ensures ObjAt(ViewOf(w.disk.db), s) == ObjAsked(w.issued, w.shown, s)
    ensures w.acked <= w.shown <= w.took
  {
    ReachableHasInv(w);
    hide Sane, Timed, Phased, Fold, Explained, Reachable, ReadBack, Asked, ObjAsked, ViewOf;
    ReadsFollowSource(w, s);
  }

  /**
   No acknowledged object is lost: the last request on a key among those shown, once
   acknowledged, is what the key reads back, with its size, tag and time. Later requests that
   were refused, or never became durable, make no difference.
   */
  lemma AcknowledgedIsNeverLost(w: World, i: nat)
    requires Reachable(w) && !w.phase.Down? && i in w.acked && i < |w.issued|
    requires forall j :: j in w.shown && i < j < |w.issued| ==> w.issued[j].Slot() != w.issued[i].Slot()
    ensures var s := w.issued[i].Slot();
            && ReadBack(w.disk, s) == w.issued[i].Effect()
            && ObjAt(ViewOf(w.disk.db), s) == w.issued[i].Result()
  {
    var s := w.issued[i].Slot();
    ReadsAreExplained(w, s);
    hide *;
    assert LastOn(w.issued, w.shown, s) == Some(i);
    AskedOf(w, s, i);
  }

  lemma AskedOf(w: World, s: Slot, i: nat)
    requires i < |w.issued| && LastOn(w.issued, w.shown, s) == Some(i)
    ensures Asked(w, s) == w.issued[i].Effect() && ObjAsked(w.issued, w.shown, s) == w.issued[i].Result()
  {
  }

  /**
   The entry a reader gets: that of the last put on the key, with the later of the committed
   and the pending access time.
   */
  lemma EntriesAreExplained(w: World, i: nat, pending: map<Slot, Time>)
    requires Reachable(w) && !w.phase.Down? && i in w.shown && i < |w.issued| && w.issued[i].PutJob?
    requires forall j :: j in w.shown && i < j < |w.issued| ==> w.issued[j].Slot() != w.issued[i].Slot()
    ensures var job, s := w.issued[i], w.issued[i].Slot();
            && Look(w.disk.db, pending, s).Some?
            && var e := Look(w.disk.db, pending, s).value;
               && e.size == |job.content| && e.mtime == job.mtime && e.hash == Some(Sha256(job.content))
               && e.etag == (if job.etag == NoTag then Md5(job.content) else job.etag)
               && e.atime >= w.disk.db.objs[s].atime && (s in pending ==> e.atime >= pending[s])
               && (e.atime == w.disk.db.objs[s].atime || (s in pending && e.atime == pending[s]))
  {
    var s := w.issued[i].Slot();
    ReadsAreExplained(w, s);
    assert LastOn(w.issued, w.shown, s) == Some(i);
    hide Reachable, LastOn, ReadBack, Asked;
  }

  /** Reference conservation, at every moment, over all buckets and open uploads. */
  lemma CountsAreConserved(w: World, h: Hash)
    requires Reachable(w)
    ensures w.disk.db.Count(h) == Demand(w.disk.db, h) >= 0
    ensures h in w.disk.db.refs ==> (w.disk.db.refs[h].unrefAt.Some? <==> w.disk.db.refs[h].count == 0)
  {
    ReachableHasInv(w);
    hide WellPlaced, Orderly, Timely, Explained, Timed, Phased, ViewOf, Fold;
    assert Drift(w.disk.db, h) == 0;
  }

  /** Replay refines the live path, in any state a crash may leave. */
  lemma ReplayRefinesLivePath(w: World, h: Hash)
    requires Reachable(w) && w.disk.db.uploads == map[]
    ensures ViewOf(Recovered(w.disk).db) == ViewOf(Rebuilt(w.disk).db) == Fold(w.disk.journal)
    ensures Recovered(w.disk).db.Count(h) == Rebuilt(w.disk).db.Count(h)
            == |set s | s in Fold(w.disk.journal) && Fold(w.disk.journal)[s].hash == h|
    ensures w.phase.Idle? ==> ViewOf(w.disk.db) == Fold(w.disk.journal)
                              && w.disk.db.Count(h) == Recovered(w.disk).db.Count(h)
  {
    ReachableHasInv(w);
    hide WellPlaced, Orderly, Timely, Explained, Timed, ViewOf, Fold, Recovered, Rebuilt, Conserved, Backed, Sound;
    RecoverAndRebuildAgree(w.disk, w.now, h);
    if w.phase.Idle? {
      CaughtUpView(w.disk, w.now);
      RecoverIsSane(w.disk, w.now);
      CountsFollowBindings(w.disk.db, Recovered(w.disk).db, h);
    }
  }
}
