/**
 The namespaces' counters (internal/index/index.go: applyStats) over whole runs of the store.
 They are kept incrementally, dropped and counted afresh by a rebuild, and never recomputed:
 here is that they always equal a full walk all the same.
 */
module Counters {
  import opened ByteStrings
  import opened Blob
  import opened Index
  import opened Journal
  import opened Apply
  import opened Disk
  import opened Multipart
  import opened Machine

  /** Every object of the store's own namespaces names its content. */
  ghost predicate Hashed(objs: map<Slot, Entry>) {
    forall s :: s in objs && s.ns.scope.StoreScope? ==> objs[s].hash.Some?
  }

  ghost predicate Tidy(d: Db) {
    Exact(d) && Hashed(d.objs)
  }

  lemma SameObjects(a: Db, b: Db)
    requires Tidy(a) && a.objs == b.objs && a.stats == b.stats
    ensures Tidy(b)
  {
    hide Tally;
    forall ns ensures b.StatsOf(ns) == Tally(b.objs, ns) {
      assert a.StatsOf(ns) == Tally(a.objs, ns);
    }
  }

  lemma EmptyIsTidy()
    ensures Tidy(EMPTY_DB)
  {
    Index.CountersAreExact([]);
  }

  lemma ApplyKeepsTidy(d: Db, r: Record, now: Time)
    requires Tidy(d)
    ensures Tidy(ApplyAt(d, r, now))
  {
    ApplyKeepsExact(d, r, now);
    ApplyShape(d, r, now);
    hide ApplyAt, Exact;
  }

  lemma {:induction false} ReplayKeepsTidy(d: Db, rs: seq<Record>)
    requires Tidy(d)
    ensures Tidy(ApplyAll(d, rs))
  {
    hide Tidy, ApplyAt;
    if rs != [] {
      var n := |rs| - 1;
      ReplayKeepsTidy(d, rs[..n]);
      ApplyKeepsTidy(ApplyAll(d, rs[..n]), rs[n], rs[n].time);
    }
  }

  /** A wiped index has no counters where it has no objects, and the agent's are untouched. */
  lemma WipedIsTidy(d: Db)
    requires Tidy(d)
    ensures Tidy(Wiped(d))
  {
    var d' := Wiped(d);
    forall ns ensures d'.StatsOf(ns) == Tally(d'.objs, ns) {
      if ns.scope.StoreScope? {
        assert InNs(d'.objs, ns) == LocalIn(d'.objs, ns) == UnsentIn(d'.objs, ns) == {};
      } else {
        assert d.StatsOf(ns) == Tally(d.objs, ns);
        TallyElsewhere(d.objs, d'.objs, ns);
      }
    }
  }

  lemma RecoverKeepsTidy(d: Disk)
    requires Tidy(d.db)
    ensures Tidy(Recovered(d).db)
  {
    hide Tidy, ApplyAll;
    if d.db.applied < |d.journal| { ReplayKeepsTidy(d.db, d.journal[d.db.applied..]); }
  }

  /** A rebuild counts every object once. */
  lemma RebuildKeepsTidy(d: Disk)
    requires Tidy(d.db)
    ensures Tidy(Rebuilt(d).db)
  {
    hide Tidy, ApplyAll, Wiped;
    WipedIsTidy(d.db);
    ReplayKeepsTidy(Wiped(d.db), d.journal);
  }

  lemma UploadsKeepTidy(w: World, s: Step)
    requires Tidy(w.disk.db) && Enabled(w, s) && (s.NewUpload? || s.StorePart? || s.Abort?)
    ensures Tidy(Next(w, s).disk.db)
  {
    hide Tidy, Land, Moved, Orphans, Candidates, Recovered, Rebuilt, Completed, ApplyAt, PartsEnd, Holding, HashesOf;
    SameObjects(w.disk.db, Next(w, s).disk.db);
  }

  lemma CompletedKeepsTidy(d: Disk, u: UploadId, content: Bytes, tags: seq<ETag>, mtime: Time, now: Time)
    requires Tidy(d.db) && u in d.db.uploads
    ensures Tidy(Completed(d, u, content, tags, mtime, now).db)
  {
    hide Tidy, ApplyAt, Land, Moved, Holding, HashesOf, CompletionOp;
    var op := CompletionOp(u, d.db.uploads[u].key, content, tags, mtime);
    var logged := Logged(Landed(d, content, now), op, now);
    var r := logged.journal[|logged.journal| - 1];
    ApplyKeepsTidy(d.db, r, now);
    SameObjects(ApplyAt(d.db, r, now), Completed(d, u, content, tags, mtime, now).db);
  }

  lemma OthersKeepTidy(w: World, s: Step)
    requires Tidy(w.disk.db) && Enabled(w, s)
    requires !s.Complete? && !s.NewUpload? && !s.StorePart? && !s.Abort?
    ensures Tidy(Next(w, s).disk.db)
  {
    hide Tidy, ApplyAt, Land, Recovered, Rebuilt, Orphans, Candidates, PutOp;
    if s.CommitIndex? {
      ApplyKeepsTidy(w.disk.db, w.phase.r, w.now);
    } else if s.Recover? {
      RecoverKeepsTidy(w.disk);
    } else if s.Rebuild? {
      RebuildKeepsTidy(w.disk);
    } else {
      SameObjects(w.disk.db, Next(w, s).disk.db);
    }
  }

  lemma StepKeepsTidy(w: World, s: Step)
    requires Tidy(w.disk.db) && Enabled(w, s)
    ensures Tidy(Next(w, s).disk.db)
  {
    hide Tidy, Completed;
    if s.Complete? {
      var parts := w.disk.db.uploads[s.u].parts;
      var got := Assembled(w.disk.blobs, parts, s.wants).value;
      CompletedKeepsTidy(w.disk, s.u, got.0, got.1, s.mtime, w.now);
    } else if s.NewUpload? || s.StorePart? || s.Abort? {
      UploadsKeepTidy(w, s);
    } else {
      OthersKeepTidy(w, s);
    }
  }

  lemma {:induction false} RunKeepsTidy(w: World, steps: seq<Step>)
    requires Tidy(w.disk.db) && Legal(w, steps)
    ensures Tidy(Run(w, steps).disk.db)
    decreases |steps|
  {
    hide Tidy, Next, Enabled;
    if steps != [] {
      StepKeepsTidy(w, steps[0]);
      RunKeepsTidy(Next(w, steps[0]), steps[1..]);
    }
  }

  lemma ReachableIsTidy(w: World)
    requires Reachable(w)
    ensures Tidy(w.disk.db)
  {
    hide Run, Legal, Tidy;
    var w0, steps :| Init(w0) && Legal(w0, steps) && Run(w0, steps) == w;
    EmptyIsTidy();
    RunKeepsTidy(w0, steps);
  }

  /**
   In every reachable state, after recovery and after a rebuild too, each namespace's six
   counters are what a walk over it would find; for a bucket the first is its number of keys.
   */
  lemma CountersMatchTheWalk(w: World, ns: Ns)
    requires Reachable(w)
    ensures w.disk.db.StatsOf(ns) == Tally(w.disk.db.objs, ns)
    ensures Recovered(w.disk).db.StatsOf(ns) == Tally(Recovered(w.disk).db.objs, ns)
    ensures Rebuilt(w.disk).db.StatsOf(ns) == Tally(Rebuilt(w.disk).db.objs, ns)
    ensures ns.scope.StoreScope? ==> w.disk.db.StatsOf(ns).objects == |set s | s in ViewOf(w.disk.db) && s.ns == ns|
  {
    ReachableIsTidy(w);
    RecoverKeepsTidy(w.disk);
    RebuildKeepsTidy(w.disk);
    hide Reachable, Recovered, Rebuilt;
    if ns.scope.StoreScope? {
      assert InNs(w.disk.db.objs, ns) == set s | s in ViewOf(w.disk.db) && s.ns == ns;
    }
  }
}
