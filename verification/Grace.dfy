/**
 The grace clock over time. A reference record that waits for collection is stamped with the
 moment its blob lost its last holder; here is what a stamp promises, and why every change of
 the index keeps the promise.
 */
module Grace {
  import opened Wrappers
  import opened Blob
  import opened Index
  import opened Journal
  import opened Apply
  import opened Disk

  type Refs = map<Hash, Ref>

  predicate Stamped(refs: Refs, h: Hash) {
    h in refs && refs[h].unrefAt.Some?
  }

  function StampOf(refs: Refs, h: Hash): Time
    requires Stamped(refs, h)
  {
    refs[h].unrefAt.value
  }

  /**
   No stamp is earlier than the end of any period in which one of the first n records' folds
   bound a key to the blob: it is unbound now, and each such period ended by the stamp.
   */
  ghost predicate Covers(refs: Refs, rs: seq<Record>, n: nat)
    requires n <= |rs|
  {
    forall h, i :: Stamped(refs, h) && 0 <= i <= n && Binds(Fold(rs[..i]), h) ==>
                     i < n && rs[i].time <= StampOf(refs, h)
  }

  /**
   A blob without a reference record lost its last key, if it ever had one, a whole grace
   period before `limit`.
   */
  ghost predicate Outlived(refs: Refs, rs: seq<Record>, n: nat, grace: Time, limit: Time)
    requires n <= |rs|
  {
    forall h, i :: h !in refs && 0 <= i <= n && Binds(Fold(rs[..i]), h) ==>
                     i < n && rs[i].time + grace <= limit
  }

  /** Each collection record comes a grace period after the blob it names lost its last key. */
  ghost predicate GcsWaited(rs: seq<Record>, grace: Time) {
    forall p, i :: 0 <= i <= p < |rs| && rs[p].op.GC? && Binds(Fold(rs[..i]), rs[p].op.hash) ==>
                     i < p && rs[i].time + grace <= rs[p].time
  }

  /** Every stamp of b was there before, or was set just now. */
  ghost predicate StampsFrom(a: Refs, b: Refs, now: Time) {
    forall h :: Stamped(b, h) ==> StampOf(b, h) == now || (Stamped(a, h) && StampOf(a, h) == StampOf(b, h))
  }

  lemma AdjustStamps(d: Db, h: Hash, delta: int, now: Time)
    ensures StampsFrom(d.refs, d.Adjust(h, delta, now).refs, now)
  {
  }

  lemma StampsCompose(a: Refs, b: Refs, c: Refs, now: Time)
    requires StampsFrom(a, b, now) && StampsFrom(b, c, now)
    ensures StampsFrom(a, c, now)
  {
  }

  lemma MoveRefStamps(d: Db, from: Option<Hash>, to: Option<Hash>, now: Time)
    ensures StampsFrom(d.refs, MoveRef(d, from, to, now).refs, now)
  {
    if from != to {
      var d1 := if from.Some? then d.Adjust(from.value, -1, now) else d;
      if from.Some? { AdjustStamps(d, from.value, -1, now); }
      if to.Some? { AdjustStamps(d1, to.value, 1, now); }
      StampsCompose(d.refs, d1.refs, MoveRef(d, from, to, now).refs, now);
    }
  }

  lemma ApplyStamps(d: Db, r: Record, now: Time)
    ensures StampsFrom(d.refs, ApplyAt(d, r, now).refs, now)
  {
    hide MoveRef;
    match r.op
    case Put(b, k, hash, _, _, _) => MoveRefStamps(d, HashAt(d, At(b, k)), Some(hash), now);
    case Delete(b, k) => MoveRefStamps(d.Delete(At(b, k)), HashAt(d, At(b, k)), None, now);
    case GC(_) =>
  }

  /** In a conserved index a stamped blob is bound to no key. */
  lemma StampedIsUnbound(d: Db, h: Hash)
    requires Conserved(d) && Stamped(d.refs, h)
    ensures !Binds(ViewOf(d), h) && PartSlots(d.uploads, h) == {}
  {
    assert Drift(d, h) == 0;
    BoundHasHolder(d, h);
  }

  /** Collections neither bind nor unbind, so a promise up to them reaches past them. */
  lemma CoversSkipGc(refs: Refs, rs: seq<Record>, from: nat, to: nat)
    requires from <= to <= |rs| && OnlyGc(rs, from, to) && Covers(refs, rs, from)
    ensures Covers(refs, rs, to)
  {
    hide Fold, Binds;
    forall h, i | Stamped(refs, h) && 0 <= i <= to && Binds(Fold(rs[..i]), h)
      ensures i < to && rs[i].time <= StampOf(refs, h)
    {
      if i >= from { GcFoldsToNothing(rs, from, i); }
    }
  }

  /** Folding one more record in, at or after its own time, keeps the promise. */
  lemma CoversOneMore(a: Refs, d: Db, rs: seq<Record>, n: nat, now: Time)
    requires n < |rs| && Orderly(rs) && rs[n].time <= now
    requires Covers(a, rs, n) && StampsFrom(a, d.refs, now)
    requires Conserved(d) && ViewOf(d) == Fold(rs[..n + 1])
    ensures Covers(d.refs, rs, n + 1)
  {
    hide Fold, Binds, ViewOf, Conserved;
    forall h, i | Stamped(d.refs, h) && 0 <= i <= n + 1 && Binds(Fold(rs[..i]), h)
      ensures i < n + 1 && rs[i].time <= StampOf(d.refs, h)
    {
      StampedIsUnbound(d, h);
      assert i <= n && rs[i].time <= rs[n].time;
    }
  }

  /** Changes that bind no key, such as those of uploads, keep it too. */
  lemma CoversSameView(a: Refs, d: Db, rs: seq<Record>, n: nat, now: Time)
    requires n <= |rs| && Timely(rs, now)
    requires Covers(a, rs, n) && StampsFrom(a, d.refs, now)
    requires Conserved(d) && ViewOf(d) == Fold(rs[..n])
    ensures Covers(d.refs, rs, n)
  {
    hide Fold, Binds, ViewOf, Conserved;
    forall h, i | Stamped(d.refs, h) && 0 <= i <= n && Binds(Fold(rs[..i]), h)
      ensures i < n && rs[i].time <= StampOf(d.refs, h)
    {
      StampedIsUnbound(d, h);
      assert i != n;
    }
  }

  /** A later collection record in the journal changes nothing for the records before it. */
  lemma CoversAppend(refs: Refs, rs: seq<Record>, r: Record, n: nat)
    requires n <= |rs| && Covers(refs, rs, n)
    ensures Covers(refs, rs + [r], n)
  {
    hide Fold, Binds;
    forall h, i | Stamped(refs, h) && 0 <= i <= n && Binds(Fold((rs + [r])[..i]), h)
      ensures i < n && (rs + [r])[i].time <= StampOf(refs, h)
    {
      assert (rs + [r])[..i] == rs[..i];
    }
  }

  /** Replay stamps with the records' own times, and keeps the promise record by record. */
  lemma {:induction false} CoversReplay(d: Db, rs: seq<Record>, from: nat, to: nat)
    requires from <= to <= |rs| && Orderly(rs) && WellPlaced(rs)
    requires ViewOf(d) == Fold(rs[..from]) && Conserved(d) && PartsSpared(d.uploads, rs, from, to)
    requires Covers(d.refs, rs, from)
    ensures Covers(ApplyAll(d, rs[from..to]).refs, rs, to)
  {
    hide ApplyAt, ViewOf, Conserved, WellPlaced, Fold, Covers, Orderly;
    if from == to {
      assert rs[from..to] == [];
    } else {
      CoversReplay(d, rs, from, to - 1);
      ReplayReachesFold(d, rs, from, to);
      ReplayConserves(d, rs, from, to);
      assert rs[from..to][..to - 1 - from] == rs[from..to - 1];
      var mid, r := ApplyAll(d, rs[from..to - 1]), rs[to - 1];
      ApplyStamps(mid, r, r.time);
      CoversOneMore(mid.refs, ApplyAt(mid, r, r.time), rs, to - 1, r.time);
    }
  }

  // ----------------------------------------------- blobs without a record

  lemma OutlivedLonger(refs: Refs, rs: seq<Record>, n: nat, grace: Time, limit: Time, later: Time)
    requires n <= |rs| && Outlived(refs, rs, n, grace, limit) && limit <= later
    ensures Outlived(refs, rs, n, grace, later)
  {
    hide Fold, Binds;
  }

  lemma OutlivedSkipGc(refs: Refs, rs: seq<Record>, from: nat, to: nat, grace: Time, limit: Time)
    requires from <= to <= |rs| && OnlyGc(rs, from, to) && Outlived(refs, rs, from, grace, limit)
    ensures Outlived(refs, rs, to, grace, limit)
  {
    hide Fold, Binds;
    forall h, i | h !in refs && 0 <= i <= to && Binds(Fold(rs[..i]), h) ensures i < to && rs[i].time + grace <= limit {
      if i >= from { GcFoldsToNothing(rs, from, i); }
    }
  }

  lemma OutlivedAppend(refs: Refs, rs: seq<Record>, r: Record, n: nat, grace: Time, limit: Time)
    requires n <= |rs| && Outlived(refs, rs, n, grace, limit)
    ensures Outlived(refs, rs + [r], n, grace, limit)
  {
    hide Fold, Binds;
    forall h, i | h !in refs && 0 <= i <= n && Binds(Fold((rs + [r])[..i]), h)
      ensures i < n && (rs + [r])[i].time + grace <= limit
    {
      assert (rs + [r])[..i] == rs[..i];
    }
  }

  /** In a conserved index a bound blob has a record. */
  lemma BoundIsRecorded(d: Db, h: Hash)
    requires Conserved(d) && Binds(ViewOf(d), h)
    ensures h in d.refs
  {
    assert Drift(d, h) == 0;
    BoundHasHolder(d, h);
  }

  /** One more record folded in; a collection record among them has waited. */
  lemma OutlivedOneMore(a: Db, d: Db, rs: seq<Record>, n: nat, grace: Time, limit: Time)
    requires n < |rs| && Outlived(a.refs, rs, n, grace, limit)
    requires Conserved(d) && ViewOf(d) == Fold(rs[..n + 1])
    requires forall h :: h in a.refs && h !in d.refs ==> rs[n].op == GC(h)
    requires rs[n].op.GC? ==> GcsWaited(rs, grace) && rs[n].time <= limit
    ensures Outlived(d.refs, rs, n + 1, grace, limit)
  {
    hide Fold, Binds, ViewOf, Conserved;
    forall h, i | h !in d.refs && 0 <= i <= n + 1 && Binds(Fold(rs[..i]), h)
      ensures i < n + 1 && rs[i].time + grace <= limit
    {
      if i == n + 1 { BoundIsRecorded(d, h); }
    }
  }

  /** A put or a delete drops no reference record, a collection just one. */
  lemma ApplyDrops(d: Db, r: Record, now: Time, h: Hash)
    requires h in d.refs
    ensures h in ApplyAt(d, r, now).refs <==> r.op != GC(h)
  {
  }

  lemma {:induction false} OutlivedReplay(d: Db, rs: seq<Record>, from: nat, to: nat, grace: Time, limit: Time)
    requires from <= to <= |rs| && WellPlaced(rs) && GcsWaited(rs, grace) && Timely(rs, limit)
    requires ViewOf(d) == Fold(rs[..from]) && Conserved(d) && PartsSpared(d.uploads, rs, from, to)
    requires Outlived(d.refs, rs, from, grace, limit)
    ensures Outlived(ApplyAll(d, rs[from..to]).refs, rs, to, grace, limit)
  {
    hide ApplyAt, ViewOf, Conserved, WellPlaced, Fold, Outlived, GcsWaited;
    if from == to {
      assert rs[from..to] == [];
    } else {
      OutlivedReplay(d, rs, from, to - 1, grace, limit);
      ReplayReachesFold(d, rs, from, to);
      ReplayConserves(d, rs, from, to);
      assert rs[from..to][..to - 1 - from] == rs[from..to - 1];
      var mid, r := ApplyAll(d, rs[from..to - 1]), rs[to - 1];
      forall h | h in mid.refs && h !in ApplyAt(mid, r, r.time).refs ensures r.op == GC(h) {
        ApplyDrops(mid, r, r.time, h);
      }
      OutlivedOneMore(mid, ApplyAt(mid, r, r.time), rs, to - 1, grace, limit);
    }
  }

  lemma WaitedAppend(rs: seq<Record>, r: Record, grace: Time)
    requires GcsWaited(rs, grace)
    requires r.op.GC? ==> forall i :: 0 <= i <= |rs| && Binds(Fold(rs[..i]), r.op.hash) ==>
                                        i < |rs| && rs[i].time + grace <= r.time
    ensures GcsWaited(rs + [r], grace)
  {
    hide Fold, Binds;
    var all := rs + [r];
    forall p, i | 0 <= i <= p < |all| && all[p].op.GC? && Binds(Fold(all[..i]), all[p].op.hash)
      ensures i < p && all[i].time + grace <= all[p].time
    {
      assert all[..i] == rs[..i];
    }
  }

  // ------------------------------------------------ moments in time

  /** Some key was bound to h, by the durable journal, at moment t up to now. */
  ghost predicate BoundAt(rs: seq<Record>, now: Time, h: Hash, t: Time) {
    exists i :: 0 <= i <= |rs| && Binds(Fold(rs[..i]), h)
                && (i > 0 ==> rs[i - 1].time <= t) && t <= (if i < |rs| then rs[i].time else now)
  }

  /** What a stamp old enough means: no key was bound to the blob at any moment since. */
  lemma StampedLongAgo(refs: Refs, rs: seq<Record>, now: Time, h: Hash, t: Time)
    requires Covers(refs, rs, |rs|) && Stamped(refs, h) && StampOf(refs, h) < t
    ensures !BoundAt(rs, now, h, t)
  {
    if BoundAt(rs, now, h, t) {
      var i :| 0 <= i <= |rs| && Binds(Fold(rs[..i]), h)
               && (i > 0 ==> rs[i - 1].time <= t) && t <= (if i < |rs| then rs[i].time else now);
      assert false;
    }
  }

  /** And what it means that a blob has no record. */
  lemma UnrecordedLongAgo(refs: Refs, rs: seq<Record>, now: Time, h: Hash, grace: Time, limit: Time, t: Time)
    requires Outlived(refs, rs, |rs|, grace, limit) && h !in refs && t > limit - grace
    ensures !BoundAt(rs, now, h, t)
  {
    hide Fold, Binds;
  }

  // ----------------------------------------------- replay from nothing

  /** What replaying a journal from nothing makes of a blob's reference record. */
  datatype Trace = Unknown | Counted | Since(at: Time)

  ghost function TraceOf(rs: seq<Record>, h: Hash): Trace {
    if rs == [] then Unknown
    else
      var n := |rs| - 1;
      if rs[n].op == GC(h) then Unknown
      else if Binds(Fold(rs), h) then Counted
      else if Binds(Fold(rs[..n]), h) then Since(rs[n].time)
      else TraceOf(rs[..n], h)
  }

  predicate Shows(refs: Refs, h: Hash, t: Trace) {
    match t
    case Unknown => h !in refs
    case Counted => h in refs && refs[h].unrefAt == None
    case Since(at) => h in refs && refs[h].unrefAt == Some(at)
  }

  predicate SameRef(a: Refs, b: Refs, h: Hash) {
    (h in a <==> h in b) && (h in a ==> a[h] == b[h])
  }

  /** A record that neither binds nor unbinds a blob, nor collects it, leaves its reference record alone. */
  lemma ApplyLeavesRef(d: Db, r: Record, now: Time, h: Hash)
    requires r.op != GC(h) && !Binds(ViewOf(d), h) && !Binds(ViewOf(ApplyAt(d, r, now)), h)
    ensures SameRef(d.refs, ApplyAt(d, r, now).refs, h)
  {
    BoundHasHolder(d, h);
    BoundHasHolder(ApplyAt(d, r, now), h);
    if Target(r.op).Some? {
      var s := Target(r.op).value;
      ApplyShape(d, r, now);
      assert s !in Holders(d.objs, h) && s !in Holders(ApplyAt(d, r, now).objs, h);
    }
  }

  lemma UnboundIsStamped(d: Db, h: Hash)
    requires Conserved(d) && d.uploads == map[] && h in d.refs && !Binds(ViewOf(d), h)
    ensures Stamped(d.refs, h)
  {
    assert Drift(d, h) == 0;
    BoundHasHolder(d, h);
    assert PartSlots(d.uploads, h) == {};
  }

  /** What one record does to what a blob's reference record shows. */
  lemma ShowsOneMore(d: Db, rs: seq<Record>, n: nat, h: Hash)
    requires n < |rs| && d.uploads == map[] && Conserved(d) && ViewOf(d) == Fold(rs[..n])
    requires Shows(d.refs, h, TraceOf(rs[..n], h))
    requires var d' := ApplyAt(d, rs[n], rs[n].time); Conserved(d') && ViewOf(d') == Fold(rs[..n + 1])
    ensures Shows(ApplyAt(d, rs[n], rs[n].time).refs, h, TraceOf(rs[..n + 1], h))
  {
    hide ApplyAt, ViewOf, Fold, Binds, Conserved;
    var r := rs[n];
    var d' := ApplyAt(d, r, r.time);
    assert rs[..n + 1][..n] == rs[..n] && rs[..n + 1][n] == r;
    if r.op == GC(h) {
      if h in d.refs { ApplyDrops(d, r, r.time, h); } else { ApplyShape(d, r, r.time); }
    } else if Binds(Fold(rs[..n + 1]), h) {
      BoundIsRecorded(d', h);
      if Stamped(d'.refs, h) { StampedIsUnbound(d', h); }
    } else if Binds(Fold(rs[..n]), h) {
      BoundIsRecorded(d, h);
      if Stamped(d.refs, h) { StampedIsUnbound(d, h); }
      ApplyDrops(d, r, r.time, h);
      ApplyStamps(d, r, r.time);
      ApplyShape(d, r, r.time);
      UnboundIsStamped(d', h);
    } else {
      ApplyLeavesRef(d, r, r.time, h);
    }
  }

  /**
   Replaying a journal from nothing stamps a blob with exactly the time of the record that last
   unbound it: counted while a key is bound, unknown once collected.
   */
  lemma {:induction false} ReplayShows(d: Db, rs: seq<Record>, to: nat, h: Hash)
    requires to <= |rs| && WellPlaced(rs)
    requires d.refs == map[] && d.uploads == map[] && ViewOf(d) == map[] && Conserved(d)
    ensures Shows(ApplyAll(d, rs[..to]).refs, h, TraceOf(rs[..to], h))
  {
    hide ApplyAt, ViewOf, Fold, Binds, Conserved, WellPlaced, PartsSpared, Shows;
    FoldOfNothing();
    assert rs[..0] == [];
    if to == 0 {
      NothingShows(h);
    } else {
      var n := to - 1;
      ReplayShows(d, rs, n, h);
      NoPartsToSpare(rs, 0, n);
      NoPartsToSpare(rs, 0, to);
      ReplayReachesFold(d, rs, 0, n);
      ReplayConserves(d, rs, 0, n);
      ReplayReachesFold(d, rs, 0, to);
      ReplayConserves(d, rs, 0, to);
      assert rs[0..n] == rs[..n] && rs[0..to] == rs[..to] && rs[..to][..n] == rs[..n];
      ShowsOneMore(ApplyAll(d, rs[..n]), rs, n, h);
    }
  }

  lemma NothingShows(h: Hash)
    ensures Shows(map[], h, TraceOf([], h))
  {
  }
}
