/**
 Replaying records the index already contains. The comment on apply (internal/store/store.go:181-184)
 calls that harmless; it always is for the bindings, and this says exactly when it is for the counts.
 */
module Overlap {
  import opened Wrappers
  import opened ByteStrings
  import opened Blob
  import opened Index
  import opened Journal
  import opened Apply
  import opened Disk

  // ------------------------------------------------------------- bindings

  predicate Touches(rs: seq<Record>, s: Slot) {
    exists i :: 0 <= i < |rs| && Target(rs[i].op) == Some(s)
  }

  function FoldFrom(v: View, rs: seq<Record>): View {
    if rs == [] then v else StepView(FoldFrom(v, rs[..|rs| - 1]), rs[|rs| - 1].op)
  }

  lemma {:induction false} ApplyAllFolds(d: Db, rs: seq<Record>)
    ensures ViewOf(ApplyAll(d, rs)) == FoldFrom(ViewOf(d), rs)
  {
    hide ApplyAt, ViewOf, StepView;
    if rs != [] {
      var n := |rs| - 1;
      ApplyAllFolds(d, rs[..n]);
      ApplyMovesView(ApplyAll(d, rs[..n]), rs[n], rs[n].time);
    }
  }

  lemma {:induction false} FoldResumes(rs: seq<Record>, from: nat, to: nat)
    requires from <= to <= |rs|
    ensures FoldFrom(Fold(rs[..from]), rs[from..to]) == Fold(rs[..to])
  {
    hide StepView;
    if from < to {
      FoldResumes(rs, from, to - 1);
      assert rs[from..to][..to - 1 - from] == rs[from..to - 1];
      assert rs[..to][..to - 1] == rs[..to - 1];
    }
  }

  /** A key the records touch ends up the same whatever it was; one they do not touch stays. */
  lemma {:induction false} FoldForgets(v: View, w: View, rs: seq<Record>, s: Slot)
    ensures if Touches(rs, s) then ObjAt(FoldFrom(v, rs), s) == ObjAt(FoldFrom(w, rs), s)
            else ObjAt(FoldFrom(v, rs), s) == ObjAt(v, s)
  {
    if rs != [] {
      var n := |rs| - 1;
      FoldForgets(v, w, rs[..n], s);
      if Touches(rs[..n], s) {
        var i :| 0 <= i < n && Target(rs[..n][i].op) == Some(s);
        assert Target(rs[i].op) == Some(s);
      }
      if Target(rs[n].op) != Some(s) {
        assert Touches(rs, s) ==> Touches(rs[..n], s) by {
          if Touches(rs, s) {
            var i :| 0 <= i < |rs| && Target(rs[i].op) == Some(s);
            assert Target(rs[..n][i].op) == Some(s);
          }
        }
      } else {
        assert Touches(rs, s);
      }
    }
  }

  /** Re-applying any suffix of the journal to the index that already stands for all of it changes no binding. */
  lemma OverlapKeepsBindings(d: Db, rs: seq<Record>, from: nat)
    requires from <= |rs| && ViewOf(d) == Fold(rs)
    ensures ViewOf(ApplyAll(d, rs[from..])) == Fold(rs)
  {
    hide ApplyAll, ViewOf, StepView, Touches;
    var more := rs[from..];
    ApplyAllFolds(d, more);
    FoldResumes(rs, from, |rs|);
    assert rs[..|rs|] == rs && rs[from..|rs|] == more;
    SameEverywhere(FoldFrom(Fold(rs), more), Fold(rs), Fold(rs[..from]), more);
  }

  lemma SameEverywhere(a: View, v: View, w: View, rs: seq<Record>)
    requires a == FoldFrom(v, rs) && v == FoldFrom(w, rs)
    ensures a == v
  {
    forall s ensures ObjAt(a, s) == ObjAt(v, s) {
      FoldForgets(v, w, rs, s);
    }
    assert forall s :: s in a <==> ObjAt(a, s).Some?;
    assert forall s :: s in v <==> ObjAt(v, s).Some?;
    forall s | s in a ensures a[s] == v[s] {
      assert ObjAt(a, s) == ObjAt(v, s);
    }
  }

  // --------------------------------------------------------------- counts

  /** The last record in rs that collects h, or |rs| when there is none. */
  function LastGc(rs: seq<Record>, h: Hash): (p: nat)
    ensures p <= |rs|
    ensures p < |rs| ==> rs[p].op == GC(h)
    ensures forall i :: 0 <= i < |rs| && rs[i].op == GC(h) ==> i <= p < |rs|
  {
    if rs == [] then 0
    else
      var n := |rs| - 1;
      if rs[n].op == GC(h) then n
      else
        var p := LastGc(rs[..n], h);
        assert forall i :: 0 <= i < n ==> rs[i] == rs[..n][i];
        if p == n then |rs| else p
  }

  /** Only the last collection of a blob decides how far its count ends up from its demand. */
  lemma {:induction false} DriftAfter(d: Db, rs: seq<Record>, h: Hash)
    ensures Drift(ApplyAll(d, rs), h) == var p := LastGc(rs, h);
              if p == |rs| then Drift(d, h) else Demand(ApplyAll(d, rs[..p]), h)
  {
    hide ApplyAt, Drift, Demand;
    if rs != [] {
      var n := |rs| - 1;
      DriftAfter(d, rs[..n], h);
      var mid := ApplyAll(d, rs[..n]);
      ApplyMovesDrift(mid, rs[n], rs[n].time, h);
      assert forall p :: 0 <= p <= n ==> rs[..n][..p] == rs[..p];
    }
  }

  /** Keys the journal binds to h at the end, but that its records from..to leave alone. */
  function Unvisited(rs: seq<Record>, from: nat, to: nat, h: Hash): set<Slot>
    requires from <= to <= |rs|
  {
    set s | s in Fold(rs) && Fold(rs)[s].hash == h && !Touches(rs[from..to], s)
  }

  lemma {:induction false} ApplyAllKeepsUploads(d: Db, rs: seq<Record>)
    ensures ApplyAll(d, rs).uploads == d.uploads
  {
    hide ApplyAt;
    if rs != [] {
      var n := |rs| - 1;
      ApplyAllKeepsUploads(d, rs[..n]);
      ApplyShape(ApplyAll(d, rs[..n]), rs[n], rs[n].time);
    }
  }

  /** On the second pass, a collection of h meets exactly the keys it has not visited yet. */
  lemma DemandOnSecondPass(d: Db, rs: seq<Record>, from: nat, p: nat, h: Hash)
    requires from <= p < |rs| && rs[p].op == GC(h) && WellPlaced(rs)
    requires ViewOf(d) == Fold(rs) && d.uploads == map[]
    ensures Demand(ApplyAll(d, rs[from..p]), h) == |Unvisited(rs, from, p, h)|
  {
    hide ApplyAll, Touches, StepView;
    var mid := ApplyAll(d, rs[from..p]);
    ApplyAllKeepsUploads(d, rs[from..p]);
    ApplyAllFolds(d, rs[from..p]);
    FoldResumes(rs, from, p);
    assert PartSlots(mid.uploads, h) == {};
    assert !Binds(Fold(rs[..p]), h);
    var v := ViewOf(mid);
    assert Holders(mid.objs, h) == set s | s in v && v[s].hash == h;
    forall s ensures s in Holders(mid.objs, h) <==> s in Unvisited(rs, from, p, h) {
      FoldForgets(Fold(rs), Fold(rs[..from]), rs[from..p], s);
      assert s in v && v[s].hash == h <==> ObjAt(v, s).Some? && ObjAt(v, s).value.hash == h;
      assert Touches(rs[from..p], s) ==> ObjAt(v, s) == ObjAt(Fold(rs[..p]), s);
    }
    assert Holders(mid.objs, h) == Unvisited(rs, from, p, h);
  }

  /** Every key finally bound to a blob is revisited before the blob's last collection in the suffix. */
  ghost predicate RevisitedInTime(rs: seq<Record>, from: nat)
    requires from <= |rs|
  {
    forall h :: var p := LastGc(rs[from..], h); p < |rs| - from ==> Unvisited(rs, from, from + p, h) == {}
  }

  lemma OverlapDrift(d: Db, rs: seq<Record>, from: nat, h: Hash)
    requires from <= |rs| && WellPlaced(rs) && ViewOf(d) == Fold(rs) && Conserved(d) && d.uploads == map[]
    ensures Drift(ApplyAll(d, rs[from..]), h) == var p := LastGc(rs[from..], h);
              if p == |rs| - from then 0 else |Unvisited(rs, from, from + p, h)|
  {
    hide ApplyAll, ViewOf, WellPlaced, Fold, Unvisited;
    var p := LastGc(rs[from..], h);
    DriftAfter(d, rs[from..], h);
    assert Drift(d, h) == 0;
    if p < |rs| - from {
      assert rs[from..][..p] == rs[from..from + p] && rs[from..][p] == rs[from + p];
      DemandOnSecondPass(d, rs, from, from + p, h);
    }
  }

  /**
   Overlapping replay leaves the counts unchanged if and only if every key finally bound to a
   blob is revisited before the blob's last collection in the replayed suffix.
   */
  lemma OverlapKeepsCountsExactly(d: Db, rs: seq<Record>, from: nat)
    requires from <= |rs| && WellPlaced(rs) && ViewOf(d) == Fold(rs) && Conserved(d) && d.uploads == map[]
    ensures (forall h :: ApplyAll(d, rs[from..]).Count(h) == d.Count(h)) <==> RevisitedInTime(rs, from)
  {
    hide ApplyAll, ViewOf, WellPlaced, Fold, Unvisited, Conserved;
    var again := ApplyAll(d, rs[from..]);
    forall h
      ensures d.Count(h) - again.Count(h) == var p := LastGc(rs[from..], h);
                if p == |rs| - from then 0 else |Unvisited(rs, from, from + p, h)|
    {
      OverlapDrift(d, rs, from, h);
      OverlapKeepsBindings(d, rs, from);
      ApplyAllKeepsUploads(d, rs[from..]);
      SameDemand(d, again, h);
      NoDrift(d, h);
    }
  }

  lemma NoDrift(d: Db, h: Hash)
    requires Conserved(d)
    ensures Demand(d, h) == d.Count(h)
  {
    assert Drift(d, h) == 0;
  }

  lemma SameDemand(a: Db, b: Db, h: Hash)
    requires ViewOf(a) == ViewOf(b) && a.uploads == b.uploads
    ensures Demand(a, h) == Demand(b, h)
  {
    assert Holders(a.objs, h) == set s | s in ViewOf(a) && ViewOf(a)[s].hash == h;
    assert Holders(b.objs, h) == set s | s in ViewOf(b) && ViewOf(b)[s].hash == h;
  }

  /** A key bound at the end but not after record p was put there by a later record. */
  lemma {:induction false} BoundLater(rs: seq<Record>, p: nat, to: nat, s: Slot, h: Hash)
    requires p <= to <= |rs| && !Binds(Fold(rs[..p]), h)
    requires s in Fold(rs[..to]) && Fold(rs[..to])[s].hash == h
    ensures exists q :: p <= q < to && rs[q].op.Put? && rs[q].op.hash == h
  {
    if p < to {
      assert rs[..to][..to - 1] == rs[..to - 1];
      if !(rs[to - 1].op.Put? && rs[to - 1].op.hash == h) {
        BoundLater(rs, p, to - 1, s, h);
      }
    }
  }

  /** In particular the counts survive when no collection in the suffix is followed by a put of its blob. */
  lemma OverlapKeepsCounts(d: Db, rs: seq<Record>, from: nat)
    requires from <= |rs| && WellPlaced(rs) && ViewOf(d) == Fold(rs) && Conserved(d) && d.uploads == map[]
    requires forall p, q :: from <= p < q < |rs| && rs[p].op.GC? && rs[q].op.Put? ==> rs[q].op.hash != rs[p].op.hash
    ensures forall h :: ApplyAll(d, rs[from..]).Count(h) == d.Count(h)
  {
    hide ApplyAll, ViewOf, Conserved, Fold, Touches;
    forall h | LastGc(rs[from..], h) < |rs| - from
      ensures Unvisited(rs, from, from + LastGc(rs[from..], h), h) == {}
    {
      var p := from + LastGc(rs[from..], h);
      assert rs[from..][p - from] == rs[p];
      assert !Binds(Fold(rs[..p]), h);
      assert rs[..|rs|] == rs;
      forall s | s in Fold(rs) && Fold(rs)[s].hash == h ensures false {
        BoundLater(rs, p, |rs|, s, h);
      }
    }
    OverlapKeepsCountsExactly(d, rs, from);
  }

  /**
   And they need not otherwise: replaying gc(h), put(k, h) over an index that has k bound to h
   leaves h uncounted while k still holds it.
   */
  lemma OverlapCanLoseACount(k: Key, content: Bytes)
    ensures var h := Sha256(content);
            var put := Op.Put([], k, h, Md5(content), |content|, 0);
            var rs := [Record(1, 0, put), Record(2, 0, Delete([], k)), Record(3, 0, GC(h)), Record(4, 0, put)];
            var d := ApplyAll(EMPTY_DB, rs);
            var again := ApplyAll(d, rs[2..]);
            && WellPlaced(rs) && ViewOf(again) == ViewOf(d) == Fold(rs)
            && d.Count(h) == 1 && again.Count(h) == 0 && At([], k) in ViewOf(again)
            && ViewOf(again)[At([], k)].hash == h
  {
    hide ApplyAll, ViewOf, Fold, WellPlaced, StepView;
    var h, s := Sha256(content), At([], k);
    var put := Op.Put([], k, h, Md5(content), |content|, 0);
    var rs := [Record(1, 0, put), Record(2, 0, Delete([], k)), Record(3, 0, GC(h)), Record(4, 0, put)];
    ExampleFolds(rs, h, s);
    ExampleCounts(rs, h, s);
    FoldOfNothing();
    ViewOfNothing();
    ReplayReachesFold(EMPTY_DB, rs, 0, 4);
    assert rs[0..4] == rs && rs[..4] == rs && rs[..0] == [];
    OverlapKeepsBindings(ApplyAll(EMPTY_DB, rs), rs, 2);
  }

  lemma ViewOfNothing()
    ensures ViewOf(EMPTY_DB) == map[]
  {
  }

  lemma ExampleFolds(rs: seq<Record>, h: Hash, s: Slot)
    requires |rs| == 4 && rs[0].op.Put? && rs[3].op == rs[0].op && rs[0].op.hash == h
    requires Target(rs[0].op) == Some(s) && rs[1].op.Delete? && Target(rs[1].op) == Some(s) && rs[2].op == GC(h)
    ensures WellPlaced(rs) && s in Fold(rs) && Fold(rs)[s].hash == h
  {
    assert rs[..1][..0] == [] && rs[..2][..1] == rs[..1] && rs[..3][..2] == rs[..2];
    var o := Obj(h, rs[0].op.etag, rs[0].op.size, rs[0].op.mtime);
    assert Fold(rs[..1]) == map[s := o];
    assert Fold(rs[..2]) == map[];
    assert Fold(rs[..3]) == map[];
  }

  lemma ExampleCounts(rs: seq<Record>, h: Hash, s: Slot)
    requires |rs| == 4 && rs[0].op.Put? && rs[3].op == rs[0].op && rs[0].op.hash == h
    requires Target(rs[0].op) == Some(s) && rs[1].op.Delete? && Target(rs[1].op) == Some(s) && rs[2].op == GC(h)
    ensures ApplyAll(EMPTY_DB, rs).Count(h) == 1
    ensures ApplyAll(ApplyAll(EMPTY_DB, rs), rs[2..]).Count(h) == 0
  {
    hide ApplyAt;
    var d1 := ApplyAt(EMPTY_DB, rs[0], rs[0].time);
    var d2 := ApplyAt(d1, rs[1], rs[1].time);
    var d3 := ApplyAt(d2, rs[2], rs[2].time);
    var d4 := ApplyAt(d3, rs[3], rs[3].time);
    var e1 := ApplyAt(d4, rs[2], rs[2].time);
    var e2 := ApplyAt(e1, rs[3], rs[3].time);
    assert rs[..3][..2] == rs[..2] && rs[..2][..1] == rs[..1] && rs[..1][..0] == [];
    assert ApplyAll(EMPTY_DB, rs[..1]) == d1;
    assert ApplyAll(EMPTY_DB, rs[..2]) == d2;
    assert ApplyAll(EMPTY_DB, rs[..3]) == d3;
    assert ApplyAll(EMPTY_DB, rs) == d4;
    assert rs[2..][..1][..0] == [];
    assert ApplyAll(d4, rs[2..][..1]) == e1;
    assert ApplyAll(d4, rs[2..]) == e2;
    ApplyShape(EMPTY_DB, rs[0], rs[0].time);
    ApplyShape(d1, rs[1], rs[1].time);
    ApplyShape(d2, rs[2], rs[2].time);
    ApplyShape(d3, rs[3], rs[3].time);
    ApplyShape(d4, rs[2], rs[2].time);
    ApplyShape(e1, rs[3], rs[3].time);
    ApplyMovesCount(d3, rs[3], rs[3].time, h);
    ApplyMovesCount(e1, rs[3], rs[3].time, h);
  }

  // ---------------------------------------------- recovery with open uploads

  /**
   Recovery when the crash left uploads open. The counts stay exact if and only if no
   unapplied collection concerns a blob that an upload part holds.
   */
  lemma RecoveryWithOpenUploads(d: Disk, now: Time)
    requires Sane(d, now)
    ensures ViewOf(Recovered(d).db) == Fold(d.journal)
    ensures (forall h :: Drift(Recovered(d).db, h) == 0) <==>
            forall i :: d.db.applied <= i < |d.journal| && d.journal[i].op.GC? ==>
                          PartSlots(d.db.uploads, d.journal[i].op.hash) == {}
  {
    hide ApplyAll, ViewOf, Fold, Backed, Sound, Orderly, Timely;
    var rs, n := d.journal, |d.journal|;
    assert rs[..n] == rs;
    if d.db.applied < n {
      var more := rs[d.db.applied..];
      assert rs[d.db.applied..n] == more;
      ReplayReachesFold(d.db, rs, d.db.applied, n);
      forall h ensures Drift(Recovered(d).db, h) == if LastGc(more, h) == |more| then 0
                                                    else |PartSlots(d.db.uploads, h)| {
        RecoveryDrift(d, now, h);
      }
    } else {
      forall h ensures Drift(d.db, h) == 0 {}
    }
  }

  lemma RecoveryDrift(d: Disk, now: Time, h: Hash)
    requires Sane(d, now) && d.db.applied < |d.journal|
    ensures var more := d.journal[d.db.applied..];
            Drift(Recovered(d).db, h) == if LastGc(more, h) == |more| then 0 else |PartSlots(d.db.uploads, h)|
  {
    hide ApplyAll, ViewOf, Fold, Backed, Sound, Orderly, Timely, PartSlots;
    var more := d.journal[d.db.applied..];
    var p := LastGc(more, h);
    DriftAfter(d.db, more, h);
    assert Drift(d.db, h) == 0;
    if p < |more| {
      var at := d.db.applied + p;
      assert more[..p] == d.journal[d.db.applied..at] && more[p] == d.journal[at];
      ReplayReachesFold(d.db, d.journal, d.db.applied, at);
      ApplyAllKeepsUploads(d.db, more[..p]);
      BoundHasHolder(ApplyAll(d.db, more[..p]), h);
      assert !Binds(Fold(d.journal[..at]), h);
    }
  }
}
