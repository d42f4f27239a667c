/**
 How a journal record changes the index (internal/store/store.go: apply, bind, unbind), and
 the two simple things the index is measured against: the plain fold of the journal into
 bindings, and the number of holders a reference count should equal.
 */
module Apply {
  import opened Wrappers
  import opened ByteStrings
  import opened Blob
  import opened Index
  import opened Journal
  import Sets

  /** A store bucket's objects live in its own scope of the shared index. */
  function At(bucket: Bytes, key: Key): Slot {
    Slot(Ns(StoreScope, bucket), key)
  }

  // ------------------------------------------------------------- bindings

  /** What a client can observe of an object, stamps aside. */
  datatype Obj = Obj(hash: Hash, etag: ETag, size: nat, mtime: Time)

  type View = map<Slot, Obj>

  function ObjAt(v: View, s: Slot): Option<Obj> {
    if s in v then Some(v[s]) else None
  }

  function StepView(v: View, op: Op): View {
    match op
    case Put(b, k, hash, etag, size, mtime) => v[At(b, k) := Obj(hash, etag, size, mtime)]
    case Delete(b, k) => v - {At(b, k)}
    case GC(_) => v
  }

  /** The bindings a journal stands for. */
  function Fold(rs: seq<Record>): View {
    if rs == [] then map[] else StepView(Fold(rs[..|rs| - 1]), rs[|rs| - 1].op)
  }

  lemma {:induction false} FoldAppend(rs: seq<Record>, r: Record)
    ensures Fold(rs + [r]) == StepView(Fold(rs), r.op)
  {
    assert (rs + [r])[..|rs|] == rs;
  }

  ghost predicate Binds(v: View, h: Hash) {
    exists s :: s in v && v[s].hash == h
  }

  function ObjOf(e: Entry): Obj
    requires e.hash.Some?
  {
    Obj(e.hash.value, e.etag, e.size, e.mtime)
  }

  function ViewOfObjs(objs: map<Slot, Entry>): View {
    map s | s in objs && s.ns.scope.StoreScope? && objs[s].hash.Some? :: ObjOf(objs[s])
  }

  /** The bindings an index holds for the store; agent namespaces are not its business. */
  function ViewOf(d: Db): View {
    ViewOfObjs(d.objs)
  }

  // ------------------------------------------------------ the store's code

  function HashAt(d: Db, s: Slot): Option<Hash> {
    if s in d.objs then d.objs[s].hash else None
  }

  /** A key's reference moves from one blob to another; staying put must not touch the count. */
  function MoveRef(d: Db, from: Option<Hash>, to: Option<Hash>, now: Time): Db {
    if from == to then d
    else
      var d := if from.Some? then d.Adjust(from.value, -1, now) else d;
      if to.Some? then d.Adjust(to.value, 1, now) else d
  }

  /** The entry bind writes: a rebinding to the same content keeps the mode and the pin. */
  function BoundEntry(prev: Option<Entry>, hash: Hash, etag: ETag, size: nat, mtime: Time, now: Time): Entry {
    if prev.Some? && prev.value.hash == Some(hash)
    then Entry(size, mtime, prev.value.mode, Some(hash), etag, Synced, now, prev.value.pinned)
    else Entry(size, mtime, 0x1A4, Some(hash), etag, Synced, now, false)
  }

  function Bind(d: Db, s: Slot, hash: Hash, etag: ETag, size: nat, mtime: Time, now: Time): Db {
    MoveRef(d, HashAt(d, s), Some(hash), now)
      .Put(s, BoundEntry(d.Get(s), hash, etag, size, mtime, now))
  }

  function Unbind(d: Db, s: Slot, now: Time): Db {
    MoveRef(d.Delete(s), HashAt(d, s), None, now)
  }

  /** The index after record r is folded in at time now, and the position it then stands for. */
  function ApplyAt(d: Db, r: Record, now: Time): Db {
    var d := match r.op
      case Put(b, k, hash, etag, size, mtime) => Bind(d, At(b, k), hash, etag, size, mtime, now)
      case Delete(b, k) => Unbind(d, At(b, k), now)
      case GC(hash) => d.DropRef(hash);
    d.(applied := r.seqno)
  }

  /** Replay uses the record's own time where the live path uses the clock. */
  function ApplyAll(d: Db, rs: seq<Record>): Db {
    if rs == [] then d
    else ApplyAt(ApplyAll(d, rs[..|rs| - 1]), rs[|rs| - 1], rs[|rs| - 1].time)
  }

  lemma MoveRefShape(d: Db, from: Option<Hash>, to: Option<Hash>, now: Time)
    ensures var m := MoveRef(d, from, to, now);
            && m == d.(refs := m.refs)
            && (Clocked(d) ==> Clocked(m))
            && forall h :: m.Count(h) == d.Count(h) + (if to == Some(h) then 1 else 0)
                                         - (if from == Some(h) then 1 else 0)
  {
  }

  /** The slot a record is about. */
  function Target(op: Op): Option<Slot> {
    match op
    case Put(b, k, _, _, _, _) => Some(At(b, k))
    case Delete(b, k) => Some(At(b, k))
    case GC(_) => None
  }

  /** What a record does to the objects: at most the entry at its target appears, changes or goes. */
  lemma ApplyShape(d: Db, r: Record, now: Time)
    ensures var d' := ApplyAt(d, r, now);
            && d'.uploads == d.uploads && d'.applied == r.seqno
            && match r.op
               case Put(b, k, hash, etag, size, mtime) =>
                 && At(b, k) in d'.objs && d'.objs == d.objs[At(b, k) := d'.objs[At(b, k)]]
                 && d'.objs[At(b, k)].hash == Some(hash)
                 && ObjOf(d'.objs[At(b, k)]) == Obj(hash, etag, size, mtime)
               case Delete(b, k) => d'.objs == d.objs - {At(b, k)}
               case GC(h) => d' == d.(refs := d.refs - {h}, applied := r.seqno)
  {
    match r.op
    case Put(b, k, hash, etag, size, mtime) => MoveRefShape(d, HashAt(d, At(b, k)), Some(hash), now);
    case Delete(b, k) => MoveRefShape(d.Delete(At(b, k)), HashAt(d, At(b, k)), None, now);
    case GC(_) =>
  }

  lemma ViewAfterPut(objs: map<Slot, Entry>, s: Slot, e: Entry)
    requires s.ns.scope.StoreScope? && e.hash.Some?
    ensures ViewOfObjs(objs[s := e]) == ViewOfObjs(objs)[s := ObjOf(e)]
  {
  }

  lemma ViewAfterDelete(objs: map<Slot, Entry>, s: Slot)
    ensures ViewOfObjs(objs - {s}) == ViewOfObjs(objs) - {s}
  {
  }

  /** One record moves the index's bindings exactly as it moves the plain fold. */
  lemma ApplyMovesView(d: Db, r: Record, now: Time)
    ensures ViewOf(ApplyAt(d, r, now)) == StepView(ViewOf(d), r.op)
  {
    ApplyShape(d, r, now);
    match r.op
    case Put(b, k, _, _, _, _) => ViewAfterPut(d.objs, At(b, k), ApplyAt(d, r, now).objs[At(b, k)]);
    case Delete(b, k) => ViewAfterDelete(d.objs, At(b, k));
    case GC(_) =>
  }

  // --------------------------------------------------------------- counts

  /** The keys bound to a blob, over all buckets. */
  function Holders(objs: map<Slot, Entry>, h: Hash): set<Slot> {
    set s | s in objs && s.ns.scope.StoreScope? && objs[s].hash == Some(h)
  }

  /** The part slots of open uploads that hold a blob. */
  function PartSlots(uploads: map<UploadId, Upload>, h: Hash): set<(UploadId, nat)> {
    set u, n | u in uploads && n in uploads[u].parts && uploads[u].parts[n].hash == h :: (u, n)
  }

  function Demand(d: Db, h: Hash): nat {
    |Holders(d.objs, h)| + |PartSlots(d.uploads, h)|
  }

  /** How far the kept count is below what it should be. */
  function Drift(d: Db, h: Hash): int {
    Demand(d, h) - d.Count(h)
  }

  /** The grace clock runs exactly while the count is not positive. */
  ghost predicate Clocked(d: Db) {
    forall h :: h in d.refs ==> (d.refs[h].unrefAt.Some? <==> d.refs[h].count <= 0)
  }

  /** Reference conservation: every count is the number of keys and part slots holding the blob. */
  ghost predicate Conserved(d: Db) {
    Clocked(d) && forall h :: Drift(d, h) == 0
  }

  /** The holders of a blob when the entry at s of the store's scope goes from one hash to another. */
  lemma HoldersAfter(a: map<Slot, Entry>, b: map<Slot, Entry>, s: Slot, h: Hash)
    requires SameBut(a, b, s) && s.ns.scope.StoreScope?
    ensures |Holders(b, h)| == |Holders(a, h)| + (if s in b && b[s].hash == Some(h) then 1 else 0)
                               - (if s in a && a[s].hash == Some(h) then 1 else 0)
  {
    Sets.SizeExcept(Holders(a, h), Holders(b, h), s);
  }

  lemma ApplyMovesCount(d: Db, r: Record, now: Time, h: Hash)
    requires Target(r.op).Some?
    ensures var s, d' := Target(r.op).value, ApplyAt(d, r, now);
            d'.Count(h) == d.Count(h) + (if HashAt(d', s) == Some(h) then 1 else 0)
                           - (if HashAt(d, s) == Some(h) then 1 else 0)
  {
    match r.op
    case Put(b, k, hash, _, _, _) => MoveRefShape(d, HashAt(d, At(b, k)), Some(hash), now);
    case Delete(b, k) => MoveRefShape(d.Delete(At(b, k)), HashAt(d, At(b, k)), None, now);
  }

  /** Put and delete records preserve every drift; a gc record sets its blob's drift to its demand. */
  lemma ApplyMovesDrift(d: Db, r: Record, now: Time, h: Hash)
    ensures Drift(ApplyAt(d, r, now), h) == if r.op == GC(h) then Demand(d, h) else Drift(d, h)
    ensures Demand(ApplyAt(d, r, now), h) == Demand(d, h) || r.op.Put? || r.op.Delete?
  {
    ApplyShape(d, r, now);
    if Target(r.op).Some? {
      ApplyMovesCount(d, r, now, h);
      HoldersAfter(d.objs, ApplyAt(d, r, now).objs, Target(r.op).value, h);
    }
  }

  lemma ApplyKeepsClocks(d: Db, r: Record, now: Time)
    requires Clocked(d)
    ensures Clocked(ApplyAt(d, r, now))
  {
    match r.op
    case Put(b, k, hash, _, _, _) => MoveRefShape(d, HashAt(d, At(b, k)), Some(hash), now);
    case Delete(b, k) => MoveRefShape(d.Delete(At(b, k)), HashAt(d, At(b, k)), None, now);
    case GC(_) =>
  }

  lemma BoundHasHolder(d: Db, h: Hash)
    ensures Binds(ViewOf(d), h) <==> Holders(d.objs, h) != {}
  {
    if Binds(ViewOf(d), h) {
      var s :| s in ViewOf(d) && ViewOf(d)[s].hash == h;
      assert s in Holders(d.objs, h);
    }
    if Holders(d.objs, h) != {} {
      var s :| s in Holders(d.objs, h);
      assert ViewOf(d)[s].hash == h;
    }
  }

  /** A gc record leaves conservation alone exactly when nothing holds the blob. */
  lemma ApplyKeepsConserved(d: Db, r: Record, now: Time)
    requires Conserved(d)
    ensures Conserved(ApplyAt(d, r, now)) <==> (r.op.GC? ==> Demand(d, r.op.hash) == 0)
  {
    ApplyKeepsClocks(d, r, now);
    forall h ensures Drift(ApplyAt(d, r, now), h) == if r.op == GC(h) then Demand(d, h) else 0 {
      ApplyMovesDrift(d, r, now, h);
      assert Drift(d, h) == 0;
    }
    if r.op.GC? {
      assert Drift(ApplyAt(d, r, now), r.op.hash) == Demand(d, r.op.hash);
    }
  }

  /** The counters of every namespace stay exact too. */
  lemma ApplyKeepsExact(d: Db, r: Record, now: Time)
    requires Exact(d)
    ensures Exact(ApplyAt(d, r, now))
  {
    match r.op
    case Put(b, k, hash, etag, size, mtime) =>
      var moved := MoveRef(d, HashAt(d, At(b, k)), Some(hash), now);
      MoveRefShape(d, HashAt(d, At(b, k)), Some(hash), now);
      var e := BoundEntry(d.Get(At(b, k)), hash, etag, size, mtime, now);
      PutKeepsExact(moved, At(b, k), e);
    case Delete(b, k) =>
      var gone := d.Delete(At(b, k));
      DeleteKeepsExact(d, At(b, k));
      MoveRefShape(gone, HashAt(d, At(b, k)), None, now);
    case GC(_) =>
  }

  // ------------------------------------------------- what journals look like

  /** Records are numbered from 1, in clock order. */
  ghost predicate Orderly(rs: seq<Record>) {
    && Numbered(rs, 1)
    && forall i, j :: 0 <= i <= j < |rs| ==> rs[i].time <= rs[j].time
  }

  /** Each gc record sits where the journal binds no key to the blob it collects. */
  ghost predicate WellPlaced(rs: seq<Record>) {
    forall i :: 0 <= i < |rs| && rs[i].op.GC? ==> !Binds(Fold(rs[..i]), rs[i].op.hash)
  }

  lemma WellPlacedAppend(rs: seq<Record>, r: Record)
    requires WellPlaced(rs) && (r.op.GC? ==> !Binds(Fold(rs), r.op.hash))
    ensures WellPlaced(rs + [r])
  {
    var all := rs + [r];
    forall i | 0 <= i < |all| && all[i].op.GC? ensures !Binds(Fold(all[..i]), all[i].op.hash) {
      assert all[..i] == rs[..i];
      assert i == |rs| ==> rs[..i] == rs;
    }
  }

  /** Replay from any position up to which the index stands brings it to the fold of the whole journal. */
  lemma {:induction false} ReplayReachesFold(d: Db, rs: seq<Record>, from: nat, to: nat)
    requires from <= to <= |rs| && ViewOf(d) == Fold(rs[..from])
    ensures ViewOf(ApplyAll(d, rs[from..to])) == Fold(rs[..to])
  {
    hide ApplyAt, ViewOf;
    if from < to {
      ReplayReachesFold(d, rs, from, to - 1);
      assert rs[from..to][..to - 1 - from] == rs[from..to - 1];
      assert rs[..to][..to - 1] == rs[..to - 1];
      ApplyMovesView(ApplyAll(d, rs[from..to - 1]), rs[to - 1], rs[to - 1].time);
    }
  }

  /** No part of an open upload holds a blob that one of these records collects. */
  predicate PartsSpared(uploads: map<UploadId, Upload>, rs: seq<Record>, from: nat, to: nat) {
    forall i :: from <= i < to && i < |rs| && rs[i].op.GC? ==> PartSlots(uploads, rs[i].op.hash) == {}
  }

  lemma NoPartsToSpare(rs: seq<Record>, from: nat, to: nat)
    ensures PartsSpared(map[], rs, from, to)
  {
  }

  /** A well-placed gc record meets no holder, provided no upload holds the blob. */
  lemma PlacedGcIsHarmless(d: Db, rs: seq<Record>, i: nat)
    requires i < |rs| && WellPlaced(rs) && ViewOf(d) == Fold(rs[..i])
    requires Conserved(d) && PartsSpared(d.uploads, rs, i, i + 1)
    ensures Conserved(ApplyAt(d, rs[i], rs[i].time))
  {
    ApplyKeepsConserved(d, rs[i], rs[i].time);
    if rs[i].op.GC? {
      BoundHasHolder(d, rs[i].op.hash);
    }
  }

  /** And its counts stay those of its holders, when gc records are well placed and spare the open uploads. */
  lemma {:induction false} ReplayConserves(d: Db, rs: seq<Record>, from: nat, to: nat)
    requires from <= to <= |rs| && ViewOf(d) == Fold(rs[..from])
    requires WellPlaced(rs) && Conserved(d) && PartsSpared(d.uploads, rs, from, to)
    ensures Conserved(ApplyAll(d, rs[from..to])) && ApplyAll(d, rs[from..to]).uploads == d.uploads
    ensures ApplyAll(d, rs[from..to]).applied == if from < to then rs[to - 1].seqno else d.applied
  {
    hide ApplyAt, ViewOf, Conserved, WellPlaced, Fold;
    if from < to {
      ReplayConserves(d, rs, from, to - 1);
      ReplayReachesFold(d, rs, from, to - 1);
      assert rs[from..to][..to - 1 - from] == rs[from..to - 1];
      var mid := ApplyAll(d, rs[from..to - 1]);
      PlacedGcIsHarmless(mid, rs, to - 1);
      ApplyShape(mid, rs[to - 1], rs[to - 1].time);
    }
  }

  /** With the same bindings and no uploads, conserved indexes agree on every count. */
  lemma CountsFollowBindings(a: Db, b: Db, h: Hash)
    requires Conserved(a) && Conserved(b) && ViewOf(a) == ViewOf(b)
    requires a.uploads == map[] && b.uploads == map[]
    ensures a.Count(h) == b.Count(h) == |set s | s in ViewOf(a) && ViewOf(a)[s].hash == h|
  {
    assert Drift(a, h) == 0 && Drift(b, h) == 0;
    assert PartSlots(a.uploads, h) == {} == PartSlots(b.uploads, h);
    assert Holders(a.objs, h) == set s | s in ViewOf(a) && ViewOf(a)[s].hash == h;
    assert Holders(b.objs, h) == set s | s in ViewOf(b) && ViewOf(b)[s].hash == h;
  }
}
