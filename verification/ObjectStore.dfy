/**
 The store's code (internal/store/store.go, gc.go, multipart.go): methods over the blob store,
 the journal and the index, proved to take the durable state through the sub-steps of module
 Disk in the order that crash safety rests on.
 */
module ObjectStore {
  import opened Wrappers
  import opened ByteStrings
  import opened Blob
  import opened Index
  import opened Journal
  import opened Apply
  import opened Disk
  import opened Multipart
  import opened Counters
  import opened Fsck
  import Machine

  datatype StoreError =
    | NoSuchBucket | EmptyKey | DigestMismatch | NoSuchKey | BlobNotFound
    | NoSuchUpload | NoParts | BadPart(fault: PartFault) | PartNumberOutOfRange

  // ------------------------------------------------ whole calls, on values

  function PutRecordOp(s: Slot, content: Bytes, etag: ETag, mtime: Time): Op {
    Op.Put(s.ns.name, s.key, Sha256(content), if etag == NoTag then Md5(content) else etag, |content|, mtime)
  }

  /** A put that nothing interrupts, with the three moments at which its steps become durable. */
  function PutDone(d: Disk, op: Op, content: Bytes, t1: Time, t2: Time, t3: Time): Disk {
    var landed := Landed(d, content, t1);
    Committed(Logged(landed, op, t2), NextRecord(landed, op, t2), t3)
  }

  function DeleteDone(d: Disk, op: Op, t2: Time, t3: Time): Disk {
    Committed(Logged(d, op, t2), NextRecord(d, op, t2), t3)
  }

  lemma LoggedIsOneAhead(d: Disk, op: Op, now: Time)
    requires Sane(d, now) && CaughtUp(d)
    ensures OneAhead(Logged(d, op, now))
    ensures var j := Logged(d, op, now).journal; j[|j| - 1] == NextRecord(d, op, now)
  {
    hide ViewOf, Fold, Conserved, WellPlaced;
  }

  lemma SaneLater(d: Disk, t: Time, later: Time)
    requires Sane(d, t) && t <= later
    ensures Sane(d, later)
  {
    hide ViewOf, Fold, Conserved, WellPlaced, Orderly, Backed, Sound;
  }

  /** One uninterrupted mutation: the key then reads as asked, and no other key's reading changes. */
  lemma MutationReadsBack(d: Disk, op: Op, t2: Time, t3: Time, s: Slot)
    requires Sane(d, t2) && CaughtUp(d) && t2 <= t3 && Loggable(d, op) && !op.GC?
    ensures var d' := DeleteDone(d, op, t2, t3);
            && Sane(d', t3) && CaughtUp(d')
            && (Target(op) == Some(s) ==>
                  ReadBack(d', s) == if op.Put? then Some(d.blobs[op.hash].content) else None)
            && (Target(op) != Some(s) ==> ReadBack(d', s) == ReadBack(d, s) && d'.db.Get(s) == d.db.Get(s))
  {
    ApplyShape(d.db, NextRecord(d, op, t2), t3);
    hide ApplyAt, ViewOf, Fold, Conserved, WellPlaced, Orderly, Timely, Backed, Sound, CaughtUp, OneAhead;
    LogIsSane(d, op, t2);
    LoggedIsOneAhead(d, op, t2);
    var l, r := Logged(d, op, t2), NextRecord(d, op, t2);
    SaneLater(l, t2, t3);
    CommitIsSane(l, t3);
    ApplyMovesView(d.db, r, t3);
  }

  /**
   The entry a put leaves: the content's hash and size, the tag asked for or the content's MD5, and
   the times given. Only where the key had this very content before do its mode and pin stay.
   */
  predicate EntryOfPut(e: Entry, prev: Option<Entry>, content: Bytes, etag: ETag, mtime: Time, now: Time) {
    && e.hash == Some(Sha256(content)) && e.size == |content| && e.mtime == mtime
    && (etag != NoTag ==> e.etag == etag) && (etag == NoTag ==> e.etag == Md5(content))
    && e.state == Synced && e.atime == now
    && if prev.Some? && prev.value.hash == Some(Sha256(content))
       then e.mode == prev.value.mode && e.pinned == prev.value.pinned
       else e.mode == 6 * 64 + 4 * 8 + 4 && !e.pinned
  }

  lemma PutLeavesEntry(d: Disk, put: Slot, content: Bytes, etag: ETag, mtime: Time, t1: Time, t2: Time, t3: Time)
    requires put.ns.scope.StoreScope?
    ensures var db' := PutDone(d, PutRecordOp(put, content, etag, mtime), content, t1, t2, t3).db;
            put in db'.objs && EntryOfPut(db'.objs[put], d.db.Get(put), content, etag, mtime, t3)
  {
    hide MoveRef;
    var op := PutRecordOp(put, content, etag, mtime);
    MoveRefShape(d.db, HashAt(d.db, put), Some(Sha256(content)), t3);
  }

  /** What a put gives its caller: the content reads back, and everything else is as it was. */
  lemma PutReadsBack(d: Disk, put: Slot, content: Bytes, etag: ETag, mtime: Time,
                     t1: Time, t2: Time, t3: Time, s: Slot)
    requires Sane(d, t1) && CaughtUp(d) && t1 <= t2 <= t3 && put.ns.scope.StoreScope?
    ensures var d' := PutDone(d, PutRecordOp(put, content, etag, mtime), content, t1, t2, t3);
            && Sane(d', t3) && CaughtUp(d')
            && (s == put ==> && ReadBack(d', s) == Some(content) && s in d'.db.objs
                             && EntryOfPut(d'.db.objs[s], d.db.Get(s), content, etag, mtime, t3))
            && (s != put ==> ReadBack(d', s) == ReadBack(d, s) && d'.db.Get(s) == d.db.Get(s))
  {
    PutLeavesEntry(d, put, content, etag, mtime, t1, t2, t3);
    hide ViewOf, Fold, Conserved, WellPlaced, Orderly, Timely, Backed, CaughtUp, OneAhead, DeleteDone, Target;
    var op, l := PutRecordOp(put, content, etag, mtime), Landed(d, content, t1);
    LandIsSane(d, content, t1);
    SaneLater(l, t1, t2);
    LandedReads(d, content, t1, s);
    TargetOfPut(put, content, etag, mtime);
    MutationReadsBack(l, op, t2, t3, s);
    assert DeleteDone(l, op, t2, t3) == PutDone(d, op, content, t1, t2, t3) by { PutIsLandThenLog(d, op, content, t1, t2, t3); }
  }

  lemma PutIsLandThenLog(d: Disk, op: Op, content: Bytes, t1: Time, t2: Time, t3: Time)
    ensures DeleteDone(Landed(d, content, t1), op, t2, t3) == PutDone(d, op, content, t1, t2, t3)
  {
  }

  lemma TargetOfPut(s: Slot, content: Bytes, etag: ETag, mtime: Time)
    requires s.ns.scope.StoreScope?
    ensures Target(PutRecordOp(s, content, etag, mtime)) == Some(s)
  {
  }

  lemma LandedReads(d: Disk, content: Bytes, now: Time, s: Slot)
    requires Sane(d, now) && CaughtUp(d)
    ensures CaughtUp(Landed(d, content, now)) && ReadBack(Landed(d, content, now), s) == ReadBack(d, s)
    ensures Landed(d, content, now).blobs[Sha256(content)].content == content
  {
    hide ViewOfObjs, Conserved, WellPlaced, Orderly, Timely, Fold;
    CaughtUpView(d, now);
    if s in ViewOf(d.db) { assert Fold(d.journal)[s].hash in d.blobs; }
  }

  /**
   What a completion gives its caller: the joined content reads back with the tag of its parts, the
   upload is gone, and every other key and upload is as it was.
   */
  lemma CompletionReadsBack(d: Disk, u: UploadId, content: Bytes, tags: seq<ETag>, mtime: Time, now: Time, s: Slot)
    requires Sane(d, now) && CaughtUp(d) && u in d.db.uploads
    ensures var d', put := Completed(d, u, content, tags, mtime, now), At(u.bucket, d.db.uploads[u].key);
            && (s == put ==> && ReadBack(d', s) == Some(content) && s in d'.db.objs
                             && EntryOfPut(d'.db.objs[s], d.db.Get(s), content, Md5OfParts(tags), mtime, now))
            && (s != put ==> ReadBack(d', s) == ReadBack(d, s) && d'.db.Get(s) == d.db.Get(s))
            && d'.db.uploads == d.db.uploads - {u}
  {
    hide PutDone, Completed, Sane, CaughtUp, EntryOfPut, PutRecordOp, CompletionOp, Clocked, HashesOf, Holding;
    var put := At(u.bucket, d.db.uploads[u].key);
    SaneIsClocked(d, now);
    PutReadsBack(d, put, content, Md5OfParts(tags), mtime, now, now, now, s);
    PutClocked(d, u, d.db.uploads[u].key, content, tags, mtime, now);
  }

  lemma SaneIsClocked(d: Disk, now: Time)
    requires Sane(d, now)
    ensures Clocked(d.db)
  {
  }

  // -------------------------------------------------------------- the code

  datatype GCStats = GCStats(refsScanned: nat, collected: nat, orphans: nat, foreign: nat, bytesReclaimed: nat)

  /** One gc record per blob, in the order they were collected. */
  function GcRecords(first: nat, hs: seq<Hash>, now: Time): (rs: seq<Record>)
    ensures |rs| == |hs|
    ensures forall i :: 0 <= i < |hs| ==> rs[i] == Record(first + i, now, GC(hs[i]))
  {
    if hs == [] then []
    else GcRecords(first, hs[..|hs| - 1], now) + [Record(first + |hs| - 1, now, GC(hs[|hs| - 1]))]
  }

  ghost predicate Lists<T>(order: seq<T>, s: set<T>) {
    && (forall i :: 0 <= i < |order| ==> order[i] in s)
    && (forall x :: x in s ==> x in order)
    && forall i, j :: 0 <= i < j < |order| ==> order[i] != order[j]
  }

  ghost function SetOf<T>(order: seq<T>): set<T> {
    set x | x in order
  }

  /** The disk after a pass has collected these blobs, each dropped, removed and journalled in turn. */
  ghost function Collected(d: Disk, order: seq<Hash>, clock: Time): Disk {
    Disk(d.blobs - SetOf(order), d.journal + GcRecords(|d.journal| + 1, order, clock),
         d.db.(refs := d.db.refs - SetOf(order)))
  }

  /** The size of these blobs together, those that are not there counting nothing. */
  function BytesOf(blobs: Blobs, hs: seq<Hash>): nat {
    if hs == [] then 0
    else BytesOf(blobs, hs[..|hs| - 1]) + SizeOf(blobs, hs[|hs| - 1])
  }

  function SizeOf(blobs: Blobs, h: Hash): nat {
    if h in blobs then |blobs[h].content| else 0
  }

  ghost function TotalSize(blobs: Blobs): nat
    decreases |blobs|
  {
    if blobs == map[] then 0
    else
      var h :| h in blobs;
      |blobs[h].content| + TotalSize(blobs - {h})
  }

  lemma {:induction false} TotalWithout(blobs: Blobs, h: Hash)
    requires h in blobs
    ensures TotalSize(blobs) == |blobs[h].content| + TotalSize(blobs - {h})
    decreases |blobs|
  {
    var g :| g in blobs && TotalSize(blobs) == |blobs[g].content| + TotalSize(blobs - {g});
    if g != h {
      TotalWithout(blobs - {g}, h);
      TotalWithout(blobs - {h}, g);
      assert blobs - {g} - {h} == blobs - {h} - {g};
    }
  }

  /** The bytes reported as reclaimed are those by which the store has shrunk. */
  lemma {:induction false} ReclaimedIsTheDifference(blobs: Blobs, hs: seq<Hash>)
    requires forall i, j :: 0 <= i < j < |hs| ==> hs[i] != hs[j]
    ensures TotalSize(blobs) == TotalSize(blobs - SetOf(hs)) + BytesOf(blobs, hs)
  {
    if hs == [] {
      assert blobs - SetOf(hs) == blobs;
    } else {
      var n := |hs| - 1;
      ReclaimedIsTheDifference(blobs, hs[..n]);
      var left := blobs - SetOf(hs[..n]);
      assert hs == hs[..n] + [hs[n]] && hs[n] !in SetOf(hs[..n]);
      assert blobs - SetOf(hs) == left - {hs[n]};
      if hs[n] in blobs { TotalWithout(left, hs[n]); } else { assert left - {hs[n]} == left; }
    }
  }

  predicate Due(db: Db, h: Hash, now: Time, grace: Time) {
    h in db.refs && db.refs[h].Collectable(now, grace)
  }

  /** Of a list of candidates, those still collectable, each taken the first time it is met. */
  function StillDue(db: Db, candidates: seq<Hash>, now: Time, grace: Time): seq<Hash> {
    if candidates == [] then []
    else
      var n := |candidates| - 1;
      var before := StillDue(db, candidates[..n], now, grace);
      if Due(db, candidates[n], now, grace) && candidates[n] !in before then before + [candidates[n]] else before
  }

  /** If nothing has changed since the walk, every candidate is still due. */
  lemma {:induction false} AllStillDue(db: Db, candidates: seq<Hash>, now: Time, grace: Time)
    requires forall i :: 0 <= i < |candidates| ==> Due(db, candidates[i], now, grace)
    requires forall i, j :: 0 <= i < j < |candidates| ==> candidates[i] != candidates[j]
    ensures StillDue(db, candidates, now, grace) == candidates
  {
    hide Due;
    if candidates != [] {
      var n := |candidates| - 1;
      AllStillDue(db, candidates[..n], now, grace);
      assert candidates == candidates[..n] + [candidates[n]];
    }
  }

  /** And in any case those taken are due, and each candidate that is due is taken. */
  lemma {:induction false} StillDueExactly(db: Db, candidates: seq<Hash>, now: Time, grace: Time)
    ensures var taken := StillDue(db, candidates, now, grace);
            && (forall h :: h in taken <==> h in candidates && Due(db, h, now, grace))
            && forall i, j :: 0 <= i < j < |taken| ==> taken[i] != taken[j]
  {
    hide Due;
    if candidates != [] {
      var n := |candidates| - 1;
      StillDueExactly(db, candidates[..n], now, grace);
      assert candidates == candidates[..n] + [candidates[n]];
    }
  }

  lemma CollectOneMore(d: Disk, order: seq<Hash>, h: Hash, clock: Time)
    ensures var c := Collected(d, order, clock);
            Collected(d, order + [h], clock)
            == Disk(c.blobs - {h}, c.journal + [NextRecord(c, GC(h), clock)], c.db.DropRef(h))
  {
    assert SetOf(order + [h]) == SetOf(order) + {h};
    assert (order + [h])[..|order|] == order;
    assert d.blobs - SetOf(order) - {h} == d.blobs - SetOf(order + [h]);
    assert d.db.refs - SetOf(order) - {h} == d.db.refs - SetOf(order + [h]);
    var js := GcRecords(|d.journal| + 1, order, clock);
    assert d.journal + (js + [Record(|d.journal| + 1 + |order|, clock, GC(h))])
           == d.journal + js + [Record(|d.journal| + 1 + |order|, clock, GC(h))];
  }

  lemma RemovedNone(files: Blobs, victims: seq<Hash>)
    ensures files - SetOf(victims[..0]) == files && BytesOf(files, victims[..0]) == 0
    ensures victims[..|victims|] == victims
  {
  }

  lemma RemoveNext(files: Blobs, victims: seq<Hash>, i: nat)
    requires i < |victims| && forall i, j :: 0 <= i < j < |victims| ==> victims[i] != victims[j]
    ensures files - SetOf(victims[..i + 1]) == files - SetOf(victims[..i]) - {victims[i]}
    ensures BytesOf(files, victims[..i + 1])
            == BytesOf(files, victims[..i]) + SizeOf(files - SetOf(victims[..i]), victims[i])
  {
    assert victims[..i + 1][..i] == victims[..i];
    assert SetOf(victims[..i + 1]) == SetOf(victims[..i]) + {victims[i]};
    assert victims[i] !in SetOf(victims[..i]);
  }

  lemma HoldingMore(parts: map<nat, Part>, n: nat, p: Part, h: Hash)
    requires n !in parts
    ensures Holding(parts[n := p], h) == if p.hash == h then Holding(parts, h) + {n} else Holding(parts, h)
    ensures |Holding(parts[n := p], h)| == |Holding(parts, h)| + if p.hash == h then 1 else 0
  {
  }

  lemma HashesMore(parts: map<nat, Part>, n: nat, p: Part)
    requires n !in parts
    ensures HashesOf(parts[n := p]) == HashesOf(parts) + {p.hash}
  {
    var more := parts[n := p];
    assert more[n].hash in HashesOf(more);
    forall h | h in HashesOf(parts) ensures h in HashesOf(more) {
      var m :| m in parts && parts[m].hash == h;
      assert more[m].hash in HashesOf(more);
    }
  }

  lemma MovedTwice(r: Ref, k: nat, now: Time)
    requires r.unrefAt.Some? ==> r.count <= 0
    ensures k > 0 ==> Moved(Moved(r, 0 - k, now), -1, now) == Moved(r, 0 - k - 1, now)
  {
  }

  /** A blob's record after a release, whether or not it has one. */
  lemma ReleasedRef(db: Db, parts: map<nat, Part>, now: Time, h: Hash)
    ensures var k := |Holding(parts, h)|;
            RefOf(Released(db, parts, now), h) == if k == 0 then RefOf(db, h) else Moved(RefOf(db, h), 0 - k, now)
  {
    hide Moved, Holding, HashesOf;
    ReleasedShape(db, parts, now, h);
  }

  lemma ReleaseAt(db: Db, parts: map<nat, Part>, n: nat, p: Part, now: Time, h: Hash)
    requires Clocked(db) && n !in parts
    ensures RefOf(Released(db, parts[n := p], now), h) == RefOf(Released(db, parts, now).Adjust(p.hash, -1, now), h)
  {
    hide Holding, Moved, Released;
    HoldingMore(parts, n, p, h);
    ReleasedRef(db, parts, now, h);
    ReleasedRef(db, parts[n := p], now, h);
    MovedTwice(RefOf(db, h), |Holding(parts, h)|, now);
  }

  /** A part more gives its reference back. */
  lemma ReleaseOneMore(db: Db, parts: map<nat, Part>, n: nat, p: Part, now: Time)
    requires Clocked(db) && n !in parts
    ensures Released(db, parts[n := p], now) == Released(db, parts, now).Adjust(p.hash, -1, now)
  {
    hide Holding, HashesOf, Moved;
    HashesMore(parts, n, p);
    var a, b := Released(db, parts[n := p], now), Released(db, parts, now).Adjust(p.hash, -1, now);
    assert a.refs.Keys == b.refs.Keys;
    forall h | h in a.refs ensures a.refs[h] == b.refs[h] {
      ReleaseAt(db, parts, n, p, now, h);
      assert RefOf(a, h) == RefOf(b, h);
    }
    assert a.refs == b.refs;
  }

  lemma ReleaseNothing(db: Db, now: Time)
    ensures Released(db, map[], now) == db
  {
  }

  function HashesAt(objs: map<Slot, Entry>, ss: set<Slot>): set<Hash> {
    set s | s in ss && s in objs && objs[s].hash.Some? :: objs[s].hash.value
  }

  function LostAt(objs: map<Slot, Entry>, blobs: Blobs, ss: set<Slot>): set<Slot> {
    set s | s in ss && s in objs && objs[s].hash.Some? && objs[s].hash.value !in blobs
  }

  lemma HashesAtNothing(objs: map<Slot, Entry>, blobs: Blobs, slots: set<Slot>)
    ensures HashesAt(objs, slots - slots) == {} && LostAt(objs, blobs, slots - slots) == {}
  {
  }

  lemma WalkOn(slots: set<Slot>, todo: set<Slot>, s: Slot)
    requires s in todo && todo <= slots
    ensures slots - (todo - {s}) == slots - todo + {s} && |todo - {s}| == |todo| - 1
  {
  }

  lemma HashesAtOneMore(objs: map<Slot, Entry>, blobs: Blobs, ss: set<Slot>, s: Slot)
    requires s in objs
    ensures HashesAt(objs, ss + {s}) == HashesAt(objs, ss) + if objs[s].hash.Some? then {objs[s].hash.value} else {}
    ensures LostAt(objs, blobs, ss + {s})
            == LostAt(objs, blobs, ss) + if objs[s].hash.Some? && objs[s].hash.value !in blobs then {s} else {}
  {
    var more := HashesAt(objs, ss + {s});
    if objs[s].hash.Some? { assert objs[s].hash.value in more; }
    forall t | t in ss && t in objs && objs[t].hash.Some? ensures objs[t].hash.value in more {
      assert t in ss + {s};
    }
  }

  lemma ApplyNext(d: Db, rs: seq<Record>)
    ensures ApplyAll(d, rs[..0]) == d
    ensures forall i :: 0 <= i < |rs| ==> ApplyAll(d, rs[..i + 1]) == ApplyAt(ApplyAll(d, rs[..i]), rs[i], rs[i].time)
  {
    hide ApplyAt;
    forall i | 0 <= i < |rs| ensures ApplyAll(d, rs[..i + 1]) == ApplyAt(ApplyAll(d, rs[..i]), rs[i], rs[i].time) {
      assert rs[..i + 1][..i] == rs[..i];
    }
  }

  /** An index with some namespaces, and their counters, dropped. */
  ghost function Without(d: Db, gone: set<Ns>): Db {
    d.(objs := map s | s in d.objs && s.ns !in gone :: d.objs[s], stats := d.stats - gone)
  }

  lemma WithoutNone(d: Db, mine: set<Ns>)
    ensures Without(d, mine - mine) == d
  {
  }

  lemma WithoutOneMore(d: Db, mine: set<Ns>, todo: set<Ns>, ns: Ns)
    requires ns in todo && todo <= mine
    ensures Without(d, mine - todo).DropNamespace(ns) == Without(d, mine - (todo - {ns}))
  {
    var gone := mine - todo;
    assert mine - (todo - {ns}) == gone + {ns};
    assert Without(d, gone).DropNamespace(ns).objs == Without(d, gone + {ns}).objs;
    assert Without(d, gone).DropNamespace(ns).stats == Without(d, gone + {ns}).stats;
  }

  predicate InOrder(ws: seq<Want>) {
    forall i, j :: 0 <= i < j < |ws| ==> ws[i].number <= ws[j].number
  }

  /** Where w goes among wants already in order. */
  method InsertWant(r: seq<Want>, w: Want) returns (out: seq<Want>)
    requires InOrder(r)
    ensures InOrder(out) && multiset(out) == multiset(r) + multiset{w}
  {
    var i := |r|;
    while i > 0 && r[i - 1].number > w.number
      invariant 0 <= i <= |r| && forall j :: i <= j < |r| ==> r[j].number > w.number
    {
      i := i - 1;
    }
    InsertKeepsOrder(r, i, w);
    InsertKeepsAll(r, i, w);
    out := r[..i] + [w] + r[i..];
  }

  lemma InsertKeepsOrder(r: seq<Want>, i: nat, w: Want)
    requires InOrder(r) && i <= |r| && (i > 0 ==> r[i - 1].number <= w.number)
    requires forall j :: i <= j < |r| ==> r[j].number > w.number
    ensures InOrder(r[..i] + [w] + r[i..])
  {
    var out := r[..i] + [w] + r[i..];
    assert forall a :: 0 <= a < i ==> out[a] == r[a] && (a < i - 1 ==> r[a].number <= r[i - 1].number);
    assert out[i] == w;
    assert forall b :: i < b < |out| ==> out[b] == r[b - 1];
  }

  lemma InsertKeepsAll(r: seq<Want>, i: nat, w: Want)
    requires i <= |r|
    ensures multiset(r[..i] + [w] + r[i..]) == multiset(r) + multiset{w}
  {
    assert r == r[..i] + r[i..];
  }

  /** The completion's listing, by part number. */
  method SortWants(ws: seq<Want>) returns (r: seq<Want>)
    ensures InOrder(r) && multiset(r) == multiset(ws)
  {
    r := [];
    for n := 0 to |ws|
      invariant InOrder(r) && multiset(r) == multiset(ws[..n])
    {
      hide InOrder;
      r := InsertWant(r, ws[n]);
      assert ws[..n + 1] == ws[..n] + [ws[n]];
    }
    assert ws[..|ws|] == ws;
  }

  class Store {
    const blobs: Blob.Store
    const jrnl: Journal
    const idx: DB
    var buckets: set<Bytes>
    var grace: Time

    /** The journal is never pruned here, so it holds every record from the first. */
    ghost predicate Valid()
      reads this, blobs, jrnl, idx
    {
      jrnl.Valid() && Numbered(jrnl.Records(), 1) && |jrnl.Records()| == jrnl.last
    }

    ghost function Value(): Disk
      reads this, blobs, jrnl, idx
    {
      Disk(blobs.files, jrnl.Records(), idx.Value())
    }

    constructor (blobs: Blob.Store, jrnl: Journal, idx: DB, buckets: set<Bytes>, grace: Time)
      ensures this.blobs == blobs && this.jrnl == jrnl && this.idx == idx
      ensures this.buckets == buckets && this.grace == grace
    {
      this.blobs, this.jrnl, this.idx, this.buckets, this.grace := blobs, jrnl, idx, buckets, grace;
    }

    /** The method bind: the binding, and both moves of the counts it entails. */
    method Bind(s: Slot, hash: Hash, etag: ETag, size: nat, mtime: Time, now: Time)
      modifies idx
      ensures idx.Value() == Apply.Bind(old(idx.Value()), s, hash, etag, size, mtime, now)
      ensures idx.pending == old(idx.pending)
    {
      var prev := idx.GetTx(s);
      if prev.Some? && prev.value.hash == Some(hash) {
        idx.Put(s, Entry(size, mtime, prev.value.mode, Some(hash), etag, Synced, now, prev.value.pinned));
        return;
      }
      if prev.Some? && prev.value.hash.Some? {
        var _ := idx.Adjust(prev.value.hash.value, -1, now);
      }
      var _ := idx.Adjust(hash, 1, now);
      idx.Put(s, Entry(size, mtime, 0x1A4, Some(hash), etag, Synced, now, false));
    }

    /** The method unbind: the key is gone and its blob has one holder fewer. */
    method Unbind(s: Slot, now: Time)
      modifies idx
      ensures idx.Value() == Apply.Unbind(old(idx.Value()), s, now)
      ensures idx.pending == old(idx.pending)
    {
      var prev := idx.DeleteTx(s);
      if prev.None? || prev.value.hash.None? {
        return;
      }
      var _ := idx.Adjust(prev.value.hash.value, -1, now);
    }

    /** The method apply, one step of replay; the clock is the record's. */
    method ApplyRecord(r: Record)
      modifies idx
      ensures idx.Value() == ApplyAt(old(idx.Value()), r, r.time)
      ensures idx.pending == old(idx.pending)
    {
      hide Apply.Bind, Apply.Unbind;
      match r.op {
        case Put(b, k, hash, etag, size, mtime) => Bind(At(b, k), hash, etag, size, mtime, r.time);
        case Delete(b, k) => Unbind(At(b, k), r.time);
        case GC(hash) => idx.DropRef(hash);
      }
      idx.SetApplied(r.seqno);
    }

    /** Recover: replays the records the index has not applied and says how many there were. */
    method Recover() returns (count: nat)
      requires Valid()
      modifies idx
      ensures Valid() && Value() == Recovered(old(Value()))
      ensures count == if old(idx.applied) >= |jrnl.Records()| then 0 else |jrnl.Records()| - old(idx.applied)
      ensures old(Tidy(idx.Value())) ==> Tidy(idx.Value())
    {
      hide Tidy, ApplyAt, IsLineCodec, WellFormed, Flat, Files, From, Orderly;
      ghost var was := Value();
      if Tidy(was.db) { RecoverKeepsTidy(was); }
      count := 0;
      var from := idx.applied;
      if from >= jrnl.last {
        return;
      }
      var rs := jrnl.Replay(from + 1);
      FromIsSuffix(jrnl.Records(), 1, from + 1);
      count := ApplyEach(rs.value);
    }

    /** The callback of a replay, record after record. */
    method ApplyEach(rs: seq<Record>) returns (count: nat)
      modifies idx
      ensures idx.Value() == ApplyAll(old(idx.Value()), rs) && count == |rs|
    {
      count := 0;
      ghost var before := idx.Value();
      ApplyNext(before, rs);
      hide *;
      while count < |rs|
        invariant count <= |rs|
        invariant idx.Value() == ApplyAll(before, rs[..count])
        decreases |rs| - count
      {
        ApplyRecord(rs[count]);
        count := count + 1;
      }
      assert rs[..count] == rs;
    }

    /** PutWith. The three times are the clock's readings as the steps become durable. */
    method PutWith(bucket: Bytes, key: Bytes, content: Bytes, mtime: Time, etag: ETag,
                   declared: Option<Hash>, t1: Time, t2: Time, t3: Time)
      returns (r: Result<Entry, StoreError>)
      requires Valid()
      modifies blobs`files, jrnl, idx
      ensures Valid() && idx.pending == old(idx.pending)
      ensures bucket !in buckets ==> r == Err(NoSuchBucket) && Value() == old(Value())
      ensures bucket in buckets && key == [] ==> r == Err(EmptyKey) && Value() == old(Value())
      ensures bucket in buckets && key != [] ==>
                if declared.Some? && declared.value != Sha256(content)
                then r == Err(DigestMismatch) && Value() == Landed(old(Value()), content, t1)
                else var op := PutRecordOp(At(bucket, key), content, etag, mtime);
                     && Value() == PutDone(old(Value()), op, content, t1, t2, t3)
                     && r == Ok(Entry(|content|, mtime, 0x1A4, Some(Sha256(content)), op.etag, Synced, t3, false))
    {
      hide IsLineCodec, WellFormed, Flat, Place, Files, Apply.Bind;
      if bucket !in buckets {
        return Err(NoSuchBucket);
      }
      if key == [] {
        return Err(EmptyKey);
      }
      var info := blobs.Put(content, t1);
      if declared.Some? && declared.value != info.hash {
        return Err(DigestMismatch);
      }
      var tag := if etag == NoTag then info.md5 else etag;
      var seqno := jrnl.Append(Op.Put(bucket, key, info.hash, tag, info.size, mtime), t2);
      Bind(At(bucket, key), info.hash, tag, info.size, mtime, t3);
      idx.SetApplied(seqno);
      r := Ok(Entry(info.size, mtime, 0x1A4, Some(info.hash), tag, Synced, t3, false));
    }

    /** Delete. Where there is no such key nothing is written. */
    method Delete(bucket: Bytes, key: Key, t2: Time, t3: Time) returns (r: Result<(), StoreError>)
      requires Valid()
      modifies jrnl, idx
      ensures Valid() && idx.pending == old(idx.pending)
      ensures r == if bucket in buckets then Ok(()) else Err(NoSuchBucket)
      ensures Value() == if bucket in buckets && At(bucket, key) in old(idx.objs)
                         then DeleteDone(old(Value()), Op.Delete(bucket, key), t2, t3) else old(Value())
    {
      hide IsLineCodec, WellFormed, Flat, Place, Files, Apply.Unbind;
      if bucket !in buckets {
        return Err(NoSuchBucket);
      }
      var e := idx.Get(At(bucket, key));
      if e.None? {
        return Ok(());
      }
      var seqno := jrnl.Append(Op.Delete(bucket, key), t2);
      Unbind(At(bucket, key), t3);
      idx.SetApplied(seqno);
      r := Ok(());
    }

    /** Head: the entry as the index shows it, the pending access time included. */
    method Head(bucket: Bytes, key: Key) returns (r: Result<Entry, StoreError>)
      ensures bucket !in buckets ==> r == Err(NoSuchBucket)
      ensures bucket in buckets && At(bucket, key) !in idx.objs ==> r == Err(NoSuchKey)
      ensures bucket in buckets && At(bucket, key) in idx.objs ==>
                r.Ok? && Look(idx.Value(), idx.pending, At(bucket, key)) == Some(r.value)
    {
      if bucket !in buckets {
        return Err(NoSuchBucket);
      }
      var e := idx.Get(At(bucket, key));
      if e.None? {
        return Err(NoSuchKey);
      }
      r := Ok(e.value);
    }

    /** Get: the metadata and the bytes; a reading also notes the access. */
    method Get(bucket: Bytes, key: Key, now: Time) returns (r: Result<(Entry, Bytes), StoreError>)
      requires Valid()
      modifies idx`pending
      ensures bucket !in buckets ==> r == Err(NoSuchBucket)
      ensures bucket in buckets && At(bucket, key) !in idx.objs ==> r == Err(NoSuchKey)
      ensures bucket in buckets && At(bucket, key) in idx.objs ==>
                if ReadBack(Value(), At(bucket, key)).Some? then r.Ok? else r == Err(BlobNotFound)
      ensures r.Ok? ==> ReadBack(Value(), At(bucket, key)) == Some(r.value.1)
      ensures r.Ok? ==> Look(idx.Value(), old(idx.pending), At(bucket, key)) == Some(r.value.0)
      ensures idx.pending == if r.Ok? then Touched(old(idx.pending), At(bucket, key), now) else old(idx.pending)
    {
      var e := Head(bucket, key);
      if e.Err? {
        return Err(e.error);
      }
      if e.value.hash.None? {
        return Err(BlobNotFound);
      }
      var content := blobs.Open(e.value.hash.value);
      if content.None? {
        return Err(BlobNotFound);
      }
      idx.Touch(At(bucket, key), now);
      r := Ok((e.value, content.value));
    }

    // ------------------------------------------------------- collection

    /** collectExpired: the walk gathers candidates, and each is re-checked before it is removed. */
    method CollectExpired(now: Time, clock: Time, st0: GCStats) returns (st: GCStats, ghost order: seq<Hash>)
      requires Valid()
      modifies blobs`files, jrnl, idx`refs
      ensures Valid() && Lists(order, Machine.Candidates(old(idx.Value()), now, grace))
      ensures Value() == Collected(old(Value()), order, clock)
      ensures st == st0.(refsScanned := st0.refsScanned + |old(idx.refs)|,
                         collected := st0.collected + |order|,
                         bytesReclaimed := st0.bytesReclaimed + BytesOf(old(blobs.files), order))
    {
      hide *;
      FieldsOfValue();
      var candidates, scanned := WalkRefs(now);
      ListedAreDue(idx.Value(), candidates, now);
      var collected, reclaimed := CollectEach(candidates, now, clock);
      order := candidates;
      st := st0.(refsScanned := st0.refsScanned + scanned, collected := st0.collected + collected,
                 bytesReclaimed := st0.bytesReclaimed + reclaimed);
    }

    /**
     The loop over the candidates, however old the walk that found them: those are taken that
     are still collectable, in order.
     */
    method CollectEach(candidates: seq<Hash>, now: Time, clock: Time) returns (collected: nat, reclaimed: nat)
      requires Valid()
      modifies blobs`files, jrnl, idx`refs
      ensures Valid()
      ensures var taken := StillDue(old(Value()).db, candidates, now, grace);
              && Value() == Collected(old(Value()), taken, clock) && collected == |taken|
              && reclaimed == BytesOf(old(Value()).blobs, taken)
    {
      hide *;
      ghost var before := Value();
      ghost var taken: seq<Hash> := [];
      NothingDue(before, candidates, now, clock);
      var i := 0;
      collected, reclaimed := 0, 0;
      while i < |candidates|
        invariant i <= |candidates| && Valid()
        invariant taken == StillDue(before.db, candidates[..i], now, grace)
        invariant Value() == Collected(before, taken, clock)
        invariant collected == |taken| && reclaimed == BytesOf(before.blobs, taken)
      {
        var h := candidates[i];
        DueNext(before, candidates, i, now, clock);
        assert Value().db.refs == idx.refs && Value().blobs == blobs.files by { FieldsOfValue(); }
        var size := SizeOf(blobs.files, h);
        var dropped := CollectOne(h, now, clock);
        if dropped {
          collected, reclaimed := collected + 1, reclaimed + size;
          taken := taken + [h];
        }
        i := i + 1;
      }
    }

    lemma FieldsOfValue()
      ensures Value().db == idx.Value() && Value().db.refs == idx.refs && Value().blobs == blobs.files
    {
    }

    lemma ListedAreDue(db: Db, candidates: seq<Hash>, now: Time)
      requires Lists(candidates, Machine.Candidates(db, now, grace))
      ensures StillDue(db, candidates, now, grace) == candidates
    {
      AllStillDue(db, candidates, now, grace);
    }

    lemma NothingDue(d: Disk, candidates: seq<Hash>, now: Time, clock: Time)
      ensures StillDue(d.db, candidates[..0], now, grace) == [] && Collected(d, [], clock) == d
      ensures candidates[..|candidates|] == candidates && BytesOf(d.blobs, []) == 0
    {
    }

    /** The next candidate is taken exactly if it is due and has not been taken yet. */
    lemma DueNext(d: Disk, candidates: seq<Hash>, i: nat, now: Time, clock: Time)
      requires i < |candidates|
      ensures var h, taken := candidates[i], StillDue(d.db, candidates[..i], now, grace);
              var c := Collected(d, taken, clock);
              var due := h in c.db.refs && c.db.refs[h].Collectable(now, grace);
              && StillDue(d.db, candidates[..i + 1], now, grace) == (if due then taken + [h] else taken)
              && (due ==> BytesOf(d.blobs, taken + [h]) == BytesOf(d.blobs, taken) + SizeOf(c.blobs, h))
              && Collected(d, taken + [h], clock)
                 == Disk(c.blobs - {h}, c.journal + [NextRecord(c, Op.GC(h), clock)], c.db.DropRef(h))
    {
      var h, taken := candidates[i], StillDue(d.db, candidates[..i], now, grace);
      assert candidates[..i + 1][..i] == candidates[..i];
      CollectOneMore(d, taken, h, clock);
      hide GcRecords;
      assert (taken + [h])[..|taken|] == taken;
      assert h in taken <==> h in SetOf(taken);
    }

    /** One candidate: re-check and drop its reference, remove its blob, and journal the fact. */
    method CollectOne(h: Hash, now: Time, clock: Time) returns (dropped: bool)
      requires Valid()
      modifies blobs`files, jrnl, idx`refs
      ensures Valid()
      ensures dropped <==> h in old(idx.refs) && old(idx.refs)[h].Collectable(now, grace)
      ensures Value() == if dropped
                         then var d := old(Value());
                              Disk(d.blobs - {h}, d.journal + [NextRecord(d, Op.GC(h), clock)], d.db.DropRef(h))
                         else old(Value())
    {
      hide IsLineCodec, WellFormed, Flat, Place, Files;
      dropped := h in idx.refs && idx.refs[h].Collectable(now, grace);
      if !dropped {
        return;
      }
      idx.DropRef(h);
      blobs.Remove(h);
      var _ := jrnl.Append(Op.GC(h), clock);
    }

    /** WalkRefs with the collector's test: the candidates, each once, and how many were examined. */
    method WalkRefs(now: Time) returns (candidates: seq<Hash>, scanned: nat)
      ensures Lists(candidates, Machine.Candidates(idx.Value(), now, grace)) && scanned == |idx.refs|
    {
      candidates, scanned := [], 0;
      var todo := idx.refs.Keys;
      while todo != {}
        invariant todo <= idx.refs.Keys && scanned + |todo| == |idx.refs.Keys|
        invariant Lists(candidates, Machine.Candidates(idx.Value(), now, grace) - todo)
        decreases |todo|
      {
        var h :| h in todo;
        todo := todo - {h};
        scanned := scanned + 1;
        if idx.refs[h].Collectable(now, grace) {
          candidates := candidates + [h];
        }
      }
    }

    /** collectOrphans: blobs old enough that no reference record mentions are removed. */
    method CollectOrphans(now: Time, st0: GCStats) returns (st: GCStats, ghost strays: seq<Hash>)
      modifies blobs`files
      ensures Lists(strays, Machine.Orphans(old(Value()), now, grace))
      ensures blobs.files == old(blobs.files) - Machine.Orphans(old(Value()), now, grace)
      ensures st == st0.(orphans := st0.orphans + |strays|, foreign := st0.foreign + blobs.foreign,
                         bytesReclaimed := st0.bytesReclaimed + BytesOf(old(blobs.files), strays))
    {
      var victims := FindOrphans(now);
      hide Lists, Machine.Orphans;
      var removed, reclaimed := RemoveAll(victims);
      strays := victims;
      st := st0.(orphans := st0.orphans + removed, foreign := st0.foreign + blobs.foreign,
                 bytesReclaimed := st0.bytesReclaimed + reclaimed);
    }

    method FindOrphans(now: Time) returns (victims: seq<Hash>)
      ensures Lists(victims, Machine.Orphans(Value(), now, grace))
    {
      victims := [];
      var todo := blobs.files.Keys;
      while todo != {}
        invariant todo <= blobs.files.Keys && Lists(victims, Machine.Orphans(Value(), now, grace) - todo)
        decreases |todo|
      {
        var h :| h in todo;
        todo := todo - {h};
        if now - blobs.files[h].mod >= grace && h !in idx.refs {
          victims := victims + [h];
        }
      }
    }

    method RemoveAll(victims: seq<Hash>) returns (removed: nat, reclaimed: nat)
      requires forall i, j :: 0 <= i < j < |victims| ==> victims[i] != victims[j]
      modifies blobs`files
      ensures blobs.files == old(blobs.files) - SetOf(victims)
      ensures removed == |victims| && reclaimed == BytesOf(old(blobs.files), victims)
    {
      removed, reclaimed := 0, 0;
      ghost var files := blobs.files;
      RemovedNone(files, victims);
      for i := 0 to |victims|
        invariant blobs.files == files - SetOf(victims[..i])
        invariant removed == i && reclaimed == BytesOf(files, victims[..i])
      {
        hide *;
        RemoveNext(files, victims, i);
        reclaimed := reclaimed + SizeOf(blobs.files, victims[i]);
        blobs.Remove(victims[i]);
        removed := removed + 1;
      }
    }

    /** GC: one pass of both halves. */
    method GC(now: Time, clock: Time) returns (st: GCStats, ghost order: seq<Hash>, ghost strays: seq<Hash>)
      requires Valid()
      modifies blobs`files, jrnl, idx`refs
      ensures Valid() && Lists(order, Machine.Candidates(old(idx.Value()), now, grace))
      ensures var mid := Collected(old(Value()), order, clock);
              var orphans := Machine.Orphans(mid, now, grace);
              && Lists(strays, orphans) && Value() == mid.(blobs := mid.blobs - orphans)
              && st == GCStats(|old(idx.refs)|, |order|, |strays|, blobs.foreign,
                               BytesOf(old(blobs.files), order) + BytesOf(mid.blobs, strays))
    {
      hide Collected, Lists, BytesOf;
      st, order := CollectExpired(now, clock, GCStats(0, 0, 0, 0, 0));
      st, strays := CollectOrphans(now, st);
    }

    // ------------------------------------------------------------- fsck

    /** The method rebuildIndex: all that came from the journal is dropped and made anew from it. */
    method RebuildIndex() returns (count: nat)
      requires Valid()
      modifies idx
      ensures Valid() && Value() == Rebuilt(old(Value())) && count == |jrnl.Records()|
      ensures old(Tidy(idx.Value())) ==> Tidy(idx.Value())
    {
      hide Tidy, ApplyAt, IsLineCodec, WellFormed, Flat, Files, From;
      ghost var was := Value();
      if Tidy(was.db) { RebuildKeepsTidy(was); }
      ghost var before := idx.Value();
      DropStoreNamespaces();
      var todo := idx.refs.Keys;
      while todo != {}
        invariant todo == idx.refs.Keys && idx.Value() == Wiped(before).(refs := idx.refs, applied := idx.applied)
        decreases |todo|
      {
        var h :| h in todo;
        idx.DropRef(h);
        todo := todo - {h};
      }
      idx.SetApplied(0);
      assert idx.Value() == Wiped(before);
      var rs := jrnl.Replay(1);
      FromIsSuffix(jrnl.Records(), 1, 1);
      count := ApplyEach(rs.value);
    }

    method DropStoreNamespaces()
      modifies idx
      ensures idx.Value() == Wiped(old(idx.Value())).(refs := old(idx.refs), applied := old(idx.applied))
      ensures idx.objs == map s | s in old(idx.objs) && s.ns.scope.AgentScope? :: old(idx.objs)[s]
      ensures idx.stats == map ns | ns in old(idx.stats) && ns.scope.AgentScope? :: old(idx.stats)[ns]
    {
      ghost var before := idx.Value();
      assert before.refs == idx.refs && before.applied == idx.applied;
      hide *;
      var mine := StoreNamespaces();
      DropEach(mine, before);
    }

    method DropEach(mine: set<Ns>, ghost before: Db)
      requires idx.Value() == before
      modifies idx
      ensures idx.Value() == Without(before, mine)
    {
      hide *;
      WithoutNone(before, mine);
      var todo := mine;
      while todo != {}
        invariant todo <= mine && idx.Value() == Without(before, mine - todo)
        decreases |todo|
      {
        var ns :| ns in todo;
        WithoutOneMore(before, mine, todo, ns);
        DropOne(ns);
        todo := todo - {ns};
      }
      assert mine - todo == mine;
    }

    /** storeNamespaces: those of the store's own scope. */
    method StoreNamespaces() returns (mine: set<Ns>)
      ensures var d := idx.Value();
              mine == set ns | ns in d.stats.Keys + (set s | s in d.objs :: s.ns) && ns.scope.StoreScope?
    {
      var all := idx.Namespaces();
      mine := set ns | ns in all && ns.scope.StoreScope?;
    }

    method DropOne(ns: Ns)
      modifies idx
      ensures idx.Value() == old(idx.Value()).DropNamespace(ns)
    {
      idx.DropNamespace(ns);
    }

    /** Fsck: every object's blob, every live reference, and the blobs nothing points at. */
    method Fsck(rebuild: bool) returns (rep: Report)
      requires Valid()
      modifies idx
      ensures Valid()
      ensures Value() == if rebuild then Rebuilt(old(Value())) else old(Value())
      ensures rep == Verdict(Value(), rebuild)
    {
      var records := 0;
      if rebuild {
        records := RebuildIndex();
      }
      var objects, referenced, missing := CheckObjects();
      var stale := CheckRefs();
      var unreferenced := |blobs.files.Keys - referenced|;
      rep := Report(records, objects, |idx.refs|, missing, unreferenced, stale, rebuild);
    }

    /** The objects a walk over the store's namespaces visits. */
    method ListSlots() returns (slots: set<Slot>)
      ensures slots == StoreObjects(idx.Value()) && slots <= idx.objs.Keys
    {
      slots := set s | s in idx.objs && s.ns.scope.StoreScope?;
    }

    method CheckObjects() returns (objects: nat, referenced: set<Hash>, missing: set<Slot>)
      ensures objects == |StoreObjects(idx.Value())| && referenced == Referenced(idx.Value())
      ensures missing == Missing(Value())
    {
      var slots := ListSlots();
      objects, referenced, missing := CheckEach(slots);
    }

    /** The walk's body: each object is counted, its hash noted, and its blob looked for. */
    method CheckEach(slots: set<Slot>) returns (objects: nat, referenced: set<Hash>, missing: set<Slot>)
      requires slots <= idx.objs.Keys
      ensures objects == |slots| && referenced == HashesAt(idx.objs, slots)
      ensures missing == LostAt(idx.objs, blobs.files, slots)
    {
      hide *;
      ghost var objs, files := idx.objs, blobs.files;
      HashesAtNothing(objs, files, slots);
      var todo := slots;
      objects, referenced, missing := 0, {}, {};
      while todo != {}
        invariant todo <= slots && objects + |todo| == |slots|
        invariant referenced == HashesAt(objs, slots - todo)
        invariant missing == LostAt(objs, files, slots - todo)
        decreases |todo|
      {
        var s :| s in todo;
        WalkOn(slots, todo, s);
        HashesAtOneMore(objs, files, slots - todo, s);
        todo := todo - {s};
        objects := objects + 1;
        var hash := idx.objs[s].hash;
        if hash.Some? {
          referenced := referenced + {hash.value};
          var found := blobs.Stat(hash.value);
          if !found {
            missing := missing + {s};
          }
        }
      }
      assert slots - todo == slots;
    }

    method CheckRefs() returns (stale: nat)
      ensures stale == |Stale(Value())|
    {
      ghost var all := Stale(Value());
      stale := 0;
      var todo := idx.refs.Keys;
      assert all * todo == all;
      while todo != {}
        invariant todo <= idx.refs.Keys && stale + |all * todo| == |all|
        decreases |todo|
      {
        var h :| h in todo;
        ghost var rest := all * (todo - {h});
        assert all * todo == if h in all then rest + {h} else rest;
        todo := todo - {h};
        if idx.refs[h].count > 0 {
          var found := blobs.Stat(h);
          if !found {
            stale := stale + 1;
          }
        }
      }
    }

    // -------------------------------------------------------- multipart

    /** The id is random; the source relies on its never repeating. */
    method CreateUpload(bucket: Bytes, key: Bytes, id: nat) returns (r: Result<UploadId, StoreError>)
      requires UploadId(bucket, id) !in idx.uploads
      modifies idx`uploads
      ensures bucket !in buckets ==> r == Err(NoSuchBucket) && Value() == old(Value())
      ensures bucket in buckets && key == [] ==> r == Err(EmptyKey) && Value() == old(Value())
      ensures bucket in buckets && key != [] ==>
                && r == Ok(UploadId(bucket, id)) && Value() == Begun(old(Value()), UploadId(bucket, id), key)
                && idx.uploads == old(idx.uploads)[UploadId(bucket, id) := Upload(key, map[])]
    {
      if bucket !in buckets {
        return Err(NoSuchBucket);
      }
      if key == [] {
        return Err(EmptyKey);
      }
      idx.uploads := idx.uploads[UploadId(bucket, id) := Upload(key, map[])];
      r := Ok(UploadId(bucket, id));
    }

    method UploadPart(u: UploadId, number: nat, content: Bytes, now: Time) returns (r: Result<Part, StoreError>)
      modifies blobs`files, idx
      ensures !(1 <= number <= MAX_PARTS) ==> r == Err(PartNumberOutOfRange)
      ensures 1 <= number <= MAX_PARTS && u.bucket !in buckets ==> r == Err(NoSuchBucket)
      ensures 1 <= number <= MAX_PARTS && u.bucket in buckets && u !in old(idx.uploads) ==> r == Err(NoSuchUpload)
      ensures r.Err? ==> Value() == old(Value())
      ensures 1 <= number <= MAX_PARTS && u.bucket in buckets && u in old(idx.uploads) ==>
                && r == Ok(Part(Sha256(content), Md5(content), |content|))
                && Value() == PartStored(old(Value()), u, number, content, now)
                && var up := old(idx.uploads)[u];
                   idx.uploads == old(idx.uploads)[u := Upload(up.key, up.parts[number := r.value])]
    {
      if !(1 <= number <= MAX_PARTS) {
        return Err(PartNumberOutOfRange);
      }
      if u.bucket !in buckets {
        return Err(NoSuchBucket);
      }
      if u !in idx.uploads {
        return Err(NoSuchUpload);
      }
      var up := idx.uploads[u];
      var info := blobs.Put(content, now);
      var _ := idx.Adjust(info.hash, 1, now);
      if number in up.parts {
        var _ := idx.Adjust(up.parts[number].hash, -1, now);
      }
      var part := Part(info.hash, info.md5, info.size);
      idx.uploads := idx.uploads[u := up.(parts := up.parts[number := part])];
      r := Ok(part);
    }

    /** The method discardUpload: every part lets go of its blob and the upload is forgotten. */
    method DiscardUpload(u: UploadId, now: Time)
      requires u in idx.uploads && Clocked(idx.Value())
      modifies idx
      ensures idx.Value() == Discarded(old(idx.Value()), u, now) && idx.pending == old(idx.pending)
      ensures idx.uploads == old(idx.uploads) - {u} && idx.objs == old(idx.objs) && idx.stats == old(idx.stats)
    {
      ghost var before := idx.Value();
      var parts := idx.uploads[u].parts;
      ReleaseParts(parts, now);
      idx.uploads := idx.uploads - {u};
    }

    /** releaseBlob, for each part in whatever order the map gives them. */
    method ReleaseParts(parts: map<nat, Part>, now: Time)
      requires Clocked(idx.Value())
      modifies idx`refs
      ensures idx.Value() == Released(old(idx.Value()), parts, now)
    {
      hide Released, Clocked;
      ghost var before := idx.Value();
      var todo := parts.Keys;
      ghost var gone: map<nat, Part> := map[];
      ReleaseNothing(before, now);
      while todo != {}
        invariant todo <= parts.Keys && gone == parts - todo
        invariant idx.Value() == Released(before, gone, now)
        decreases |todo|
      {
        var n :| n in todo;
        todo := todo - {n};
        ReleaseOneMore(before, gone, n, parts[n], now);
        var _ := idx.Adjust(parts[n].hash, -1, now);
        gone := gone[n := parts[n]];
        assert gone == parts - todo;
      }
      assert gone == parts;
    }

    method AbortUpload(u: UploadId, now: Time) returns (r: Result<(), StoreError>)
      requires Clocked(idx.Value())
      modifies idx
      ensures u.bucket !in buckets ==> r == Err(NoSuchBucket)
      ensures u.bucket in buckets && u !in old(idx.uploads) ==> r == Err(NoSuchUpload)
      ensures r.Err? ==> Value() == old(Value())
      ensures u.bucket in buckets && u in old(idx.uploads) ==>
                r == Ok(()) && Value() == Aborted(old(Value()), u, now)
    {
      if u.bucket !in buckets {
        return Err(NoSuchBucket);
      }
      if u !in idx.uploads {
        return Err(NoSuchUpload);
      }
      DiscardUpload(u, now);
      r := Ok(());
    }

    /** The completion loop: checks each listed part and joins their contents and tags. */
    method Assemble(parts: map<nat, Part>, ws: seq<Want>) returns (got: Result<(Bytes, seq<ETag>), PartFault>)
      ensures got == Assembled(blobs.files, parts, ws)
      ensures got.Ok? <==> AllUsable(blobs.files, parts, ws)
      ensures got.Ok? ==> Joins(blobs.files, parts, ws, got.value.0, got.value.1)
      ensures got.Err? ==> FirstFault(blobs.files, parts, ws, got.error)
    {
      hide AllUsable, Joins, FirstFault;
      AssembledExactly(blobs.files, parts, ws);
      var content, tags := [], [];
      for i := 0 to |ws|
        invariant Assembled(blobs.files, parts, ws[..i]) == Ok((content, tags))
      {
        assert ws[..i + 1][..i] == ws[..i];
        if ws[i].number !in parts || parts[ws[i].number].etag != ws[i].etag {
          AssembledStops(blobs.files, parts, ws, i + 1);
          return Err(InvalidPart(ws[i].number));
        }
        var part := blobs.Open(parts[ws[i].number].hash);
        if part.None? {
          AssembledStops(blobs.files, parts, ws, i + 1);
          return Err(PartLost(parts[ws[i].number].hash));
        }
        content, tags := content + part.value, tags + [ws[i].etag];
      }
      assert ws[..|ws|] == ws;
      got := Ok((content, tags));
    }

    /** CompleteUpload: assembles the listed parts, in number order, into one object. */
    method CompleteUpload(u: UploadId, wants: seq<Want>, mtime: Time, now: Time)
      returns (r: Result<Entry, StoreError>, ghost order: seq<Want>)
      requires Valid() && Clocked(idx.Value())
      modifies blobs`files, jrnl, idx
      ensures Valid() && InOrder(order) && multiset(order) == multiset(wants)
      ensures u.bucket !in buckets ==> r == Err(NoSuchBucket)
      ensures u.bucket in buckets && u !in old(idx.uploads) ==> r == Err(NoSuchUpload)
      ensures u.bucket in buckets && u in old(idx.uploads) && wants == [] ==> r == Err(NoParts)
      ensures r.Err? ==> Value() == old(Value())
      ensures u.bucket in buckets && u in old(idx.uploads) && wants != [] ==>
                var got := Assembled(old(blobs.files), old(idx.uploads)[u].parts, order);
                && (if got.Err? then r == Err(BadPart(got.error)) else r.Ok?)
                && (r.Ok? <==> AllUsable(old(blobs.files), old(idx.uploads)[u].parts, order))
                && (r.Ok? ==> Joins(old(blobs.files), old(idx.uploads)[u].parts, order, got.value.0, got.value.1))
                && (got.Err? ==> FirstFault(old(blobs.files), old(idx.uploads)[u].parts, order, got.error))
                && (r.Ok? ==> Value() == Completed(old(Value()), u, got.value.0, got.value.1, mtime, now)
                              && r.value.size == |got.value.0| && r.value.etag == Md5OfParts(got.value.1))
    {
      hide IsLineCodec, WellFormed, Flat, Place, Files, Numbered, Released, Assembled, ApplyAt;
      hide AllUsable, Joins, FirstFault;
      order := wants;
      var sorted := SortWants(wants);
      order := sorted;
      if u.bucket !in buckets {
        return Err(NoSuchBucket), order;
      }
      if u !in idx.uploads {
        return Err(NoSuchUpload), order;
      }
      if wants == [] {
        return Err(NoParts), order;
      }
      var up := idx.uploads[u];
      var got := Assemble(up.parts, sorted);
      if got.Err? {
        return Err(BadPart(got.error)), order;
      }
      ghost var before := Value();
      PutClocked(before, u, up.key, got.value.0, got.value.1, mtime, now);
      r := PutWith(u.bucket, up.key, got.value.0, mtime, Md5OfParts(got.value.1), None, now, now, now);
      DiscardUpload(u, now);
    }
  }

  lemma {:induction false} AssembledStops(blobs: Blobs, parts: map<nat, Part>, ws: seq<Want>, n: nat)
    requires n <= |ws| && Assembled(blobs, parts, ws[..n]).Err?
    ensures Assembled(blobs, parts, ws) == Assembled(blobs, parts, ws[..n])
    decreases |ws|
  {
    if n < |ws| {
      var m := |ws| - 1;
      assert ws[..m][..n] == ws[..n];
      AssembledStops(blobs, parts, ws[..m], n);
    } else {
      assert ws[..n] == ws;
    }
  }

  lemma PutClocked(d: Disk, u: UploadId, key: Key, content: Bytes, tags: seq<ETag>, mtime: Time, now: Time)
    requires Clocked(d.db) && u in d.db.uploads && d.db.uploads[u].key == key
    ensures var op := CompletionOp(u, key, content, tags, mtime);
            var put := PutDone(d, op, content, now, now, now);
            && op == PutRecordOp(At(u.bucket, key), content, Md5OfParts(tags), mtime)
            && Clocked(put.db) && put.db.uploads == d.db.uploads
            && Completed(d, u, content, tags, mtime, now) == put.(db := Discarded(put.db, u, now))
  {
    hide Discarded;
    var op := CompletionOp(u, key, content, tags, mtime);
    var landed := Landed(d, content, now);
    ApplyKeepsClocks(d.db, NextRecord(landed, op, now), now);
    ApplyShape(d.db, NextRecord(landed, op, now), now);
    var logged := Logged(landed, op, now);
    assert logged.journal[|logged.journal| - 1] == NextRecord(landed, op, now);
    hide ApplyAt;
  }
}
