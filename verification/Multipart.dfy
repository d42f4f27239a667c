/**
 Multipart uploads (internal/store/multipart.go). Parts are ordinary blobs; an open upload is
 a small record among the index's metadata, and each of its parts holds one reference.
 */
module Multipart {
  import opened Wrappers
  import opened ByteStrings
  import opened Blob
  import opened Index
  import opened Journal
  import opened Apply
  import opened Disk
  import opened Grace

  const MAX_PARTS := 10000

  datatype Want = Want(number: nat, etag: ETag)

  // ------------------------------------------------------- what calls do

  function Begun(d: Disk, u: UploadId, key: Key): Disk {
    d.(db := d.db.(uploads := d.db.uploads[u := Upload(key, map[])]))
  }

  function WithPart(db: Db, u: UploadId, n: nat, p: Part): Db
    requires u in db.uploads
  {
    var up := db.uploads[u];
    db.(uploads := db.uploads[u := up.(parts := up.parts[n := p])])
  }

  /** The reference of the part that number n had before, if any. */
  function PartHash(db: Db, u: UploadId, n: nat): Option<Hash>
    requires u in db.uploads
  {
    var parts := db.uploads[u].parts;
    if n in parts then Some(parts[n].hash) else None
  }

  /** UploadPart: the new part takes its reference before the one it replaces gives its own back. */
  function PartStored(d: Disk, u: UploadId, n: nat, content: Bytes, now: Time): Disk
    requires u in d.db.uploads
  {
    var h, prev := Sha256(content), PartHash(d.db, u, n);
    var held := d.db.Adjust(h, 1, now);
    var db := if prev.Some? then held.Adjust(prev.value, -1, now) else held;
    Landed(d, content, now).(db := WithPart(db, u, n, Part(h, Md5(content), |content|)))
  }

  /** The part numbers that hold a blob. */
  function Holding(parts: map<nat, Part>, h: Hash): set<nat> {
    set n | n in parts && parts[n].hash == h
  }

  function HashesOf(parts: map<nat, Part>): set<Hash> {
    set n | n in parts :: parts[n].hash
  }

  function RefOf(db: Db, h: Hash): Ref {
    if h in db.refs then db.refs[h] else Ref(0, None)
  }

  /** Every part gives its reference back; the order in which they do does not matter. */
  function Released(db: Db, parts: map<nat, Part>, now: Time): Db {
    db.(refs := map h | h in db.refs.Keys + HashesOf(parts) ::
          if Holding(parts, h) == {} then RefOf(db, h) else Moved(RefOf(db, h), -|Holding(parts, h)|, now))
  }

  function Discarded(db: Db, u: UploadId, now: Time): Db
    requires u in db.uploads
  {
    Released(db, db.uploads[u].parts, now).(uploads := db.uploads - {u})
  }

  /** Why a completion fails: a listed part that is not as uploaded, or one whose blob is gone. */
  datatype PartFault = InvalidPart(number: nat) | PartLost(hash: Hash)

  /** The listed parts in number order, each checked and joined, up to the first fault. */
  function Assembled(blobs: Blobs, parts: map<nat, Part>, ws: seq<Want>): Result<(Bytes, seq<ETag>), PartFault> {
    if ws == [] then Ok(([], []))
    else
      var w, before := ws[|ws| - 1], Assembled(blobs, parts, ws[..|ws| - 1]);
      if before.Err? then before
      else if w.number !in parts || parts[w.number].etag != w.etag then Err(InvalidPart(w.number))
      else if parts[w.number].hash !in blobs then Err(PartLost(parts[w.number].hash))
      else Ok((before.value.0 + blobs[parts[w.number].hash].content, before.value.1 + [w.etag]))
  }

  /** The upload has the listed part, with the tag the client gives, and its blob is on disk. */
  predicate Usable(blobs: Blobs, parts: map<nat, Part>, w: Want) {
    w.number in parts && parts[w.number].etag == w.etag && parts[w.number].hash in blobs
  }

  function Listed(blobs: Blobs, parts: map<nat, Part>, w: Want): Bytes
    requires Usable(blobs, parts, w)
  {
    blobs[parts[w.number].hash].content
  }

  predicate AllUsable(blobs: Blobs, parts: map<nat, Part>, ws: seq<Want>) {
    forall i :: 0 <= i < |ws| ==> Usable(blobs, parts, ws[i])
  }

  /** Where the n-th listed part begins in the object: after the bytes of those before it. */
  function StartOf(blobs: Blobs, parts: map<nat, Part>, ws: seq<Want>, n: nat): nat
    requires n <= |ws| && AllUsable(blobs, parts, ws)
  {
    if n == 0 then 0 else StartOf(blobs, parts, ws, n - 1) + |Listed(blobs, parts, ws[n - 1])|
  }

  /** The i-th listed part's bytes are at their place in the content. */
  predicate InPlace(blobs: Blobs, parts: map<nat, Part>, ws: seq<Want>, i: nat, content: Bytes)
    requires i < |ws| && AllUsable(blobs, parts, ws)
  {
    var at, bytes := StartOf(blobs, parts, ws, i), Listed(blobs, parts, ws[i]);
    at + |bytes| <= |content| && content[at..at + |bytes|] == bytes
  }

  /** The content is the listed parts', each where those before it end, and the tags are theirs. */
  predicate Joins(blobs: Blobs, parts: map<nat, Part>, ws: seq<Want>, content: Bytes, tags: seq<ETag>) {
    && AllUsable(blobs, parts, ws)
    && |content| == StartOf(blobs, parts, ws, |ws|) && |tags| == |ws|
    && forall i :: 0 <= i < |ws| ==>
         InPlace(blobs, parts, ws, i, content) && tags[i] == parts[ws[i].number].etag
  }

  /** The fault of the first listed part that cannot be used: not as listed, or its blob gone. */
  ghost predicate FirstFault(blobs: Blobs, parts: map<nat, Part>, ws: seq<Want>, fault: PartFault) {
    exists i :: 0 <= i < |ws| && !Usable(blobs, parts, ws[i])
                && (forall j :: 0 <= j < i ==> Usable(blobs, parts, ws[j]))
                && if ws[i].number !in parts || parts[ws[i].number].etag != ws[i].etag
                   then fault == InvalidPart(ws[i].number)
                   else fault == PartLost(parts[ws[i].number].hash)
  }

  lemma {:induction false} StartOfPrefix(blobs: Blobs, parts: map<nat, Part>, ws: seq<Want>, m: nat, n: nat)
    requires n <= m <= |ws| && AllUsable(blobs, parts, ws)
    ensures AllUsable(blobs, parts, ws[..m]) && StartOf(blobs, parts, ws[..m], n) == StartOf(blobs, parts, ws, n)
  {
    if n > 0 { StartOfPrefix(blobs, parts, ws, m, n - 1); }
  }

  lemma InPlaceStays(blobs: Blobs, parts: map<nat, Part>, ws: seq<Want>, i: nat, content: Bytes, more: Bytes)
    requires i < |ws| - 1 && AllUsable(blobs, parts, ws)
    requires AllUsable(blobs, parts, ws[..|ws| - 1]) && InPlace(blobs, parts, ws[..|ws| - 1], i, content)
    ensures InPlace(blobs, parts, ws, i, content + more)
  {
    StartOfPrefix(blobs, parts, ws, |ws| - 1, i);
    hide StartOf, Listed, Usable;
    var at, bytes := StartOf(blobs, parts, ws, i), Listed(blobs, parts, ws[i]);
    assert (content + more)[at..at + |bytes|] == content[at..at + |bytes|];
  }

  /** One usable part more goes at the end. */
  lemma JoinsOneMore(blobs: Blobs, parts: map<nat, Part>, ws: seq<Want>, content: Bytes, tags: seq<ETag>)
    requires ws != [] && Usable(blobs, parts, ws[|ws| - 1])
    requires Joins(blobs, parts, ws[..|ws| - 1], content, tags)
    ensures Joins(blobs, parts, ws, content + Listed(blobs, parts, ws[|ws| - 1]),
                  tags + [parts[ws[|ws| - 1].number].etag])
  {
    hide InPlace, StartOf, Listed;
    var n := |ws| - 1;
    forall i | 0 <= i < n ensures Usable(blobs, parts, ws[i]) && tags[i] == parts[ws[i].number].etag {
      assert ws[..n][i] == ws[i];
    }
    StartOfPrefix(blobs, parts, ws, n, n);
    var bytes := Listed(blobs, parts, ws[n]);
    forall i | 0 <= i < n ensures InPlace(blobs, parts, ws, i, content + bytes) {
      InPlaceStays(blobs, parts, ws, i, content, bytes);
    }
    LastInPlace(blobs, parts, ws, content);
  }

  lemma LastInPlace(blobs: Blobs, parts: map<nat, Part>, ws: seq<Want>, content: Bytes)
    requires ws != [] && AllUsable(blobs, parts, ws) && |content| == StartOf(blobs, parts, ws, |ws| - 1)
    ensures var bytes := Listed(blobs, parts, ws[|ws| - 1]);
            && InPlace(blobs, parts, ws, |ws| - 1, content + bytes)
            && StartOf(blobs, parts, ws, |ws|) == |content + bytes|
  {
    hide Listed, Usable;
    var bytes := Listed(blobs, parts, ws[|ws| - 1]);
    assert (content + bytes)[|content|..|content| + |bytes|] == bytes;
  }

  /** Assembly succeeds exactly if every listed part is usable, and joins them; otherwise it names the first fault. */
  lemma {:induction false} AssembledExactly(blobs: Blobs, parts: map<nat, Part>, ws: seq<Want>)
    ensures var got := Assembled(blobs, parts, ws);
            && (got.Ok? <==> AllUsable(blobs, parts, ws))
            && (got.Ok? ==> Joins(blobs, parts, ws, got.value.0, got.value.1))
            && (got.Err? ==> FirstFault(blobs, parts, ws, got.error))
  {
    hide Joins, FirstFault;
    if ws == [] {
      NothingJoins(blobs, parts);
    } else {
      var n := |ws| - 1;
      AssembledExactly(blobs, parts, ws[..n]);
      assert forall i :: 0 <= i < n ==> ws[..n][i] == ws[i];
      var before := Assembled(blobs, parts, ws[..n]);
      if before.Err? {
        FaultStays(blobs, parts, ws, before.error);
      } else if Usable(blobs, parts, ws[n]) {
        JoinsOneMore(blobs, parts, ws, before.value.0, before.value.1);
      } else {
        assert forall j :: 0 <= j < n ==> Usable(blobs, parts, ws[..n][j]);
        LastFault(blobs, parts, ws, Assembled(blobs, parts, ws).error);
      }
    }
  }

  lemma NothingJoins(blobs: Blobs, parts: map<nat, Part>)
    ensures Joins(blobs, parts, [], [], [])
  {
  }

  lemma LastFault(blobs: Blobs, parts: map<nat, Part>, ws: seq<Want>, fault: PartFault)
    requires ws != [] && !Usable(blobs, parts, ws[|ws| - 1])
    requires forall j :: 0 <= j < |ws| - 1 ==> Usable(blobs, parts, ws[j])
    requires var w := ws[|ws| - 1];
             fault == if w.number !in parts || parts[w.number].etag != w.etag then InvalidPart(w.number)
                      else PartLost(parts[w.number].hash)
    ensures FirstFault(blobs, parts, ws, fault)
  {
    hide Usable;
  }

  lemma FaultStays(blobs: Blobs, parts: map<nat, Part>, ws: seq<Want>, fault: PartFault)
    requires ws != [] && FirstFault(blobs, parts, ws[..|ws| - 1], fault)
    ensures FirstFault(blobs, parts, ws, fault) && exists i :: 0 <= i < |ws| && !Usable(blobs, parts, ws[i])
  {
    hide Usable;
    var us := ws[..|ws| - 1];
    var i :| 0 <= i < |us| && !Usable(blobs, parts, us[i])
             && (forall j :: 0 <= j < i ==> Usable(blobs, parts, us[j]))
             && if us[i].number !in parts || parts[us[i].number].etag != us[i].etag
                then fault == InvalidPart(us[i].number)
                else fault == PartLost(parts[us[i].number].hash);
    assert !Usable(blobs, parts, ws[i]);
    forall j | 0 <= j < i ensures Usable(blobs, parts, ws[j]) {
      assert us[j] == ws[j];
    }
  }

  /** The mutation a completion journals: one object, tagged by how it was split. */
  function CompletionOp(u: UploadId, key: Key, content: Bytes, tags: seq<ETag>, mtime: Time): Op {
    Op.Put(u.bucket, key, Sha256(content), Md5OfParts(tags), |content|, mtime)
  }

  /** CompleteUpload: a whole PutWith, then the upload is discarded. */
  function Completed(d: Disk, u: UploadId, content: Bytes, tags: seq<ETag>, mtime: Time, now: Time): Disk
    requires u in d.db.uploads
  {
    var op := CompletionOp(u, d.db.uploads[u].key, content, tags, mtime);
    var logged := Logged(Landed(d, content, now), op, now);
    var put := Committed(logged, logged.journal[|logged.journal| - 1], now);
    // the commit leaves the upload records alone
    if u in put.db.uploads then put.(db := Discarded(put.db, u, now)) else put
  }

  function Aborted(d: Disk, u: UploadId, now: Time): Disk
    requires u in d.db.uploads
  {
    d.(db := Discarded(d.db, u, now))
  }

  // --------------------------------------------------------- conservation

  function Paired(u: UploadId, ns: set<nat>): set<(UploadId, nat)> {
    set n | n in ns :: (u, n)
  }

  lemma {:induction false} PairedCount(u: UploadId, ns: set<nat>)
    ensures |Paired(u, ns)| == |ns|
    decreases ns
  {
    if ns != {} {
      var n :| n in ns;
      PairedCount(u, ns - {n});
      assert Paired(u, ns) == Paired(u, ns - {n}) + {(u, n)};
      assert (u, n) !in Paired(u, ns - {n});
    }
  }

  lemma SlotsWithPart(db: Db, u: UploadId, n: nat, p: Part, h: Hash)
    requires u in db.uploads
    ensures |PartSlots(WithPart(db, u, n, p).uploads, h)|
            == |PartSlots(db.uploads, h)| + (if p.hash == h then 1 else 0)
               - (if PartHash(db, u, n) == Some(h) then 1 else 0)
  {
    var a, b, x := PartSlots(db.uploads, h), PartSlots(WithPart(db, u, n, p).uploads, h), (u, n);
    forall y ensures y in b <==> (if y == x then p.hash == h else y in a) {
    }
    Sets.SizeExcept(a, b, x);
  }

  lemma SlotsWithout(db: Db, u: UploadId, h: Hash)
    requires u in db.uploads
    ensures |PartSlots(db.uploads - {u}, h)| == |PartSlots(db.uploads, h)| - |Holding(db.uploads[u].parts, h)|
  {
    var a, b, mine := PartSlots(db.uploads, h), PartSlots(db.uploads - {u}, h), Paired(u, Holding(db.uploads[u].parts, h));
    PairedCount(u, Holding(db.uploads[u].parts, h));
    forall v: UploadId, n: nat ensures (v, n) in b <==> (v, n) in a && v != u {}
    forall n: nat ensures (u, n) in a <==> (u, n) in mine {}
    hide *;
    assert a == b + mine;
  }

  /** What storing a part does to the references: one taken, and one given back if it replaces another. */
  function PartRefs(db: Db, h: Hash, prev: Option<Hash>, now: Time): Db {
    var held := db.Adjust(h, 1, now);
    if prev.Some? then held.Adjust(prev.value, -1, now) else held
  }

  lemma PartRefsShape(db: Db, h: Hash, prev: Option<Hash>, now: Time, x: Hash)
    ensures var m := PartRefs(db, h, prev, now);
            && m == db.(refs := m.refs)
            && (Clocked(db) ==> Clocked(m))
            && m.Count(x) == db.Count(x) + (if x == h then 1 else 0) - (if prev == Some(x) then 1 else 0)
            && StampsFrom(db.refs, m.refs, now) && db.refs.Keys <= m.refs.Keys
  {
    var held := db.Adjust(h, 1, now);
    AdjustStamps(db, h, 1, now);
    if prev.Some? {
      AdjustStamps(held, prev.value, -1, now);
      StampsCompose(db.refs, held.refs, held.Adjust(prev.value, -1, now).refs, now);
    }
  }

  lemma PartStoredConserves(d: Disk, u: UploadId, n: nat, content: Bytes, now: Time)
    requires Conserved(d.db) && u in d.db.uploads
    ensures Conserved(PartStored(d, u, n, content, now).db)
  {
    hide PartRefs, PartStored, WithPart, PartSlots, PartHash, Holders;
    var d' := PartStored(d, u, n, content, now);
    var p, prev := Part(Sha256(content), Md5(content), |content|), PartHash(d.db, u, n);
    PartStoredShape(d, u, n, content, now);
    PartRefsShape(d.db, p.hash, prev, now, p.hash);
    forall h ensures Drift(d'.db, h) == 0 {
      assert Drift(d.db, h) == 0;
      PartRefsShape(d.db, p.hash, prev, now, h);
      SlotsWithPart(d.db, u, n, p, h);
    }
  }

  lemma PartStoredShape(d: Disk, u: UploadId, n: nat, content: Bytes, now: Time)
    requires u in d.db.uploads
    ensures var d' := PartStored(d, u, n, content, now);
            && d'.blobs == Land(d.blobs, content, now) && d'.journal == d.journal
            && d'.db.objs == d.db.objs && d'.db.applied == d.db.applied
            && d'.db.uploads == WithPart(d.db, u, n, Part(Sha256(content), Md5(content), |content|)).uploads
            && d'.db.refs == PartRefs(d.db, Sha256(content), PartHash(d.db, u, n), now).refs
  {
  }

  lemma ReleasedShape(db: Db, parts: map<nat, Part>, now: Time, h: Hash)
    ensures Holding(parts, h) != {} <==> h in HashesOf(parts)
    ensures Released(db, parts, now).Count(h) == db.Count(h) - |Holding(parts, h)|
  {
    if h in HashesOf(parts) {
      var n :| n in parts && parts[n].hash == h;
      assert n in Holding(parts, h);
    }
    if Holding(parts, h) != {} {
      var n :| n in Holding(parts, h);
      assert parts[n].hash in HashesOf(parts);
    }
  }

  lemma ReleasedKeepsClocks(db: Db, parts: map<nat, Part>, now: Time)
    requires Clocked(db)
    ensures Clocked(Released(db, parts, now))
  {
    forall h | h in Released(db, parts, now).refs
      ensures var r := Released(db, parts, now).refs[h]; r.unrefAt.Some? <==> r.count <= 0
    {
      ReleasedShape(db, parts, now, h);
    }
  }

  lemma DiscardConserves(db: Db, u: UploadId, now: Time)
    requires Conserved(db) && u in db.uploads
    ensures Conserved(Discarded(db, u, now))
  {
    var db' := Discarded(db, u, now);
    ReleasedKeepsClocks(db, db.uploads[u].parts, now);
    forall h ensures Drift(db', h) == 0 {
      assert Drift(db, h) == 0;
      SlotsWithout(db, u, h);
      ReleasedShape(db, db.uploads[u].parts, now, h);
      assert db'.Count(h) == Released(db, db.uploads[u].parts, now).Count(h);
    }
  }

  // -------------------------------------------------------------- sanity

  lemma BegunIsSane(d: Disk, u: UploadId, key: Key, now: Time)
    requires Sane(d, now) && u !in d.db.uploads
    ensures Sane(Begun(d, u, key), now)
  {
    hide Orderly, Timely, WellPlaced, Fold, ViewOfObjs;
    var d' := Begun(d, u, key);
    forall h ensures Drift(d'.db, h) == 0 {
      assert Drift(d.db, h) == 0;
      assert PartSlots(d'.db.uploads, h) == PartSlots(d.db.uploads, h);
    }
  }

  lemma PartStoredIsSane(d: Disk, u: UploadId, n: nat, content: Bytes, now: Time)
    requires Sane(d, now) && u in d.db.uploads
    ensures Sane(PartStored(d, u, n, content, now), now)
    ensures StampsFrom(d.db.refs, PartStored(d, u, n, content, now).db.refs, now)
    ensures d.db.refs.Keys <= PartStored(d, u, n, content, now).db.refs.Keys
  {
    hide Orderly, Timely, WellPlaced, Fold, ViewOfObjs, Conserved, PartStored;
    PartStoredConserves(d, u, n, content, now);
    PartStoredShape(d, u, n, content, now);
    PartRefsShape(d.db, Sha256(content), PartHash(d.db, u, n), now, Sha256(content));
  }

  lemma DiscardIsSane(d: Disk, u: UploadId, now: Time)
    requires Sane(d, now) && u in d.db.uploads
    ensures Sane(Aborted(d, u, now), now)
    ensures StampsFrom(d.db.refs, Aborted(d, u, now).db.refs, now)
    ensures d.db.refs.Keys <= Aborted(d, u, now).db.refs.Keys
  {
    hide Orderly, Timely, WellPlaced, Fold, ViewOfObjs, Conserved;
    DiscardConserves(d.db, u, now);
  }

}
