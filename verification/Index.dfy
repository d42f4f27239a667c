/**
 The object index (internal/index): entries per namespace, reference counts per blob,
 counters per namespace, and the access times that wait in memory.

 Db is the committed content of the index file. Its functions say what each transactional
 primitive of internal/index/tx.go makes of it; class DB below is the code.
 */
module Index {
  import opened Wrappers
  import opened ByteStrings
  import opened Blob

  type Key = k: Bytes | k != [] witness ['k']

  /** A store and an agent may share an index; each sees its own scope only. */
  datatype Scope = StoreScope | AgentScope

  datatype Ns = Ns(scope: Scope, name: Bytes)

  datatype Slot = Slot(ns: Ns, key: Key)

  datatype State = Dirty | Uploading | Synced | Evicted {
    /** Whether the site has the file. */
    predicate Local() { this != Evicted }

    /** Whether the store has the object, as far as the agent knows. */
    predicate Safe() { this == Synced || this == Evicted }

    predicate Unsent() { this == Dirty || this == Uploading }
  }

  datatype Entry = Entry(size: nat, mtime: Time, mode: nat, hash: Option<Hash>, etag: ETag,
                         state: State, atime: Time, pinned: bool)

  /** The holders of a blob, keys and parts alike, and the grace clock that runs while there are none. */
  datatype Ref = Ref(count: int, unrefAt: Option<Time>) {
    predicate Collectable(now: Time, grace: Time) {
      count <= 0 && unrefAt.Some? && now - unrefAt.value >= grace
    }
  }

  datatype Stats = Stats(objects: int, bytes: int, localObjects: int, localBytes: int,
                         dirtyObjects: int, dirtyBytes: int)

  const NO_STATS := Stats(0, 0, 0, 0, 0, 0)

  /** A multipart upload in progress, kept among the index's metadata values. */
  datatype Part = Part(hash: Hash, etag: ETag, size: nat)

  datatype Upload = Upload(key: Key, parts: map<nat, Part>)

  datatype UploadId = UploadId(bucket: Bytes, id: nat)

  datatype Db = Db(objs: map<Slot, Entry>, stats: map<Ns, Stats>, refs: map<Hash, Ref>,
                   applied: nat, uploads: map<UploadId, Upload>)
  {
    function Get(s: Slot): Option<Entry> {
      if s in objs then Some(objs[s]) else None
    }

    function StatsOf(ns: Ns): Stats {
      if ns in stats then stats[ns] else NO_STATS
    }

    /** The count held for a blob; a blob without a record counts as unreferenced. */
    function Count(h: Hash): int {
      if h in refs then refs[h].count else 0
    }

    function Put(s: Slot, e: Entry): Db {
      this.(objs := objs[s := e], stats := stats[s.ns := Recount(StatsOf(s.ns), Get(s), Some(e))])
    }

    function Delete(s: Slot): Db {
      if s !in objs then this
      else this.(objs := objs - {s}, stats := stats[s.ns := Recount(StatsOf(s.ns), Get(s), None)])
    }

    function SetState(s: Slot, state: State): Db {
      if s !in objs then this else Put(s, objs[s].(state := state))
    }

    function Adjust(h: Hash, delta: int, now: Time): Db {
      this.(refs := refs[h := Moved(if h in refs then refs[h] else Ref(0, None), delta, now)])
    }

    function DropRef(h: Hash): Db {
      this.(refs := refs - {h})
    }

    function DropNamespace(ns: Ns): Db {
      this.(objs := map s | s in objs && s.ns != ns :: objs[s], stats := stats - {ns})
    }

    /** Access times written through; only later ones, and only for keys that still exist. */
    function Flush(pending: map<Slot, Time>): Db {
      this.(objs := map s | s in objs :: Overlaid(objs[s], s, pending))
    }
  }

  const EMPTY_DB := Db(map[], map[], map[], 0, map[])

  /** A reference record after delta: reaching zero starts the grace clock, leaving it stops it; one that runs goes on. */
  function Moved(r: Ref, delta: int, now: Time): (m: Ref)
    ensures m.count == r.count + delta
    ensures m.unrefAt.Some? <==> m.count <= 0
    ensures m.unrefAt.Some? ==> m.unrefAt.value == if r.unrefAt.Some? then r.unrefAt.value else now
  {
    var count := r.count + delta;
    if count <= 0 && r.unrefAt.None? then Ref(count, Some(now))
    else if count > 0 then Ref(count, None)
    else Ref(count, r.unrefAt)
  }

  /** Stats.add: one entry folded into the counters with a sign. */
  function Add(s: Stats, e: Entry, sign: int): Stats {
    var local, unsent := e.state.Local(), e.state.Unsent();
    Stats(s.objects + sign, s.bytes + sign * e.size,
          if local then s.localObjects + sign else s.localObjects,
          if local then s.localBytes + sign * e.size else s.localBytes,
          if unsent then s.dirtyObjects + sign else s.dirtyObjects,
          if unsent then s.dirtyBytes + sign * e.size else s.dirtyBytes)
  }

  /** What replacing one entry, or none, by another, or none, does to the counters. */
  function Recount(s: Stats, prev: Option<Entry>, cur: Option<Entry>): Stats {
    var s := if prev.Some? then Add(s, prev.value, -1) else s;
    if cur.Some? then Add(s, cur.value, 1) else s
  }

  /** An entry as a reader sees it, with the access time still pending in memory. */
  function Overlaid(e: Entry, s: Slot, pending: map<Slot, Time>): (r: Entry)
    ensures r == e.(atime := r.atime) && r.atime >= e.atime && (s in pending ==> r.atime >= pending[s])
    ensures r.atime == e.atime || (s in pending && r.atime == pending[s])
  {
    if s in pending && pending[s] > e.atime then e.(atime := pending[s]) else e
  }

  /** The committed entry, with what is pending laid over. */
  function Look(d: Db, pending: map<Slot, Time>, s: Slot): Option<Entry> {
    if s in d.objs then Some(Overlaid(d.objs[s], s, pending)) else None
  }

  /** DropNamespace's clean-up of the pending access times. */
  function Forget(pending: map<Slot, Time>, ns: Ns): map<Slot, Time> {
    map s | s in pending && s.ns != ns :: pending[s]
  }

  // ---------------------------------------------------------------- counters

  ghost function SumSizes(objs: map<Slot, Entry>, ss: set<Slot>): (n: nat)
    requires ss <= objs.Keys
  {
    if ss == {} then 0 else
      var s :| s in ss;
      objs[s].size + SumSizes(objs, ss - {s})
  }

  lemma {:induction false} SumWithout(objs: map<Slot, Entry>, ss: set<Slot>, x: Slot)
    requires ss <= objs.Keys && x in ss
    ensures SumSizes(objs, ss) == objs[x].size + SumSizes(objs, ss - {x})
    decreases ss
  {
    var s :| s in ss && SumSizes(objs, ss) == objs[s].size + SumSizes(objs, ss - {s});
    if s != x {
      SumWithout(objs, ss - {s}, x);
      SumWithout(objs, ss - {x}, s);
      assert ss - {s} - {x} == ss - {x} - {s};
    }
  }

  lemma {:induction false} SumFrame(a: map<Slot, Entry>, b: map<Slot, Entry>, ss: set<Slot>)
    requires ss <= a.Keys && ss <= b.Keys
    requires forall s :: s in ss ==> a[s].size == b[s].size
    ensures SumSizes(a, ss) == SumSizes(b, ss)
    decreases ss
  {
    if ss != {} {
      var s :| s in ss && SumSizes(a, ss) == a[s].size + SumSizes(a, ss - {s});
      SumWithout(b, ss, s);
      SumFrame(a, b, ss - {s});
    }
  }

  function InNs(objs: map<Slot, Entry>, ns: Ns): set<Slot> {
    set s | s in objs && s.ns == ns
  }

  function LocalIn(objs: map<Slot, Entry>, ns: Ns): set<Slot> {
    set s | s in objs && s.ns == ns && objs[s].state != Evicted
  }

  function UnsentIn(objs: map<Slot, Entry>, ns: Ns): set<Slot> {
    set s | s in objs && s.ns == ns && objs[s].state in {Dirty, Uploading}
  }

  /** What a full walk of one namespace would report. */
  ghost function Tally(objs: map<Slot, Entry>, ns: Ns): Stats {
    var all, local, unsent := InNs(objs, ns), LocalIn(objs, ns), UnsentIn(objs, ns);
    Stats(|all|, SumSizes(objs, all), |local|, SumSizes(objs, local), |unsent|, SumSizes(objs, unsent))
  }

  /** The incremental counters equal the walk, in every namespace. */
  ghost predicate Exact(d: Db) {
    forall ns :: d.StatsOf(ns) == Tally(d.objs, ns)
  }

  /** a and b agree except at s. */
  ghost predicate SameBut(a: map<Slot, Entry>, b: map<Slot, Entry>, s: Slot) {
    forall t :: t != s ==> (t in a <==> t in b) && (t in a ==> a[t] == b[t])
  }

  /** One part of the tally, with the slot s set apart. */
  lemma SumApart(objs: map<Slot, Entry>, ss: set<Slot>, s: Slot)
    requires ss <= objs.Keys
    ensures SumSizes(objs, ss) == SumSizes(objs, ss - {s}) + if s in ss then objs[s].size else 0
    ensures |ss| == |ss - {s}| + if s in ss then 1 else 0
  {
    if s in ss {
      SumWithout(objs, ss, s);
    } else {
      assert ss - {s} == ss;
    }
  }

  /** How one part of the tally moves when the entry at s is replaced. */
  lemma SumMoves(a: map<Slot, Entry>, b: map<Slot, Entry>, s: Slot, sa: set<Slot>, sb: set<Slot>)
    requires SameBut(a, b, s) && sa <= a.Keys && sb <= b.Keys && sa - {s} == sb - {s}
    ensures SumSizes(b, sb) - (if s in sb then b[s].size else 0)
            == SumSizes(a, sa) - (if s in sa then a[s].size else 0)
    ensures |sb| - (if s in sb then 1 else 0) == |sa| - (if s in sa then 1 else 0)
  {
    SumApart(a, sa, s);
    SumApart(b, sb, s);
    SumFrame(a, b, sa - {s});
  }

  lemma AllApart(a: map<Slot, Entry>, b: map<Slot, Entry>, s: Slot)
    requires SameBut(a, b, s)
    ensures var sa, sb := InNs(a, s.ns), InNs(b, s.ns);
            && SumSizes(b, sb) - (if s in b then b[s].size else 0)
               == SumSizes(a, sa) - (if s in a then a[s].size else 0)
            && |sb| - (if s in b then 1 else 0) == |sa| - (if s in a then 1 else 0)
  {
    SumMoves(a, b, s, InNs(a, s.ns), InNs(b, s.ns));
  }

  lemma LocalApart(a: map<Slot, Entry>, b: map<Slot, Entry>, s: Slot)
    requires SameBut(a, b, s)
    ensures var sa, sb := LocalIn(a, s.ns), LocalIn(b, s.ns);
            var ina, inb := s in a && a[s].state.Local(), s in b && b[s].state.Local();
            && SumSizes(b, sb) - (if inb then b[s].size else 0)
               == SumSizes(a, sa) - (if ina then a[s].size else 0)
            && |sb| - (if inb then 1 else 0) == |sa| - (if ina then 1 else 0)
  {
    SumMoves(a, b, s, LocalIn(a, s.ns), LocalIn(b, s.ns));
  }

  lemma UnsentApart(a: map<Slot, Entry>, b: map<Slot, Entry>, s: Slot)
    requires SameBut(a, b, s)
    ensures var sa, sb := UnsentIn(a, s.ns), UnsentIn(b, s.ns);
            var ina, inb := s in a && a[s].state.Unsent(), s in b && b[s].state.Unsent();
            && SumSizes(b, sb) - (if inb then b[s].size else 0)
               == SumSizes(a, sa) - (if ina then a[s].size else 0)
            && |sb| - (if inb then 1 else 0) == |sa| - (if ina then 1 else 0)
  {
    SumMoves(a, b, s, UnsentIn(a, s.ns), UnsentIn(b, s.ns));
  }

  /** The tally with the entry at s taken out, if there is one. */
  ghost function Rest(objs: map<Slot, Entry>, s: Slot): Stats {
    Recount(Tally(objs, s.ns), if s in objs then Some(objs[s]) else None, None)
  }

  lemma RestAll(a: map<Slot, Entry>, b: map<Slot, Entry>, s: Slot)
    requires SameBut(a, b, s)
    ensures Rest(a, s).objects == Rest(b, s).objects && Rest(a, s).bytes == Rest(b, s).bytes
  {
    AllApart(a, b, s);
  }

  lemma RestLocal(a: map<Slot, Entry>, b: map<Slot, Entry>, s: Slot)
    requires SameBut(a, b, s)
    ensures Rest(a, s).localObjects == Rest(b, s).localObjects
    ensures Rest(a, s).localBytes == Rest(b, s).localBytes
  {
    LocalApart(a, b, s);
  }

  lemma RestUnsent(a: map<Slot, Entry>, b: map<Slot, Entry>, s: Slot)
    requires SameBut(a, b, s)
    ensures Rest(a, s).dirtyObjects == Rest(b, s).dirtyObjects
    ensures Rest(a, s).dirtyBytes == Rest(b, s).dirtyBytes
  {
    UnsentApart(a, b, s);
  }

  /** Counters kept incrementally stay exact when one entry appears, changes or goes. */
  lemma RecountKeepsTally(a: map<Slot, Entry>, b: map<Slot, Entry>, s: Slot)
    requires SameBut(a, b, s)
    ensures Tally(b, s.ns) == Recount(Tally(a, s.ns), if s in a then Some(a[s]) else None,
                                   if s in b then Some(b[s]) else None)
  {
    RestAll(a, b, s);
    RestLocal(a, b, s);
    RestUnsent(a, b, s);
    assert Tally(b, s.ns) == if s in b then Add(Rest(b, s), b[s], 1) else Rest(b, s);
  }

  lemma TallyElsewhere(a: map<Slot, Entry>, b: map<Slot, Entry>, ns: Ns)
    requires forall s: Slot :: s.ns == ns ==> (s in a <==> s in b)
    requires forall s: Slot :: s.ns == ns && s in a ==> a[s] == b[s].(atime := a[s].atime)
    ensures Tally(a, ns) == Tally(b, ns)
  {
    assert InNs(a, ns) == InNs(b, ns);
    assert LocalIn(a, ns) == LocalIn(b, ns);
    assert UnsentIn(a, ns) == UnsentIn(b, ns);
    SumFrame(a, b, InNs(a, ns));
    SumFrame(a, b, LocalIn(a, ns));
    SumFrame(a, b, UnsentIn(a, ns));
  }

  lemma RecountKeepsExact(d: Db, d': Db, s: Slot)
    requires Exact(d) && SameBut(d.objs, d'.objs, s)
    requires d'.stats == d.stats[s.ns := Recount(d.StatsOf(s.ns), d.Get(s), d'.Get(s))]
    ensures Exact(d')
  {
    assert d.StatsOf(s.ns) == Tally(d.objs, s.ns);
    RecountKeepsTally(d.objs, d'.objs, s);
    forall ns | ns != s.ns ensures d'.StatsOf(ns) == Tally(d'.objs, ns) {
      assert d.StatsOf(ns) == Tally(d.objs, ns);
      TallyElsewhere(d.objs, d'.objs, ns);
    }
  }

  lemma PutKeepsExact(d: Db, s: Slot, e: Entry)
    requires Exact(d)
    ensures Exact(d.Put(s, e))
  {
    RecountKeepsExact(d, d.Put(s, e), s);
  }

  lemma DeleteKeepsExact(d: Db, s: Slot)
    requires Exact(d)
    ensures Exact(d.Delete(s))
  {
    if s in d.objs { RecountKeepsExact(d, d.Delete(s), s); }
  }

  lemma DropNamespaceKeepsExact(d: Db, gone: Ns)
    requires Exact(d)
    ensures Exact(d.DropNamespace(gone))
  {
    var d' := d.DropNamespace(gone);
    forall ns ensures d'.StatsOf(ns) == Tally(d'.objs, ns) {
      if ns == gone {
        assert InNs(d'.objs, ns) == {} && LocalIn(d'.objs, ns) == {} && UnsentIn(d'.objs, ns) == {};
      } else {
        assert d.StatsOf(ns) == Tally(d.objs, ns);
        TallyElsewhere(d.objs, d'.objs, ns);
      }
    }
  }

  lemma FlushKeepsExact(d: Db, pending: map<Slot, Time>)
    requires Exact(d)
    ensures Exact(d.Flush(pending))
  {
    var d' := d.Flush(pending);
    forall ns ensures d'.StatsOf(ns) == Tally(d'.objs, ns) {
      assert d.StatsOf(ns) == Tally(d.objs, ns);
      TallyElsewhere(d.objs, d'.objs, ns);
    }
  }

  // ------------------------------------------------------- runs of operations

  /** Everything that can be done to the index from outside a store. */
  datatype Call =
    | CallPut(slot: Slot, entry: Entry)
    | CallDelete(slot: Slot)
    | CallSetState(slot: Slot, state: State)
    | CallDropNamespace(ns: Ns)
    | CallTouch(slot: Slot, at: Time)
    | CallFlush

  /** The index together with the access times that wait in memory. */
  datatype Mem = Mem(db: Db, pending: map<Slot, Time>)

  function Touched(pending: map<Slot, Time>, s: Slot, at: Time): map<Slot, Time> {
    if s !in pending || at > pending[s] then pending[s := at] else pending
  }

  function Do(m: Mem, c: Call): Mem {
    match c
    case CallPut(s, e) => m.(db := m.db.Put(s, e))
    case CallDelete(s) => Mem(m.db.Delete(s), m.pending - {s})
    case CallSetState(s, state) => m.(db := m.db.SetState(s, state))
    case CallDropNamespace(ns) => Mem(m.db.DropNamespace(ns), Forget(m.pending, ns))
    case CallTouch(s, at) => m.(pending := Touched(m.pending, s, at))
    case CallFlush => Mem(m.db.Flush(m.pending), map[])
  }

  function DoAll(m: Mem, cs: seq<Call>): Mem {
    if cs == [] then m else Do(DoAll(m, cs[..|cs| - 1]), cs[|cs| - 1])
  }

  /** After any sequence of calls the six counters of every namespace equal a full walk. */
  lemma {:induction false} CountersAreExact(cs: seq<Call>)
    ensures Exact(DoAll(Mem(EMPTY_DB, map[]), cs).db)
  {
    if cs == [] {
      forall ns ensures NO_STATS == Tally(map[], ns) {
        assert InNs(map[], ns) == LocalIn(map[], ns) == UnsentIn(map[], ns) == {};
      }
    } else {
      var m := DoAll(Mem(EMPTY_DB, map[]), cs[..|cs| - 1]);
      CountersAreExact(cs[..|cs| - 1]);
      match cs[|cs| - 1]
      case CallPut(s, e) => PutKeepsExact(m.db, s, e);
      case CallDelete(s) => DeleteKeepsExact(m.db, s);
      case CallSetState(s, state) =>
        if s in m.db.objs { PutKeepsExact(m.db, s, m.db.objs[s].(state := state)); }
      case CallDropNamespace(ns) => DropNamespaceKeepsExact(m.db, ns);
      case CallTouch(s, at) =>
      case CallFlush => FlushKeepsExact(m.db, m.pending);
    }
  }

  /** A flush changes no answer, and afterwards nothing is left to lose. */
  lemma FlushIsInvisible(m: Mem, s: Slot)
    ensures var f := Do(m, CallFlush);
            Look(f.db, f.pending, s) == Look(m.db, m.pending, s) == f.db.Get(s)
  {
    var f := Do(m, CallFlush);
    if s in m.db.objs {
      assert f.db.objs[s] == Overlaid(m.db.objs[s], s, m.pending);
    }
  }

  // -------------------------------------------------------------- the code

  class DB {
    var objs: map<Slot, Entry>
    var stats: map<Ns, Stats>
    var refs: map<Hash, Ref>
    var applied: nat
    var uploads: map<UploadId, Upload>
    var pending: map<Slot, Time>

    function Value(): Db
      reads this
    {
      Db(objs, stats, refs, applied, uploads)
    }

    constructor ()
      ensures Value() == EMPTY_DB && pending == map[]
    {
      objs, stats, refs, applied, uploads := map[], map[], map[], 0, map[];
      pending := map[];
    }

    method Get(s: Slot) returns (e: Option<Entry>)
      ensures e == Look(Value(), pending, s)
    {
      if s !in objs {
        return None;
      }
      var entry := objs[s];
      if s in pending && pending[s] > entry.atime {
        entry := entry.(atime := pending[s]);
      }
      e := Some(entry);
    }

    /** Tx.Get: what is committed. */
    method GetTx(s: Slot) returns (e: Option<Entry>)
      ensures e == Value().Get(s)
    {
      e := if s in objs then Some(objs[s]) else None;
    }

    method ApplyStats(ns: Ns, prev: Option<Entry>, cur: Option<Entry>)
      modifies this`stats
      ensures stats == old(stats)[ns := Recount(old(Value()).StatsOf(ns), prev, cur)]
    {
      var s := if ns in stats then stats[ns] else NO_STATS;
      if prev.Some? {
        s := Add(s, prev.value, -1);
      }
      if cur.Some? {
        s := Add(s, cur.value, 1);
      }
      stats := stats[ns := s];
    }

    method Put(s: Slot, e: Entry)
      modifies this
      ensures Value() == old(Value()).Put(s, e) && pending == old(pending)
      ensures old(Exact(Value())) ==> Exact(Value())
    {
      ghost var before := Value();
      var prev := if s in objs then Some(objs[s]) else None;
      objs := objs[s := e];
      ApplyStats(s.ns, prev, Some(e));
      if Exact(before) { PutKeepsExact(before, s, e); }
    }

    /** Tx.Delete: the pending access time stays. */
    method DeleteTx(s: Slot) returns (prev: Option<Entry>)
      modifies this
      ensures prev == old(Value()).Get(s)
      ensures Value() == old(Value()).Delete(s) && pending == old(pending)
      ensures old(Exact(Value())) ==> Exact(Value())
    {
      ghost var before := Value();
      if s !in objs {
        return None;
      }
      prev := Some(objs[s]);
      objs := objs - {s};
      ApplyStats(s.ns, prev, None);
      if Exact(before) { DeleteKeepsExact(before, s); }
    }

    method Delete(s: Slot)
      modifies this
      ensures Mem(Value(), pending) == Do(old(Mem(Value(), pending)), CallDelete(s))
      ensures objs == old(objs) - {s} && pending == old(pending) - {s} && refs == old(refs)
    {
      pending := pending - {s};
      var _ := DeleteTx(s);
    }

    method SetState(s: Slot, state: State) returns (known: bool)
      modifies this
      ensures known <==> s in old(objs)
      ensures Value() == old(Value()).SetState(s, state) && pending == old(pending)
      ensures objs == if known then old(objs)[s := old(objs)[s].(state := state)] else old(objs)
    {
      if s !in objs {
        return false;
      }
      var next := objs[s].(state := state);
      var prev := objs[s];
      objs := objs[s := next];
      ApplyStats(s.ns, Some(prev), Some(next));
      known := true;
    }

    method Touch(s: Slot, at: Time)
      modifies this`pending
      ensures pending == Touched(old(pending), s, at)
      ensures s in pending && pending[s] >= at && (s in old(pending) ==> pending[s] >= old(pending)[s])
      ensures pending[s] == at || (s in old(pending) && pending[s] == old(pending)[s])
      ensures forall t :: t != s ==> (t in pending <==> t in old(pending)) && (t in pending ==> pending[t] == old(pending)[t])
    {
      if s !in pending || at > pending[s] {
        pending := pending[s := at];
      }
    }

    method FlushATimes()
      modifies this
      ensures Mem(Value(), pending) == Do(old(Mem(Value(), pending)), CallFlush)
      ensures forall s :: Look(Value(), pending, s) == old(Look(Value(), pending, s))
    {
      ghost var m := Mem(Value(), pending);
      var batch := pending;
      pending := map[];
      WriteATimes(batch);
      forall s ensures Look(Value(), pending, s) == Look(m.db, m.pending, s) {
        FlushIsInvisible(m, s);
      }
    }

    /** The flush's transaction: a later access time replaces an earlier one. */
    method WriteATimes(batch: map<Slot, Time>)
      modifies this`objs
      ensures objs == old(Value()).Flush(batch).objs
    {
      ghost var before := objs;
      var todo := batch.Keys;
      while todo != {}
        invariant todo <= batch.Keys && objs.Keys == before.Keys
        invariant forall s :: s in before ==>
          objs[s] == if s in todo then before[s] else Overlaid(before[s], s, batch)
        decreases |todo|
      {
        var s :| s in todo;
        todo := todo - {s};
        if s in objs && batch[s] > objs[s].atime {
          objs := objs[s := objs[s].(atime := batch[s])];
        }
      }
    }

    method DropNamespace(ns: Ns)
      modifies this
      ensures Mem(Value(), pending) == Do(old(Mem(Value(), pending)), CallDropNamespace(ns))
      ensures objs == map s | s in old(objs) && s.ns != ns :: old(objs)[s]
      ensures pending == map s | s in old(pending) && s.ns != ns :: old(pending)[s]
      ensures stats == old(stats) - {ns} && refs == old(refs)
    {
      pending := map s | s in pending && s.ns != ns :: pending[s];
      objs := map s | s in objs && s.ns != ns :: objs[s];
      stats := stats - {ns};
    }

    /** The namespaces with a bucket; a bucket and its counters appear together. */
    method Namespaces() returns (out: set<Ns>)
      ensures out == stats.Keys + set s | s in objs :: s.ns
    {
      out := stats.Keys + set s | s in objs :: s.ns;
    }

    /** Tx.Ref: moves a blob's count and returns it. */
    method Adjust(h: Hash, delta: int, now: Time) returns (count: int)
      modifies this`refs
      ensures refs == old(Value()).Adjust(h, delta, now).refs
      ensures count == old(Value()).Count(h) + delta
    {
      var r := if h in refs then refs[h] else Ref(0, None);
      r := r.(count := r.count + delta);
      if r.count <= 0 && r.unrefAt.None? {
        r := r.(unrefAt := Some(now));
      } else if r.count > 0 {
        r := r.(unrefAt := None);
      }
      refs := refs[h := r];
      count := r.count;
    }

    method DropRef(h: Hash)
      modifies this`refs
      ensures refs == old(refs) - {h}
    {
      refs := refs - {h};
    }

    method SetApplied(n: nat)
      modifies this`applied
      ensures applied == n
    {
      applied := n;
    }
  }
}
