/**
 One site of the agent (internal/agent/agent.go, internal/agent/recall.go): files that the
 site's software writes, uploads, evictions, recalls and scans.

 World is what exists outside a process; After says what each step makes of it; class Site is
 the code. Steps are whole: a write is indexed before the next step begins, and an upload,
 an eviction or a recall is not interrupted, except that its last index update may be lost
 where a fate says so.
 */
module Agent {
  import opened Wrappers
  import opened ByteStrings
  import opened Blob
  import opened Index
  import opened Eviction

  /** Permission bits. */
  type Perm = n: nat | n < 0x200

  datatype LocalFile = LocalFile(content: Bytes, mtime: Time, mode: Perm)

  /** How a request to the store ends: refused, done but not recorded in the index, or done. */
  datatype Fate = Refused | Unrecorded | Done

  /**
   The files on local disk, the site's index entries, the objects on the store, and, for
   each file the site's software wrote and has not removed, what it last wrote.
   */
  datatype World = World(files: map<Key, LocalFile>, objs: map<Key, Entry>, remote: map<Key, Bytes>,
                         written: map<Key, LocalFile>, up: bool)

  datatype Step =
    | Write(key: Key, file: LocalFile, now: Time)
    | Edit(key: Key, file: LocalFile)
    | Seen(key: Key, now: Time) // a watcher's event, its own recalls echoed included
    | Unlink(key: Key)
    | Upload(key: Key, fate: Fate)
    | Evict(key: Key)
    | Recall(key: Key, fate: Fate)
    | Pin(key: Key, pinned: bool)
    | Scan(now: Time, fates: map<Key, Fate>)
    | Start(now: Time, fates: map<Key, Fate>)
    | Stop

  function DirtyEntry(f: LocalFile, now: Time): Entry {
    Entry(|f.content|, f.mtime, f.mode, None, NoTag, Dirty, now, false)
  }

  /** What a scan can see of a change. */
  predicate Differs(e: Entry, f: LocalFile) {
    e.size != |f.content| || e.mtime != f.mtime
  }

  function Noticed(objs: map<Key, Entry>, files: map<Key, LocalFile>, now: Time): map<Key, Entry> {
    map k | k in objs.Keys + files.Keys ::
      if k in files && (k !in objs || Differs(objs[k], files[k])) then DirtyEntry(files[k], now) else objs[k]
  }

  /** Entries whose file is gone, evicted ones apart. */
  function Gone(objs: map<Key, Entry>, files: map<Key, LocalFile>): set<Key> {
    set k | k in objs && k !in files && objs[k].state.Local()
  }

  function FateOf(fates: map<Key, Fate>, k: Key): Fate {
    if k in fates then fates[k] else Done
  }

  function Scanned(w: World, now: Time, fates: map<Key, Fate>): World {
    var gone := Gone(w.objs, w.files);
    w.(objs := Noticed(w.objs, w.files, now) - (set k | k in gone && FateOf(fates, k) == Done),
       remote := w.remote - (set k | k in gone && FateOf(fates, k) != Refused))
  }

  function Uploaded(w: World, k: Key, fate: Fate): World {
    if k !in w.objs || w.objs[k].state.Safe() || k !in w.files || fate == Refused then w
    else
      var sent := w.(remote := w.remote[k := w.files[k].content]);
      if fate == Unrecorded then sent else sent.(objs := w.objs[k := w.objs[k].(state := Synced)])
  }

  function EvictedFrom(w: World, k: Key): World {
    if k !in w.objs || !w.objs[k].state.Synced? then w
    else w.(files := w.files - {k}, objs := w.objs[k := w.objs[k].(state := Evicted)])
  }

  function Fetched(e: Entry, content: Bytes): LocalFile {
    LocalFile(content, e.mtime, e.mode % 0x200)
  }

  function Recalled(w: World, k: Key, fate: Fate): World {
    if k !in w.objs || (w.objs[k].state.Local() && k in w.files) || k !in w.remote || fate == Refused then w
    else
      var landed := w.(files := w.files[k := Fetched(w.objs[k], w.remote[k])]);
      if fate == Unrecorded then landed else landed.(objs := w.objs[k := w.objs[k].(state := Synced)])
  }

  function After(w: World, s: Step): World {
    match s
    case Write(k, f, now) =>
      w.(files := w.files[k := f], objs := w.objs[k := DirtyEntry(f, now)], written := w.written[k := f])
    case Edit(k, f) => w.(files := w.files[k := f], written := w.written[k := f])
    case Seen(k, now) => if k in w.files then w.(objs := w.objs[k := DirtyEntry(w.files[k], now)]) else w
    case Unlink(k) => w.(files := w.files - {k}, written := w.written - {k})
    case Upload(k, fate) => Uploaded(w, k, fate)
    case Evict(k) => EvictedFrom(w, k)
    case Recall(k, fate) => Recalled(w, k, fate)
    case Pin(k, pinned) => if k in w.objs then w.(objs := w.objs[k := w.objs[k].(pinned := pinned)]) else w
    case Scan(now, fates) => Scanned(w, now, fates)
    case Start(now, fates) => Scanned(w, now, fates).(up := true)
    case Stop => w.(up := false)
  }

  /**
   A file written unseen, while the agent is down or before its first index entry, must
   look different from its entry. Only an existing file can be removed.
   */
  predicate Enabled(w: World, s: Step) {
    match s
    case Write(k, f, now) => w.up
    case Edit(k, f) => (w.up ==> k !in w.objs) && (k in w.objs ==> Differs(w.objs[k], f))
    case Unlink(k) => k in w.files
    case Start(now, fates) => !w.up
    case _ => w.up
  }

  /** A write the agent hears of at once is a change on disk and the event it causes. */
  lemma WriteIsEditAndEvent(w: World, k: Key, f: LocalFile, now: Time)
    ensures After(w, Write(k, f, now)) == After(After(w, Edit(k, f)), Seen(k, now))
  {
  }

  /** A site at its first start: whatever files are there, and nothing known of them. */
  predicate Initial(w: World) {
    w.objs == map[] && w.written == w.files && !w.up
  }

  ghost predicate Run(ws: seq<World>, ss: seq<Step>) {
    && |ws| == |ss| + 1
    && forall i :: 0 <= i < |ss| ==> Enabled(ws[i], ss[i]) && ws[i + 1] == After(ws[i], ss[i])
  }

  ghost predicate Reachable(w: World) {
    exists ws, ss :: Run(ws, ss) && Initial(ws[0]) && ws[|ss|] == w
  }

  // ------------------------------------------------------------- invariant

  /** The index describes what was last written, and its bytes are where its state says. */
  predicate Settled(w: World, k: Key)
    requires k in w.written
  {
    var f := w.written[k];
    && k in w.objs
    && w.objs[k].size == |f.content| && w.objs[k].mtime == f.mtime && w.objs[k].mode == f.mode
    && (k in w.files ==> w.files[k] == f)
    && (w.objs[k].state.Local() ==> k in w.files)
    && (w.objs[k].state.Safe() ==> k in w.remote && w.remote[k] == f.content)
  }

  /** Written and not indexed yet, but such that the next scan will see it. */
  predicate Unseen(w: World, k: Key)
    requires k in w.written
  {
    && k in w.files && w.files[k] == w.written[k]
    && if w.up then k !in w.objs else k in w.objs ==> Differs(w.objs[k], w.files[k])
  }

  predicate Kept(w: World, k: Key) {
    k in w.written ==> Settled(w, k) || Unseen(w, k)
  }

  ghost predicate Inv(w: World) {
    forall k :: Kept(w, k)
  }

  lemma ScanKeeps(w: World, now: Time, fates: map<Key, Fate>, k: Key)
    requires Kept(w, k)
    ensures Kept(Scanned(w, now, fates), k) && Kept(Scanned(w, now, fates).(up := true), k)
  {
  }

  lemma UploadKeeps(w: World, key: Key, fate: Fate, k: Key)
    requires Kept(w, k)
    ensures Kept(Uploaded(w, key, fate), k)
  {
  }

  lemma EvictKeeps(w: World, key: Key, k: Key)
    requires Kept(w, k) && w.up
    ensures Kept(EvictedFrom(w, key), k)
  {
  }

  lemma RecallKeeps(w: World, key: Key, fate: Fate, k: Key)
    requires Kept(w, k) && w.up
    ensures Kept(Recalled(w, key, fate), k)
  {
  }

  lemma StepKeeps(w: World, s: Step, k: Key)
    requires Kept(w, k) && Enabled(w, s)
    ensures Kept(After(w, s), k)
  {
    hide Scanned, Uploaded, EvictedFrom, Recalled;
    match s
    case Scan(now, fates) => ScanKeeps(w, now, fates, k);
    case Start(now, fates) => ScanKeeps(w, now, fates, k);
    case Upload(key, fate) => UploadKeeps(w, key, fate, k);
    case Evict(key) => EvictKeeps(w, key, k);
    case Recall(key, fate) => RecallKeeps(w, key, fate, k);
    case _ =>
  }

  lemma {:induction false} RunKeepsInv(ws: seq<World>, ss: seq<Step>)
    requires Run(ws, ss) && Inv(ws[0])
    ensures Inv(ws[|ss|])
    decreases |ss|
  {
    if ss != [] {
      var n := |ss| - 1;
      RunKeepsInv(ws[..n + 1], ss[..n]);
      var w, w' := ws[n], ws[n + 1];
      forall k ensures Kept(w', k) {
        assert Kept(w, k);
        StepKeeps(w, ss[n], k);
      }
    }
  }

  lemma ReachableIsKept(w: World)
    requires Reachable(w)
    ensures Inv(w)
  {
    var ws, ss :| Run(ws, ss) && Initial(ws[0]) && ws[|ss|] == w;
    RunKeepsInv(ws, ss);
  }

  // ---------------------------------------------------------- main results

  /**
   In every reachable state, for every file the site wrote and did not remove: if the index
   calls it synced or evicted its last bytes are on the store, and if not they are local.
   */
  lemma LastBytesAreNeverLost(w: World, k: Key)
    requires Reachable(w) && k in w.written
    ensures k in w.objs && w.objs[k].state.Safe() && w.up ==> k in w.remote && w.remote[k] == w.written[k].content
    ensures k !in w.objs || w.objs[k].state.Local() ==> k in w.files && w.files[k] == w.written[k]
    ensures (k in w.files && w.files[k] == w.written[k]) || (k in w.remote && w.remote[k] == w.written[k].content)
  {
    ReachableIsKept(w);
    assert Kept(w, k);
  }

  /** What the site sees of a file: the file itself, or the index's answer for an evicted one. */
  function Stat(w: World, k: Key): Option<(nat, Time, nat)> {
    if k in w.files then Some((|w.files[k].content|, w.files[k].mtime, w.files[k].mode))
    else if k in w.objs && !w.objs[k].state.Local() then Some((w.objs[k].size, w.objs[k].mtime, w.objs[k].mode))
    else None
  }

  /** Size, modification time and mode are always those last written, local or evicted. */
  lemma EvictionIsInvisible(w: World, k: Key)
    requires Reachable(w) && k in w.written
    ensures var f := w.written[k]; Stat(w, k) == Some((|f.content|, f.mtime, f.mode))
  {
    ReachableIsKept(w);
    assert Kept(w, k);
  }

  /** A step of the cache's own: nobody writes or removes a file. */
  predicate OfCache(s: Step) {
    !s.Write? && !s.Edit? && !s.Unlink?
  }

  lemma {:induction false} CacheWritesNothing(ws: seq<World>, ss: seq<Step>)
    requires Run(ws, ss) && forall i :: 0 <= i < |ss| ==> OfCache(ss[i])
    ensures ws[|ss|].written == ws[0].written
    decreases |ss|
  {
    if ss != [] {
      var n := |ss| - 1;
      CacheWritesNothing(ws[..n + 1], ss[..n]);
      hide Scanned, Uploaded, Recalled, EvictedFrom;
      assert ws[n + 1] == After(ws[n], ss[n]);
    }
  }

  /** However the cache evicts, recalls, uploads, scans and hears of its own doings, the site sees no change. */
  lemma CacheChangesNothing(ws: seq<World>, ss: seq<Step>, k: Key)
    requires Run(ws, ss) && Reachable(ws[0]) && k in ws[0].written
    requires forall i :: 0 <= i < |ss| ==> OfCache(ss[i])
    ensures Stat(ws[|ss|], k) == Stat(ws[0], k)
    ensures k in ws[0].files && k in ws[|ss|].files ==> ws[|ss|].files[k] == ws[0].files[k]
  {
    CacheWritesNothing(ws, ss);
    ReachableIsKept(ws[0]);
    RunKeepsInv(ws, ss);
    assert Kept(ws[0], k) && Kept(ws[|ss|], k);
  }

  /** A scan takes from the store only what the site removed, and never an evicted object. */
  lemma ScanDeletesOnlyRemoved(w: World, now: Time, fates: map<Key, Fate>, k: Key)
    requires Reachable(w) && k in w.remote && k !in Scanned(w, now, fates).remote
    ensures k !in w.written && k !in w.files && k in w.objs && w.objs[k].state.Local()
  {
    ReachableIsKept(w);
    assert Kept(w, k);
  }

  /** Recall after eviction puts the very file back. */
  lemma RecallUndoesEvict(w: World, k: Key)
    requires Reachable(w) && w.up && k in w.written && k in w.objs && w.objs[k].state.Synced?
    ensures var e := EvictedFrom(w, k);
            k !in e.files && Recalled(e, k, Done).files == w.files && Recalled(e, k, Done).objs == w.objs
  {
    ReachableIsKept(w);
    assert Kept(w, k);
    hide Reachable, Inv, Kept;
    var e, f := EvictedFrom(w, k), w.written[k];
    assert e == w.(files := w.files - {k}, objs := w.objs[k := w.objs[k].(state := Evicted)]);
    assert Fetched(e.objs[k], e.remote[k]) == f && w.files[k] == f;
    hide EvictedFrom, Settled, Unseen, Fetched;
    assert (w.files - {k})[k := f] == w.files;
    assert w.objs[k := e.objs[k]][k := w.objs[k]] == w.objs;
  }

  /**
   An event on a file nobody changed, such as the echo of a recall, costs another upload, the
   pin and the access time; the file, the store and what the site sees stay as they were.
   */
  lemma EchoOnlyDirties(w: World, k: Key, now: Time)
    requires Reachable(w) && w.up && k in w.written && k in w.objs && k in w.files
    ensures var s := After(w, Seen(k, now));
            && s.files == w.files && s.remote == w.remote && Stat(s, k) == Stat(w, k)
            && s.objs == w.objs[k := w.objs[k].(hash := None, etag := NoTag, state := Dirty, atime := now, pinned := false)]
            && Uploaded(s, k, Done).remote == w.remote[k := w.written[k].content]
            && (w.objs[k].state.Safe() ==> Uploaded(s, k, Done).remote == w.remote)
  {
    ReachableIsKept(w);
    assert Kept(w, k);
    hide Reachable;
  }

  /**
   Exactly what a scan makes of the index, in any world: a file that is new, or whose size or time
   is not its entry's, is indexed afresh as dirty; an entry that says local goes if its file is
   absent and its removal is recorded; and every other entry is left alone.
   */
  lemma ScanIndexesExactly(w: World, now: Time, fates: map<Key, Fate>, k: Key)
    ensures var s := Scanned(w, now, fates);
            && s.files == w.files && s.written == w.written && s.up == w.up
            && (k in w.files && (k !in w.objs || w.objs[k].size != |w.files[k].content| || w.objs[k].mtime != w.files[k].mtime) ==>
                  var f := w.files[k];
                  k in s.objs && s.objs[k] == Entry(|f.content|, f.mtime, f.mode, None, NoTag, Dirty, now, false))
            && (k in w.files && k in w.objs && w.objs[k].size == |w.files[k].content| && w.objs[k].mtime == w.files[k].mtime ==>
                  k in s.objs && s.objs[k] == w.objs[k])
            && (k !in w.files && k in w.objs ==>
                  if w.objs[k].state != Evicted && FateOf(fates, k) == Done then k !in s.objs
                  else k in s.objs && s.objs[k] == w.objs[k])
            && (k !in w.files && k !in w.objs ==> k !in s.objs)
  {
  }

  /**
   Exactly what a scan takes from the store, in any world: the objects whose entry says local,
   whose file is not there, and whose deletion gets through.
   */
  lemma ScanRemovesExactly(w: World, now: Time, fates: map<Key, Fate>, k: Key)
    requires k in w.remote
    ensures k !in Scanned(w, now, fates).remote <==>
              k in w.objs && w.objs[k].state.Local() && k !in w.files && FateOf(fates, k) != Refused
    ensures k in Scanned(w, now, fates).remote ==> Scanned(w, now, fates).remote[k] == w.remote[k]
  {
  }

  /**
   So an eviction cut short between the file and the index is taken for a removal by the next
   scan, if and only if the deletion gets through; and then the object is nowhere any more.
   */
  lemma HalfEvictionIsARemoval(w: World, k: Key, now: Time, fates: map<Key, Fate>)
    requires k in w.objs && w.objs[k].state.Synced? && k in w.remote
    ensures var s := Scanned(w.(files := w.files - {k}), now, fates);
            k !in s.files && (k !in s.remote <==> FateOf(fates, k) != Refused)
            && (k !in s.objs <==> FateOf(fates, k) == Done)
  {
    ScanRemovesExactly(w.(files := w.files - {k}), now, fates, k);
  }

  /**
   A file changed while the agent is down: starting puts the entry right if and only if size or
   time tell, or there is nothing to put right, as neither the mode changed nor the content of an
   object that counts as stored.
   */
  lemma DownEditIsFound(w: World, k: Key, f: LocalFile, now: Time, fates: map<Key, Fate>)
    requires !w.up && k in w.objs
    ensures var e := w.objs[k];
            Kept(After(After(w, Edit(k, f)), Start(now, fates)), k)
            <==> e.size != |f.content| || e.mtime != f.mtime
                 || (e.mode == f.mode && (e.state.Safe() ==> k in w.remote && w.remote[k] == f.content))
  {
  }

  /** Otherwise the next eviction takes the only copy of what was written. */
  lemma DownEditCanBeLost(w: World, k: Key, f: LocalFile, now: Time, fates: map<Key, Fate>)
    requires !w.up && k in w.objs && w.objs[k].state.Synced? && k in w.remote
    requires !Differs(w.objs[k], f) && w.remote[k] != f.content
    ensures var w' := After(After(After(w, Edit(k, f)), Start(now, fates)), Evict(k));
            w'.written[k] == f && k !in w'.files && k in w'.remote && w'.remote[k] != f.content
  {
  }

  /** The keys a sweep queues again. */
  function Unsafe(objs: map<Key, Entry>): set<Key> {
    set k | k in objs && !objs[k].state.Safe()
  }

  function UploadAll(w: World, ks: seq<Key>): World {
    if ks == [] then w else Uploaded(UploadAll(w, ks[..|ks| - 1]), ks[|ks| - 1], Done)
  }

  lemma {:induction false} UploadAllSends(w: World, ks: seq<Key>, k: Key)
    requires Kept(w, k) && w.up && k in w.written && k in w.objs
    ensures var u := UploadAll(w, ks);
            && u.up && u.files == w.files && u.written == w.written && u.objs.Keys == w.objs.Keys && Kept(u, k)
            && (w.objs[k].state.Safe() || k in ks ==> u.objs[k].state.Safe())
  {
    if ks != [] {
      var n := |ks| - 1;
      UploadAllSends(w, ks[..n], k);
      StepKeeps(UploadAll(w, ks[..n]), Step.Upload(ks[n], Done), k);
    }
  }

  /** Once the swept keys have been uploaded, everything indexed and not removed is on the store. */
  lemma SweepSettles(w: World, ks: seq<Key>, k: Key)
    requires Reachable(w) && w.up && k in w.written && k in w.objs
    requires forall u :: u in Unsafe(w.objs) ==> u in ks
    ensures k in UploadAll(w, ks).remote && UploadAll(w, ks).remote[k] == w.written[k].content
  {
    ReachableIsKept(w);
    assert Kept(w, k);
    UploadAllSends(w, ks, k);
  }

  // ------------------------------------------------------------- the index

  /** One namespace of the index. */
  function Entries(objs: map<Slot, Entry>, ns: Ns): map<Key, Entry> {
    map s | s in objs && s.ns == ns :: s.key := objs[s]
  }

  lemma EntryAt(objs: map<Slot, Entry>, ns: Ns, k: Key)
    ensures k in Entries(objs, ns) <==> Slot(ns, k) in objs
    ensures k in Entries(objs, ns) ==> Entries(objs, ns)[k] == objs[Slot(ns, k)]
  {
    assert Slot(ns, k).key == k && Slot(ns, k).ns == ns;
  }

  /** Nothing outside one namespace has changed. */
  ghost predicate OnlyIn(ns: Ns, a: Db, b: Db) {
    && (forall s: Slot :: s.ns != ns ==> (s in a.objs <==> s in b.objs) && (s in a.objs ==> b.objs[s] == a.objs[s]))
    && (forall n :: n != ns ==> a.StatsOf(n) == b.StatsOf(n))
    && a.refs == b.refs && a.applied == b.applied && a.uploads == b.uploads
  }

  /** What every change to the site's index keeps. */
  ghost predicate Goes(ns: Ns, a: Db, b: Db) {
    OnlyIn(ns, a, b) && (Exact(a) ==> Exact(b))
  }

  lemma PutGoes(a: Db, ns: Ns, k: Key, e: Entry)
    ensures Goes(ns, a, a.Put(Slot(ns, k), e))
    ensures Entries(a.Put(Slot(ns, k), e).objs, ns) == Entries(a.objs, ns)[k := e]
  {
    EntriesOfPut(a.objs, ns, k, e);
    hide Exact, Recount, Entries;
    if Exact(a) { PutKeepsExact(a, Slot(ns, k), e); }
  }

  lemma EntriesOfPut(objs: map<Slot, Entry>, ns: Ns, k: Key, e: Entry)
    ensures Entries(objs[Slot(ns, k) := e], ns) == Entries(objs, ns)[k := e]
  {
    var was, next := Entries(objs, ns)[k := e], Entries(objs[Slot(ns, k) := e], ns);
    forall j ensures (j in next <==> j in was) && (j in was ==> next[j] == was[j]) {
      EntryAt(objs, ns, j);
      EntryAt(objs[Slot(ns, k) := e], ns, j);
      hide Entries;
    }
  }

  lemma DeleteGoes(a: Db, ns: Ns, k: Key)
    ensures Goes(ns, a, a.Delete(Slot(ns, k)))
    ensures Entries(a.Delete(Slot(ns, k)).objs, ns) == Entries(a.objs, ns) - {k}
  {
    EntriesOfDelete(a.objs, ns, k);
    hide Exact, Recount, Entries;
    if Exact(a) { DeleteKeepsExact(a, Slot(ns, k)); }
  }

  lemma EntriesOfDelete(objs: map<Slot, Entry>, ns: Ns, k: Key)
    ensures Entries(objs - {Slot(ns, k)}, ns) == Entries(objs, ns) - {k}
    ensures Slot(ns, k) !in objs ==> Entries(objs, ns) - {k} == Entries(objs, ns)
  {
    EntryAt(objs, ns, k);
    var was, next := Entries(objs, ns) - {k}, Entries(objs - {Slot(ns, k)}, ns);
    forall j ensures (j in next <==> j in was) && (j in was ==> next[j] == was[j]) {
      EntryAt(objs, ns, j);
      EntryAt(objs - {Slot(ns, k)}, ns, j);
      hide Entries;
    }
  }

  lemma Stays(ns: Ns, a: Db)
    ensures Goes(ns, a, a)
  {
  }

  lemma GoesOn(ns: Ns, a: Db, b: Db, c: Db)
    requires Goes(ns, a, b) && Goes(ns, b, c)
    ensures Goes(ns, a, c)
  {
  }

  function Restrict(files: map<Key, LocalFile>, ks: set<Key>): map<Key, LocalFile> {
    map k | k in files && k in ks :: files[k]
  }

  lemma NothingNoticed(objs: map<Key, Entry>, files: map<Key, LocalFile>, now: Time)
    ensures Noticed(objs, Restrict(files, {}), now) == objs
    ensures Restrict(files, files.Keys) == files
    ensures Tallied(objs, files, {}) == ScanStats(0, 0, 0, 0)
  {
    assert Restrict(files, {}) == map[];
    assert Added(objs, {}) == Changed(objs, files, {}) == {};
  }

  lemma NoticeOne(objs: map<Key, Entry>, files: map<Key, LocalFile>, seen: set<Key>, k: Key, now: Time)
    requires k in files && k !in seen
    ensures var n := Noticed(objs, Restrict(files, seen), now);
            && (k in n <==> k in objs) && (k in n ==> n[k] == objs[k])
            && Noticed(objs, Restrict(files, seen + {k}), now)
               == if k in objs && !Differs(objs[k], files[k]) then n else n[k := DirtyEntry(files[k], now)]
  {
    hide Differs, DirtyEntry;
  }

  lemma GoneIsUnnoticed(objs: map<Key, Entry>, files: map<Key, LocalFile>, now: Time)
    ensures Gone(Noticed(objs, files, now), files) == Gone(objs, files)
  {
  }

  function Added(objs: map<Key, Entry>, seen: set<Key>): set<Key> {
    set k | k in seen && k !in objs
  }

  function Changed(objs: map<Key, Entry>, files: map<Key, LocalFile>, seen: set<Key>): set<Key> {
    set k | k in seen && k in objs && k in files && Differs(objs[k], files[k])
  }

  /** What a scan counts among some of the files. */
  function Tallied(objs: map<Key, Entry>, files: map<Key, LocalFile>, seen: set<Key>): (t: ScanStats)
    ensures t.removed == 0
  {
    ScanStats(|seen|, |Added(objs, seen)|, |Changed(objs, files, seen)|, 0)
  }

  /** One more file looked at. */
  function Counted(t: ScanStats, objs: map<Key, Entry>, k: Key, f: LocalFile): ScanStats {
    var t := t.(files := t.files + 1);
    if k !in objs then t.(added := t.added + 1)
    else if Differs(objs[k], f) then t.(changed := t.changed + 1)
    else t
  }

  lemma CountedAlike(t: ScanStats, a: map<Key, Entry>, b: map<Key, Entry>, k: Key, f: LocalFile)
    requires (k in a <==> k in b) && (k in a ==> a[k] == b[k])
    ensures Counted(t, a, k, f) == Counted(t, b, k, f)
  {
  }

  lemma TallyOne(objs: map<Key, Entry>, files: map<Key, LocalFile>, seen: set<Key>, k: Key)
    requires k in files && k !in seen
    ensures Tallied(objs, files, seen + {k}) == Counted(Tallied(objs, files, seen), objs, k, files[k])
  {
    hide *;
    AddOne(objs, seen, k);
    ChangeOne(objs, files, seen, k);
    TallyParts(objs, files, seen, k);
  }

  lemma TallyParts(objs: map<Key, Entry>, files: map<Key, LocalFile>, seen: set<Key>, k: Key)
    requires k in files && k !in seen
    requires |Added(objs, seen + {k})| == |Added(objs, seen)| + if k in objs then 0 else 1
    requires |Changed(objs, files, seen + {k})|
             == |Changed(objs, files, seen)| + if k in objs && Differs(objs[k], files[k]) then 1 else 0
    ensures Tallied(objs, files, seen + {k}) == Counted(Tallied(objs, files, seen), objs, k, files[k])
  {
    hide Added, Changed, Differs;
  }

  lemma AddOne(objs: map<Key, Entry>, seen: set<Key>, k: Key)
    requires k !in seen
    ensures |Added(objs, seen + {k})| == |Added(objs, seen)| + if k in objs then 0 else 1
  {
    assert Added(objs, seen + {k}) == if k in objs then Added(objs, seen) else Added(objs, seen) + {k};
  }

  lemma ChangeOne(objs: map<Key, Entry>, files: map<Key, LocalFile>, seen: set<Key>, k: Key)
    requires k in files && k !in seen
    ensures |Changed(objs, files, seen + {k})|
            == |Changed(objs, files, seen)| + if k in objs && Differs(objs[k], files[k]) then 1 else 0
  {
    hide Differs;
    assert Changed(objs, files, seen + {k})
        == if k in objs && Differs(objs[k], files[k]) then Changed(objs, files, seen) + {k} else Changed(objs, files, seen);
  }

  function Sent(gone: set<Key>, fates: map<Key, Fate>): set<Key> {
    set k | k in gone && FateOf(fates, k) != Refused
  }

  function Removed(gone: set<Key>, fates: map<Key, Fate>): set<Key> {
    set k | k in gone && FateOf(fates, k) == Done
  }

  lemma NothingRemoved(fates: map<Key, Fate>, remote: map<Key, Bytes>, objs: map<Key, Entry>)
    ensures Removed({}, fates) == Sent({}, fates) == {}
    ensures remote - {} == remote && objs - {} == objs
  {
  }

  lemma RemoveOne(gone: set<Key>, fates: map<Key, Fate>, k: Key, remote: map<Key, Bytes>, objs: map<Key, Entry>)
    requires k !in gone
    ensures var fate := FateOf(fates, k);
            && remote - Sent(gone + {k}, fates)
               == (if fate == Refused then remote - Sent(gone, fates) else remote - Sent(gone, fates) - {k})
            && objs - Removed(gone + {k}, fates) == objs - Removed(gone, fates) - (if fate == Done then {k} else {})
            && |Removed(gone + {k}, fates)| == |Removed(gone, fates)| + if fate == Done then 1 else 0
  {
    hide *;
    FateMoves(gone, fates, k);
    WithoutOneMore(remote, Sent(gone, fates), k);
    WithoutOneMore(objs, Removed(gone, fates), k);
  }

  lemma WithoutOneMore<V>(m: map<Key, V>, gone: set<Key>, k: Key)
    ensures m - (gone + {k}) == m - gone - {k} && m - gone - {} == m - gone
  {
  }

  lemma FateMoves(gone: set<Key>, fates: map<Key, Fate>, k: Key)
    requires k !in gone
    ensures var fate := FateOf(fates, k);
            && Sent(gone + {k}, fates) == (if fate == Refused then Sent(gone, fates) else Sent(gone, fates) + {k})
            && Removed(gone + {k}, fates) == (if fate == Done then Removed(gone, fates) + {k} else Removed(gone, fates))
            && k !in Removed(gone, fates)
  {
    hide FateOf;
  }

  lemma ScanSplits(w: World, now: Time, fates: map<Key, Fate>)
    ensures var gone := Gone(w.objs, w.files);
            Scanned(w, now, fates) == w.(objs := Noticed(w.objs, w.files, now) - Removed(gone, fates),
                                         remote := w.remote - Sent(gone, fates))
  {
  }

  /** Those left out are the ones a pin or a pattern protects, and only those. */
  lemma SkippableExactly(objs: map<Key, Entry>, limits: Limits, never: set<Key>, k: Key)
    ensures k in Skippable(objs, limits, never)
            <==> k in objs && objs[k].state == Synced && objs[k].size >= limits.keepBelow && (objs[k].pinned || k in never)
  {
  }

  /** Entries that could be evicted but for a pin or a pattern. */
  function Skippable(objs: map<Key, Entry>, limits: Limits, never: set<Key>): set<Key> {
    Movables(objs, limits) - Eligible(objs, limits, never)
  }

  lemma NothingGathered(objs: map<Key, Entry>, limits: Limits, never: set<Key>)
    ensures Lists([], objs, Eligible(objs, limits, never) * {})
    ensures Skippable(objs, limits, never) * {} == {}
    ensures Eligible(objs, limits, never) * objs.Keys == Eligible(objs, limits, never)
    ensures Skippable(objs, limits, never) * objs.Keys == Skippable(objs, limits, never)
  {
  }

  lemma GatherOne(pool: seq<Candidate>, objs: map<Key, Entry>, limits: Limits, never: set<Key>, seen: set<Key>, k: Key)
    requires k in objs && k !in seen && Lists(pool, objs, Eligible(objs, limits, never) * seen)
    ensures var e := objs[k];
            var picked, passed := Eligible(objs, limits, never) * (seen + {k}), Skippable(objs, limits, never) * seen;
            if !Movable(e, limits) then Lists(pool, objs, picked) && Skippable(objs, limits, never) * (seen + {k}) == passed
            else if e.pinned || k in never then
              Lists(pool, objs, picked) && |Skippable(objs, limits, never) * (seen + {k})| == |passed| + 1
            else
              Lists(pool + [CandidateOf(k, e)], objs, picked) && Skippable(objs, limits, never) * (seen + {k}) == passed
  {
    var e, all := objs[k], Eligible(objs, limits, never);
    var skippable := Skippable(objs, limits, never);
    if Movable(e, limits) && !e.pinned && k !in never {
      assert all * (seen + {k}) == all * seen + {k};
      ListOneMore(pool, objs, all * seen, k);
      assert skippable * (seen + {k}) == skippable * seen;
    } else {
      assert all * (seen + {k}) == all * seen;
      assert skippable * (seen + {k}) == if Movable(e, limits) then skippable * seen + {k} else skippable * seen;
    }
  }

  lemma ListOneMore(pool: seq<Candidate>, objs: map<Key, Entry>, keys: set<Key>, k: Key)
    requires Lists(pool, objs, keys) && k in objs && k !in keys
    ensures Lists(pool + [CandidateOf(k, objs[k])], objs, keys + {k})
  {
    KeysAppend(pool, CandidateOf(k, objs[k]));
    forall i | 0 <= i < |pool| ensures pool[i].key != k {
      assert pool[i].key in Keys(pool);
    }
  }

  /** After i candidates, taken has been taken and the rest of the choice lies ahead. */
  ghost predicate Takes(order: seq<Candidate>, stuck: set<Key>, target: int, i: nat, taken: seq<Candidate>) {
    && i <= |order|
    && Chosen(order, stuck, target) == taken + Chosen(order[i..], stuck, target - Freed(taken))
    && forall c :: c in taken ==> c in order[..i]
  }

  lemma NothingTaken(order: seq<Candidate>, stuck: set<Key>, target: int, objs: map<Key, Entry>,
                     files: map<Key, LocalFile>)
    ensures Takes(order, stuck, target, 0, []) && Freed([]) == 0
    ensures Dropped(objs, Keys([])) == objs && files - Keys([]) == files
  {
    assert order[0..] == order;
  }

  lemma TakesNext(order: seq<Candidate>, stuck: set<Key>, target: int, i: nat, taken: seq<Candidate>,
                  objs: map<Key, Entry>, keys: set<Key>)
    requires i < |order| && Takes(order, stuck, target, i, taken) && Freed(taken) < target && Lists(order, objs, keys)
    ensures var c := order[i];
            && c.key in keys && c.key in objs && c == CandidateOf(c.key, objs[c.key]) && c.key !in Keys(taken)
            && Freed(taken + [c]) == Freed(taken) + c.size && Keys(taken + [c]) == Keys(taken) + {c.key}
            && Takes(order, stuck, target, i + 1, if c.key in stuck then taken else taken + [c])
  {
    var c := order[i];
    FreedAppend(taken, c);
    KeysAppend(taken, c);
    NotTakenYet(order, stuck, target, i, taken, objs, keys);
    hide *;
  }

  lemma NotTakenYet(order: seq<Candidate>, stuck: set<Key>, target: int, i: nat, taken: seq<Candidate>,
                    objs: map<Key, Entry>, keys: set<Key>)
    requires i < |order| && Takes(order, stuck, target, i, taken) && Lists(order, objs, keys)
    ensures var c := order[i];
            c.key in keys && c.key in objs && c == CandidateOf(c.key, objs[c.key]) && c.key !in Keys(taken)
  {
    hide Chosen, Freed;
    var c := order[i];
    assert c.key in Keys(order);
    forall j | 0 <= j < |taken| ensures taken[j].key != c.key {
      assert taken[j] in order[..i];
    }
  }

  lemma TakesAll(order: seq<Candidate>, stuck: set<Key>, target: int, i: nat, taken: seq<Candidate>)
    requires Takes(order, stuck, target, i, taken) && (i == |order| || Freed(taken) >= target)
    ensures taken == Chosen(order, stuck, target)
  {
    assert taken + [] == taken;
  }

  /** Evicting one more eligible object takes its size off the local bytes. */
  lemma TakeFrees(d: Db, ns: Ns, k: Key, objs: map<Key, Entry>, limits: Limits, never: set<Key>, gone: set<Key>)
    requires Entries(d.objs, ns) == Dropped(objs, gone)
    requires k in Eligible(objs, limits, never) && k !in gone
    ensures var s := Slot(ns, k);
            && d.Get(s) == Some(objs[k]) && objs[k].state.Synced?
            && Entries(d.SetState(s, Evicted).objs, ns) == Dropped(objs, gone + {k})
            && d.SetState(s, Evicted).StatsOf(ns).localBytes == d.StatsOf(ns).localBytes - objs[k].size
  {
    EntryAt(d.objs, ns, k);
    DroppedStep(objs, gone, k);
    EntriesOfPut(d.objs, ns, k, objs[k].(state := Evicted));
    hide Entries, Dropped;
  }

  function EvictEach(w: World, cs: seq<Candidate>): World {
    if cs == [] then w else EvictedFrom(EvictEach(w, cs[..|cs| - 1]), cs[|cs| - 1].key)
  }

  /** What a pass leaves is what evicting its candidates one by one leaves. */
  lemma {:induction false} PassIsEvictions(w: World, cs: seq<Candidate>)
    requires forall i :: 0 <= i < |cs| ==> cs[i].key in w.objs && w.objs[cs[i].key].state.Synced?
    ensures EvictEach(w, cs) == w.(files := w.files - Keys(cs), objs := Dropped(w.objs, Keys(cs)))
  {
    if cs == [] {
      assert Keys(cs) == {};
    } else {
      var n := |cs| - 1;
      PassIsEvictions(w, cs[..n]);
      assert cs == cs[..n] + [cs[n]];
      KeysAppend(cs[..n], cs[n]);
      hide Keys, EvictEach;
      EvictedAfterPass(w, Keys(cs[..n]), cs[n].key);
    }
  }

  lemma EvictedAfterPass(w: World, gone: set<Key>, k: Key)
    requires k in w.objs && w.objs[k].state.Synced?
    ensures EvictedFrom(w.(files := w.files - gone, objs := Dropped(w.objs, gone)), k)
            == w.(files := w.files - (gone + {k}), objs := Dropped(w.objs, gone + {k}))
  {
    assert w.files - gone - {k} == w.files - (gone + {k});
    if k in gone {
      assert gone + {k} == gone;
    } else {
      DroppedStep(w.objs, gone, k);
    }
  }

  lemma ChosenAreSynced(order: seq<Candidate>, stuck: set<Key>, target: int,
                        objs: map<Key, Entry>, limits: Limits, never: set<Key>)
    requires Lists(order, objs, Eligible(objs, limits, never))
    ensures forall c :: c in Chosen(order, stuck, target) ==> c.key in objs && objs[c.key].state.Synced?
  {
    forall c | c in Chosen(order, stuck, target) ensures c.key in objs && objs[c.key].state.Synced? {
      ChosenFromPool(order, stuck, target, c);
      assert c.key in Keys(order);
    }
  }

  lemma {:induction false} ChosenFromPool(pool: seq<Candidate>, stuck: set<Key>, target: int, c: Candidate)
    requires c in Chosen(pool, stuck, target)
    ensures c in pool && c.key !in stuck
  {
    if pool[0].key in stuck {
      ChosenFromPool(pool[1..], stuck, target, c);
    } else if c != pool[0] {
      ChosenFromPool(pool[1..], stuck, target - pool[0].size, c);
    }
  }

  lemma StepIsReachable(w: World, s: Step)
    requires Reachable(w) && Enabled(w, s)
    ensures Reachable(After(w, s))
  {
    hide After, Enabled, Initial;
    var ws, ss :| Run(ws, ss) && Initial(ws[0]) && ws[|ss|] == w;
    assert Run(ws + [After(w, s)], ss + [s]);
  }

  /** So every result about reachable states survives a pass. */
  lemma {:induction false} PassIsReachable(w: World, cs: seq<Candidate>)
    requires Reachable(w) && w.up
    ensures Reachable(EvictEach(w, cs)) && EvictEach(w, cs).up && EvictEach(w, cs).written == w.written
  {
    if cs != [] {
      var n := |cs| - 1;
      PassIsReachable(w, cs[..n]);
      StepIsReachable(EvictEach(w, cs[..n]), Step.Evict(cs[n].key));
      hide Reachable;
    }
  }

  // -------------------------------------------------------------- the code

  const MAX_ATTEMPTS := 5

  /** How one request of an upload ends: accepted, or failed, with the object stored or not. */
  datatype Attempt = Answered(recorded: bool) | Failed(arrived: bool, retryable: bool)

  /** What an upload comes to, attempt after attempt; landed tells of the attempts before. */
  function Outcome(attempts: seq<Attempt>, landed: bool): Fate {
    if attempts == [] then (if landed then Unrecorded else Refused)
    else
      match attempts[0]
      case Answered(recorded) => if recorded then Done else Unrecorded
      case Failed(arrived, retryable) =>
        if retryable then Outcome(attempts[1..], landed || arrived)
        else if landed || arrived then Unrecorded
        else Refused
  }

  /** The attempts before the i-th all failed in a way that may pass. */
  predicate Reached(attempts: seq<Attempt>, i: nat) {
    i <= |attempts| && forall j :: 0 <= j < i ==> attempts[j].Failed? && attempts[j].retryable
  }

  /**
   An upload is done exactly if an attempt it comes to is accepted and recorded, and leaves the
   store untouched exactly if none it comes to is accepted or arrives all the same.
   */
  lemma {:induction false} OutcomeExactly(attempts: seq<Attempt>, landed: bool)
    ensures Outcome(attempts, landed) == Done
            <==> exists i :: 0 <= i < |attempts| && Reached(attempts, i) && attempts[i] == Answered(true)
    ensures Outcome(attempts, landed) == Refused
            <==> !landed && forall i :: 0 <= i < |attempts| && Reached(attempts, i) ==>
                                          attempts[i].Failed? && !attempts[i].arrived
  {
    if attempts != [] {
      var rest := attempts[1..];
      OutcomeExactly(rest, landed || (attempts[0].Failed? && attempts[0].arrived));
      assert Reached(attempts, 0);
      forall i | 0 <= i < |rest| ensures Reached(attempts, i + 1)
                 <==> attempts[0].Failed? && attempts[0].retryable && Reached(rest, i)
      {
        assert forall j :: 1 <= j < i + 1 ==> attempts[j] == rest[j - 1];
      }
      assert forall i :: 1 <= i < |attempts| ==> attempts[i] == rest[i - 1];
    }
  }

  function Tries(attempts: seq<Attempt>): seq<Attempt> {
    if |attempts| <= MAX_ATTEMPTS then attempts else attempts[..MAX_ATTEMPTS]
  }

  lemma TriesEnd(attempts: seq<Attempt>)
    ensures var tries := Tries(attempts);
            |tries| == (if |attempts| < MAX_ATTEMPTS then |attempts| else MAX_ATTEMPTS) && tries[0..] == tries
            && tries == if |attempts| <= 5 then attempts else attempts[..5]
    ensures forall i :: 0 <= i < |Tries(attempts)| ==> Tries(attempts)[i] == attempts[i]
  {
  }

  /** What each end of an upload makes of the world. */
  lemma UploadedAs(w: World, k: Key)
    ensures Uploaded(w, k, Refused) == w
    ensures k !in w.objs || w.objs[k].state.Safe() || k !in w.files ==> forall fate :: Uploaded(w, k, fate) == w
    ensures k in w.objs && !w.objs[k].state.Safe() && k in w.files ==>
              var sent := w.(remote := w.remote[k := w.files[k].content]);
              && Uploaded(w, k, Unrecorded) == sent
              && Uploaded(w, k, Done) == sent.(objs := w.objs[k := w.objs[k].(state := Synced)])
  {
  }

  /** And of a recall that has to fetch. */
  lemma RecalledAs(w: World, k: Key, fate: Fate)
    requires k in w.objs && (k in w.files ==> !w.objs[k].state.Local())
    ensures var e := w.objs[k];
            After(w, Step.Recall(k, fate)) ==
              if k !in w.remote || fate == Refused then w
              else
                var landed := w.(files := w.files[k := LocalFile(w.remote[k], e.mtime, e.mode % 0x200)]);
                if fate == Unrecorded then landed else landed.(objs := w.objs[k := e.(state := Synced)])
  {
  }

  lemma OutcomeStep(attempts: seq<Attempt>, i: nat, landed: bool)
    requires i < |attempts|
    ensures Outcome(attempts[i..], landed) ==
              match attempts[i]
              case Answered(recorded) => if recorded then Done else Unrecorded
              case Failed(arrived, retryable) =>
                if retryable then Outcome(attempts[i + 1..], landed || arrived)
                else if landed || arrived then Unrecorded else Refused
  {
    assert attempts[i..][1..] == attempts[i + 1..];
  }

  lemma OutcomeNone(landed: bool)
    ensures Outcome([], landed) == if landed then Unrecorded else Refused
  {
  }

  /** What an event tells: a removal or a rename away; a write, a creation or a change of mode; or neither. */
  datatype Change = Removal | Content | Other

  datatype ScanStats = ScanStats(files: nat, added: nat, changed: nat, removed: nat)

  datatype EvictStats = EvictStats(candidates: nat, evicted: nat, bytesFreed: nat, skipped: nat)

  class Site {
    const ns: Ns
    const idx: DB
    const limits: Limits
    /** The keys that never_evict matches. */
    const never: set<Key>
    var files: map<Key, LocalFile>
    var remote: map<Key, Bytes>
    var up: bool
    ghost var written: map<Key, LocalFile>

    constructor (ns: Ns, idx: DB, limits: Limits, never: set<Key>, files: map<Key, LocalFile>, remote: map<Key, Bytes>)
      ensures this.ns == ns && this.idx == idx && this.limits == limits && this.never == never
      ensures Entries(idx.objs, ns) == map[] ==> Initial(Now())
    {
      this.ns, this.idx, this.limits, this.never := ns, idx, limits, never;
      this.files, this.remote, this.up, this.written := files, remote, false, files;
    }

    ghost function Now(): World
      reads this, idx
    {
      World(files, Entries(idx.objs, ns), remote, written, up)
    }

    ghost predicate Since(before: Db)
      reads this, idx
    {
      Goes(ns, before, idx.Value())
    }

    /** The site's software writes a file; the agent has no part in it. */
    method FileWritten(key: Key, file: LocalFile)
      modifies this`files, this`written
      ensures Now() == After(old(Now()), Edit(key, file))
    {
      files, written := files[key := file], written[key := file];
    }

    /**
     One event of the watcher on a path, which may be a directory. A removal only queues the
     key, a new directory is scanned, and a changed file is indexed afresh.
     */
    method HandleEvent(key: Key, change: Change, dir: bool, now: Time, fates: map<Key, Fate>) returns (queued: bool)
      modifies this, idx
      ensures Since(old(idx.Value()))
      ensures Now() == if change == Removal || (!dir && key !in old(files)) then old(Now())
                       else if dir then After(old(Now()), Step.Scan(now, fates))
                       else if change == Other then old(Now())
                       else After(old(Now()), Seen(key, now))
      ensures queued <==> change == Removal || (change == Content && !dir && key in old(files))
    {
      hide Goes, Entries, Recount, Scanned, Noticed;
      Stays(ns, idx.Value());
      if change == Removal {
        return true;
      }
      if !dir && key !in files {
        return false;
      }
      if dir {
        var _ := RunScan(now, fates);
        return false;
      }
      if change == Other {
        return false;
      }
      var file := files[key];
      PutGoes(idx.Value(), ns, key, DirtyEntry(file, now));
      idx.Put(Slot(ns, key), Entry(|file.content|, file.mtime, file.mode, None, NoTag, Dirty, now, false));
      queued := true;
    }

    /** SetState to synced, as an upload or a recall ends. */
    method MarkSynced(key: Key)
      requires key in Entries(idx.objs, ns)
      modifies idx
      ensures Since(old(idx.Value()))
      ensures var was := Entries(old(idx.objs), ns); Entries(idx.objs, ns) == was[key := was[key].(state := Synced)]
      ensures idx.pending == old(idx.pending)
    {
      hide Goes, Entries, Recount;
      EntryAt(idx.objs, ns, key);
      PutGoes(idx.Value(), ns, key, idx.objs[Slot(ns, key)].(state := Synced));
      var _ := idx.SetState(Slot(ns, key), Synced);
    }

    /** upload: sends one object, trying again after a failure that may pass. */
    method SendFile(key: Key, attempts: seq<Attempt>)
      modifies this, idx
      ensures Since(old(idx.Value()))
      ensures Now() == After(old(Now()), Step.Upload(key, Outcome(Tries(attempts), false)))
      ensures var was, fate := old(Now()), Outcome(Tries(attempts), false);
              var sends := key in was.objs && was.objs[key].state in {Dirty, Uploading} && key in was.files;
              && files == was.files
              && remote == (if sends && fate != Refused then was.remote[key := was.files[key].content] else was.remote)
              && Entries(idx.objs, ns) == if sends && fate == Done then was.objs[key := was.objs[key].(state := Synced)]
                                          else was.objs
    {
      hide Goes, Entries, Recount, Scanned, Outcome, Uploaded, Tries;
      EntryAt(idx.objs, ns, key);
      Stays(ns, idx.Value());
      UploadedAs(Now(), key);
      var e := idx.Get(Slot(ns, key));
      if e.None? || e.value.state.Safe() {
        return;
      }
      if key !in files {
        return;
      }
      var fate := TryToSend(key, attempts);
      if fate == Done {
        MarkSynced(key);
      }
    }

    /** The attempts themselves, and what they come to. */
    method TryToSend(key: Key, attempts: seq<Attempt>) returns (fate: Fate)
      requires key in files
      modifies this`remote
      ensures fate == Outcome(Tries(attempts), false) == Outcome(if |attempts| <= 5 then attempts else attempts[..5], false)
      ensures remote == if fate == Refused then old(remote) else old(remote)[key := files[key].content]
    {
      hide *;
      ghost var tries, stored := Tries(attempts), remote;
      TriesEnd(attempts);
      var landed := false;
      var attempt := 0;
      while attempt < MAX_ATTEMPTS && attempt < |attempts|
        invariant attempt <= |attempts| && attempt <= MAX_ATTEMPTS
        invariant remote == if landed then stored[key := files[key].content] else stored
        invariant Outcome(tries, false) == Outcome(tries[attempt..], landed)
      {
        OutcomeStep(tries, attempt, landed);
        var answer := attempts[attempt];
        attempt := attempt + 1;
        if answer.Answered? {
          remote := remote[key := files[key].content];
          return if answer.recorded then Done else Unrecorded;
        }
        if answer.arrived {
          remote, landed := remote[key := files[key].content], true;
        }
        if !answer.retryable {
          return if landed then Unrecorded else Refused;
        }
      }
      assert tries[attempt..] == [];
      OutcomeNone(landed);
      fate := if landed then Unrecorded else Refused;
    }

    /** Removes the local bytes of an object that is on the store; stuck is a file the system will not remove. */
    method Evict(key: Key, stuck: bool) returns (ok: bool)
      modifies this, idx
      ensures Now() == (if stuck then old(Now()) else After(old(Now()), Step.Evict(key))) && Since(old(idx.Value()))
      ensures var e := old(idx.Value()).Get(Slot(ns, key));
              ok <==> e.Some? && e.value.state.Safe() && (stuck ==> e.value.state.Evicted?)
      ensures remote == old(remote) && up == old(up) && written == old(written)
      ensures var e := old(idx.Value()).Get(Slot(ns, key));
              var gone := ok && e.Some? && e.value.state.Synced?;
              && files == old(files) - (if gone then {key} else {})
              && idx.Value() == if gone then old(idx.Value()).SetState(Slot(ns, key), Evicted) else old(idx.Value())
    {
      hide Goes, Entries, Recount, Scanned, Noticed;
      EntryAt(idx.objs, ns, key);
      Stays(ns, idx.Value());
      var e := idx.Get(Slot(ns, key));
      if e.None? {
        return false;
      }
      if !e.value.state.Safe() {
        return false;
      }
      if e.value.state == Evicted {
        return true;
      }
      if stuck {
        return false;
      }
      files := files - {key};
      PutGoes(idx.Value(), ns, key, idx.objs[Slot(ns, key)].(state := Evicted));
      ok := idx.SetState(Slot(ns, key), Evicted);
    }

    /** The file is on disk again afterwards, if the store has it. */
    method Recall(key: Key, fate: Fate, now: Time) returns (ok: bool)
      modifies this, idx
      ensures Now() == After(old(Now()), Step.Recall(key, fate)) && Since(old(idx.Value()))
      ensures var e := old(idx.Value()).Get(Slot(ns, key));
              var here := e.Some? && e.value.state.Local() && key in old(files);
              && (ok <==> here || (e.Some? && key in remote && fate == Done))
              && idx.pending == if ok && !here then Touched(old(idx.pending), Slot(ns, key), now) else old(idx.pending)
      ensures ok ==> key in files
    {
      hide Goes, Entries, Recount, Scanned, Noticed;
      EntryAt(idx.objs, ns, key);
      Stays(ns, idx.Value());
      var e := idx.Get(Slot(ns, key));
      if e.None? {
        return false;
      }
      if e.value.state.Local() && key in files {
        return true;
      }
      ok := Fetch(key, e.value, fate, now);
    }

    method Fetch(key: Key, e: Entry, fate: Fate, now: Time) returns (ok: bool)
      requires var was := idx.Value().Get(Slot(ns, key)); was.Some? && e == was.value.(atime := e.atime)
      requires key in files ==> !e.state.Local()
      modifies this, idx
      ensures Now() == After(old(Now()), Step.Recall(key, fate)) && Since(old(idx.Value()))
      ensures ok <==> key in remote && fate == Done
      ensures files == if key in remote && fate != Refused
                       then old(files)[key := LocalFile(remote[key], e.mtime, e.mode % 0x200)] else old(files)
      ensures var was := Entries(old(idx.objs), ns);
              Entries(idx.objs, ns) == if ok then was[key := was[key].(state := Synced)] else was
      ensures idx.pending == if ok then Touched(old(idx.pending), Slot(ns, key), now) else old(idx.pending)
      ensures ok ==> key in files
    {
      hide Goes, Entries, Recount, After;
      EntryAt(idx.objs, ns, key);
      Stays(ns, idx.Value());
      RecalledAs(Now(), key, fate);
      if key !in remote || fate == Refused {
        return false;
      }
      files := files[key := LocalFile(remote[key], e.mtime, e.mode % 0x200)];
      if fate == Unrecorded {
        return false;
      }
      MarkSynced(key);
      idx.Touch(Slot(ns, key), now);
      ok := true;
    }

    method SetPinned(key: Key, pinned: bool) returns (known: bool)
      modifies this, idx
      ensures Now() == After(old(Now()), Pin(key, pinned)) && Since(old(idx.Value()))
      ensures known <==> Slot(ns, key) in old(idx.objs)
      ensures var was := Entries(old(idx.objs), ns);
              Entries(idx.objs, ns) == if known then was[key := was[key].(pinned := pinned)] else was
    {
      hide Goes, Entries, Recount, Scanned, Noticed;
      EntryAt(idx.objs, ns, key);
      Stays(ns, idx.Value());
      var e := idx.GetTx(Slot(ns, key));
      if e.None? {
        return false;
      }
      PutGoes(idx.Value(), ns, key, e.value.(pinned := pinned));
      idx.Put(Slot(ns, key), e.value.(pinned := pinned));
      known := true;
    }

    /** remove: the deletion on the store first, then the entry. */
    method Remove(key: Key, fate: Fate) returns (ok: bool)
      modifies this, idx
      ensures files == old(files) && up == old(up) && written == old(written) && Since(old(idx.Value()))
      ensures remote == if fate == Refused then old(remote) else old(remote) - {key}
      ensures Entries(idx.objs, ns) == Entries(old(idx.objs), ns) - (if fate == Done then {key} else {})
      ensures ok <==> fate == Done
    {
      hide Goes, Entries, Recount;
      Stays(ns, idx.Value());
      DeleteGoes(idx.Value(), ns, key);
      if fate == Refused {
        return false;
      }
      remote := remote - {key};
      if fate == Unrecorded {
        return false;
      }
      idx.Delete(Slot(ns, key));
      ok := true;
    }

    /** One file of a scan compared with its entry. */
    method NoticeFile(key: Key, now: Time, t: ScanStats) returns (st: ScanStats)
      requires key in files
      modifies idx
      ensures Since(old(idx.Value()))
      ensures var objs, f := Entries(old(idx.objs), ns), files[key];
              && Entries(idx.objs, ns)
                 == (if key in objs && !Differs(objs[key], f) then objs else objs[key := DirtyEntry(f, now)])
              && st == Counted(t, objs, key, f)
    {
      hide Goes, Entries, Recount, DirtyEntry;
      Stays(ns, idx.Value());
      EntryAt(idx.objs, ns, key);
      PutGoes(idx.Value(), ns, key, DirtyEntry(files[key], now));
      st := t.(files := t.files + 1);
      var prev := idx.Get(Slot(ns, key));
      if prev.None? {
        st := st.(added := st.added + 1);
      } else if Differs(prev.value, files[key]) {
        st := st.(changed := st.changed + 1);
      } else {
        return;
      }
      idx.Put(Slot(ns, key), DirtyEntry(files[key], now));
    }

    /** The first half of a scan: every file is compared with its entry. */
    method Notice(now: Time) returns (st: ScanStats)
      modifies idx
      ensures Since(old(idx.Value()))
      ensures Entries(idx.objs, ns) == Noticed(Entries(old(idx.objs), ns), files, now)
      ensures st == Tallied(Entries(old(idx.objs), ns), files, files.Keys)
    {
      hide Goes, Entries, Noticed, Tallied, Restrict, Counted;
      st := ScanStats(0, 0, 0, 0);
      ghost var before := idx.Value();
      ghost var was := Entries(idx.objs, ns);
      var todo, seen := files.Keys, {};
      Stays(ns, before);
      NothingNoticed(was, files, now);
      while todo != {}
        invariant todo !! seen && todo + seen == files.Keys
        invariant Goes(ns, before, idx.Value())
        invariant Entries(idx.objs, ns) == Noticed(was, Restrict(files, seen), now)
        invariant st == Tallied(was, files, seen)
        decreases |todo|
      {
        var key :| key in todo;
        NoticeOne(was, files, seen, key, now);
        TallyOne(was, files, seen, key);
        todo, seen := todo - {key}, seen + {key};
        ghost var mid := idx.Value();
        CountedAlike(st, was, Entries(idx.objs, ns), key, files[key]);
        st := NoticeFile(key, now, st);
        GoesOn(ns, before, mid, idx.Value());
      }
      assert seen == files.Keys;
    }

    /** The second half of a scan, over what is indexed as local and no longer there. */
    method ListGone() returns (gone: set<Key>)
      ensures gone == Gone(Entries(idx.objs, ns), files)
    {
      gone := set s | s in idx.objs && s.ns == ns && s.key !in files && idx.objs[s].state.Local() :: s.key;
    }

    /** The second half of a scan. */
    method RemoveGone(gone: set<Key>, fates: map<Key, Fate>) returns (removed: nat)
      modifies this, idx
      ensures files == old(files) && up == old(up) && written == old(written) && Since(old(idx.Value()))
      ensures remote == old(remote) - Sent(gone, fates)
      ensures Entries(idx.objs, ns) == Entries(old(idx.objs), ns) - Removed(gone, fates)
      ensures removed == |Removed(gone, fates)|
    {
      hide Goes, Entries, Removed, Sent, FateOf;
      ghost var before, objs, stored := idx.Value(), Entries(idx.objs, ns), remote;
      var todo := gone;
      ghost var done: set<Key> := {};
      removed := 0;
      NothingRemoved(fates, remote, objs);
      Stays(ns, before);
      while todo != {}
        invariant todo !! done && todo + done == gone
        invariant files == old(files) && up == old(up) && written == old(written)
        invariant Goes(ns, before, idx.Value())
        invariant remote == stored - Sent(done, fates)
        invariant Entries(idx.objs, ns) == objs - Removed(done, fates)
        invariant removed == |Removed(done, fates)|
        decreases |todo|
      {
        var key :| key in todo;
        RemoveOne(done, fates, key, stored, objs);
        todo, done := todo - {key}, done + {key};
        ghost var mid := idx.Value();
        var ok := Remove(key, FateOf(fates, key));
        GoesOn(ns, before, mid, idx.Value());
        if ok {
          removed := removed + 1;
        }
      }
      assert done == gone;
    }

    /** Scan: what is new or changed becomes dirty, and what is gone is removed from the store. */
    method RunScan(now: Time, fates: map<Key, Fate>) returns (st: ScanStats)
      modifies this, idx
      ensures Now() == After(old(Now()), Step.Scan(now, fates)) && Since(old(idx.Value()))
      ensures var was := old(Now());
              st == Tallied(was.objs, was.files, was.files.Keys).(removed := |Removed(Gone(was.objs, was.files), fates)|)
    {
      hide Goes, Entries, Noticed, Tallied, Gone, Removed, Sent;
      ghost var was, before := Now(), idx.Value();
      st := Notice(now);
      ghost var mid := idx.Value();
      GoneIsUnnoticed(was.objs, files, now);
      var gone := ListGone();
      var removed := RemoveGone(gone, fates);
      GoesOn(ns, before, mid, idx.Value());
      ScanSplits(was, now, fates);
      st := st.(removed := removed);
    }

    /** Start: the initial scan, then the watcher and the workers. */
    method Begin(now: Time, fates: map<Key, Fate>)
      modifies this, idx
      ensures Now() == After(old(Now()), Step.Start(now, fates)) && Since(old(idx.Value()))
    {
      hide Goes, Entries, Scanned;
      var _ := RunScan(now, fates);
      up := true;
    }

    /** The keys a sweep offers to the workers again. */
    method Sweep() returns (dirty: set<Key>)
      ensures dirty == Unsafe(Entries(idx.objs, ns))
      ensures forall k :: k in dirty <==> Slot(ns, k) in idx.objs && idx.objs[Slot(ns, k)].state in {Dirty, Uploading}
    {
      dirty := set s | s in idx.objs && s.ns == ns && !idx.objs[s].state.Safe() :: s.key;
      forall k ensures k in dirty <==> k in Unsafe(Entries(idx.objs, ns)) {
        EntryAt(idx.objs, ns, k);
      }
    }

    /** The keys a walk of the site visits. */
    method ListKeys() returns (keys: set<Key>)
      ensures keys == Entries(idx.objs, ns).Keys
    {
      keys := set s | s in idx.objs && s.ns == ns :: s.key;
      forall k ensures k in keys <==> k in Entries(idx.objs, ns) {
        EntryAt(idx.objs, ns, k);
      }
    }

    /** The walk of an eviction pass: what may be taken, and how much is protected. */
    method Gather() returns (pool: seq<Candidate>, skipped: nat)
      ensures var objs := Entries(idx.objs, ns);
              Lists(pool, objs, Eligible(objs, limits, never)) && skipped == |Skippable(objs, limits, never)|
    {
      hide Entries, Movable, Movables, Eligible, Lists, Skippable, CandidateOf;
      pool, skipped := [], 0;
      ghost var objs := Entries(idx.objs, ns);
      var todo := ListKeys();
      ghost var seen: set<Key> := {};
      NothingGathered(objs, limits, never);
      while todo != {}
        invariant todo !! seen && todo + seen == objs.Keys
        invariant Lists(pool, objs, Eligible(objs, limits, never) * seen)
        invariant skipped == |Skippable(objs, limits, never) * seen|
        decreases |todo|
      {
        var key :| key in todo;
        EntryAt(idx.objs, ns, key);
        var e := idx.objs[Slot(ns, key)];
        GatherOne(pool, objs, limits, never, seen, key);
        todo, seen := todo - {key}, seen + {key};
        if !Movable(e, limits) {
          continue;
        }
        if e.pinned || key in never {
          skipped := skipped + 1;
          continue;
        }
        pool := pool + [CandidateOf(key, e)];
      }
    }

    /**
     One eviction pass, for a given amount of free space (None when it cannot be read) and
     files that cannot be removed. The order is the one the pool was sorted into.
     */
    method EvictToFit(free: Option<int>, stuck: set<Key>) returns (st: EvictStats, ghost order: seq<Candidate>)
      modifies this, idx
      ensures Since(old(idx.Value())) && remote == old(remote) && up == old(up) && written == old(written)
      ensures var objs := Entries(old(idx.objs), ns);
              var target := OverBy(limits, old(idx.Value()).StatsOf(ns).localBytes, free);
              if target == 0 then st == EvictStats(0, 0, 0, 0) && Now() == old(Now())
              else
                var taken := Chosen(order, stuck, target);
                && Lists(order, objs, Eligible(objs, limits, never)) && Ordered(order)
                && st == EvictStats(|order|, |taken|, Freed(taken), |Skippable(objs, limits, never)|)
                && Now() == EvictEach(old(Now()), taken)
                && Entries(idx.objs, ns) == Dropped(objs, Keys(taken))
                && files == old(files) - Keys(taken)
                && idx.Value().StatsOf(ns).localBytes == old(idx.Value()).StatsOf(ns).localBytes - Freed(taken)
    {
      st, order := EvictStats(0, 0, 0, 0), [];
      Stays(ns, idx.Value());
      if limits.maxSize <= 0 && limits.minFree <= 0 {
        return;
      }
      var stats := if ns in idx.stats then idx.stats[ns] else NO_STATS;
      var target := OverBy(limits, stats.localBytes, free);
      if target <= 0 {
        return;
      }
      hide Goes, Entries, Eligible, Lists, Skippable, Ordered, Chosen, Dropped, Keys, Freed, EvictEach, OverBy;
      st, order := EvictPool(target, stuck);
    }

    /** The pool gathered, sorted and consumed. */
    method EvictPool(target: nat, stuck: set<Key>) returns (st: EvictStats, ghost order: seq<Candidate>)
      modifies this, idx
      ensures Since(old(idx.Value())) && remote == old(remote) && up == old(up) && written == old(written)
      ensures var objs := Entries(old(idx.objs), ns);
              var taken := Chosen(order, stuck, target);
              && Lists(order, objs, Eligible(objs, limits, never)) && Ordered(order)
              && st == EvictStats(|order|, |taken|, Freed(taken), |Skippable(objs, limits, never)|)
              && Now() == EvictEach(old(Now()), taken)
              && Entries(idx.objs, ns) == Dropped(objs, Keys(taken))
              && files == old(files) - Keys(taken)
              && idx.Value().StatsOf(ns).localBytes == old(idx.Value()).StatsOf(ns).localBytes - Freed(taken)
    {
      hide Goes, Entries, Eligible, Lists, Skippable, Ordered, Chosen, Dropped, Keys, Freed, EvictEach;
      ghost var was, objs := Now(), Entries(idx.objs, ns);
      var pool, skipped := Gather();
      var sorted := Sort(pool);
      SortedStillLists(pool, sorted, objs, Eligible(objs, limits, never));
      ChosenAreSynced(sorted, stuck, target, objs, limits, never);
      order := sorted;
      st := TakeInOrder(sorted, stuck, target, EvictStats(|sorted|, 0, 0, skipped));
      PassIsEvictions(was, Chosen(sorted, stuck, target));
    }

    /** The loop that consumes the pool. */
    method TakeInOrder(order: seq<Candidate>, stuck: set<Key>, target: int, start: EvictStats) returns (st: EvictStats)
      requires start.evicted == 0 && start.bytesFreed == 0
      requires var objs := Entries(idx.objs, ns); Lists(order, objs, Eligible(objs, limits, never))
      modifies this, idx
      ensures Since(old(idx.Value())) && remote == old(remote) && up == old(up) && written == old(written)
      ensures var taken := Chosen(order, stuck, target);
              && st == start.(evicted := |taken|, bytesFreed := Freed(taken))
              && Entries(idx.objs, ns) == Dropped(Entries(old(idx.objs), ns), Keys(taken))
              && files == old(files) - Keys(taken)
              && idx.Value().StatsOf(ns).localBytes == old(idx.Value()).StatsOf(ns).localBytes - Freed(taken)
    {
      hide Goes, Entries, Eligible, Lists, Chosen, Dropped, Keys, Freed, Takes, After, Recount;
      ghost var before, objs := idx.Value(), Entries(idx.objs, ns);
      ghost var taken: seq<Candidate> := [];
      st := start;
      var i := 0;
      NothingTaken(order, stuck, target, objs, files);
      Stays(ns, before);
      while i < |order| && st.bytesFreed < target
        invariant i <= |order| && remote == old(remote) && up == old(up) && written == old(written)
        invariant Goes(ns, before, idx.Value())
        invariant Takes(order, stuck, target, i, taken)
        invariant st == start.(evicted := |taken|, bytesFreed := Freed(taken))
        invariant Entries(idx.objs, ns) == Dropped(objs, Keys(taken))
        invariant files == old(files) - Keys(taken)
        invariant idx.Value().StatsOf(ns).localBytes == before.StatsOf(ns).localBytes - st.bytesFreed
        decreases |order| - i
      {
        var c := order[i];
        TakesNext(order, stuck, target, i, taken, objs, Eligible(objs, limits, never));
        ghost var mid := idx.Value();
        TakeFrees(mid, ns, c.key, objs, limits, never, Keys(taken));
        var ok := Evict(c.key, c.key in stuck);
        GoesOn(ns, before, mid, idx.Value());
        i := i + 1;
        if !ok {
          continue;
        }
        taken := taken + [c];
        st := st.(evicted := st.evicted + 1, bytesFreed := st.bytesFreed + c.size);
      }
      TakesAll(order, stuck, target, i, taken);
    }
  }
}
