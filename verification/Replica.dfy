/**
 Journal shipping (internal/store/replica.go). A secondary pulls its primary's journal in
 batches and mirrors each record in the primary's own order: blob, then journal, then index.
 It runs only pulls, crashes, recovery and orphan collection.
 */
module Replica {
  import opened Wrappers
  import opened ByteStrings
  import opened Blob
  import opened Index
  import opened Journal
  import opened Apply
  import opened Disk
  import opened Machine
  import opened Counters
  import O = ObjectStore

  /** A page is at most this long. */
  const BATCH := 500

  /** Where the secondary stands; page is what is left of the batch being applied. */
  datatype PeerPhase =
    | Up(page: seq<Record>)
    | HaveBlob(page: seq<Record>)
    | HaveRecord(page: seq<Record>)
    | PeerDown

  datatype Peer = Peer(disk: Disk, phase: PeerPhase)

  datatype Net = Net(primary: World, peer: Peer)

  datatype NetStep =
    | Primary(s: Step)
    | FetchPage
    | GiveUp                  // a failed request, or an abandoned batch
    | EnsureBlob(served: Bytes) // what the primary's answer turned out to hold
    | AppendRecord
    | CommitRecord
    | PeerOrphans(victims: set<Hash>, at: Time)
    | PeerCrash
    | PeerRecover

  /** The journal page served from position `from` on. */
  function Page(journal: seq<Record>, from: nat): seq<Record> {
    var rest := From(journal, from);
    if |rest| <= BATCH then rest else rest[..BATCH]
  }

  predicate NeedsBlob(d: Disk, r: Record) {
    r.op.Put? && r.op.hash !in d.blobs
  }

  predicate NetEnabled(n: Net, s: NetStep) {
    match s
    case Primary(s) => Enabled(n.primary, s)
    case FetchPage => n.peer.phase == Up([])
    case GiveUp => n.peer.phase.Up? || n.peer.phase.HaveBlob?
    case EnsureBlob(_) => n.peer.phase.Up? && n.peer.phase.page != []
    case AppendRecord => n.peer.phase.HaveBlob? && n.peer.phase.page != []
    case CommitRecord => n.peer.phase.HaveRecord? && n.peer.phase.page != []
    case PeerOrphans(victims, at) =>
      n.peer.phase.Up? && at <= n.primary.now && victims <= Orphans(n.peer.disk, at, n.primary.grace)
    case PeerCrash => true
    case PeerRecover => n.peer.phase.PeerDown?
  }

  function AfterEnsureBlob(p: Peer, served: Bytes, now: Time): Peer
    requires p.phase.Up? && p.phase.page != []
  {
    var r := p.phase.page[0];
    if !NeedsBlob(p.disk, r) then p.(phase := HaveBlob(p.phase.page))
    // Wrong bytes land under their own name and fail the check.
    else Peer(Landed(p.disk, served, now),
              if Sha256(served) == r.op.hash then HaveBlob(p.phase.page) else Up([]))
  }

  /** AppendAt refuses anything but the next number. */
  function AfterAppendRecord(p: Peer): Peer
    requires p.phase.HaveBlob? && p.phase.page != []
  {
    var r := p.phase.page[0];
    if r.seqno != |p.disk.journal| + 1 then p.(phase := Up([]))
    else Peer(p.disk.(journal := p.disk.journal + [r]), HaveRecord(p.phase.page))
  }

  function PeerNext(n: Net, s: NetStep): Peer
    requires NetEnabled(n, s) && !s.Primary?
  {
    var p := n.peer;
    match s
    case FetchPage => p.(phase := Up(Page(n.primary.disk.journal, p.disk.db.applied + 1)))
    case GiveUp => p.(phase := Up([]))
    case EnsureBlob(served) => AfterEnsureBlob(p, served, n.primary.now)
    case AppendRecord => AfterAppendRecord(p)
    case CommitRecord =>
      var r := p.phase.page[0];
      Peer(p.disk.(db := ApplyAt(p.disk.db, r, r.time)), Up(p.phase.page[1..]))
    case PeerOrphans(victims, _) => p.(disk := p.disk.(blobs := p.disk.blobs - victims))
    case PeerCrash => p.(phase := PeerDown)
    case PeerRecover => Peer(Recovered(p.disk), Up([]))
  }

  function NetNext(n: Net, s: NetStep): Net
    requires NetEnabled(n, s)
  {
    if s.Primary? then n.(primary := Next(n.primary, s.s)) else n.(peer := PeerNext(n, s))
  }

  // ------------------------------------------------------------ invariant

  /** page is what comes next in the primary's journal after the first n records. */
  ghost predicate Follows(journal: seq<Record>, n: nat, page: seq<Record>) {
    n + |page| <= |journal| && page == journal[n..n + |page|]
  }

  ghost predicate PeerInv(journal: seq<Record>, now: Time, p: Peer) {
    var d := p.disk;
    && Sane(d, now) && d.db.uploads == map[]
    && |d.journal| <= |journal| && d.journal == journal[..|d.journal|]
    && match p.phase
       case Up(page) => d.db.applied == |d.journal| && Follows(journal, |d.journal|, page)
       case HaveBlob(page) =>
         && d.db.applied == |d.journal| && Follows(journal, |d.journal|, page)
         && page != [] && !NeedsBlob(d, page[0])
       case HaveRecord(page) =>
         && page != [] && d.db.applied + 1 == |d.journal| && d.journal[d.db.applied] == page[0]
         && Follows(journal, d.db.applied, page)
       case PeerDown => true
  }

  ghost predicate NetInv(n: Net) {
    Inv(n.primary) && PeerInv(n.primary.disk.journal, n.primary.now, n.peer)
  }

  /** A primary's journal only grows, and its clock only advances. */
  lemma StepExtends(w: World, s: Step)
    requires Enabled(w, s)
    ensures |w.disk.journal| <= |Next(w, s).disk.journal| && w.disk.journal == Next(w, s).disk.journal[..|w.disk.journal|]
    ensures w.now <= Next(w, s).now
  {
    hide ApplyAt, ApplyAll, Land;
  }

  lemma GrownJournal(a: seq<Record>, b: seq<Record>, now: Time, later: Time, p: Peer)
    requires PeerInv(a, now, p) && |a| <= |b| && a == b[..|a|] && now <= later
    ensures PeerInv(b, later, p)
  {
    hide Sane;
    O.SaneLater(p.disk, now, later);
    assert forall n: nat, page :: Follows(a, n, page) ==> Follows(b, n, page) by {
      forall n: nat, page | Follows(a, n, page) ensures Follows(b, n, page) {
        assert a[n..n + |page|] == b[n..n + |page|];
      }
    }
    assert b[..|p.disk.journal|] == a[..|p.disk.journal|];
  }

  lemma PageFollows(journal: seq<Record>, n: nat)
    requires Numbered(journal, 1) && n <= |journal|
    ensures Follows(journal, n, Page(journal, n + 1))
    ensures |Page(journal, n + 1)| == if |journal| - n <= 500 then |journal| - n else 500
  {
    FromIsSuffix(journal, 1, n + 1);
    hide From, Numbered;
    var rest := journal[n..];
    assert From(journal, n + 1) == rest;
    if |rest| > BATCH {
      assert rest[..BATCH] == journal[n..n + BATCH];
    } else {
      assert journal[n..n + |rest|] == rest;
    }
  }

  lemma SaneAtRecord(d: Disk, journal: seq<Record>, now: Time, n: nat)
    requires Sane(d, now) && Orderly(journal) && |d.journal| <= n < |journal| && d.journal == journal[..|d.journal|]
    ensures Sane(d, journal[n].time)
  {
    hide ViewOf, Fold, Conserved, WellPlaced, Backed, Sound;
    forall i | 0 <= i < |d.journal| ensures d.journal[i].time <= journal[n].time {
      assert d.journal[i] == journal[i];
    }
  }

  /** The next record of the primary's journal may follow a faithful copy of what precedes it. */
  lemma AppendedIsSane(d: Disk, journal: seq<Record>, now: Time)
    requires Sane(d, now) && Orderly(journal) && Timely(journal, now) && WellPlaced(journal)
    requires |d.journal| < |journal| && d.journal == journal[..|d.journal|]
    requires !NeedsBlob(d, journal[|d.journal|])
    ensures journal[|d.journal|].seqno == |d.journal| + 1
    ensures var d' := d.(journal := d.journal + [journal[|d.journal|]]);
            Sane(d', now) && d'.journal == journal[..|d'.journal|]
  {
    var n := |d.journal|;
    var r := journal[n];
    SaneAtRecord(d, journal, now, n);
    assert r.op.GC? ==> !Binds(Fold(journal[..n]), r.op.hash);
    assert r.seqno == n + 1 && r.time <= now;
    hide Sane, Orderly, Timely, WellPlaced, Fold, Binds;
    assert NextRecord(d, r.op, r.time) == r;
    LogIsSane(d, r.op, r.time);
    O.SaneLater(Logged(d, r.op, r.time), r.time, now);
    assert journal[..n + 1] == journal[..n] + [r];
  }

  lemma CommittedIsSane(d: Disk, now: Time)
    requires Sane(d, now) && d.db.uploads == map[] && d.db.applied + 1 == |d.journal|
    ensures var r := d.journal[d.db.applied];
            var d' := d.(db := ApplyAt(d.db, r, r.time));
            Sane(d', now) && d'.db.uploads == map[] && d'.db.applied == |d'.journal|
  {
    SaneBounds(d, now);
    hide Sane, ApplyAt;
    var n := d.db.applied;
    var r := d.journal[n];
    ReplaySane(d, d.db, now);
    assert d.journal[n..] == [r] && [r][..0] == [];
    assert ApplyAll(d.db, [r]) == ApplyAt(d.db, r, r.time);
  }

  lemma OrphansAreUnheld(d: Disk, now: Time, victims: set<Hash>, at: Time, grace: Time)
    requires Sane(d, now) && d.db.applied == |d.journal| && victims <= Orphans(d, at, grace)
    ensures Sane(d.(blobs := d.blobs - victims), now)
  {
    hide Sane, Fold, Binds;
    assert CaughtUp(d);
    forall h | h in victims ensures !Binds(Fold(d.journal), h) && PartSlots(d.db.uploads, h) == {} {
      UncountedIsUnheld(d, now, h);
    }
    RemoveIsSane(d, victims, now);
  }

  lemma PrimaryFacts(w: World)
    requires Inv(w)
    ensures var j := w.disk.journal; Orderly(j) && Timely(j, w.now) && WellPlaced(j) && Numbered(j, 1)
  {
    hide Phased, Explained, Timed, Conserved, Backed, Sound;
  }

  lemma EnsureBlobKeepsInv(n: Net, served: Bytes)
    requires NetInv(n) && NetEnabled(n, EnsureBlob(served))
    ensures NetInv(NetNext(n, EnsureBlob(served)))
  {
    hide Inv, Sane;
    LandIsSane(n.peer.disk, served, n.primary.now);
  }

  lemma AppendRecordKeepsInv(n: Net)
    requires NetInv(n) && NetEnabled(n, AppendRecord)
    ensures NetInv(NetNext(n, AppendRecord))
  {
    hide Inv, Sane, Orderly, Timely, WellPlaced;
    PrimaryFacts(n.primary);
    AppendedIsSane(n.peer.disk, n.primary.disk.journal, n.primary.now);
  }

  lemma CommitRecordKeepsInv(n: Net)
    requires NetInv(n) && NetEnabled(n, CommitRecord)
    ensures NetInv(NetNext(n, CommitRecord))
  {
    hide Inv, Sane, ApplyAt;
    CommittedIsSane(n.peer.disk, n.primary.now);
    var page, j, k := n.peer.phase.page, n.primary.disk.journal, n.peer.disk.db.applied;
    assert page[1..] == j[k + 1..k + 1 + |page[1..]|];
  }

  lemma NetStepKeepsInv(n: Net, s: NetStep)
    requires NetInv(n) && NetEnabled(n, s)
    ensures NetInv(NetNext(n, s))
  {
    hide Inv, Sane, Enabled, Next, ApplyAt, Recovered, Page, Landed;
    match s
    case Primary(step) =>
      StepKeepsInv(n.primary, step);
      StepExtends(n.primary, step);
      var w := Next(n.primary, step);
      GrownJournal(n.primary.disk.journal, w.disk.journal, n.primary.now, w.now, n.peer);
    case FetchPage =>
      PrimaryFacts(n.primary);
      PageFollows(n.primary.disk.journal, n.peer.disk.db.applied);
    case GiveUp =>
    case EnsureBlob(served) => EnsureBlobKeepsInv(n, served);
    case AppendRecord => AppendRecordKeepsInv(n);
    case CommitRecord => CommitRecordKeepsInv(n);
    case PeerOrphans(victims, at) =>
      OrphansAreUnheld(n.peer.disk, n.primary.now, victims, at, n.primary.grace);
    case PeerCrash =>
    case PeerRecover =>
      RecoverIsSane(n.peer.disk, n.primary.now);
      RecoveredApplied(n.peer.disk, n.primary.now);
  }

  lemma RecoveredApplied(d: Disk, now: Time)
    requires Sane(d, now) && d.db.uploads == map[]
    ensures Recovered(d).db.applied == |d.journal| && Recovered(d).journal == d.journal
  {
    SaneBounds(d, now);
    hide Sane, ApplyAll;
    if d.db.applied < |d.journal| { ReplaySane(d, d.db, now); }
  }

  predicate NetLegal(n: Net, steps: seq<NetStep>)
    decreases |steps|
  {
    steps == [] || (NetEnabled(n, steps[0]) && NetLegal(NetNext(n, steps[0]), steps[1..]))
  }

  function NetRun(n: Net, steps: seq<NetStep>): Net
    requires NetLegal(n, steps)
    decreases |steps|
  {
    if steps == [] then n else NetRun(NetNext(n, steps[0]), steps[1..])
  }

  ghost predicate NetInit(n: Net) {
    Init(n.primary) && n.peer == Peer(EMPTY_DISK, Up([]))
  }

  lemma {:induction false} NetRunKeepsInv(n: Net, steps: seq<NetStep>)
    requires NetInv(n) && NetLegal(n, steps)
    ensures NetInv(NetRun(n, steps))
    decreases |steps|
  {
    hide NetInv, NetNext, NetEnabled;
    if steps != [] {
      NetStepKeepsInv(n, steps[0]);
      NetRunKeepsInv(NetNext(n, steps[0]), steps[1..]);
    }
  }

  /**
   Replication is safe. After any run, with the primary doing anything it may, and the
   secondary failing, crashing and recovering at any point, the secondary's journal is a prefix
   of its primary's, its recovered index is the fold of that prefix, and every key that index
   binds reads back from local blobs.
   */
  lemma SecondaryIsAPrefix(n0: Net, steps: seq<NetStep>, s: Slot)
    requires NetInit(n0) && NetLegal(n0, steps)
    ensures var n := NetRun(n0, steps);
            var p, d := n.primary.disk.journal, n.peer.disk;
            && |d.journal| <= |p| && d.journal == p[..|d.journal|]
            && ViewOf(Recovered(d).db) == Fold(p[..|d.journal|])
            && (s in Fold(d.journal) ==> ReadBack(Recovered(d), s) == Some(Fold(d.journal)[s].hash.content))
  {
    var n := NetRun(n0, steps);
    NetRunKeepsInv(n0, steps);
    hide NetInit, NetLegal, NetRun, Inv, ApplyAll, Sane, Fold, ViewOfObjs, ReadBack, CaughtUp;
    RecoverIsSane(n.peer.disk, n.primary.now);
    RecoveredApplied(n.peer.disk, n.primary.now);
    if s in Fold(n.peer.disk.journal) { LocalReads(Recovered(n.peer.disk), n.primary.now, s); }
  }

  lemma LocalReads(d: Disk, now: Time, s: Slot)
    requires Sane(d, now) && CaughtUp(d) && s in Fold(d.journal)
    ensures ReadBack(d, s) == Some(Fold(d.journal)[s].hash.content)
  {
    hide Conserved, WellPlaced, Orderly, Timely, Fold, ViewOfObjs;
    CaughtUpView(d, now);
    var h := Fold(d.journal)[s].hash;
    assert h in d.blobs && Sha256(d.blobs[h].content) == h;
  }

  lemma NetStepKeepsTidy(n: Net, s: NetStep)
    requires Tidy(n.peer.disk.db) && NetEnabled(n, s)
    ensures Tidy(NetNext(n, s).peer.disk.db)
  {
    hide Tidy, ApplyAt, Recovered, Page, Landed, Enabled, Next;
    if s.CommitRecord? {
      var r := n.peer.phase.page[0];
      ApplyKeepsTidy(n.peer.disk.db, r, r.time);
    } else if s.PeerRecover? {
      RecoverKeepsTidy(n.peer.disk);
    } else if s.EnsureBlob? {
      LandedKeepsIndex(n.peer.disk, s.served, n.primary.now);
      SameObjects(n.peer.disk.db, Landed(n.peer.disk, s.served, n.primary.now).db);
    }
  }

  lemma LandedKeepsIndex(d: Disk, content: Bytes, now: Time)
    ensures Landed(d, content, now).db == d.db
  {
  }

  lemma {:induction false} NetRunKeepsTidy(n: Net, steps: seq<NetStep>)
    requires Tidy(n.peer.disk.db) && NetLegal(n, steps)
    ensures Tidy(NetRun(n, steps).peer.disk.db)
    decreases |steps|
  {
    hide Tidy, NetNext, NetEnabled;
    if steps != [] {
      NetStepKeepsTidy(n, steps[0]);
      NetRunKeepsTidy(NetNext(n, steps[0]), steps[1..]);
    }
  }

  /** The secondary's counters too equal a full walk at every moment, and after recovery. */
  lemma SecondaryCountersMatch(n0: Net, steps: seq<NetStep>, ns: Ns)
    requires NetInit(n0) && NetLegal(n0, steps)
    ensures var d := NetRun(n0, steps).peer.disk;
            && d.db.StatsOf(ns) == Tally(d.db.objs, ns)
            && Recovered(d).db.StatsOf(ns) == Tally(Recovered(d).db.objs, ns)
  {
    hide NetLegal, NetRun, Recovered, Tally;
    EmptyIsTidy();
    NetRunKeepsTidy(n0, steps);
    RecoverKeepsTidy(NetRun(n0, steps).peer.disk);
  }

  // ------------------------------------------------------- catching up

  /** What one attempt at a record does, given what the primary serves under each name. */
  function PullRecord(d: Disk, r: Record, served: map<Hash, Bytes>, now: Time): (Disk, bool) {
    if NeedsBlob(d, r) && r.op.hash !in served then (d, false)
    else
      var d1 := if NeedsBlob(d, r) then Landed(d, served[r.op.hash], now) else d;
      if NeedsBlob(d, r) && Sha256(served[r.op.hash]) != r.op.hash then (d1, false)
      else if r.seqno != |d.journal| + 1 then (d1, false)
      else (Disk(d1.blobs, d.journal + [r], ApplyAt(d.db, r, r.time)), true)
  }

  /** One pull: records until the batch ends or one fails. */
  function PullPage(d: Disk, page: seq<Record>, served: map<Hash, Bytes>, now: Time): (Disk, nat)
    decreases |page|
  {
    if page == [] then (d, 0)
    else
      var (d1, ok) := PullRecord(d, page[0], served, now);
      if !ok then (d1, 0)
      else
        var (d2, n) := PullPage(d1, page[1..], served, now);
        (d2, n + 1)
  }

  lemma PullPageStep(d: Disk, page: seq<Record>, i: nat, served: map<Hash, Bytes>, now: Time)
    requires i < |page|
    ensures var (d1, ok) := PullRecord(d, page[i], served, now);
            PullPage(d, page[i..], served, now)
            == if ok then var (d2, n) := PullPage(d1, page[i + 1..], served, now); (d2, n + 1) else (d1, 0)
  {
    hide PullRecord;
    assert page[i..][1..] == page[i + 1..];
  }

  lemma PullPageEnds(d: Disk, page: seq<Record>, served: map<Hash, Bytes>, now: Time)
    ensures PullPage(d, page[|page|..], served, now) == (d, 0) == PullPage(d, [], served, now)
  {
  }

  /** The primary answers for a blob with its bytes, or the secondary has it already. */
  ghost predicate Obtainable(d: Disk, r: Record, served: map<Hash, Bytes>) {
    r.op.Put? ==> r.op.hash in d.blobs || (r.op.hash in served && Sha256(served[r.op.hash]) == r.op.hash)
  }

  lemma PullRecordWorks(d: Disk, r: Record, served: map<Hash, Bytes>, now: Time)
    ensures PullRecord(d, r, served, now).1 <==> Obtainable(d, r, served) && r.seqno == |d.journal| + 1
    ensures PullRecord(d, r, served, now).1 ==>
              var d' := PullRecord(d, r, served, now).0;
              d'.journal == d.journal + [r] && d'.db.applied == r.seqno && d.blobs.Keys <= d'.blobs.Keys
    ensures var d' := PullRecord(d, r, served, now).0;
            !PullRecord(d, r, served, now).1 ==> d'.journal == d.journal && d'.db == d.db
  {
    ApplyShape(d.db, r, r.time);
    hide ApplyAt;
  }

  /** A pull stops exactly at the first record whose blob cannot be had. */
  lemma {:induction false} PullStopsAtFirstMissing(d: Disk, journal: seq<Record>, page: seq<Record>,
                                                   served: map<Hash, Bytes>, now: Time)
    requires Numbered(journal, 1) && |d.journal| <= |journal| && d.journal == journal[..|d.journal|]
    requires Follows(journal, |d.journal|, page) && d.db.applied == |d.journal|
    ensures var (d', n) := PullPage(d, page, served, now);
            && n <= |page| && d'.journal == journal[..|d.journal| + n] && d'.db.applied == |d'.journal|
            && d.blobs.Keys <= d'.blobs.Keys
            && (forall i :: 0 <= i < n ==> Obtainable(d, page[i], served))
            && (n < |page| ==> !Obtainable(d, page[n], served))
    decreases |page|
  {
    hide PullRecord;
    if page != [] {
      var r, k := page[0], |d.journal|;
      assert r == journal[k] && r.seqno == k + 1;
      PullRecordWorks(d, r, served, now);
      var (d1, ok) := PullRecord(d, r, served, now);
      if ok {
        assert d1.journal == journal[..k + 1];
        assert page[1..] == journal[k + 1..k + 1 + |page[1..]|];
        PullStopsAtFirstMissing(d1, journal, page[1..], served, now);
        PulledIsServed(d, r, served, now);
        assert forall i :: 1 <= i < |page| ==> page[i] == page[1..][i - 1];
      }
      PulledKeepsBlobs(d, r, served, now);
    }
  }

  lemma PulledKeepsBlobs(d: Disk, r: Record, served: map<Hash, Bytes>, now: Time)
    ensures d.blobs.Keys <= PullRecord(d, r, served, now).0.blobs.Keys
  {
    hide ApplyAt;
  }

  /** A record pulled makes nothing obtainable but what the primary answers for anyway. */
  lemma PulledIsServed(d: Disk, r: Record, served: map<Hash, Bytes>, now: Time)
    requires PullRecord(d, r, served, now).1
    ensures var d' := PullRecord(d, r, served, now).0;
            forall x :: Obtainable(d', x, served) ==> Obtainable(d, x, served)
  {
    hide ApplyAt;
  }

  /** Everything not pulled yet can be had. */
  ghost predicate AllObtainable(d: Disk, journal: seq<Record>, served: map<Hash, Bytes>) {
    forall i :: |d.journal| <= i < |journal| ==> Obtainable(d, journal[i], served)
  }

  /** Pulling until nothing is left, for a primary that stands still. */
  function PullUntilCaughtUp(d: Disk, journal: seq<Record>, served: map<Hash, Bytes>, now: Time, pulls: nat): Disk
    decreases pulls
  {
    if pulls == 0 then d
    else PullUntilCaughtUp(PullPage(d, Page(journal, d.db.applied + 1), served, now).0, journal, served, now, pulls - 1)
  }

  /** One pull cuts the lag by a whole batch, or to nothing. */
  lemma PullReducesLag(d: Disk, journal: seq<Record>, served: map<Hash, Bytes>, now: Time)
    requires Numbered(journal, 1) && |d.journal| <= |journal| && d.journal == journal[..|d.journal|]
    requires d.db.applied == |d.journal| && AllObtainable(d, journal, served)
    ensures var d' := PullPage(d, Page(journal, d.db.applied + 1), served, now).0;
            && |d'.journal| == (if |journal| - |d.journal| <= BATCH then |journal| else |d.journal| + BATCH)
            && d'.journal == journal[..|d'.journal|] && d'.db.applied == |d'.journal|
            && AllObtainable(d', journal, served)
  {
    hide PullPage, Page, PullRecord;
    var k := |d.journal|;
    var page := Page(journal, k + 1);
    PageFollows(journal, k);
    PullStopsAtFirstMissing(d, journal, page, served, now);
    var (d', n) := PullPage(d, page, served, now);
    assert forall i :: 0 <= i < |page| ==> page[i] == journal[k + i];
  }

  /** If every put still to come can be had, repeated pulls reach lag 0, in one pull per batch. */
  lemma {:induction false} PullsCatchUp(d: Disk, journal: seq<Record>, served: map<Hash, Bytes>, now: Time, pulls: nat)
    requires Numbered(journal, 1) && |d.journal| <= |journal| && d.journal == journal[..|d.journal|]
    requires d.db.applied == |d.journal| && AllObtainable(d, journal, served)
    requires |journal| - |d.journal| <= BATCH * pulls
    ensures PullUntilCaughtUp(d, journal, served, now, pulls).journal == journal
    decreases pulls
  {
    hide PullPage, Page;
    if pulls > 0 {
      PullReducesLag(d, journal, served, now);
      PullsCatchUp(PullPage(d, Page(journal, d.db.applied + 1), served, now).0, journal, served, now, pulls - 1);
    } else {
      assert journal[..|journal|] == journal;
    }
  }

  // ------------------------------------------------------ pulls are runs

  /** The steps of one batch, once it has been fetched. */
  function PullSteps(d: Disk, page: seq<Record>, served: map<Hash, Bytes>, now: Time): seq<NetStep>
    decreases |page|
  {
    if page == [] then []
    else
      var r := page[0];
      if NeedsBlob(d, r) && r.op.hash !in served then [GiveUp]
      else
        var fetched := EnsureBlob(if NeedsBlob(d, r) then served[r.op.hash] else []);
        if NeedsBlob(d, r) && Sha256(served[r.op.hash]) != r.op.hash then [fetched]
        else if r.seqno != |d.journal| + 1 then [fetched, AppendRecord]
        else [fetched, AppendRecord, CommitRecord]
             + PullSteps(PullRecord(d, r, served, now).0, page[1..], served, now)
  }

  function Pulled(n: Net, served: map<Hash, Bytes>): Net {
    var page := Page(n.primary.disk.journal, n.peer.disk.db.applied + 1);
    n.(peer := Peer(PullPage(n.peer.disk, page, served, n.primary.now).0, Up([])))
  }

  lemma {:induction false} NetRunAppend(n: Net, a: seq<NetStep>, b: seq<NetStep>)
    requires NetLegal(n, a) && NetLegal(NetRun(n, a), b)
    ensures NetLegal(n, a + b) && NetRun(n, a + b) == NetRun(NetRun(n, a), b)
    decreases |a|
  {
    hide NetEnabled, NetNext;
    if a == [] {
      assert a + b == b;
    } else {
      assert (a + b)[0] == a[0] && (a + b)[1..] == a[1..] + b;
      NetRunAppend(NetNext(n, a[0]), a[1..], b);
    }
  }

  lemma OneNetStep(n: Net, s: NetStep)
    requires NetEnabled(n, s)
    ensures NetLegal(n, [s]) && NetRun(n, [s]) == NetNext(n, s)
  {
    hide NetEnabled, NetNext;
    assert [s][1..] == [];
  }

  /** Two steps, then three: fetching, appending, committing. */
  lemma NetStepsInTurn(n: Net, a: NetStep, b: NetStep, c: NetStep)
    requires NetEnabled(n, a) && NetEnabled(NetNext(n, a), b)
    ensures NetLegal(n, [a, b]) && NetRun(n, [a, b]) == NetNext(NetNext(n, a), b)
    ensures NetEnabled(NetNext(NetNext(n, a), b), c) ==>
              NetLegal(n, [a, b, c]) && NetRun(n, [a, b, c]) == NetNext(NetNext(NetNext(n, a), b), c)
  {
    hide NetEnabled, NetNext;
    var n1 := NetNext(n, a);
    OneNetStep(n, a);
    OneNetStep(n1, b);
    NetRunAppend(n, [a], [b]);
    assert [a] + [b] == [a, b];
    if NetEnabled(NetNext(n1, b), c) {
      OneNetStep(NetNext(n1, b), c);
      NetRunAppend(n, [a, b], [c]);
      assert [a, b] + [c] == [a, b, c];
    }
  }

  /** One record of a batch, in steps. */
  lemma RecordIsSteps(n: Net, page: seq<Record>, served: map<Hash, Bytes>)
    requires n.peer.phase == Up(page) && page != []
    ensures var (d1, ok) := PullRecord(n.peer.disk, page[0], served, n.primary.now);
            var steps := if ok then PullSteps(n.peer.disk, page, served, n.primary.now)[..3]
                         else PullSteps(n.peer.disk, page, served, n.primary.now);
            && (ok ==> PullSteps(n.peer.disk, page, served, n.primary.now)
                       == steps + PullSteps(d1, page[1..], served, n.primary.now))
            && NetLegal(n, steps)
            && NetRun(n, steps) == n.(peer := Peer(d1, Up(if ok then page[1..] else [])))
  {
    hide ApplyAt, Land, Enabled, Next, NetLegal, NetRun;
    var d, r, now := n.peer.disk, page[0], n.primary.now;
    if NeedsBlob(d, r) && r.op.hash !in served {
      OneNetStep(n, GiveUp);
    } else {
      var fetched := EnsureBlob(if NeedsBlob(d, r) then served[r.op.hash] else []);
      if NeedsBlob(d, r) && Sha256(served[r.op.hash]) != r.op.hash {
        OneNetStep(n, fetched);
      } else {
        NetStepsInTurn(n, fetched, AppendRecord, CommitRecord);
      }
    }
  }

  lemma {:induction false} BatchIsARun(n: Net, page: seq<Record>, served: map<Hash, Bytes>)
    requires n.peer.phase == Up(page)
    ensures var steps := PullSteps(n.peer.disk, page, served, n.primary.now);
            && NetLegal(n, steps)
            && NetRun(n, steps) == n.(peer := Peer(PullPage(n.peer.disk, page, served, n.primary.now).0, Up([])))
    decreases |page|
  {
    if page != [] {
      RecordIsSteps(n, page, served);
      hide PullSteps, PullRecord, NetLegal, NetRun;
      var (d1, ok) := PullRecord(n.peer.disk, page[0], served, n.primary.now);
      if ok {
        var n1 := n.(peer := Peer(d1, Up(page[1..])));
        BatchIsARun(n1, page[1..], served);
        NetRunAppend(n, PullSteps(n.peer.disk, page, served, n.primary.now)[..3],
                     PullSteps(d1, page[1..], served, n.primary.now));
      }
    }
  }

  /** What Secondary.Pull does to a store is a run of the two machines. */
  lemma PullIsARun(n: Net, served: map<Hash, Bytes>)
    requires n.peer.phase == Up([])
    ensures var page := Page(n.primary.disk.journal, n.peer.disk.db.applied + 1);
            var steps := [FetchPage] + PullSteps(n.peer.disk, page, served, n.primary.now);
            NetLegal(n, steps) && NetRun(n, steps) == Pulled(n, served)
  {
    hide PullSteps, PullPage, Page, NetLegal, NetRun;
    var page := Page(n.primary.disk.journal, n.peer.disk.db.applied + 1);
    OneNetStep(n, FetchPage);
    var n1 := NetNext(n, FetchPage);
    BatchIsARun(n1, page, served);
    NetRunAppend(n, [FetchPage], PullSteps(n.peer.disk, page, served, n.primary.now));
  }

  /** So replication stays safe through the code's pulls: the prefix, its fold, and the blobs behind it. */
  lemma PullKeepsThePrefix(n0: Net, steps: seq<NetStep>, served: map<Hash, Bytes>, s: Slot)
    requires NetInit(n0) && NetLegal(n0, steps) && NetRun(n0, steps).peer.phase == Up([])
    ensures var n := NetRun(n0, steps);
            var p, d := n.primary.disk.journal, Pulled(n, served).peer.disk;
            && |d.journal| <= |p| && d.journal == p[..|d.journal|]
            && ViewOf(Recovered(d).db) == Fold(p[..|d.journal|])
            && (s in Fold(d.journal) ==> ReadBack(Recovered(d), s) == Some(Fold(d.journal)[s].hash.content))
  {
    hide *;
    var n := NetRun(n0, steps);
    var page := Page(n.primary.disk.journal, n.peer.disk.db.applied + 1);
    var more := [FetchPage] + PullSteps(n.peer.disk, page, served, n.primary.now);
    PullIsARun(n, served);
    NetRunAppend(n0, steps, more);
    SecondaryIsAPrefix(n0, steps + more, s);
    PullLeavesPrimary(n, served);
  }

  lemma PullLeavesPrimary(n: Net, served: map<Hash, Bytes>)
    ensures Pulled(n, served).primary == n.primary && Pulled(n, served).peer.phase == Up([])
  {
  }

  // ------------------------------------------- catching up with a busy primary

  /** The primary does what it may, and then the secondary pulls once. */
  datatype Round = Round(busy: seq<Step>, served: map<Hash, Bytes>)

  /** Every put not pulled yet can be had at each pull. */
  ghost predicate RoundsServed(n: Net, rounds: seq<Round>)
    decreases |rounds|
  {
    rounds == []
    || (&& Legal(n.primary, rounds[0].busy)
        && var busy := n.(primary := Run(n.primary, rounds[0].busy));
           && AllObtainable(busy.peer.disk, busy.primary.disk.journal, rounds[0].served)
           && RoundsServed(Pulled(busy, rounds[0].served), rounds[1..]))
  }

  function AfterRounds(n: Net, rounds: seq<Round>): Net
    requires RoundsServed(n, rounds)
    decreases |rounds|
  {
    if rounds == [] then n
    else AfterRounds(Pulled(n.(primary := Run(n.primary, rounds[0].busy)), rounds[0].served), rounds[1..])
  }

  lemma {:induction false} BusyIsNetRun(n: Net, busy: seq<Step>)
    requires NetInv(n) && Legal(n.primary, busy)
    ensures NetInv(n.(primary := Run(n.primary, busy)))
    ensures var p, q := n.primary.disk.journal, Run(n.primary, busy).disk.journal; |p| <= |q| && p == q[..|p|]
    decreases |busy|
  {
    hide NetInv, Enabled, Next;
    if busy != [] {
      NetStepKeepsInv(n, Primary(busy[0]));
      StepExtends(n.primary, busy[0]);
      BusyIsNetRun(n.(primary := Next(n.primary, busy[0])), busy[1..]);
    }
  }

  /** A round leaves the secondary a batch further on, or level with its primary. */
  lemma RoundAdvances(n: Net, served: map<Hash, Bytes>)
    requires NetInv(n) && n.peer.phase == Up([])
    requires AllObtainable(n.peer.disk, n.primary.disk.journal, served)
    ensures var p, a, b := n.primary.disk.journal, n.peer.disk.journal, Pulled(n, served).peer.disk.journal;
            NetInv(Pulled(n, served)) && |b| == if |p| - |a| <= BATCH then |p| else |a| + BATCH
  {
    PullIsARun(n, served);
    var page := Page(n.primary.disk.journal, n.peer.disk.db.applied + 1);
    NetRunKeepsInv(n, [FetchPage] + PullSteps(n.peer.disk, page, served, n.primary.now));
    PrimaryFacts(n.primary);
    hide Inv, Sane, PullPage, Page, NetRun, NetLegal;
    PullReducesLag(n.peer.disk, n.primary.disk.journal, served, n.primary.now);
  }

  lemma {:induction false} RoundsAdvance(n: Net, rounds: seq<Round>, known: nat)
    requires NetInv(n) && n.peer.phase == Up([]) && RoundsServed(n, rounds) && known <= |n.primary.disk.journal|
    ensures NetInv(AfterRounds(n, rounds))
    ensures var d := AfterRounds(n, rounds).peer.disk;
            && |d.journal| >= |n.peer.disk.journal|
            && (|d.journal| >= known || |d.journal| >= |n.peer.disk.journal| + BATCH * |rounds|)
    ensures var p, q := n.primary.disk.journal, AfterRounds(n, rounds).primary.disk.journal;
            |p| <= |q| && p == q[..|p|]
    decreases |rounds|
  {
    hide NetInv, Pulled, AllObtainable, Run, Legal;
    if rounds != [] {
      var busy := n.(primary := Run(n.primary, rounds[0].busy));
      BusyIsNetRun(n, rounds[0].busy);
      RoundAdvances(busy, rounds[0].served);
      PullLeavesPrimary(busy, rounds[0].served);
      PeerIsBehind(busy);
      RoundsAdvance(Pulled(busy, rounds[0].served), rounds[1..], known);
    }
  }

  lemma PeerIsBehind(n: Net)
    requires NetInv(n)
    ensures |n.peer.disk.journal| <= |n.primary.disk.journal|
    ensures n.peer.disk.journal == n.primary.disk.journal[..|n.peer.disk.journal|]
  {
    hide Inv, Sane;
  }

  /**
   Everything the primary had logged arrives, however busy the primary stays: with each put
   still to come to be had, one pull per batch of what was missing at the start is enough.
   */
  lemma BusyPrimaryIsCaughtUp(n: Net, rounds: seq<Round>)
    requires NetInv(n) && n.peer.phase == Up([]) && RoundsServed(n, rounds)
    requires |n.primary.disk.journal| - |n.peer.disk.journal| <= BATCH * |rounds|
    ensures var p, d := n.primary.disk.journal, AfterRounds(n, rounds).peer.disk.journal;
            |p| <= |d| && p == d[..|p|]
  {
    hide *;
    RoundsAdvance(n, rounds, |n.primary.disk.journal|);
    PeerIsBehind(AfterRounds(n, rounds));
    PeerIsBehind(n);
    var p, q := n.primary.disk.journal, AfterRounds(n, rounds).primary.disk.journal;
    var d := AfterRounds(n, rounds).peer.disk.journal;
    assert d[..|p|] == q[..|d|][..|p|] == q[..|p|];
  }

  /** What a primary answers with when asked for its blobs. */
  function Answers(blobs: Blobs): map<Hash, Bytes> {
    map h | h in blobs :: blobs[h].content
  }

  /** A primary that still holds the blob of every put to come answers for all of them. */
  lemma PrimaryAnswers(n: Net)
    requires NetInv(n)
    requires var p, k := n.primary.disk.journal, |n.peer.disk.journal|;
             forall i :: k <= i < |p| && p[i].op.Put? ==> p[i].op.hash in n.primary.disk.blobs
    ensures AllObtainable(n.peer.disk, n.primary.disk.journal, Answers(n.primary.disk.blobs))
  {
    hide Phased, Explained, Timed, Conserved, WellPlaced, Orderly, Timely, Backed, PeerInv, Fold;
  }

  // -------------------------------------------------------------- the code

  /** The lag is kept in 64 bits, unsigned. */
  const UINT64_LIMIT := 0x1_0000_0000_0000_0000

  datatype Status = Status(applied: nat, upstream: nat, lag: nat, failed: bool)

  class Secondary {
    const store: O.Store
    var status: Status

    constructor (store: O.Store)
      ensures this.store == store
    {
      this.store := store;
      status := Status(0, 0, 0, false);
    }

    /** fetchBlob: stores what the primary answers, and accepts it only under the right name. */
    method FetchBlob(hash: Hash, served: map<Hash, Bytes>, now: Time) returns (ok: bool)
      modifies store.blobs`files
      ensures ok <==> hash in served && Sha256(served[hash]) == hash
      ensures store.blobs.files == if hash in served then Land(old(store.blobs.files), served[hash], now)
                                   else old(store.blobs.files)
    {
      if hash !in served {
        return false;
      }
      var info := store.blobs.Put(served[hash], now);
      ok := info.hash == hash;
    }

    /** applyOne: blob, then journal, then index. */
    method ApplyOne(r: Record, served: map<Hash, Bytes>, now: Time) returns (ok: bool)
      requires store.Valid()
      modifies store.blobs`files, store.jrnl, store.idx
      ensures store.Valid()
      ensures (store.Value(), ok) == PullRecord(old(store.Value()), r, served, now)
    {
      hide IsLineCodec, WellFormed, Flat, Place, Files, ApplyAt, Land;
      if r.op.Put? {
        var found := store.blobs.Stat(r.op.hash);
        if !found {
          var fetched := FetchBlob(r.op.hash, served, now);
          if !fetched {
            return false;
          }
        }
      }
      ok := store.jrnl.AppendAt(r);
      if ok {
        store.ApplyRecord(r);
      }
    }

    /** Pull: applies one batch in order, stopping at the first failure, and notes the lag. */
    method Pull(page: seq<Record>, last: nat, served: map<Hash, Bytes>, now: Time) returns (count: nat)
      requires store.Valid()
      modifies this, store.blobs`files, store.jrnl, store.idx
      ensures store.Valid()
      ensures (store.Value(), count) == PullPage(old(store.Value()), page, served, now)
      ensures status.upstream == last && (status.failed <==> count < |page|)
      ensures count < |page| ==> status.applied == old(status.applied) && status.lag == old(status.lag)
      ensures count == |page| ==> status.applied == store.idx.applied
      ensures page == [] ==> status.lag == (last - store.idx.applied) % UINT64_LIMIT
      ensures page != [] && count == |page| ==>
                status.lag == if last > store.idx.applied then last - store.idx.applied else 0
    {
      status := status.(upstream := last, failed := false);
      count := ApplyBatch(page, served, now);
      var applied := store.idx.applied;
      if page == [] {
        status := status.(applied := applied, lag := (last - applied) % UINT64_LIMIT);
      } else if count < |page| {
        status := status.(failed := true);
      } else {
        status := status.(applied := applied, lag := if last > applied then last - applied else 0);
      }
    }

    /** The batch's records one by one, until one fails. */
    method ApplyBatch(page: seq<Record>, served: map<Hash, Bytes>, now: Time) returns (count: nat)
      requires store.Valid()
      modifies store.blobs`files, store.jrnl, store.idx
      ensures store.Valid() && count <= |page|
      ensures (store.Value(), count) == PullPage(old(store.Value()), page, served, now)
    {
      hide *;
      ghost var goal := PullPage(store.Value(), page, served, now);
      assert page[0..] == page;
      count := 0;
      while count < |page|
        invariant count <= |page| && store.Valid()
        invariant PullPage(store.Value(), page[count..], served, now).0 == goal.0
        invariant PullPage(store.Value(), page[count..], served, now).1 + count == goal.1
      {
        PullPageStep(store.Value(), page, count, served, now);
        var ok := ApplyOne(page[count], served, now);
        if !ok {
          return;
        }
        count := count + 1;
      }
      PullPageEnds(store.Value(), page, served, now);
    }
  }
}
