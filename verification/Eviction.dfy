/**
 Which objects an eviction pass takes (internal/agent/recall.go: EvictToFit, overBy). The
 pass itself is Agent.Site.EvictToFit.
 */
module Eviction {
  import opened Wrappers
  import opened Blob
  import opened Index
  import Sets

  datatype Limits = Limits(maxSize: int, minFree: int, keepBelow: int)

  datatype Candidate = Candidate(key: Key, size: nat, atime: Time)

  /** Freeing that many bytes brings the site under its ceiling and above its free-space floor. */
  predicate Meets(limits: Limits, localBytes: int, free: Option<int>, freed: nat) {
    && (limits.maxSize > 0 ==> localBytes - freed <= limits.maxSize)
    && (limits.minFree > 0 && free.Some? ==> free.value + freed >= limits.minFree)
  }

  /** The least number of bytes to free; an unknown amount of free space asks for nothing. */
  function OverBy(limits: Limits, localBytes: int, free: Option<int>): (need: nat)
    ensures forall freed: nat :: Meets(limits, localBytes, free, freed) <==> freed >= need
  {
    var need := if limits.maxSize > 0 && localBytes > limits.maxSize then localBytes - limits.maxSize else 0;
    if limits.minFree > 0 && free.Some? && free.value < limits.minFree && limits.minFree - free.value > need
    then limits.minFree - free.value
    else need
  }

  /** Freeing that much, and no less, meets both limits. */
  lemma OverByIsLeast(limits: Limits, localBytes: int, free: Option<int>, freed: nat)
    ensures freed >= OverBy(limits, localBytes, free)
            <==> && (limits.maxSize > 0 ==> localBytes - freed <= limits.maxSize)
                 && (limits.minFree > 0 && free.Some? ==> free.value + freed >= limits.minFree)
  {
    assert Meets(limits, localBytes, free, freed) <==> freed >= OverBy(limits, localBytes, free);
  }

  /** Local, known to be on the store, and not too small to be worth it. */
  predicate Movable(e: Entry, limits: Limits) {
    e.state.Local() && e.state.Safe() && e.size >= limits.keepBelow
  }

  function CandidateOf(k: Key, e: Entry): Candidate {
    Candidate(k, e.size, e.atime)
  }

  function Movables(objs: map<Key, Entry>, limits: Limits): set<Key> {
    set k | k in objs && Movable(objs[k], limits)
  }

  /** The keys a pass may take. */
  function Eligible(objs: map<Key, Entry>, limits: Limits, never: set<Key>): set<Key> {
    set k | k in Movables(objs, limits) && !objs[k].pinned && k !in never
  }

  /** The colder first; of two equally cold, the larger. */
  predicate MayPrecede(a: Candidate, b: Candidate) {
    a.atime < b.atime || (a.atime == b.atime && a.size >= b.size)
  }

  ghost predicate Ordered(pool: seq<Candidate>) {
    forall i, j :: 0 <= i < j < |pool| ==> MayPrecede(pool[i], pool[j])
  }

  function Keys(pool: seq<Candidate>): (ks: set<Key>)
    ensures forall k :: k in ks <==> exists i :: 0 <= i < |pool| && pool[i].key == k
  {
    set i | 0 <= i < |pool| :: pool[i].key
  }

  /** The pool lists each eligible key once, with what the index says of it. */
  ghost predicate Lists(pool: seq<Candidate>, objs: map<Key, Entry>, keys: set<Key>) {
    && Keys(pool) == keys && keys <= objs.Keys
    && (forall i :: 0 <= i < |pool| ==> pool[i].key in objs && pool[i] == CandidateOf(pool[i].key, objs[pool[i].key]))
    && forall i, j :: 0 <= i < j < |pool| ==> pool[i].key != pool[j].key
  }

  function Freed(pool: seq<Candidate>): nat {
    if pool == [] then 0 else pool[0].size + Freed(pool[1..])
  }

  /** The candidates whose files can be removed. */
  function Usable(pool: seq<Candidate>, stuck: set<Key>): seq<Candidate> {
    if pool == [] then []
    else (if pool[0].key in stuck then [] else [pool[0]]) + Usable(pool[1..], stuck)
  }

  /** Taking candidates in turn until the target is reached, passing over those that fail. */
  function Chosen(pool: seq<Candidate>, stuck: set<Key>, target: int): seq<Candidate> {
    if pool == [] || target <= 0 then []
    else if pool[0].key in stuck then Chosen(pool[1..], stuck, target)
    else [pool[0]] + Chosen(pool[1..], stuck, target - pool[0].size)
  }

  lemma FreedFirst(c: Candidate, rest: seq<Candidate>)
    ensures Freed([c] + rest) == c.size + Freed(rest) && Freed(([c] + rest)[..0]) == 0
    ensures forall n :: 0 < n <= |rest| + 1 ==> Freed(([c] + rest)[..n]) == c.size + Freed(rest[..n - 1])
  {
    forall n | 0 < n <= |rest| + 1 ensures Freed(([c] + rest)[..n]) == c.size + Freed(rest[..n - 1]) {
      assert ([c] + rest)[..n][0] == c && ([c] + rest)[..n][1..] == rest[..n - 1];
    }
  }

  /** What is taken is the shortest prefix of the usable pool that reaches the target, or all of it. */
  lemma {:induction false} ChosenIsShortest(pool: seq<Candidate>, stuck: set<Key>, target: int)
    ensures Chosen(pool, stuck, target) <= Usable(pool, stuck)
    ensures Freed(Chosen(pool, stuck, target)) >= target || Chosen(pool, stuck, target) == Usable(pool, stuck)
    ensures forall n :: 0 <= n < |Chosen(pool, stuck, target)| ==> Freed(Chosen(pool, stuck, target)[..n]) < target
  {
    if pool != [] && target > 0 {
      if pool[0].key in stuck {
        ChosenIsShortest(pool[1..], stuck, target);
      } else {
        ChosenIsShortest(pool[1..], stuck, target - pool[0].size);
        var rest := Chosen(pool[1..], stuck, target - pool[0].size);
        var chosen := [pool[0]] + rest;
        assert Chosen(pool, stuck, target) == chosen;
        hide *;
        FreedFirst(pool[0], rest);
        forall n | 0 <= n < |chosen| ensures Freed(chosen[..n]) < target {
          if n > 0 { assert Freed(rest[..n - 1]) < target - pool[0].size; }
        }
      }
    }
  }

  lemma {:induction false} UsableKeepsOrder(pool: seq<Candidate>, stuck: set<Key>)
    requires Ordered(pool)
    ensures Ordered(Usable(pool, stuck))
    ensures forall c :: c in Usable(pool, stuck) <==> c in pool && c.key !in stuck
  {
    if pool != [] {
      UsableKeepsOrder(pool[1..], stuck);
      assert pool == [pool[0]] + pool[1..];
      var rest := Usable(pool[1..], stuck);
      forall j | 0 <= j < |rest| ensures MayPrecede(pool[0], rest[j]) {
        assert rest[j] in pool[1..];
      }
    }
  }

  /** Nothing that is left behind should have gone before anything that was taken. */
  lemma ColdestGoFirst(pool: seq<Candidate>, stuck: set<Key>, target: int, taken: Candidate, left: Candidate)
    requires Ordered(pool) && taken in Chosen(pool, stuck, target)
    requires left in pool && left.key !in stuck && left !in Chosen(pool, stuck, target)
    ensures taken.atime < left.atime || (taken.atime == left.atime && taken.size >= left.size)
  {
    var chosen, usable := Chosen(pool, stuck, target), Usable(pool, stuck);
    ChosenIsShortest(pool, stuck, target);
    UsableKeepsOrder(pool, stuck);
    var i :| 0 <= i < |chosen| && chosen[i] == taken;
    var j :| 0 <= j < |usable| && usable[j] == left;
    assert usable[i] == taken && usable[..|chosen|] == chosen;
    assert j >= |chosen|;
  }

  /** What a pass may take: what is local and on the store, not too small, and neither pinned nor protected. */
  lemma EligibleExactly(objs: map<Key, Entry>, limits: Limits, never: set<Key>, k: Key)
    ensures k in Eligible(objs, limits, never)
            <==> k in objs && objs[k].state == Synced && objs[k].size >= limits.keepBelow && !objs[k].pinned && k !in never
  {
  }

  /**
   A pass in terms of the index's entries: what it takes was eligible, and no eligible object that
   could be removed and was not is colder, or as cold and larger.
   */
  lemma PassTakesTheColdest(order: seq<Candidate>, objs: map<Key, Entry>, limits: Limits, never: set<Key>,
                            stuck: set<Key>, target: int, taken: Candidate, k: Key)
    requires Lists(order, objs, Eligible(objs, limits, never)) && Ordered(order)
    requires taken in Chosen(order, stuck, target)
    ensures taken.key in objs && taken.key !in never && taken.key !in stuck
    ensures var e := objs[taken.key];
            && e.state == Synced && e.size >= limits.keepBelow && !e.pinned && taken.size == e.size
            && (k in objs && objs[k].state == Synced && objs[k].size >= limits.keepBelow && !objs[k].pinned
                && k !in never && k !in stuck && k !in Keys(Chosen(order, stuck, target)) ==>
                  e.atime < objs[k].atime || (e.atime == objs[k].atime && e.size >= objs[k].size))
  {
    var chosen := Chosen(order, stuck, target);
    ChosenIsShortest(order, stuck, target);
    UsableKeepsOrder(order, stuck);
    assert taken in order && taken.key !in stuck by {
      var i :| 0 <= i < |chosen| && chosen[i] == taken;
      assert Usable(order, stuck)[i] == taken;
    }
    var i :| 0 <= i < |order| && order[i] == taken;
    assert taken.key in Keys(order);
    EligibleExactly(objs, limits, never, taken.key);
    EligibleExactly(objs, limits, never, k);
    hide Eligible, Chosen, Usable, Movable, Ordered;
    if k in Eligible(objs, limits, never) && k !in stuck && k !in Keys(chosen) {
      var j :| 0 <= j < |order| && order[j].key == k;
      ColdestGoFirst(order, stuck, target, taken, order[j]);
    }
  }

  /** The index entries once some keys have been evicted. */
  function Dropped(objs: map<Key, Entry>, gone: set<Key>): map<Key, Entry> {
    map k | k in objs :: if k in gone then objs[k].(state := Evicted) else objs[k]
  }

  /** A pass ends below the ceiling and above the floor, unless it has taken everything it could. */
  lemma PassReachesItsGoal(limits: Limits, localBytes: int, free: Option<int>, pool: seq<Candidate>, stuck: set<Key>)
    ensures var taken := Chosen(pool, stuck, OverBy(limits, localBytes, free));
            || taken == Usable(pool, stuck)
            || (&& (limits.maxSize > 0 ==> localBytes - Freed(taken) <= limits.maxSize)
                && (limits.minFree > 0 && free.Some? ==> free.value + Freed(taken) >= limits.minFree))
  {
    ChosenIsShortest(pool, stuck, OverBy(limits, localBytes, free));
    assert Meets(limits, localBytes, free, OverBy(limits, localBytes, free));
    hide OverBy, Chosen;
  }

  lemma {:induction false} FreedAppend(pool: seq<Candidate>, c: Candidate)
    ensures Freed(pool + [c]) == Freed(pool) + c.size
  {
    if pool != [] {
      assert (pool + [c])[1..] == pool[1..] + [c];
      FreedAppend(pool[1..], c);
    }
  }

  lemma KeysAppend(pool: seq<Candidate>, c: Candidate)
    ensures Keys(pool + [c]) == Keys(pool) + {c.key}
  {
    forall k ensures k in Keys(pool + [c]) <==> k in Keys(pool) + {c.key} {
      if k in Keys(pool) {
        var i :| 0 <= i < |pool| && pool[i].key == k;
        assert (pool + [c])[i].key == k;
      }
      assert (pool + [c])[|pool|] == c;
    }
  }

  lemma DroppedStep(objs: map<Key, Entry>, gone: set<Key>, k: Key)
    requires k in objs && k !in gone
    ensures Dropped(objs, gone)[k] == objs[k]
    ensures Dropped(objs, gone)[k := objs[k].(state := Evicted)] == Dropped(objs, gone + {k})
  {
  }

  // ------------------------------------------------------------ sorting

  function Insert(c: Candidate, pool: seq<Candidate>): (r: seq<Candidate>)
    ensures multiset(r) == multiset(pool) + multiset{c}
  {
    if pool == [] || MayPrecede(c, pool[0]) then
      assert multiset([c] + pool) == multiset(pool) + multiset{c};
      [c] + pool
    else
      assert pool == [pool[0]] + pool[1..];
      [pool[0]] + Insert(c, pool[1..])
  }

  lemma {:induction false} InsertKeepsOrder(c: Candidate, pool: seq<Candidate>)
    requires Ordered(pool)
    ensures Ordered(Insert(c, pool))
  {
    if pool != [] && !MayPrecede(c, pool[0]) {
      InsertKeepsOrder(c, pool[1..]);
      var rest := Insert(c, pool[1..]);
      forall j | 0 <= j < |rest| ensures MayPrecede(pool[0], rest[j]) {
        assert rest[j] in multiset(rest);
        assert rest[j] == c || rest[j] in pool[1..];
      }
    }
  }

  /** sort.Slice by coldness. */
  method Sort(pool: seq<Candidate>) returns (r: seq<Candidate>)
    ensures Ordered(r) && multiset(r) == multiset(pool)
  {
    r := [];
    for i := 0 to |pool|
      invariant Ordered(r) && multiset(r) == multiset(pool[..i])
    {
      InsertKeepsOrder(pool[i], r);
      assert pool[..i + 1] == pool[..i] + [pool[i]];
      r := Insert(pool[i], r);
    }
    assert pool[..|pool|] == pool;
  }

  /** Listing is a matter of which candidates there are, not of their order. */
  lemma SortedStillLists(pool: seq<Candidate>, r: seq<Candidate>, objs: map<Key, Entry>, keys: set<Key>)
    requires Lists(pool, objs, keys) && multiset(r) == multiset(pool)
    ensures Lists(r, objs, keys)
  {
    assert forall c :: c in r <==> c in multiset(r);
    assert forall c :: c in pool <==> c in multiset(pool);
    forall k ensures k in Keys(r) <==> k in keys {
      if k in Keys(r) {
        var i :| 0 <= i < |r| && r[i].key == k;
        assert r[i] in pool;
      }
      if k in keys {
        var i :| 0 <= i < |pool| && pool[i].key == k;
        assert pool[i] in r;
      }
    }
    forall i | 0 <= i < |r| ensures r[i].key in objs && r[i] == CandidateOf(r[i].key, objs[r[i].key]) {
      assert r[i] in pool;
    }
    forall i, j | 0 <= i < j < |r| ensures r[i].key != r[j].key {
      if r[i].key == r[j].key {
        assert r[i] in pool && r[j] in pool;
        assert r[i] == r[j];
        Sets.Twice(r, i, j);
        Once(pool, r[i]);
      }
    }
  }

  lemma {:induction false} Once(pool: seq<Candidate>, c: Candidate)
    requires forall i, j :: 0 <= i < j < |pool| ==> pool[i].key != pool[j].key
    ensures multiset(pool)[c] <= 1
  {
    if pool != [] {
      Once(pool[1..], c);
      assert pool == [pool[0]] + pool[1..];
      if pool[0] == c {
        assert forall j :: 1 <= j < |pool| ==> pool[j] != c;
        assert c !in pool[1..];
      }
    }
  }
}
