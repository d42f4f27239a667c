/**
 ListObjectsV2 (internal/s3/server.go: listObjects), the index cursor it walks
 (internal/index/index.go: WalkPrefix), and the client loop that follows its tokens
 (internal/s3client/client.go: List).

 A page's token is its last key, after which the next one starts; its base64 wrapping is left out.
 */
module Listing {
  import opened Wrappers
  import opened ByteStrings

  // -------------------------------------------------------- the cursor

  /** The keys that have a prefix, in the order of the whole list. */
  function WithPrefix(keys: seq<Bytes>, prefix: Bytes): seq<Bytes> {
    if keys == [] then []
    else (if HasPrefix(keys[0], prefix) then [keys[0]] else []) + WithPrefix(keys[1..], prefix)
  }

  lemma {:induction false} NoPrefixBelow(keys: seq<Bytes>, prefix: Bytes, n: nat)
    requires n <= |keys| && forall i :: 0 <= i < n ==> Below(keys[i], prefix)
    ensures WithPrefix(keys, prefix) == WithPrefix(keys[n..], prefix)
    decreases n
  {
    if n > 0 {
      if HasPrefix(keys[0], prefix) { PrefixNotBelow(prefix, keys[0]); }
      NoPrefixBelow(keys[1..], prefix, n - 1);
      assert keys[1..][n - 1..] == keys[n..];
      assert WithPrefix(keys, prefix) == [] + WithPrefix(keys[1..], prefix);
    }
  }

  lemma {:induction false} NoPrefixAfter(keys: seq<Bytes>, prefix: Bytes)
    requires Ascending(keys)
    requires forall i :: 0 <= i < |keys| ==> !Below(keys[i], prefix)
    requires keys != [] ==> !HasPrefix(keys[0], prefix)
    ensures WithPrefix(keys, prefix) == []
  {
    if keys != [] {
      if |keys| > 1 && HasPrefix(keys[1], prefix) {
        PrefixIsInterval(prefix, keys[0], keys[1]);
      }
      NoPrefixAfter(keys[1..], prefix);
    }
  }

  /** Seeking to the prefix and stopping at the first key without it visits exactly the keys that have it. */
  method WalkPrefix(keys: seq<Bytes>, prefix: Bytes) returns (visited: seq<Bytes>)
    requires Ascending(keys)
    ensures visited == WithPrefix(keys, prefix)
  {
    var k := 0;
    while k < |keys| && Below(keys[k], prefix)
      invariant k <= |keys| && forall i :: 0 <= i < k ==> Below(keys[i], prefix)
    {
      k := k + 1;
    }
    NoPrefixBelow(keys, prefix, k);
    forall i | k <= i < |keys| ensures !Below(keys[i], prefix) {
      if Below(keys[i], prefix) && i > k { BelowTransitive(keys[k], keys[i], prefix); }
    }
    visited := [];
    var from := k;
    while k < |keys| && HasPrefix(keys[k], prefix)
      invariant from <= k <= |keys|
      invariant visited + WithPrefix(keys[k..], prefix) == WithPrefix(keys, prefix)
    {
      assert keys[k..][1..] == keys[k + 1..];
      assert WithPrefix(keys[k..], prefix) == [keys[k]] + WithPrefix(keys[k + 1..], prefix);
      visited := visited + [keys[k]];
      k := k + 1;
    }
    NoPrefixAfter(keys[k..], prefix);
    assert visited + [] == visited;
  }

  lemma {:induction false} WithPrefixAscends(keys: seq<Bytes>, prefix: Bytes)
    requires Ascending(keys)
    ensures Ascending(WithPrefix(keys, prefix))
    ensures forall k :: k in WithPrefix(keys, prefix) <==> k in keys && HasPrefix(k, prefix)
  {
    if keys != [] {
      WithPrefixAscends(keys[1..], prefix);
      var rest := WithPrefix(keys[1..], prefix);
      assert keys == [keys[0]] + keys[1..];
      forall i | 0 <= i < |rest| ensures Below(keys[0], rest[i]) {
        assert rest[i] in keys[1..];
      }
    }
  }

  // ------------------------------------------------------------- a page

  /** Where delim first occurs in s, if it does. */
  function Index(s: Bytes, delim: Bytes): (i: Option<nat>)
    requires delim != []
    ensures i.Some? ==> i.value + |delim| <= |s| && s[i.value..i.value + |delim|] == delim
  {
    if |s| < |delim| then None
    else if s[..|delim|] == delim then Some(0)
    else
      var rest := Index(s[1..], delim);
      if rest.Some? then
        assert s[1..][rest.value..rest.value + |delim|] == s[rest.value + 1..rest.value + 1 + |delim|];
        Some(rest.value + 1)
      else None
  }

  /** No occurrence comes before the one found. */
  lemma {:induction false} IndexIsFirst(s: Bytes, delim: Bytes, k: nat)
    requires delim != [] && k + |delim| <= |s| && s[k..k + |delim|] == delim
    ensures Index(s, delim).Some? && Index(s, delim).value <= k
  {
    if k > 0 && s[..|delim|] != delim {
      assert s[1..][k - 1..k - 1 + |delim|] == s[k..k + |delim|];
      IndexIsFirst(s[1..], delim, k - 1);
    }
  }

  /** The group a key falls in: its part up to the first delimiter after the prefix. */
  function GroupOf(key: Bytes, prefix: Bytes, delim: Bytes): Option<Bytes>
    requires HasPrefix(key, prefix)
  {
    if delim == [] then None
    else
      var i := Index(key[|prefix|..], delim);
      if i.None? then None else Some(key[..|prefix| + i.value + |delim|])
  }

  predicate OccursAt(s: Bytes, k: nat, delim: Bytes) {
    k + |delim| <= |s| && s[k..k + |delim|] == delim
  }

  /** g is the key's shortest part, longer than the prefix, that ends in a delimiter after the prefix. */
  ghost predicate IsGroup(g: Bytes, key: Bytes, prefix: Bytes, delim: Bytes) {
    && delim != [] && |prefix| + |delim| <= |g| <= |key| && g == key[..|g|]
    && OccursAt(key, |g| - |delim|, delim)
    && forall k: nat :: |prefix| <= k < |g| - |delim| ==> !OccursAt(key, k, delim)
  }

  lemma OccursFrom(s: Bytes, p: nat, k: nat, delim: Bytes)
    requires p <= k <= |s|
    ensures OccursAt(s, k, delim) <==> OccursAt(s[p..], k - p, delim)
  {
    if k + |delim| <= |s| { assert s[p..][k - p..k - p + |delim|] == s[k..k + |delim|]; }
  }

  lemma IndexOccurs(s: Bytes, delim: Bytes, k: nat)
    requires delim != []
    ensures var i := Index(s, delim); i.Some? ==> OccursAt(s, i.value, delim)
    ensures var i := Index(s, delim); OccursAt(s, k, delim) ==> i.Some? && i.value <= k
  {
    hide Index;
    if OccursAt(s, k, delim) { IndexIsFirst(s, delim, k); }
  }

  /** The group of a key is that part, and a key has none exactly if it has no such part. */
  lemma GroupIsShortest(key: Bytes, prefix: Bytes, delim: Bytes, g: Bytes)
    requires HasPrefix(key, prefix)
    ensures IsGroup(g, key, prefix, delim) <==> GroupOf(key, prefix, delim) == Some(g)
  {
    hide Index, OccursAt;
    if delim != [] {
      var p, i := |prefix|, Index(key[|prefix|..], delim);
      forall k: nat | p <= k <= |key| && OccursAt(key, k, delim) ensures i.Some? && i.value <= k - p {
        OccursFrom(key, p, k, delim);
        IndexOccurs(key[p..], delim, k - p);
      }
      if i.Some? {
        IndexOccurs(key[p..], delim, 0);
        OccursFrom(key, p, p + i.value, delim);
      }
    }
  }

  datatype Page = Page(contents: seq<Bytes>, groups: seq<Bytes>, truncated: bool, token: Bytes)

  function Count(p: Page): nat {
    |p.contents| + |p.groups|
  }

  /** One key added to a page that has room. */
  function Add(p: Page, key: Bytes, prefix: Bytes, delim: Bytes): Page
    requires HasPrefix(key, prefix)
  {
    var g := GroupOf(key, prefix, delim);
    var p := p.(token := key);
    if g.None? then p.(contents := p.contents + [key])
    else if g.value in p.groups then p
    else p.(groups := p.groups + [g.value])
  }

  ghost predicate AllHave(keys: seq<Bytes>, prefix: Bytes) {
    forall i :: 0 <= i < |keys| ==> HasPrefix(keys[i], prefix)
  }

  /** The page that starts with p and takes from keys until it is full. */
  function Fill(p: Page, keys: seq<Bytes>, prefix: Bytes, delim: Bytes, max: nat): Page
    requires AllHave(keys, prefix)
    decreases |keys|
  {
    if keys == [] then p
    else if Count(p) >= max then p.(truncated := true)
    else Fill(Add(p, keys[0], prefix, delim), keys[1..], prefix, delim, max)
  }

  /** The keys to be listed: those with the prefix, after the resumption point when there is one. */
  function After(keys: seq<Bytes>, after: Bytes): seq<Bytes> {
    if keys == [] then []
    else if after != [] && !Below(after, keys[0]) then After(keys[1..], after)
    else [keys[0]] + After(keys[1..], after)
  }

  lemma {:induction false} AfterKeeps(keys: seq<Bytes>, after: Bytes)
    ensures forall k :: k in After(keys, after) <==> k in keys && (after == [] || Below(after, k))
    ensures Ascending(keys) ==> Ascending(After(keys, after))
  {
    if keys != [] {
      AfterKeeps(keys[1..], after);
      assert keys == [keys[0]] + keys[1..];
      if Ascending(keys) {
        var rest := After(keys[1..], after);
        forall i | 0 <= i < |rest| ensures Below(keys[0], rest[i]) {
          assert rest[i] in keys[1..];
        }
      }
    }
  }

  const NO_PAGE := Page([], [], false, [])

  /** What one request answers; a token takes the place of start-after. The token is empty unless truncated. */
  function PageOf(keys: seq<Bytes>, prefix: Bytes, delim: Bytes, max: nat, after: Bytes): Page
    requires AllHave(keys, prefix)
  {
    AfterAllHave(keys, prefix, after);
    var p := Fill(NO_PAGE, After(keys, after), prefix, delim, max);
    if p.truncated then p else p.(token := [])
  }

  lemma {:induction false} AfterAllHave(keys: seq<Bytes>, prefix: Bytes, after: Bytes)
    requires AllHave(keys, prefix)
    ensures AllHave(After(keys, after), prefix)
  {
    if keys != [] { AfterAllHave(keys[1..], prefix, after); }
  }

  /** listObjects: the walk over the keys that have the prefix, with its page-full stop. */
  method ListObjects(keys: seq<Bytes>, prefix: Bytes, delim: Bytes, maxKeys: nat, startAfter: Bytes, token: Bytes)
    returns (p: Page)
    requires Ascending(keys)
    ensures AllHave(WithPrefix(keys, prefix), prefix)
    ensures p == PageOf(WithPrefix(keys, prefix), prefix, delim, maxKeys, if token != [] then token else startAfter)
  {
    var listed := WalkPrefix(keys, prefix);
    WithPrefixAscends(keys, prefix);
    assert AllHave(listed, prefix);
    var after := if token != [] then token else startAfter;
    p := NO_PAGE;
    AfterAllHave(listed, prefix, after);
    assert listed[0..] == listed;
    hide After, Fill, GroupOf, Add, AllHave, HasPrefix, Below, WithPrefix;
    var n := 0;
    while n < |listed|
      invariant n <= |listed| && !p.truncated && AllHave(listed, prefix)
      invariant AllHave(After(listed[n..], after), prefix)
      invariant Fill(NO_PAGE, After(listed, after), prefix, delim, maxKeys)
                == Fill(p, After(listed[n..], after), prefix, delim, maxKeys)
    {
      var key := listed[n];
      WalkStep(p, listed, n, after, prefix, delim, maxKeys);
      n := n + 1;
      if after != [] && !Below(after, key) {
        continue;
      }
      if |p.contents| + |p.groups| >= maxKeys {
        return p.(truncated := true);
      }
      p := AddKey(p, key, prefix, delim);
    }
    p := p.(token := []);
  }

  /** The body of the walk for a key that goes on the page: alone, or as the group it falls in. */
  method AddKey(p: Page, key: Bytes, prefix: Bytes, delim: Bytes) returns (q: Page)
    requires HasPrefix(key, prefix)
    ensures q == Add(p, key, prefix, delim) && q.truncated == p.truncated
  {
    q := p.(token := key);
    if delim != [] {
      var i := Index(key[|prefix|..], delim);
      if i.Some? {
        var group := key[..|prefix| + i.value + |delim|];
        if group !in q.groups {
          q := q.(groups := q.groups + [group]);
        }
        return;
      }
    }
    q := q.(contents := q.contents + [key]);
  }

  lemma WalkStep(p: Page, listed: seq<Bytes>, n: nat, after: Bytes, prefix: Bytes, delim: Bytes, max: nat)
    requires n < |listed| && AllHave(listed, prefix) && AllHave(After(listed[n..], after), prefix)
    ensures HasPrefix(listed[n], prefix) && AllHave(After(listed[n + 1..], after), prefix)
    ensures Fill(p, After(listed[n..], after), prefix, delim, max)
            == if after != [] && !Below(after, listed[n]) then Fill(p, After(listed[n + 1..], after), prefix, delim, max)
               else if Count(p) >= max then p.(truncated := true)
               else Fill(Add(p, listed[n], prefix, delim), After(listed[n + 1..], after), prefix, delim, max)
  {
    hide Add;
    var rest := After(listed[n + 1..], after);
    assert listed[n..][0] == listed[n] && listed[n..][1..] == listed[n + 1..];
    AfterAllHave(listed[n + 1..], prefix, after);
    assert ([listed[n]] + rest)[1..] == rest;
  }

  // ----------------------------------------------------- following tokens

  function Ungrouped(keys: seq<Bytes>, prefix: Bytes, delim: Bytes): seq<Bytes>
    requires AllHave(keys, prefix)
  {
    if keys == [] then []
    else (if GroupOf(keys[0], prefix, delim).None? then [keys[0]] else []) + Ungrouped(keys[1..], prefix, delim)
  }

  function Groups(keys: seq<Bytes>, prefix: Bytes, delim: Bytes): set<Bytes>
    requires AllHave(keys, prefix)
  {
    if keys == [] then {}
    else
      var g := GroupOf(keys[0], prefix, delim);
      (if g.Some? then {g.value} else {}) + Groups(keys[1..], prefix, delim)
  }

  /** The ungrouped keys, and the groups, in terms of what a group is. */
  lemma {:induction false} GroupingExactly(keys: seq<Bytes>, prefix: Bytes, delim: Bytes)
    requires AllHave(keys, prefix)
    ensures forall k :: k in Ungrouped(keys, prefix, delim) <==> k in keys && forall g :: !IsGroup(g, k, prefix, delim)
    ensures forall g :: g in Groups(keys, prefix, delim) <==> exists k :: k in keys && IsGroup(g, k, prefix, delim)
    ensures Ascending(keys) ==> Ascending(Ungrouped(keys, prefix, delim))
  {
    hide IsGroup, GroupOf;
    if keys != [] {
      GroupingExactly(keys[1..], prefix, delim);
      assert keys == [keys[0]] + keys[1..];
      forall g ensures IsGroup(g, keys[0], prefix, delim) <==> GroupOf(keys[0], prefix, delim) == Some(g) {
        GroupIsShortest(keys[0], prefix, delim, g);
      }
      var rest := Ungrouped(keys[1..], prefix, delim);
      if Ascending(keys) {
        forall i | 0 <= i < |rest| ensures Below(keys[0], rest[i]) {
          assert rest[i] in keys[1..];
        }
      }
    }
  }

  function SetOf(s: seq<Bytes>): set<Bytes> {
    set x | x in s
  }

  ghost predicate Distinct(s: seq<Bytes>) {
    forall i, j :: 0 <= i < j < |s| ==> s[i] != s[j]
  }

  /** How many of keys a page started at p takes in before it is full. */
  function Taken(p: Page, keys: seq<Bytes>, prefix: Bytes, delim: Bytes, max: nat): (n: nat)
    requires AllHave(keys, prefix)
    ensures n <= |keys| && (keys != [] && Count(p) < max ==> n > 0)
    decreases |keys|
  {
    if keys == [] || Count(p) >= max then 0
    else 1 + Taken(Add(p, keys[0], prefix, delim), keys[1..], prefix, delim, max)
  }

  /** f is p after it took in the first n keys. */
  ghost predicate TookIn(p: Page, f: Page, keys: seq<Bytes>, n: nat, prefix: Bytes, delim: Bytes, max: nat) {
    && n <= |keys| && AllHave(keys[..n], prefix) && AllHave(keys[n..], prefix)
    && f.contents == p.contents + Ungrouped(keys[..n], prefix, delim)
    && SetOf(f.groups) == SetOf(p.groups) + Groups(keys[..n], prefix, delim) && Distinct(f.groups)
    && (f.truncated <==> n < |keys|)
    && f.token == (if n == 0 then p.token else keys[n - 1])
    && (Count(p) <= max ==> Count(f) <= max) && (f.truncated ==> Count(f) >= max)
  }

  lemma TookNone(p: Page, keys: seq<Bytes>, prefix: Bytes, delim: Bytes, max: nat)
    requires AllHave(keys, prefix) && !p.truncated && Distinct(p.groups) && (keys == [] || Count(p) >= max)
    ensures Taken(p, keys, prefix, delim, max) == 0
    ensures TookIn(p, Fill(p, keys, prefix, delim, max), keys, 0, prefix, delim, max)
  {
    hide GroupOf;
    assert keys[..0] == [] && keys[0..] == keys && p.contents + [] == p.contents;
  }

  lemma TookOneMore(p: Page, f: Page, keys: seq<Bytes>, n: nat, prefix: Bytes, delim: Bytes, max: nat)
    requires keys != [] && AllHave(keys, prefix) && Count(p) < max && Distinct(p.groups)
    requires TookIn(Add(p, keys[0], prefix, delim), f, keys[1..], n, prefix, delim, max)
    ensures TookIn(p, f, keys, n + 1, prefix, delim, max)
  {
    hide GroupOf, Add, SetOf, Distinct, Ungrouped, Groups;
    AddTakes(p, keys[0], prefix, delim);
    SplitFirst(keys, n, prefix, delim);
    var one, after: seq<Bytes> := [keys[0]], keys[1..][..n];
    assert keys[1..][n..] == keys[n + 1..];
    var here, rest := Ungrouped(one, prefix, delim), Ungrouped(after, prefix, delim);
    assert p.contents + here + rest == p.contents + (here + rest);
  }

  /** The first n + 1 keys are the first and n more. */
  lemma SplitFirst(keys: seq<Bytes>, n: nat, prefix: Bytes, delim: Bytes)
    requires n < |keys| && AllHave(keys, prefix)
    ensures var one, after: seq<Bytes> := [keys[0]], keys[1..][..n];
            && AllHave(one, prefix) && AllHave(after, prefix) && AllHave(keys[..n + 1], prefix)
            && Ungrouped(keys[..n + 1], prefix, delim) == Ungrouped(one, prefix, delim) + Ungrouped(after, prefix, delim)
            && Groups(keys[..n + 1], prefix, delim) == Groups(one, prefix, delim) + Groups(after, prefix, delim)
  {
    hide GroupOf;
    assert keys[..n + 1][0] == keys[0] && keys[..n + 1][1..] == keys[1..][..n];
  }

  /** A page in terms of the keys it took in: its ungrouped keys, its groups, and where it stopped. */
  lemma {:induction false} FillTakes(p: Page, keys: seq<Bytes>, prefix: Bytes, delim: Bytes, max: nat)
    requires AllHave(keys, prefix) && !p.truncated && Distinct(p.groups)
    ensures TookIn(p, Fill(p, keys, prefix, delim, max), keys, Taken(p, keys, prefix, delim, max), prefix, delim, max)
    decreases |keys|
  {
    hide GroupOf, Add, SetOf, Distinct, TookIn;
    if keys == [] || Count(p) >= max {
      TookNone(p, keys, prefix, delim, max);
    } else {
      var q := Add(p, keys[0], prefix, delim);
      AddTakes(p, keys[0], prefix, delim);
      FillTakes(q, keys[1..], prefix, delim, max);
      TookOneMore(p, Fill(q, keys[1..], prefix, delim, max), keys, Taken(q, keys[1..], prefix, delim, max), prefix, delim, max);
    }
  }

  lemma AddTakes(p: Page, key: Bytes, prefix: Bytes, delim: Bytes)
    requires HasPrefix(key, prefix) && Distinct(p.groups)
    ensures var q, one: seq<Bytes> := Add(p, key, prefix, delim), [key];
            && q.contents == p.contents + Ungrouped(one, prefix, delim)
            && SetOf(q.groups) == SetOf(p.groups) + Groups(one, prefix, delim) && Distinct(q.groups)
            && q.token == key && q.truncated == p.truncated && Count(q) <= Count(p) + 1
  {
    hide GroupOf;
    var g := GroupOf(key, prefix, delim);
    assert p.contents + [] == p.contents;
    if g.Some? && g.value !in p.groups {
      assert SetOf(p.groups + [g.value]) == SetOf(p.groups) + {g.value};
    }
  }

  /** What an ascending list holds after its n-th key. */
  lemma {:induction false} AfterIsDrop(keys: seq<Bytes>, n: nat)
    requires Ascending(keys) && 0 < n <= |keys| && keys[n - 1] != []
    ensures After(keys, keys[n - 1]) == keys[n..]
    decreases |keys|
  {
    if n == 1 {
      BelowIrreflexive(keys[0]);
      AfterAll(keys[1..], keys[0]);
    } else {
      BelowAsymmetric(keys[0], keys[n - 1]);
      AfterIsDrop(keys[1..], n - 1);
    }
  }

  lemma BelowAsymmetric(a: Bytes, b: Bytes)
    requires Below(a, b)
    ensures !Below(b, a)
  {
    if Below(b, a) {
      BelowTransitive(a, b, a);
      BelowIrreflexive(a);
    }
  }

  lemma {:induction false} AfterAll(keys: seq<Bytes>, after: Bytes)
    requires forall i :: 0 <= i < |keys| ==> Below(after, keys[i])
    ensures After(keys, after) == keys
  {
    if keys != [] {
      AfterAll(keys[1..], after);
      assert [keys[0]] + keys[1..] == keys;
    }
  }

  /** Everything the pages of a listing add up to. */
  datatype Listing = Listing(contents: seq<Bytes>, groups: seq<seq<Bytes>>)

  /** Following tokens over the remaining keys until a page is not truncated. */
  function Follow(keys: seq<Bytes>, prefix: Bytes, delim: Bytes, max: nat): Listing
    requires AllHave(keys, prefix) && max >= 1
    decreases |keys|
  {
    var n, p := Taken(NO_PAGE, keys, prefix, delim, max), Fill(NO_PAGE, keys, prefix, delim, max);
    if !p.truncated || n == 0 then Listing(p.contents, [p.groups])
    else
      var rest := Follow(keys[n..], prefix, delim, max);
      Listing(p.contents + rest.contents, [p.groups] + rest.groups)
  }

  function Union(groups: seq<seq<Bytes>>): set<Bytes> {
    if groups == [] then {} else SetOf(groups[0]) + Union(groups[1..])
  }

  lemma {:induction false} UngroupedSplit(keys: seq<Bytes>, n: nat, prefix: Bytes, delim: Bytes)
    requires AllHave(keys, prefix) && n <= |keys|
    ensures AllHave(keys[..n], prefix) && AllHave(keys[n..], prefix)
    ensures Ungrouped(keys, prefix, delim) == Ungrouped(keys[..n], prefix, delim) + Ungrouped(keys[n..], prefix, delim)
    ensures Groups(keys, prefix, delim) == Groups(keys[..n], prefix, delim) + Groups(keys[n..], prefix, delim)
    decreases n
  {
    if n > 0 {
      UngroupedSplit(keys[1..], n - 1, prefix, delim);
      assert keys[..n][1..] == keys[1..][..n - 1] && keys[1..][n - 1..] == keys[n..];
      var first := if GroupOf(keys[0], prefix, delim).None? then [keys[0]] else [];
      assert first + (Ungrouped(keys[1..][..n - 1], prefix, delim) + Ungrouped(keys[n..], prefix, delim))
             == first + Ungrouped(keys[1..][..n - 1], prefix, delim) + Ungrouped(keys[n..], prefix, delim);
    } else {
      assert keys[..0] == [] && keys[0..] == keys;
    }
  }

  /**
   Paging is exact: over all pages, every ungrouped key appears once and in order, and the
   groups are exactly those of the keys; no page repeats a group, though two pages may.
   */
  lemma {:induction false} PagingIsExact(keys: seq<Bytes>, prefix: Bytes, delim: Bytes, max: nat)
    requires AllHave(keys, prefix) && max >= 1
    ensures var l := Follow(keys, prefix, delim, max);
            && l.contents == Ungrouped(keys, prefix, delim) && Union(l.groups) == Groups(keys, prefix, delim)
            && forall i :: 0 <= i < |l.groups| ==> Distinct(l.groups[i])
    decreases |keys|
  {
    hide GroupOf, Index;
    var n, p := Taken(NO_PAGE, keys, prefix, delim, max), Fill(NO_PAGE, keys, prefix, delim, max);
    FillTakes(NO_PAGE, keys, prefix, delim, max);
    assert [] + Ungrouped(keys[..n], prefix, delim) == Ungrouped(keys[..n], prefix, delim);
    assert SetOf([]) == {};
    if !p.truncated || n == 0 {
      assert keys[..n] == keys;
      assert [p.groups][1..] == [];
    } else {
      UngroupedSplit(keys, n, prefix, delim);
      PagingIsExact(keys[n..], prefix, delim, max);
      var rest := Follow(keys[n..], prefix, delim, max);
      assert ([p.groups] + rest.groups)[1..] == rest.groups;
    }
  }

  /** Without a delimiter the pages concatenate to exactly the keys. */
  lemma {:induction false} PagesAreTheKeys(keys: seq<Bytes>, prefix: Bytes)
    requires AllHave(keys, prefix)
    ensures Ungrouped(keys, prefix, []) == keys && Groups(keys, prefix, []) == {}
  {
    if keys != [] {
      PagesAreTheKeys(keys[1..], prefix);
      assert [keys[0]] + keys[1..] == keys;
    }
  }

  /** With max-keys 0 a page claims more is to come but gives no token to ask for it. */
  lemma ZeroMaxKeysStalls(keys: seq<Bytes>, prefix: Bytes, delim: Bytes, after: Bytes)
    requires AllHave(keys, prefix)
    ensures var p := PageOf(keys, prefix, delim, 0, after);
            p.contents == [] && p.groups == [] && p.token == [] && (p.truncated <==> After(keys, after) != [])
  {
    AfterAllHave(keys, prefix, after);
  }

  /** A page holds no more than was asked for, and just that much when there is more to come. */
  lemma PageIsFull(keys: seq<Bytes>, prefix: Bytes, delim: Bytes, max: nat, after: Bytes)
    requires AllHave(keys, prefix)
    ensures var p := PageOf(keys, prefix, delim, max, after);
            && |p.contents| + |p.groups| <= max
            && (p.truncated ==> |p.contents| + |p.groups| == max)
  {
    hide GroupOf, Index, Below, After;
    AfterAllHave(keys, prefix, after);
    FillTakes(NO_PAGE, After(keys, after), prefix, delim, max);
  }

  /** The page a token leads to is the page over what the last one left. */
  lemma TokenResumes(keys: seq<Bytes>, prefix: Bytes, delim: Bytes, max: nat, after: Bytes)
    requires AllHave(keys, prefix) && Ascending(keys) && max >= 1 && forall k :: k in keys ==> k != []
    requires PageOf(keys, prefix, delim, max, after).truncated
    ensures var rest := After(keys, after);
            && AllHave(rest, prefix)
            && var n := Taken(NO_PAGE, rest, prefix, delim, max);
            && 0 < n < |rest|
            && PageOf(keys, prefix, delim, max, after).token == rest[n - 1] != []
            && After(keys, rest[n - 1]) == rest[n..]
  {
    hide GroupOf, Index, Below;
    AfterAllHave(keys, prefix, after);
    AfterKeeps(keys, after);
    var rest := After(keys, after);
    FillTakes(NO_PAGE, rest, prefix, delim, max);
    var n := Taken(NO_PAGE, rest, prefix, delim, max);
    assert rest[n - 1] in rest;
    AfterTwice(keys, after, rest[n - 1]);
    AfterIsDrop(rest, n);
  }

  /** Resuming later skips what resuming earlier would. */
  lemma {:induction false} AfterTwice(keys: seq<Bytes>, a: Bytes, b: Bytes)
    requires b != [] && (a == [] || Below(a, b))
    ensures After(keys, b) == After(After(keys, a), b)
  {
    if keys != [] {
      AfterTwice(keys[1..], a, b);
      if a != [] && Below(b, keys[0]) { BelowTransitive(a, b, keys[0]); }
      var rest := After(keys[1..], a);
      assert ([keys[0]] + rest)[1..] == rest;
    }
  }

  /** The whole listing as a client sees it: a request, then one per continuation token. */
  function FollowTokens(keys: seq<Bytes>, prefix: Bytes, delim: Bytes, max: nat, after: Bytes): Listing
    requires AllHave(keys, prefix) && Ascending(keys) && max >= 1 && forall k :: k in keys ==> k != []
    decreases |After(keys, after)|
  {
    var p := PageOf(keys, prefix, delim, max, after);
    if !p.truncated then Listing(p.contents, [p.groups])
    else
      TokenResumes(keys, prefix, delim, max, after);
      var rest := FollowTokens(keys, prefix, delim, max, p.token);
      Listing(p.contents + rest.contents, [p.groups] + rest.groups)
  }

  lemma {:induction false} TokensFollowKeys(keys: seq<Bytes>, prefix: Bytes, delim: Bytes, max: nat, after: Bytes)
    requires AllHave(keys, prefix) && Ascending(keys) && max >= 1 && forall k :: k in keys ==> k != []
    ensures AllHave(After(keys, after), prefix)
    ensures FollowTokens(keys, prefix, delim, max, after) == Follow(After(keys, after), prefix, delim, max)
    decreases |After(keys, after)|
  {
    hide Below, GroupOf, Index, Fill;
    AfterAllHave(keys, prefix, after);
    var p := PageOf(keys, prefix, delim, max, after);
    if p.truncated {
      TokenResumes(keys, prefix, delim, max, after);
      TokensFollowKeys(keys, prefix, delim, max, p.token);
    }
  }

  /**
   Listing a bucket by following tokens, from any start-after and with any page size of at
   least one: it ends, every ungrouped key with the prefix after the start appears once and in
   order, and the groups reported are exactly those of such keys.
   */
  lemma ListingIsExact(keys: seq<Bytes>, prefix: Bytes, delim: Bytes, max: nat, startAfter: Bytes)
    requires Ascending(keys) && max >= 1 && forall k :: k in keys ==> k != []
    ensures AllHave(WithPrefix(keys, prefix), prefix) && Ascending(WithPrefix(keys, prefix))
            && AllHave(After(WithPrefix(keys, prefix), startAfter), prefix)
            && forall k :: k in WithPrefix(keys, prefix) ==> k != []
    ensures var wanted := After(WithPrefix(keys, prefix), startAfter);
            var l := FollowTokens(WithPrefix(keys, prefix), prefix, delim, max, startAfter);
            && l.contents == Ungrouped(wanted, prefix, delim)
            && Union(l.groups) == Groups(wanted, prefix, delim)
            && (delim == [] ==> l.contents == wanted)
            && Ascending(l.contents)
            && (forall k :: k in l.contents <==> k in wanted && forall g :: !IsGroup(g, k, prefix, delim))
            && (forall g :: g in Union(l.groups) <==> exists k :: k in wanted && IsGroup(g, k, prefix, delim))
            && forall k :: k in wanted <==> k in keys && HasPrefix(k, prefix) && (startAfter == [] || Below(startAfter, k))
  {
    hide IsGroup, Below, GroupOf, Index, FollowTokens, Follow, HasPrefix;
    var listed := WithPrefix(keys, prefix);
    WithPrefixAscends(keys, prefix);
    assert AllHave(listed, prefix);
    TokensFollowKeys(listed, prefix, delim, max, startAfter);
    AfterKeeps(listed, startAfter);
    PagingIsExact(After(listed, startAfter), prefix, delim, max);
    PagesAreTheKeys(After(listed, startAfter), prefix);
    GroupingExactly(After(listed, startAfter), prefix, delim);
  }

  /** List: the client's loop, page after page until one is not truncated or gives no token. */
  method List(keys: seq<Bytes>, prefix: Bytes, maxKeys: nat) returns (all: seq<Bytes>)
    requires Ascending(keys) && maxKeys >= 1 && forall k :: k in keys ==> k != []
    ensures all == WithPrefix(keys, prefix)
  {
    WithPrefixAscends(keys, prefix);
    ghost var listed := WithPrefix(keys, prefix);
    assert AllHave(listed, prefix);
    AfterEmpty(listed);
    all := [];
    var token := [];
    hide *;
    while true
      invariant all + After(listed, token) == listed
      decreases |After(listed, token)|
    {
      PageGoesOn(listed, prefix, maxKeys, token, all);
      var page := ListObjects(keys, prefix, [], maxKeys, [], token);
      all := all + page.contents;
      if !page.truncated || page.token == [] {
        return;
      }
      token := page.token;
    }
  }

  /** What one page without a delimiter delivers, and what its token leaves. */
  lemma PageStep(listed: seq<Bytes>, prefix: Bytes, max: nat, token: Bytes) returns (n: nat)
    requires AllHave(listed, prefix) && Ascending(listed) && max >= 1 && forall k :: k in listed ==> k != []
    ensures var rest, page := After(listed, token), PageOf(listed, prefix, [], max, token);
            && n <= |rest| && page.contents == rest[..n] && rest == rest[..n] + rest[n..]
            && (!page.truncated ==> rest[n..] == [] && page.token == [])
            && (page.truncated ==> page.token != [] && After(listed, page.token) == rest[n..] && n > 0)
  {
    hide GroupOf, Fill;
    var rest := After(listed, token);
    AfterAllHave(listed, prefix, token);
    PageIsKeys(rest, prefix, max);
    n := Taken(NO_PAGE, rest, prefix, [], max);
    if PageOf(listed, prefix, [], max, token).truncated { TokenResumes(listed, prefix, [], max, token); }
  }

  /** So after a page the client holds all but what its token leaves. */
  lemma PageGoesOn(listed: seq<Bytes>, prefix: Bytes, max: nat, token: Bytes, all: seq<Bytes>)
    requires AllHave(listed, prefix) && Ascending(listed) && max >= 1 && forall k :: k in listed ==> k != []
    requires all + After(listed, token) == listed
    ensures var page := PageOf(listed, prefix, [], max, token);
            if !page.truncated || page.token == [] then all + page.contents == listed
            else
              && all + page.contents + After(listed, page.token) == listed
              && |After(listed, page.token)| < |After(listed, token)|
  {
    hide *;
    var n := PageStep(listed, prefix, max, token);
    var rest := After(listed, token);
    assert all + rest[..n] + rest[n..] == all + rest;
  }

  lemma {:induction false} AfterEmpty(keys: seq<Bytes>)
    ensures After(keys, []) == keys
  {
    if keys != [] {
      AfterEmpty(keys[1..]);
      assert [keys[0]] + keys[1..] == keys;
    }
  }

  /** A page without a delimiter is the keys it took. */
  lemma PageIsKeys(rest: seq<Bytes>, prefix: Bytes, max: nat)
    requires AllHave(rest, prefix)
    ensures var n, p := Taken(NO_PAGE, rest, prefix, [], max), Fill(NO_PAGE, rest, prefix, [], max);
            p.contents == rest[..n] && (p.truncated <==> n < |rest|) && rest == rest[..n] + rest[n..]
  {
    FillTakes(NO_PAGE, rest, prefix, [], max);
    var n := Taken(NO_PAGE, rest, prefix, [], max);
    PagesAreTheKeys(rest[..n], prefix);
    assert [] + rest[..n] == rest[..n];
  }
}
