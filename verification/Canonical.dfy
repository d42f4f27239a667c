/**
 The canonical encodings a request signature covers (internal/s3/sigv4.go), and the client's
 separately written ones (internal/s3client/client.go), per RFC 3986 sections 2.1 and 2.3.
 */
module Canonical {
  import opened Wrappers
  import opened ByteStrings
  import Sets

  // ------------------------------------------------------ percent-encoding

  predicate Unreserved(c: Byte) {
    'A' <= c <= 'Z' || 'a' <= c <= 'z' || '0' <= c <= '9' || c == '-' || c == '_' || c == '.' || c == '~'
  }

  function UpperHex(n: nat): (c: Byte)
    requires n < 16
    ensures UpperHexValue(c) == Some(n) && Unreserved(c)
  {
    if n < 10 then ('0' as int + n) as char else ('A' as int + n - 10) as char
  }

  function UpperHexValue(c: Byte): Option<nat> {
    if '0' <= c <= '9' then Some(c as int - '0' as int)
    else if 'A' <= c <= 'F' then Some(c as int - 'A' as int + 10)
    else None
  }

  function EncodeByte(c: Byte): Bytes {
    if Unreserved(c) then [c] else ['%', UpperHex(c as int / 16), UpperHex(c as int % 16)]
  }

  /** Letters, digits and -_.~ stay; any other byte becomes a percent sign and two upper-case hex digits. */
  lemma EncodedByte(c: Byte)
    ensures var digits: Bytes := "0123456789ABCDEF";
            EncodeByte(c) == if 'A' <= c <= 'Z' || 'a' <= c <= 'z' || '0' <= c <= '9' || c in ['-', '_', '.', '~'] then [c]
                             else ['%', digits[c as int / 16], digits[c as int % 16]]
  {
    UpperHexIs(c as int / 16);
    UpperHexIs(c as int % 16);
    hide UpperHex;
  }

  lemma UpperHexIs(n: nat)
    requires n < 16
    ensures UpperHex(n) == "0123456789ABCDEF"[n]
  {
  }

  function Encode(s: Bytes): Bytes {
    if s == [] then [] else EncodeByte(s[0]) + Encode(s[1..])
  }

  /** Percent-decoding: a percent sign must be followed by two upper-case hex digits. */
  function Decode(s: Bytes): Option<Bytes>
    decreases |s|
  {
    if s == [] then Some([])
    else if s[0] != '%' then
      var rest := Decode(s[1..]);
      if rest.None? then None else Some([s[0]] + rest.value)
    else if |s| < 3 || UpperHexValue(s[1]).None? || UpperHexValue(s[2]).None? then None
    else
      var rest := Decode(s[3..]);
      var v := UpperHexValue(s[1]).value * 16 + UpperHexValue(s[2]).value;
      if rest.None? then None else Some([v as char] + rest.value)
  }

  lemma DecodeOne(c: Byte, rest: Bytes)
    ensures Decode(EncodeByte(c) + rest) == if Decode(rest).None? then None else Some([c] + Decode(rest).value)
  {
    var s := EncodeByte(c) + rest;
    if Unreserved(c) {
      assert s[1..] == rest;
    } else {
      assert s[0] == '%' && s[3..] == rest;
    }
  }

  /** Percent-encoding loses nothing. */
  lemma {:induction false} DecodeEncode(s: Bytes)
    ensures Decode(Encode(s)) == Some(s)
  {
    hide EncodeByte;
    if s != [] {
      DecodeEncode(s[1..]);
      DecodeOne(s[0], Encode(s[1..]));
      assert [s[0]] + s[1..] == s;
    }
  }

  /** Encoded text consists of unreserved characters and percent signs. */
  lemma {:induction false} EncodeIsPlain(s: Bytes)
    ensures forall i :: 0 <= i < |Encode(s)| ==> Unreserved(Encode(s)[i]) || Encode(s)[i] == '%'
  {
    if s != [] { EncodeIsPlain(s[1..]); }
  }

  lemma {:induction false} EncodeAppend(a: Bytes, c: Byte)
    ensures Encode(a + [c]) == Encode(a) + EncodeByte(c)
  {
    hide EncodeByte;
    if a == [] {
      assert Encode([c]) == EncodeByte(c) + [];
      assert [] + [c] == [c];
    } else {
      EncodeAppend(a[1..], c);
      assert (a + [c])[1..] == a[1..] + [c];
    }
  }

  // --------------------------------------------------------- split and join

  function Split(s: Bytes, sep: Byte): (parts: seq<Bytes>)
    ensures parts != []
  {
    if s == [] then [[]]
    else
      var rest := Split(s[1..], sep);
      if s[0] == sep then [[]] + rest else [[s[0]] + rest[0]] + rest[1..]
  }

  function Join(parts: seq<Bytes>, sep: Byte): Bytes {
    if parts == [] then []
    else if |parts| == 1 then parts[0]
    else parts[0] + [sep] + Join(parts[1..], sep)
  }

  lemma {:induction false} SplitFirst(a: Bytes, rest: Bytes, sep: Byte)
    requires sep !in a
    ensures Split(a + [sep] + rest, sep) == [a] + Split(rest, sep)
    ensures Split(a, sep) == [a]
  {
    var s := a + [sep] + rest;
    if a == [] {
      assert s[0] == sep && s[1..] == rest;
    } else {
      SplitFirst(a[1..], rest, sep);
      assert s[0] == a[0] && s[1..] == a[1..] + [sep] + rest;
      assert [a[0]] + a[1..] == a;
      assert ([a[1..]] + Split(rest, sep))[1..] == Split(rest, sep);
    }
  }

  lemma {:induction false} SplitJoin(parts: seq<Bytes>, sep: Byte)
    requires parts != [] && forall i :: 0 <= i < |parts| ==> sep !in parts[i]
    ensures Split(Join(parts, sep), sep) == parts
  {
    if |parts| == 1 {
      SplitFirst(parts[0], [], sep);
    } else {
      SplitJoin(parts[1..], sep);
      SplitFirst(parts[0], Join(parts[1..], sep), sep);
    }
  }

  // ---------------------------------------------------------------- paths

  function EncodeAll(parts: seq<Bytes>): (r: seq<Bytes>)
    ensures |r| == |parts| && forall i :: 0 <= i < |parts| ==> r[i] == Encode(parts[i])
  {
    if parts == [] then [] else [Encode(parts[0])] + EncodeAll(parts[1..])
  }

  /** The path encoded segment by segment; the empty path stands for the root. */
  function CanonicalPath(path: Bytes): Bytes {
    if path == [] then ['/'] else Join(EncodeAll(Split(path, '/')), '/')
  }

  lemma JoinPrepend(c: Bytes, first: Bytes, rest: seq<Bytes>, sep: Byte)
    ensures Join([c + first] + rest, sep) == c + Join([first] + rest, sep)
  {
    if rest != [] {
      assert ([c + first] + rest)[1..] == rest && ([first] + rest)[1..] == rest;
      assert c + first + [sep] + Join(rest, sep) == c + (first + [sep] + Join(rest, sep));
    }
  }

  /** Encoding segment by segment decodes, separators and all, to the whole path. */
  lemma {:induction false} DecodePath(path: Bytes)
    ensures Decode(Join(EncodeAll(Split(path, '/')), '/')) == Some(path)
  {
    hide EncodeByte, Unreserved;
    if path == [] {
      assert EncodeAll([[]]) == [[]];
    } else {
      var c, rest := path[0], Split(path[1..], '/');
      var enc := EncodeAll(rest);
      DecodePath(path[1..]);
      assert [c] + path[1..] == path;
      if c == '/' {
        assert EncodeAll([[]] + rest) == [[]] + enc;
        assert (['/'] + Join(enc, '/'))[1..] == Join(enc, '/');
      } else {
        var first := [c] + rest[0];
        assert first[0] == c && first[1..] == rest[0];
        assert EncodeAll([first] + rest[1..]) == [EncodeByte(c) + enc[0]] + enc[1..];
        JoinPrepend(EncodeByte(c), enc[0], enc[1..], '/');
        assert [enc[0]] + enc[1..] == enc;
        DecodeOne(c, Join(enc, '/'));
      }
    }
  }

  /** The canonical path determines the path, except that the empty one is written as the root. */
  lemma CanonicalPathIsInjective(p: Bytes, q: Bytes)
    ensures CanonicalPath(p) == CanonicalPath(q) <==>
            p == q || (p == [] && q == ['/']) || (p == ['/'] && q == [])
  {
    hide Join, EncodeAll, Split, Decode;
    DecodePath(p);
    DecodePath(q);
    RootPath();
    DecodePath(['/']);
  }

  lemma RootPath()
    ensures CanonicalPath(['/']) == ['/']
  {
    var root: Bytes := ['/'];
    assert root[1..] == [];
    assert Split(root, '/') == [[], []];
    assert EncodeAll([[], []]) == [[], []];
    var two: seq<Bytes> := [[], []];
    var one: seq<Bytes> := [[]];
    assert two[1..] == one;
  }

  // ----------------------------------------------------------------- order

  ghost predicate Sorted(s: seq<Bytes>) {
    forall i, j :: 0 <= i < j < |s| ==> !Below(s[j], s[i])
  }

  lemma NotBelowTransitive(a: Bytes, b: Bytes, c: Bytes)
    requires !Below(b, a) && !Below(c, b)
    ensures !Below(c, a)
  {
    BelowTotal(a, b);
    BelowTotal(b, c);
    if Below(c, a) {
      if Below(a, b) { BelowTransitive(c, a, b); }
    }
  }

  /** x put in its place among sorted strings. */
  function Insert(x: Bytes, s: seq<Bytes>): (r: seq<Bytes>)
    ensures multiset(r) == multiset(s) + multiset{x}
  {
    if s == [] || !Below(s[0], x) then
      assert multiset([x] + s) == multiset(s) + multiset{x};
      [x] + s
    else
      var rest := Insert(x, s[1..]);
      assert s == [s[0]] + s[1..];
      [s[0]] + rest
  }

  lemma {:induction false} InsertSorts(x: Bytes, s: seq<Bytes>)
    requires Sorted(s)
    ensures Sorted(Insert(x, s))
  {
    if s != [] {
      if Below(s[0], x) {
        InsertSorts(x, s[1..]);
        var rest := Insert(x, s[1..]);
        forall j | 0 <= j < |rest| ensures !Below(rest[j], s[0]) {
          assert rest[j] in multiset(rest);
          if rest[j] == x {
            BelowIrreflexive(x);
            if Below(x, s[0]) { BelowTransitive(x, s[0], x); }
          } else {
            assert rest[j] in s[1..];
          }
        }
      } else {
        forall j | 0 <= j < |s| ensures !Below(s[j], x) {
          if j > 0 { NotBelowTransitive(x, s[0], s[j]); }
        }
      }
    }
  }

  /** The one sorted sequence with these elements. */
  ghost function InOrder(ms: multiset<Bytes>): (s: seq<Bytes>)
    ensures multiset(s) == ms
    decreases |ms|
  {
    if ms == multiset{} then []
    else
      var x :| x in ms;
      Insert(x, InOrder(ms - multiset{x}))
  }

  lemma {:induction false} InOrderSorted(ms: multiset<Bytes>)
    ensures Sorted(InOrder(ms))
    decreases |ms|
  {
    if ms != multiset{} {
      var x :| x in ms && InOrder(ms) == Insert(x, InOrder(ms - multiset{x}));
      InOrderSorted(ms - multiset{x});
      InsertSorts(x, InOrder(ms - multiset{x}));
    }
  }

  lemma SameHead(a: seq<Bytes>, b: seq<Bytes>)
    requires Sorted(a) && Sorted(b) && multiset(a) == multiset(b) && a != []
    ensures b != [] && a[0] == b[0]
  {
    assert a[0] in multiset(b) && b != [] && b[0] in multiset(a);
    var i :| 0 <= i < |b| && b[i] == a[0];
    var j :| 0 <= j < |a| && a[j] == b[0];
    BelowTotal(a[0], b[0]);
    BelowIrreflexive(a[0]);
    hide Below;
  }

  lemma {:induction false} SortedUnique(a: seq<Bytes>, b: seq<Bytes>)
    requires Sorted(a) && Sorted(b) && multiset(a) == multiset(b)
    ensures a == b
  {
    hide Below;
    if a != [] {
      SameHead(a, b);
      Sets.Tail(a);
      Sets.Tail(b);
      SortedUnique(a[1..], b[1..]);
      assert a == [a[0]] + a[1..] && b == [b[0]] + b[1..];
    } else {
      assert |multiset(b)| == |b|;
    }
  }

  lemma NoneSorted()
    ensures Sorted([])
  {
  }

  /** sort.Strings. */
  method SortStrings(s: seq<Bytes>) returns (r: seq<Bytes>)
    ensures r == InOrder(multiset(s))
  {
    r := [];
    InOrderSorted(multiset(s));
    NoneSorted();
    hide Sorted, InOrder, Insert, Below;
    for i := 0 to |s|
      invariant Sorted(r) && multiset(r) == multiset(s[..i])
    {
      InsertSorts(s[i], r);
      assert s[..i + 1] == s[..i] + [s[i]];
      r := Insert(s[i], r);
    }
    assert s[..|s|] == s;
    SortedUnique(r, InOrder(multiset(s)));
  }

  // ---------------------------------------------------------------- query

  type Query = map<Bytes, seq<Bytes>>

  type Pair = (Bytes, Bytes)

  function Tagged(k: Bytes, vs: seq<Bytes>): (r: seq<Pair>)
    ensures |r| == |vs| && forall i :: 0 <= i < |vs| ==> r[i] == (k, vs[i])
  {
    if vs == [] then [] else [(k, vs[0])] + Tagged(k, vs[1..])
  }

  /** The query's pairs, keys as listed and each key's values in order. */
  ghost function PairsFor(q: Query, keys: seq<Bytes>): seq<Pair>
    requires forall i :: 0 <= i < |keys| ==> keys[i] in q
  {
    if keys == [] then []
    else PairsFor(q, keys[..|keys| - 1]) + Tagged(keys[|keys| - 1], InOrder(multiset(q[keys[|keys| - 1]])))
  }

  ghost function KeysOf(q: Query): (ks: seq<Bytes>)
    ensures multiset(ks) == multiset(q.Keys)
    ensures forall i :: 0 <= i < |ks| ==> ks[i] in q
  {
    var ks := InOrder(multiset(q.Keys));
    assert forall i :: 0 <= i < |ks| ==> ks[i] in multiset(ks);
    ks
  }

  function RenderPair(p: Pair): Bytes {
    Encode(p.0) + ['='] + Encode(p.1)
  }

  function Render(ps: seq<Pair>): Bytes {
    if ps == [] then []
    else
      var n := |ps| - 1;
      Render(ps[..n]) + (if n == 0 then [] else ['&']) + RenderPair(ps[n])
  }

  /** The canonical query string. */
  ghost function CanonicalQuery(q: Query): Bytes {
    Render(PairsFor(q, KeysOf(q)))
  }

  ghost predicate Ascend(ps: seq<Pair>) {
    forall i, j :: 0 <= i < j < |ps| ==>
      Below(ps[i].0, ps[j].0) || (ps[i].0 == ps[j].0 && !Below(ps[j].1, ps[i].1))
  }

  lemma {:induction false} PairsAscend(q: Query, keys: seq<Bytes>)
    requires forall i :: 0 <= i < |keys| ==> keys[i] in q
    requires forall i, j :: 0 <= i < j < |keys| ==> Below(keys[i], keys[j])
    ensures Ascend(PairsFor(q, keys)) && forall i :: 0 <= i < |PairsFor(q, keys)| ==> PairsFor(q, keys)[i].0 in keys
  {
    hide Below, InOrder, Ascend;
    if keys == [] {
      NothingAscends();
    } else {
      var n := |keys| - 1;
      PairsAscend(q, keys[..n]);
      var before, vs := PairsFor(q, keys[..n]), InOrder(multiset(q[keys[n]]));
      InOrderSorted(multiset(q[keys[n]]));
      forall i | 0 <= i < |before| ensures Below(before[i].0, keys[n]) {
        var m :| 0 <= m < n && keys[..n][m] == before[i].0;
      }
      AscendOn(before, keys[n], vs);
    }
  }

  lemma NothingAscends()
    ensures Ascend([])
  {
  }

  lemma AscendOn(before: seq<Pair>, k: Bytes, vs: seq<Bytes>)
    requires Ascend(before) && Sorted(vs) && forall i :: 0 <= i < |before| ==> Below(before[i].0, k)
    ensures Ascend(before + Tagged(k, vs))
  {
    hide Below;
  }

  /** The canonical query lists its pairs by key, and under one key by value, in bytewise order. */
  lemma QueryAscends(q: Query)
    ensures CanonicalQuery(q) == Join(RenderEach(PairsFor(q, KeysOf(q))), '&') && Ascend(PairsFor(q, KeysOf(q)))
  {
    hide *;
    KeysAscend(q);
    RenderIsJoin(PairsFor(q, KeysOf(q)));
    PairsAscend(q, KeysOf(q));
    IsRendered(q);
  }

  lemma IsRendered(q: Query)
    ensures CanonicalQuery(q) == Render(PairsFor(q, KeysOf(q)))
  {
    hide Render, PairsFor, KeysOf;
  }

  lemma KeysAscend(q: Query)
    ensures var ks := KeysOf(q); forall i, j :: 0 <= i < j < |ks| ==> Below(ks[i], ks[j])
  {
    hide Below, InOrder;
    var ks := KeysOf(q);
    assert ks == InOrder(multiset(q.Keys));
    InOrderSorted(multiset(q.Keys));
    KeysAreDistinct(q);
    forall i, j | 0 <= i < j < |ks| ensures Below(ks[i], ks[j]) {
      BelowTotal(ks[i], ks[j]);
    }
  }

  lemma {:induction false} SamePairs(a: Query, b: Query, keys: seq<Bytes>)
    requires forall i :: 0 <= i < |keys| ==> keys[i] in a && keys[i] in b
    requires forall k :: k in a && k in b ==> multiset(a[k]) == multiset(b[k])
    ensures PairsFor(a, keys) == PairsFor(b, keys)
  {
    if keys != [] { SamePairs(a, b, keys[..|keys| - 1]); }
  }

  /** The canonical query depends only on which values each key has, not on any order. */
  lemma QueryIsOrderFree(a: Query, b: Query)
    requires a.Keys == b.Keys && forall k :: k in a ==> multiset(a[k]) == multiset(b[k])
    ensures CanonicalQuery(a) == CanonicalQuery(b)
  {
    SamePairs(a, b, KeysOf(a));
  }

  function RenderEach(ps: seq<Pair>): (r: seq<Bytes>)
    ensures |r| == |ps| && forall i :: 0 <= i < |ps| ==> r[i] == RenderPair(ps[i])
  {
    if ps == [] then [] else RenderEach(ps[..|ps| - 1]) + [RenderPair(ps[|ps| - 1])]
  }

  lemma {:induction false} JoinAppend(parts: seq<Bytes>, last: Bytes, sep: Byte)
    requires parts != []
    ensures Join(parts + [last], sep) == Join(parts, sep) + [sep] + last
  {
    assert (parts + [last])[1..] == parts[1..] + [last];
    if |parts| > 1 {
      JoinAppend(parts[1..], last, sep);
      assert parts[0] + [sep] + (Join(parts[1..], sep) + [sep] + last)
             == parts[0] + [sep] + Join(parts[1..], sep) + [sep] + last;
    }
  }

  lemma {:induction false} RenderIsJoin(ps: seq<Pair>)
    ensures Render(ps) == Join(RenderEach(ps), '&')
  {
    hide RenderPair;
    if ps != [] {
      var n := |ps| - 1;
      RenderIsJoin(ps[..n]);
      if n > 0 {
        JoinAppend(RenderEach(ps[..n]), RenderPair(ps[n]), '&');
      } else {
        assert [] + [] + RenderPair(ps[0]) == RenderPair(ps[0]);
      }
    }
  }

  /** A rendered pair has no ampersand, is not empty, and gives its key and value back. */
  lemma PairReads(p: Pair)
    ensures '&' !in RenderPair(p) && RenderPair(p) != []
    ensures Split(RenderPair(p), '=') == [Encode(p.0), Encode(p.1)]
  {
    EncodeIsPlain(p.0);
    EncodeIsPlain(p.1);
    assert '=' !in Encode(p.0) && '=' !in Encode(p.1) && '&' !in Encode(p.0) && '&' !in Encode(p.1);
    SplitFirst(Encode(p.0), Encode(p.1), '=');
    SplitFirst(Encode(p.1), [], '=');
  }

  lemma PairIsInjective(p: Pair, q: Pair)
    requires RenderPair(p) == RenderPair(q)
    ensures p == q
  {
    hide RenderPair;
    PairReads(p);
    PairReads(q);
    DecodeEncode(p.0);
    DecodeEncode(q.0);
    DecodeEncode(p.1);
    DecodeEncode(q.1);
    var parts := [Encode(p.0), Encode(p.1)];
    assert parts == [Encode(q.0), Encode(q.1)];
    assert parts[0] == Encode(q.0) && parts[1] == Encode(q.1);
  }

  /** The rendering determines the sequence of pairs. */
  lemma RenderIsInjective(ps: seq<Pair>, qs: seq<Pair>)
    requires Render(ps) == Render(qs)
    ensures ps == qs
  {
    RenderIsJoin(ps);
    RenderIsJoin(qs);
    hide RenderPair, Render, RenderEach;
    forall i | 0 <= i < |ps| ensures '&' !in RenderEach(ps)[i] { PairReads(ps[i]); }
    forall i | 0 <= i < |qs| ensures '&' !in RenderEach(qs)[i] { PairReads(qs[i]); }
    if ps == [] || qs == [] {
      if ps != [] { PairReads(ps[0]); }
      if qs != [] { PairReads(qs[0]); }
    } else {
      SplitJoin(RenderEach(ps), '&');
      SplitJoin(RenderEach(qs), '&');
      assert RenderEach(ps) == RenderEach(qs);
      forall i | 0 <= i < |ps| ensures ps[i] == qs[i] {
        assert RenderEach(ps)[i] == RenderPair(ps[i]) && RenderEach(qs)[i] == RenderPair(qs[i]);
        PairIsInjective(ps[i], qs[i]);
      }
    }
  }

  lemma {:induction false} TaggedCount(k: Bytes, vs: seq<Bytes>, p: Pair)
    ensures multiset(Tagged(k, vs))[p] == if p.0 == k then multiset(vs)[p.1] else 0
  {
    if vs != [] {
      TaggedCount(k, vs[1..], p);
      assert vs == [vs[0]] + vs[1..];
    }
  }

  /** How often a pair is listed is how often its key has its value. */
  lemma {:induction false} PairsCount(q: Query, keys: seq<Bytes>, p: Pair)
    requires forall i :: 0 <= i < |keys| ==> keys[i] in q
    requires forall i, j :: 0 <= i < j < |keys| ==> keys[i] != keys[j]
    ensures multiset(PairsFor(q, keys))[p] == if p.0 in keys then multiset(q[p.0])[p.1] else 0
  {
    if keys != [] {
      var n := |keys| - 1;
      PairsCount(q, keys[..n], p);
      var vs := InOrder(multiset(q[keys[n]]));
      TaggedCount(keys[n], vs, p);
      hide InOrder, Tagged;
      assert p.0 in keys <==> p.0 in keys[..n] || p.0 == keys[n];
      assert multiset(PairsFor(q, keys)) == multiset(PairsFor(q, keys[..n])) + multiset(Tagged(keys[n], vs));
    }
  }

  lemma KeysAreDistinct(q: Query)
    ensures var ks := KeysOf(q); forall i, j :: 0 <= i < j < |ks| ==> ks[i] != ks[j]
    ensures forall k :: k in KeysOf(q) <==> k in q
  {
    var ks := KeysOf(q);
    forall i, j | 0 <= i < j < |ks| ensures ks[i] != ks[j] {
      if ks[i] == ks[j] {
        Sets.Twice(ks, i, j);
      }
    }
    forall k ensures k in ks <==> k in q {
      assert k in ks <==> k in multiset(ks);
    }
  }

  /** When every key has a value, the canonical query determines the keys and each key's values. */
  lemma QueryIsDetermined(a: Query, b: Query)
    requires forall k :: k in a ==> a[k] != []
    requires forall k :: k in b ==> b[k] != []
    requires CanonicalQuery(a) == CanonicalQuery(b)
    ensures a.Keys == b.Keys && forall k :: k in a ==> multiset(a[k]) == multiset(b[k])
  {
    hide KeysOf, PairsFor, Render;
    RenderIsInjective(PairsFor(a, KeysOf(a)), PairsFor(b, KeysOf(b)));
    KeysAreDistinct(a);
    KeysAreDistinct(b);
    forall k, v ensures (if k in a then multiset(a[k])[v] else 0) == (if k in b then multiset(b[k])[v] else 0) {
      PairsCount(a, KeysOf(a), (k, v));
      PairsCount(b, KeysOf(b), (k, v));
    }
    forall k | k in a ensures k in b {
      assert multiset(a[k])[a[k][0]] > 0;
    }
    forall k | k in b ensures k in a {
      assert multiset(b[k])[b[k][0]] > 0;
    }
    forall k | k in a ensures multiset(a[k]) == multiset(b[k]) {
      forall v ensures multiset(a[k])[v] == multiset(b[k])[v] {
        assert (if k in a then multiset(a[k])[v] else 0) == (if k in b then multiset(b[k])[v] else 0);
      }
    }
  }

  /** How often a key has a value. */
  function Times(q: Query, k: Bytes, v: Bytes): nat {
    if k in q then multiset(q[k])[v] else 0
  }

  /** The query without its keys that have no value. */
  function Trim(q: Query): Query {
    map k | k in q && q[k] != [] :: q[k]
  }

  function Valued(q: Query, keys: seq<Bytes>): (r: seq<Bytes>)
    requires forall i :: 0 <= i < |keys| ==> keys[i] in q
    ensures forall i :: 0 <= i < |r| ==> r[i] in Trim(q)
  {
    if keys == [] then []
    else
      var n := |keys| - 1;
      assert keys == keys[..n] + [keys[n]];
      if q[keys[n]] == [] then Valued(q, keys[..n]) else Valued(q, keys[..n]) + [keys[n]]
  }

  lemma ValuedNone(q: Query)
    ensures PairsFor(q, []) == PairsFor(Trim(q), Valued(q, []))
  {
  }

  lemma {:induction false} ValuedPairs(q: Query, keys: seq<Bytes>)
    requires forall i :: 0 <= i < |keys| ==> keys[i] in q
    ensures PairsFor(q, keys) == PairsFor(Trim(q), Valued(q, keys))
  {
    hide *;
    if keys == [] {
      ValuedNone(q);
    } else {
      var n := |keys| - 1;
      ValuedPairs(q, keys[..n]);
      ValuedPairsStep(q, keys[..n], keys[n]);
      assert keys == keys[..n] + [keys[n]];
    }
  }

  lemma ValuedPairsStep(q: Query, keys: seq<Bytes>, k: Bytes)
    requires k in q && forall i :: 0 <= i < |keys| ==> keys[i] in q
    requires PairsFor(q, keys) == PairsFor(Trim(q), Valued(q, keys))
    ensures PairsFor(q, keys + [k]) == PairsFor(Trim(q), Valued(q, keys + [k]))
  {
    ValuedStep(q, keys, k);
    hide *;
    if q[k] != [] {
    }
  }

  lemma ValuedStep(q: Query, keys: seq<Bytes>, k: Bytes)
    requires k in q && forall i :: 0 <= i < |keys| ==> keys[i] in q
    ensures Valued(q, keys + [k]) == if q[k] == [] then Valued(q, keys) else Valued(q, keys) + [k]
    ensures q[k] != [] ==> k in Trim(q) && Trim(q)[k] == q[k]
  {
    assert (keys + [k])[..|keys|] == keys;
  }

  lemma NoneEncoded(parts: seq<Bytes>)
    ensures EncodeAll(parts[..0]) + parts[0..] == parts
    ensures EncodeAll(parts[..|parts|]) + parts[|parts|..] == EncodeAll(parts)
  {
    assert parts[..|parts|] == parts;
  }

  /** Encoding segment i where it stands. */
  lemma SegmentStep(parts: seq<Bytes>, i: nat)
    requires i < |parts|
    ensures (EncodeAll(parts[..i]) + parts[i..])[i] == parts[i]
    ensures (EncodeAll(parts[..i]) + parts[i..])[i := Encode(parts[i])] == EncodeAll(parts[..i + 1]) + parts[i + 1..]
  {
    hide Encode;
  }

  lemma {:induction false} ValuedFrom(q: Query, keys: seq<Bytes>, i: nat)
    requires forall i :: 0 <= i < |keys| ==> keys[i] in q
    requires i < |Valued(q, keys)|
    ensures Valued(q, keys)[i] in keys
  {
    if i < |Valued(q, keys[..|keys| - 1])| { ValuedFrom(q, keys[..|keys| - 1], i); }
  }

  lemma {:induction false} ValuedSorted(q: Query, keys: seq<Bytes>)
    requires Sorted(keys) && forall i :: 0 <= i < |keys| ==> keys[i] in q
    ensures Sorted(Valued(q, keys))
  {
    if keys != [] {
      var n := |keys| - 1;
      var before := Valued(q, keys[..n]);
      ValuedSorted(q, keys[..n]);
      assert Valued(q, keys) == if q[keys[n]] == [] then before else before + [keys[n]];
      hide Below, Valued;
      forall i | 0 <= i < |before| ensures !Below(keys[n], before[i]) {
        ValuedFrom(q, keys[..n], i);
      }
    }
  }

  lemma {:induction false} ValuedCount(q: Query, keys: seq<Bytes>, k: Bytes)
    requires forall i :: 0 <= i < |keys| ==> keys[i] in q
    ensures multiset(Valued(q, keys))[k] == if k in q && q[k] != [] then multiset(keys)[k] else 0
  {
    if keys != [] {
      var n := |keys| - 1;
      ValuedCount(q, keys[..n], k);
      assert keys == keys[..n] + [keys[n]];
      assert multiset(keys) == multiset(keys[..n]) + multiset{keys[n]};
    }
  }

  /** A key without values leaves no trace. */
  lemma TrimIsInvisible(q: Query)
    ensures CanonicalQuery(q) == CanonicalQuery(Trim(q))
  {
    var ks, t := KeysOf(q), Trim(q);
    InOrderSorted(multiset(q.Keys));
    InOrderSorted(multiset(t.Keys));
    ValuedSorted(q, ks);
    hide PairsFor, Valued, Sorted, InOrder;
    forall k ensures multiset(Valued(q, ks))[k] == multiset(t.Keys)[k] {
      ValuedCount(q, ks, k);
    }
    SortedUnique(Valued(q, ks), KeysOf(t));
    ValuedPairs(q, ks);
  }

  /** Exactly what a canonical query tells: which values each key has, and how often. */
  lemma QueryMeansItsPairs(a: Query, b: Query)
    ensures CanonicalQuery(a) == CanonicalQuery(b) <==> forall k, v :: Times(a, k, v) == Times(b, k, v)
  {
    hide CanonicalQuery;
    TrimIsInvisible(a);
    TrimIsInvisible(b);
    if CanonicalQuery(a) == CanonicalQuery(b) {
      QueryIsDetermined(Trim(a), Trim(b));
      forall k, v ensures Times(a, k, v) == Times(b, k, v) {
        assert k in Trim(a) <==> k in Trim(b);
      }
    }
    if forall k, v :: Times(a, k, v) == Times(b, k, v) {
      SameTrim(a, b);
      SameTrim(b, a);
      QueryIsOrderFree(Trim(a), Trim(b));
    }
  }

  lemma SameTrim(a: Query, b: Query)
    requires forall k, v :: Times(a, k, v) == Times(b, k, v)
    ensures forall k :: k in Trim(a) ==> k in Trim(b) && multiset(Trim(a)[k]) == multiset(Trim(b)[k])
  {
    forall k | k in Trim(a) ensures k in Trim(b) && multiset(Trim(a)[k]) == multiset(Trim(b)[k]) {
      assert Times(a, k, a[k][0]) > 0 && Times(b, k, a[k][0]) > 0;
      forall v ensures multiset(a[k])[v] == multiset(b[k])[v] {
        assert Times(a, k, v) == Times(b, k, v);
      }
    }
  }

  // -------------------------------------------------------------- the code

  /** uriEncode, the server's. */
  method UriEncode(s: Bytes) returns (b: Bytes)
    ensures b == Encode(s) && Decode(b) == Some(s)
  {
    b := [];
    for i := 0 to |s|
      invariant b == Encode(s[..i])
    {
      hide Encode;
      var c := s[i];
      EncodeAppend(s[..i], c);
      assert s[..i + 1] == s[..i] + [c];
      if Unreserved(c) {
        b := b + [c];
        continue;
      }
      b := b + ['%', UpperHex(c as int / 16), UpperHex(c as int % 16)];
    }
    assert s[..|s|] == s;
    DecodeEncode(s);
  }

  /** rfc3986, the client's own: the same text by a different loop. */
  method Rfc3986(s: Bytes) returns (b: Bytes)
    ensures b == Encode(s)
  {
    b := [];
    var i := 0;
    while i < |s|
      invariant i <= |s| && b + Encode(s[i..]) == Encode(s)
    {
      assert s[i..][0] == s[i] && s[i..][1..] == s[i + 1..];
      assert b + (EncodeByte(s[i]) + Encode(s[i + 1..])) == b + EncodeByte(s[i]) + Encode(s[i + 1..]);
      b := b + EncodeByte(s[i]);
      i := i + 1;
    }
    assert b + [] == b;
  }

  /** canonicalURI: segments encoded in place, then joined. */
  method CanonicalUri(path: Bytes) returns (r: Bytes)
    ensures r == CanonicalPath(path)
  {
    if path == [] {
      return ['/'];
    }
    var parts := Split(path, '/');
    NoneEncoded(parts);
    assert CanonicalPath(path) == Join(EncodeAll(parts), '/');
    hide *;
    var segments := parts;
    for i := 0 to |parts|
      invariant segments == EncodeAll(parts[..i]) + parts[i..]
    {
      SegmentStep(parts, i);
      var encoded := UriEncode(segments[i]);
      segments := segments[i := encoded];
    }
    r := Join(segments, '/');
  }

  /** encodePath, the client's. */
  method EncodePath(p: Bytes) returns (r: Bytes)
    ensures r == CanonicalPath(p)
  {
    if p == [] {
      return ['/'];
    }
    var split := Split(p, '/');
    NoneEncoded(split);
    assert CanonicalPath(p) == Join(EncodeAll(split), '/');
    hide *;
    var parts := split;
    for i := 0 to |split|
      invariant parts == EncodeAll(split[..i]) + split[i..]
    {
      SegmentStep(split, i);
      var encoded := Rfc3986(parts[i]);
      parts := parts[i := encoded];
    }
    r := Join(parts, '/');
  }

  /** The keys of a query, in whatever order the map gives them. */
  method ListKeys(q: Query) returns (keys: seq<Bytes>)
    ensures multiset(keys) == multiset(q.Keys)
  {
    keys := [];
    var todo := q.Keys;
    while todo != {}
      invariant todo <= q.Keys && multiset(keys) + multiset(todo) == multiset(q.Keys)
      decreases |todo|
    {
      var k :| k in todo;
      assert multiset(todo) == multiset(todo - {k}) + multiset{k};
      todo := todo - {k};
      keys := keys + [k];
    }
  }

  lemma RenderAppend(ps: seq<Pair>, p: Pair)
    ensures Render(ps) == [] <==> ps == []
    ensures Render(ps + [p]) == (if Render(ps) == [] then [] else Render(ps) + ['&']) + Encode(p.0) + ['='] + Encode(p.1)
  {
    assert (ps + [p])[..|ps|] == ps;
    if ps != [] { PairReads(ps[|ps| - 1]); }
    var sofar := if Render(ps) == [] then [] else Render(ps) + ['&'];
    assert sofar + (Encode(p.0) + ['='] + Encode(p.1)) == sofar + Encode(p.0) + ['='] + Encode(p.1);
    var none: Bytes := [];
    assert none + none == none;
  }

  /** The pairs written once the first j values of key i are out. */
  ghost function Written(q: Query, keys: seq<Bytes>, i: nat, j: nat): seq<Pair>
    requires i < |keys| && forall m :: 0 <= m < |keys| ==> keys[m] in q
    requires j <= |q[keys[i]]|
  {
    ValuesCount(q[keys[i]]);
    PairsFor(q, keys[..i]) + Tagged(keys[i], InOrder(multiset(q[keys[i]])))[..j]
  }

  lemma ValuesCount(vs: seq<Bytes>)
    ensures |InOrder(multiset(vs))| == |vs|
  {
    assert |multiset(InOrder(multiset(vs)))| == |multiset(vs)|;
  }

  /** Writing the next pair. */
  lemma WrittenStep(q: Query, keys: seq<Bytes>, i: nat, j: nat)
    requires i < |keys| && forall m :: 0 <= m < |keys| ==> keys[m] in q
    requires j < |q[keys[i]]|
    ensures |InOrder(multiset(q[keys[i]]))| == |q[keys[i]]|
    ensures var sofar, v := Render(Written(q, keys, i, j)), InOrder(multiset(q[keys[i]]))[j];
            Render(Written(q, keys, i, j + 1))
            == (if sofar == [] then [] else sofar + ['&']) + Encode(keys[i]) + ['='] + Encode(v)
  {
    hide *;
    WrittenNext(q, keys, i, j);
    RenderAppend(Written(q, keys, i, j), (keys[i], InOrder(multiset(q[keys[i]]))[j]));
  }

  lemma WrittenNext(q: Query, keys: seq<Bytes>, i: nat, j: nat)
    requires i < |keys| && forall m :: 0 <= m < |keys| ==> keys[m] in q
    requires j < |q[keys[i]]|
    ensures |InOrder(multiset(q[keys[i]]))| == |q[keys[i]]|
    ensures Written(q, keys, i, j + 1)
            == Written(q, keys, i, j) + [(keys[i], InOrder(multiset(q[keys[i]]))[j])]
  {
    ValuesCount(q[keys[i]]);
    hide PairsFor, InOrder, Tagged;
    Grow(PairsFor(q, keys[..i]), Tagged(keys[i], InOrder(multiset(q[keys[i]]))), j);
  }

  lemma Grow(before: seq<Pair>, t: seq<Pair>, j: nat)
    requires j < |t|
    ensures before + t[..j + 1] == before + t[..j] + [t[j]]
  {
  }

  lemma WrittenEnds(q: Query, keys: seq<Bytes>, i: nat)
    requires i < |keys| && forall m :: 0 <= m < |keys| ==> keys[m] in q
    ensures Written(q, keys, i, 0) == PairsFor(q, keys[..i])
    ensures Written(q, keys, i, |q[keys[i]]|) == PairsFor(q, keys[..i + 1])
  {
    ValuesCount(q[keys[i]]);
    hide InOrder, Tagged;
    assert keys[..i + 1][..i] == keys[..i];
    GrowEnds(PairsFor(q, keys[..i]), Tagged(keys[i], InOrder(multiset(q[keys[i]]))));
  }

  lemma GrowEnds(before: seq<Pair>, t: seq<Pair>)
    ensures before + t[..0] == before && before + t[..|t|] == before + t
  {
  }

  /** canonicalQuery: keys sorted, each key's values sorted, each pair written after the one before. */
  method CanonicalQueryString(q: Query) returns (b: Bytes)
    ensures b == CanonicalQuery(q)
  {
    hide InOrder, PairsFor, Render, Written, Encode, EncodeByte;
    var keys := ListKeys(q);
    keys := SortedKeys(q, keys);
    b := [];
    NothingWritten(q, keys);
    for i := 0 to |keys|
      invariant b == Render(PairsFor(q, keys[..i]))
    {
      var vals := SortStrings(q[keys[i]]);
      ValuesCount(q[keys[i]]);
      WrittenEnds(q, keys, i);
      for j := 0 to |vals|
        invariant b == Render(Written(q, keys, i, j))
      {
        WrittenStep(q, keys, i, j);
        if |b| > 0 {
          b := b + ['&'];
        }
        var k := UriEncode(keys[i]);
        b := b + k + ['='];
        var v := UriEncode(vals[j]);
        b := b + v;
      }
    }
    assert keys[..|keys|] == keys;
  }

  lemma NothingWritten(q: Query, keys: seq<Bytes>)
    requires forall m :: 0 <= m < |keys| ==> keys[m] in q
    ensures Render(PairsFor(q, keys[..0])) == []
  {
  }

  method SortedKeys(q: Query, keys: seq<Bytes>) returns (sorted: seq<Bytes>)
    requires multiset(keys) == multiset(q.Keys)
    ensures sorted == KeysOf(q)
  {
    sorted := SortStrings(keys);
  }

  /** encodeQuery, the client's: the same string. */
  method EncodeQuery(q: Query) returns (b: Bytes)
    ensures b == CanonicalQuery(q)
  {
    hide InOrder, PairsFor, Render, Written, Encode, EncodeByte;
    var keys := ListKeys(q);
    keys := SortedKeys(q, keys);
    b := [];
    NothingWritten(q, keys);
    for i := 0 to |keys|
      invariant b == Render(PairsFor(q, keys[..i]))
    {
      var vals := SortStrings(q[keys[i]]);
      ValuesCount(q[keys[i]]);
      WrittenEnds(q, keys, i);
      for j := 0 to |vals|
        invariant b == Render(Written(q, keys, i, j))
      {
        WrittenStep(q, keys, i, j);
        if |b| > 0 {
          b := b + ['&'];
        }
        var k := Rfc3986(keys[i]);
        var v := Rfc3986(vals[j]);
        assert b + k + ['='] + v == b + (k + ['='] + v);
        b := b + (k + ['='] + v);
      }
    }
    assert keys[..|keys|] == keys;
  }
}
