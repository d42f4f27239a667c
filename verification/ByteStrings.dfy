/** Go strings and byte slices: sequences of bytes, in bytewise order. */
module ByteStrings {

  type Byte = c: char | c as int < 256 witness 'a'

  type Bytes = seq<Byte>

  predicate HasPrefix(s: Bytes, prefix: Bytes) {
    |prefix| <= |s| && s[..|prefix|] == prefix
  }

  /** Strict bytewise order, the order of an index cursor and of a sorted key list. */
  predicate Below(a: Bytes, b: Bytes) {
    if b == [] then false
    else if a == [] then true
    else a[0] < b[0] || (a[0] == b[0] && Below(a[1..], b[1..]))
  }

  /** Two strings compare as their first bytes after a common beginning do; one that ends there comes first. */
  lemma {:induction false} BelowExactly(p: Bytes, a: Bytes, b: Bytes)
    requires a != [] && b != [] ==> a[0] != b[0]
    ensures Below(p + a, p + b) <==> b != [] && (a == [] || a[0] < b[0])
  {
    if p == [] {
      assert p + a == a && p + b == b;
    } else {
      BelowExactly(p[1..], a, b);
      assert (p + a)[1..] == p[1..] + a && (p + b)[1..] == p[1..] + b;
    }
  }

  lemma BelowTransitive(a: Bytes, b: Bytes, c: Bytes)
    requires Below(a, b) && Below(b, c)
    ensures Below(a, c)
  {
  }

  lemma BelowIrreflexive(a: Bytes)
    ensures !Below(a, a)
  {
  }

  lemma {:induction false} BelowTotal(a: Bytes, b: Bytes)
    ensures Below(a, b) || a == b || Below(b, a)
  {
    if a != [] && b != [] && a[0] == b[0] {
      BelowTotal(a[1..], b[1..]);
      assert a == [a[0]] + a[1..] && b == [b[0]] + b[1..];
    }
  }

  /** A key that has a prefix is not below it, and the keys that have it are contiguous. */
  lemma {:induction false} PrefixIsInterval(p: Bytes, a: Bytes, b: Bytes)
    requires HasPrefix(b, p) && !Below(a, p)
    requires Below(a, b)
    ensures HasPrefix(a, p)
  {
    if p != [] {
      assert b[0] == b[..|p|][0] == p[0];
      assert a[0] == p[0];
      assert b[1..][..|p| - 1] == b[..|p|][1..] == p[1..];
      PrefixIsInterval(p[1..], a[1..], b[1..]);
      assert a[..|p|] == [a[0]] + a[1..][..|p| - 1] == [p[0]] + p[1..] == p;
    }
  }

  lemma {:induction false} PrefixNotBelow(p: Bytes, k: Bytes)
    requires HasPrefix(k, p)
    ensures !Below(k, p)
  {
    if p != [] {
      assert k[0] == k[..|p|][0] == p[0];
      assert k[1..][..|p| - 1] == k[..|p|][1..] == p[1..];
      PrefixNotBelow(p[1..], k[1..]);
    }
  }

  /** Strictly increasing, hence without repetition. */
  ghost predicate Ascending(ks: seq<Bytes>) {
    forall i, j :: 0 <= i < j < |ks| ==> Below(ks[i], ks[j])
  }

  /** The index of the first newline, or the length when there is none. */
  function NewlineAt(data: Bytes): (i: nat)
    ensures i <= |data|
    ensures i < |data| ==> data[i] == '\n'
    ensures forall k :: 0 <= k < i ==> data[k] != '\n'
  {
    if data == [] || data[0] == '\n' then 0 else 1 + NewlineAt(data[1..])
  }

  lemma FirstLine(line: Bytes, rest: Bytes)
    requires '\n' !in line
    ensures NewlineAt(line + ['\n'] + rest) == |line|
    ensures (line + ['\n'] + rest)[..|line|] == line
    ensures (line + ['\n'] + rest)[|line| + 1..] == rest
  {
    var data := line + ['\n'] + rest;
    var i := NewlineAt(data);
    assert data[|line|] == '\n';
    assert forall k :: 0 <= k < |line| ==> data[k] == line[k];
  }
}
