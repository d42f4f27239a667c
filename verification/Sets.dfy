/** Facts about finite sets and sequences that the counting arguments share. */
module Sets {

  /** What a sequence lists at two places, it holds twice. */
  lemma Twice<T>(s: seq<T>, i: nat, j: nat)
    requires i < j < |s| && s[i] == s[j]
    ensures multiset(s)[s[i]] >= 2
  {
    assert s == s[..j] + [s[j]] + s[j + 1..];
    assert s[..j] == s[..i] + [s[i]] + s[i + 1..j];
  }

  lemma Tail<T>(s: seq<T>)
    requires s != []
    ensures multiset(s[1..]) == multiset(s) - multiset{s[0]}
  {
    assert s == [s[0]] + s[1..];
  }

  /** Two sets that agree except at x differ in size by what they say of x. */
  lemma SizeExcept<T>(a: set<T>, b: set<T>, x: T)
    requires forall y :: y != x ==> (y in b <==> y in a)
    ensures |b| - (if x in b then 1 else 0) == |a| - (if x in a then 1 else 0)
  {
    var rest := a - {x};
    assert rest == b - {x};
    assert a == if x in a then rest + {x} else rest;
    assert b == if x in b then rest + {x} else rest;
  }
}
