/** Strings in the order `sort.Strings` uses, and the sorted list of a set of strings.
    A set has exactly one such list (`SortedIsUnique`), which is why a signature
    computed from a Go map, whose iteration order is random, is well defined. */
module Strings {

  /** Strict lexicographic order. */
  predicate Less(a: string, b: string) {
    b != [] && (a == [] || a[0] < b[0] || (a[0] == b[0] && Less(a[1..], b[1..])))
  }

  predicate StrictlySorted(s: seq<string>) {
    forall i, j :: 0 <= i < j < |s| ==> Less(s[i], s[j])
  }

  function Elements<T>(s: seq<T>): (r: set<T>)
    ensures s != [] ==> s[0] in r
  {
    set x | x in s
  }

  lemma {:induction false} LessIsIrreflexive(a: string)
    ensures !Less(a, a)
  {
    if a != [] {
      LessIsIrreflexive(a[1..]);
    }
  }

  lemma {:induction false} LessIsTransitive(a: string, b: string, c: string)
    requires Less(a, b) && Less(b, c)
    ensures Less(a, c)
  {
    if a != [] && a[0] == b[0] && b[0] == c[0] {
      LessIsTransitive(a[1..], b[1..], c[1..]);
    }
  }

  lemma {:induction false} LessIsTotal(a: string, b: string)
    ensures Less(a, b) || a == b || Less(b, a)
  {
    if a != [] && b != [] && a[0] == b[0] {
      LessIsTotal(a[1..], b[1..]);
      assert a == [a[0]] + a[1..] && b == [b[0]] + b[1..];
    }
  }

  /** What the order is: the first character that differs decides, and a proper prefix comes first. */
  lemma {:induction false} LessIsLexicographic(a: string, b: string)
    ensures Less(a, b) <==> exists k :: 0 <= k < |b| && k <= |a| && a[..k] == b[..k] && (k == |a| || a[k] < b[k])
  {
    if b != [] && a != [] && a[0] == b[0] {
      LessIsLexicographic(a[1..], b[1..]);
      if Less(a, b) {
        var a', b' := a[1..], b[1..];
        var k :| 0 <= k < |b'| && k <= |a'| && a'[..k] == b'[..k] && (k == |a'| || a'[k] < b'[k]);
        assert a[..k + 1] == [a[0]] + a[1..][..k] && b[..k + 1] == [b[0]] + b[1..][..k];
      }
      if k :| 0 <= k < |b| && k <= |a| && a[..k] == b[..k] && (k == |a| || a[k] < b[k]) {
        assert k > 0;
        assert a[1..][..k - 1] == a[..k][1..] && b[1..][..k - 1] == b[..k][1..];
        assert 0 <= k - 1 < |b[1..]| && (k - 1 == |a[1..]| || a[1..][k - 1] < b[1..][k - 1]);
      }
    } else if Less(a, b) {
      assert a[..0] == b[..0];
    } else if k :| 0 <= k < |b| && k <= |a| && a[..k] == b[..k] && (k == |a| || a[k] < b[k]) {
      if k > 0 {
        assert a[..k][0] == b[..k][0];
      }
    }
  }

  /** Two strictly sorted lists of the same strings are the same list. */
  lemma {:induction false} SortedIsUnique(a: seq<string>, b: seq<string>)
    requires StrictlySorted(a) && StrictlySorted(b)
    requires Elements(a) == Elements(b)
    ensures a == b
  {
    if a == [] || b == [] {
      assert a == b;
    } else {
      HeadIsLeast(a, b);
      HeadIsLeast(b, a);
      LessIsTotal(a[0], b[0]);
      TailElements(a);
      TailElements(b);
      SortedIsUnique(a[1..], b[1..]);
      assert a == [a[0]] + a[1..] && b == [b[0]] + b[1..];
    }
  }

  lemma HeadIsLeast(a: seq<string>, b: seq<string>)
    requires a != [] && b != []
    requires StrictlySorted(a) && StrictlySorted(b)
    requires Elements(a) == Elements(b)
    ensures !Less(a[0], b[0])
  {
    if Less(a[0], b[0]) {
      assert a[0] in Elements(b);
      var i :| 0 <= i < |b| && b[i] == a[0];
      if i > 0 {
        LessIsTransitive(b[0], b[i], b[0]);
      }
      LessIsIrreflexive(b[0]);
    }
  }

  lemma TailElements(s: seq<string>)
    requires s != [] && StrictlySorted(s)
    ensures StrictlySorted(s[1..])
    ensures Elements(s[1..]) == Elements(s) - {s[0]}
  {
    LessIsIrreflexive(s[0]);
    forall x
      ensures x in Elements(s[1..]) <==> x in Elements(s) - {s[0]}
    {
      if x in Elements(s) - {s[0]} {
        var i :| 0 <= i < |s| && s[i] == x;
        assert s[1..][i - 1] == x;
      }
    }
  }

  /** `k` put into its place; a string already there is not repeated. */
  function Insert(s: seq<string>, k: string): (r: seq<string>)
    requires StrictlySorted(s)
    ensures StrictlySorted(r)
    ensures Elements(r) == Elements(s) + {k}
  {
    if s == [] then [k]
    else if k == s[0] then
      assert Elements(s) == Elements(s) + {k};
      s
    else if Less(k, s[0]) then
      InsertInFront(s, k);
      [k] + s
    else
      TailElements(s);
      LessIsTotal(k, s[0]);
      InsertBehind(s, Insert(s[1..], k), k);
      [s[0]] + Insert(s[1..], k)
  }

  lemma InsertInFront(s: seq<string>, k: string)
    requires s != [] && StrictlySorted(s) && Less(k, s[0])
    ensures StrictlySorted([k] + s)
    ensures Elements([k] + s) == Elements(s) + {k}
  {
    forall j | 0 <= j < |s|
      ensures Less(k, s[j])
    {
      if j > 0 { LessIsTransitive(k, s[0], s[j]); }
    }
  }

  lemma ElementsSnoc<T>(s: seq<T>, x: T)
    ensures Elements(s + [x]) == Elements(s) + {x}
  {
    assert forall y :: y in s + [x] <==> y in s || y == x;
  }

  lemma ElementsCons<T>(x: T, s: seq<T>)
    ensures Elements([x] + s) == {x} + Elements(s)
  {
    assert forall y :: y in [x] + s <==> y == x || y in s;
  }

  /** What is put behind the head stays behind it. */
  lemma StaysBehind(s: seq<string>, x: string)
    requires s != [] && StrictlySorted(s) && x in Elements(s[1..])
    ensures Less(s[0], x)
  {
    var i :| 0 <= i < |s[1..]| && s[1..][i] == x;
    assert s[i + 1] == x;
  }

  lemma InsertBehind(s: seq<string>, r: seq<string>, k: string)
    requires s != [] && StrictlySorted(s) && Less(s[0], k)
    requires StrictlySorted(r) && Elements(r) == Elements(s[1..]) + {k}
    ensures StrictlySorted([s[0]] + r)
    ensures Elements([s[0]] + r) == Elements(s) + {k}
  {
    forall j | 0 <= j < |r|
      ensures Less(s[0], r[j])
    {
      assert r[j] in Elements(r);
      if r[j] != k {
        StaysBehind(s, r[j]);
      }
    }
    ElementsCons(s[0], r);
    ElementsCons(s[0], s[1..]);
    assert [s[0]] + s[1..] == s;
  }

  /** The sorted, duplicate-free list of the strings in `s`. */
  function Sorted(s: seq<string>): (r: seq<string>)
    ensures StrictlySorted(r)
    ensures Elements(r) == Elements(s)
  {
    if s == [] then []
    else
      assert s == s[..|s| - 1] + [s[|s| - 1]];
      Insert(Sorted(s[..|s| - 1]), s[|s| - 1])
  }

  /** `for k := range m { keys = append(keys, k) }`: the keys in some order. */
  method KeysInSomeOrder(keys: set<string>) returns (r: seq<string>)
    ensures Elements(r) == keys
    ensures |r| == |keys|
  {
    r := [];
    var rest := keys;
    while rest != {}
      invariant rest <= keys
      invariant Elements(r) == keys - rest
      invariant |r| + |rest| == |keys|
      decreases rest
    {
      var k :| k in rest;
      assert Elements(r + [k]) == Elements(r) + {k};
      rest := rest - {k};
      r := r + [k];
    }
  }

  /** `sort.Strings` on the keys of a map. */
  method SortKeys(keys: seq<string>) returns (r: seq<string>)
    ensures r == Sorted(keys)
  {
    r := [];
    var i := 0;
    while i < |keys|
      invariant 0 <= i <= |keys|
      invariant r == Sorted(keys[..i])
    {
      assert keys[..i + 1][..i] == keys[..i];
      r := Insert(r, keys[i]);
      i := i + 1;
    }
    assert keys[..i] == keys;
  }

  /** Whatever order the keys come out of the map, sorting them gives one list. */
  lemma SortedForgetsOrder(a: seq<string>, b: seq<string>)
    requires Elements(a) == Elements(b)
    ensures Sorted(a) == Sorted(b)
  {
    SortedIsUnique(Sorted(a), Sorted(b));
  }

  predicate HasPrefix(s: string, prefix: string) {
    |prefix| <= |s| && s[..|prefix|] == prefix
  }

  predicate HasSuffix(s: string, suffix: string) {
    |suffix| <= |s| && s[|s| - |suffix|..] == suffix
  }

  predicate NewlineFree(s: string) {
    '\n' !in s
  }

  lemma PrefixSplit(s: string, prefix: string)
    requires HasPrefix(s, prefix)
    ensures s == prefix + s[|prefix|..]
  {
  }

  lemma SplitAt(s: string, d: nat)
    requires d < |s|
    ensures s == s[..d] + [s[d]] + s[d + 1..]
  {
  }

  lemma SuffixSplit(s: string, suffix: string)
    requires HasSuffix(s, suffix)
    ensures s == s[..|s| - |suffix|] + suffix
  {
  }

  lemma ConcatInjective(p: string, a: string, b: string, s: string)
    requires p + a + s == p + b + s
    ensures a == b
  {
    assert |p + a + s| == |p + b + s|;
    assert (p + a + s)[|p|..|p| + |a|] == a;
    assert (p + b + s)[|p|..|p| + |a|] == b;
  }
}
