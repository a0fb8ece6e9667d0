/** Sequence operations the application leans on: `Array.prototype.filter`,
    the id-keyed `map` used by every update, the insertion order of keys in a
    record built by a `reduce`, per-key counts, and the two string helpers
    `split(' ').pop()` and `join(', ')`. */
module Lists {

  ghost predicate NoDuplicates<T>(s: seq<T>) {
    forall i, j :: 0 <= i < j < |s| ==> s[i] != s[j]
  }

  /** A non-empty sequence is its front followed by its last element. */
  lemma SplitLast<T>(s: seq<T>)
    requires s != []
    ensures s[..|s| - 1] + [s[|s| - 1]] == s
  {
  }

  /** `s.filter(p)`: the elements of `s` satisfying `p`, in their order. */
  function Filter<T(!new)>(s: seq<T>, p: T -> bool): (r: seq<T>)
    ensures |r| <= |s|
    ensures forall x :: x in r <==> x in s && p(x)
    ensures forall i :: 0 <= i < |r| ==> p(r[i])
    decreases |s|
  {
    if s == [] then []
    else if p(s[|s| - 1]) then Filter(s[..|s| - 1], p) + [s[|s| - 1]]
    else Filter(s[..|s| - 1], p)
  }

  /** Filtering distributes over concatenation; with the singleton case this
      pins the result down completely: order is kept, nothing is invented. */
  lemma {:induction false} FilterConcat<T(!new)>(a: seq<T>, b: seq<T>, p: T -> bool)
    ensures Filter(a + b, p) == Filter(a, p) + Filter(b, p)
    decreases |b|
  {
    if b == [] {
      assert a + b == a;
    } else {
      var b' := b[..|b| - 1];
      assert (a + b)[..|a + b| - 1] == a + b';
      FilterConcat(a, b', p);
    }
  }

  lemma FilterSingleton<T(!new)>(x: T, p: T -> bool)
    ensures Filter([x], p) == if p(x) then [x] else []
  {
    assert [x][..0] == [];
  }

  /** Filtering keeps the whole sequence exactly when every element passes. */
  lemma {:induction false} FilterKeepsAll<T(!new)>(s: seq<T>, p: T -> bool)
    ensures Filter(s, p) == s <==> forall i :: 0 <= i < |s| ==> p(s[i])
    decreases |s|
  {
    if s != [] {
      var s' := s[..|s| - 1];
      FilterKeepsAll(s', p);
      if forall i :: 0 <= i < |s| ==> p(s[i]) {
        assert forall i :: 0 <= i < |s'| ==> p(s'[i]);
        assert s' + [s[|s| - 1]] == s;
      } else if p(s[|s| - 1]) {
        var k :| 0 <= k < |s| && !p(s[k]);
        assert s[k] in s && !p(s[k]);
      } else {
        assert |Filter(s, p)| <= |s'| < |s|;
      }
    }
  }

  lemma FilterIdempotent<T(!new)>(s: seq<T>, p: T -> bool)
    ensures Filter(Filter(s, p), p) == Filter(s, p)
  {
    FilterKeepsAll(Filter(s, p), p);
  }

  /** Filtering a duplicate-free sequence leaves it duplicate-free. */
  lemma {:induction false} FilterNoDuplicates<T(!new)>(s: seq<T>, p: T -> bool)
    requires NoDuplicates(s)
    ensures NoDuplicates(Filter(s, p))
    decreases |s|
  {
    if s != [] {
      var s' := s[..|s| - 1];
      var x := s[|s| - 1];
      FilterNoDuplicates(s', p);
      if p(x) {
        assert x !in s';
        AppendNoDuplicates(Filter(s', p), x);
      }
    }
  }

  lemma AppendNoDuplicates<T>(s: seq<T>, x: T)
    requires NoDuplicates(s) && x !in s
    ensures NoDuplicates(s + [x])
  {
    forall i, j | 0 <= i < j < |s + [x]| ensures (s + [x])[i] != (s + [x])[j] {
      if j == |s| {
        assert s[i] in s;
      }
    }
  }

  /** `s.map(x => key(x) === id ? f(x) : x)`: rewrite every element whose key
      is `id`, leave the others as they are. */
  function MapMatching<T>(s: seq<T>, key: T -> string, id: string, f: T -> T): (r: seq<T>)
    ensures |r| == |s|
    ensures forall i :: 0 <= i < |s| && key(s[i]) != id ==> r[i] == s[i]
    ensures forall i :: 0 <= i < |s| && key(s[i]) == id ==> r[i] == f(s[i])
  {
    seq(|s|, i requires 0 <= i < |s| => if key(s[i]) == id then f(s[i]) else s[i])
  }

  /** An id no element carries leaves the sequence unchanged. */
  lemma MapMatchingAbsent<T>(s: seq<T>, key: T -> string, id: string, f: T -> T)
    requires forall i :: 0 <= i < |s| ==> key(s[i]) != id
    ensures MapMatching(s, key, id, f) == s
  {
  }

  /** `s.filter(x => key(x) !== id)`. */
  function RemoveMatching<T(!new)>(s: seq<T>, key: T -> string, id: string): (r: seq<T>)
    ensures forall x :: x in r <==> x in s && key(x) != id
    ensures forall i :: 0 <= i < |r| ==> key(r[i]) != id
  {
    Filter(s, (x: T) => key(x) != id)
  }

  lemma RemoveMatchingConcat<T(!new)>(a: seq<T>, b: seq<T>, key: T -> string, id: string)
    ensures RemoveMatching(a + b, key, id) == RemoveMatching(a, key, id) + RemoveMatching(b, key, id)
  {
    FilterConcat(a, b, (x: T) => key(x) != id);
  }

  /** Removing an id that no element carries is the identity. */
  lemma RemoveMatchingAbsent<T(!new)>(s: seq<T>, key: T -> string, id: string)
    requires forall i :: 0 <= i < |s| ==> key(s[i]) != id
    ensures RemoveMatching(s, key, id) == s
  {
    FilterKeepsAll(s, (x: T) => key(x) != id);
  }

  /** Removing the same id twice is the same as removing it once. */
  lemma RemoveMatchingTwice<T(!new)>(s: seq<T>, key: T -> string, id: string)
    ensures RemoveMatching(RemoveMatching(s, key, id), key, id) == RemoveMatching(s, key, id)
  {
    RemoveMatchingAbsent(RemoveMatching(s, key, id), key, id);
  }

  /** The keys of `s`, each once, in the order of their first occurrence:
      the key order of a record filled by `s.reduce` (no key here is an
      integer-like string, so `Object.entries` keeps insertion order). */
  function FirstKeys<T(!new), K(==,!new)>(s: seq<T>, key: T -> K): (r: seq<K>)
    ensures forall k :: k in r <==> exists x :: x in s && key(x) == k
    ensures NoDuplicates(r)
    decreases |s|
  {
    if s == [] then []
    else
      var r' := FirstKeys(s[..|s| - 1], key);
      var x := s[|s| - 1];
      assert forall y :: y in s <==> y in s[..|s| - 1] || y == x;
      if key(x) in r' then r' else r' + [key(x)]
  }

  /** Keys are listed in the order of their first occurrence: the keys met
      among the first `m` elements form a prefix of the full key list. */
  lemma {:induction false} FirstKeysPrefix<T(!new), K(!new)>(s: seq<T>, key: T -> K, m: nat)
    requires m <= |s|
    ensures FirstKeys(s[..m], key) <= FirstKeys(s, key)
    decreases |s| - m
  {
    if m == |s| {
      assert s[..m] == s;
    } else {
      var s' := s[..|s| - 1];
      assert s'[..m] == s[..m];
      FirstKeysPrefix(s', key, m);
    }
  }

  /** The elements of `s` whose key is `k`, in order. */
  function KeyFilter<T(!new), K(==,!new)>(s: seq<T>, key: T -> K, k: K): (r: seq<T>)
    ensures forall x :: x in r <==> x in s && key(x) == k
    ensures r == [] <==> forall i :: 0 <= i < |s| ==> key(s[i]) != k
  {
    var r := Filter(s, (x: T) => key(x) == k);
    assert r != [] ==> r[0] in r;
    assert forall i :: 0 <= i < |s| ==> s[i] in s;
    r
  }

  lemma KeyFilterStep<T(!new), K(!new)>(s: seq<T>, key: T -> K, k: K)
    requires s != []
    ensures KeyFilter(s, key, k) ==
      KeyFilter(s[..|s| - 1], key, k) + if key(s[|s| - 1]) == k then [s[|s| - 1]] else []
  {
  }

  lemma KeyFilterConcat<T(!new), K(!new)>(a: seq<T>, b: seq<T>, key: T -> K, k: K)
    ensures KeyFilter(a + b, key, k) == KeyFilter(a, key, k) + KeyFilter(b, key, k)
  {
    FilterConcat(a, b, (x: T) => key(x) == k);
  }

  lemma KeyFilterSingleton<T(!new), K(!new)>(x: T, key: T -> K, k: K)
    ensures KeyFilter([x], key, k) == if key(x) == k then [x] else []
  {
    FilterSingleton(x, (y: T) => key(y) == k);
  }

  /** How many elements of `s` have key `k`. */
  function CountKey<T(!new), K(==,!new)>(s: seq<T>, key: T -> K, k: K): (n: nat)
    ensures n <= |s|
    ensures n > 0 <==> exists x :: x in s && key(x) == k
  {
    var r := KeyFilter(s, key, k);
    assert r != [] ==> r[0] in r;
    |r|
  }

  lemma CountKeyStep<T(!new), K(!new)>(s: seq<T>, key: T -> K, k: K)
    requires s != []
    ensures CountKey(s, key, k) ==
      CountKey(s[..|s| - 1], key, k) + if key(s[|s| - 1]) == k then 1 else 0
  {
    KeyFilterStep(s, key, k);
  }

  /** Reading one more element: its key joins the key list if it is new. */
  lemma FirstKeysAppend<T(!new), K(!new)>(s: seq<T>, x: T, key: T -> K)
    ensures var keys := FirstKeys(s, key);
            FirstKeys(s + [x], key) == if key(x) in keys then keys else keys + [key(x)]
  {
    var s' := s + [x];
    assert s'[..|s'| - 1] == s;
    assert s'[|s'| - 1] == x;
  }

  lemma KeyFilterAppend<T(!new), K(!new)>(s: seq<T>, x: T, key: T -> K, k: K)
    ensures KeyFilter(s + [x], key, k) == KeyFilter(s, key, k) + if key(x) == k then [x] else []
  {
    var s' := s + [x];
    assert s'[..|s'| - 1] == s;
    assert s'[|s'| - 1] == x;
    KeyFilterStep(s', key, k);
  }

  lemma CountKeyAppend<T(!new), K(!new)>(s: seq<T>, x: T, key: T -> K, k: K)
    ensures CountKey(s + [x], key, k) == CountKey(s, key, k) + if key(x) == k then 1 else 0
  {
    KeyFilterAppend(s, x, key, k);
  }

  /** A key not met yet selects nothing. */
  lemma KeyFilterUnmet<T(!new), K(!new)>(s: seq<T>, key: T -> K, k: K)
    requires k !in FirstKeys(s, key)
    ensures KeyFilter(s, key, k) == [] && CountKey(s, key, k) == 0
  {
    forall i | 0 <= i < |s| ensures key(s[i]) != k {
      assert s[i] in s;
    }
  }

  /** `f(k)` summed over the keys listed in `keys`. */
  function SumOver<K>(keys: seq<K>, f: K -> int): int
    decreases |keys|
  {
    if keys == [] then 0 else SumOver(keys[..|keys| - 1], f) + f(keys[|keys| - 1])
  }

  lemma {:induction false} SumOverAgree<K>(keys: seq<K>, f: K -> int, g: K -> int)
    requires forall i :: 0 <= i < |keys| ==> f(keys[i]) == g(keys[i])
    ensures SumOver(keys, f) == SumOver(keys, g)
    decreases |keys|
  {
    if keys != [] {
      SumOverAgree(keys[..|keys| - 1], f, g);
    }
  }

  lemma {:induction false} SumOverBump<K>(keys: seq<K>, f: K -> int, g: K -> int, k: K)
    requires NoDuplicates(keys)
    requires forall i :: 0 <= i < |keys| ==> f(keys[i]) == g(keys[i]) + if keys[i] == k then 1 else 0
    ensures SumOver(keys, f) == SumOver(keys, g) + if k in keys then 1 else 0
    decreases |keys|
  {
    if keys != [] {
      var keys' := keys[..|keys| - 1];
      assert forall x :: x in keys <==> x in keys' || x == keys[|keys| - 1];
      SumOverBump(keys', f, g, k);
    }
  }

  /** Partition of `s` by key: the per-key counts over the distinct keys
      add up to the length of `s`. */
  lemma {:induction false} CountsSumToLength<T(!new), K(!new)>(s: seq<T>, key: T -> K)
    ensures SumOver(FirstKeys(s, key), (k: K) => CountKey(s, key, k)) == |s|
    decreases |s|
  {
    if s != [] {
      var s' := s[..|s| - 1];
      var x := s[|s| - 1];
      var keys := FirstKeys(s, key);
      var keys' := FirstKeys(s', key);
      var f := (k: K) => CountKey(s, key, k);
      var g := (k: K) => CountKey(s', key, k);
      CountsSumToLength(s', key);
      forall k ensures f(k) == g(k) + if key(x) == k then 1 else 0 {
        CountKeyStep(s, key, k);
      }
      SumOverBump(keys', f, g, key(x));
      if key(x) !in keys' {
        assert keys == keys' + [key(x)];
        assert keys[..|keys| - 1] == keys';
        assert g(key(x)) == 0;
      }
    }
  }

  /** `s.split(' ').pop() || ''`: the text after the last space, or all of
      `s` when it has no space. */
  function LastWord(s: string): (r: string)
    ensures ' ' !in r
    ensures |r| <= |s| && r == s[|s| - |r|..]
    ensures r == s || s[|s| - |r| - 1] == ' '
    decreases |s|
  {
    if s == [] || s[|s| - 1] == ' ' then []
    else LastWord(s[..|s| - 1]) + [s[|s| - 1]]
  }

  /** Prefixing text that ends in a space does not change the last word. */
  lemma {:induction false} LastWordAfterSpace(prefix: string, s: string)
    requires prefix != [] && prefix[|prefix| - 1] == ' '
    ensures LastWord(prefix + s) == LastWord(s)
    decreases |s|
  {
    if s == [] {
      assert prefix + s == prefix;
    } else {
      assert (prefix + s)[..|prefix + s| - 1] == prefix + s[..|s| - 1];
      LastWordAfterSpace(prefix, s[..|s| - 1]);
    }
  }

  /** A word without spaces is its own last word, also after a prefix
      that ends in a space: the last word can neither stop inside the word
      nor reach back past the space. */
  lemma LastWordOfWord(prefix: string, w: string)
    requires ' ' !in w
    requires prefix == [] || prefix[|prefix| - 1] == ' '
    ensures LastWord(prefix + w) == w
  {
    var s := prefix + w;
    assert s[|prefix|..] == w;
  }

  /** `parts.join(sep)`. With `JoinConcat` below, the empty and one-part
      cases fix the result for every list of parts. */
  function Join(parts: seq<string>, sep: string): (r: string)
    ensures parts == [] ==> r == []
    ensures |parts| == 1 ==> r == parts[0]
    ensures parts != [] ==> parts[0] <= r
    ensures parts != [] ==> |parts[|parts| - 1]| <= |r| && r[|r| - |parts[|parts| - 1]|..] == parts[|parts| - 1]
    decreases |parts|
  {
    if parts == [] then []
    else if |parts| == 1 then parts[0]
    else
      var init := Join(parts[..|parts| - 1], sep);
      assert parts[..|parts| - 1][0] == parts[0];
      init + sep + parts[|parts| - 1]
  }

  /** Joining two non-empty runs of parts is joining each and putting one
      separator between them. */
  lemma {:induction false} JoinConcat(ps: seq<string>, qs: seq<string>, sep: string)
    requires ps != [] && qs != []
    ensures Join(ps + qs, sep) == Join(ps, sep) + sep + Join(qs, sep)
    decreases |qs|
  {
    var all := ps + qs;
    var last := qs[|qs| - 1];
    var init := all[..|all| - 1];
    assert init == ps + qs[..|qs| - 1];
    JoinStep(all, sep);
    if |qs| == 1 {
      assert init == ps;
    } else {
      var qs' := qs[..|qs| - 1];
      JoinConcat(ps, qs', sep);
      JoinStep(qs, sep);
      calc {
        Join(all, sep);
        Join(init, sep) + sep + last;
        (Join(ps, sep) + sep + Join(qs', sep)) + sep + last;
        { Regroup(Join(ps, sep), sep, Join(qs', sep), last); }
        Join(ps, sep) + sep + (Join(qs', sep) + sep + last);
      }
    }
  }

  lemma Regroup(a: string, sep: string, b: string, c: string)
    ensures (a + sep + b) + sep + c == a + sep + (b + sep + c)
  {
  }

  /** One unfolding of `Join` on its last part. */
  lemma JoinStep(parts: seq<string>, sep: string)
    requires |parts| >= 2
    ensures Join(parts, sep) == Join(parts[..|parts| - 1], sep) + sep + parts[|parts| - 1]
  {
  }

  /** The combined length of the parts. */
  function TotalLength(parts: seq<string>): nat
    decreases |parts|
  {
    if parts == [] then 0 else TotalLength(parts[..|parts| - 1]) + |parts[|parts| - 1]|
  }

  /** A join holds every character of the parts and one separator between
      each two neighbours. */
  lemma {:induction false} JoinLength(parts: seq<string>, sep: string)
    requires parts != []
    ensures |Join(parts, sep)| == TotalLength(parts) + (|parts| - 1) * |sep|
    decreases |parts|
  {
    var n := |parts|;
    if n > 1 {
      var init := parts[..n - 1];
      JoinLength(init, sep);
      JoinStep(parts, sep);
      OneMoreSeparator(n, |sep|);
      assert TotalLength(parts) == TotalLength(init) + |parts[n - 1]|;
    } else {
      assert parts[..0] == [];
      assert TotalLength(parts) == TotalLength([]) + |parts[0]|;
    }
  }

  lemma OneMoreSeparator(n: int, m: int)
    ensures (n - 1) * m == (n - 2) * m + m
  {
  }
}
