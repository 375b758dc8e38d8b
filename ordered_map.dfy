/**
 * Insertion-ordered collections with the semantics of JavaScript's `Map` and
 * `Set`: an association list whose keys are unique, where setting an existing
 * key keeps its position and setting a new key appends it.  Both the context
 * store and the Map, Set and plain-record values are built from these.
 */
module OrderedMap {
  import opened Wrappers

  /** No element occurs twice. */
  predicate Distinct<T(==)>(xs: seq<T>) {
    forall i, j :: 0 <= i < j < |xs| ==> xs[i] != xs[j]
  }

  /** The keys of an association list, in order. */
  function Keys<K, V>(s: seq<(K, V)>): (ks: seq<K>)
    ensures |ks| == |s|
    ensures forall i :: 0 <= i < |s| ==> ks[i] == s[i].0
  {
    seq(|s|, i requires 0 <= i < |s| => s[i].0)
  }

  /** The representation invariant of a JavaScript Map: no key occurs twice. */
  predicate Unique<K(==,!new), V>(s: seq<(K, V)>) {
    Distinct(Keys(s))
  }

  /** `map.get(k)`: the value of the first entry with key `k`, or `None` (`undefined`). */
  function Lookup<K(==,!new), V>(s: seq<(K, V)>, k: K): (r: Option<V>)
    ensures r.Some? <==> k in Keys(s)
    ensures r.Some? ==> (k, r.value) in s
  {
    if s == [] then None
    else if s[0].0 == k then Some(s[0].1)
    else
      assert Keys(s) == [s[0].0] + Keys(s[1..]);
      Lookup(s[1..], k)
  }

  /**
   * `map.set(k, v)`: an existing key keeps its position and takes the new
   * value; a new key is appended.  Every other key keeps its value.
   */
  function Put<K(==,!new), V>(s: seq<(K, V)>, k: K, v: V): (r: seq<(K, V)>)
    ensures Keys(r) == AppendNew(Keys(s), k)
    ensures forall j :: Lookup(r, j) == if j == k then Some(v) else Lookup(s, j)
    ensures Unique(s) ==> Unique(r)
  {
    if s == [] then
      assert Keys([(k, v)]) == [k];
      LookupCons((k, v), []);
      [(k, v)]
    else if s[0].0 == k then
      var r := [(k, v)] + s[1..];
      assert Keys(r) == Keys(s);
      assert Keys(s)[0] == k;
      assert [s[0]] + s[1..] == s;
      LookupCons((k, v), s[1..]);
      LookupCons(s[0], s[1..]);
      r
    else
      var rest := Put(s[1..], k, v);
      assert [s[0]] + s[1..] == s;
      PutConsKeys(s[0], s[1..], k, rest);
      PutConsLookup(s[0], s[1..], k, v, rest);
      [s[0]] + rest
  }

  /** Setting a new key appends it. */
  lemma {:induction false} PutFresh<K(!new), V>(s: seq<(K, V)>, k: K, v: V)
    requires k !in Keys(s)
    ensures Put(s, k, v) == s + [(k, v)]
  {
    if s != [] {
      var t := s[1..];
      assert Keys(s)[0] == s[0].0;
      assert Keys(t) == Keys(s)[1..];
      PutFresh(t, k, v);
      assert s == [s[0]] + t;
      Associative([s[0]], t, [(k, v)]);
    }
  }

  /** The recursive step of `Put` for its keys: setting a key behind a first entry with another key. */
  lemma PutConsKeys<K(!new), V>(e: (K, V), t: seq<(K, V)>, k: K, rest: seq<(K, V)>)
    requires e.0 != k
    requires Keys(rest) == AppendNew(Keys(t), k)
    ensures Keys([e] + rest) == AppendNew(Keys([e] + t), k)
    ensures Distinct(Keys([e] + t)) ==> Distinct(Keys([e] + rest))
  {
    assert Keys([e] + t) == [e.0] + Keys(t);
    assert Keys([e] + rest) == [e.0] + Keys(rest);
    assert k in Keys([e] + t) <==> k in Keys(t);
    DistinctCons(e.0, Keys(t));
    DistinctCons(e.0, Keys(rest));
    DistinctAppendNew(Keys(t), k);
  }

  /** The recursive step of `Put` for its lookups. */
  lemma PutConsLookup<K(!new), V>(e: (K, V), t: seq<(K, V)>, k: K, v: V, rest: seq<(K, V)>)
    requires e.0 != k
    requires forall j :: Lookup(rest, j) == if j == k then Some(v) else Lookup(t, j)
    ensures forall j :: Lookup([e] + rest, j) == if j == k then Some(v) else Lookup([e] + t, j)
  {
    LookupCons(e, rest);
    LookupCons(e, t);
  }

  /** Looking up behind a first entry: its key finds it, any other key looks further. */
  lemma LookupCons<K(!new), V>(e: (K, V), t: seq<(K, V)>)
    ensures forall j :: Lookup([e] + t, j) == if j == e.0 then Some(e.1) else Lookup(t, j)
  {
    assert ([e] + t)[1..] == t;
  }

  /** A sequence with one more element in front is free of repeats exactly when the element is new and the rest free of repeats. */
  lemma DistinctCons<T(!new)>(x: T, xs: seq<T>)
    ensures Distinct([x] + xs) <==> x !in xs && Distinct(xs)
  {
    var ys := [x] + xs;
    if x !in xs && Distinct(xs) {
      forall i, j | 0 <= i < j < |ys| ensures ys[i] != ys[j] {
        assert ys[j] == xs[j - 1];
        if i > 0 {
          assert ys[i] == xs[i - 1];
        }
      }
    }
    if Distinct(ys) {
      assert ys[1..] == xs;
      forall j | 0 <= j < |xs| ensures xs[j] != x {
        assert ys[0] == x && ys[j + 1] == xs[j];
      }
    }
  }

  /** `x` added at the end of `d` unless it already occurs there (JavaScript's `set.add(x)`). */
  function AppendNew<T(==,!new)>(d: seq<T>, x: T): seq<T> {
    if x in d then d else d + [x]
  }

  /** Appending a new element keeps a sequence free of repeats. */
  lemma DistinctAppendNew<T(!new)>(d: seq<T>, x: T)
    ensures Distinct(d) ==> Distinct(AppendNew(d, x))
  {
  }

  /**
   * The result of adding the elements of `xs` to `d` one after another, each
   * appended only if not yet present.  `d` is kept as a prefix, and nothing
   * but the elements of `d` and `xs` occurs.
   */
  function Extend<T(==,!new)>(d: seq<T>, xs: seq<T>): (r: seq<T>)
    ensures d <= r
    ensures forall x :: x in r <==> x in d || x in xs
    ensures Distinct(d) ==> Distinct(r)
  {
    if xs == [] then d
    else
      var n := |xs| - 1;
      assert forall x :: x in xs <==> x in xs[..n] || x == xs[n];
      DistinctAppendNew(Extend(d, xs[..n]), xs[n]);
      AppendNew(Extend(d, xs[..n]), xs[n])
  }

  /**
   * `new Map(entries)`, or a loop of `set` calls on an empty map: the entries
   * of `t` set into `s` one after another.
   */
  function PutAll<K(==,!new), V>(s: seq<(K, V)>, t: seq<(K, V)>): (r: seq<(K, V)>)
    ensures Keys(r) == Extend(Keys(s), Keys(t))
    ensures Unique(s) ==> Unique(r)
    ensures Unique(t) ==> forall j :: Lookup(r, j) == if j in Keys(t) then Lookup(t, j) else Lookup(s, j)
  {
    if t == [] then s
    else
      var n := |t| - 1;
      var init := PutAll(s, t[..n]);
      assert Keys(t[..n]) == Keys(t)[..n];
      LookupLast(t);
      Put(init, t[n].0, t[n].1)
  }

  /** A fresh map filled from `entries` in order. */
  function Build<K(==,!new), V>(entries: seq<(K, V)>): (r: seq<(K, V)>)
    ensures Unique(r)
    ensures Keys(r) == Extend([], Keys(entries))
  {
    PutAll([], entries)
  }

  /** The elements of `xs` that also occur in `ys`, in the order of `xs`, repeats kept. */
  function Common<T(==,!new)>(xs: seq<T>, ys: seq<T>): (r: seq<T>)
    ensures |r| <= |xs|
    ensures forall x :: x in r <==> x in xs && x in ys
  {
    if xs == [] then []
    else
      var n := |xs| - 1;
      assert forall x :: x in xs <==> x in xs[..n] || x == xs[n];
      Common(xs[..n], ys) + (if xs[n] in ys then [xs[n]] else [])
  }

  /** In a map with unique keys, an entry is what `get` returns for its key. */
  lemma {:induction false} LookupMember<K(!new), V>(s: seq<(K, V)>, k: K, v: V)
    requires Unique(s)
    requires (k, v) in s
    ensures Lookup(s, k) == Some(v)
  {
    if s[0] != (k, v) {
      assert Keys(s)[0] == s[0].0;
      var i :| 0 <= i < |s| && s[i] == (k, v);
      assert Keys(s)[i] == k;
      assert s[0].0 != k;
      assert Keys(s[1..]) == Keys(s)[1..];
      assert (k, v) in s[1..];
      LookupMember(s[1..], k, v);
    }
  }

  /** A prefix of a map with unique keys has unique keys. */
  lemma UniquePrefix<K(!new), V>(t: seq<(K, V)>, n: nat)
    requires Unique(t) && n <= |t|
    ensures Unique(t[..n])
  {
    assert Keys(t[..n]) == Keys(t)[..n];
  }

  /** In a map with unique keys, the last entry is found by its key and every other key by the entries before it. */
  lemma LookupLast<K(!new), V>(t: seq<(K, V)>)
    requires t != []
    ensures Unique(t) ==> Unique(t[..|t| - 1])
    ensures Unique(t) ==> t[|t| - 1].0 !in Keys(t[..|t| - 1])
    ensures Unique(t) ==> forall j :: Lookup(t, j) == if j == t[|t| - 1].0 then Some(t[|t| - 1].1) else Lookup(t[..|t| - 1], j)
  {
    var n := |t| - 1;
    assert Keys(t[..n]) == Keys(t)[..n];
    forall j | Unique(t) ensures Lookup(t, j) == if j == t[n].0 then Some(t[n].1) else Lookup(t[..n], j) {
      if j == t[n].0 {
        LookupMember(t, j, t[n].1);
      } else if j in Keys(t[..n]) {
        LookupMember(t, j, Lookup(t[..n], j).value);
      }
    }
  }

  /** Setting the first `i + 1` entries is setting the first `i`, then entry `i`: one step of a loop of `set` calls. */
  lemma PutAllStep<K(!new), V>(s: seq<(K, V)>, t: seq<(K, V)>, i: nat)
    requires i < |t|
    ensures PutAll(s, t[..i + 1]) == Put(PutAll(s, t[..i]), t[i].0, t[i].1)
  {
    assert t[..i + 1][..i] == t[..i];
  }

  /** Setting one more entry at the end of the list: a last `set` call. */
  lemma PutAllSnoc<K(!new), V>(s: seq<(K, V)>, t: seq<(K, V)>, e: (K, V))
    ensures PutAll(s, t + [e]) == Put(PutAll(s, t), e.0, e.1)
  {
    assert (t + [e])[..|t|] == t;
  }

  /** Filtering one more element: it is kept at the end exactly when it occurs in `ys`. */
  lemma CommonStep<T(!new)>(xs: seq<T>, ys: seq<T>, i: nat)
    requires i < |xs|
    ensures Common(xs[..i + 1], ys) == Common(xs[..i], ys) + (if xs[i] in ys then [xs[i]] else [])
  {
    assert xs[..i + 1][..i] == xs[..i];
  }

  /** Filtering keeps every occurrence of an element of `ys` and drops every other element. */
  lemma {:induction false} CommonCount<T(!new)>(xs: seq<T>, ys: seq<T>, x: T)
    ensures multiset(Common(xs, ys))[x] == if x in ys then multiset(xs)[x] else 0
  {
    if xs != [] {
      var n := |xs| - 1;
      assert xs == xs[..n] + [xs[n]];
      CommonCount(xs[..n], ys, x);
    }
  }

  /**
   * Filtering distributes over concatenation; with `CommonStep` this fixes the
   * result completely: the kept elements stay in the order of `xs`.
   */
  lemma {:induction false} CommonConcat<T(!new)>(a: seq<T>, b: seq<T>, ys: seq<T>)
    ensures Common(a + b, ys) == Common(a, ys) + Common(b, ys)
  {
    if b == [] {
      assert a + b == a;
    } else {
      var n := |b| - 1;
      var last := if b[n] in ys then [b[n]] else [];
      assert (a + b)[..|a + b| - 1] == a + b[..n];
      assert (a + b)[|a + b| - 1] == b[n];
      assert Common(a + b, ys) == Common(a + b[..n], ys) + last;
      assert Common(b, ys) == Common(b[..n], ys) + last;
      CommonConcat(a, b[..n], ys);
    }
  }

  /** Adding one more element appends it unless present. */
  lemma ExtendStep<T(!new)>(d: seq<T>, xs: seq<T>, x: T)
    ensures Extend(d, xs + [x]) == AppendNew(Extend(d, xs), x)
  {
    assert (xs + [x])[..|xs|] == xs;
  }

  /** Setting the entries of `a + b` is setting those of `a`, then those of `b`. */
  lemma {:induction false} PutAllConcat<K(!new), V>(s: seq<(K, V)>, a: seq<(K, V)>, b: seq<(K, V)>)
    ensures PutAll(s, a + b) == PutAll(PutAll(s, a), b)
  {
    if b == [] {
      assert a + b == a;
    } else {
      var n := |b| - 1;
      assert (a + b)[..|a + b| - 1] == a + b[..n];
      assert (a + b)[|a + b| - 1] == b[n];
      PutAllConcat(s, a, b[..n]);
    }
  }

  /** Adding the elements of `a + b` is adding those of `a`, then those of `b`. */
  lemma {:induction false} ExtendConcat<T(!new)>(d: seq<T>, a: seq<T>, b: seq<T>)
    ensures Extend(d, a + b) == Extend(Extend(d, a), b)
  {
    if b == [] {
      assert a + b == a;
    } else {
      var n := |b| - 1;
      assert (a + b)[..|a + b| - 1] == a + b[..n];
      assert (a + b)[|a + b| - 1] == b[n];
      ExtendConcat(d, a, b[..n]);
    }
  }

  /** A sequence with one more element at the end is free of repeats exactly when the element is new and the rest free of repeats. */
  lemma DistinctSnoc<T(!new)>(xs: seq<T>, x: T)
    ensures Distinct(xs + [x]) <==> Distinct(xs) && x !in xs
  {
    var ys := xs + [x];
    if Distinct(xs) && x !in xs {
      forall i, j | 0 <= i < j < |ys| ensures ys[i] != ys[j] {
        assert ys[i] == xs[i];
        if j < |xs| {
          assert ys[j] == xs[j];
        }
      }
    }
    if Distinct(ys) {
      assert ys[..|xs|] == xs;
      forall i | 0 <= i < |xs| ensures xs[i] != x {
        assert ys[i] == xs[i] && ys[|xs|] == x;
      }
    }
  }

  /** Adding elements that are all new just appends them. */
  lemma {:induction false} ExtendFresh<T(!new)>(d: seq<T>, xs: seq<T>)
    requires Distinct(d + xs)
    ensures Extend(d, xs) == d + xs
  {
    if xs != [] {
      var n := |xs| - 1;
      assert d + xs == (d + xs[..n]) + [xs[n]];
      DistinctSnoc(d + xs[..n], xs[n]);
      ExtendFresh(d, xs[..n]);
    }
  }

  /** Setting entries with keys all new appends them. */
  lemma {:induction false} PutAllFresh<K(!new), V>(s: seq<(K, V)>, t: seq<(K, V)>)
    requires Unique(s + t)
    ensures PutAll(s, t) == s + t
  {
    if t != [] {
      var n := |t| - 1;
      assert s + t == (s + t[..n]) + [t[n]];
      assert Keys(s + t) == Keys(s + t[..n]) + [t[n].0];
      DistinctSnoc(Keys(s + t[..n]), t[n].0);
      PutAllFresh(s, t[..n]);
      PutFresh(s + t[..n], t[n].0, t[n].1);
    }
  }

  /** Concatenation is associative. */
  lemma Associative<T>(x: seq<T>, y: seq<T>, z: seq<T>)
    ensures (x + y) + z == x + (y + z)
  {
  }

  /** The empty sequence is a left unit of concatenation. */
  lemma EmptyConcat<T>(s: seq<T>)
    ensures [] + s == s
  {
  }

  /** A map with unique keys is rebuilt unchanged from its own entries. */
  lemma BuildUnique<K(!new), V>(s: seq<(K, V)>)
    requires Unique(s)
    ensures Build(s) == s
  {
    EmptyConcat(s);
    PutAllFresh([], s);
  }
}
