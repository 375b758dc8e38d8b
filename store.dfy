/**
 * `AsyncContextStore`: a JavaScript Map from context names to values, and its
 * conversions to and from a plain record.  Names are modelled as strings that
 * are not integer-like, so a record keeps its fields in insertion order just
 * as a Map keeps its entries.  The one name a record treats differently is
 * `__proto__`: assigning it runs the inherited prototype setter.
 */
module ContextStore {
  import opened Wrappers
  import opened OrderedMap
  import opened Values

  type Key = string

  /** The store's entries in insertion order; `Unique` holds of every store the model builds. */
  type Store = seq<(Key, Value)>

  /**
   * `AsyncContextStore.fromObject`: a new store filled by `set` with the
   * record's entries, in order.  A record never repeats a field, so the store
   * has exactly the record's entries in the record's order.
   */
  method FromObject(obj: seq<(string, Value)>) returns (store: Store)
    ensures store == Build(obj)
    ensures Unique(store)
    ensures Unique(obj) ==> store == obj
  {
    store := [];
    for i := 0 to |obj|
      invariant store == PutAll([], obj[..i])
    {
      var (key, value) := obj[i];
      PutAllStep([], obj, i);
      store := Put(store, key, value);
    }
    assert obj[..|obj|] == obj;
    if Unique(obj) {
      BuildUnique(obj);
    }
  }

  /**
   * The name whose assignment `obj[key] = value` on a plain object goes to the
   * inherited `__proto__` setter instead of creating an own field.
   */
  const Proto: Key := "__proto__"

  /** The entries that an assignment loop turns into own fields: all but those named `__proto__`. */
  function OwnFields(s: Store): (r: Store)
    ensures forall k :: k in Keys(r) <==> k in Keys(s) && k != Proto
    ensures Proto !in Keys(s) ==> r == s
  {
    if s == [] then []
    else
      var n := |s| - 1;
      assert Keys(s) == Keys(s[..n]) + [s[n].0];
      var init := OwnFields(s[..n]);
      if s[n].0 == Proto then init
      else
        assert Keys(init + [s[n]]) == Keys(init) + [s[n].0];
        init + [s[n]]
  }

  /** Of a store with unique keys, the own fields have unique keys and the store's values, `__proto__` aside. */
  lemma {:induction false} OwnFieldsLookup(s: Store)
    requires Unique(s)
    ensures Unique(OwnFields(s))
    ensures forall k :: Lookup(OwnFields(s), k) == if k == Proto then None else Lookup(s, k)
  {
    if s != [] {
      var n := |s| - 1;
      assert Keys(s) == Keys(s[..n]) + [s[n].0];
      LookupLast(s);
      OwnFieldsLookup(s[..n]);
      var init := OwnFields(s[..n]);
      if s[n].0 != Proto {
        assert s[n].0 !in Keys(init);
        PutFresh(init, s[n].0, s[n].1);
      }
    }
  }

  /** The filter keeps store order: the own fields of `a + b` are those of `a`, then those of `b`. */
  lemma {:induction false} OwnFieldsConcat(a: Store, b: Store)
    ensures OwnFields(a + b) == OwnFields(a) + OwnFields(b)
  {
    if b == [] {
      assert a + b == a;
    } else {
      var n := |b| - 1;
      var last := if b[n].0 == Proto then [] else [b[n]];
      assert (a + b)[..|a + b| - 1] == a + b[..n];
      assert (a + b)[|a + b| - 1] == b[n];
      assert OwnFields(a + b) == OwnFields(a + b[..n]) + last;
      assert OwnFields(b) == OwnFields(b[..n]) + last;
      OwnFieldsConcat(a, b[..n]);
      Associative(OwnFields(a), OwnFields(b[..n]), last);
    }
  }

  /** Filtering one more entry: it is kept at the end unless it is named `__proto__`. */
  lemma OwnFieldsStep(s: Store, i: nat)
    requires i < |s|
    ensures s[i].0 == Proto ==> OwnFields(s[..i + 1]) == OwnFields(s[..i])
    ensures s[i].0 != Proto ==> OwnFields(s[..i + 1]) == OwnFields(s[..i]) + [s[i]]
  {
    assert s[..i + 1][..i] == s[..i];
  }

  /**
   * `AsyncContextStore.toPlain`: a new plain object filled by assigning each
   * store entry in order.  Every entry but one named `__proto__` becomes an
   * own field with its value, in store order.
   */
  method ToPlain(store: Store) returns (obj: Value)
    ensures obj.Record? && obj.fields == Build(OwnFields(store))
    ensures Canonical(obj)
    ensures Proto !in Keys(obj.fields)
    ensures Unique(store) ==> obj == Record(OwnFields(store))
    ensures Unique(store) ==> forall k :: Lookup(obj.fields, k) == if k == Proto then None else Lookup(store, k)
  {
    var fields := [];
    for i := 0 to |store|
      invariant fields == PutAll([], OwnFields(store[..i]))
    {
      var (key, value) := store[i];
      OwnFieldsStep(store, i);
      if key != Proto {
        PutAllSnoc([], OwnFields(store[..i]), store[i]);
        fields := Put(fields, key, value);
      }
    }
    assert store[..|store|] == store;
    var own := OwnFields(store);
    assert Keys(fields) == Extend([], Keys(own));
    if Unique(store) {
      OwnFieldsLookup(store);
      BuildUnique(own);
    }
    obj := Record(fields);
  }

  /**
   * A round trip through the other representation gives back what one
   * started from, save an entry named `__proto__`: `toPlain(fromObject(o))`
   * has the fields of the record `o`, and `fromObject(s.toPlain())` the
   * entries of the store `s`.
   */
  lemma RoundTrip(o: seq<(string, Value)>)
    requires Unique(o)
    ensures Build(OwnFields(Build(o))) == OwnFields(o)
    ensures Build(Build(OwnFields(o))) == OwnFields(o)
    ensures Proto !in Keys(o) ==> Build(OwnFields(Build(o))) == o && Build(Build(OwnFields(o))) == o
  {
    BuildUnique(o);
    OwnFieldsLookup(o);
    BuildUnique(OwnFields(o));
  }

  /** Whatever the store, once converted to a plain object a round trip through a store changes nothing. */
  lemma ConvertTwice(s: Store)
    ensures var plain := Build(OwnFields(s));
      Build(OwnFields(Build(plain))) == plain
  {
    var own := OwnFields(s);
    var plain := Build(own);
    BuildUnique(plain);
    assert Keys(plain) == Extend([], Keys(own));
    assert Proto !in Keys(own);
    assert Proto !in Keys(plain);
    assert OwnFields(plain) == plain;
  }
}
