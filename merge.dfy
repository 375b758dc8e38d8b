/**
 * The per-key merge policy of `AsyncContext.buildNamedContext`: how the value
 * already bound under a key and a newly attached payload combine, and which
 * diagnostics the combination logs.
 */
module MergePolicy {
  import opened Wrappers
  import opened OrderedMap
  import opened Values

  /**
   * The value stored when both a previous value and a payload exist in merge
   * mode: for two plain records the spread `{...prev, ...payload}`, a Map rebuilt from both
   * entry lists, a Set rebuilt from both element lists, an array
   * concatenation; anything else is replaced by the payload.
   */
  function Combine(prev: Value, payload: Value): Value {
    if Plain(prev) && Plain(payload) then Record(Build(prev.fields + payload.fields))
    else if prev.MapOf? && payload.MapOf? then MapOf(Build(prev.entries + payload.entries))
    else if prev.SetOf? && payload.SetOf? then SetOf(Extend([], prev.elements + payload.elements))
    else if prev.ArrayOf? && payload.ArrayOf? then ArrayOf(prev.items + payload.items)
    else payload
  }

  /**
   * The value bound under a key once `payload` is attached: the payload
   * itself when the key was absent or in override mode, otherwise the
   * combination with the previous value.
   */
  function Merge(prev: Option<Value>, payload: Value, shouldOverride: bool): Value {
    if prev.None? || shouldOverride then payload else Combine(prev.value, payload)
  }

  /** One informational log line of the merge. */
  datatype Notice =
      /** A field name, Map key, Set element or array element of the payload that the previous value already has. */
    | Overridden(context: string, item: Value)
      /** A previous value that is replaced because it cannot be combined with the payload. */
    | Replaced(context: string, previous: Value, next: Value)

  /** One `Overridden` notice per item, in order. */
  function Tagged(context: string, items: seq<Value>): seq<Notice> {
    seq(|items|, i requires 0 <= i < |items| => Overridden(context, items[i]))
  }

  /**
   * The log lines of a merge-mode combination under key `context`: for two
   * collections of one shape, one line per member of the payload already
   * present in the previous value; otherwise a single line for the replacement.
   */
  function CombineNotices(context: string, prev: Value, payload: Value): seq<Notice> {
    if SameShape(prev, payload) then Tagged(context, Common(Members(payload), Members(prev)))
    else [Replaced(context, prev, payload)]
  }

  /** The log lines of attaching `payload` under `context`: none unless a previous value exists and the mode is merge. */
  function Notices(context: string, prev: Option<Value>, payload: Value, shouldOverride: bool): seq<Notice> {
    if prev.None? || shouldOverride then [] else CombineNotices(context, prev.value, payload)
  }

  /**
   * Rebuilding a Map from the entries of two Maps gives their union: the keys
   * of the first in order, then the new keys of the second; the second's
   * values win.
   */
  lemma UnionOfMaps<K(!new), V>(a: seq<(K, V)>, b: seq<(K, V)>)
    requires Unique(a) && Unique(b)
    ensures var r := Build(a + b);
      && Unique(r)
      && Keys(r) == Extend(Keys(a), Keys(b))
      && forall k :: Lookup(r, k) == if k in Keys(b) then Lookup(b, k) else Lookup(a, k)
  {
    PutAllConcat([], a, b);
    BuildUnique(a);
  }

  /** Rebuilding a Set from the elements of two Sets gives their union: the first's elements, then the second's new ones. */
  lemma UnionOfSets<T(!new)>(a: seq<T>, b: seq<T>)
    requires Distinct(a)
    ensures Extend([], a + b) == Extend(a, b)
  {
    ExtendConcat([], a, b);
    EmptyConcat(a);
    ExtendFresh([], a);
  }

  /** An absent key is bound to the payload, in merge and in override mode. */
  lemma MergeAbsent(payload: Value, shouldOverride: bool)
    ensures Merge(None, payload, shouldOverride) == payload
  {
  }

  /** In override mode the payload is bound whatever was there before. */
  lemma MergeOverride(prev: Option<Value>, payload: Value)
    ensures Merge(prev, payload, true) == payload
  {
  }

  /**
   * Two records merge into a shallow union: the previous fields in their
   * order, then the payload's new fields; a field of the payload wins, and its
   * value is taken whole, not merged further.
   */
  lemma MergeRecords(a: seq<(string, Value)>, b: seq<(string, Value)>)
    requires Unique(a) && Unique(b)
    requires Plain(Record(a)) && Plain(Record(b))
    ensures var r := Merge(Some(Record(a)), Record(b), false);
      && Plain(r)
      && Unique(r.fields)
      && Keys(r.fields) == Extend(Keys(a), Keys(b))
      && forall k :: Lookup(r.fields, k) == if k in Keys(b) then Lookup(b, k) else Lookup(a, k)
  {
    assert Merge(Some(Record(a)), Record(b), false) == Record(Build(a + b));
    UnionOfMaps(a, b);
  }

  /** Two Maps merge by the same union rule, the payload's entries winning. */
  lemma MergeMaps(a: seq<(Value, Value)>, b: seq<(Value, Value)>)
    requires Unique(a) && Unique(b)
    ensures var r := Merge(Some(MapOf(a)), MapOf(b), false);
      && r.MapOf?
      && Unique(r.entries)
      && Keys(r.entries) == Extend(Keys(a), Keys(b))
      && forall k :: Lookup(r.entries, k) == if k in Keys(b) then Lookup(b, k) else Lookup(a, k)
  {
    assert Merge(Some(MapOf(a)), MapOf(b), false) == MapOf(Build(a + b));
    UnionOfMaps(a, b);
  }

  /**
   * Two Sets merge into their union: the previous elements in their order,
   * then the payload's new elements, none twice.
   */
  lemma MergeSets(a: seq<Value>, b: seq<Value>)
    requires Distinct(a)
    ensures var r := Merge(Some(SetOf(a)), SetOf(b), false);
      && r == SetOf(Extend(a, b))
      && a <= r.elements
      && Distinct(r.elements)
      && forall x :: x in r.elements <==> x in a || x in b
  {
    assert Merge(Some(SetOf(a)), SetOf(b), false) == SetOf(Extend([], a + b));
    UnionOfSets(a, b);
  }

  /** Two arrays merge into their concatenation: order and duplicates kept. */
  lemma MergeArrays(a: seq<Value>, b: seq<Value>)
    ensures var r := Merge(Some(ArrayOf(a)), ArrayOf(b), false);
      && r == ArrayOf(a + b)
      && |r.items| == |a| + |b|
      && r.items[..|a|] == a && r.items[|a|..] == b
  {
  }

  /** A shape mismatch, or two values that are not collections, leaves the payload. */
  lemma MergeFallback(prev: Value, payload: Value)
    requires !SameShape(prev, payload)
    ensures Merge(Some(prev), payload, false) == payload
  {
  }

  /** Whatever is merged, the bound value is as canonical as the payload. */
  lemma MergeCanonical(prev: Option<Value>, payload: Value, shouldOverride: bool)
    requires Canonical(payload)
    ensures Canonical(Merge(prev, payload, shouldOverride))
  {
  }

  /** Nothing is logged when the key is absent or in override mode. */
  lemma NoticesSilent(context: string, prev: Option<Value>, payload: Value, shouldOverride: bool)
    requires prev.None? || shouldOverride
    ensures Notices(context, prev, payload, shouldOverride) == []
  {
  }

  /** A replacement in merge mode logs exactly one line naming both values. */
  lemma NoticesFallback(context: string, prev: Value, payload: Value)
    requires !SameShape(prev, payload)
    ensures Notices(context, Some(prev), payload, false) == [Replaced(context, prev, payload)]
  {
  }

  /** Tagging is one-to-one: an item occurs as often among the items as its notice among the notices. */
  lemma {:induction false} TaggedCount(context: string, items: seq<Value>, x: Value)
    ensures multiset(Tagged(context, items))[Overridden(context, x)] == multiset(items)[x]
  {
    if items != [] {
      var n := |items| - 1;
      assert items == items[..n] + [items[n]];
      assert Tagged(context, items) == Tagged(context, items[..n]) + [Overridden(context, items[n])];
      TaggedCount(context, items[..n], x);
    }
  }

  /**
   * Combining two collections logs only `Overridden` lines, in payload order,
   * one for each occurrence in the payload of a member the previous value
   * already has, and no other.
   */
  lemma NoticesCollections(context: string, prev: Value, payload: Value)
    requires SameShape(prev, payload)
    ensures var ns := Notices(context, Some(prev), payload, false);
      && ns == Tagged(context, Common(Members(payload), Members(prev)))
      && (forall n :: n in ns ==> n.Overridden? && n.context == context)
      && forall x :: multiset(ns)[Overridden(context, x)] == if x in Members(prev) then multiset(Members(payload))[x] else 0
  {
    var common := Common(Members(payload), Members(prev));
    var ns := Tagged(context, common);
    forall n | n in ns ensures n.Overridden? && n.context == context {
      var i :| 0 <= i < |ns| && ns[i] == n;
    }
    forall x ensures multiset(ns)[Overridden(context, x)] == if x in Members(prev) then multiset(Members(payload))[x] else 0 {
      TaggedCount(context, common, x);
      CommonCount(Members(payload), Members(prev), x);
    }
  }
}
