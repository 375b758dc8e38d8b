/**
 * `AsyncContext`: building the store a new scope binds, the read accessors,
 * and the scope discipline of `withContext` / `withContextOverride`.
 *
 * The scope engine (`AsyncLocalStorage`) is replaced by an explicit frame
 * stack; what `alc.getStore()` returns is `Top` of that stack, and the
 * operations that only read it take it as the parameter `current`.  A
 * callback is modelled as a `Callback` script of nested scopes and probes, and
 * running it yields the trace of what the probes saw and what was logged.
 */
module AsyncContexts {
  import opened Wrappers
  import opened OrderedMap
  import opened Values
  import opened MergePolicy
  import opened ContextStore

  /** `alc.getStore() ?? new AsyncContextStore()`: the active store, or an empty one outside every scope. */
  function StoreOf(current: Option<Store>): Store {
    current.GetOr([])
  }

  // ----- single key: buildNamedContext -----

  /** The store a single-key scope binds: the active store with `name` set to the merged value. */
  function NamedContext(current: Option<Store>, name: Key, payload: Value, shouldOverride: bool): Store {
    var prev := StoreOf(current);
    Put(prev, name, Merge(Lookup(prev, name), payload, shouldOverride))
  }

  /** The log lines of a single-key scope. */
  function NamedNotices(current: Option<Store>, name: Key, payload: Value, shouldOverride: bool): seq<Notice> {
    Notices(name, Lookup(StoreOf(current), name), payload, shouldOverride)
  }

  /**
   * `buildNamedContext`: a copy of the active store in which `name` is bound
   * to the merge of its previous value and `payload`; every other key keeps
   * its value and position, and a new key comes last.
   */
  method BuildNamedContext(current: Option<Store>, name: Key, payload: Value, shouldOverride: bool)
    returns (context: Store, notices: seq<Notice>)
    ensures context == NamedContext(current, name, payload, shouldOverride)
    ensures notices == NamedNotices(current, name, payload, shouldOverride)
    ensures Lookup(context, name) == Some(Merge(Lookup(StoreOf(current), name), payload, shouldOverride))
    ensures forall k :: k != name ==> Lookup(context, k) == Lookup(StoreOf(current), k)
    ensures Keys(context) == AppendNew(Keys(StoreOf(current)), name)
    ensures Unique(StoreOf(current)) ==> Unique(context)
  {
    var prevContext := StoreOf(current);
    context := prevContext;
    notices := [];
    var prevPayload := Lookup(prevContext, name);
    if prevPayload.None? {
      context := Put(context, name, payload);
      return;
    }
    if shouldOverride {
      context := Put(context, name, payload);
    } else {
      notices := CombineNotices(name, prevPayload.value, payload);
      context := Put(context, name, Combine(prevPayload.value, payload));
    }
  }

  // ----- batch: buildContext -----

  /**
   * The store a batch scope binds: the active store with every entry of the
   * batch set, in batch order, to its merge with the ACTIVE store's value.
   */
  function BatchContext(current: Option<Store>, batch: Store, shouldOverride: bool): (r: Store)
    ensures Keys(r) == Extend(Keys(StoreOf(current)), Keys(batch))
    ensures Unique(StoreOf(current)) ==> Unique(r)
  {
    if batch == [] then StoreOf(current)
    else
      var n := |batch| - 1;
      assert Keys(batch[..n]) == Keys(batch)[..n];
      Put(BatchContext(current, batch[..n], shouldOverride), batch[n].0,
          Merge(Lookup(StoreOf(current), batch[n].0), batch[n].1, shouldOverride))
  }

  /** The log lines of a batch scope: those of each entry's single-key merge, in batch order. */
  function BatchNotices(current: Option<Store>, batch: Store, shouldOverride: bool): seq<Notice> {
    if batch == [] then []
    else
      var n := |batch| - 1;
      BatchNotices(current, batch[..n], shouldOverride) + NamedNotices(current, batch[n].0, batch[n].1, shouldOverride)
  }

  /**
   * `buildContext`: for each batch entry, runs the single-key build against
   * the active store and copies the merged value into the result.  For a
   * batch with unique keys (every Map), each key of the batch is bound to its
   * merge with the active value, the override flag applying to every key, and
   * every other key keeps its active value.
   */
  method BuildContext(current: Option<Store>, ctx: Store, shouldOverride: bool)
    returns (context: Store, notices: seq<Notice>)
    ensures context == BatchContext(current, ctx, shouldOverride)
    ensures notices == BatchNotices(current, ctx, shouldOverride)
    ensures Keys(context) == Extend(Keys(StoreOf(current)), Keys(ctx))
    ensures Unique(ctx) ==> forall k :: (Lookup(context, k) ==
      if k in Keys(ctx) then Some(Merge(Lookup(StoreOf(current), k), Lookup(ctx, k).value, shouldOverride))
      else Lookup(StoreOf(current), k))
  {
    var prevContext := StoreOf(current);
    context := prevContext;
    notices := [];
    for i := 0 to |ctx|
      invariant context == BatchContext(current, ctx[..i], shouldOverride)
      invariant notices == BatchNotices(current, ctx[..i], shouldOverride)
    {
      var (contextName, value) := ctx[i];
      var builtContext, logged := BuildNamedContext(current, contextName, value, shouldOverride);
      BatchStep(current, ctx, i, shouldOverride);
      context := Put(context, contextName, Lookup(builtContext, contextName).value);
      notices := notices + logged;
    }
    assert ctx[..|ctx|] == ctx;
    if Unique(ctx) {
      BatchLookup(current, ctx, shouldOverride);
    }
  }

  /** One more batch entry: its key set to its merge with the active value, its notices appended. */
  lemma BatchStep(current: Option<Store>, batch: Store, i: nat, shouldOverride: bool)
    requires i < |batch|
    ensures BatchContext(current, batch[..i + 1], shouldOverride)
      == Put(BatchContext(current, batch[..i], shouldOverride), batch[i].0,
             Merge(Lookup(StoreOf(current), batch[i].0), batch[i].1, shouldOverride))
    ensures BatchNotices(current, batch[..i + 1], shouldOverride)
      == BatchNotices(current, batch[..i], shouldOverride) + NamedNotices(current, batch[i].0, batch[i].1, shouldOverride)
  {
    assert batch[..i + 1][..i] == batch[..i];
  }

  /**
   * For a batch with unique keys: each batch key is bound to its merge with
   * the active value, every other key keeps its active value.
   */
  lemma BatchLookup(current: Option<Store>, batch: Store, shouldOverride: bool)
    requires Unique(batch)
    ensures forall k :: (Lookup(BatchContext(current, batch, shouldOverride), k) ==
      if k in Keys(batch) then Some(Merge(Lookup(StoreOf(current), k), Lookup(batch, k).value, shouldOverride))
      else Lookup(StoreOf(current), k))
  {
    forall k {
      BatchLookupAt(current, batch, shouldOverride, k);
    }
  }

  /** `BatchLookup` for one key. */
  lemma {:induction false} BatchLookupAt(current: Option<Store>, batch: Store, shouldOverride: bool, k: Key)
    requires Unique(batch)
    ensures Lookup(BatchContext(current, batch, shouldOverride), k) ==
      if k in Keys(batch) then Some(Merge(Lookup(StoreOf(current), k), Lookup(batch, k).value, shouldOverride))
      else Lookup(StoreOf(current), k)
  {
    if batch != [] {
      var n := |batch| - 1;
      UniquePrefix(batch, n);
      BatchLookupAt(current, batch[..n], shouldOverride, k);
      assert Keys(batch[..n]) == Keys(batch)[..n];
      if k == batch[n].0 {
        LookupMember(batch, k, batch[n].1);
      } else if k in Keys(batch[..n]) {
        LookupMember(batch, k, Lookup(batch[..n], k).value);
      } else {
        assert k !in Keys(batch);
      }
    }
  }

  /**
   * The nesting of one single-key scope per batch entry, in batch order, each
   * merging against the store built so far.
   */
  function NestedContexts(current: Option<Store>, batch: Store, shouldOverride: bool): Store {
    if batch == [] then StoreOf(current)
    else
      var n := |batch| - 1;
      NamedContext(Some(NestedContexts(current, batch[..n], shouldOverride)), batch[n].0, batch[n].1, shouldOverride)
  }

  /**
   * Although each batch key is merged against the active store and not
   * against earlier batch results, a batch with unique keys binds the same
   * store as nesting one single-key scope per entry.
   */
  lemma {:induction false} BatchAsNested(current: Option<Store>, batch: Store, shouldOverride: bool)
    requires Unique(batch)
    ensures BatchContext(current, batch, shouldOverride) == NestedContexts(current, batch, shouldOverride)
  {
    if batch != [] {
      var n := |batch| - 1;
      LookupLast(batch);
      BatchAsNested(current, batch[..n], shouldOverride);
      BatchLookup(current, batch[..n], shouldOverride);
    }
  }

  /** An override batch binds the union of the active store and the batch, the batch winning. */
  lemma {:induction false} BatchOverride(current: Option<Store>, batch: Store)
    ensures BatchContext(current, batch, true) == PutAll(StoreOf(current), batch)
    ensures BatchNotices(current, batch, true) == []
  {
    if batch != [] {
      BatchOverride(current, batch[..|batch| - 1]);
    }
  }

  /**
   * A batch sends every entry through the single-key merge: in merge mode a
   * batch key already bound to a value it cannot combine with (a primitive
   * payload, say) is replaced by the payload.
   */
  lemma BatchReplaces(current: Option<Store>, batch: Store, k: Key)
    requires Unique(batch)
    requires k in Keys(batch) && k in Keys(StoreOf(current))
    requires !SameShape(Lookup(StoreOf(current), k).value, Lookup(batch, k).value)
    ensures Lookup(BatchContext(current, batch, false), k) == Lookup(batch, k)
  {
    BatchLookup(current, batch, false);
    MergeFallback(Lookup(StoreOf(current), k).value, Lookup(batch, k).value);
  }

  /** ... and that replacement is logged, with the previous and the new value, in batch mode as well. */
  lemma {:induction false} BatchLogsReplacement(current: Option<Store>, batch: Store, k: Key)
    requires Unique(batch)
    requires k in Keys(batch) && k in Keys(StoreOf(current))
    requires !SameShape(Lookup(StoreOf(current), k).value, Lookup(batch, k).value)
    ensures Replaced(k, Lookup(StoreOf(current), k).value, Lookup(batch, k).value) in BatchNotices(current, batch, false)
  {
    var n := |batch| - 1;
    var prev := Lookup(StoreOf(current), k).value;
    assert BatchNotices(current, batch, false)
      == BatchNotices(current, batch[..n], false) + NamedNotices(current, batch[n].0, batch[n].1, false);
    if batch[n].0 == k {
      LookupMember(batch, k, batch[n].1);
      NoticesFallback(k, prev, batch[n].1);
    } else {
      UniquePrefix(batch, n);
      assert k in Keys(batch[..n]) by {
        var i :| 0 <= i < |Keys(batch)| && Keys(batch)[i] == k;
        assert i != n;
        assert Keys(batch[..n])[i] == k;
      }
      var v := Lookup(batch[..n], k).value;
      assert (k, v) in batch;
      LookupMember(batch, k, v);
      BatchLogsReplacement(current, batch[..n], k);
    }
  }

  // ----- read accessors -----

  /**
   * The store `getMultiContext` builds from `store` and the requested names:
   * each requested name the store has is set, in request order, to its value.
   */
  function Project(store: Store, names: seq<Key>): Store {
    if names == [] then []
    else
      var n := |names| - 1;
      var context := Project(store, names[..n]);
      if names[n] in Keys(store) then Put(context, names[n], Lookup(store, names[n]).value) else context
  }

  /**
   * The projection holds exactly the requested names the store has, once
   * each and in request order, each with the store's value.
   */
  lemma {:induction false} ProjectSpec(store: Store, names: seq<Key>)
    ensures Unique(Project(store, names))
    ensures forall k :: (Lookup(Project(store, names), k) == if k in names then Lookup(store, k) else None)
    ensures Keys(Project(store, names)) == Extend([], Common(names, Keys(store)))
  {
    if names != [] {
      var n := |names| - 1;
      var init := Common(names[..n], Keys(store));
      ProjectSpec(store, names[..n]);
      assert names[..n + 1] == names;
      CommonStep(names, Keys(store), n);
      if names[n] in Keys(store) {
        assert Common(names, Keys(store)) == init + [names[n]];
        ExtendStep([], init, names[n]);
      } else {
        assert Common(names, Keys(store)) == init + [];
        assert init + [] == init;
      }
      assert forall k :: k in names <==> k in names[..n] || k == names[n];
    }
  }

  /**
   * `getMultiContext(names)`: a new store holding, in request order and once
   * each, the requested keys the active store has, each with the active
   * value.  Absent keys are left out; a null `names` or no active scope gives
   * an empty store.
   */
  method GetMultiContext(current: Option<Store>, names: Option<seq<Key>>) returns (context: Store)
    ensures context == Project(StoreOf(current), names.GetOr([]))
    ensures Unique(context)
    ensures forall k :: (Lookup(context, k) ==
      if names.Some? && k in names.value then Lookup(StoreOf(current), k) else None)
    ensures Keys(context) == Extend([], Common(names.GetOr([]), Keys(StoreOf(current))))
    ensures names.None? || current.None? ==> context == []
  {
    var requested := names.GetOr([]);
    var store := StoreOf(current);
    context := [];
    for i := 0 to |requested|
      invariant context == Project(store, requested[..i])
    {
      var name := requested[i];
      assert requested[..i + 1][..i] == requested[..i];
      if name in Keys(store) {
        context := Put(context, name, Lookup(store, name).value);
      }
    }
    assert requested[..|requested|] == requested;
    ProjectSpec(store, requested);
    assert |Keys(context)| == |context|;
  }

  /** What `getContext` returns: the whole store, or the value under one key (`None` for `undefined`). */
  datatype View = Whole(store: Store) | Item(value: Option<Value>)

  /**
   * `getContext()` / `getContext(name)`: the whole active store (an empty one
   * outside every scope) when no name, or a falsy one, is given; otherwise
   * the value bound to the name.
   */
  function GetContext(current: Option<Store>, name: Option<Key>): View {
    var store := StoreOf(current);
    if name.None? || name.value == "" then Whole(store)
    else Item(Lookup(store, name.value))
  }

  /** `isInContext()`: a store is bound, even an empty one. */
  function IsInContext(current: Option<Store>): bool {
    current.Some?
  }

  /** Outside every scope the whole context is an empty store, never absent, and no key is bound. */
  lemma GetContextUnbound(name: Option<Key>)
    ensures name.None? || name == Some("") ==> GetContext(None, name) == Whole([])
    ensures name.Some? && name.value != "" ==> GetContext(None, name) == Item(None)
    ensures !IsInContext(None)
  {
  }

  /**
   * A non-empty name reads its bound value, `undefined` when absent; the
   * empty name is falsy and reads the whole store, even when it is bound.
   */
  lemma GetContextNamed(current: Option<Store>, name: Key)
    ensures name != "" ==> GetContext(current, Some(name)) == Item(Lookup(StoreOf(current), name))
    ensures GetContext(current, Some("")) == Whole(StoreOf(current))
    ensures GetContext(current, None) == Whole(StoreOf(current))
  {
  }

  /** A bound empty store still counts as being in a context. */
  lemma InContextWhenEmpty()
    ensures IsInContext(Some([]))
    ensures GetContext(Some([]), None) == Whole([])
  {
  }

  // ----- merge behaviour seen through a scope -----

  /**
   * A single-key scope in override mode binds exactly the payload, whatever
   * was bound before, and logs nothing.
   */
  lemma OverrideObserved(current: Option<Store>, name: Key, payload: Value)
    requires name != ""
    ensures GetContext(Some(NamedContext(current, name, payload, true)), Some(name)) == Item(Some(payload))
    ensures NamedNotices(current, name, payload, true) == []
  {
  }

  /** A single-key scope on a key the active store lacks binds the payload in either mode. */
  lemma AbsentKeyObserved(current: Option<Store>, name: Key, payload: Value, shouldOverride: bool)
    requires name != "" && name !in Keys(StoreOf(current))
    ensures GetContext(Some(NamedContext(current, name, payload, shouldOverride)), Some(name)) == Item(Some(payload))
    ensures NamedNotices(current, name, payload, shouldOverride) == []
  {
  }

  /**
   * Three nested single-key scopes on one key, starting from a store that
   * lacks it, with record payloads `a`, `b`, `c`: the innermost scope sees
   * one record holding every field of the three, a later payload winning.
   */
  lemma NestedRecords(current: Option<Store>, name: Key, a: seq<(string, Value)>, b: seq<(string, Value)>, c: seq<(string, Value)>)
    requires name !in Keys(StoreOf(current))
    requires Unique(a) && Unique(b) && Unique(c)
    requires Plain(Record(a)) && Plain(Record(b)) && Plain(Record(c))
    ensures var s1 := NamedContext(current, name, Record(a), false);
      var s2 := NamedContext(Some(s1), name, Record(b), false);
      var s3 := NamedContext(Some(s2), name, Record(c), false);
      && Lookup(s3, name).Some? && Lookup(s3, name).value.Record?
      && var fields := Lookup(s3, name).value.fields;
      && Keys(fields) == Extend(Extend(Keys(a), Keys(b)), Keys(c))
      && forall f :: Lookup(fields, f) ==
           if f in Keys(c) then Lookup(c, f) else if f in Keys(b) then Lookup(b, f) else Lookup(a, f)
  {
    var s1 := NamedContext(current, name, Record(a), false);
    assert Lookup(s1, name) == Some(Record(a));
    MergeRecords(a, b);
    var ab := Merge(Some(Record(a)), Record(b), false);
    var s2 := NamedContext(Some(s1), name, Record(b), false);
    assert Lookup(s2, name) == Some(ab);
    MergeRecords(ab.fields, c);
  }

  // ----- scopes -----

  /** The two call shapes: a name, a payload and a callback, or a batch store and a callback. */
  datatype Args = Named(name: Key, payload: Value) | Full(ctx: Store)

  /** A `withContext` call (`shouldOverride` false) or a `withContextOverride` call (true), without its callback. */
  datatype Call = Call(args: Args, shouldOverride: bool)

  /** The store a call binds for its callback, built from the active store. */
  function EnterStore(current: Option<Store>, call: Call): Store {
    match call.args
    case Named(name, payload) => NamedContext(current, name, payload, call.shouldOverride)
    case Full(ctx) => BatchContext(current, ctx, call.shouldOverride)
  }

  /** The log lines of building that store. */
  function EnterNotices(current: Option<Store>, call: Call): seq<Notice> {
    match call.args
    case Named(name, payload) => NamedNotices(current, name, payload, call.shouldOverride)
    case Full(ctx) => BatchNotices(current, ctx, call.shouldOverride)
  }

  /**
   * A callback, as the sequence of scope-relevant things it does: read the
   * context (`Probe`), or enter a nested scope whose own callback is `body`
   * (`Scope`), then go on with `next`.
   */
  datatype Callback = Done | Probe(next: Callback) | Scope(call: Call, body: Callback, next: Callback)

  /** What a run of a callback produces: the store a probe saw, or a line the merge logged. */
  datatype Event = Probed(current: Option<Store>) | Logged(notice: Notice)

  /** The active store of a frame stack: its innermost frame, if any. */
  function Top(stack: seq<Store>): Option<Store> {
    if stack == [] then None else Some(stack[|stack| - 1])
  }

  /** Log lines as events. */
  function Logs(ns: seq<Notice>): seq<Event> {
    seq(|ns|, i requires 0 <= i < |ns| => Logged(ns[i]))
  }

  /**
   * The events of running `callback` on frame stack `stack`: each nested scope
   * logs while building its store, runs its body with that store pushed, and
   * the rest runs on the original stack again.
   */
  function Observe(stack: seq<Store>, callback: Callback): seq<Event>
    decreases callback
  {
    match callback
    case Done => []
    case Probe(next) => [Probed(Top(stack))] + Observe(stack, next)
    case Scope(call, body, next) =>
      Logs(EnterNotices(Top(stack), call)) + Observe(stack + [EnterStore(Top(stack), call)], body) + Observe(stack, next)
  }

  /**
   * Only the innermost frame is ever read: a run is determined by the
   * active store, and the frames below it, or anything a child scope did,
   * cannot influence it.
   */
  lemma {:induction false} ObserveTopOnly(s1: seq<Store>, s2: seq<Store>, callback: Callback)
    requires Top(s1) == Top(s2)
    ensures Observe(s1, callback) == Observe(s2, callback)
    decreases callback
  {
    match callback
    case Done =>
    case Probe(next) =>
      ObserveTopOnly(s1, s2, next);
    case Scope(call, body, next) =>
      var s := EnterStore(Top(s1), call);
      assert Top(s1 + [s]) == Top(s2 + [s]);
      ObserveTopOnly(s1 + [s], s2 + [s], body);
      ObserveTopOnly(s1, s2, next);
  }

  /** Inside a scope every probe, however deeply nested, sees a bound store. */
  lemma {:induction false} BoundInside(stack: seq<Store>, callback: Callback)
    requires stack != []
    ensures forall e :: e in Observe(stack, callback) && e.Probed? ==> IsInContext(e.current)
    decreases callback
  {
    match callback
    case Done =>
    case Probe(next) =>
      BoundInside(stack, next);
    case Scope(call, body, next) =>
      var s := EnterStore(Top(stack), call);
      BoundInside(stack + [s], body);
      BoundInside(stack, next);
      forall e | e in Logs(EnterNotices(Top(stack), call)) ensures e.Logged? {
        var i :| 0 <= i < |Logs(EnterNotices(Top(stack), call))| && Logs(EnterNotices(Top(stack), call))[i] == e;
      }
  }

  /**
   * Outside every scope `isInContext()` is false; inside a scope's callback
   * it is true and the scope's store is bound; once the scope has returned
   * it is false again.
   */
  lemma InContextOnlyInside(call: Call)
    ensures var trace := Observe([], Probe(Scope(call, Probe(Done), Probe(Done))));
      var logged := |EnterNotices(None, call)|;
      && |trace| == logged + 3
      && trace[0] == Probed(None) && !IsInContext(trace[0].current)
      && trace[logged + 1] == Probed(Some(EnterStore(None, call)))
      && IsInContext(trace[logged + 1].current)
      && trace[logged + 2] == Probed(None) && !IsInContext(trace[logged + 2].current)
  {
    var s := EnterStore(None, call);
    var logs := Logs(EnterNotices(None, call));
    assert Observe([s], Probe(Done)) == [Probed(Some(s))];
    assert Observe([], Probe(Done)) == [Probed(None)];
    assert Observe([], Scope(call, Probe(Done), Probe(Done))) == logs + [Probed(Some(s))] + [Probed(None)];
  }

  /** Callback `a` followed by callback `b`: `b` runs where `a` runs `Done`. */
  function Then(a: Callback, b: Callback): Callback
    decreases a
  {
    match a
    case Done => b
    case Probe(next) => Probe(Then(next, b))
    case Scope(call, body, next) => Scope(call, body, Then(next, b))
  }

  /**
   * A callback leaves no trace on what follows it: whatever scopes `a`
   * enters, the code after it runs, and builds its own scopes, exactly as if
   * `a` had not run.
   */
  lemma {:induction false} ScopeRestores(stack: seq<Store>, a: Callback, b: Callback)
    ensures Observe(stack, Then(a, b)) == Observe(stack, a) + Observe(stack, b)
    decreases a
  {
    match a
    case Done =>
      ThenDone(stack, b);
    case Probe(next) =>
      ScopeRestores(stack, next, b);
      ThenProbe(stack, next, b);
    case Scope(call, body, next) =>
      ScopeRestores(stack, next, b);
      ThenScope(stack, call, body, next, b);
  }

  /** `ScopeRestores` for a callback that does nothing. */
  lemma ThenDone(stack: seq<Store>, b: Callback)
    ensures Observe(stack, Then(Done, b)) == Observe(stack, Done) + Observe(stack, b)
  {
    assert Observe(stack, Done) == [];
    EmptyConcat(Observe(stack, b));
  }

  /** `ScopeRestores` for a callback that starts with a probe, given it for the rest. */
  lemma ThenProbe(stack: seq<Store>, next: Callback, b: Callback)
    requires Observe(stack, Then(next, b)) == Observe(stack, next) + Observe(stack, b)
    ensures Observe(stack, Then(Probe(next), b)) == Observe(stack, Probe(next)) + Observe(stack, b)
  {
    var rest := Then(next, b);
    assert Then(Probe(next), b) == Probe(rest);
    assert Observe(stack, Probe(rest)) == [Probed(Top(stack))] + Observe(stack, rest);
    assert Observe(stack, Probe(next)) == [Probed(Top(stack))] + Observe(stack, next);
    Associative([Probed(Top(stack))], Observe(stack, next), Observe(stack, b));
  }

  /** `ScopeRestores` for a callback that starts with a scope, given it for the rest. */
  lemma ThenScope(stack: seq<Store>, call: Call, body: Callback, next: Callback, b: Callback)
    requires Observe(stack, Then(next, b)) == Observe(stack, next) + Observe(stack, b)
    ensures Observe(stack, Then(Scope(call, body, next), b)) == Observe(stack, Scope(call, body, next)) + Observe(stack, b)
  {
    var scope := Observe(stack, Scope(call, body, Done));
    var rest := Then(next, b);
    assert Then(Scope(call, body, next), b) == Scope(call, body, rest);
    ObserveScope(stack, call, body, rest);
    ObserveScope(stack, call, body, next);
    Associative(scope, Observe(stack, next), Observe(stack, b));
  }

  /** A scope followed by more is the scope alone, then the rest. */
  lemma ObserveScope(stack: seq<Store>, call: Call, body: Callback, next: Callback)
    ensures Observe(stack, Scope(call, body, next)) == Observe(stack, Scope(call, body, Done)) + Observe(stack, next)
  {
    var inner := Logs(EnterNotices(Top(stack), call)) + Observe(stack + [EnterStore(Top(stack), call)], body);
    assert Observe(stack, Scope(call, body, Done)) == inner + [];
    assert inner + [] == inner;
  }

  /**
   * The binding the scope engine keeps for one execution path: its stack of
   * frames, innermost last.  `withContext` pushes a frame for the duration of
   * its callback and pops it afterwards.
   */
  class AsyncContext {
    var stack: seq<Store>

    /**
     * Every bound store is a well-formed Map (no key twice).  It is kept for
     * well-formedness only: the lookup facts of `BuildNamedContext` and
     * `BuildContext` hold for any active store.
     */
    ghost predicate Valid()
      reads this
    {
      forall i :: 0 <= i < |stack| ==> Unique(stack[i])
    }

    /** The root state: no scope entered. */
    constructor ()
      ensures Valid() && stack == []
    {
      stack := [];
    }

    /** `alc.getStore()`. */
    function Current(): Option<Store>
      reads this
    {
      Top(stack)
    }

    /**
     * Builds the store of a call from the active one and binds it on top of
     * the frames already there, which are left as they were.
     */
    method Enter(call: Call) returns (notices: seq<Notice>)
      requires Valid()
      modifies this
      ensures Valid()
      ensures stack == old(stack) + [EnterStore(old(Current()), call)]
      ensures notices == EnterNotices(old(Current()), call)
    {
      var context: Store;
      assert Unique(StoreOf(Current()));
      if call.args.Named? {
        context, notices := BuildNamedContext(Current(), call.args.name, call.args.payload, call.shouldOverride);
      } else {
        context, notices := BuildContext(Current(), call.args.ctx, call.shouldOverride);
      }
      stack := stack + [context];
    }

    /** Unbinds the innermost store when its callback settles, rebinding the one below. */
    method Exit()
      requires Valid() && stack != []
      modifies this
      ensures Valid()
      ensures stack == old(stack)[..|old(stack)| - 1]
    {
      stack := stack[..|stack| - 1];
    }

    /**
     * `withContext` / `withContextOverride`: runs `callback` with the call's
     * store bound and afterwards binds exactly what was bound before.
     */
    method WithContext(call: Call, callback: Callback) returns (trace: seq<Event>)
      requires Valid()
      modifies this
      decreases callback, 1
      ensures Valid() && stack == old(stack)
      ensures trace == Observe(old(stack), Scope(call, callback, Done))
    {
      var notices := Enter(call);
      var inner := Run(callback);
      Exit();
      trace := Logs(notices) + inner;
      assert trace + Observe(old(stack), Done) == trace;
    }

    /** Runs a callback on the current frames and leaves them as they were. */
    method Run(callback: Callback) returns (trace: seq<Event>)
      requires Valid()
      modifies this
      decreases callback, 0
      ensures Valid() && stack == old(stack)
      ensures trace == Observe(old(stack), callback)
    {
      match callback
      case Done =>
        trace := [];
      case Probe(next) =>
        var seen := Current();
        var rest := Run(next);
        trace := [Probed(seen)] + rest;
      case Scope(call, body, next) =>
        var inner := WithContext(call, body);
        var rest := Run(next);
        trace := inner + rest;
        ObserveScope(old(stack), call, body, next);
    }
  }
}
