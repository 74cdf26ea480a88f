/** The store of the last notification per resource and pod. */
module NotificationStores {
  import opened Bytes
  import opened NestedMaps

  datatype NamespacedName = NamespacedName(namespace: string, name: string)

  type Pod = string

  /** `interface{}` values: `None` is nil. A merger is only ever called with a stored, hence non-nil, old value. */
  type Merger<!V> = (V, Option<V>) -> Option<V>

  function PassNewValue<V>(before: V, after: Option<V>): (v: Option<V>) {
    after
  }

  type Store<+V> = Nested<NamespacedName, Pod, V>

  type FlatMap<V> = map<(NamespacedName, Pod), V>

  // ---- The flat map that the store stands for ----

  datatype Op<!V> =
    | Put(name: NamespacedName, pod: Pod, merger: Merger<V>, value: Option<V>)
    | CleanPod(name: NamespacedName, pod: Pod)
    | CleanPods(name: NamespacedName)

  /** What storing leaves at a key: the new value, or the merge with the value that was there. */
  function Merged<V>(flat: FlatMap<V>, key: (NamespacedName, Pod), merger: Merger<V>, value: Option<V>): (v: Option<V>)
  {
    if key in flat then merger(flat[key], value) else value
  }

  function ApplyFlat<V>(flat: FlatMap<V>, op: Op<V>): (flat': FlatMap<V>) {
    match op
    case Put(n, p, merger, value) =>
      var v := Merged(flat, (n, p), merger, value);
      if v.Some? then flat[(n, p) := v.value] else flat - {(n, p)}
    case CleanPod(n, p) => flat - {(n, p)}
    case CleanPods(n) => map k | k in flat && k.0 != n :: flat[k]
  }

  ghost function RunFlat<V>(log: seq<Op<V>>): (flat: FlatMap<V>) {
    if log == [] then map[] else ApplyFlat(RunFlat(log[..|log| - 1]), log[|log| - 1])
  }

  /** Whether storing triggers a reconciliation: always, unless the value that was there is still there. */
  function Triggers<V(==)>(flat: FlatMap<V>, op: Op<V>): (b: bool) {
    op.Put? &&
    var v := Merged(flat, (op.name, op.pod), op.merger, op.value);
    !((op.name, op.pod) in flat && v == Some(flat[(op.name, op.pod)]))
  }

  ghost function Enqueued<V>(log: seq<Op<V>>): (names: seq<NamespacedName>) {
    if log == [] then []
    else
      var init, op := log[..|log| - 1], log[|log| - 1];
      Enqueued(init) + if Triggers(RunFlat(init), op) then [op.name] else []
  }

  lemma RunFlatSnoc<V>(log: seq<Op<V>>, op: Op<V>)
    ensures RunFlat(log + [op]) == ApplyFlat(RunFlat(log), op)
    ensures Enqueued(log + [op]) == Enqueued(log) + if Triggers(RunFlat(log), op) then [op.name] else []
  {
    assert (log + [op])[..|log|] == log;
  }

  /** The value at a key, if any. */
  function ValueAt<V>(flat: FlatMap<V>, name: NamespacedName, pod: Pod): (v: Option<V>) {
    if (name, pod) in flat then Some(flat[(name, pod)]) else None
  }

  // ---- What storing means ----

  /** Storing at a key that holds a value leaves what the merger makes of it and the new value, and nothing if that is
      nil; at a key that holds none it leaves the new value. Other keys are as they were. Storing reports no change
      exactly when the key held a value and holds it still. */
  lemma PutMerges<V>(log: seq<Op<V>>, name: NamespacedName, pod: Pod, merger: Merger<V>, value: Option<V>)
    ensures var op := Put(name, pod, merger, value);
            var before, after := RunFlat(log), RunFlat(log + [op]);
            && ((name, pod) in before ==> ValueAt(after, name, pod) == merger(before[(name, pod)], value))
            && ((name, pod) !in before ==> ValueAt(after, name, pod) == value)
            && (forall n, p :: (n, p) != (name, pod) ==> ValueAt(after, n, p) == ValueAt(before, n, p))
            && (Triggers(before, op) <==> !((name, pod) in before && after == before))
  {
    hide RunFlat, Enqueued;
    RunFlatSnoc(log, Put(name, pod, merger, value));
  }

  /** The left fold of a merger over the values of a stream. */
  function Fold<V>(merger: Merger<V>, vs: seq<Option<V>>): (v: Option<V>) {
    if vs == [] then None
    else
      var before, last := Fold(merger, vs[..|vs| - 1]), vs[|vs| - 1];
      if before.Some? then merger(before.value, last) else last
  }

  function Puts<V>(name: NamespacedName, pod: Pod, merger: Merger<V>, vs: seq<Option<V>>): (log: seq<Op<V>>) {
    seq(|vs|, i requires 0 <= i < |vs| => Put(name, pod, merger, vs[i]))
  }

  /** After a stream of stores on one key the store holds the fold of the merger over the values, and nothing else. */
  lemma {:induction false} StoresFold<V>(name: NamespacedName, pod: Pod, merger: Merger<V>, vs: seq<Option<V>>)
    ensures ValueAt(RunFlat(Puts(name, pod, merger, vs)), name, pod) == Fold(merger, vs)
    ensures forall n, p :: (n, p) != (name, pod) ==> ValueAt(RunFlat(Puts(name, pod, merger, vs)), n, p) == None
    decreases |vs|
  {
    if vs == [] {
      assert Puts(name, pod, merger, vs) == [];
    } else {
      hide RunFlat;
      var init, last := vs[..|vs| - 1], vs[|vs| - 1];
      StoresFold(name, pod, merger, init);
      assert Puts(name, pod, merger, vs) == Puts(name, pod, merger, init) + [Put(name, pod, merger, last)];
      PutMerges(Puts(name, pod, merger, init), name, pod, merger, last);
    }
  }

  // ---- What each update of the nested map does to the flat one ----

  lemma CleanPodFlat<V>(store: Store<V>, name: NamespacedName, pod: Pod)
    ensures Flatten(Without(store, name, pod)) == ApplyFlat(Flatten(store), CleanPod(name, pod))
    ensures Pruned(store) ==> Pruned(Without(store, name, pod))
  {
    hide Flatten, Without, Pruned;
    FlattenWithout(store, name, pod);
    InnerWithout(store, name, pod);
  }

  /** What storing leaves, said of the nested map. */
  function MergedAt<V>(store: Store<V>, name: NamespacedName, pod: Pod, merger: Merger<V>,
                       value: Option<V>): (v: Option<V>)
  {
    if pod in Inner(store, name) then merger(Inner(store, name)[pod], value) else value
  }

  lemma StoreFlat<V>(store: Store<V>, name: NamespacedName, pod: Pod, merger: Merger<V>, value: Option<V>)
    ensures var op := Put(name, pod, merger, value);
            var v := MergedAt(store, name, pod, merger, value);
            var store' := if v.Some? then With(store, name, pod, v.value) else Without(store, name, pod);
            && ApplyFlat(Flatten(store), op) == Flatten(store')
            && (Triggers(Flatten(store), op) <==> !(pod in Inner(store, name) && v == Some(Inner(store, name)[pod])))
            && (!Triggers(Flatten(store), op) ==> ApplyFlat(Flatten(store), op) == Flatten(store))
            && (Pruned(store) ==> Pruned(store'))
  {
    hide Flatten, With, Without, Pruned, Inner;
    var v := MergedAt(store, name, pod, merger, value);
    FlattenAt(store);
    assert (name, pod) in Flatten(store) <==> pod in Inner(store, name);
    if v.Some? {
      FlattenWith(store, name, pod, v.value);
      InnerWith(store, name, pod, v.value);
    } else {
      FlattenWithout(store, name, pod);
      InnerWithout(store, name, pod);
    }
  }

  /** `copyMap`. */
  method CopyMap<K(==), V>(m: map<K, V>) returns (out: map<K, V>)
    ensures out == m
  {
    out := map[];
    var rest := m.Keys;
    while rest != {}
      invariant rest <= m.Keys
      invariant out.Keys == m.Keys - rest
      invariant forall k :: k in out ==> out[k] == m[k]
    {
      var k :| k in rest;
      out := out[k := m[k]];
      rest := rest - {k};
    }
  }

  /** The store, kept equal to a flat map at every moment of every history. */
  class NotificationStore<V(==)> {
    const parser: seq<Byte> -> Option<Option<V>>
    var store: Store<V>
    var enqueued: seq<NamespacedName>
    ghost var log: seq<Op<V>>

    /** No inner map is ever empty; the nested map is the flat map of the history so far; and the reconciler was
        triggered exactly for the stores that changed something. */
    ghost predicate Valid()
      reads this
    {
      Pruned(store) && Flatten(store) == RunFlat(log) && enqueued == Enqueued(log)
    }

    constructor (parser: seq<Byte> -> Option<Option<V>>)
      ensures Valid() && log == [] && this.parser == parser
    {
      this.parser, store, enqueued, log := parser, map[], [], [];
    }

    method GetPodsNotifications(name: NamespacedName) returns (pods: map<Pod, V>, ok: bool)
      requires Valid()
      ensures ok <==> exists p :: (name, p) in RunFlat(log)
      ensures forall p :: p in pods <==> (name, p) in RunFlat(log)
      ensures forall p :: p in pods ==> pods[p] == RunFlat(log)[(name, p)]
    {
      assert forall p :: (name, p) in Flatten(store) <==> name in store && p in store[name];
      if name !in store {
        return map[], false;
      }
      pods := CopyMap(store[name]);
      ok := true;
      var p :| p in store[name];
      assert (name, p) in RunFlat(log);
    }

    method GetPodNotification(name: NamespacedName, pod: Pod) returns (value: Option<V>)
      requires Valid()
      ensures value == ValueAt(RunFlat(log), name, pod)
    {
      assert (name, pod) in Flatten(store) <==> name in store && pod in store[name];
      if name !in store {
        return None;
      }
      var podsNotifications := store[name];
      return if pod in podsNotifications then Some(podsNotifications[pod]) else None;
    }

    method CleanPodsNotifications(name: NamespacedName)
      requires Valid()
      modifies this
      ensures Valid() && log == old(log) + [CleanPods(name)] && enqueued == old(enqueued)
    {
      hide Flatten, RunFlat, Enqueued, Pruned;
      RunFlatSnoc(log, CleanPods(name));
      FlattenDrop(store, name);
      InnerDrop(store, name);
      log := log + [CleanPods(name)];
      store := store - {name};
    }

    method CleanPodNotification(name: NamespacedName, pod: Pod)
      requires Valid()
      modifies this
      ensures Valid() && log == old(log) + [CleanPod(name, pod)] && enqueued == old(enqueued)
    {
      hide Flatten, ApplyFlat, RunFlat, Enqueued, Pruned, Without;
      RunFlatSnoc(log, CleanPod(name, pod));
      CleanPodFlat(store, name, pod);
      log := log + [CleanPod(name, pod)];
      if name !in store {
        WithoutNothing(store, name, pod);
        return;
      }
      var podsNotifications := store[name] - {pod};
      WithoutInSteps(store, name, pod, podsNotifications);
      store := store[name := podsNotifications];
      if |podsNotifications| == 0 {
        store := store - {name};
      }
    }

    /** `storeNewValue`: it reports false exactly when the value that was there is still there. */
    method StoreNewValue(name: NamespacedName, pod: Pod, merger: Merger<V>, newValue: Option<V>) returns (changed: bool)
      requires Valid()
      modifies this`store, this`log
      ensures Pruned(store) && log == old(log) + [Put(name, pod, merger, newValue)] && Flatten(store) == RunFlat(log)
      ensures changed == Triggers(RunFlat(old(log)), Put(name, pod, merger, newValue))
      ensures !changed ==> Flatten(store) == Flatten(old(store))
      ensures var before := ValueAt(RunFlat(old(log)), name, pod);
              ValueAt(RunFlat(log), name, pod) == if before.Some? then merger(before.value, newValue) else newValue
    {
      PutMerges(log, name, pod, merger, newValue);
      hide Flatten, ApplyFlat, RunFlat, Enqueued, Pruned, Triggers, Without;
      ghost var op := Put(name, pod, merger, newValue);
      RunFlatSnoc(log, op);
      StoreFlat(store, name, pod, merger, newValue);
      log := log + [op];
      var podsNotifications := map[];
      if name in store {
        podsNotifications := store[name];
      } else {
        store := store[name := podsNotifications];
      }
      var oldValue := if pod in podsNotifications then Some(podsNotifications[pod]) else None;
      var valueToStore := if oldValue.Some? then merger(oldValue.value, newValue) else newValue;
      assert valueToStore == MergedAt(old(store), name, pod, merger, newValue);
      if valueToStore.Some? {
        podsNotifications := podsNotifications[pod := valueToStore.value];
        UpdateTwice(old(store), name, map[], podsNotifications);
        store := store[name := podsNotifications];
        assert store == With(old(store), name, pod, valueToStore.value);
        changed := oldValue != valueToStore;
      } else {
        podsNotifications := podsNotifications - {pod};
        UpdateTwice(old(store), name, map[], podsNotifications);
        WithoutInSteps(old(store), name, pod, podsNotifications);
        store := store[name := podsNotifications];
        assert store == old(store)[name := podsNotifications];
        if |podsNotifications| == 0 {
          store := store - {name};
        }
        changed := true;
      }
    }

    /** The handler of `MessageHandler`: a payload that cannot be parsed is neither stored nor acked; any other is
        stored, acked, and triggers a reconciliation if storing it changed something. */
    method HandleMessage(name: NamespacedName, pod: Pod, merger: Merger<V>, payload: seq<Byte>) returns (acked: bool)
      requires Valid()
      modifies this
      ensures Valid()
      ensures acked <==> parser(payload).Some?
      ensures log == old(log) + if acked then [Put(name, pod, merger, parser(payload).value)] else []
      ensures old(enqueued) <= enqueued
    {
      var parsed := parser(payload);
      if parsed.None? {
        return false;
      }
      RunFlatSnoc(log, Put(name, pod, merger, parsed.value));
      var shouldRunReconcile := StoreNewValue(name, pod, merger, parsed.value);
      acked := true;
      if shouldRunReconcile {
        enqueued := enqueued + [name];
      }
    }
  }

  // ---- How often the reconciler is triggered ----

  /** The history of a store that received the non-nil values `vs` on one key, always passing the new value. */
  function Stream<V>(name: NamespacedName, pod: Pod, vs: seq<V>): (log: seq<Op<V>>) {
    seq(|vs|, i requires 0 <= i < |vs| => Put(name, pod, PassNewValue, Some(vs[i])))
  }

  ghost predicate StartsRun<V>(vs: seq<V>, i: nat) {
    i < |vs| && (i == 0 || vs[i] != vs[i - 1])
  }

  /** Where the maximal runs of equal values start. */
  ghost function RunStarts<V>(vs: seq<V>): (s: set<nat>) {
    set i: nat | i < |vs| && StartsRun(vs, i)
  }

  lemma StreamSnoc<V>(name: NamespacedName, pod: Pod, vs: seq<V>, v: V)
    ensures Stream(name, pod, vs + [v]) == Stream(name, pod, vs) + [Put(name, pod, PassNewValue, Some(v))]
  {
  }

  /** Passing a new value replaces the one that was there, and changes something unless they are equal. */
  lemma PutNewValue<V>(flat: FlatMap<V>, name: NamespacedName, pod: Pod, v: V)
    ensures ApplyFlat(flat, Put(name, pod, PassNewValue, Some(v))) == flat[(name, pod) := v]
    ensures Triggers(flat, Put(name, pod, PassNewValue, Some(v))) <==>
              !((name, pod) in flat && flat[(name, pod)] == v)
  {
  }

  lemma {:induction false} StreamState<V>(name: NamespacedName, pod: Pod, vs: seq<V>)
    ensures RunFlat(Stream(name, pod, vs)) == if vs == [] then map[] else map[(name, pod) := vs[|vs| - 1]]
    decreases |vs|
  {
    hide Stream, ApplyFlat;
    if vs == [] {
      EmptyStream<V>(name, pod);
    } else {
      hide RunFlat;
      var init, last := vs[..|vs| - 1], vs[|vs| - 1];
      StreamState(name, pod, init);
      assert vs == init + [last];
      StreamSnoc(name, pod, init, last);
      RunFlatSnoc(Stream(name, pod, init), Put(name, pod, PassNewValue, Some(last)));
      PutNewValue(RunFlat(Stream(name, pod, init)), name, pod, last);
    }
  }

  lemma EmptyStream<V>(name: NamespacedName, pod: Pod)
    ensures Stream<V>(name, pod, []) == []
  {
  }

  lemma RunStartsSnoc<V>(vs: seq<V>)
    requires vs != []
    ensures |RunStarts(vs)| == |RunStarts(vs[..|vs| - 1])| + if StartsRun(vs, |vs| - 1) then 1 else 0
  {
    var last := |vs| - 1;
    var init := vs[..last];
    assert forall i: nat :: i < last ==> (StartsRun(vs, i) <==> StartsRun(init, i));
    if StartsRun(vs, last) {
      assert RunStarts(vs) == RunStarts(init) + {last};
    } else {
      assert RunStarts(vs) == RunStarts(init);
    }
  }

  /** The number of reconciliations triggered is the number of maximal runs of equal values. */
  lemma {:induction false} TriggerCount<V>(name: NamespacedName, pod: Pod, vs: seq<V>)
    ensures |Enqueued(Stream(name, pod, vs))| == |RunStarts(vs)|
    decreases |vs|
  {
    hide RunFlat, ApplyFlat, Stream, Triggers;
    if vs == [] {
      EmptyStream<V>(name, pod);
      assert RunStarts(vs) == {};
    } else {
      hide Enqueued, RunStarts;
      var init, last := vs[..|vs| - 1], vs[|vs| - 1];
      TriggerCount(name, pod, init);
      StreamState(name, pod, init);
      assert vs == init + [last];
      StreamSnoc(name, pod, init, last);
      RunFlatSnoc(Stream(name, pod, init), Put(name, pod, PassNewValue, Some(last)));
      PutNewValue(RunFlat(Stream(name, pod, init)), name, pod, last);
      RunStartsSnoc(vs);
    }
  }
}
