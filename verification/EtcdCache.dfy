/** The service cache of `pkg/registry/etcd/balancer.go`: a map and a dense slice over the same heap objects,
    updated in place, against a plain map. */
module EtcdCache {
  /** IDs, endpoints and the rest of a descriptor; only equality of the first two matters. */
  type Text = nat

  datatype Instance = Instance(id: Text, endpoint: Text, rest: Text)

  type Topology = map<Text, Instance>

  // ---------------------------------------------------------------- the plain map

  /** A watch or snapshot event with its etcd revision. */
  datatype Op =
    | Snapshot(instances: seq<Instance>, revision: int)
    | Put(instance: Instance, revision: int)
    | Delete(id: Text, revision: int)
    | Advance(revision: int)

  datatype Cache = Cache(topology: Topology, revision: int)

  /** Later entries win. */
  function OfList(instances: seq<Instance>): Topology {
    if instances == [] then map[]
    else var last := instances[|instances| - 1]; OfList(instances[..|instances| - 1])[last.id := last]
  }

  /** What an event does to the map, whatever its revision. */
  function Effect(t: Topology, op: Op): Topology {
    match op
    case Snapshot(instances, _) => OfList(instances)
    case Put(instance, _) => t[instance.id := instance]
    case Delete(id, _) => t - {id}
    case Advance(_) => t
  }

  function Apply(c: Cache, op: Op): Cache {
    if op.revision < c.revision then c else Cache(Effect(c.topology, op), op.revision)
  }

  function ApplyAll(c: Cache, ops: seq<Op>): Cache
    decreases ops
  {
    if ops == [] then c else ApplyAll(Apply(c, ops[0]), ops[1..])
  }

  // ---------------------------------------------------------------- the objects

  ghost predicate Distinct(instances: seq<Instance>) {
    forall i, j :: 0 <= i < j < |instances| ==> instances[i].id != instances[j].id
  }

  /** One candidate; the object's identity carries its health statistics. */
  class InstanceState {
    var instance: Instance
    var index: nat

    constructor (instance: Instance)
      ensures this.instance == instance
    {
      this.instance := instance;
      index := 0;
    }
  }

  class ServiceState {
    var instances: map<Text, InstanceState>
    var items: seq<InstanceState>
    var revision: int

    /** Every entry of the map is filed under its own ID. */
    ghost predicate Keyed()
      reads this`instances, instances.Values
    {
      forall id :: id in instances ==> instances[id].instance.id == id
    }

    ghost predicate At(i: int)
      reads this`instances, this`items, instances.Values, items
    {
      0 <= i < |items| && items[i].index == i && items[i].instance.id in instances && instances[items[i].instance.id] == items[i]
    }

    ghost predicate Filed(id: Text)
      reads this`instances, this`items, instances.Values, items
    {
      id in instances && instances[id].instance.id == id && instances[id].index < |items| && items[instances[id].index] == instances[id]
    }

    /** Map and slice hold the same objects, each at the index it records. */
    ghost predicate Valid()
      reads this`instances, this`items, instances.Values, items
    {
      |items| == |instances| &&
      (forall i {:trigger At(i)} :: 0 <= i < |items| ==> At(i)) &&
      (forall id {:trigger Filed(id)} :: id in instances ==> Filed(id))
    }

    ghost function Contents(): Topology
      reads this`instances, instances.Values
    {
      map id | id in instances :: instances[id].instance
    }

    ghost function View(): Cache
      reads this, instances.Values
    {
      Cache(Contents(), revision)
    }

    constructor ()
      ensures Valid() && View() == Cache(map[], 0)
    {
      instances, items, revision := map[], [], 0;
    }

    /** `storeInstance` under an unchanged ID. */
    method Store(instance: Instance)
      requires Valid() && instance.id in instances
      modifies instances[instance.id]
      ensures Valid() && View() == Cache(old(View()).topology[instance.id := instance], revision)
    {
      assert Filed(instance.id);
      instances[instance.id].instance := instance;
      forall i | 0 <= i < |items| ensures At(i) { assert old(At(i)); }
      forall id | id in instances ensures Filed(id) { assert old(Filed(id)); }
      hide At, Filed;
    }

    /** A new object at the place of the old one. */
    method Exchange(instance: Instance)
      requires Valid() && instance.id in instances
      modifies this`instances, this`items
      ensures Valid() && View() == Cache(old(View()).topology[instance.id := instance], revision)
      ensures instance.id in instances && fresh(instances[instance.id])
      ensures instances == old(instances)[instance.id := instances[instance.id]]
    {
      assert Filed(instance.id);
      var previous := instances[instance.id];
      var item := new InstanceState(instance);
      item.index := previous.index;
      instances := instances[instance.id := item];
      items := items[item.index := item];
      assert forall i {:trigger At(i)} :: 0 <= i < |items| ==> At(i) by {
        hide View, Contents, Valid, Filed;
        forall i | 0 <= i < |items| ensures At(i) { assert old(At(i)); }
      }
      assert forall id {:trigger Filed(id)} :: id in instances ==> Filed(id) by {
        hide View, At;
        forall id | id in instances ensures Filed(id) { assert old(Filed(id)); }
      }
      hide At, Filed;
    }

    method Append(instance: Instance)
      requires Valid() && instance.id !in instances
      modifies this`instances, this`items
      ensures Valid() && View() == Cache(old(View()).topology[instance.id := instance], revision)
      ensures instance.id in instances && fresh(instances[instance.id])
      ensures instances == old(instances)[instance.id := instances[instance.id]]
    {
      var item := new InstanceState(instance);
      item.index := |items|;
      instances := instances[instance.id := item];
      items := items + [item];
      assert forall i {:trigger At(i)} :: 0 <= i < |items| ==> At(i) by {
        hide View, Filed;
        forall i | 0 <= i < |items| ensures At(i) { if i < |old(items)| { assert old(At(i)); } }
      }
      assert forall id {:trigger Filed(id)} :: id in instances ==> Filed(id) by {
        hide View, At;
        forall id | id in instances ensures Filed(id) { if id != instance.id { assert old(Filed(id)); } }
      }
      hide At, Filed;
    }

    /** An update keeps the object of an unchanged endpoint, and every other object. */
    method PutLocked(instance: Instance)
      requires Valid()
      modifies this`instances, this`items, instances.Values
      ensures Valid() && View() == Cache(old(View()).topology[instance.id := instance], revision)
      ensures instance.id in instances && instances == old(instances)[instance.id := instances[instance.id]]
      ensures if instance.id in old(instances) && old(instances[instance.id].instance.endpoint) == instance.endpoint
              then instances == old(instances) else fresh(instances[instance.id])
    {
      hide View, Valid;
      if instance.id in instances {
        if instances[instance.id].instance.endpoint != instance.endpoint { Exchange(instance); } else { Store(instance); }
      } else {
        Append(instance);
      }
    }

    method DropLast(id: Text)
      requires Valid() && id in instances && instances[id].index == |items| - 1
      modifies this`instances, this`items
      ensures Valid() && View() == Cache(old(View()).topology - {id}, revision) && instances == old(instances) - {id}
    {
      assert Filed(id);
      items := items[..|items| - 1];
      instances := instances - {id};
      Smaller(old(instances), id);
      assert forall i {:trigger At(i)} :: 0 <= i < |items| ==> At(i) by {
        hide View;
        forall i | 0 <= i < |items| ensures At(i) { assert old(At(i)); }
      }
      assert forall other {:trigger Filed(other)} :: other in instances ==> Filed(other) by {
        hide View, At;
        forall other | other in instances ensures Filed(other) { assert old(Filed(other)); }
      }
      hide At, Filed;
    }

    /** Fills the hole with the last object of the slice. */
    method SwapOut(id: Text)
      requires Valid() && id in instances && instances[id].index < |items| - 1
      modifies this`instances, this`items, items[|items| - 1]
      ensures Valid() && View() == Cache(old(View()).topology - {id}, revision) && instances == old(instances) - {id}
    {
      var item, last := instances[id], |items| - 1;
      ghost var moved, hole := items[last], item.index;
      assert Filed(id) && At(last);
      items := items[item.index := items[last]];
      items[item.index].index := item.index;
      items := items[..last];
      instances := instances - {id};
      Smaller(old(instances), id);
      assert moved != item && item.index == hole && items[hole] == moved && moved.index == hole;
      assert forall i {:trigger At(i)} :: 0 <= i < |items| ==> At(i) by {
        hide View, Filed, Valid;
        forall i | 0 <= i < |items| ensures At(i) {
          assert old(At(i));
          if i != hole { assert items[i] == old(items)[i] && items[i] != moved; }
        }
      }
      assert forall other {:trigger Filed(other)} :: other in instances ==> Filed(other) by {
        hide View, Valid;
        forall other | other in instances ensures Filed(other) {
          assert old(Filed(other));
          if instances[other] != moved { assert instances[other].index != hole; }
        }
      }
      hide At, Filed;
    }

    method RemoveLocked(id: Text)
      requires Valid()
      modifies this`instances, this`items, instances.Values
      ensures Valid() && View() == Cache(old(View()).topology - {id}, revision)
      ensures instances == old(instances) - {id}
    {
      if id !in instances {
        assert instances - {id} == instances && View().topology - {id} == View().topology;
        return;
      }
      assert Filed(id) && At(|items| - 1);
      hide View, Valid;
      if instances[id].index != |items| - 1 { SwapOut(id); } else { DropLast(id); }
    }

    /** The object for one entry of a snapshot: the old one if its endpoint is unchanged, else a new one. */
    method Reuse(instance: Instance, index: nat) returns (item: InstanceState)
      modifies if instance.id in instances then {instances[instance.id]} else {}
      ensures item.instance == instance && item.index == index
      ensures if instance.id in instances && old(instances[instance.id].instance.endpoint) == instance.endpoint
              then item == instances[instance.id]
              else fresh(item) && (instance.id in instances ==> instances[instance.id].instance == old(instances[instance.id].instance))
    {
      if instance.id !in instances || instances[instance.id].instance.endpoint != instance.endpoint {
        item := new InstanceState(instance);
      } else {
        item := instances[instance.id];
        item.instance := instance;
      }
      item.index := index;
    }

    ghost function Endpoints(): map<Text, Text>
      reads this`instances, instances.Values
    {
      map id | id in instances :: instances[id].instance.endpoint
    }

    ghost predicate EndpointsAre(ends: map<Text, Text>)
      reads this`instances, instances.Values
    {
      ends.Keys == instances.Keys && forall id :: id in instances ==> instances[id].instance.endpoint == ends[id]
    }

    /** One round of the loop of `replaceLocked`; `list` is the part of the snapshot done so far. */
    method Extend(nextMap: map<Text, InstanceState>, nextItems: seq<InstanceState>, ghost list: seq<Instance>, instance: Instance, ghost ends: map<Text, Text>)
      returns (m: map<Text, InstanceState>, all: seq<InstanceState>)
      requires Keyed() && EndpointsAre(ends) && Built(nextMap, OfList(list)) && |nextItems| == |list|
      requires Distinct(list) ==> Lined(nextMap, nextItems, list)
      modifies if instance.id in instances then {instances[instance.id]} else {}
      ensures Keyed() && Built(m, OfList(list + [instance])) && |all| == |list + [instance]|
      ensures Distinct(list + [instance]) ==> Lined(m, all, list + [instance])
      ensures instance.id in m && m == nextMap[instance.id := m[instance.id]]
      ensures m[instance.id].instance.endpoint == instance.endpoint
      ensures EndpointsAre(ends) && (instance.id in instances <==> instance.id in ends)
      ensures if instance.id in ends && ends[instance.id] == instance.endpoint
              then instance.id in instances && m[instance.id] == instances[instance.id] else fresh(m[instance.id]) && m[instance.id] !in instances.Values
    {
      OfListStep(list, instance);
      hide OfList, Distinct;
      var item := Reuse(instance, |nextItems|);
      assert forall id :: id in nextMap && id != instance.id ==> nextMap[id] != item && nextMap[id].instance == old(nextMap[id].instance);
      m := nextMap[instance.id := item];
      all := nextItems + [item];
      assert Keyed();
      assert Built(m, OfList(list + [instance])) by { hide Lined; }
      if Distinct(list + [instance]) {
        hide Built, Keyed;
        assert forall k :: 0 <= k < |list| ==> list[k].id in nextMap && list[k].id != instance.id && nextItems[k] == nextMap[list[k].id];
      }
    }

    /** The loop of `replaceLocked`; `ends` are the endpoints before it. */
    method Rebuild(snapshot: seq<Instance>, ghost ends: map<Text, Text>) returns (nextMap: map<Text, InstanceState>, nextItems: seq<InstanceState>, ghost made: set<InstanceState>)
      requires Keyed() && EndpointsAre(ends)
      modifies instances.Values
      ensures Built(nextMap, OfList(snapshot)) && |nextItems| == |snapshot|
      ensures Distinct(snapshot) ==> Lined(nextMap, nextItems, snapshot)
      ensures Reuses(instances, ends, nextMap, OfList(snapshot))
      ensures fresh(made) && nextMap.Values <= instances.Values + made
    {
      nextMap, nextItems, made := map[], [], {};
      for i := 0 to |snapshot|
        invariant Keyed() && EndpointsAre(ends) && Built(nextMap, OfList(snapshot[..i])) && |nextItems| == i
        invariant Distinct(snapshot[..i]) ==> Lined(nextMap, nextItems, snapshot[..i])
        invariant Reuses(instances, ends, nextMap, OfList(snapshot[..i]))
        invariant fresh(made) && nextMap.Values <= instances.Values + made
      {
        ghost var m, t := nextMap, OfList(snapshot[..i]);
        var x := snapshot[i];
        assert snapshot[..i] + [x] == snapshot[..i + 1];
        OfListStep(snapshot[..i], x);
        hide Built, Keyed, Lined, Distinct, OfList, Reuses, EndpointsAre;
        nextMap, nextItems := Extend(nextMap, nextItems, snapshot[..i], x, ends);
        ReusesOneMore(instances, ends, m, t, x, nextMap[x.id]);
        if nextMap[x.id] !in instances.Values { made := made + {nextMap[x.id]}; }
        OneMoreValue(m, x.id, nextMap[x.id]);
      }
      assert snapshot[..|snapshot|] == snapshot;
    }

    /** Rebuilds both from a snapshot, keeping the objects whose endpoint did not change.  Map and slice agree
        afterwards exactly when the snapshot lists no ID twice. */
    method ReplaceLocked(snapshot: seq<Instance>)
      requires Keyed()
      modifies this`instances, this`items, instances.Values
      ensures Keyed() && View() == Cache(OfList(snapshot), revision)
      ensures Valid() <==> Distinct(snapshot)
      ensures Reuses(old(instances), old(Endpoints()), instances, OfList(snapshot))
      ensures forall id :: id in instances ==> instances[id] in old(instances).Values || fresh(instances[id])
    {
      ghost var ends := Endpoints();
      assert EndpointsAre(ends);
      hide OfList, Distinct, Lined, Built, Valid, Keyed, Contents, Reuses, Endpoints, EndpointsAre;
      ghost var made;
      instances, items, made := Rebuild(snapshot, ends);
      forall id | id in instances ensures instances[id] in old(instances).Values || fresh(instances[id]) {
        assert instances[id] in instances.Values;
      }
      RebuiltIsSnapshot(this, snapshot);
    }

    /** The objects now in use are old ones under their old IDs, or new. */
    twostate predicate Keeps()
      reads this
    {
      forall id :: id in instances ==> fresh(instances[id]) || (id in old(instances) && instances[id] == old(instances)[id])
    }

    method ReplaceAt(list: seq<Instance>, r: int)
      requires Valid() && Distinct(list)
      modifies this, instances.Values
      ensures Valid() && View() == Apply(old(View()), Snapshot(list, r)) && Keeps()
    {
      if r < revision { return; }
      assert Keyed() by { assert forall id :: id in instances ==> Filed(id); }
      hide Valid, Keyed, Contents;
      ReplaceLocked(list);
      revision := r;
    }

    method PutAt(instance: Instance, r: int)
      requires Valid()
      modifies this, instances.Values
      ensures Valid() && View() == Apply(old(View()), Put(instance, r)) && Keeps()
    {
      if r < revision { return; }
      hide Valid, Contents;
      PutLocked(instance);
      revision := r;
    }

    method RemoveAt(id: Text, r: int)
      requires Valid()
      modifies this, instances.Values
      ensures Valid() && View() == Apply(old(View()), Delete(id, r)) && Keeps()
    {
      ghost var before := Contents();
      ApplyDelete(before, revision, id, r);
      hide Valid, Contents, Apply, Effect;
      if r < revision { return; }
      RemoveLocked(id);
      assert Contents() == before - {id};
      revision := r;
    }

    method AdvanceRevision(r: int)
      requires Valid()
      modifies this
      ensures Valid() && View() == Apply(old(View()), Advance(r)) && Keeps()
    {
      hide Valid;
      if r > revision { revision := r; }
    }

    method Handle(op: Op)
      requires Valid() && (op.Snapshot? ==> Distinct(op.instances))
      modifies this, instances.Values
      ensures Valid() && View() == Apply(old(View()), op) && Keeps()
    {
      hide Valid, View, Keeps, Apply;
      match op
      case Snapshot(list, r) => ReplaceAt(list, r);
      case Put(instance, r) => PutAt(instance, r);
      case Delete(id, r) => RemoveAt(id, r);
      case Advance(r) => AdvanceRevision(r);
    }

    /** Any sequence of events leaves the cache with the plain map's contents, map and slice in step. */
    method HandleAll(ops: seq<Op>)
      requires Valid() && forall op <- ops :: op.Snapshot? ==> Distinct(op.instances)
      modifies this, instances.Values
      ensures Valid() && View() == ApplyAll(old(View()), ops)
    {
      for i := 0 to |ops|
        invariant Valid() && ApplyAll(old(View()), ops) == ApplyAll(View(), ops[i..])
        invariant Keeps()
      {
        assert ops[i] in ops && ops[i..][0] == ops[i] && ops[i..][1..] == ops[i + 1..];
        hide Valid, View, Apply;
        Handle(ops[i]);
      }
    }
  }

  lemma ApplyDelete(t: Topology, seen: int, id: Text, r: int)
    ensures Apply(Cache(t, seen), Delete(id, r)) == if r < seen then Cache(t, seen) else Cache(t - {id}, r)
  {
  }

  lemma OneMoreValue<K, V>(m: map<K, V>, k: K, v: V)
    ensures m[k := v].Values <= m.Values + {v}
  {
  }

  lemma CountKeys<K, V, W>(a: map<K, V>, b: map<K, W>)
    requires a.Keys == b.Keys
    ensures |a| == |b|
  {
    assert |a| == |a.Keys| && |b| == |b.Keys|;
  }

  lemma RebuiltIsSnapshot(s: ServiceState, list: seq<Instance>)
    requires Built(s.instances, OfList(list)) && |s.items| == |list| && (Distinct(list) ==> Lined(s.instances, s.items, list))
    ensures s.Keyed() && s.Contents() == OfList(list) && (s.Valid() <==> Distinct(list))
  {
    assert s.Contents() == OfList(list);
    ListSize(list);
    CountKeys(s.instances, OfList(list));
    hide OfList, Lined;
    if Distinct(list) { LinedIsValid(s, list); }
  }

  lemma LinedIsValid(s: ServiceState, list: seq<Instance>)
    requires Distinct(list) && Built(s.instances, OfList(list)) && Lined(s.instances, s.items, list)
    ensures s.Valid()
  {
    ListSize(list);
    CountKeys(s.instances, OfList(list));
    forall i | 0 <= i < |s.items| ensures s.At(i) { }
    forall id | id in s.instances ensures s.Filed(id) {
      OfListMember(list, id);
      var k :| 0 <= k < |list| && list[k].id == id;
    }
  }

  lemma {:induction false} OfListMember(list: seq<Instance>, id: Text)
    ensures id in OfList(list) <==> exists k :: 0 <= k < |list| && list[k].id == id
  {
    if list != [] {
      var init, last := list[..|list| - 1], list[|list| - 1];
      OfListMember(init, id);
      assert forall k :: 0 <= k < |init| ==> init[k] == list[k];
      if id in OfList(init) { var k :| 0 <= k < |init| && init[k].id == id; assert list[k].id == id; }
    }
  }

  lemma OfListStep(list: seq<Instance>, next: Instance)
    ensures OfList(list + [next]) == OfList(list)[next.id := next]
    ensures Distinct(list + [next]) ==> Distinct(list) && forall k :: 0 <= k < |list| ==> list[k].id != next.id
  {
    var all := list + [next];
    assert all[..|list|] == list && all[|list|] == next;
    assert forall k :: 0 <= k < |list| ==> list[k] == all[k];
  }

  /** A list has as many entries as its map exactly when no ID repeats. */
  lemma {:induction false} ListSize(list: seq<Instance>)
    ensures |OfList(list)| <= |list| && (|OfList(list)| == |list| <==> Distinct(list))
  {
    if list != [] {
      var init, last := list[..|list| - 1], list[|list| - 1];
      ListSize(init);
      OfListMember(init, last.id);
      var m := OfList(init);
      assert m[last.id := last].Keys == m.Keys + {last.id};
      CountKeys(m, m);
      assert |m[last.id := last]| == |m.Keys + {last.id}|;
      if Distinct(list) { assert forall k :: 0 <= k < |init| ==> init[k].id != last.id; }
      if Distinct(init) && last.id !in m {
        forall i, j | 0 <= i < j < |list| ensures list[i].id != list[j].id {
          if j < |init| { assert init[i] == list[i] && init[j] == list[j]; } else { assert init[i] == list[i]; }
        }
      }
      if Distinct(list) { assert forall i, j :: 0 <= i < j < |init| ==> init[i].id == list[i].id && init[j].id == list[j].id; }
    }
  }

  /** Each entry has the object its ID had before exactly when its endpoint is the one before, else another one. */
  ghost predicate Reuses(before: map<Text, InstanceState>, ends: map<Text, Text>, m: map<Text, InstanceState>, t: Topology) {
    m.Keys == t.Keys &&
    forall id :: id in m ==>
      if id in before && id in ends && ends[id] == t[id].endpoint then m[id] == before[id] else m[id] !in before.Values
  }

  lemma ReusesOneMore(
    before: map<Text, InstanceState>, ends: map<Text, Text>, m: map<Text, InstanceState>, t: Topology, x: Instance, item: InstanceState)
    requires Reuses(before, ends, m, t)
    requires if x.id in before && x.id in ends && ends[x.id] == x.endpoint then item == before[x.id] else item !in before.Values
    ensures Reuses(before, ends, m[x.id := item], t[x.id := x])
  {
  }

  ghost predicate Built(m: map<Text, InstanceState>, t: Topology)
    reads m.Values
  {
    m.Keys == t.Keys && forall id :: id in m ==> m[id].instance == t[id] && t[id].id == id
  }

  /** The objects of a list without repeated IDs, each at its place. */
  ghost predicate Lined(m: map<Text, InstanceState>, items: seq<InstanceState>, list: seq<Instance>)
    reads m.Values, items
  {
    |items| == |list| &&
    forall k :: 0 <= k < |list| ==> list[k].id in m && items[k] == m[list[k].id] && items[k].index == k
  }

  lemma Smaller<K, V>(m: map<K, V>, k: K)
    requires k in m
    ensures |m - {k}| == |m| - 1
  {
    assert (m - {k}).Keys == m.Keys - {k};
    assert |(m - {k}).Keys| == |m - {k}|;
    assert |m.Keys| == |m|;
  }

  // ---------------------------------------------------------------- what the plain map is

  function Max(a: int, b: int): int { if a < b then b else a }

  ghost function MaxRevision(seen: int, ops: seq<Op>): int
    decreases ops
  {
    if ops == [] then seen else MaxRevision(Max(seen, ops[0].revision), ops[1..])
  }

  /** The events whose revision is not below any earlier one. */
  ghost function NotStale(seen: int, ops: seq<Op>): seq<Op>
    decreases ops
  {
    if ops == [] then []
    else if ops[0].revision < seen then NotStale(seen, ops[1..])
    else [ops[0]] + NotStale(ops[0].revision, ops[1..])
  }

  ghost function Fold(t: Topology, ops: seq<Op>): Topology
    decreases ops
  {
    if ops == [] then t else Fold(Effect(t, ops[0]), ops[1..])
  }

  /** The cache is the fold of the events that are not stale, and its revision the greatest seen. */
  lemma {:induction false} CacheIsFold(c: Cache, ops: seq<Op>)
    ensures ApplyAll(c, ops) == Cache(Fold(c.topology, NotStale(c.revision, ops)), MaxRevision(c.revision, ops))
    decreases ops
  {
    if ops != [] {
      CacheIsFold(Apply(c, ops[0]), ops[1..]);
      if ops[0].revision >= c.revision {
        var kept := NotStale(c.revision, ops);
        assert kept[0] == ops[0] && kept[1..] == NotStale(ops[0].revision, ops[1..]);
      }
    }
  }

  ghost predicate InOrder(ops: seq<Op>) { forall i, j :: 0 <= i < j < |ops| ==> ops[i].revision <= ops[j].revision }

  /** Events delivered in revision order are never dropped. */
  lemma {:induction false} InOrderNothingDropped(seen: int, ops: seq<Op>)
    requires InOrder(ops) && forall op <- ops :: seen <= op.revision
    ensures NotStale(seen, ops) == ops
    decreases ops
  {
    if ops != [] {
      assert ops[0] in ops;
      forall op | op in ops[1..] ensures ops[0].revision <= op.revision { var k :| 0 <= k < |ops[1..]| && ops[1..][k] == op; assert ops[k + 1] == op; }
      InOrderNothingDropped(ops[0].revision, ops[1..]);
    }
  }

  // ---------------------------------------------------------------- each entry is its last event

  /** The event is not below any earlier one nor below the revision the cache started at. */
  ghost predicate Current(c: Cache, ops: seq<Op>, i: nat)
    requires i < |ops|
  {
    c.revision <= ops[i].revision && forall j :: 0 <= j < i ==> ops[j].revision <= ops[i].revision
  }

  ghost predicate Concerns(op: Op, id: Text) {
    match op
    case Snapshot(_, _) => true
    case Put(instance, _) => instance.id == id
    case Delete(x, _) => x == id
    case Advance(_) => false
  }

  ghost predicate Decides(c: Cache, ops: seq<Op>, i: nat, id: Text) { i < |ops| && Current(c, ops, i) && Concerns(ops[i], id) }

  /** The last entry of a list for this ID. */
  ghost predicate LastOf(list: seq<Instance>, k: nat, id: Text) {
    k < |list| && list[k].id == id && forall j :: k < j < |list| ==> list[j].id != id
  }

  /** What the event says about the ID. */
  ghost predicate Says(op: Op, id: Text, t: Topology) {
    match op
    case Snapshot(list, _) =>
      (id in t <==> exists k :: 0 <= k < |list| && list[k].id == id) && forall k: nat :: LastOf(list, k, id) ==> id in t && t[id] == list[k]
    case Put(instance, _) => id in t && t[id] == instance
    case Delete(_, _) => id !in t
    case Advance(_) => true
  }

  lemma {:induction false} OfListLast(list: seq<Instance>, k: nat, id: Text)
    requires LastOf(list, k, id)
    ensures id in OfList(list) && OfList(list)[id] == list[k]
  {
    var n := |list| - 1;
    if k < n { OfListLast(list[..n], k, id); }
  }

  lemma EffectSays(t: Topology, op: Op, id: Text)
    ensures if Concerns(op, id) then Says(op, id, Effect(t, op)) else (id in Effect(t, op) <==> id in t) && (id in t ==> Effect(t, op)[id] == t[id])
  {
    if op.Snapshot? {
      OfListMember(op.instances, id);
      forall k: nat | LastOf(op.instances, k, id) ensures id in OfList(op.instances) && OfList(op.instances)[id] == op.instances[k] {
        OfListLast(op.instances, k, id);
      }
    }
  }

  lemma {:induction false} ApplyLast(c: Cache, ops: seq<Op>, op: Op)
    ensures ApplyAll(c, ops + [op]) == Apply(ApplyAll(c, ops), op)
    decreases ops
  {
    if ops == [] {
      assert ops + [op] == [op] && [op][1..] == [];
      assert ApplyAll(Apply(c, op), []) == Apply(c, op);
    } else {
      assert (ops + [op])[0] == ops[0] && (ops + [op])[1..] == ops[1..] + [op];
      ApplyLast(Apply(c, ops[0]), ops[1..], op);
    }
  }

  /** The revision is the greatest seen. */
  lemma {:induction false} RevisionIsGreatest(c: Cache, ops: seq<Op>, r: int)
    ensures ApplyAll(c, ops).revision <= r <==> c.revision <= r && forall i :: 0 <= i < |ops| ==> ops[i].revision <= r
    decreases ops
  {
    if ops != [] {
      var n := |ops| - 1;
      assert ops == ops[..n] + [ops[n]];
      ApplyLast(c, ops[..n], ops[n]);
      RevisionIsGreatest(c, ops[..n], r);
      RevisionIsGreatest(c, ops[..n], ops[n].revision);
      hide ApplyAll, Effect;
      assert forall i :: 0 <= i < n ==> ops[i] == ops[..n][i];
    }
  }

  ghost predicate Agree(t: Topology, t': Topology, id: Text) { (id in t <==> id in t') && (id in t ==> t'[id] == t[id]) }

  /** One more event decides the entry, or leaves it. */
  lemma LastEvent(c: Cache, before: seq<Op>, last: Op, id: Text)
    ensures var ops := before + [last];
            var t, t' := ApplyAll(c, before).topology, ApplyAll(c, ops).topology;
            if Decides(c, ops, |before|, id) then Says(last, id, t') else Agree(t, t', id)
  {
    var ops := before + [last];
    ApplyLast(c, before, last);
    RevisionIsGreatest(c, before, last.revision);
    EffectSays(ApplyAll(c, before).topology, last, id);
    assert forall j :: 0 <= j < |before| ==> ops[j] == before[j];
    hide ApplyAll, Effect, Concerns, OfList, Says;
  }

  lemma SameDecisions(c: Cache, ops: seq<Op>, n: nat, i: nat, id: Text)
    requires i < n <= |ops|
    ensures Decides(c, ops, i, id) <==> Decides(c, ops[..n], i, id)
  {
    assert forall j :: 0 <= j <= i ==> ops[j] == ops[..n][j];
  }

  /** Whatever events come in whatever order, the entry of each ID is what the last event about it says that
      is not below an earlier one: the instance put, nothing after a delete, and after a snapshot its last
      entry for the ID or nothing. */
  lemma {:induction false} EntryIsLastEvent(c: Cache, ops: seq<Op>, i: nat, id: Text)
    requires Decides(c, ops, i, id) && forall j: nat :: i < j ==> !Decides(c, ops, j, id)
    ensures Says(ops[i], id, ApplyAll(c, ops).topology)
    decreases |ops|
  {
    var n := |ops| - 1;
    assert ops == ops[..n] + [ops[n]];
    LastEvent(c, ops[..n], ops[n], id);
    if i < n {
      SameDecisions(c, ops, n, i, id);
      forall j: nat | i < j ensures !Decides(c, ops[..n], j, id) { if j < n { SameDecisions(c, ops, n, j, id); } }
      EntryIsLastEvent(c, ops[..n], i, id);
      hide ApplyAll, Current, Concerns;
    }
  }

  /** Without such an event it is the entry from before. */
  lemma {:induction false} EntryStays(c: Cache, ops: seq<Op>, id: Text)
    requires forall j: nat :: !Decides(c, ops, j, id)
    ensures Agree(c.topology, ApplyAll(c, ops).topology, id)
    decreases |ops|
  {
    if ops != [] {
      var n := |ops| - 1;
      assert ops == ops[..n] + [ops[n]];
      LastEvent(c, ops[..n], ops[n], id);
      forall j: nat ensures !Decides(c, ops[..n], j, id) { if j < n { SameDecisions(c, ops, n, j, id); } }
      EntryStays(c, ops[..n], id);
      hide ApplyAll, Decides;
    }
  }
}
