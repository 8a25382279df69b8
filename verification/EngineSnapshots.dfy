/** Snapshots over changes of the backend set: which objects survive an update. */
module EngineSnapshots {
  import opened Wrappers
  import opened Backend
  import opened Scheduler
  import opened Engine
  import opened EngineObjects

  /** The list is of objects for `endpoints`, in order, and IDs lead to their last
      listing. */
  ghost predicate Shows(s: System, endpoints: seq<Endpoint>) {
    && |s.snapshot.list| == |endpoints|
    && (forall k | 0 <= k < |endpoints| ::
          s.snapshot.list[k] < |s.objects| && s.objects[s.snapshot.list[k]].view.endpoint == endpoints[k])
    && s.snapshot.byId == IndexById<nat>(EndpointIds(endpoints), s.snapshot.list)
  }

  lemma UpdateShows(s: System, endpoints: seq<Endpoint>)
    ensures Shows(Updated(s, endpoints), endpoints)
  {
    CollectMeans(s.objects, s.snapshot.byId, endpoints);
    var c := Collect(s.objects, s.snapshot.byId, endpoints);
    forall k | 0 <= k < |endpoints|
      ensures c.list[k] < |c.objects| && c.objects[c.list[k]].view.endpoint == endpoints[k]
    {
      assert ListsEndpoint(s.objects, s.snapshot.byId, c, k, endpoints[k]);
    }
  }

  /** No step but an update touches the snapshot, and none changes an endpoint. */
  lemma StepKeepsSnapshot(params: Params, s: System, step: Step)
    requires Shape(s) && Enabled(params, s, step)
    ensures var t := Perform(params, s, step);
            && (!step.Update? ==> t.snapshot == s.snapshot && |t.objects| == |s.objects|)
            && |s.objects| <= |t.objects|
            && (forall o | 0 <= o < |s.objects| :: t.objects[o].view.endpoint == s.objects[o].view.endpoint)
  {
    var t := Perform(params, s, step);
    match step
    case Update(endpoints) =>
      UpdatedShape(s, endpoints);
      assert forall o | 0 <= o < |s.objects| :: t.objects[o] == t.objects[..|s.objects|][o];
    case Select(body, at, order) => SelectedAdds(params, s, body, at, order);
    case _ =>
  }

  /** The endpoints last announced. */
  function Announced(endpoints: seq<Endpoint>, steps: seq<Step>): seq<Endpoint> {
    if steps == [] then endpoints
    else
      var n := |steps| - 1;
      if steps[n].Update? then steps[n].endpoints else Announced(endpoints, steps[..n])
  }

  /** In every reachable state the snapshot shows the endpoints last announced; with
      distinct IDs, IDs and listed objects correspond one to one. */
  lemma {:induction false} SnapshotMatchesAnnouncement(params: Params, endpoints: seq<Endpoint>, steps: seq<Step>)
    requires Run(params, endpoints, steps).Some?
    ensures Shows(Run(params, endpoints, steps).value, Announced(endpoints, steps))
  {
    if steps == [] {
      UpdateShows(Empty(params), endpoints);
    } else {
      var n := |steps| - 1;
      var s := Run(params, endpoints, steps[..n]).value;
      RunShape(params, endpoints, steps[..n]);
      SnapshotMatchesAnnouncement(params, endpoints, steps[..n]);
      StepKeepsSnapshot(params, s, steps[n]);
      if steps[n].Update? {
        UpdateShows(s, steps[n].endpoints);
      }
    }
  }

  lemma SnapshotIsBijective(s: System, endpoints: seq<Endpoint>)
    requires Shows(s, endpoints) && Distinct(EndpointIds(endpoints))
    ensures Distinct(s.snapshot.list)
    ensures forall k | 0 <= k < |endpoints| ::
              endpoints[k].id in s.snapshot.byId && s.snapshot.byId[endpoints[k].id] == s.snapshot.list[k]
    ensures forall id | id in s.snapshot.byId :: id in EndpointIds(endpoints)
    ensures forall a, b | a in s.snapshot.byId && b in s.snapshot.byId && a != b :: s.snapshot.byId[a] != s.snapshot.byId[b]
  {
    var ids := EndpointIds(endpoints);
    forall i, j | 0 <= i < j < |endpoints| ensures s.snapshot.list[i] != s.snapshot.list[j] {
      assert ids[i] != ids[j];
    }
    DistinctIdsIndexAll(ids, s.snapshot.list);
    forall k | 0 <= k < |endpoints|
      ensures endpoints[k].id in s.snapshot.byId && s.snapshot.byId[endpoints[k].id] == s.snapshot.list[k]
    {
      assert ids[k] == endpoints[k].id;
    }
  }

  /******* Identity *******/

  /** `e` is known under its ID, by object `o`. */
  ghost predicate KnownBy(s: System, e: Endpoint, o: nat) {
    && e.id in s.snapshot.byId && s.snapshot.byId[e.id] == o
    && o < |s.objects| && s.objects[o].view.endpoint == e
  }

  /** `e` is the last endpoint listed under its ID. */
  predicate ListedLast(endpoints: seq<Endpoint>, e: Endpoint) {
    var k := LastIndex(EndpointIds(endpoints), e.id);
    k.Some? && k.value < |endpoints| && endpoints[k.value] == e
  }

  lemma DistinctListsLast(endpoints: seq<Endpoint>, e: Endpoint)
    requires Distinct(EndpointIds(endpoints)) && e in endpoints
    ensures ListedLast(endpoints, e)
  {
    var ids := EndpointIds(endpoints);
    var i :| 0 <= i < |endpoints| && endpoints[i] == e;
    assert ids[i] == e.id;
    LastIndexIsLast(ids, e.id);
  }

  /** An update knows `e` if and only if it lists `e` last under its ID; then an object that
      knew `e` before knows it still. */
  lemma UpdateKnows(s: System, endpoints: seq<Endpoint>, e: Endpoint)
    ensures var t := Updated(s, endpoints);
            (exists o :: KnownBy(t, e, o)) <==> ListedLast(endpoints, e)
    ensures forall o | KnownBy(s, e, o) :: KnownBy(Updated(s, endpoints), e, o) <==> ListedLast(endpoints, e)
  {
    var t, ids := Updated(s, endpoints), EndpointIds(endpoints);
    UpdateShows(s, endpoints);
    LastIndexIsLast(ids, e.id);
    IndexFindsLast(ids, t.snapshot.list, e.id);
    if ListedLast(endpoints, e) {
      var k := LastIndex(ids, e.id).value;
      CollectMeans(s.objects, s.snapshot.byId, endpoints);
      assert ListsEndpoint(s.objects, s.snapshot.byId, Collect(s.objects, s.snapshot.byId, endpoints), k, e);
      assert KnownBy(t, e, t.snapshot.list[k]);
    }
  }

  lemma StepRetains(params: Params, s: System, step: Step, e: Endpoint, o: nat)
    requires Shape(s) && Enabled(params, s, step) && KnownBy(s, e, o)
    ensures KnownBy(Perform(params, s, step), e, o) <==> (step.Update? ==> ListedLast(step.endpoints, e))
  {
    StepKeepsSnapshot(params, s, step);
    if step.Update? {
      UpdateKnows(s, step.endpoints, e);
    }
  }

  /** Object `o` knows `e` at every moment of a run. */
  ghost predicate KnownThroughout(params: Params, endpoints: seq<Endpoint>, steps: seq<Step>, e: Endpoint, o: nat)
    requires Run(params, endpoints, steps).Some?
  {
    && KnownBy(Run(params, endpoints, steps).value, e, o)
    && (steps != [] ==> KnownThroughout(params, endpoints, steps[..|steps| - 1], e, o))
  }

  /** Every announcement lists `e` last under its ID. */
  predicate AlwaysListedLast(steps: seq<Step>, e: Endpoint) {
    forall i | 0 <= i < |steps| && steps[i].Update? :: ListedLast(steps[i].endpoints, e)
  }

  lemma AlwaysOneMore(steps: seq<Step>, e: Endpoint)
    requires steps != []
    ensures var n := |steps| - 1;
            AlwaysListedLast(steps, e) <==>
              AlwaysListedLast(steps[..n], e) && (steps[n].Update? ==> ListedLast(steps[n].endpoints, e))
  {
    var n := |steps| - 1;
    assert forall i | 0 <= i < n :: steps[..n][i] == steps[i];
  }

  lemma {:induction false} ThroughoutMeans(params: Params, endpoints: seq<Endpoint>, steps: seq<Step>, e: Endpoint, o: nat)
    requires Run(params, endpoints, steps).Some? && KnownBy(Init(params, endpoints), e, o)
    ensures KnownThroughout(params, endpoints, steps, e, o) <==> AlwaysListedLast(steps, e)
    ensures AlwaysListedLast(steps, e) ==> KnownBy(Run(params, endpoints, steps).value, e, o)
  {
    if steps == [] {
    } else {
      var n := |steps| - 1;
      ThroughoutMeans(params, endpoints, steps[..n], e, o);
      AlwaysOneMore(steps, e);
      if AlwaysListedLast(steps[..n], e) {
        RunShape(params, endpoints, steps[..n]);
        StepRetains(params, Run(params, endpoints, steps[..n]).value, steps[n], e, o);
      }
    }
  }

  /** Snapshot identity.  An endpoint that the initial list lists last under its ID keeps one
      and the same object through the whole run, whatever else happens, if and only if every
      announcement does so too.  With distinct IDs it is enough to be named. */
  lemma {:induction false} IdentityOverChurn(params: Params, endpoints: seq<Endpoint>, steps: seq<Step>, e: Endpoint)
    requires Run(params, endpoints, steps).Some? && ListedLast(endpoints, e)
    ensures e.id in Init(params, endpoints).snapshot.byId
    ensures KnownThroughout(params, endpoints, steps, e, Init(params, endpoints).snapshot.byId[e.id]) <==> AlwaysListedLast(steps, e)
  {
    UpdateKnows(Empty(params), endpoints, e);
    ThroughoutMeans(params, endpoints, steps, e, Init(params, endpoints).snapshot.byId[e.id]);
  }

  /******* Repeated updates *******/

  /** Endpoints that share an ID are the same endpoint. */
  ghost predicate IdsAgree(endpoints: seq<Endpoint>) {
    forall i, j | 0 <= i < |endpoints| && 0 <= j < |endpoints| && endpoints[i].id == endpoints[j].id ::
      endpoints[i] == endpoints[j]
  }

  lemma ReuseAfterShows(s: System, endpoints: seq<Endpoint>, i: nat)
    requires Shows(s, endpoints) && i < |endpoints|
    ensures var last := LastIndex(EndpointIds(endpoints), endpoints[i].id);
            && last.Some? && last.value < |endpoints| && i <= last.value
            && endpoints[last.value].id == endpoints[i].id
            && Reuse(s.objects, s.snapshot.byId, endpoints[i])
               == if endpoints[last.value] == endpoints[i] then Some(s.snapshot.list[last.value]) else None
  {
    var ids := EndpointIds(endpoints);
    assert ids[i] == endpoints[i].id;
    LastIndexIsLast(ids, endpoints[i].id);
    IndexFindsLast(ids, s.snapshot.list, endpoints[i].id);
  }

  /** Announcing again what is already shown creates no object if endpoints that share an ID
      are equal.  Otherwise every repetition creates objects, and those are new: unhealthy,
      with nothing recorded. */
  lemma RepeatedUpdateCreates(s: System, endpoints: seq<Endpoint>)
    requires Shape(s) && Shows(s, endpoints)
    ensures var t := Updated(s, endpoints);
            && Shows(t, endpoints)
            && Extends(s.objects, t.objects)
            && (if IdsAgree(endpoints) then t.objects == s.objects else |t.objects| > |s.objects|)
            && (forall o | |s.objects| <= o < |t.objects| :: t.objects[o] == NewObject(t.objects[o].view.endpoint))
  {
    UpdateShows(s, endpoints);
    UpdatedShape(s, endpoints);
    CollectCreates(s.objects, s.snapshot.byId, endpoints);
    forall i | 0 <= i < |endpoints|
      ensures var last := LastIndex(EndpointIds(endpoints), endpoints[i].id);
              last.Some? && last.value < |endpoints| && endpoints[last.value].id == endpoints[i].id
              && (Reuse(s.objects, s.snapshot.byId, endpoints[i]).Some? <==> endpoints[last.value] == endpoints[i])
    {
      ReuseAfterShows(s, endpoints, i);
    }
  }

  /** Every listing leads, by its ID, to itself. */
  ghost predicate FindsItself(s: System, endpoints: seq<Endpoint>)
    requires Shows(s, endpoints)
  {
    forall k | 0 <= k < |endpoints| ::
      endpoints[k].id in s.snapshot.byId && s.snapshot.byId[endpoints[k].id] == s.snapshot.list[k]
  }

  lemma KeptInPlace(s: System, endpoints: seq<Endpoint>, k: nat)
    requires Shows(s, endpoints) && k < |endpoints| && endpoints[k].id in s.snapshot.byId
    requires s.snapshot.byId[endpoints[k].id] == s.snapshot.list[k]
    ensures Reuse(s.objects, s.snapshot.byId, endpoints[k]) == Some(s.snapshot.list[k])
  {
  }

  lemma MovedInPlace(s: System, endpoints: seq<Endpoint>, k: nat)
    requires Shows(s, endpoints) && k < |endpoints|
    requires var list := Updated(s, endpoints).snapshot.list; k < |list| && list[k] == s.snapshot.list[k]
    ensures endpoints[k].id in s.snapshot.byId && s.snapshot.byId[endpoints[k].id] == s.snapshot.list[k]
  {
    CollectMeans(s.objects, s.snapshot.byId, endpoints);
    ReuseAfterShows(s, endpoints, k);
    assert ListsEndpoint(s.objects, s.snapshot.byId, Collect(s.objects, s.snapshot.byId, endpoints), k, endpoints[k]);
  }

  lemma DistinctFindItself(s: System, endpoints: seq<Endpoint>)
    requires Shows(s, endpoints) && Distinct(EndpointIds(endpoints))
    ensures FindsItself(s, endpoints)
  {
    SnapshotIsBijective(s, endpoints);
  }

  /** Announcing again what is already shown changes nothing at all if and only if every
      listing leads, by its ID, to itself, as it does when IDs are distinct. */
  lemma RepeatedUpdateIsNoOp(s: System, endpoints: seq<Endpoint>)
    requires Shows(s, endpoints)
    ensures Updated(s, endpoints) == s <==> FindsItself(s, endpoints)
    ensures Distinct(EndpointIds(endpoints)) ==> Updated(s, endpoints) == s
  {
    var c := Collect(s.objects, s.snapshot.byId, endpoints);
    CollectMeans(s.objects, s.snapshot.byId, endpoints);
    CollectCreates(s.objects, s.snapshot.byId, endpoints);
    if Distinct(EndpointIds(endpoints)) {
      DistinctFindItself(s, endpoints);
    }
    if FindsItself(s, endpoints) {
      forall k | 0 <= k < |endpoints|
        ensures Reuse(s.objects, s.snapshot.byId, endpoints[k]).Some? && c.list[k] == s.snapshot.list[k]
      {
        KeptInPlace(s, endpoints, k);
        assert ListsEndpoint(s.objects, s.snapshot.byId, c, k, endpoints[k]);
      }
      assert c.objects == s.objects && c.list == s.snapshot.list;
    }
    if Updated(s, endpoints) == s {
      forall k | 0 <= k < |endpoints|
        ensures endpoints[k].id in s.snapshot.byId && s.snapshot.byId[endpoints[k].id] == s.snapshot.list[k]
      {
        MovedInPlace(s, endpoints, k);
      }
    }
  }

  /******* Two endpoints under one ID *******/

  lemma CollectTwo(objects: seq<Object>, byId: map<string, nat>, a: Endpoint, b: Endpoint)
    ensures Collect(objects, byId, [a, b])
         == (var first := match Reuse(objects, byId, a)
                          case Some(o) => Collected(objects, [o])
                          case None => Collected(objects + [NewObject(a)], [|objects|]);
             match Reuse(objects, byId, b)
             case Some(o) => Collected(first.objects, first.list + [o])
             case None => Collected(first.objects + [NewObject(b)], first.list + [|first.objects|]))
  {
    assert [a, b][..1] == [a] && [a][..0] == [];
    assert Collect(objects, byId, [a]) == match Reuse(objects, byId, a)
                                          case Some(o) => Collected(objects, [o])
                                          case None => Collected(objects + [NewObject(a)], [|objects|]);
  }

  lemma IndexTwo(a: Endpoint, b: Endpoint, list: seq<nat>)
    requires a.id == b.id && |list| == 2
    ensures IndexById<nat>(EndpointIds([a, b]), list) == map[b.id := list[1]]
  {
    var ids := EndpointIds([a, b]);
    assert IndexById<nat>(ids[..1], list[..1]) == map[a.id := list[0]];
  }

  /** One ID with two URLs, announced twice: the second time there is a third object, which
      takes the place of the first and is unhealthy. */
  lemma TwoUrls(params: Params, a: Endpoint, b: Endpoint)
    requires a.id == b.id && a != b
    ensures var s := Run(params, [a, b], [Update([a, b])]);
            && Init(params, [a, b]).snapshot.list == [0, 1]
            && s.Some? && s.value.snapshot.list == [2, 1] && |s.value.objects| == 3
            && s.value.objects[2] == NewObject(a)
  {
    CollectTwo([], map[], a, b);
    var i := Init(params, [a, b]);
    IndexTwo(a, b, i.snapshot.list);
    CollectTwo(i.objects, i.snapshot.byId, a, b);
    InitShape(params, [a, b]);
    assert [Update([a, b])][..0] == [];
    assert Run(params, [a, b], []) == Some(i);
  }

  /** One endpoint listed twice, announced twice: no object is created, and yet the list
      changes. */
  lemma ListedTwice(params: Params, a: Endpoint)
    ensures var s := Run(params, [a, a], [Update([a, a])]);
            && Init(params, [a, a]).snapshot.list == [0, 1]
            && s.Some? && s.value.snapshot.list == [1, 1] && s.value.objects == Init(params, [a, a]).objects
  {
    CollectTwo([], map[], a, a);
    var i := Init(params, [a, a]);
    IndexTwo(a, a, i.snapshot.list);
    CollectTwo(i.objects, i.snapshot.byId, a, a);
    InitShape(params, [a, a]);
    assert [Update([a, a])][..0] == [];
    assert Run(params, [a, a], []) == Some(i);
  }
}
