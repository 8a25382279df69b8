/** Backend endpoints, their mutable state, and snapshots of the backends in use. */
module Backend {
  import opened Wrappers
  import opened Ewma

  datatype Endpoint = Endpoint(id: string, url: string)

  /** What can be read off one backend state at one moment. */
  datatype BackendView = BackendView(
    endpoint: Endpoint,
    inflight: int,
    healthy: bool,
    healthFailures: nat,
    requestsTotal: nat,
    errorsTotal: nat,
    selectedTotal: nat,
    latency: real,
    errorRate: real)

  function NewView(endpoint: Endpoint): BackendView {
    BackendView(endpoint, 0, false, 0, 0, 0, 0, 0.0, 0.0)
  }

  class BackendState {
    const endpoint: Endpoint
    var inflight: int
    var healthy: bool
    var healthFailures: nat
    var requestsTotal: nat
    var errorsTotal: nat
    var selectedTotal: nat
    const latency: Value
    const errorRate: Value

    ghost predicate Valid() {
      && latency != errorRate
      && latency.alpha == errorRate.alpha == DEFAULT_ALPHA
    }

    function View(): BackendView
      reads this, latency, errorRate
    {
      BackendView(endpoint, inflight, healthy, healthFailures, requestsTotal, errorsTotal, selectedTotal,
                   latency.Get(), errorRate.Get())
    }

    constructor (endpoint: Endpoint)
      ensures Valid() && View() == NewView(endpoint)
      ensures fresh(latency) && fresh(errorRate)
    {
      var l := new Value.WithAlpha(DEFAULT_ALPHA);
      var e := new Value.WithAlpha(DEFAULT_ALPHA);
      this.endpoint := endpoint;
      inflight, healthy, healthFailures := 0, false, 0;
      requestsTotal, errorsTotal, selectedTotal := 0, 0, 0;
      latency, errorRate := l, e;
    }
  }

  /** `list` in order; `byId` finds the last one listed under an ID. */
  datatype Snapshot<T> = Snapshot(list: seq<T>, byId: map<string, T>)

  function IndexById<T>(ids: seq<string>, items: seq<T>): map<string, T>
    requires |ids| == |items|
  {
    if items == [] then map[]
    else
      var n := |items| - 1;
      IndexById(ids[..n], items[..n])[ids[n] := items[n]]
  }

  /** The last position of an ID. */
  function LastIndex(ids: seq<string>, id: string): Option<nat> {
    if ids == [] then None
    else
      var n := |ids| - 1;
      if ids[n] == id then Some(n) else LastIndex(ids[..n], id)
  }

  lemma {:induction false} LastIndexIsLast(ids: seq<string>, id: string)
    ensures match LastIndex(ids, id)
            case None => id !in ids
            case Some(k) => k < |ids| && ids[k] == id && forall i | k < i < |ids| :: ids[i] != id
  {
    if ids != [] && ids[|ids| - 1] != id {
      LastIndexIsLast(ids[..|ids| - 1], id);
    }
  }

  /** Looking an ID up in a snapshot finds the last item listed under it. */
  lemma {:induction false} IndexFindsLast<T>(ids: seq<string>, items: seq<T>, id: string)
    requires |ids| == |items|
    ensures var byId := IndexById(ids, items);
            match LastIndex(ids, id)
            case None => id !in byId
            case Some(k) => k < |items| && id in byId && byId[id] == items[k]
  {
    if items == [] {
    } else {
      var n := |items| - 1;
      IndexFindsLast(ids[..n], items[..n], id);
    }
  }

  ghost predicate Distinct<T>(s: seq<T>) {
    forall i, j | 0 <= i < j < |s| :: s[i] != s[j]
  }

  /** With distinct IDs, the index is a bijection with the list. */
  lemma {:induction false} DistinctIdsIndexAll<T>(ids: seq<string>, items: seq<T>)
    requires |ids| == |items| && Distinct(ids)
    ensures var byId := IndexById(ids, items);
            && (forall i | 0 <= i < |ids| :: ids[i] in byId && byId[ids[i]] == items[i])
            && (forall id :: id in byId ==> id in ids)
            && (Distinct(items) ==> forall a, b | a in byId && b in byId && a != b :: byId[a] != byId[b])
  {
    var byId := IndexById(ids, items);
    forall i | 0 <= i < |ids| ensures ids[i] in byId && byId[ids[i]] == items[i] {
      IndexFindsLast(ids, items, ids[i]);
      LastIndexIsLast(ids, ids[i]);
    }
    forall id | id in byId ensures id in ids {
      IndexFindsLast(ids, items, id);
      LastIndexIsLast(ids, id);
    }
  }

  function EndpointIds(endpoints: seq<Endpoint>): seq<string> {
    seq(|endpoints|, i requires 0 <= i < |endpoints| => endpoints[i].id)
  }

  function StateIds(states: seq<BackendState>): seq<string> {
    seq(|states|, i requires 0 <= i < |states| => states[i].endpoint.id)
  }

  /** Missing states are skipped. */
  function Present(states: seq<BackendState?>): seq<BackendState> {
    if states == [] then []
    else
      var n := |states| - 1;
      var before := Present(states[..n]);
      if states[n] == null then before else before + [states[n]]
  }

  lemma IndexOneMore(list: seq<BackendState>, state: BackendState)
    ensures IndexById(StateIds(list + [state]), list + [state])
         == IndexById(StateIds(list), list)[state.endpoint.id := state]
  {
    assert StateIds(list + [state])[..|list|] == StateIds(list);
    assert (list + [state])[..|list|] == list;
  }

  method NewBackendSnapshot(states: seq<BackendState?>) returns (s: Snapshot<BackendState>)
    ensures s == Snapshot(Present(states), IndexById(StateIds(Present(states)), Present(states)))
  {
    var byId: map<string, BackendState>, list: seq<BackendState> := map[], [];
    for i := 0 to |states|
      invariant list == Present(states[..i])
      invariant byId == IndexById(StateIds(list), list)
    {
      assert states[..i + 1][..i] == states[..i];
      var state := states[i];
      if state == null {
        continue;
      }
      IndexOneMore(list, state);
      list := list + [state];
      byId := byId[state.endpoint.id := state];
    }
    assert states[..|states|] == states;
    s := Snapshot(list, byId);
  }
}
