/**
 The router object.  Its methods change counters, the snapshot and the index in place;
 each is proved to take one step of `Engine`, kept in the ghost field `sys`.
 */
module Routing {
  import opened Wrappers
  import opened Ewma
  import opened Backend
  import opened Prefix
  import opened PrefixIndex
  import opened PrefixHistory
  import opened Rotation
  import opened Scheduler
  import opened RequestText
  import opened Engine
  import opened EngineObjects
  import opened EngineSnapshots
  import opened EngineTrace

  /** No two states share an object. */
  ghost predicate Separate(states: seq<BackendState>) {
    && (forall i | 0 <= i < |states| :: states[i].Valid())
    && (forall i, j | 0 <= i < j < |states| ::
          && states[i] != states[j]
          && states[i].latency != states[j].latency && states[i].errorRate != states[j].errorRate
          && states[i].latency != states[j].errorRate && states[i].errorRate != states[j].latency)
  }

  /** The states look like the objects of the model. */
  ghost predicate Represents(states: seq<BackendState>, objects: seq<Object>)
    reads set s | s in states, set s | s in states :: s.latency, set s | s in states :: s.errorRate
  {
    && |states| == |objects|
    && Separate(states)
    && forall i | 0 <= i < |states| :: states[i].View() == objects[i].view
  }

  /** A snapshot of states stands for a snapshot of their numbers. */
  ghost predicate Stands(states: seq<BackendState>, s: Snapshot<BackendState>, t: Snapshot<nat>) {
    && |s.list| == |t.list|
    && (forall k | 0 <= k < |t.list| :: t.list[k] < |states| && s.list[k] == states[t.list[k]])
    && s.byId.Keys == t.byId.Keys
    && (forall id | id in t.byId :: t.byId[id] < |states| && s.byId[id] == states[t.byId[id]])
  }

  /** Adding a state that shares nothing with the others. */
  lemma RepresentsOneMore(states: seq<BackendState>, objects: seq<Object>, state: BackendState, e: Endpoint)
    requires Represents(states, objects) && state.Valid() && state.View() == NewView(e)
    requires forall s | s in states :: s != state && s.latency != state.latency && s.latency != state.errorRate
                                       && s.errorRate != state.latency && s.errorRate != state.errorRate
    ensures Represents(states + [state], objects + [NewObject(e)])
  {
  }

  lemma {:induction false} IndexStands(states: seq<BackendState>, ids: seq<string>, list: seq<nat>, items: seq<BackendState>)
    requires |ids| == |list| == |items|
    requires forall k | 0 <= k < |list| :: list[k] < |states| && items[k] == states[list[k]]
    ensures IndexById(ids, items).Keys == IndexById<nat>(ids, list).Keys
    ensures forall id | id in IndexById<nat>(ids, list) ::
              IndexById<nat>(ids, list)[id] < |states| && IndexById(ids, items)[id] == states[IndexById<nat>(ids, list)[id]]
  {
    if ids == [] {
    } else {
      var n := |ids| - 1;
      IndexStands(states, ids[..n], list[..n], items[..n]);
    }
  }

  lemma StandsFinds(states: seq<BackendState>, s: Snapshot<BackendState>, t: Snapshot<nat>, vs: seq<BackendView>)
    requires Stands(states, s, t) && |t.list| == |vs| && t.byId == IndexById<nat>(Ids(vs), t.list)
    ensures Finds(s, vs)
  {
    forall id ensures FindsId(s, vs, id) {
      IndexFindsLast<nat>(Ids(vs), t.list, id);
    }
  }

  lemma ListingIds(created: seq<BackendState>, states: seq<BackendState>, list: seq<nat>, endpoints: seq<Endpoint>)
    requires Listing(created, states, list, endpoints) && |states| == |endpoints|
    ensures StateIds(states) == EndpointIds(endpoints)
  {
  }

  /** A snapshot made of listed states stands for the model's snapshot of that list. */
  lemma ListingStands(created: seq<BackendState>, states: seq<BackendState>, list: seq<nat>, endpoints: seq<Endpoint>)
    requires Listing(created, states, list, endpoints) && |states| == |endpoints|
    ensures Stands(created, Snapshot(states, IndexById(StateIds(states), states)),
                   Snapshot(list, IndexById<nat>(EndpointIds(endpoints), list)))
  {
    ListingIds(created, states, list, endpoints);
    IndexStands(created, EndpointIds(endpoints), list, states);
  }

  /** What a selection hands to its caller. */
  ghost predicate Handed(states: seq<BackendState>, q: Engine.Request, selected: BackendState?, prints: seq<Fingerprint>, error: Option<Error>) {
    match q
    case Chosen(o, ps) => o < |states| && selected == states[o] && prints == ps && error == None
    case Rejected(e) => selected == null && error == Some(e)
    case _ => false
  }

  /** What a scan of the listed states comes to. */
  ghost predicate Reports(list: seq<BackendState>, picked: Picked, selected: BackendState?, error: Option<Error>) {
    match picked
    case Found(p) => p < |list| && selected == list[p] && error == None
    case Nobody => selected == null && error == Some(NoHealthyBackends)
    case OutOfRange => selected == null && error == Some(IndexOutOfRange)
  }

  lemma OutcomeIsHanded(states: seq<BackendState>, b: Snapshot<BackendState>, s: System, picked: Picked,
                        selected: BackendState?, prints: seq<Fingerprint>, error: Option<Error>)
    requires Stands(states, b, s.snapshot) && Reports(b.list, picked, selected, error)
    ensures Handed(states, Outcome(s, picked, prints), selected, prints, error)
  {
  }

  function ScanError(selected: BackendState?, panics: bool): Option<Error> {
    if panics then Some(IndexOutOfRange) else if selected == null then Some(NoHealthyBackends) else None
  }

  lemma {:induction false} AllPresent(states: seq<BackendState>)
    ensures Present(states) == states
  {
    if states == [] {
    } else {
      AllPresent(states[..|states| - 1]);
    }
  }

  ghost predicate Listing(created: seq<BackendState>, states: seq<BackendState>, list: seq<nat>, endpoints: seq<Endpoint>) {
    && |states| == |list| <= |endpoints|
    && forall k | 0 <= k < |list| ::
         list[k] < |created| && states[k] == created[list[k]] && states[k].endpoint == endpoints[k]
  }

  lemma ListOneMore(before: seq<BackendState>, created: seq<BackendState>, states: seq<BackendState>, list: seq<nat>,
                    endpoints: seq<Endpoint>, o: nat)
    requires Listing(before, states, list, endpoints) && |list| < |endpoints| && before <= created
    requires o < |created| && created[o].endpoint == endpoints[|list|]
    ensures Listing(created, states + [created[o]], list + [o], endpoints)
  {
  }

  ghost predicate SameEndpoints(states: seq<BackendState>, objects: seq<Object>) {
    |states| == |objects| && forall i | 0 <= i < |states| :: states[i].endpoint == objects[i].view.endpoint
  }

  lemma RepresentsEndpoints(states: seq<BackendState>, objects: seq<Object>)
    requires Represents(states, objects)
    ensures SameEndpoints(states, objects)
  {
    assert forall i | 0 <= i < |states| :: states[i].View() == objects[i].view;
  }

  /** Whether the state found under an endpoint's ID is kept. */
  predicate Keeps(current: Snapshot<BackendState>, e: Endpoint) {
    e.id in current.byId && current.byId[e.id].endpoint == e
  }

  /** The next endpoint, as the states and as the model see it. */
  lemma CollectNext(known: seq<BackendState>, current: Snapshot<BackendState>, objects: seq<Object>, snapshot: Snapshot<nat>,
                    endpoints: seq<Endpoint>, i: nat)
    requires SameEndpoints(known, objects) && Stands(known, current, snapshot) && i < |endpoints|
    ensures var e, before := endpoints[i], Collect(objects, snapshot.byId, endpoints[..i]);
            Collect(objects, snapshot.byId, endpoints[..i + 1])
            == if Keeps(current, e) && e.id in snapshot.byId then Collected(before.objects, before.list + [snapshot.byId[e.id]])
               else Collected(before.objects + [NewObject(e)], before.list + [|before.objects|])
    ensures var e := endpoints[i];
            Keeps(current, e) ==>
              e.id in snapshot.byId && snapshot.byId[e.id] < |known| && current.byId[e.id] == known[snapshot.byId[e.id]]
  {
    assert endpoints[..i + 1][..i] == endpoints[..i];
  }

  /** The state for one endpoint: the one kept under its ID, or a new one apart from all the
      states there are.  The ghost results say which object of the model it is. */
  method CollectOne(endpoint: Endpoint, current: Snapshot<BackendState>,
                    ghost known: seq<BackendState>, ghost snapshot: Snapshot<nat>,
                    ghost before: seq<BackendState>, ghost objects: seq<Object>)
    returns (state: BackendState, ghost created: seq<BackendState>, ghost after: seq<Object>, ghost o: nat)
    requires Stands(known, current, snapshot) && known <= before && Represents(before, objects)
    ensures before <= created && Represents(created, after)
    ensures o < |created| && state == created[o] && state.endpoint == endpoint
    ensures if Keeps(current, endpoint) then created == before && after == objects && o == snapshot.byId[endpoint.id]
            else after == objects + [NewObject(endpoint)] && o == |objects|
    ensures forall k | |before| <= k < |created| ::
              fresh(created[k]) && fresh(created[k].latency) && fresh(created[k].errorRate)
  {
    created, after := before, objects;
    if Keeps(current, endpoint) {
      state, o := current.byId[endpoint.id], snapshot.byId[endpoint.id];
    } else {
      state := new BackendState(endpoint);
      assert state.View().endpoint == endpoint;
      RepresentsOneMore(before, objects, state, endpoint);
      created, after, o := before + [state], objects + [NewObject(endpoint)], |objects|;
    }
  }

  /** The states collected for the first `i` endpoints. */
  ghost predicate CollectedFor(endpoints: seq<Endpoint>, i: nat, objects0: seq<Object>, snapshot0: Snapshot<nat>,
                               states: seq<BackendState>, created: seq<BackendState>, objects: seq<Object>, list: seq<nat>)
    reads set s | s in created, set s | s in created :: s.latency, set s | s in created :: s.errorRate
  {
    && i <= |endpoints| && |list| == i
    && Collected(objects, list) == Collect(objects0, snapshot0.byId, endpoints[..i])
    && Represents(created, objects)
    && Listing(created, states, list, endpoints)
  }

  method CollectNextState(endpoints: seq<Endpoint>, current: Snapshot<BackendState>, states: seq<BackendState>,
                          ghost known: seq<BackendState>, ghost objects0: seq<Object>, ghost snapshot0: Snapshot<nat>,
                          ghost created: seq<BackendState>, ghost objects: seq<Object>, ghost list: seq<nat>, i: nat)
    returns (states': seq<BackendState>, ghost created': seq<BackendState>, ghost objects': seq<Object>, ghost list': seq<nat>)
    requires SameEndpoints(known, objects0) && Stands(known, current, snapshot0) && known <= created
    requires CollectedFor(endpoints, i, objects0, snapshot0, states, created, objects, list) && i < |endpoints|
    ensures CollectedFor(endpoints, i + 1, objects0, snapshot0, states', created', objects', list') && created <= created'
    ensures forall k | |created| <= k < |created'| ::
              fresh(created'[k]) && fresh(created'[k].latency) && fresh(created'[k].errorRate)
  {
    ghost var o;
    var state;
    CollectNext(known, current, objects0, snapshot0, endpoints, i);
    state, created', objects', o := CollectOne(endpoints[i], current, known, snapshot0, created, objects);
    ListOneMore(created, created', states, list, endpoints, o);
    states', list' := states + [state], list + [o];
  }

  /** The states for a list of endpoints, in order. */
  method CollectStates(endpoints: seq<Endpoint>, current: Snapshot<BackendState>,
                       ghost known: seq<BackendState>, ghost objects0: seq<Object>, ghost snapshot0: Snapshot<nat>)
    returns (states: seq<BackendState>, ghost created: seq<BackendState>, ghost objects: seq<Object>, ghost list: seq<nat>)
    requires Represents(known, objects0) && Stands(known, current, snapshot0)
    ensures CollectedFor(endpoints, |endpoints|, objects0, snapshot0, states, created, objects, list)
    ensures Collected(objects, list) == Collect(objects0, snapshot0.byId, endpoints)
    ensures known <= created
    ensures forall k | |known| <= k < |created| ::
              fresh(created[k]) && fresh(created[k].latency) && fresh(created[k].errorRate)
  {
    states, created, objects, list := [], known, objects0, [];
    RepresentsEndpoints(known, objects0);
    for i := 0 to |endpoints|
      invariant CollectedFor(endpoints, i, objects0, snapshot0, states, created, objects, list) && known <= created
      invariant forall k | |known| <= k < |created| ::
                  fresh(created[k]) && fresh(created[k].latency) && fresh(created[k].errorRate)
    {
      states, created, objects, list :=
        CollectNextState(endpoints, current, states, known, objects0, snapshot0, created, objects, list, i);
    }
    assert endpoints[..|endpoints|] == endpoints;
  }

  /******* Changes of one state *******/

  method RecordReservation(endpoint: BackendState, ghost o: nat, ghost states: seq<BackendState>, ghost objects: seq<Object>)
    requires Represents(states, objects) && o < |states| && states[o] == endpoint
    modifies endpoint`inflight, endpoint`selectedTotal
    ensures Represents(states, objects[o := objects[o].(view := ReservedView(objects[o].view))])
  {
    endpoint.inflight := endpoint.inflight + 1;
    endpoint.selectedTotal := endpoint.selectedTotal + 1;
  }

  method RecordRelease(endpoint: BackendState, ghost o: nat, ghost states: seq<BackendState>, ghost objects: seq<Object>)
    requires Represents(states, objects) && o < |states| && states[o] == endpoint
    modifies endpoint`inflight
    ensures Represents(states, objects[o := objects[o].(view := ReleasedView(objects[o].view))])
  {
    endpoint.inflight := endpoint.inflight - 1;
  }

  method ObserveAlone(average: Value, value: real)
    modifies average`bits
    ensures average.Get() == Blend(average.alpha, old(average.Get()), value)
  {
    var _ := average.Observe(value, []);
  }

  method Account(endpoint: BackendState, success: bool, elapsed: real)
    requires endpoint.Valid()
    modifies endpoint`requestsTotal, endpoint`errorsTotal, endpoint.latency`bits, endpoint.errorRate`bits
    ensures endpoint.View() == AnsweredView(old(endpoint.View()), success, elapsed)
  {
    endpoint.requestsTotal := endpoint.requestsTotal + 1;
    ObserveAlone(endpoint.latency, elapsed);
    if success {
      ObserveAlone(endpoint.errorRate, 0.0);
    } else {
      endpoint.errorsTotal := endpoint.errorsTotal + 1;
      ObserveAlone(endpoint.errorRate, 1.0);
    }
  }

  method RecordAnswer(endpoint: BackendState, success: bool, elapsed: real,
                      ghost o: nat, ghost states: seq<BackendState>, ghost objects: seq<Object>)
    requires Represents(states, objects) && o < |states| && states[o] == endpoint
    modifies endpoint`requestsTotal, endpoint`errorsTotal, endpoint.latency`bits, endpoint.errorRate`bits
    ensures Represents(states, objects[o := Object(AnsweredView(objects[o].view, success, elapsed), objects[o].probes,
                                                   objects[o].answers + [Answer(elapsed, success)])])
  {
    Account(endpoint, success, elapsed);
  }

  method RecordProbe(endpoint: BackendState, success: bool, threshold: nat, ghost params: Params,
                     ghost o: nat, ghost states: seq<BackendState>, ghost objects: seq<Object>)
    requires Represents(states, objects) && o < |states| && states[o] == endpoint && params.threshold == threshold
    modifies endpoint`healthFailures, endpoint`healthy
    ensures Represents(states, objects[o := objects[o].(view := ProbedView(params, objects[o].view, success),
                                                        probes := objects[o].probes + [success])])
  {
    if success {
      endpoint.healthFailures := 0;
      endpoint.healthy := true;
    } else {
      endpoint.healthFailures := endpoint.healthFailures + 1;
      if endpoint.healthFailures >= threshold {
        endpoint.healthy := false;
      }
    }
  }

  /** The objects that states consist of. */
  datatype Parts = Parts(states: set<BackendState>, averages: set<Value>)

  ghost predicate Owns(parts: Parts, states: seq<BackendState>) {
    forall s | s in states :: s in parts.states && s.latency in parts.averages && s.errorRate in parts.averages
  }

  lemma PartsOf(states: seq<BackendState>) returns (parts: Parts)
    ensures Owns(parts, states)
  {
    parts := Parts(set s | s in states, (set s | s in states :: s.latency) + (set s | s in states :: s.errorRate));
  }

  /** The snapshot to install for a list of endpoints. */
  method BuildSnapshot(endpoints: seq<Endpoint>, current: Snapshot<BackendState>, ghost known: seq<BackendState>, ghost s: System)
    returns (snapshot: Snapshot<BackendState>, ghost created: seq<BackendState>, ghost parts: Parts)
    requires Represents(known, s.objects) && Stands(known, current, s.snapshot)
    ensures Represents(created, Updated(s, endpoints).objects) && known <= created
    ensures forall k | |known| <= k < |created| ::
              fresh(created[k]) && fresh(created[k].latency) && fresh(created[k].errorRate)
    ensures Stands(created, snapshot, Updated(s, endpoints).snapshot) && Owns(parts, created)
  {
    var nextStates: seq<BackendState>;
    ghost var objects, list;
    nextStates, created, objects, list := CollectStates(endpoints, current, known, s.objects, s.snapshot);
    snapshot := NewBackendSnapshot(nextStates);
    AllPresent(nextStates);
    assert Updated(s, endpoints).objects == objects && Updated(s, endpoints).snapshot.list == list;
    ListingStands(created, nextStates, list, endpoints);
    parts := PartsOf(created);
  }

  class Router {
    const policy: string
    const healthFailureThreshold: nat
    const matcher: Matcher
    ghost const past: seq<Event>
    ghost const start: int
    var backends: Snapshot<BackendState>
    var next: Word64

    /** Every state ever created, the run so far, and what the states consist of. */
    ghost var created: seq<BackendState>
    ghost var trace: Trace
    ghost var parts: Parts

    ghost function Parameters(): Params {
      Params(policy, healthFailureThreshold, matcher.policy, past, start)
    }

    ghost predicate Valid()
      reads this, matcher, parts.states, parts.averages
    {
      && Owns(parts, created)
      && trace.Sound(Parameters())
      && Represents(created, trace.sys.objects)
      && Stands(created, backends, trace.sys.snapshot)
      && next == trace.sys.next
      && matcher.prefixToBackends == trace.sys.index
    }

    /** Records a step whose effect on the states, the index and the counter is in place. */
    ghost method Take(step: Step)
      requires Owns(parts, created) && trace.Sound(Parameters()) && Enabled(Parameters(), trace.sys, step)
      requires var t := Perform(Parameters(), trace.sys, step);
               && Represents(created, t.objects)
               && Stands(created, backends, if step.Update? then t.snapshot else trace.sys.snapshot)
               && next == t.next
               && matcher.prefixToBackends == t.index
      modifies this`trace
      ensures Valid() && trace == old(trace).After(Parameters(), step)
    {
      AfterIsSound(Parameters(), trace, step);
      trace := trace.After(Parameters(), step);
    }

    /** `past` is what the matcher has seen up to time `start`, if it was in use before. */
    constructor (policy: string, threshold: nat, matcher: Matcher, endpoints: seq<Endpoint>, ghost past: seq<Event>, ghost start: int)
      requires matcher.prefixToBackends == Replay(matcher.policy, past)
      ensures Valid() && trace == Trace(endpoints, [], Init(Parameters(), endpoints))
      ensures this.policy == policy && this.matcher == matcher && this.past == past && this.start == start
      ensures healthFailureThreshold == if threshold == 0 then 3 else threshold
      ensures forall s | s in created :: fresh(s) && fresh(s.latency) && fresh(s.errorRate)
    {
      ghost var params := Params(policy, NormalizedThreshold(threshold), matcher.policy, past, start);
      this.policy := policy;
      this.healthFailureThreshold := NormalizedThreshold(threshold);
      this.matcher := matcher;
      this.past := past;
      this.start := start;
      this.next := 0;
      this.trace := Trace(endpoints, [], Init(params, endpoints));
      var snapshot: Snapshot<BackendState>;
      ghost var states, parts;
      snapshot, states, parts := BuildSnapshot(endpoints, Snapshot([], map[]), [], Empty(params));
      this.backends := snapshot;
      this.created := states;
      this.parts := parts;
      new;
    }

    method UpdateBackends(endpoints: seq<Endpoint>)
      requires Valid()
      modifies this`backends, this`created, this`parts, this`trace
      ensures Valid() && trace == old(trace).After(Parameters(), Update(endpoints))
      ensures old(created) <= created
      ensures forall k | |old(created)| <= k < |created| ::
                fresh(created[k]) && fresh(created[k].latency) && fresh(created[k].errorRate)
    {
      backends, created, parts := BuildSnapshot(endpoints, backends, created, trace.sys);
      Take(Update(endpoints));
    }

    /******* Selection *******/

    lemma ListShown()
      requires Valid()
      ensures Shown(backends.list, Listed(trace.sys))
    {
      forall k | 0 <= k < |backends.list| ensures backends.list[k].View() == Listed(trace.sys)[k] {
        assert backends.list[k] == created[trace.sys.snapshot.list[k]];
      }
    }

    /** What a request's prints and the rotation make of a snapshot that looks like `vs`. */
    method CacheAwareSelect(r: RequestText.Request, snapshot: Snapshot<BackendState>, at: int, ghost vs: seq<BackendView>)
      returns (selected: BackendState?, prints: seq<Fingerprint>, error: Option<Error>, ghost order: seq<string>)
      requires Shown(snapshot.list, vs) && Finds(snapshot, vs) && snapshot.list != []
      modifies this`next, matcher
      ensures next == Increment(old(next)) && prints == RequestFingerprints(r)
      ensures !AllPositionsInRange(old(next), |snapshot.list|) ==>
                && matcher.prefixToBackends == old(matcher.prefixToBackends)
                && Reports(snapshot.list, OutOfRange, selected, error)
      ensures AllPositionsInRange(old(next), |snapshot.list|) ==>
                var sweep := Candidates(matcher.policy, old(matcher.prefixToBackends), prints, at);
                && matcher.prefixToBackends == sweep.index
                && Enumerates(order, sweep.matches)
                && Reports(snapshot.list, PositionOf(Choose(vs, old(next), sweep.matches, order)), selected, error)
    {
      order := [];
      var text := r.PrefixText(MAX_PREFIX_LENGTH);
      prints := Fingerprints(text, PREFIX_LENGTHS);
      var start := next;
      next := Increment(next);
      var maxScore, panics;
      selected, maxScore, panics := LoadAwareFallback(snapshot.list, start, vs);
      if panics {
        selected, error := null, Some(IndexOutOfRange);
        return;
      }
      var matches, evictions := matcher.CandidateMatches(prints, at);
      selected, maxScore, order := ScanCandidates(snapshot, matches, selected, maxScore, vs, Fallback(vs, start));
      error := ScanError(selected, false);
    }

    /** What a selection does before the step counts as taken. */
    ghost predicate Selects(s: System, body: Option<RequestText.Request>, at: int, order: seq<string>,
                            selected: BackendState?, prints: seq<Fingerprint>, error: Option<Error>)
      requires ListsObjects(s) && CanSelect(Parameters(), s, body, at, order)
      reads this, matcher
    {
      var t := Selected(Parameters(), s, body, at, order);
      && next == t.next && matcher.prefixToBackends == t.index
      && t.objects == s.objects && |t.requests| == |s.requests| + 1
      && Handed(created, t.requests[|s.requests|], selected, prints, error)
    }

    method SelectCacheAware(r: RequestText.Request, at: int)
      returns (selected: BackendState?, prints: seq<Fingerprint>, error: Option<Error>, ghost order: seq<string>)
      requires Valid() && trace.sys.clock <= at
      requires policy == POLICY_CACHE_AWARE && backends.list != []
      modifies this`next, matcher
      ensures ListsObjects(trace.sys) && CanSelect(Parameters(), trace.sys, Some(r), at, order)
      ensures Selects(trace.sys, Some(r), at, order, selected, prints, error)
    {
      ghost var vs := Listed(trace.sys);
      ListShown();
      SoundIsCoherent(Parameters(), trace);
      StandsFinds(created, backends, trace.sys.snapshot, vs);
      selected, prints, error, order := CacheAwareSelect(r, backends, at, vs);
      if ScanInRange(trace.sys) {
        ghost var best := Choose(vs, trace.sys.next, Candidates(Parameters().index, trace.sys.index, prints, at).matches, order);
        OutcomeIsHanded(created, backends, trace.sys, PositionOf(best), selected, prints, error);
      }
    }

    method SelectRotating(body: Option<RequestText.Request>, at: int)
      returns (selected: BackendState?, error: Option<Error>)
      requires Valid() && trace.sys.clock <= at
      requires policy != POLICY_CACHE_AWARE && backends.list != []
      modifies this`next
      ensures ListsObjects(trace.sys) && CanSelect(Parameters(), trace.sys, body, at, [])
      ensures Selects(trace.sys, body, at, [], selected, [], error)
    {
      ghost var vs := Listed(trace.sys);
      ListShown();
      var start := next;
      next := Increment(next);
      var panics;
      selected, panics := RotatingSelect(backends.list, start, vs);
      error := ScanError(selected, panics);
      OutcomeIsHanded(created, backends, trace.sys, RoundRobin(vs, start), selected, [], error);
    }

    method SelectByPolicy(body: Option<RequestText.Request>, at: int)
      returns (selected: BackendState?, prints: seq<Fingerprint>, error: Option<Error>, ghost order: seq<string>)
      requires Valid() && trace.sys.clock <= at
      modifies this`next, matcher
      ensures ListsObjects(trace.sys) && CanSelect(Parameters(), trace.sys, body, at, order)
      ensures Selects(trace.sys, body, at, order, selected, prints, error)
    {
      selected, prints, error, order := null, [], None, [];
      if |backends.list| == 0 {
        error := Some(NoBackends);
      } else if policy != POLICY_CACHE_AWARE {
        selected, error := SelectRotating(body, at);
      } else if body.None? {
        error := Some(BadRequest);
      } else {
        selected, prints, error, order := SelectCacheAware(body.value, at);
      }
    }

    /** Request `req` was given to `state`. */
    ghost predicate Holds(req: nat, state: BackendState)
      reads this
    {
      && req < |trace.sys.requests| && HasObject(trace.sys.requests[req])
      && trace.sys.requests[req].obj < |created| && created[trace.sys.requests[req].obj] == state
    }

    ghost predicate Refused(req: nat, error: Error)
      reads this
    {
      req < |trace.sys.requests| && trace.sys.requests[req] == Rejected(error)
    }

    ghost predicate Reserved(req: nat, state: BackendState, prints: seq<Fingerprint>)
      reads this
    {
      Holds(req, state) && trace.sys.requests[req] == Forwarding(trace.sys.requests[req].obj, prints)
    }

    ghost predicate Given(req: nat, state: BackendState, prints: seq<Fingerprint>)
      reads this
    {
      Holds(req, state) && trace.sys.requests[req] == Chosen(trace.sys.requests[req].obj, prints)
    }

    /** Records a selection that has been made. */
    ghost method TakeSelect(body: Option<RequestText.Request>, at: int, order: seq<string>,
                            selected: BackendState?, prints: seq<Fingerprint>, error: Option<Error>)
      requires Owns(parts, created) && trace.Sound(Parameters())
      requires Represents(created, trace.sys.objects) && Stands(created, backends, trace.sys.snapshot)
      requires ListsObjects(trace.sys) && CanSelect(Parameters(), trace.sys, body, at, order)
      requires Selects(trace.sys, body, at, order, selected, prints, error)
      modifies this`trace
      ensures trace == old(trace).After(Parameters(), Select(body, at, order))
      ensures Valid() && trace.sys.clock == at
      ensures error.Some? ==> selected == null && Refused(|old(trace).sys.requests|, error.value)
      ensures error.None? ==> selected != null && Given(|old(trace).sys.requests|, selected, prints)
    {
      Take(Select(body, at, order));
    }

    /** `body` is the decoded request, if it could be decoded. */
    method SelectBackend(body: Option<RequestText.Request>, at: int)
      returns (selected: BackendState?, prints: seq<Fingerprint>, error: Option<Error>, ghost order: seq<string>)
      requires Valid() && trace.sys.clock <= at
      modifies this`next, this`trace, matcher
      ensures CanSelect(Parameters(), old(trace.sys), body, at, order)
      ensures trace == old(trace).After(Parameters(), Select(body, at, order))
      ensures Valid() && trace.sys.clock == at
      ensures error.Some? ==> selected == null && Refused(|old(trace).sys.requests|, error.value)
      ensures error.None? ==> selected != null && Given(|old(trace).sys.requests|, selected, prints)
    {
      selected, prints, error, order := SelectByPolicy(body, at);
      TakeSelect(body, at, order, selected, prints, error);
    }

    /******* Reservations and accounts *******/

    method Reserve(ghost req: nat, endpoint: BackendState, ghost prints: seq<Fingerprint>)
      requires Valid() && Given(req, endpoint, prints)
      modifies this`trace, endpoint`inflight, endpoint`selectedTotal
      ensures Valid() && trace == old(trace).After(Parameters(), Step.Reserve(req))
      ensures Reserved(req, endpoint, prints) && trace.sys.clock == old(trace).sys.clock
    {
      RecordReservation(endpoint, trace.sys.requests[req].obj, created, trace.sys.objects);
      Take(Step.Reserve(req));
    }

    /** The closure handed out with a reservation, after an answer. */
    method Release(ghost req: nat, endpoint: BackendState)
      requires Valid() && Holds(req, endpoint) && trace.sys.requests[req].Answered?
      modifies this`trace, endpoint`inflight
      ensures Valid() && trace == old(trace).After(Parameters(), Step.Release(req))
    {
      RecordRelease(endpoint, trace.sys.requests[req].obj, created, trace.sys.objects);
      Take(Step.Release(req));
    }

    /** The same closure when the call to the backend panics. */
    method Abort(ghost req: nat, endpoint: BackendState)
      requires Valid() && Holds(req, endpoint) && trace.sys.requests[req].Forwarding?
      modifies this`trace, endpoint`inflight
      ensures Valid() && trace == old(trace).After(Parameters(), Step.Abort(req))
    {
      RecordRelease(endpoint, trace.sys.requests[req].obj, created, trace.sys.objects);
      Take(Step.Abort(req));
    }

    method Finish(ghost req: nat, endpoint: BackendState, prints: seq<Fingerprint>, success: bool, elapsed: real, at: int)
      requires Valid() && Holds(req, endpoint) && trace.sys.requests[req].Forwarding? && trace.sys.requests[req].prints == prints
      requires 0.0 <= elapsed && trace.sys.clock <= at
      modifies this`trace, matcher,
               endpoint`requestsTotal, endpoint`errorsTotal, endpoint.latency`bits, endpoint.errorRate`bits
      ensures Valid() && trace == old(trace).After(Parameters(), Step.Finish(req, success, elapsed, at))
      ensures Holds(req, endpoint) && trace.sys.requests[req].Answered?
    {
      RecordAnswer(endpoint, success, elapsed, trace.sys.requests[req].obj, created, trace.sys.objects);
      if success {
        matcher.Remember(endpoint.endpoint.id, prints, at);
      }
      Take(Step.Finish(req, success, elapsed, at));
    }

    /******* Whole requests *******/

    method SelectAndReserveBackend(body: Option<RequestText.Request>, at: int)
      returns (endpoint: BackendState?, prints: seq<Fingerprint>, error: Option<Error>, ghost order: seq<string>)
      requires Valid() && trace.sys.clock <= at
      modifies this`next, this`trace, matcher, parts.states, parts.averages
      ensures created == old(created)
      ensures Valid() && trace.first == old(trace).first
      ensures trace.steps == old(trace).steps + [Select(body, at, order)] + if error.Some? then [] else [Step.Reserve(|old(trace).sys.requests|)]
      ensures error.Some? ==> endpoint == null && Refused(|old(trace).sys.requests|, error.value)
      ensures error.None? ==> endpoint != null && Reserved(|old(trace).sys.requests|, endpoint, prints) && trace.sys.clock == at
    {
      ghost var r := |trace.sys.requests|;
      endpoint, prints, error, order := SelectBackend(body, at);
      if error.None? {
        Reserve(r, endpoint, prints);
      }
    }

    method Settle(ghost req: nat, endpoint: BackendState, prints: seq<Fingerprint>, reply: Reply)
      requires Valid() && Reserved(req, endpoint, prints)
      requires reply.Replied? ==> 0.0 <= reply.elapsed && trace.sys.clock <= reply.at
      modifies this`trace, matcher, parts.states, parts.averages
      ensures Valid() && trace.first == old(trace).first && trace.steps == old(trace).steps + Settling(req, reply)
    {
      match reply
      case Replied(success, elapsed, at) =>
        Finish(req, endpoint, prints, success, elapsed, at);
        Release(req, endpoint);
      case Panicked =>
        Abort(req, endpoint);
    }

    lemma LoadsShown()
      requires Valid()
      ensures |created| == |trace.sys.objects|
      ensures forall o | 0 <= o < |created| :: created[o].inflight == trace.sys.objects[o].view.inflight
    {
      assert forall o | 0 <= o < |created| :: created[o].View() == trace.sys.objects[o].view;
    }

    /** Whatever led here, on every state ever created: its load is the number of
        reservations it holds, its totals add up, and it is healthy exactly when some probe
        succeeded and fewer than the threshold have failed since the last that did. */
    lemma StateInvariants(o: nat)
      requires Valid() && o < |created|
      ensures created[o].inflight == Count(Outstanding, o, trace.sys.requests)
      ensures created[o].selectedTotal
           == created[o].requestsTotal + Count(InForward, o, trace.sys.requests) + Count(Abandoned, o, trace.sys.requests)
      ensures created[o].errorsTotal <= created[o].requestsTotal
      ensures created[o].healthy <==>
              EverSucceeded(ProbesIn(trace.steps, o)) && TrailingFailures(ProbesIn(trace.steps, o)) < healthFailureThreshold
    {
      ReservationConservation(Parameters(), trace.first, trace.steps, o);
      HealthRefinesProbes(Parameters(), trace.first, trace.steps, o);
      assert created[o].View() == trace.sys.objects[o].view;
    }

    method Dispatch(body: Option<RequestText.Request>, at: int, reply: Reply) returns (error: Option<Error>, ghost order: seq<string>)
      requires Valid() && trace.sys.clock <= at
      requires reply.Replied? ==> 0.0 <= reply.elapsed && at <= reply.at
      modifies this`next, this`trace, matcher, parts.states, parts.averages
      ensures Valid() && trace.first == old(trace).first
      ensures trace.steps == old(trace).steps + ForwardSteps(|old(trace).sys.requests|, body, at, order, error.Some?, reply)
      ensures error.Some? ==> Refused(|old(trace).sys.requests|, error.value)
    {
      var endpoint, prints;
      endpoint, prints, error, order := SelectAndReserveBackend(body, at);
      ForwardInParts(old(trace).steps, |old(trace).sys.requests|, body, at, order, error.Some?, reply);
      if error.None? {
        Settle(|old(trace).sys.requests|, endpoint, prints, reply);
      }
    }

    /** A whole request with nothing else going on: one selection and, unless it is refused,
        one reservation, settled however the backend replies.  In the end every load is what
        it was before. */
    method Forward(body: Option<RequestText.Request>, at: int, reply: Reply) returns (error: Option<Error>, ghost order: seq<string>)
      requires Valid() && trace.sys.clock <= at
      requires reply.Replied? ==> 0.0 <= reply.elapsed && at <= reply.at
      modifies this`next, this`trace, matcher, parts.states, parts.averages
      ensures Valid() && trace.first == old(trace).first
      ensures trace.steps == old(trace).steps + ForwardSteps(|old(trace).sys.requests|, body, at, order, error.Some?, reply)
      ensures error.Some? ==> Refused(|old(trace).sys.requests|, error.value)
      ensures forall s | s in old(created) :: s.inflight == old(s.inflight)
    {
      LoadsShown();
      error, order := Dispatch(body, at, reply);
      LoadsRestored(Parameters(), old(trace), trace, body, at, order, error.Some?, reply);
      LoadsShown();
    }

    /******* Health *******/

    method CheckBackend(endpoint: BackendState, success: bool, ghost o: nat)
      requires Valid() && o < |created| && created[o] == endpoint
      modifies this`trace, endpoint`healthFailures, endpoint`healthy
      ensures Valid() && trace == old(trace).After(Parameters(), Probe(o, success))
    {
      RecordProbe(endpoint, success, healthFailureThreshold, Parameters(), o, created, trace.sys.objects);
      Take(Probe(o, success));
    }

    method CheckListed(endpoint: BackendState, success: bool, ghost k: nat)
      requires Valid() && k < |backends.list| && endpoint == backends.list[k]
      modifies this`trace, endpoint`healthFailures, endpoint`healthy
      ensures k < |old(trace).sys.snapshot.list| && ListsObjects(old(trace).sys)
      ensures Valid() && trace == old(trace).After(Parameters(), Probe(old(trace).sys.snapshot.list[k], success))
    {
      CheckBackend(endpoint, success, trace.sys.snapshot.list[k]);
    }

    /** `results` are the answers the listed backends give when asked in turn. */
    method CheckBackendsHealth(results: seq<bool>)
      requires Valid() && |results| == |backends.list|
      modifies this`trace, (set s | s in backends.list)`healthFailures, (set s | s in backends.list)`healthy
      ensures ListsObjects(old(trace).sys) && |old(trace).sys.snapshot.list| == |results|
      ensures Valid() && trace == Checked(Parameters(), old(trace), old(trace).sys.snapshot.list, results)
    {
      ghost var list := trace.sys.snapshot.list;
      for i := 0 to |backends.list|
        invariant Valid() && trace == Checked(Parameters(), old(trace), list[..i], results[..i])
      {
        CheckListed(backends.list[i], results[i], i);
        CheckedOneMore(Parameters(), old(trace), list, results, i);
      }
      CheckedEnds(Parameters(), old(trace), list, results);
    }
  }
}
