/**
 The routing engine as one state machine: backend objects, the snapshot in use, requests
 on their way, the rotation counter and the prefix index.  A run is any sequence of steps
 that are possible where they are taken.
 */
module Engine {
  import opened Wrappers
  import opened Ewma
  import opened Backend
  import opened Prefix
  import opened PrefixIndex
  import opened PrefixHistory
  import opened Rotation
  import opened Scheduler
  import opened RequestText

  const POLICY_CACHE_AWARE := "cache_aware"

  function NormalizedThreshold(value: nat): nat {
    if value == 0 then 3 else value
  }

  /** What does not change during a run.  `past` is what reached the prefix index before it,
      up to time `start`. */
  datatype Params = Params(policy: string, threshold: nat, index: Policy, past: seq<Event>, start: int)

  /** One answer a backend gave: how long it took and whether forwarding succeeded. */
  datatype Answer = Answer(elapsed: real, ok: bool)

  /** A backend state object with everything that ever happened to it. */
  datatype Object = Object(view: BackendView, probes: seq<bool>, answers: seq<Answer>)

  /** `IndexOutOfRange` is the panic of a scan that leaves the list. */
  datatype Error = NoBackends | NoHealthyBackends | BadRequest | IndexOutOfRange

  /** Where a request stands.  `obj` numbers the object it was given to. */
  datatype Request =
    | Rejected(error: Error)
    | Chosen(obj: nat, prints: seq<Fingerprint>)
    | Forwarding(obj: nat, prints: seq<Fingerprint>)
    | Answered(obj: nat, ok: bool)
    | Released(obj: nat, ok: bool)
    | Aborted(obj: nat)

  /** `objects` holds every object ever created, listed or not; `log` everything that
      reached the prefix index. */
  datatype System = System(
    objects: seq<Object>,
    snapshot: Snapshot<nat>,
    requests: seq<Request>,
    next: Word64,
    index: Index,
    log: seq<Event>,
    clock: int)

  datatype Step =
    | Update(endpoints: seq<Endpoint>)
    | Probe(obj: nat, success: bool)
    | Select(body: Option<RequestText.Request>, at: int, order: seq<string>)
    | Reserve(req: nat)
    | Finish(req: nat, success: bool, elapsed: real, at: int)
    | Abort(req: nat)
    | Release(req: nat)

  /******* Snapshots *******/

  function NewObject(e: Endpoint): Object {
    Object(NewView(e), [], [])
  }

  /** The object to keep for an endpoint. */
  function Reuse(objects: seq<Object>, byId: map<string, nat>, e: Endpoint): Option<nat> {
    if e.id in byId && byId[e.id] < |objects| && objects[byId[e.id]].view.endpoint == e
    then Some(byId[e.id]) else None
  }

  datatype Collected = Collected(objects: seq<Object>, list: seq<nat>)

  /** One object for each endpoint: an existing one with the same ID and URL, or a new one. */
  function Collect(objects: seq<Object>, byId: map<string, nat>, endpoints: seq<Endpoint>): Collected {
    if endpoints == [] then Collected(objects, [])
    else
      var n := |endpoints| - 1;
      var before := Collect(objects, byId, endpoints[..n]);
      match Reuse(objects, byId, endpoints[n])
      case Some(o) => Collected(before.objects, before.list + [o])
      case None => Collected(before.objects + [NewObject(endpoints[n])], before.list + [|before.objects|])
  }

  function Updated(s: System, endpoints: seq<Endpoint>): System {
    var c := Collect(s.objects, s.snapshot.byId, endpoints);
    CollectLength(s.objects, s.snapshot.byId, endpoints);
    s.(objects := c.objects,
       snapshot := Snapshot(c.list, IndexById<nat>(EndpointIds(endpoints), c.list)))
  }

  function Empty(params: Params): System {
    System([], Snapshot([], map[]), [], 0, Replay(params.index, params.past), params.past, params.start)
  }

  function Init(params: Params, endpoints: seq<Endpoint>): System {
    Updated(Empty(params), endpoints)
  }

  /******* Probes *******/

  function ProbedView(params: Params, v: BackendView, success: bool): BackendView {
    if success then v.(healthFailures := 0, healthy := true)
    else v.(healthFailures := v.healthFailures + 1,
            healthy := v.healthy && v.healthFailures + 1 < params.threshold)
  }

  function Probed(params: Params, s: System, o: nat, success: bool): System
    requires o < |s.objects|
  {
    var b := s.objects[o];
    s.(objects := s.objects[o := b.(view := ProbedView(params, b.view, success), probes := b.probes + [success])])
  }

  /******* Requests *******/

  predicate ListsObjects(s: System) {
    forall k | 0 <= k < |s.snapshot.list| :: s.snapshot.list[k] < |s.objects|
  }

  /** The views of the listed objects, in list order. */
  function Listed(s: System): seq<BackendView>
    requires ListsObjects(s)
  {
    seq(|s.snapshot.list|, k requires 0 <= k < |s.snapshot.list| => s.objects[s.snapshot.list[k]].view)
  }

  function Outcome(s: System, picked: Picked, prints: seq<Fingerprint>): Request {
    match picked
    case Found(p) => if p < |s.snapshot.list| then Chosen(s.snapshot.list[p], prints) else Rejected(IndexOutOfRange)
    case Nobody => Rejected(NoHealthyBackends)
    case OutOfRange => Rejected(IndexOutOfRange)
  }

  /** A full scan from the present counter stays inside the list. */
  predicate ScanInRange(s: System) {
    s.snapshot.list != [] ==> AllPositionsInRange(s.next, |s.snapshot.list|)
  }

  function Selected(params: Params, s: System, body: Option<RequestText.Request>, at: int, order: seq<string>): System
    requires ListsObjects(s) && CanSelect(params, s, body, at, order)
  {
    if s.snapshot.list == [] then
      s.(requests := s.requests + [Rejected(NoBackends)], clock := at)
    else if params.policy != POLICY_CACHE_AWARE then
      s.(requests := s.requests + [Outcome(s, RoundRobin(Listed(s), s.next), [])], next := Increment(s.next), clock := at)
    else if body.None? then
      s.(requests := s.requests + [Rejected(BadRequest)], clock := at)
    else if !ScanInRange(s) then
      s.(requests := s.requests + [Rejected(IndexOutOfRange)], next := Increment(s.next), clock := at)
    else
      var prints := RequestFingerprints(body.value);
      var sweep := Candidates(params.index, s.index, prints, at);
      var best := Choose(Listed(s), s.next, sweep.matches, order);
      s.(requests := s.requests + [Outcome(s, PositionOf(best), prints)],
         next := Increment(s.next),
         index := sweep.index,
         log := s.log + [LookedUp(prints, at)],
         clock := at)
  }

  function PositionOf(best: Option<Best>): Picked {
    if best.Some? then Found(best.value.position) else Nobody
  }

  /** The order is the one the candidate map happens to be visited in. */
  predicate CanSelect(params: Params, s: System, body: Option<RequestText.Request>, at: int, order: seq<string>) {
    && s.clock <= at
    && (LooksUp(params, s, body) ==>
          Enumerates(order, Candidates(params.index, s.index, RequestFingerprints(body.value), at).matches))
  }

  /** The selection gets as far as looking candidates up. */
  predicate LooksUp(params: Params, s: System, body: Option<RequestText.Request>) {
    s.snapshot.list != [] && params.policy == POLICY_CACHE_AWARE && body.Some? && ScanInRange(s)
  }

  function ReservedView(v: BackendView): BackendView {
    v.(inflight := v.inflight + 1, selectedTotal := v.selectedTotal + 1)
  }

  function ReleasedView(v: BackendView): BackendView {
    v.(inflight := v.inflight - 1)
  }

  function AnsweredView(v: BackendView, success: bool, elapsed: real): BackendView {
    v.(requestsTotal := v.requestsTotal + 1,
       errorsTotal := v.errorsTotal + if success then 0 else 1,
       latency := Blend(DEFAULT_ALPHA, v.latency, elapsed),
       errorRate := Blend(DEFAULT_ALPHA, v.errorRate, if success then 0.0 else 1.0))
  }

  function SetView(s: System, o: nat, v: BackendView): System
    requires o < |s.objects|
  {
    s.(objects := s.objects[o := s.objects[o].(view := v)])
  }

  function SetRequest(s: System, r: nat, q: Request): System
    requires r < |s.requests|
  {
    s.(requests := s.requests[r := q])
  }

  function Answers(s: System, o: nat, success: bool, elapsed: real): System
    requires o < |s.objects|
  {
    var b := s.objects[o];
    s.(objects := s.objects[o := Object(AnsweredView(b.view, success, elapsed), b.probes, b.answers + [Answer(elapsed, success)])])
  }

  function Remembered(s: System, o: nat, prints: seq<Fingerprint>, at: int): System
    requires o < |s.objects|
  {
    var id := s.objects[o].view.endpoint.id;
    s.(index := RememberAll(s.index, id, prints, at), log := s.log + [Served(id, prints, at)])
  }

  /******* Steps and runs *******/

  predicate HasObject(q: Request) {
    !q.Rejected?
  }

  predicate Enabled(params: Params, s: System, step: Step) {
    && ListsObjects(s)
    && match step
       case Update(_) => true
       case Probe(o, _) => o < |s.objects|
       case Select(body, at, order) => CanSelect(params, s, body, at, order)
       case Reserve(r) => r < |s.requests| && s.requests[r].Chosen? && s.requests[r].obj < |s.objects|
       case Finish(r, _, elapsed, at) =>
         r < |s.requests| && s.requests[r].Forwarding? && s.requests[r].obj < |s.objects| && 0.0 <= elapsed && s.clock <= at
       case Abort(r) => r < |s.requests| && s.requests[r].Forwarding? && s.requests[r].obj < |s.objects|
       case Release(r) => r < |s.requests| && s.requests[r].Answered? && s.requests[r].obj < |s.objects|
  }

  function Perform(params: Params, s: System, step: Step): System
    requires Enabled(params, s, step)
  {
    match step
    case Update(endpoints) => Updated(s, endpoints)
    case Probe(o, success) => Probed(params, s, o, success)
    case Select(body, at, order) => Selected(params, s, body, at, order)
    case Reserve(r) =>
      var q := s.requests[r];
      SetRequest(SetView(s, q.obj, ReservedView(s.objects[q.obj].view)), r, Forwarding(q.obj, q.prints))
    case Finish(r, success, elapsed, at) =>
      var q := s.requests[r];
      var t := SetRequest(Answers(s, q.obj, success, elapsed), r, Answered(q.obj, success)).(clock := at);
      if success then Remembered(t, q.obj, q.prints, at) else t
    case Abort(r) =>
      var q := s.requests[r];
      SetRequest(SetView(s, q.obj, ReleasedView(s.objects[q.obj].view)), r, Aborted(q.obj))
    case Release(r) =>
      var q := s.requests[r];
      SetRequest(SetView(s, q.obj, ReleasedView(s.objects[q.obj].view)), r, Released(q.obj, q.ok))
  }

  function Run(params: Params, endpoints: seq<Endpoint>, steps: seq<Step>): Option<System> {
    if steps == [] then Some(Init(params, endpoints))
    else
      var n := |steps| - 1;
      match Run(params, endpoints, steps[..n])
      case None => None
      case Some(s) => if Enabled(params, s, steps[n]) then Some(Perform(params, s, steps[n])) else None
  }

  /******* What an update does *******/

  lemma {:induction false} CollectLength(objects: seq<Object>, byId: map<string, nat>, endpoints: seq<Endpoint>)
    ensures |Collect(objects, byId, endpoints).list| == |endpoints|
  {
    if endpoints == [] {
    } else {
      CollectLength(objects, byId, endpoints[..|endpoints| - 1]);
    }
  }

  /** Objects are only added, at the end. */
  ghost predicate Extends(before: seq<Object>, after: seq<Object>) {
    |before| <= |after| && after[..|before|] == before
  }

  ghost predicate ListsEndpoint(objects: seq<Object>, byId: map<string, nat>, c: Collected, i: nat, e: Endpoint)
    requires i < |c.list|
  {
    && c.list[i] < |c.objects|
    && c.objects[c.list[i]].view.endpoint == e
    && match Reuse(objects, byId, e)
       case Some(o) => c.list[i] == o
       case None => c.list[i] >= |objects| && c.objects[c.list[i]] == NewObject(e)
  }

  lemma {:induction false} CollectExtends(objects: seq<Object>, byId: map<string, nat>, endpoints: seq<Endpoint>)
    ensures var c := Collect(objects, byId, endpoints);
            |c.list| == |endpoints| && Extends(objects, c.objects)
  {
    if endpoints == [] {
    } else {
      CollectExtends(objects, byId, endpoints[..|endpoints| - 1]);
    }
  }

  /** The collected list matches the endpoints in order; an endpoint known under its ID
      keeps its object and every other one gets a new object. */
  lemma {:induction false} CollectMeans(objects: seq<Object>, byId: map<string, nat>, endpoints: seq<Endpoint>)
    ensures var c := Collect(objects, byId, endpoints);
            && |c.list| == |endpoints|
            && Extends(objects, c.objects)
            && (forall i | 0 <= i < |endpoints| :: ListsEndpoint(objects, byId, c, i, endpoints[i]))
  {
    CollectExtends(objects, byId, endpoints);
    if endpoints == [] {
    } else {
      var n := |endpoints| - 1;
      CollectMeans(objects, byId, endpoints[..n]);
      var before, after := Collect(objects, byId, endpoints[..n]), Collect(objects, byId, endpoints);
      forall i | 0 <= i < |endpoints| ensures ListsEndpoint(objects, byId, after, i, endpoints[i]) {
        if i < n {
          assert endpoints[..n][i] == endpoints[i];
          assert ListsEndpoint(objects, byId, before, i, endpoints[i]);
        } else {
          CollectExtends(objects, byId, endpoints[..n]);
          assert Extends(objects, before.objects);
        }
      }
    }
  }

  /** How many endpoints are not known under their ID. */
  function Unknown(objects: seq<Object>, byId: map<string, nat>, endpoints: seq<Endpoint>): nat {
    if endpoints == [] then 0
    else
      var n := |endpoints| - 1;
      Unknown(objects, byId, endpoints[..n]) + if Reuse(objects, byId, endpoints[n]).None? then 1 else 0
  }

  /** Exactly one object is created for each of them. */
  lemma {:induction false} CollectCreates(objects: seq<Object>, byId: map<string, nat>, endpoints: seq<Endpoint>)
    ensures |Collect(objects, byId, endpoints).objects| == |objects| + Unknown(objects, byId, endpoints)
    ensures Unknown(objects, byId, endpoints) == 0 <==>
            forall i | 0 <= i < |endpoints| :: Reuse(objects, byId, endpoints[i]).Some?
  {
    if endpoints == [] {
    } else {
      var n := |endpoints| - 1;
      CollectCreates(objects, byId, endpoints[..n]);
      assert forall i | 0 <= i < n :: endpoints[..n][i] == endpoints[i];
    }
  }
}
