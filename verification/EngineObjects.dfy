/**
 What every run keeps about backend objects: the accounting of requests, the health state
 as a function of the probes, and the averages as functions of the answers.  All of it
 ranges over every object ever created, whether or not a snapshot still lists it.
 */
module EngineObjects {
  import opened Wrappers
  import opened Ewma
  import opened Backend
  import opened Prefix
  import opened PrefixIndex
  import opened PrefixHistory
  import opened Scheduler
  import opened Engine

  /******* Shape *******/

  ghost predicate Shape(s: System) {
    && ListsObjects(s)
    && (forall r | 0 <= r < |s.requests| && HasObject(s.requests[r]) :: s.requests[r].obj < |s.objects|)
  }

  lemma UpdatedShape(s: System, endpoints: seq<Endpoint>)
    requires Shape(s)
    ensures Shape(Updated(s, endpoints)) && Extends(s.objects, Updated(s, endpoints).objects)
    ensures forall o | |s.objects| <= o < |Updated(s, endpoints).objects| ::
              exists e :: Updated(s, endpoints).objects[o] == NewObject(e)
  {
    CollectMeans(s.objects, s.snapshot.byId, endpoints);
    NewOnesAreNew(s.objects, s.snapshot.byId, endpoints);
    var c := Collect(s.objects, s.snapshot.byId, endpoints);
    forall k | 0 <= k < |c.list| ensures c.list[k] < |c.objects| {
      assert ListsEndpoint(s.objects, s.snapshot.byId, c, k, endpoints[k]);
    }
  }

  lemma {:induction false} NewOnesAreNew(objects: seq<Object>, byId: map<string, nat>, endpoints: seq<Endpoint>)
    ensures var c := Collect(objects, byId, endpoints);
            |objects| <= |c.objects| && forall o | |objects| <= o < |c.objects| :: exists e :: c.objects[o] == NewObject(e)
  {
    if endpoints == [] {
    } else {
      NewOnesAreNew(objects, byId, endpoints[..|endpoints| - 1]);
    }
  }

  /** A selection only adds a request, given to a healthy listed object or to none. */
  lemma SelectedAdds(params: Params, s: System, body: Option<RequestText.Request>, at: int, order: seq<string>)
    requires Enabled(params, s, Select(body, at, order))
    ensures var t := Selected(params, s, body, at, order);
            && t.objects == s.objects && t.snapshot == s.snapshot
            && |t.requests| == |s.requests| + 1 && t.requests[..|s.requests|] == s.requests
            && (t.requests[|s.requests|].Rejected? || t.requests[|s.requests|].Chosen?)
            && (t.requests[|s.requests|].Chosen? ==>
                  && t.requests[|s.requests|].obj in s.snapshot.list
                  && t.requests[|s.requests|].obj < |s.objects|
                  && s.objects[t.requests[|s.requests|].obj].view.healthy)
  {
    var vs := Listed(s);
    RoundRobinIsFirst(vs, s.next);
    if LooksUp(params, s, body) {
      var matches := Candidates(params.index, s.index, RequestText.RequestFingerprints(body.value), at).matches;
      ChoiceIsHealthy(vs, s.next, matches, order);
    }
  }

  lemma ChoiceIsHealthy(vs: seq<BackendView>, counter: nat, matches: Matches, order: seq<string>)
    requires Enumerates(order, matches)
    ensures var best := Choose(vs, counter, matches, order);
            best.Some? ==> best.value.position < |vs| && vs[best.value.position].healthy
  {
    FallbackIsBest(vs, counter);
    match Fallback(vs, counter)
    case None => WarmScanNobody(vs, matches, order);
    case Some(cold) => WarmScanIsBest(vs, matches, order, cold);
  }

  lemma StepKeepsShape(params: Params, s: System, step: Step)
    requires Shape(s) && Enabled(params, s, step)
    ensures Shape(Perform(params, s, step))
  {
    match step
    case Update(endpoints) => UpdatedShape(s, endpoints);
    case Select(body, at, order) =>
      SelectedAdds(params, s, body, at, order);
      var t := Selected(params, s, body, at, order);
      assert forall r | 0 <= r < |s.requests| :: t.requests[r] == t.requests[..|s.requests|][r] == s.requests[r];
    case _ =>
  }

  lemma InitShape(params: Params, endpoints: seq<Endpoint>)
    ensures Shape(Init(params, endpoints))
  {
    UpdatedShape(Empty(params), endpoints);
  }

  lemma {:induction false} RunShape(params: Params, endpoints: seq<Endpoint>, steps: seq<Step>)
    requires Run(params, endpoints, steps).Some?
    ensures Shape(Run(params, endpoints, steps).value)
  {
    if steps == [] {
      InitShape(params, endpoints);
    } else {
      var n := |steps| - 1;
      RunShape(params, endpoints, steps[..n]);
      StepKeepsShape(params, Run(params, endpoints, steps[..n]).value, steps[n]);
    }
  }

  /******* Accounting *******/

  datatype Tag = Outstanding | InForward | Abandoned | Replied | Failed | Taken | Assigned

  /** Whether a request of object `o` is of some kind. */
  predicate Is(tag: Tag, o: nat, q: Request) {
    && HasObject(q) && q.obj == o
    && match tag
       case Outstanding => q.Forwarding? || q.Answered?
       case InForward => q.Forwarding?
       case Abandoned => q.Aborted?
       case Replied => q.Answered? || q.Released?
       case Failed => (q.Answered? || q.Released?) && !q.ok
       case Taken => !q.Chosen?
       case Assigned => true
  }

  function Count(tag: Tag, o: nat, requests: seq<Request>): nat {
    if requests == [] then 0
    else
      var n := |requests| - 1;
      Count(tag, o, requests[..n]) + if Is(tag, o, requests[n]) then 1 else 0
  }

  lemma {:induction false} CountChanged(tag: Tag, o: nat, requests: seq<Request>, r: nat, q: Request)
    requires r < |requests|
    ensures Count(tag, o, requests[r := q])
         == Count(tag, o, requests) - (if Is(tag, o, requests[r]) then 1 else 0) + (if Is(tag, o, q) then 1 else 0)
  {
    var n := |requests| - 1;
    if r == n {
      assert requests[r := q][..n] == requests[..n];
    } else {
      CountChanged(tag, o, requests[..n], r, q);
      assert requests[r := q][..n] == requests[..n][r := q];
    }
  }

  lemma {:induction false} CountNobody(tag: Tag, o: nat, requests: seq<Request>)
    requires forall r | 0 <= r < |requests| :: HasObject(requests[r]) ==> requests[r].obj != o
    ensures Count(tag, o, requests) == 0
  {
    if requests == [] {
    } else {
      CountNobody(tag, o, requests[..|requests| - 1]);
    }
  }

  lemma {:induction false} CountsAddUp(o: nat, requests: seq<Request>)
    ensures Count(Taken, o, requests)
         == Count(Replied, o, requests) + Count(InForward, o, requests) + Count(Abandoned, o, requests)
    ensures Count(Failed, o, requests) <= Count(Replied, o, requests)
  {
    if requests == [] {
    } else {
      CountsAddUp(o, requests[..|requests| - 1]);
    }
  }

  ghost predicate Balanced(v: BackendView, o: nat, requests: seq<Request>) {
    && v.inflight == Count(Outstanding, o, requests)
    && v.selectedTotal == Count(Taken, o, requests)
    && v.requestsTotal == Count(Replied, o, requests)
    && v.errorsTotal == Count(Failed, o, requests)
  }

  ghost predicate Accounts(s: System) {
    forall o | 0 <= o < |s.objects| :: Balanced(s.objects[o].view, o, s.requests)
  }

  /** One request moves on; `v` is the view its object gets. */
  lemma MoveKeepsBalance(s: System, r: nat, q: Request, v: BackendView, o: nat)
    requires Shape(s) && Accounts(s) && r < |s.requests| && HasObject(s.requests[r]) && HasObject(q)
    requires q.obj == s.requests[r].obj && o < |s.objects|
    requires var p, u := s.requests[r], s.objects[q.obj].view;
             || (p.Chosen? && q.Forwarding? && v == ReservedView(u))
             || (p.Forwarding? && q.Aborted? && v == ReleasedView(u))
             || (p.Answered? && q.Released? && p.ok == q.ok && v == ReleasedView(u))
             || (p.Forwarding? && q.Answered? && exists elapsed :: v == AnsweredView(u, q.ok, elapsed))
    ensures Balanced(if o == q.obj then v else s.objects[o].view, o, s.requests[r := q])
  {
    CountChanged(Outstanding, o, s.requests, r, q);
    CountChanged(Taken, o, s.requests, r, q);
    CountChanged(Replied, o, s.requests, r, q);
    CountChanged(Failed, o, s.requests, r, q);
    assert Balanced(s.objects[o].view, o, s.requests);
  }

  lemma NewIsBalanced(s: System, o: nat, e: Endpoint)
    requires Shape(s) && o >= |s.objects|
    ensures Balanced(NewView(e), o, s.requests)
  {
    CountNobody(Outstanding, o, s.requests);
    CountNobody(Taken, o, s.requests);
    CountNobody(Replied, o, s.requests);
    CountNobody(Failed, o, s.requests);
  }

  lemma UpdateKeepsAccounts(s: System, endpoints: seq<Endpoint>)
    requires Shape(s) && Accounts(s)
    ensures Accounts(Updated(s, endpoints))
  {
    var t := Updated(s, endpoints);
    UpdatedShape(s, endpoints);
    forall o | 0 <= o < |t.objects| ensures Balanced(t.objects[o].view, o, t.requests) {
      if o < |s.objects| {
        assert t.objects[o] == t.objects[..|s.objects|][o] == s.objects[o];
      } else {
        var e :| t.objects[o] == NewObject(e);
        NewIsBalanced(s, o, e);
      }
    }
  }

  lemma SelectKeepsAccounts(params: Params, s: System, body: Option<RequestText.Request>, at: int, order: seq<string>)
    requires Shape(s) && Accounts(s) && Enabled(params, s, Select(body, at, order))
    ensures Accounts(Selected(params, s, body, at, order))
  {
    var t := Selected(params, s, body, at, order);
    SelectedAdds(params, s, body, at, order);
    forall o | 0 <= o < |s.objects| ensures Balanced(t.objects[o].view, o, t.requests) {
      assert Balanced(s.objects[o].view, o, s.requests);
    }
  }

  lemma StepKeepsAccounts(params: Params, s: System, step: Step)
    requires Shape(s) && Accounts(s) && Enabled(params, s, step)
    ensures Accounts(Perform(params, s, step))
  {
    var t := Perform(params, s, step);
    match step
    case Update(endpoints) => UpdateKeepsAccounts(s, endpoints);
    case Select(body, at, order) => SelectKeepsAccounts(params, s, body, at, order);
    case Probe(p, success) =>
      forall o | 0 <= o < |s.objects| ensures Balanced(t.objects[o].view, o, t.requests) {
        assert Balanced(s.objects[o].view, o, s.requests);
      }
    case _ =>
      var r := step.req;
      forall o | 0 <= o < |s.objects| ensures Balanced(t.objects[o].view, o, t.requests) {
        MoveKeepsBalance(s, r, t.requests[r], t.objects[s.requests[r].obj].view, o);
      }
  }

  lemma {:induction false} RunAccounts(params: Params, endpoints: seq<Endpoint>, steps: seq<Step>)
    requires Run(params, endpoints, steps).Some?
    ensures Accounts(Run(params, endpoints, steps).value)
  {
    if steps == [] {
      UpdateKeepsAccounts(Empty(params), endpoints);
    } else {
      var n := |steps| - 1;
      RunShape(params, endpoints, steps[..n]);
      RunAccounts(params, endpoints, steps[..n]);
      StepKeepsAccounts(params, Run(params, endpoints, steps[..n]).value, steps[n]);
    }
  }

  /** Reservation conservation.  In every run, every object ever created has as many
      requests in flight as there are reservations not yet released; everything selected
      was answered, is being forwarded or was aborted; and errors are among the answers. */
  lemma ReservationConservation(params: Params, endpoints: seq<Endpoint>, steps: seq<Step>, o: nat)
    requires Run(params, endpoints, steps).Some? && o < |Run(params, endpoints, steps).value.objects|
    ensures var s := Run(params, endpoints, steps).value;
            var v := s.objects[o].view;
            && v.inflight == Count(Outstanding, o, s.requests) >= 0
            && v.selectedTotal == v.requestsTotal + Count(InForward, o, s.requests) + Count(Abandoned, o, s.requests)
            && v.requestsTotal == Count(Replied, o, s.requests)
            && v.errorsTotal == Count(Failed, o, s.requests) <= v.requestsTotal
  {
    RunAccounts(params, endpoints, steps);
    CountsAddUp(o, Run(params, endpoints, steps).value.requests);
  }

  /******* Health and averages *******/

  /** The length of the run of failures a probe log ends with. */
  function TrailingFailures(probes: seq<bool>): nat {
    if probes == [] || probes[|probes| - 1] then 0 else 1 + TrailingFailures(probes[..|probes| - 1])
  }

  predicate EverSucceeded(probes: seq<bool>) {
    exists i | 0 <= i < |probes| :: probes[i]
  }

  ghost predicate HealthFollowsProbes(params: Params, b: Object) {
    && b.view.healthFailures == TrailingFailures(b.probes)
    && (b.view.healthy <==> EverSucceeded(b.probes) && TrailingFailures(b.probes) < params.threshold)
  }

  lemma EverOneMore(probes: seq<bool>, success: bool)
    ensures EverSucceeded(probes + [success]) <==> EverSucceeded(probes) || success
  {
    var after := probes + [success];
    if EverSucceeded(probes) {
      var i :| 0 <= i < |probes| && probes[i];
      assert after[i];
    }
    assert after[|probes|] == success;
  }

  lemma ProbeKeepsHealth(params: Params, b: Object, success: bool)
    requires params.threshold > 0 && HealthFollowsProbes(params, b)
    ensures HealthFollowsProbes(params, b.(view := ProbedView(params, b.view, success), probes := b.probes + [success]))
  {
    EverOneMore(b.probes, success);
    assert (b.probes + [success])[..|b.probes|] == b.probes;
  }

  function Latencies(answers: seq<Answer>): seq<real> {
    seq(|answers|, i requires 0 <= i < |answers| => answers[i].elapsed)
  }

  function Failures(answers: seq<Answer>): seq<real> {
    seq(|answers|, i requires 0 <= i < |answers| => if answers[i].ok then 0.0 else 1.0)
  }

  ghost predicate AveragesFollowAnswers(b: Object) {
    && b.view.requestsTotal == |b.answers|
    && b.view.latency == Average(DEFAULT_ALPHA, 0.0, Latencies(b.answers))
    && b.view.errorRate == Average(DEFAULT_ALPHA, 0.0, Failures(b.answers))
    && (forall i | 0 <= i < |b.answers| :: 0.0 <= b.answers[i].elapsed)
  }

  lemma AnswerKeepsAverages(b: Object, success: bool, elapsed: real)
    requires AveragesFollowAnswers(b) && 0.0 <= elapsed
    ensures AveragesFollowAnswers(Object(AnsweredView(b.view, success, elapsed), b.probes, b.answers + [Answer(elapsed, success)]))
  {
    var after := b.answers + [Answer(elapsed, success)];
    assert Latencies(after)[..|b.answers|] == Latencies(b.answers);
    assert Failures(after)[..|b.answers|] == Failures(b.answers);
  }

  ghost predicate ObjectsFollowLogs(params: Params, s: System) {
    forall o | 0 <= o < |s.objects| :: HealthFollowsProbes(params, s.objects[o]) && AveragesFollowAnswers(s.objects[o])
  }

  lemma NewFollowsLogs(params: Params, e: Endpoint)
    ensures HealthFollowsProbes(params, NewObject(e)) && AveragesFollowAnswers(NewObject(e))
  {
  }

  lemma UpdateFollowsLogs(params: Params, s: System, endpoints: seq<Endpoint>)
    requires Shape(s) && ObjectsFollowLogs(params, s)
    ensures ObjectsFollowLogs(params, Updated(s, endpoints))
  {
    var t := Updated(s, endpoints);
    UpdatedShape(s, endpoints);
    forall o | 0 <= o < |t.objects|
      ensures HealthFollowsProbes(params, t.objects[o]) && AveragesFollowAnswers(t.objects[o])
    {
      if o < |s.objects| {
        assert t.objects[o] == t.objects[..|s.objects|][o] == s.objects[o];
      } else {
        var e :| t.objects[o] == NewObject(e);
        NewFollowsLogs(params, e);
      }
    }
  }

  lemma OneObjectFollowsLogs(params: Params, s: System, o: nat, b: Object)
    requires ObjectsFollowLogs(params, s) && o < |s.objects|
    requires HealthFollowsProbes(params, b) && AveragesFollowAnswers(b)
    ensures ObjectsFollowLogs(params, s.(objects := s.objects[o := b]))
  {
  }

  lemma SameLogs(params: Params, s: System, t: System)
    requires ObjectsFollowLogs(params, s) && t.objects == s.objects
    ensures ObjectsFollowLogs(params, t)
  {
  }

  lemma StepFollowsLogs(params: Params, s: System, step: Step)
    requires params.threshold > 0 && Shape(s) && ObjectsFollowLogs(params, s) && Enabled(params, s, step)
    ensures ObjectsFollowLogs(params, Perform(params, s, step))
  {
    var t := Perform(params, s, step);
    match step
    case Update(endpoints) => UpdateFollowsLogs(params, s, endpoints);
    case Select(body, at, order) =>
      SelectedAdds(params, s, body, at, order);
      SameLogs(params, s, t);
    case Probe(o, success) =>
      ProbeKeepsHealth(params, s.objects[o], success);
      OneObjectFollowsLogs(params, s, o, t.objects[o]);
    case Finish(r, success, elapsed, at) =>
      var o := s.requests[r].obj;
      AnswerKeepsAverages(s.objects[o], success, elapsed);
      OneObjectFollowsLogs(params, s, o, t.objects[o]);
      SameLogs(params, s.(objects := s.objects[o := t.objects[o]]), t);
    case _ =>
      var o := s.requests[step.req].obj;
      OneObjectFollowsLogs(params, s, o, t.objects[o]);
      SameLogs(params, s.(objects := s.objects[o := t.objects[o]]), t);
  }

  lemma {:induction false} RunFollowsLogs(params: Params, endpoints: seq<Endpoint>, steps: seq<Step>)
    requires params.threshold > 0 && Run(params, endpoints, steps).Some?
    ensures ObjectsFollowLogs(params, Run(params, endpoints, steps).value)
  {
    if steps == [] {
      UpdateFollowsLogs(params, Empty(params), endpoints);
    } else {
      var n := |steps| - 1;
      RunShape(params, endpoints, steps[..n]);
      RunFollowsLogs(params, endpoints, steps[..n]);
      StepFollowsLogs(params, Run(params, endpoints, steps[..n]).value, steps[n]);
    }
  }

  /** What a step says about the health of object `o`. */
  function ProbeOf(step: Step, o: nat): seq<bool> {
    match step
    case Probe(p, success) => if p == o then [success] else []
    case _ => []
  }

  /** The results of the probes of object `o` in a run. */
  function ProbesIn(steps: seq<Step>, o: nat): seq<bool> {
    if steps == [] then [] else ProbesIn(steps[..|steps| - 1], o) + ProbeOf(steps[|steps| - 1], o)
  }

  /** What a step answers for object `o`. */
  function AnswerOf(s: System, step: Step, o: nat): seq<Answer> {
    match step
    case Finish(r, success, elapsed, _) =>
      if r < |s.requests| && HasObject(s.requests[r]) && s.requests[r].obj == o then [Answer(elapsed, success)] else []
    case _ => []
  }

  /** The answers of object `o` in a run. */
  function AnswersIn(params: Params, endpoints: seq<Endpoint>, steps: seq<Step>, o: nat): seq<Answer>
    requires Run(params, endpoints, steps).Some?
  {
    if steps == [] then []
    else
      var n := |steps| - 1;
      AnswersIn(params, endpoints, steps[..n], o) + AnswerOf(Run(params, endpoints, steps[..n]).value, steps[n], o)
  }

  /** The records of an object, empty before it is created. */
  function RecordOf(s: System, o: nat): (seq<bool>, seq<Answer>) {
    if o < |s.objects| then (s.objects[o].probes, s.objects[o].answers) else ([], [])
  }

  lemma UpdateRecords(s: System, endpoints: seq<Endpoint>, o: nat)
    requires Shape(s)
    ensures RecordOf(Updated(s, endpoints), o) == RecordOf(s, o)
  {
    UpdatedShape(s, endpoints);
    assert o < |s.objects| ==> Updated(s, endpoints).objects[o] == Updated(s, endpoints).objects[..|s.objects|][o];
  }

  lemma StepRecords(params: Params, s: System, step: Step, o: nat)
    requires Shape(s) && Enabled(params, s, step)
    ensures RecordOf(Perform(params, s, step), o).0 == RecordOf(s, o).0 + ProbeOf(step, o)
    ensures RecordOf(Perform(params, s, step), o).1 == RecordOf(s, o).1 + AnswerOf(s, step, o)
  {
    match step
    case Update(endpoints) => UpdateRecords(s, endpoints, o);
    case Select(body, at, order) => SelectedAdds(params, s, body, at, order);
    case _ =>
  }

  /** The probes and answers recorded with an object are those of the run, all of them, in
      order. */
  lemma {:induction false} RecordsAreTheRuns(params: Params, endpoints: seq<Endpoint>, steps: seq<Step>, o: nat)
    requires Run(params, endpoints, steps).Some?
    ensures RecordOf(Run(params, endpoints, steps).value, o) == (ProbesIn(steps, o), AnswersIn(params, endpoints, steps, o))
  {
    if steps == [] {
      UpdateRecords(Empty(params), endpoints, o);
    } else {
      var n := |steps| - 1;
      RunShape(params, endpoints, steps[..n]);
      RecordsAreTheRuns(params, endpoints, steps[..n], o);
      StepRecords(params, Run(params, endpoints, steps[..n]).value, steps[n], o);
    }
  }

  /** Health refines the probes of the run, for every object ever created: the failure
      count is the length of the trailing run of failures, and an object is healthy exactly
      when some probe succeeded and that run is shorter than the threshold. */
  lemma HealthRefinesProbes(params: Params, endpoints: seq<Endpoint>, steps: seq<Step>, o: nat)
    requires params.threshold > 0
    requires Run(params, endpoints, steps).Some? && o < |Run(params, endpoints, steps).value.objects|
    ensures var v, probes := Run(params, endpoints, steps).value.objects[o].view, ProbesIn(steps, o);
            && v.healthFailures == TrailingFailures(probes)
            && (v.healthy <==> EverSucceeded(probes) && TrailingFailures(probes) < params.threshold)
  {
    RunFollowsLogs(params, endpoints, steps);
    RecordsAreTheRuns(params, endpoints, steps, o);
  }

  function Failing(k: nat): seq<bool> {
    seq(k, _ => false)
  }

  lemma {:induction false} FailingTail(before: seq<bool>, k: nat)
    ensures TrailingFailures(before + [true] + Failing(k)) == k
    ensures EverSucceeded(before + [true] + Failing(k))
  {
    var probes := before + [true] + Failing(k);
    assert probes[|before|];
    if k == 0 {
    } else {
      FailingTail(before, k - 1);
      assert probes[..|probes| - 1] == before + [true] + Failing(k - 1);
    }
  }

  /** A backend that answered and then failed `k` probes in a row is healthy as long as `k` is
      less than the threshold that was configured, or than 3 if that was 0. */
  lemma {:induction false} ThresholdDecides(params: Params, endpoints: seq<Endpoint>, steps: seq<Step>, o: nat,
                                            configured: nat, before: seq<bool>, k: nat)
    requires params.threshold == NormalizedThreshold(configured)
    requires Run(params, endpoints, steps).Some? && o < |Run(params, endpoints, steps).value.objects|
    requires ProbesIn(steps, o) == before + [true] + Failing(k)
    ensures Run(params, endpoints, steps).value.objects[o].view.healthy <==> k < if configured == 0 then 3 else configured
  {
    HealthRefinesProbes(params, endpoints, steps, o);
    FailingTail(before, k);
  }

  /** In every run, the averages of an object are those of its answers in the run, and its
      requests are counted. */
  lemma {:induction false} AveragesRefineAnswers(params: Params, endpoints: seq<Endpoint>, steps: seq<Step>, o: nat)
    requires params.threshold > 0
    requires Run(params, endpoints, steps).Some? && o < |Run(params, endpoints, steps).value.objects|
    ensures var v, answers := Run(params, endpoints, steps).value.objects[o].view, AnswersIn(params, endpoints, steps, o);
            && v.requestsTotal == |answers|
            && v.latency == Average(DEFAULT_ALPHA, 0.0, Latencies(answers))
            && v.errorRate == Average(DEFAULT_ALPHA, 0.0, Failures(answers))
            && (forall i | 0 <= i < |answers| :: 0.0 <= answers[i].elapsed)
  {
    RunFollowsLogs(params, endpoints, steps);
    RecordsAreTheRuns(params, endpoints, steps, o);
  }

  lemma AverageOfOne(x: real)
    ensures Average(DEFAULT_ALPHA, 0.0, [x]) == 0.05 * x
  {
    assert [x][..0] == [];
  }

  /** After its first answer a backend's latency is a twentieth of what that answer took, and
      its error rate is a twentieth if it failed. */
  lemma {:induction false} FirstAnswer(params: Params, endpoints: seq<Endpoint>, steps: seq<Step>, o: nat, elapsed: real, ok: bool)
    requires params.threshold > 0
    requires Run(params, endpoints, steps).Some? && o < |Run(params, endpoints, steps).value.objects|
    requires AnswersIn(params, endpoints, steps, o) == [Answer(elapsed, ok)]
    ensures var v := Run(params, endpoints, steps).value.objects[o].view;
            v.latency == 0.05 * elapsed && v.errorRate == (if ok then 0.0 else 0.05) && v.requestsTotal == 1
  {
    AveragesRefineAnswers(params, endpoints, steps, o);
    assert Latencies([Answer(elapsed, ok)]) == [elapsed];
    assert Failures([Answer(elapsed, ok)]) == [if ok then 0.0 else 1.0];
    AverageOfOne(elapsed);
    AverageOfOne(if ok then 0.0 else 1.0);
  }

  lemma FailureRateBounds(answers: seq<Answer>)
    ensures 0.0 <= Average(DEFAULT_ALPHA, 0.0, Failures(answers)) <= 1.0 - Power(1.0 - DEFAULT_ALPHA, |answers|)
  {
    UnitBounds(DEFAULT_ALPHA, Failures(answers));
  }

  lemma LatencyBounds(answers: seq<Answer>, slowest: real)
    requires 0.0 <= slowest && forall i | 0 <= i < |answers| :: 0.0 <= answers[i].elapsed <= slowest
    ensures 0.0 <= Average(DEFAULT_ALPHA, 0.0, Latencies(answers)) <= slowest
  {
    AverageBounds(DEFAULT_ALPHA, Latencies(answers), slowest);
  }

  /** So along every run the error rate stays in [0, 1-(1-alpha)^n] after n answers, and the
      latency between 0 and any bound on the latencies observed in the run. */
  lemma {:induction false} AveragesStayBounded(params: Params, endpoints: seq<Endpoint>, steps: seq<Step>, o: nat, slowest: real)
    requires params.threshold > 0
    requires Run(params, endpoints, steps).Some? && o < |Run(params, endpoints, steps).value.objects|
    requires var answers := AnswersIn(params, endpoints, steps, o);
             0.0 <= slowest && forall i | 0 <= i < |answers| :: answers[i].elapsed <= slowest
    ensures var v, n := Run(params, endpoints, steps).value.objects[o].view, |AnswersIn(params, endpoints, steps, o)|;
            && 0.0 <= v.errorRate <= 1.0 - Power(1.0 - DEFAULT_ALPHA, n)
            && 0.0 <= v.latency <= slowest
  {
    AveragesRefineAnswers(params, endpoints, steps, o);
    FailureRateBounds(AnswersIn(params, endpoints, steps, o));
    LatencyBounds(AnswersIn(params, endpoints, steps, o), slowest);
  }

  /******* Who gets requests *******/

  ghost predicate GivenToProven(s: System) {
    && Shape(s)
    && forall r | 0 <= r < |s.requests| && HasObject(s.requests[r]) :: EverSucceeded(s.objects[s.requests[r].obj].probes)
  }

  lemma UpdateKeepsProven(s: System, endpoints: seq<Endpoint>)
    requires GivenToProven(s)
    ensures GivenToProven(Updated(s, endpoints))
  {
    var t := Updated(s, endpoints);
    UpdatedShape(s, endpoints);
    assert forall o | 0 <= o < |s.objects| :: t.objects[o] == t.objects[..|s.objects|][o];
  }

  lemma ProbeKeepsProven(params: Params, s: System, o: nat, success: bool)
    requires GivenToProven(s) && o < |s.objects|
    ensures GivenToProven(Probed(params, s, o, success))
  {
    EverOneMore(s.objects[o].probes, success);
  }

  lemma SelectKeepsProven(params: Params, s: System, body: Option<RequestText.Request>, at: int, order: seq<string>)
    requires GivenToProven(s) && ObjectsFollowLogs(params, s) && Enabled(params, s, Select(body, at, order))
    ensures GivenToProven(Selected(params, s, body, at, order))
  {
    var t := Selected(params, s, body, at, order);
    SelectedAdds(params, s, body, at, order);
    assert forall r | 0 <= r < |s.requests| :: t.requests[r] == t.requests[..|s.requests|][r];
  }

  lemma {:induction false} StepKeepsProven(params: Params, s: System, step: Step)
    requires params.threshold > 0 && GivenToProven(s) && ObjectsFollowLogs(params, s) && Enabled(params, s, step)
    ensures GivenToProven(Perform(params, s, step))
  {
    match step
    case Update(endpoints) => UpdateKeepsProven(s, endpoints);
    case Probe(o, success) => ProbeKeepsProven(params, s, o, success);
    case Select(body, at, order) => SelectKeepsProven(params, s, body, at, order);
    case _ =>
  }

  /** No request is ever given to, reserved on or forwarded to an object that was never
      probed successfully. */
  lemma {:induction false} OnlyProvenObjects(params: Params, endpoints: seq<Endpoint>, steps: seq<Step>)
    requires params.threshold > 0 && Run(params, endpoints, steps).Some?
    ensures GivenToProven(Run(params, endpoints, steps).value)
  {
    if steps == [] {
      InitShape(params, endpoints);
    } else {
      var n := |steps| - 1;
      OnlyProvenObjects(params, endpoints, steps[..n]);
      RunFollowsLogs(params, endpoints, steps[..n]);
      StepKeepsProven(params, Run(params, endpoints, steps[..n]).value, steps[n]);
    }
  }

  /** Every selection gives the request to a listed object some probe of which succeeded
      and whose last `threshold` probes did not all fail. */
  lemma {:induction false} SelectionsAreHealthy(params: Params, endpoints: seq<Endpoint>, steps: seq<Step>,
                                                body: Option<RequestText.Request>, at: int, order: seq<string>)
    requires params.threshold > 0 && Run(params, endpoints, steps).Some?
    requires Enabled(params, Run(params, endpoints, steps).value, Select(body, at, order))
    ensures var s := Run(params, endpoints, steps).value;
            var t := Perform(params, s, Select(body, at, order));
            |t.requests| == |s.requests| + 1 &&
            match t.requests[|s.requests|]
            case Chosen(o, _) =>
              o in s.snapshot.list && o < |s.objects| && EverSucceeded(ProbesIn(steps, o))
              && TrailingFailures(ProbesIn(steps, o)) < params.threshold
            case q => q.Rejected?
  {
    RunFollowsLogs(params, endpoints, steps);
    forall o ensures RecordOf(Run(params, endpoints, steps).value, o).0 == ProbesIn(steps, o) {
      RecordsAreTheRuns(params, endpoints, steps, o);
    }
    SelectedAdds(params, Run(params, endpoints, steps).value, body, at, order);
  }
}
