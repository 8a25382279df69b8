/**
 Runs in progress: what a whole round of health checks and a whole forwarded request make of
 them.
 */
module EngineTrace {
  import opened Wrappers
  import opened Backend
  import opened Scheduler
  import opened RequestText
  import opened Engine
  import opened EngineObjects
  import opened EngineSnapshots

  /** Whether the ID index of the model's snapshot is that of its list. */
  ghost predicate Coherent(s: System) {
    ListsObjects(s) && s.snapshot.byId == IndexById<nat>(Ids(Listed(s)), s.snapshot.list)
  }

  lemma ShownIsCoherent(s: System, endpoints: seq<Endpoint>)
    requires ListsObjects(s) && Shows(s, endpoints)
    ensures Coherent(s)
  {
    assert Ids(Listed(s)) == EndpointIds(endpoints);
  }

  /** A run so far: the first endpoints, the steps since, and where they lead. */
  datatype Trace = Trace(first: seq<Endpoint>, steps: seq<Step>, sys: System) {
    ghost predicate Sound(params: Params) {
      params.threshold > 0 && Run(params, first, steps) == Some(sys)
    }

    function After(params: Params, step: Step): Trace
      requires Enabled(params, sys, step)
    {
      Trace(first, steps + [step], Perform(params, sys, step))
    }
  }

  lemma SoundIsCoherent(params: Params, t: Trace)
    requires t.Sound(params)
    ensures Shape(t.sys) && Coherent(t.sys)
  {
    RunShape(params, t.first, t.steps);
    SnapshotMatchesAnnouncement(params, t.first, t.steps);
    ShownIsCoherent(t.sys, Announced(t.first, t.steps));
  }

  lemma {:induction false} AfterIsSound(params: Params, t: Trace, step: Step)
    requires t.Sound(params) && Enabled(params, t.sys, step)
    ensures t.After(params, step).Sound(params)
    ensures !step.Update? ==> t.After(params, step).sys.snapshot == t.sys.snapshot
  {
    assert (t.steps + [step])[..|t.steps|] == t.steps;
    RunShape(params, t.first, t.steps);
    StepKeepsSnapshot(params, t.sys, step);
  }

  /******* A round of health checks *******/

  /** One round of health checks: a probe of each listed object in turn. */
  function Round(list: seq<nat>, results: seq<bool>): seq<Step>
    requires |list| == |results|
  {
    seq(|list|, k requires 0 <= k < |list| => Probe(list[k], results[k]))
  }

  /** The results of a round that concern object `o`. */
  function ResultsFor(list: seq<nat>, results: seq<bool>, o: nat): seq<bool>
    requires |list| == |results|
  {
    if list == [] then []
    else
      var n := |list| - 1;
      ResultsFor(list[..n], results[..n], o) + if list[n] == o then [results[n]] else []
  }

  lemma {:induction false} ResultsForDistinct(list: seq<nat>, results: seq<bool>, o: nat)
    requires |list| == |results| && Distinct(list)
    ensures o !in list ==> ResultsFor(list, results, o) == []
    ensures forall k | 0 <= k < |list| && list[k] == o :: ResultsFor(list, results, o) == [results[k]]
  {
    if list == [] {
    } else {
      var n := |list| - 1;
      ResultsForDistinct(list[..n], results[..n], o);
    }
  }

  /** A run continued by a round of health checks. */
  function Checked(params: Params, t: Trace, list: seq<nat>, results: seq<bool>): (u: Trace)
    requires ListsObjects(t.sys) && |list| == |results| && forall k | 0 <= k < |list| :: list[k] < |t.sys.objects|
    ensures u.first == t.first && u.sys.snapshot == t.sys.snapshot && |u.sys.objects| == |t.sys.objects|
  {
    if list == [] then t
    else
      var n := |list| - 1;
      Checked(params, t, list[..n], results[..n]).After(params, Probe(list[n], results[n]))
  }

  lemma CheckedOneMore(params: Params, t: Trace, list: seq<nat>, results: seq<bool>, i: nat)
    requires ListsObjects(t.sys) && |list| == |results| && i < |list| && forall k | 0 <= k < |list| :: list[k] < |t.sys.objects|
    ensures Checked(params, t, list[..i + 1], results[..i + 1])
         == Checked(params, t, list[..i], results[..i]).After(params, Probe(list[i], results[i]))
  {
    assert list[..i + 1][..i] == list[..i] && results[..i + 1][..i] == results[..i];
  }

  lemma CheckedEnds(params: Params, t: Trace, list: seq<nat>, results: seq<bool>)
    requires ListsObjects(t.sys) && |list| == |results| && forall k | 0 <= k < |list| :: list[k] < |t.sys.objects|
    ensures Checked(params, t, list[..0], results[..0]) == t
    ensures Checked(params, t, list[..|list|], results[..|list|]) == Checked(params, t, list, results)
  {
    assert list[..|list|] == list && results[..|list|] == results;
  }

  /** Such a round appends to each object's probes the results that concern it, and takes
      no other step. */
  lemma {:induction false} CheckedMeans(params: Params, t: Trace, list: seq<nat>, results: seq<bool>)
    requires ListsObjects(t.sys) && |list| == |results| && forall k | 0 <= k < |list| :: list[k] < |t.sys.objects|
    ensures var u := Checked(params, t, list, results);
            && u.steps == t.steps + Round(list, results)
            && forall o | 0 <= o < |t.sys.objects| ::
                 u.sys.objects[o].probes == t.sys.objects[o].probes + ResultsFor(list, results, o)
  {
    if list == [] {
    } else {
      var n := |list| - 1;
      CheckedMeans(params, t, list[..n], results[..n]);
      assert Round(list, results) == Round(list[..n], results[..n]) + [Probe(list[n], results[n])];
    }
  }

  lemma {:induction false} CheckedIsSound(params: Params, t: Trace, list: seq<nat>, results: seq<bool>)
    requires t.Sound(params)
    requires ListsObjects(t.sys) && |list| == |results| && forall k | 0 <= k < |list| :: list[k] < |t.sys.objects|
    ensures Checked(params, t, list, results).Sound(params)
  {
    if list == [] {
    } else {
      var n := |list| - 1;
      CheckedIsSound(params, t, list[..n], results[..n]);
      AfterIsSound(params, Checked(params, t, list[..n], results[..n]), Probe(list[n], results[n]));
    }
  }

  /** One more probe, as it shows in an object's health. */
  lemma OneMoreProbe(params: Params, b: Object, c: Object, success: bool)
    requires HealthFollowsProbes(params, b) && HealthFollowsProbes(params, c) && c.probes == b.probes + [success]
    requires params.threshold > 0
    ensures c.view.healthy <==> success || (b.view.healthy && b.view.healthFailures + 1 < params.threshold)
  {
    EverOneMore(b.probes, success);
    assert c.probes[..|c.probes| - 1] == b.probes;
  }

  /** What became of object `o` when it was probed with `success`, or not at all. */
  ghost predicate Checks(params: Params, before: Object, after: Object, success: Option<bool>) {
    match success
    case None => after.probes == before.probes && after.view.healthy == before.view.healthy
    case Some(ok) =>
      && after.probes == before.probes + [ok]
      && (after.view.healthy <==> ok || (before.view.healthy && before.view.healthFailures + 1 < params.threshold))
  }

  lemma ChecksOne(params: Params, t: Trace, list: seq<nat>, results: seq<bool>, o: nat, success: Option<bool>)
    requires t.Sound(params) && o < |t.sys.objects|
    requires ListsObjects(t.sys) && |list| == |results| && forall k | 0 <= k < |list| :: list[k] < |t.sys.objects|
    requires ResultsFor(list, results, o) == if success.Some? then [success.value] else []
    ensures Checks(params, t.sys.objects[o], Checked(params, t, list, results).sys.objects[o], success)
  {
    var u := Checked(params, t, list, results);
    CheckedMeans(params, t, list, results);
    CheckedIsSound(params, t, list, results);
    RunFollowsLogs(params, t.first, t.steps);
    RunFollowsLogs(params, u.first, u.steps);
    if success.Some? {
      OneMoreProbe(params, t.sys.objects[o], u.sys.objects[o], success.value);
    }
  }

  /** A round over distinct objects probes each of them once.  One that answers is healthy
      then; one that fails stays healthy only short of the threshold; the others are left
      alone.  The listed objects are distinct when their IDs are. */
  lemma {:induction false} RoundDecidesHealth(params: Params, t: Trace, list: seq<nat>, results: seq<bool>)
    requires t.Sound(params) && Distinct(list)
    requires ListsObjects(t.sys) && |list| == |results| && forall k | 0 <= k < |list| :: list[k] < |t.sys.objects|
    ensures forall k | 0 <= k < |list| ::
              Checks(params, t.sys.objects[list[k]], Checked(params, t, list, results).sys.objects[list[k]], Some(results[k]))
    ensures forall o | 0 <= o < |t.sys.objects| && o !in list ::
              Checks(params, t.sys.objects[o], Checked(params, t, list, results).sys.objects[o], None)
  {
    var u := Checked(params, t, list, results);
    forall k | 0 <= k < |list| ensures Checks(params, t.sys.objects[list[k]], u.sys.objects[list[k]], Some(results[k])) {
      ResultsForDistinct(list, results, list[k]);
      ChecksOne(params, t, list, results, list[k], Some(results[k]));
    }
    forall o | 0 <= o < |t.sys.objects| && o !in list ensures Checks(params, t.sys.objects[o], u.sys.objects[o], None) {
      ResultsForDistinct(list, results, o);
      ChecksOne(params, t, list, results, o, None);
    }
  }

  /******* A whole request *******/

  /** How the call to a backend ends: with an answer, or in a panic. */
  datatype Reply = Replied(success: bool, elapsed: real, at: int) | Panicked

  /** The steps that settle a reserved request. */
  function Settling(req: nat, reply: Reply): seq<Step> {
    match reply
    case Replied(success, elapsed, at) => [Finish(req, success, elapsed, at), Release(req)]
    case Panicked => [Abort(req)]
  }

  /** Everything `Forward` does for the request numbered `req`. */
  function ForwardSteps(req: nat, body: Option<RequestText.Request>, at: int, order: seq<string>, refused: bool, reply: Reply): seq<Step> {
    [Select(body, at, order)] + if refused then [] else [Reserve(req)] + Settling(req, reply)
  }

  lemma ForwardInParts(steps: seq<Step>, req: nat, body: Option<RequestText.Request>, at: int, order: seq<string>,
                       refused: bool, reply: Reply)
    ensures var selected := steps + [Select(body, at, order)] + if refused then [] else [Reserve(req)];
            steps + ForwardSteps(req, body, at, order, refused, reply)
            == if refused then selected else selected + Settling(req, reply)
  {
  }

  lemma RunUnrolls(params: Params, first: seq<Endpoint>, steps: seq<Step>, step: Step)
    requires Run(params, first, steps + [step]).Some?
    ensures Run(params, first, steps).Some? && Enabled(params, Run(params, first, steps).value, step)
    ensures Run(params, first, steps + [step]).value == Perform(params, Run(params, first, steps).value, step)
  {
    assert (steps + [step])[..|steps|] == steps;
  }

  ghost predicate SameLoads(s: System, t: System) {
    |t.objects| == |s.objects| && forall o | 0 <= o < |s.objects| :: t.objects[o].view.inflight == s.objects[o].view.inflight
  }

  /** `t` is `s` with one more reservation of object `obj`, held by request `r`. */
  ghost predicate OneMore(s: System, t: System, r: nat, obj: nat) {
    && |t.objects| == |s.objects| && r < |t.requests| && HasObject(t.requests[r]) && t.requests[r].obj == obj
    && forall o | 0 <= o < |s.objects| ::
         t.objects[o].view.inflight == s.objects[o].view.inflight + if o == obj then 1 else 0
  }

  lemma SettlingRestores(params: Params, first: seq<Endpoint>, steps: seq<Step>, s: System, r: nat, obj: nat, reply: Reply)
    requires Run(params, first, steps).Some? && Run(params, first, steps + Settling(r, reply)).Some?
    requires OneMore(s, Run(params, first, steps).value, r, obj)
    ensures SameLoads(s, Run(params, first, steps + Settling(r, reply)).value)
  {
    match reply
    case Panicked => RunUnrolls(params, first, steps, Abort(r));
    case Replied(success, elapsed, at) =>
      var finish := Finish(r, success, elapsed, at);
      assert steps + Settling(r, reply) == steps + [finish] + [Release(r)];
      RunUnrolls(params, first, steps + [finish], Release(r));
      RunUnrolls(params, first, steps, finish);
      assert OneMore(s, Run(params, first, steps + [finish]).value, r, obj);
  }

  /** The steps of one `Forward` leave every load as it was. */
  lemma LoadsRestored(params: Params, t: Trace, u: Trace, body: Option<RequestText.Request>, at: int, order: seq<string>,
                      refused: bool, reply: Reply)
    requires t.Sound(params) && u.Sound(params) && u.first == t.first
    requires u.steps == t.steps + ForwardSteps(|t.sys.requests|, body, at, order, refused, reply)
    ensures SameLoads(t.sys, u.sys)
  {
    var r, select := |t.sys.requests|, Select(body, at, order);
    if refused {
      RunUnrolls(params, t.first, t.steps, select);
    } else {
      var reserved := t.steps + [select] + [Reserve(r)];
      assert u.steps == reserved + Settling(r, reply);
      RunPrefix(params, t.first, reserved, Settling(r, reply));
      RunUnrolls(params, t.first, t.steps + [select], Reserve(r));
      RunUnrolls(params, t.first, t.steps, select);
      SelectedAdds(params, t.sys, body, at, order);
      SettlingRestores(params, t.first, reserved, t.sys, r, Run(params, t.first, reserved).value.requests[r].obj, reply);
    }
  }

  lemma {:induction false} RunPrefix(params: Params, first: seq<Endpoint>, steps: seq<Step>, more: seq<Step>)
    requires Run(params, first, steps + more).Some?
    ensures Run(params, first, steps).Some?
  {
    if more == [] {
      assert steps + more == steps;
    } else {
      var n := |more| - 1;
      assert (steps + more)[..|steps| + n] == steps + more[..n];
      RunPrefix(params, first, steps, more[..n]);
    }
  }
}
