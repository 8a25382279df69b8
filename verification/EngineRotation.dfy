/** The rotation over runs: how far it advances, and whom it serves. */
module EngineRotation {
  import opened Wrappers
  import opened Backend
  import opened Prefix
  import opened PrefixIndex
  import opened Rotation
  import opened Scheduler
  import opened RequestText
  import opened Engine
  import opened EngineObjects
  import opened EngineSnapshots

  /** Steps taken from any state. */
  function Continue(params: Params, s: System, steps: seq<Step>): Option<System> {
    if steps == [] then Some(s)
    else
      var n := |steps| - 1;
      Next(params, Continue(params, s, steps[..n]), steps[n])
  }

  function Next(params: Params, s: Option<System>, step: Step): Option<System> {
    if s.Some? && Enabled(params, s.value, step) then Some(Perform(params, s.value, step)) else None
  }

  lemma RunLast(params: Params, endpoints: seq<Endpoint>, steps: seq<Step>)
    requires steps != []
    ensures var n := |steps| - 1; Run(params, endpoints, steps) == Next(params, Run(params, endpoints, steps[..n]), steps[n])
  {
  }

  /** A run is its first part, continued. */
  lemma {:induction false} RunContinues(params: Params, endpoints: seq<Endpoint>, steps: seq<Step>, more: seq<Step>)
    requires Run(params, endpoints, steps).Some?
    ensures Run(params, endpoints, steps + more) == Continue(params, Run(params, endpoints, steps).value, more)
  {
    if more == [] {
      assert steps + more == steps;
    } else {
      var n := |more| - 1;
      RunContinues(params, endpoints, steps, more[..n]);
      RunLast(params, endpoints, steps + more);
      LastOfBoth(steps, more);
    }
  }

  lemma LastOfBoth<T>(a: seq<T>, b: seq<T>)
    requires b != []
    ensures (a + b)[..|a + b| - 1] == a + b[..|b| - 1] && (a + b)[|a + b| - 1] == b[|b| - 1]
  {
  }

  /******* How far the counter gets *******/

  /** Whether a step is a selection that gets to a scan: there is a list, and the policy does
      without the request's text or the text could be decoded. */
  predicate Scans(params: Params, s: System, step: Step) {
    step.Select? && s.snapshot.list != [] && (params.policy == "cache_aware" ==> step.body.Some?)
  }

  function ScansIn(params: Params, s: System, steps: seq<Step>): nat
    requires Continue(params, s, steps).Some?
  {
    if steps == [] then 0
    else
      var n := |steps| - 1;
      ScansIn(params, s, steps[..n]) + if Scans(params, Continue(params, s, steps[..n]).value, steps[n]) then 1 else 0
  }

  lemma StepAdvances(params: Params, s: System, step: Step)
    requires Enabled(params, s, step)
    ensures Perform(params, s, step).next == if Scans(params, s, step) then Increment(s.next) else s.next
  {
  }

  function Advanced(counter: Word64, k: nat): Word64 {
    if k == 0 then counter else Increment(Advanced(counter, k - 1))
  }

  lemma WrapOnce(v: nat)
    ensures (v + 1) % TWO_64 == if v % TWO_64 + 1 == TWO_64 then 0 else v % TWO_64 + 1
  {
  }

  lemma {:induction false} AdvancedIsModulo(counter: Word64, k: nat)
    ensures Advanced(counter, k) == (counter + k) % 18446744073709551616
  {
    if k == 0 {
    } else {
      AdvancedIsModulo(counter, k - 1);
      WrapOnce(counter + k - 1);
    }
  }

  lemma ContinueLast(params: Params, s: System, steps: seq<Step>)
    requires steps != [] && Continue(params, s, steps).Some?
    ensures var n := |steps| - 1;
            && Continue(params, s, steps[..n]).Some? && Enabled(params, Continue(params, s, steps[..n]).value, steps[n])
            && Continue(params, s, steps).value == Perform(params, Continue(params, s, steps[..n]).value, steps[n])
  {
  }

  /** The counter advances once with every selection that gets to a scan, and with no other
      step; by `AdvancedIsModulo` that is by one, modulo 2^64. */
  lemma {:induction false} CounterCountsScans(params: Params, s: System, steps: seq<Step>)
    requires Continue(params, s, steps).Some?
    ensures Continue(params, s, steps).value.next == Advanced(s.next, ScansIn(params, s, steps))
  {
    if steps == [] {
    } else {
      var n := |steps| - 1;
      CounterCountsScans(params, s, steps[..n]);
      ContinueLast(params, s, steps);
      StepAdvances(params, Continue(params, s, steps[..n]).value, steps[n]);
    }
  }

  /******* Whom the rotation serves *******/

  /** A selection that the rotation alone decides: the policy is another one, or the request
      finds no candidate and all healthy backends cost the same. */
  predicate RotationDecides(params: Params, s: System, body: Option<RequestText.Request>, at: int)
    requires ListsObjects(s)
  {
    params.policy == "cache_aware" ==>
      && body.Some?
      && Candidates(params.index, s.index, RequestFingerprints(body.value), at).matches == map[]
      && EqualCosts(Listed(s))
  }

  /** The step changes neither health nor the list, and if it selects, the rotation decides. */
  predicate AllowsRotation(params: Params, s: System, step: Step) {
    match step
    case Update(_) => false
    case Probe(_, _) => false
    case Select(body, at, _) => ListsObjects(s) && RotationDecides(params, s, body, at)
    case _ => true
  }

  /** So do all of the steps. */
  predicate RotatesThrough(params: Params, s: System, steps: seq<Step>)
    requires Continue(params, s, steps).Some?
  {
    steps == [] ||
    var n := |steps| - 1;
    RotatesThrough(params, s, steps[..n]) && AllowsRotation(params, Continue(params, s, steps[..n]).value, steps[n])
  }

  function Selection(step: Step): nat {
    if step.Select? then 1 else 0
  }

  function Selections(steps: seq<Step>): nat {
    if steps == [] then 0 else Selections(steps[..|steps| - 1]) + Selection(steps[|steps| - 1])
  }

  /** The request goes where the rotation says. */
  ghost predicate FollowsRotation(s: System, picked: Picked, q: Engine.Request) {
    match picked
    case Found(p) => p < |s.snapshot.list| && q.Chosen? && q.obj == s.snapshot.list[p]
    case Nobody => q == Rejected(NoHealthyBackends)
    case OutOfRange => q == Rejected(IndexOutOfRange)
  }

  lemma OrderNeedsMatches(order: seq<string>, matches: Matches)
    requires Enumerates(order, matches)
    ensures order != [] ==> matches != map[]
  {
    if order != [] {
      assert order[0] in matches;
    }
  }

  /** With equal costs and no candidates the choice is the rotation's. */
  lemma ColdChoiceRotates(vs: seq<BackendView>, counter: Word64, matches: Matches, order: seq<string>)
    requires vs != [] && EqualCosts(vs) && matches == map[] && Enumerates(order, matches)
    requires AllPositionsInRange(counter, |vs|)
    ensures PositionOf(Choose(vs, counter, matches, order)) == RoundRobin(vs, counter)
  {
    OrderNeedsMatches(order, matches);
    EqualCostsRotate(vs, counter);
    RoundRobinIsFirst(vs, counter);
  }

  lemma SelectFollowsRotation(params: Params, s: System, body: Option<RequestText.Request>, at: int, order: seq<string>)
    requires Enabled(params, s, Select(body, at, order)) && s.snapshot.list != [] && RotationDecides(params, s, body, at)
    requires ScanInRange(s)
    ensures var t := Selected(params, s, body, at, order);
            && t.objects == s.objects && t.snapshot == s.snapshot && t.next == Increment(s.next)
            && |t.requests| == |s.requests| + 1 && t.requests[..|s.requests|] == s.requests
            && FollowsRotation(s, RoundRobin(Listed(s), s.next), t.requests[|s.requests|])
  {
    RoundRobinIsFirst(Listed(s), s.next);
    if params.policy == POLICY_CACHE_AWARE {
      ColdChoiceRotates(Listed(s), s.next, Candidates(params.index, s.index, RequestFingerprints(body.value), at).matches, order);
    }
  }

  /** The same objects are listed and healthy. */
  ghost predicate SameHealth(s: System, t: System) {
    && ListsObjects(s) && ListsObjects(t)
    && t.snapshot == s.snapshot
    && forall k | 0 <= k < |s.snapshot.list| ::
         t.objects[s.snapshot.list[k]].view.healthy == s.objects[s.snapshot.list[k]].view.healthy
  }

  lemma {:induction false} PickSeesHealth(vs: seq<BackendView>, us: seq<BackendView>, r: nat, i: nat)
    requires r < |vs| == |us| && forall k | 0 <= k < |vs| :: us[k].healthy == vs[k].healthy
    ensures PickFrom(us, r, i) == PickFrom(vs, r, i)
    decreases |vs| - i
  {
    if i >= |vs| {
    } else {
      PickSeesHealth(vs, us, r, i + 1);
    }
  }

  lemma SamePick(s: System, t: System, counter: nat)
    requires SameHealth(s, t)
    ensures Pick(Listed(t), counter) == Pick(Listed(s), counter)
  {
    if s.snapshot.list != [] {
      NextStart(counter, 0, |s.snapshot.list|);
      PickSeesHealth(Listed(s), Listed(t), Start(counter, |s.snapshot.list|), 0);
    }
  }

  lemma OtherStepKeepsHealth(params: Params, s: System, step: Step, o: nat)
    requires Shape(s) && Enabled(params, s, step) && (step.Reserve? || step.Finish? || step.Abort? || step.Release?)
    ensures var t := Perform(params, s, step);
            && SameHealth(s, t) && t.next == s.next
            && Count(Assigned, o, t.requests) == Count(Assigned, o, s.requests)
  {
    CountChanged(Assigned, o, s.requests, step.req, Perform(params, s, step).requests[step.req]);
  }

  /** Object `list[p]` is listed once and healthy. */
  ghost predicate ListedOnce(s: System, p: nat)
    requires ListsObjects(s)
  {
    && p < |s.snapshot.list|
    && s.objects[s.snapshot.list[p]].view.healthy
    && forall q | 0 <= q < |s.snapshot.list| && q != p :: s.snapshot.list[q] != s.snapshot.list[p]
  }

  lemma OneMoreRequest(s: System, t: System, p: nat, picked: Picked)
    requires ListsObjects(s) && ListedOnce(s, p)
    requires |t.requests| == |s.requests| + 1 && t.requests[..|s.requests|] == s.requests
    requires FollowsRotation(s, picked, t.requests[|s.requests|])
    ensures Count(Assigned, s.snapshot.list[p], t.requests)
         == Count(Assigned, s.snapshot.list[p], s.requests) + if picked == Found(p) then 1 else 0
  {
  }

  lemma SelectServes(params: Params, s: System, body: Option<RequestText.Request>, at: int, order: seq<string>, p: nat)
    requires Shape(s) && Enabled(params, s, Select(body, at, order)) && RotationDecides(params, s, body, at)
    requires ListedOnce(s, p) && s.next + |s.snapshot.list| <= TWO_63
    ensures var t := Selected(params, s, body, at, order);
            && SameHealth(s, t) && t.next == s.next + 1
            && Count(Assigned, s.snapshot.list[p], t.requests)
               == Count(Assigned, s.snapshot.list[p], s.requests) + if Pick(Listed(s), s.next) == Some(p) then 1 else 0
  {
    LowCounter(s.next, |s.snapshot.list|);
    RoundRobinIsPick(Listed(s), s.next);
    SelectFollowsRotation(params, s, body, at, order);
    OneMoreRequest(s, Selected(params, s, body, at, order), p, RoundRobin(Listed(s), s.next));
  }

  /** `t` is `s` after `k` more turns of the rotation. */
  ghost predicate Turned(s: System, t: System, p: nat, k: nat)
    requires ListsObjects(s) && p < |s.snapshot.list| && s.next + k <= TWO_63
  {
    && SameHealth(s, t) && t.next == s.next + k
    && Count(Assigned, s.snapshot.list[p], t.requests)
       == Count(Assigned, s.snapshot.list[p], s.requests) + TimesPicked(Listed(s), s.next, p, k)
  }

  lemma SameHealthAgain(s: System, t: System, u: System)
    requires SameHealth(s, t) && SameHealth(t, u)
    ensures SameHealth(s, u) && (forall p: nat :: ListedOnce(s, p) <==> ListedOnce(t, p))
  {
  }

  /** One more turn, from `t` to `u`. */
  lemma TurnOnce(s: System, t: System, u: System, p: nat, k: nat)
    requires ListsObjects(s) && p < |s.snapshot.list| && s.next + k + 1 <= TWO_63
    requires Turned(s, t, p, k) && SameHealth(t, u) && u.next == t.next + 1
    requires Count(Assigned, t.snapshot.list[p], u.requests)
          == Count(Assigned, t.snapshot.list[p], t.requests) + if Pick(Listed(t), t.next) == Some(p) then 1 else 0
    ensures Turned(s, u, p, k + 1)
  {
    SameHealthAgain(s, t, u);
    SamePick(s, t, t.next);
  }

  lemma SelectTurns(params: Params, s: System, t: System, p: nat, k: nat, step: Step, u: System)
    requires ListsObjects(s) && ListedOnce(s, p) && s.next + k + 1 + |s.snapshot.list| <= TWO_63
    requires Turned(s, t, p, k) && Shape(t) && Next(params, Some(t), step) == Some(u)
    requires step.Select? && RotationDecides(params, t, step.body, step.at)
    ensures Turned(s, u, p, k + 1)
  {
    SameHealthAgain(s, t, t);
    SelectServes(params, t, step.body, step.at, step.order, p);
    TurnOnce(s, t, u, p, k);
  }

  lemma OtherStepTurns(params: Params, s: System, t: System, p: nat, k: nat, step: Step, u: System)
    requires ListsObjects(s) && p < |s.snapshot.list| && s.next + k <= TWO_63
    requires Turned(s, t, p, k) && Shape(t) && Next(params, Some(t), step) == Some(u)
    requires AllowsRotation(params, t, step) && !step.Select?
    ensures Turned(s, u, p, k)
  {
    OtherStepKeepsHealth(params, t, step, s.snapshot.list[p]);
    SameHealthAgain(s, t, u);
  }

  lemma {:induction false} ContinueShape(params: Params, s: System, steps: seq<Step>)
    requires Shape(s) && Continue(params, s, steps).Some?
    ensures Shape(Continue(params, s, steps).value)
  {
    if steps == [] {
    } else {
      var n := |steps| - 1;
      ContinueShape(params, s, steps[..n]);
      StepKeepsShape(params, Continue(params, s, steps[..n]).value, steps[n]);
    }
  }

  lemma StepTurns(params: Params, s: System, t: System, p: nat, k: nat, step: Step, u: System, k': nat)
    requires ListsObjects(s) && ListedOnce(s, p) && k' == k + Selection(step) && s.next + k' + |s.snapshot.list| <= TWO_63
    requires Turned(s, t, p, k) && Shape(t) && Next(params, Some(t), step) == Some(u)
    requires AllowsRotation(params, t, step)
    ensures Turned(s, u, p, k')
  {
    if step.Select? {
      SelectTurns(params, s, t, p, k, step, u);
    } else {
      OtherStepTurns(params, s, t, p, k, step, u);
    }
  }

  lemma {:induction false} TurnedBySteps(params: Params, s: System, steps: seq<Step>, p: nat)
    requires Shape(s) && ListedOnce(s, p) && Continue(params, s, steps).Some? && RotatesThrough(params, s, steps)
    requires s.next + Selections(steps) + |s.snapshot.list| <= TWO_63
    ensures Turned(s, Continue(params, s, steps).value, p, Selections(steps))
  {
    if steps == [] {
    } else {
      var n := |steps| - 1;
      TurnedBySteps(params, s, steps[..n], p);
      ContinueShape(params, s, steps[..n]);
      StepTurns(params, s, Continue(params, s, steps[..n]).value, p, Selections(steps[..n]), steps[n],
                Continue(params, s, steps).value, Selections(steps));
    }
  }

  /** Fairness over runs.  While health and the list are fixed and the rotation decides, as
      many selections as there are listings, whatever else happens to requests in between,
      give a healthy listing one request for itself and one for each of the consecutive
      unhealthy listings just before it. */
  lemma {:induction false} RotationServesAll(params: Params, s: System, steps: seq<Step>, p: nat)
    requires Shape(s) && ListedOnce(s, p) && Continue(params, s, steps).Some? && RotatesThrough(params, s, steps)
    requires Selections(steps) == |s.snapshot.list| && s.next + 2 * |s.snapshot.list| <= 9223372036854775808
    ensures Count(Assigned, s.snapshot.list[p], Continue(params, s, steps).value.requests)
         == Count(Assigned, s.snapshot.list[p], s.requests) + 1 + Gap(Listed(s), p)
  {
    TurnedBySteps(params, s, steps, p);
    RotationIsFair(Listed(s), s.next, p);
  }

  lemma {:induction false} OtherPoliciesRotate(params: Params, s: System, steps: seq<Step>)
    requires params.policy != "cache_aware" && Continue(params, s, steps).Some?
    requires forall i | 0 <= i < |steps| :: !steps[i].Update? && !steps[i].Probe?
    ensures RotatesThrough(params, s, steps)
  {
    if steps == [] {
    } else {
      OtherPoliciesRotate(params, s, steps[..|steps| - 1]);
    }
  }

  /** Round robin serves every healthy listing. */
  lemma {:induction false} RoundRobinServesAll(params: Params, s: System, steps: seq<Step>, p: nat)
    requires params.policy != "cache_aware" && Shape(s) && ListedOnce(s, p) && Continue(params, s, steps).Some?
    requires forall i | 0 <= i < |steps| :: !steps[i].Update? && !steps[i].Probe?
    requires Selections(steps) == |s.snapshot.list| && s.next + 2 * |s.snapshot.list| <= 9223372036854775808
    ensures Count(Assigned, s.snapshot.list[p], Continue(params, s, steps).value.requests)
         == Count(Assigned, s.snapshot.list[p], s.requests) + 1 + Gap(Listed(s), p)
  {
    OtherPoliciesRotate(params, s, steps);
    RotationServesAll(params, s, steps, p);
  }

  lemma {:induction false} NothingRemembered(policy: Policy, prints: seq<Fingerprint>, now: int)
    ensures Candidates(policy, map[], prints, now) == Sweep(map[], map[], 0)
  {
    if prints == [] {
    } else {
      NothingRemembered(policy, prints[..|prints| - 1], now);
    }
  }

  lemma ColdSelect(params: Params, s: System, body: Option<RequestText.Request>, at: int, order: seq<string>)
    requires Enabled(params, s, Select(body, at, order)) && body.Some? && s.index == map[] && EqualCosts(Listed(s))
    ensures RotationDecides(params, s, body, at)
    ensures var t := Selected(params, s, body, at, order);
            t.index == map[] && t.objects == s.objects && t.snapshot == s.snapshot
  {
    NothingRemembered(params.index, RequestFingerprints(body.value), at);
  }

  lemma {:induction false} ColdSelectsRotate(params: Params, s: System, steps: seq<Step>)
    requires ListsObjects(s) && s.index == map[] && EqualCosts(Listed(s)) && Continue(params, s, steps).Some?
    requires forall i | 0 <= i < |steps| :: steps[i].Select? && steps[i].body.Some?
    ensures RotatesThrough(params, s, steps) && Selections(steps) == |steps|
    ensures var t := Continue(params, s, steps).value; t.index == map[] && t.objects == s.objects && t.snapshot == s.snapshot
  {
    if steps == [] {
    } else {
      var n := |steps| - 1;
      ColdSelectsRotate(params, s, steps[..n]);
      ContinueLast(params, s, steps);
      ColdSelect(params, Continue(params, s, steps[..n]).value, steps[n].body, steps[n].at, steps[n].order);
    }
  }

  /** Cold selections rotate: when nothing is remembered and all healthy backends cost the
      same, selections one after the other serve every healthy listing, whatever the
      policy. */
  lemma {:induction false} ColdSelectionsServeAll(params: Params, s: System, steps: seq<Step>, p: nat)
    requires Shape(s) && ListedOnce(s, p) && Continue(params, s, steps).Some?
    requires s.index == map[] && EqualCosts(Listed(s))
    requires forall i | 0 <= i < |steps| :: steps[i].Select? && steps[i].body.Some?
    requires |steps| == |s.snapshot.list| && s.next + 2 * |s.snapshot.list| <= 9223372036854775808
    ensures Count(Assigned, s.snapshot.list[p], Continue(params, s, steps).value.requests)
         == Count(Assigned, s.snapshot.list[p], s.requests) + 1 + Gap(Listed(s), p)
  {
    ColdSelectsRotate(params, s, steps);
    RotationServesAll(params, s, steps, p);
  }

  /******* The life of a request *******/

  /** `q` is what became of `p`: the object stays, the prints stay until an answer, and what
      is settled stays as it is. */
  predicate Becomes(p: Engine.Request, q: Engine.Request) {
    match p
    case Chosen(o, prints) =>
      && HasObject(q) && q.obj == o
      && (q.Chosen? ==> q.prints == prints) && (q.Forwarding? ==> q.prints == prints)
    case Forwarding(o, prints) =>
      && (q.Forwarding? || q.Answered? || q.Released? || q.Aborted?) && q.obj == o
      && (q.Forwarding? ==> q.prints == prints)
    case Answered(o, ok) => (q.Answered? || q.Released?) && q.obj == o && q.ok == ok
    case _ => q == p
  }

  lemma StepBecomes(params: Params, s: System, step: Step, r: nat)
    requires Enabled(params, s, step) && r < |s.requests|
    ensures r < |Perform(params, s, step).requests| && Becomes(s.requests[r], Perform(params, s, step).requests[r])
  {
  }

  /** However a run goes on, a request keeps its object, keeps its prints until it is
      answered, and never leaves a refusal, a release or an abort. */
  lemma {:induction false} RequestsGoOn(params: Params, s: System, steps: seq<Step>, r: nat)
    requires Continue(params, s, steps).Some? && r < |s.requests|
    ensures var t := Continue(params, s, steps).value; r < |t.requests| && Becomes(s.requests[r], t.requests[r])
  {
    if steps == [] {
    } else {
      var n := |steps| - 1;
      RequestsGoOn(params, s, steps[..n], r);
      ContinueLast(params, s, steps);
      StepBecomes(params, Continue(params, s, steps[..n]).value, steps[n], r);
    }
  }

  /** What a selection does where no candidate is looked up.  Without a list it is refused at
      once, and so is a request that cannot be decoded under the policy that needs its text.
      Under any other policy the body does not matter: the rotation decides. */
  lemma {:induction false} SelectionWithoutLookup(params: Params, s: System, body: Option<RequestText.Request>, at: int, order: seq<string>)
    requires Enabled(params, s, Select(body, at, order))
    requires s.snapshot.list != [] ==> body.None? || params.policy != "cache_aware"
    ensures var t := Perform(params, s, Select(body, at, order));
            && t.objects == s.objects && t.snapshot == s.snapshot && t.index == s.index && t.log == s.log && t.clock == at
            && |t.requests| == |s.requests| + 1 && t.requests[..|s.requests|] == s.requests
            && var q := t.requests[|s.requests|];
            if s.snapshot.list == [] then q == Rejected(NoBackends) && t.next == s.next
            else if params.policy == "cache_aware" then q == Rejected(BadRequest) && t.next == s.next
            else FollowsRotation(s, RoundRobin(Listed(s), s.next), q) && (q.Chosen? ==> q.prints == [])
  {
    RoundRobinIsFirst(Listed(s), s.next);
  }
}
