/**
 The engine from end to end: what a selection is worth in terms of everything that was
 forwarded successfully before it.
 */
module EngineAffinity {
  import opened Wrappers
  import opened Backend
  import opened Prefix
  import opened PrefixIndex
  import opened PrefixHistory
  import opened Rotation
  import opened Scheduler
  import opened RequestText
  import opened Engine
  import opened EngineObjects

  /** Prints a request can carry: those of a request text, or none. */
  ghost predicate RouterPrints(prints: seq<Fingerprint>) {
    prints == [] || exists r :: prints == RequestFingerprints(r)
  }

  ghost predicate CarriesRouterPrints(q: Engine.Request) {
    q.Chosen? || q.Forwarding? ==> RouterPrints(q.prints)
  }

  /** The index is the replay of the log, which is in time order and holds only prints of
      request texts. */
  ghost predicate IndexFollowsLog(params: Params, s: System) {
    && s.index == Replay(params.index, s.log)
    && Ordered(s.log, s.clock)
    && (forall i | 0 <= i < |s.log| && s.log[i].Served? :: RouterPrints(s.log[i].prints))
    && (forall r | 0 <= r < |s.requests| :: CarriesRouterPrints(s.requests[r]))
  }

  /** The prefix index starts with a past of that kind; it may be empty. */
  ghost predicate Started(params: Params) {
    && Ordered(params.past, params.start)
    && (forall i | 0 <= i < |params.past| && params.past[i].Served? :: RouterPrints(params.past[i].prints))
  }

  lemma ReplayOneMore(policy: Policy, log: seq<Event>, e: Event)
    ensures Replay(policy, log + [e]) == Apply(policy, Replay(policy, log), e)
  {
    assert (log + [e])[..|log|] == log;
  }

  lemma OrderedOneMore(log: seq<Event>, clock: int, e: Event)
    requires Ordered(log, clock) && clock <= e.at
    ensures Ordered(log + [e], e.at) && Ordered(log, e.at)
  {
  }

  lemma LookUpFollowsLog(params: Params, s: System, prints: seq<Fingerprint>, at: int)
    requires IndexFollowsLog(params, s) && s.clock <= at
    ensures var log := s.log + [LookedUp(prints, at)];
            && Candidates(params.index, s.index, prints, at).index == Replay(params.index, log)
            && Ordered(log, at)
            && (forall i | 0 <= i < |log| && log[i].Served? :: RouterPrints(log[i].prints))
  {
    ReplayOneMore(params.index, s.log, LookedUp(prints, at));
    OrderedOneMore(s.log, s.clock, LookedUp(prints, at));
  }

  lemma SelectCarriesPrints(params: Params, s: System, body: Option<RequestText.Request>, at: int, order: seq<string>)
    requires Shape(s) && Enabled(params, s, Select(body, at, order))
    requires forall r | 0 <= r < |s.requests| :: CarriesRouterPrints(s.requests[r])
    ensures var t := Selected(params, s, body, at, order);
            forall r | 0 <= r < |t.requests| :: CarriesRouterPrints(t.requests[r])
  {
  }

  /** What a selection does to the index, the log and the clock. */
  lemma SelectLogs(params: Params, s: System, body: Option<RequestText.Request>, at: int, order: seq<string>)
    requires Enabled(params, s, Select(body, at, order))
    ensures var t := Selected(params, s, body, at, order);
            t.clock == at &&
            if LooksUp(params, s, body) then
              var prints := RequestFingerprints(body.value);
              t.index == Candidates(params.index, s.index, prints, at).index && t.log == s.log + [LookedUp(prints, at)]
            else t.index == s.index && t.log == s.log
  {
  }

  lemma SelectFollowsLog(params: Params, s: System, body: Option<RequestText.Request>, at: int, order: seq<string>)
    requires Shape(s) && IndexFollowsLog(params, s) && Enabled(params, s, Select(body, at, order))
    ensures IndexFollowsLog(params, Selected(params, s, body, at, order))
  {
    SelectCarriesPrints(params, s, body, at, order);
    SelectLogs(params, s, body, at, order);
    if LooksUp(params, s, body) {
      LookUpFollowsLog(params, s, RequestFingerprints(body.value), at);
    } else {
      LaterIsOrdered(s.log, s.clock, at);
    }
  }

  lemma FinishFollowsLog(params: Params, s: System, r: nat, success: bool, elapsed: real, at: int)
    requires Shape(s) && IndexFollowsLog(params, s) && Enabled(params, s, Finish(r, success, elapsed, at))
    ensures IndexFollowsLog(params, Perform(params, s, Finish(r, success, elapsed, at)))
  {
    var q := s.requests[r];
    assert CarriesRouterPrints(q);
    var e := Served(s.objects[q.obj].view.endpoint.id, q.prints, at);
    ReplayOneMore(params.index, s.log, e);
    OrderedOneMore(s.log, s.clock, e);
  }

  lemma {:induction false} StepFollowsLog(params: Params, s: System, step: Step)
    requires Shape(s) && IndexFollowsLog(params, s) && Enabled(params, s, step)
    ensures IndexFollowsLog(params, Perform(params, s, step))
  {
    match step
    case Select(body, at, order) => SelectFollowsLog(params, s, body, at, order);
    case Finish(r, success, elapsed, at) => FinishFollowsLog(params, s, r, success, elapsed, at);
    case Reserve(r) => assert CarriesRouterPrints(s.requests[r]);
    case _ =>
  }

  lemma {:induction false} RunFollowsLog(params: Params, endpoints: seq<Endpoint>, steps: seq<Step>)
    requires Started(params) && Run(params, endpoints, steps).Some?
    ensures IndexFollowsLog(params, Run(params, endpoints, steps).value)
  {
    if steps == [] {
    } else {
      var n := |steps| - 1;
      RunShape(params, endpoints, steps[..n]);
      RunFollowsLog(params, endpoints, steps[..n]);
      StepFollowsLog(params, Run(params, endpoints, steps[..n]).value, steps[n]);
    }
  }

  /******* Selection against history *******/

  /** What the whole history says backend `id` is worth to `prints` at time `at`. */
  ghost predicate HistoryWarmth(policy: Policy, log: seq<Event>, prints: seq<Fingerprint>, id: BackendId, at: int, warmth: real) {
    exists m :: ScanAnswers(policy, log, prints, id, at, m) && warmth == if m.Some? then m.value.warmth else 0.0
  }

  lemma MatchesAnswerHistory(policy: Policy, log: seq<Event>, prints: seq<Fingerprint>, at: int)
    requires policy.Lawful() && Ordered(log, at)
    ensures var matches := Candidates(policy, Replay(policy, log), prints, at).matches;
            AllWarm(matches) && forall id :: HistoryWarmth(policy, log, prints, id, at, BestWarmth(matches, id))
  {
    var matches := Candidates(policy, Replay(policy, log), prints, at).matches;
    forall id ensures HistoryWarmth(policy, log, prints, id, at, BestWarmth(matches, id))
              ensures id in matches ==> matches[id].warmth > 0.0
    {
      HistoryRefinement(policy, log, prints, id, at);
      assert ScanAnswers(policy, log, prints, id, at, MatchOf(matches, id));
    }
  }

  lemma LaterIsOrdered(log: seq<Event>, clock: int, at: int)
    requires Ordered(log, clock) && clock <= at
    ensures Ordered(log, at)
  {
  }

  /** `warmth` gives each listing what the whole history says its backend is worth; listings
      that their ID does not lead to, because it is listed again later, get nothing. */
  ghost predicate WarmthsByHistory(policy: Policy, log: seq<Event>, vs: seq<BackendView>, prints: seq<Fingerprint>, at: int, warmth: seq<real>) {
    && |warmth| == |vs|
    && forall p | 0 <= p < |vs| ::
         if LastIndex(Ids(vs), vs[p].endpoint.id) == Some(p)
         then HistoryWarmth(policy, log, prints, vs[p].endpoint.id, at, warmth[p])
         else warmth[p] == 0.0
  }

  ghost predicate BestWith(vs: seq<BackendView>, warmth: seq<real>, position: nat)
    requires |warmth| == |vs| && position < |vs|
  {
    && vs[position].healthy
    && forall p | 0 <= p < |vs| && vs[p].healthy :: NoBetter(vs[p], warmth[p], vs[position], warmth[position])
  }

  /** A healthy position that no other healthy one beats, history taken into account. */
  ghost predicate BestByHistory(params: Params, s: System, prints: seq<Fingerprint>, at: int, position: nat)
    requires ListsObjects(s) && position < |s.snapshot.list|
  {
    exists warmth ::
      WarmthsByHistory(params.index, s.log, Listed(s), prints, at, warmth) && BestWith(Listed(s), warmth, position)
  }

  function Warmths(vs: seq<BackendView>, matches: Matches): seq<real> {
    seq(|vs|, p requires 0 <= p < |vs| => WarmthAt(vs, matches, p))
  }

  lemma ChoiceIsBestWith(vs: seq<BackendView>, counter: nat, matches: Matches, order: seq<string>)
    requires Enumerates(order, matches) && AllWarm(matches)
    ensures match Choose(vs, counter, matches, order)
            case None => NobodyHealthy(vs)
            case Some(best) => best.position < |vs| && BestWith(vs, Warmths(vs, matches), best.position)
  {
    ChoiceIsOptimal(vs, counter, matches, order);
    if Choose(vs, counter, matches, order).Some? {
      var c := Choose(vs, counter, matches, order).value.position;
      forall p | 0 <= p < |vs| && vs[p].healthy
        ensures NoBetter(vs[p], Warmths(vs, matches)[p], vs[c], Warmths(vs, matches)[c])
      {
        NoBetterIsLowerScore(vs[p], WarmthAt(vs, matches, p), vs[c], WarmthAt(vs, matches, c));
      }
    }
  }

  lemma WarmthsFromHistory(policy: Policy, log: seq<Event>, vs: seq<BackendView>, prints: seq<Fingerprint>, at: int)
    requires policy.Lawful() && Ordered(log, at)
    ensures var matches := Candidates(policy, Replay(policy, log), prints, at).matches;
            AllWarm(matches) && WarmthsByHistory(policy, log, vs, prints, at, Warmths(vs, matches))
  {
    var matches := Candidates(policy, Replay(policy, log), prints, at).matches;
    MatchesAnswerHistory(policy, log, prints, at);
    forall p | 0 <= p < |vs|
      ensures if LastIndex(Ids(vs), vs[p].endpoint.id) == Some(p)
              then HistoryWarmth(policy, log, prints, vs[p].endpoint.id, at, Warmths(vs, matches)[p])
              else Warmths(vs, matches)[p] == 0.0
    {
      assert HistoryWarmth(policy, log, prints, vs[p].endpoint.id, at, BestWarmth(matches, vs[p].endpoint.id));
    }
  }

  lemma {:induction false} ChoiceIsBestByHistory(params: Params, s: System, prints: seq<Fingerprint>, at: int, order: seq<string>)
    requires params.index.Lawful() && Shape(s) && IndexFollowsLog(params, s) && s.clock <= at
    requires Enumerates(order, Candidates(params.index, s.index, prints, at).matches)
    ensures match Choose(Listed(s), s.next, Candidates(params.index, s.index, prints, at).matches, order)
            case None => NobodyHealthy(Listed(s))
            case Some(best) => best.position < |s.snapshot.list| && BestByHistory(params, s, prints, at, best.position)
  {
    var vs, matches := Listed(s), Candidates(params.index, s.index, prints, at).matches;
    LaterIsOrdered(s.log, s.clock, at);
    WarmthsFromHistory(params.index, s.log, vs, prints, at);
    ChoiceIsBestWith(vs, s.next, matches, order);
  }

  /** What a step contributes to the successful forwards. */
  function ForwardOf(params: Params, s: System, step: Step): seq<Event>
    requires Enabled(params, s, step)
  {
    match step
    case Finish(r, true, _, at) =>
      [Served(s.objects[s.requests[r].obj].view.endpoint.id, s.requests[r].prints, at)]
    case _ => []
  }

  /** The successful forwards of a run, read off its steps. */
  function Forwards(params: Params, endpoints: seq<Endpoint>, steps: seq<Step>): seq<Event>
    requires Run(params, endpoints, steps).Some?
  {
    if steps == [] then []
    else
      var n := |steps| - 1;
      Forwards(params, endpoints, steps[..n])
      + ForwardOf(params, Run(params, endpoints, steps[..n]).value, steps[n])
  }

  lemma SuccessesOneMore(log: seq<Event>, e: Event)
    ensures Successes(log + [e]) == Successes(log) + if e.Served? then [e] else []
  {
    assert (log + [e])[..|log|] == log;
  }

  lemma StepLogsForward(params: Params, s: System, step: Step)
    requires Enabled(params, s, step)
    ensures Successes(Perform(params, s, step).log) == Successes(s.log) + ForwardOf(params, s, step)
  {
    match step
    case Finish(r, success, _, at) =>
      var q := s.requests[r];
      SuccessesOneMore(s.log, Served(s.objects[q.obj].view.endpoint.id, q.prints, at));
    case Select(body, at, order) =>
      SelectLogs(params, s, body, at, order);
      if LooksUp(params, s, body) {
        SuccessesOneMore(s.log, LookedUp(RequestFingerprints(body.value), at));
      }
    case _ =>
  }

  /** Beyond its past, the log holds the successful forwards of the run, all of them, in
      order. */
  lemma {:induction false} LogHoldsForwards(params: Params, endpoints: seq<Endpoint>, steps: seq<Step>)
    requires Run(params, endpoints, steps).Some?
    ensures Successes(Run(params, endpoints, steps).value.log)
         == Successes(params.past) + Forwards(params, endpoints, steps)
  {
    if steps == [] {
    } else {
      var n := |steps| - 1;
      var s := Run(params, endpoints, steps[..n]).value;
      LogHoldsForwards(params, endpoints, steps[..n]);
      StepLogsForward(params, s, steps[n]);
      Regroup(Successes(params.past), Forwards(params, endpoints, steps[..n]), ForwardOf(params, s, steps[n]));
    }
  }

  /** What a selection makes of a decodable request, judged by the whole history. */
  ghost predicate RightOutcome(params: Params, s: System, r: RequestText.Request, at: int, outcome: Engine.Request)
    requires ListsObjects(s)
  {
    match outcome
    case Chosen(o, prints) =>
      && ScanInRange(s) && prints == RequestFingerprints(r)
      && (exists p | 0 <= p < |s.snapshot.list| :: s.snapshot.list[p] == o && BestByHistory(params, s, prints, at, p))
    case Rejected(NoHealthyBackends) => ScanInRange(s) && NobodyHealthy(Listed(s))
    case Rejected(IndexOutOfRange) => !ScanInRange(s)
    case _ => false
  }

  lemma {:induction false} SelectedIsRight(params: Params, s: System, r: RequestText.Request, at: int, order: seq<string>)
    requires params.policy == POLICY_CACHE_AWARE && params.index.Lawful()
    requires Shape(s) && IndexFollowsLog(params, s) && s.snapshot.list != []
    requires CanSelect(params, s, Some(r), at, order)
    ensures var t := Selected(params, s, Some(r), at, order);
            |t.requests| == |s.requests| + 1 && RightOutcome(params, s, r, at, t.requests[|s.requests|])
  {
    if ScanInRange(s) {
      ChoiceIsBestByHistory(params, s, RequestFingerprints(r), at, order);
    }
  }

  /** End to end.  In every run of the cache-aware engine, whatever was overwritten,
      evicted, dropped or recreated before, a decodable request goes to a healthy listed
      backend that maximises 150 times the warmth a scan over all past successes gives it,
      less its load, latency and error costs.  It is refused exactly when no listed backend
      is healthy, and lost exactly when the scan leaves the list. */
  lemma {:induction false} SelectionIsBestByHistory(params: Params, endpoints: seq<Endpoint>, steps: seq<Step>,
                                                    r: RequestText.Request, at: int, order: seq<string>)
    requires params.policy == POLICY_CACHE_AWARE && params.index.Lawful()
    requires Started(params) && Run(params, endpoints, steps).Some?
    requires var s := Run(params, endpoints, steps).value;
             Enabled(params, s, Select(Some(r), at, order)) && s.snapshot.list != []
    ensures var s := Run(params, endpoints, steps).value;
            var t := Perform(params, s, Select(Some(r), at, order));
            |t.requests| == |s.requests| + 1 && RightOutcome(params, s, r, at, t.requests[|s.requests|])
  {
    RunShape(params, endpoints, steps);
    RunFollowsLog(params, endpoints, steps);
    SelectedIsRight(params, Run(params, endpoints, steps).value, r, at, order);
  }

  /******* Bounds and growth *******/

  /** On the router's path no candidate is ever warmer than 512. */
  lemma {:induction false} WarmthAtMost512(params: Params, endpoints: seq<Endpoint>, steps: seq<Step>, r: RequestText.Request, at: int, id: BackendId)
    requires params.index.Lawful() && Started(params) && Run(params, endpoints, steps).Some?
    requires Run(params, endpoints, steps).value.clock <= at
    ensures var s := Run(params, endpoints, steps).value;
            var m := MatchOf(Candidates(params.index, s.index, RequestFingerprints(r), at).matches, id);
            m.Some? ==> 0.0 < m.value.warmth <= 512.0
  {
    var s := Run(params, endpoints, steps).value;
    RunFollowsLog(params, endpoints, steps);
    LaterIsOrdered(s.log, s.clock, at);
    forall f | f in RequestFingerprints(r) ensures 0 <= f.length <= 512 {
      FingerprintLengthBound(r, f);
    }
    WarmthBound(params.index, s.log, RequestFingerprints(r), at, 512, id);
  }

  /** In every reachable state, an unexpired entry for some leading tokens comes with an
      entry at least as recent for every shorter tracked length. */
  lemma {:induction false} ReachableDownwardClosure(params: Params, endpoints: seq<Endpoint>, steps: seq<Step>,
                                                    tokens: seq<string>, longer: nat, shorter: nat, id: BackendId)
    requires params.index.ExpiryLasts() && Started(params) && Run(params, endpoints, steps).Some?
    requires AreWords(tokens, IsPatternSpace) && 0 < shorter <= longer <= |tokens| && shorter in PREFIX_LENGTHS
    ensures var s := Run(params, endpoints, steps).value;
            var f := Fresh(params.index, s.index, FingerprintOf(tokens, longer).hash, id, s.clock);
            var g := Fresh(params.index, s.index, FingerprintOf(tokens, shorter).hash, id, s.clock);
            f.Some? ==> g.Some? && f.value <= g.value
  {
    var s := Run(params, endpoints, steps).value;
    RunFollowsLog(params, endpoints, steps);
    forall i | 0 <= i < |s.log| && s.log[i].Served? ensures IsFingerprinting(s.log[i].prints, PREFIX_LENGTHS) {
      if s.log[i].prints != [] {
        var q :| s.log[i].prints == RequestFingerprints(q);
        assert s.log[i].prints == FingerprintsOf(q.Text(MAX_PREFIX_LENGTH), PREFIX_LENGTHS);
      }
    }
    DownwardClosure(params.index, s.log, s.clock, PREFIX_LENGTHS, tokens, longer, shorter, id);
  }

  /** Entry `i` of the log is an answer to `r` that still counts at time `at`, for a match of
      `length` tokens. */
  ghost predicate Remembers(params: Params, s: System, i: nat, r: RequestText.Request, length: nat, at: int) {
    && i < |s.log| && s.log[i].Served? && s.log[i].prints == RequestFingerprints(r)
    && s.clock <= at && !params.index.expired(at - s.log[i].at)
    && params.index.warmth(length, at - s.log[i].at) > 0.0
  }

  /** Some tracked length of a chat request's tokens is carried by its follow-up. */
  predicate Tracks(r: RequestText.Request, more: seq<Message>, length: nat) {
    r.messages != [] && length in PREFIX_LENGTHS && Carries(r, more, MAX_PREFIX_LENGTH, length)
  }

  lemma SharedPrint(r: RequestText.Request, more: seq<Message>, length: nat) returns (f: Fingerprint)
    requires Tracks(r, more, length)
    ensures f.length == length && f in RequestFingerprints(r) && f in RequestFingerprints(FollowUp(r, more))
  {
    var text := r.Text(MAX_PREFIX_LENGTH);
    TokensAreFields(text);
    f := FingerprintOf(Tokens(text), length);
    FingerprintsMembers(text, PREFIX_LENGTHS, f);
    FollowUpKeepsFingerprints(r, more, MAX_PREFIX_LENGTH, PREFIX_LENGTHS, f);
  }

  lemma {:induction false} MatchFromLog(params: Params, s: System, i: nat, prints: seq<Fingerprint>, f: Fingerprint, at: int)
    requires params.index.Lawful() && IndexFollowsLog(params, s) && s.clock <= at
    requires i < |s.log| && s.log[i].Served? && f in s.log[i].prints && f in prints
    requires !params.index.expired(at - s.log[i].at) && params.index.warmth(f.length, at - s.log[i].at) > 0.0
    ensures BestWarmth(Candidates(params.index, s.index, prints, at).matches, s.log[i].id)
            >= params.index.warmth(f.length, at - s.log[i].at)
  {
    var id := s.log[i].id;
    LaterIsOrdered(s.log, s.clock, at);
    var k :| 0 <= k < |prints| && prints[k] == f;
    var j :| 0 <= j < |s.log[i].prints| && s.log[i].prints[j] == f;
    assert Pair(params.index, s.log, prints, id, at, k, i);
    HistoryRefinement(params.index, s.log, prints, id, at);
    assert ScanValue(params.index, s.log, prints, k, i, at) == params.index.warmth(f.length, at - s.log[i].at);
  }

  /** A conversation stays warm as it grows.  If a chat request was answered by a backend and
      the same conversation comes back with more messages, then every tracked length up to
      the earlier text's token count (that count itself, if the text was not cut inside a
      word) still finds the backend: its warmth is at least what that length is worth at
      that age. */
  lemma {:induction false} FollowUpStaysWarm(params: Params, endpoints: seq<Endpoint>, steps: seq<Step>, i: nat,
                                             r: RequestText.Request, more: seq<Message>, length: nat, at: int)
    requires params.index.Lawful() && Started(params) && Run(params, endpoints, steps).Some? && Tracks(r, more, length)
    requires Remembers(params, Run(params, endpoints, steps).value, i, r, length, at)
    ensures var s := Run(params, endpoints, steps).value;
            var matches := Candidates(params.index, s.index, RequestFingerprints(FollowUp(r, more)), at).matches;
            BestWarmth(matches, s.log[i].id) >= params.index.warmth(length, at - s.log[i].at)
  {
    RunFollowsLog(params, endpoints, steps);
    var f := SharedPrint(r, more, length);
    MatchFromLog(params, Run(params, endpoints, steps).value, i, RequestFingerprints(FollowUp(r, more)), f, at);
  }

  /** Listing `p`, if its warmth is `warm`, is worth no more than listing `c`. */
  ghost predicate Outweighs(vs: seq<BackendView>, matches: Matches, p: nat, warm: real, c: nat)
    requires p < |vs| && c < |vs|
  {
    NoBetter(vs[p], warm, vs[c], WarmthAt(vs, matches, c))
  }

  lemma {:induction false} WarmListingWins(vs: seq<BackendView>, start: nat, matches: Matches, order: seq<string>, p: nat, warm: real)
    requires Enumerates(order, matches) && AllWarm(matches)
    requires p < |vs| && vs[p].healthy && LastIndex(Ids(vs), vs[p].endpoint.id) == Some(p)
    requires warm <= BestWarmth(matches, vs[p].endpoint.id)
    ensures var best := Choose(vs, start, matches, order);
            && best.Some? && best.value.position < |vs|
            && vs[best.value.position].healthy && Outweighs(vs, matches, p, warm, best.value.position)
  {
    ChoiceIsOptimal(vs, start, matches, order);
    AffinityTradeOff(vs, start, matches, order, p);
  }

  /** The request went to a healthy listing that outweighs `p`, and to `p` itself if no other
      does. */
  ghost predicate WentTo(s: System, matches: Matches, prints: seq<Fingerprint>, p: nat, warm: real, outcome: Engine.Request)
    requires ListsObjects(s) && p < |s.snapshot.list|
  {
    && (exists c | 0 <= c < |s.snapshot.list| ::
          && outcome == Chosen(s.snapshot.list[c], prints)
          && Listed(s)[c].healthy && Outweighs(Listed(s), matches, p, warm, c))
    && ((forall c | 0 <= c < |s.snapshot.list| && c != p && Listed(s)[c].healthy :: !Outweighs(Listed(s), matches, p, warm, c))
        ==> outcome == Chosen(s.snapshot.list[p], prints))
  }

  lemma {:induction false} SelectedWentTo(params: Params, s: System, r: RequestText.Request, at: int, order: seq<string>, p: nat, warm: real)
    requires params.policy == POLICY_CACHE_AWARE && ListsObjects(s) && ScanInRange(s)
    requires CanSelect(params, s, Some(r), at, order)
    requires p < |s.snapshot.list| && Listed(s)[p].healthy
    requires LastIndex(Ids(Listed(s)), Listed(s)[p].endpoint.id) == Some(p)
    requires var matches := Candidates(params.index, s.index, RequestFingerprints(r), at).matches;
             AllWarm(matches) && warm <= BestWarmth(matches, Listed(s)[p].endpoint.id)
    ensures var matches := Candidates(params.index, s.index, RequestFingerprints(r), at).matches;
            var t := Selected(params, s, Some(r), at, order);
            && |t.requests| == |s.requests| + 1
            && WentTo(s, matches, RequestFingerprints(r), p, warm, t.requests[|s.requests|])
  {
    var matches := Candidates(params.index, s.index, RequestFingerprints(r), at).matches;
    WarmListingWins(Listed(s), s.next, matches, order, p, warm);
  }

  /** A conversation returns to the backend that knows it.  In the situation above, if that
      backend is listed (last under its ID) and healthy, the follow-up goes to a healthy
      listing that costs less by at least 150 times the difference in warmth; so it goes
      back to the same backend if nobody's lower cost outweighs what the match is worth. */
  lemma {:induction false} FollowUpReturns(params: Params, endpoints: seq<Endpoint>, steps: seq<Step>, i: nat,
                                           r: RequestText.Request, more: seq<Message>, length: nat,
                                           at: int, order: seq<string>, p: nat)
    requires params.policy == POLICY_CACHE_AWARE && params.index.Lawful()
    requires Started(params) && Run(params, endpoints, steps).Some? && Tracks(r, more, length)
    requires Remembers(params, Run(params, endpoints, steps).value, i, r, length, at)
    requires var s := Run(params, endpoints, steps).value;
             && Enabled(params, s, Select(Some(FollowUp(r, more)), at, order)) && ScanInRange(s)
             && p < |s.snapshot.list| && Listed(s)[p].healthy
             && Listed(s)[p].endpoint.id == s.log[i].id && LastIndex(Ids(Listed(s)), s.log[i].id) == Some(p)
    ensures var s, prints := Run(params, endpoints, steps).value, RequestFingerprints(FollowUp(r, more));
            var matches := Candidates(params.index, s.index, prints, at).matches;
            var t := Perform(params, s, Select(Some(FollowUp(r, more)), at, order));
            && |t.requests| == |s.requests| + 1
            && WentTo(s, matches, prints, p, params.index.warmth(length, at - s.log[i].at), t.requests[|s.requests|])
  {
    var s := Run(params, endpoints, steps).value;
    RunFollowsLog(params, endpoints, steps);
    LaterIsOrdered(s.log, s.clock, at);
    MatchesAnswerHistory(params.index, s.log, RequestFingerprints(FollowUp(r, more)), at);
    FollowUpStaysWarm(params, endpoints, steps, i, r, more, length, at);
    SelectedWentTo(params, s, FollowUp(r, more), at, order, p, params.index.warmth(length, at - s.log[i].at));
  }
}
