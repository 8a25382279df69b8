# A verified model of the cache-aware router

`k8s-vllm-router` sends OpenAI-style requests to vLLM backends.  It prefers the backend
that recently served a prompt with the same leading tokens, weighed against that backend's
load, latency and errors.  This project models the routing engine in Dafny and proves what
it promises, over every run.

Run `dafny verify dfyconfig.toml` to verify everything.

| file | content |
|---|---|
| `CasLoop.dfy`, `Ewma.dfy` | the lock-free moving average: its retry loop under every interleaving, its closed form and bounds |
| `Prefix.dfy`, `RequestText.dfy` | from request to fingerprints: text, truncation, tokens, hashes of token prefixes |
| `PrefixIndex.dfy`, `PrefixHistory.dfy` | the expiring, decaying index, and the log of successes it stands for |
| `Backend.dfy` | endpoints, mutable backend states, snapshots |
| `Rotation.dfy`, `Scheduler.dfy` | 64-bit rotation, round robin, the load-aware fallback, the candidate scan |
| `Engine.dfy` | the whole engine as one state machine; a run is any sequence of possible steps |
| `EngineObjects.dfy`, `EngineSnapshots.dfy`, `EngineAffinity.dfy` | what holds over every run |
| `EngineRotation.dfy` | the rotation over runs: how far it advances, whom it serves; the life of a request |
| `EngineTrace.dfy` | runs in progress: a round of health checks, a whole forwarded request |
| `Routing.dfy` | the router object; each method changes fields in place and is proved to take steps of the engine |
| `Reals.dfy`, `Wrappers.dfy` | products of reals; values that may be missing |
| `Config.dfy` | the parser of the `BACKENDS` setting |

How the pieces fit.  Classes (`Value`, `Matcher`, `BackendState`, `Router`) have the fields
and loops of the program.  Each method is proved against a function of its inputs and the
old state, and the theorems are about those functions.  `Router` carries the run so far as
a ghost field; its invariant says that the run leads to the present state.  So the theorems
about runs hold of the object, as `Router.StateInvariants` spells out.  The engine keeps
every object ever created, because requests outlive the snapshots that listed them.

Modelling choices:

- Time is an integer parameter that does not go back.  Scores, warmth and averages are
  exact reals.
- A hash is an injective function of the text (`Sha256`).
- The exponential decay is a parameter of which only this is used: it is 1 at age 0, stays
  positive, does not grow and halves with every half-life.  The linear decay is computed.
- A text is a sequence of bytes, and only the six single-byte white-space characters
  separate words.
- An index outside the list is a panic in Go.  It is an error value here: the request is lost
  and the router goes on, as it does under the HTTP server's recovery.  A panic of the call to
  a backend is a step of its own.
- Matcher calls, selections, reservations, probes and snapshot updates are atomic steps.
  Only the moving average is split further, into its load and its compare-and-swap.
- Go visits maps in an arbitrary order; the methods do too, and the theorems hold for every
  order.

Results that qualify what one might expect:

- `Rotation.PositionsInRange`: a scan indexes outside the list once the counter comes within
  the list's length of 2^63, apart from the cases named there.  The condition is exact, and
  `Rotation.OutOfRangeExample` is a case.
- `EngineSnapshots.RepeatedUpdateCreates`: if discovery announces one ID with two URLs,
  announcing the same list again replaces objects by new ones that are unhealthy until
  probed.  The condition is exact, and `EngineSnapshots.TwoUrls` is a case.
- `EngineSnapshots.RepeatedUpdateIsNoOp`: an endpoint that discovery lists twice costs no new
  object, and yet announcing it again changes the list.  `EngineSnapshots.ListedTwice` is a
  case.
- `Prefix.LongerTextKeepsFingerprint`: a fingerprint as long as the whole earlier text is
  lost when the text stopped inside a word.  The condition is exact, and
  `Prefix.CutInsideWord` is a case.
- `CasLoop.ProgressBound` cannot be improved: `Ewma.WorstCase` attains it.
- `RequestText.FingerprintLengthBound`: the tracked length 1024 never occurs, since 1024
  bytes hold at most 512 tokens.
- The repository's README says that a backend is recorded for a prompt after the request
  completes.  The code does so only when forwarding succeeded, and so does the model.

## Model

| member | source | states |
|---|---|---|
| `CasLoop.Linearizable` | internal/ewma/ewma.go:28-37 | For every interleaving of concurrent `Observe` calls split into a load and a compare-and-swap, over any word type and any update function, the stored word is the fold of the update over the finished calls in the order their swaps succeeded, and each finished call appears in that order exactly once. A word that changes and changes back (ABA) does no harm. |
| `CasLoop.OrderOnlyGrows` | internal/ewma/ewma.go:28-37 | The commit order of a prefix of a schedule is a prefix of the commit order of the whole, so the linearisation respects real time. |
| `CasLoop.FailureHasCulprit` | internal/ewma/ewma.go:28-37 | A call's failed swaps are charged to successes of other calls, pairwise different ones, each within the window from that attempt's load to its swap. |
| `CasLoop.ProgressBound` | internal/ewma/ewma.go:28-37 | K concurrent calls suffer at most K(K-1)/2 failed swaps between them and no schedule has more than K(K+1) actions. |
| `CasLoop.BoundsAreAttained` | internal/ewma/ewma.go:28-37 | One and the same schedule attains both bounds, for every update function under which no observation, made in turn, leaves the word as it was. |
| `CasLoop.StuckMeansFinished` | internal/ewma/ewma.go:28-37 | A schedule with no possible next action has finished every call. |
| `Ewma.Value.WithAlpha` | internal/ewma/ewma.go:19-26 | The smoothing factor always ends up in (0, 1]: the argument if it is there, 0.05 otherwise; the value starts at 0. |
| `Ewma.Value.Observe` | internal/ewma/ewma.go:28-37 | The retry loop, with the values that rivals commit between each load and swap made explicit: it retries exactly through the rounds in which the word changed, and leaves the average of every rival value so far followed by its own value. |
| `Ewma.AverageConcat` | internal/ewma/ewma.go:28-37 | Averaging a run of observations is averaging its first part and then the rest. |
| `Ewma.ClosedForm` | internal/ewma/ewma.go:28-37 | After n observations the value is (1-alpha)^n times the start plus the sum of alpha(1-alpha)^(n-i) x_i. |
| `Ewma.AverageOfConstant` | internal/ewma/ewma.go:28-37 | n observations of the same `top` from 0 give exactly top(1-(1-alpha)^n), so the bound of `AverageBounds` is attained. |
| `Ewma.AverageBounds` | internal/ewma/ewma.go:28-37 | n observations in [0, top] keep an average that starts at 0 in [0, top(1-(1-alpha)^n)]. |
| `Ewma.ConcurrentObserve` | internal/ewma/ewma.go:28-37 | Any interleaving of `Observe` calls leaves the average of the committed values in commit order. |
| `Ewma.ConcurrentObserveBounds` | internal/ewma/ewma.go:28-37 | The bounds hold at every moment of every interleaving. |
| `Ewma.WorstCase` | internal/ewma/ewma.go:28-37 | For every alpha and every K there are K concurrent `Observe` calls and a schedule in which they suffer exactly K(K-1)/2 failed swaps in K(K+1) actions. |
| `Prefix.WordsKeepText` | internal/prefix/prefix.go:18 | The words of a text hold every non-separator byte once, in order. |
| `Prefix.WordsOfJoin` | internal/prefix/prefix.go:18-24 | Splitting a space-joined list of words gives the list back. |
| `Prefix.JoinInjective` | internal/prefix/prefix.go:24 | Two lists of words with the same space-joined text are the same list, lists of different lengths included. |
| `Prefix.WordCount` | internal/prefix/prefix.go:18 | A text of m bytes has at most (m+1)/2 words. |
| `Prefix.ScanExtends` | internal/prefix/prefix.go:18 | Extending a text can change only its last, unclosed word and add words after it. |
| `Prefix.WordsOfPrefix` | internal/prefix/prefix.go:18 | A prefix of a text keeps all its words in the longer text if and only if it does not stop inside a word. |
| `Prefix.TokensAreFields` | internal/prefix/prefix.go:18 | The tokens matched by `\S+` over the normalised prompt are the white-space fields of the prompt, although the two notions of white space differ on the vertical tab. |
| `Prefix.SpacesAreSix` | internal/prefix/prefix.go:10-34 | Space, tab, newline, carriage return, vertical tab and form feed are white space and nothing else is; the pattern leaves out the vertical tab. |
| `Prefix.FieldsPart` | internal/prefix/prefix.go:34 | Any of the six parts the fields of what comes before it from those of what comes after. |
| `Prefix.FieldsWhole` | internal/prefix/prefix.go:34 | A non-empty text without them is one field. |
| `Prefix.NormalizeIdempotent` | internal/prefix/prefix.go:33-35 | Normalising twice is normalising once, and does not change the tokens. |
| `Prefix.Fingerprints` | internal/prefix/prefix.go:17-31 | The loop computes the fingerprint list of the specification function. |
| `Prefix.FingerprintsMembers` | internal/prefix/prefix.go:17-31 | A fingerprint is in the list exactly when its length is requested, positive and at most the token count, and its hash is that of that many leading tokens. |
| `Prefix.FingerprintsAscend` | internal/prefix/prefix.go:20-29 | For ascending lengths the fingerprints ascend, and so none is repeated. |
| `Prefix.FingerprintsOfNormalized` | internal/prefix/prefix.go:17-35 | A prompt and its normalised form have the same fingerprints. |
| `Prefix.CommonIsLongest` | internal/prefix/prefix.go:17-31 | The common length of two token lists is the longest n on whose first n tokens they agree. |
| `Prefix.SameHash` | internal/prefix/prefix.go:17-31 | Fingerprints of two prompts have equal hashes if and only if their lengths are equal and the prompts agree on that many leading tokens. |
| `Prefix.SharedFingerprints` | internal/prefix/prefix.go:17-31 | The fingerprints two prompts share are exactly the tracked lengths up to their longest common token prefix. |
| `Prefix.LongerTextKeepsFingerprint` | internal/prefix/prefix.go:17-31 | When a text is extended, a fingerprint survives if and only if it is shorter than the token count or the old text did not stop inside a word. |
| `Prefix.CutInsideWord` | internal/prefix/prefix.go:17-31 | The fingerprint of the text "a" is not one of "ab": a text cut inside a word loses the fingerprint of its full length. |
| `RequestText.Request.PrefixText` | internal/router/model.go:16-47 | The early-exit concatenation of messages or prompt parts is the first `limit` bytes of the full text, or all of it; the rows below say what that text is. |
| `RequestText.TextGrows` | internal/router/model.go:18-37 | Appending a message to a chat request appends its content to the text; appending a part to a list prompt appends that part. |
| `RequestText.SameTextAnyForm` | internal/router/model.go:18-42 | One message with content c, the prompt string c, the list [c] and any other value printed as c have the text c and the same fingerprints. |
| `RequestText.NothingIsNoText` | internal/router/model.go:31-39 | No prompt, or an empty list, and no messages are the empty text. |
| `RequestText.OnlyContentsMatter` | internal/router/model.go:5-26 | Requests whose messages have equal contents have equal texts and fingerprints, whatever their model names, roles and ignored prompts. |
| `RequestText.LimitKeepsPrefix` | internal/router/model.go:16-47 | A limit keeps exactly that many leading bytes of the text, or everything if there are fewer. |
| `RequestText.First1024Bytes` | internal/router/cache_aware.go:111-112 | Requests that agree on the first 1024 bytes have the same fingerprints; a text of at most 1024 bytes is fingerprinted whole, at the lengths 32, 64, 128, 256, 512 and 1024. |
| `RequestText.FingerprintLengthBound` | internal/router/cache_aware.go:15-18 | On the router's path every fingerprint has length 32, 64, 128, 256 or 512; the tracked length 1024 is never produced. |
| `RequestText.LengthsAttained` | internal/router/cache_aware.go:15-18 | A prompt of n one-letter words, n at most 512, has fingerprints of exactly those lengths among 32, 64, 128, 256 and 512 that are at most n, so each of them occurs. |
| `RequestText.FollowUpText` | internal/router/model.go:16-47 | Appending messages to a chat request extends its truncated text. |
| `RequestText.FollowUpKeepsFingerprints` | internal/router/cache_aware.go:98-113 | Appending messages keeps a fingerprint if and only if it is shorter than the earlier text's token count or the earlier text did not stop inside a word. |
| `PrefixIndex.DecayAntitone` | internal/router/matcher.go:119-137 | Under every policy decay is 1 at age 0, lies in [0, 1] and never grows with age. |
| `PrefixIndex.LinearDecay` | internal/router/matcher.go:126-131 | Under the linear policy equal times lose equal amounts, in proportion to the maximal age, and nothing is left exactly from the maximal age on. |
| `PrefixIndex.ExponentialDecay` | internal/router/matcher.go:132-136 | Under every other decay policy each half-life halves what is left, and something is always left. |
| `PrefixIndex.NoDecay` | internal/router/matcher.go:120-130 | Nothing decays without expiry, without a half-life, or under the linear policy without a maximal age. |
| `PrefixIndex.WarmthScales` | internal/router/matcher.go:84 | A new match is worth its length, and a later one its length times what is left. |
| `PrefixIndex.HalfLifeExample` | internal/router/matcher.go:132-136 | 128 tokens are worth 64 after one half-life of a minute. |
| `PrefixIndex.LaterIsWarmer` | internal/router/matcher.go:84 | A newer match of the same length is worth at least as much, and at most its length. |
| `PrefixIndex.PolicyIsLawful` | internal/router/matcher.go:113-137 | Every configuration satisfies the laws that the history theorems ask of expiry and warmth. |
| `PrefixIndex.RememberLookup` | internal/router/matcher.go:101-111 | Remembering sets exactly the entries of that backend under the given hashes, and no other. |
| `PrefixIndex.SweepStages` | internal/router/matcher.go:71-93 | Visiting the backends of one hash one by one, in any order, reaches the result of the visit described at once. |
| `PrefixIndex.Matcher.constructor` | internal/router/matcher.go:27-34 | A new matcher is empty and follows its configuration. |
| `PrefixIndex.Matcher.Remember` | internal/router/matcher.go:101-111 | The nested-map updates compute the specification function `RememberAll`. |
| `PrefixIndex.Matcher.CandidateMatches` | internal/router/matcher.go:61-99 | Matches, evictions and the remaining index are those of the specification function `Candidates`, whatever order each map is visited in. |
| `PrefixIndex.Matcher.VisitBackends` | internal/router/matcher.go:71-93 | The range over one hash's backends, deleting as it goes, computes `Visit` for every visiting order. |
| `PrefixHistory.CandidatesEvictExpired` | internal/router/matcher.go:76-80 | A lookup removes exactly the expired entries under the hashes it asks for. |
| `PrefixHistory.EvictionsAreTheDrop` | internal/router/matcher.go:62-98 | The evictions reported are the drop in the number of stored entries, and no entry is added. |
| `PrefixHistory.NothingExpires` | internal/router/matcher.go:113-117 | Without expiry or without a maximal age, no lookup evicts anything or changes the index. |
| `PrefixHistory.RememberedFor` | internal/router/matcher.go:113-117 | An entry remembered at t survives a lookup at t + d if and only if nothing expires at all or d is at most the maximal age. |
| `PrefixHistory.OfferedFor` | internal/router/matcher.go:74-91 | If it survives, the backend is offered at age d with length times decay(d), unless that is 0. |
| `PrefixHistory.CandidatesAreBest` | internal/router/matcher.go:61-99 | The candidate of one backend is a fold over the unexpired entries alone. |
| `PrefixHistory.BestMatchIsMaximum` | internal/router/matcher.go:84-91 | A candidate's warmth is the maximum of length times decay over the unexpired entries, and the match length and age reported with it are those of the first print that attains it; it is absent iff no such value is positive. |
| `PrefixHistory.IndexSummarisesLog` | internal/router/matcher.go:101-111 | In every run, a stored time is that of the latest success of that backend on that hash, and where nothing is stored every such success has expired. |
| `PrefixHistory.FreshFromLog` | internal/router/matcher.go:76-80 | An unexpired entry is the latest unexpired success of the log, and is missing iff there is none. |
| `PrefixHistory.HistoryRefinement` | internal/router/matcher.go:61-111 | After any run of successes and lookups under a non-decreasing clock, a lookup answers what a scan over all past unexpired successes answers: the maximum is attained by one of them and bounds them all, and no candidate is reported iff no value is positive. |
| `PrefixHistory.WarmthBound` | internal/router/matcher.go:84 | No warmth exceeds the longest print asked for. |
| `PrefixHistory.EvictionsNeverShow` | internal/router/matcher.go:76-80 | Removing every lookup, with its evictions, from a run changes no later answer. |
| `PrefixHistory.DownwardClosure` | internal/router/matcher.go:101-111 | In an index filled from fingerprinted texts, an unexpired entry for the first L tokens comes with one at least as recent for every shorter tracked length. |
| `Backend.BackendState.constructor` | internal/backend/state.go:24-51 | A new state is unhealthy, with all counters and averages 0. |
| `Backend.IndexFindsLast` | internal/backend/state.go:58-72 | Looking an ID up finds the last item listed under it, and nothing iff it is not listed. |
| `Backend.DistinctIdsIndexAll` | internal/backend/state.go:58-72 | With distinct IDs the index and the list correspond one to one. |
| `Backend.NewBackendSnapshot` | internal/backend/state.go:58-72 | The loop builds the list without missing states and the index by ID of that list. |
| `Rotation.PositionsInRange` | internal/router/router.go:161-163 | For every value of the 64-bit counter and every length n, with wrap-around and truncated remainder, a full scan of n positions stays inside the list if and only if n = 1, or counter + n <= 2^63, or counter + n = 2^63 + 1 and n divides 2^63. |
| `Rotation.OutOfRangeExample` | internal/router/router.go:161-163 | With counter 2^63 and a list of two, the scan computes index -1. |
| `Rotation.StartIsRemainder` | internal/router/router.go:161-163 | The rotation's starting position is the counter modulo the list length. |
| `Scheduler.BackIsRemainder` | internal/router/router.go:163 | `Back` counts positions backwards around the list. |
| `Rotation.PositionIsSlot` | internal/router/cache_aware.go:72 | A scan that stays in range is a plain rotation around the list. |
| `Scheduler.PickIsFirst` | internal/router/router.go:161-168 | Round robin picks the cyclically first healthy position, and fails iff no listed backend is healthy. |
| `Scheduler.PickLands` | internal/router/router.go:161-168 | A selection lands on a healthy position iff it starts on it or on one of the unhealthy positions just before it. |
| `Scheduler.GapMeans` | internal/router/router.go:162-167 | The gap of a healthy position is the number of consecutive unhealthy positions just before it. |
| `Scheduler.RotationIsFair` | internal/router/router.go:161-168 | With n positions and fixed health, n consecutive plain rotations pick each healthy position exactly 1 + (number of consecutive unhealthy positions just before it) times. |
| `Scheduler.RoundRobinIsFirst` | internal/router/router.go:161-168 | For every counter the scan picks the first healthy position it reaches, finds nobody only if all positions are in range and none is healthy, and panics only at a position outside the list that it reaches. If all positions are in range it is the plain rotation. |
| `Scheduler.RoundRobinIsFair` | internal/router/router.go:161-168 | Fairness of the scan as computed in 64-bit arithmetic, while the counter is at most 2^63 - 2n. |
| `Scheduler.FallbackIsBest` | internal/router/cache_aware.go:68-83 | The fallback is the cyclically first of the healthy positions with the largest cold score; there is none iff nobody is healthy. |
| `Scheduler.EqualCostsRotate` | internal/router/cache_aware.go:68-83 | When 10 inflight + 1.5 latency + 50 error rate is the same for all healthy backends, the fallback is the round-robin pick. |
| `Scheduler.ChoiceIsOptimal` | internal/router/cache_aware.go:36-66 | The two scans return a healthy position of largest score over all healthy positions, with the warmth that counts for each, for every visiting order; none iff nobody is healthy. No assumption on IDs. |
| `Scheduler.DistinctIdsCount` | internal/router/cache_aware.go:51 | With distinct IDs the warmth that counts for a position is the candidate's; stale candidate IDs count nowhere. |
| `Scheduler.ScoreIsDetermined` | internal/router/cache_aware.go:45-60 | The achieved score depends neither on the order of candidates nor on the rotation. |
| `Scheduler.AffinityTradeOff` | internal/router/cache_aware.go:20-25 | If c is chosen and p is healthy, then c is healthy and 10 (inflight p - inflight c) + 1.5 (latency p - latency c) + 50 (error p - error c) >= 150 (warmth p - warmth c). |
| `Scheduler.WorseIsPassedOver` | internal/router/cache_aware.go:91-96 | A listing is never chosen over a healthy one that is as warm, cheaper in one cost and dearer in none, nor over one that is warmer and costs the same. |
| `Scheduler.WarmingKeepsChoice` | internal/router/cache_aware.go:45-60 | Warming only the chosen backend keeps it chosen, for every rotation and candidate order. |
| `Scheduler.LoadAwareFallback` | internal/router/cache_aware.go:68-83 | For every counter: the scan over state objects panics iff some position is out of range, and otherwise computes `Fallback`. |
| `Scheduler.ScanCandidates` | internal/router/cache_aware.go:45-60 | The scan over the candidate map computes `WarmScan` for the order in which it visits the map. |
| `Scheduler.RotatingSelect` | internal/router/router.go:161-168 | For every counter: the scan over state objects comes to what `RoundRobin` comes to, a panic included. |
| `Engine.CollectMeans` | internal/router/router.go:82-90 | The collected list matches the endpoints in order; an endpoint known under its ID with the same URL keeps its object, every other one gets a new, unhealthy one; existing objects are untouched. |
| `Engine.CollectCreates` | internal/router/router.go:82-90 | Exactly one object is created for each endpoint not known under its ID. |
| `EngineObjects.RunShape` | internal/router/router.go:106-149 | In every run the snapshot and the requests refer only to objects that exist. |
| `EngineObjects.SelectedAdds` | internal/router/router.go:151-169 | A selection adds one request, given to a healthy listed object or refused, and changes no object and no other request. |
| `EngineObjects.ReservationConservation` | internal/router/router.go:106-149 | In every run, on every object ever created, listed or dropped: in-flight equals the outstanding reservations, hence is never negative; selected = answered + being forwarded + aborted; errors <= answered. |
| `EngineObjects.RecordsAreTheRuns` | internal/router/router.go:119-130 | The probes and answers recorded with an object are those of the run, all of them, in order. |
| `EngineObjects.HealthRefinesProbes` | internal/router/router.go:187-215 | In every run the failure count is the length of the trailing run of failed probes, and an object is healthy iff some probe succeeded and that run is shorter than the threshold. |
| `EngineObjects.ThresholdDecides` | internal/router/router.go:228-233 | A backend that answered and then failed k probes in a row is healthy iff k is less than the configured threshold, or than 3 if that is 0. |
| `EngineObjects.AveragesRefineAnswers` | internal/router/router.go:121-130 | In every run the latency and error averages of an object are the averages of its answers in the run, and those answers are counted. |
| `EngineObjects.FirstAnswer` | internal/router/router.go:121-130 | After its first answer a backend's latency is 0.05 times what that took, and its error rate is 0.05 if it failed and 0 otherwise. |
| `EngineObjects.AveragesStayBounded` | internal/router/router.go:121-130 | In every run the error average lies in [0, 1-(1-alpha)^n] after n answers of the run, and the latency average between 0 and any bound on the latencies observed in the run. |
| `EngineObjects.OnlyProvenObjects` | internal/router/router.go:136-149 | No request is ever given to, reserved on or forwarded to an object that was never probed successfully, freshly created ones included. |
| `EngineObjects.SelectionsAreHealthy` | internal/router/router.go:217-219 | Every selection goes to a listed object some probe of which succeeded and whose last `threshold` probes did not all fail. |
| `EngineRotation.RunContinues` | internal/router/router.go:106-149 | A run followed by more steps is the run, continued, so what holds of continuations holds within every run. |
| `EngineRotation.CounterCountsScans` | internal/router/router.go:161 | However a run goes on, the counter advances once for each selection that gets to a scan, and for nothing else. |
| `EngineRotation.AdvancedIsModulo` | internal/router/cache_aware.go:36 | Advancing k times adds k, modulo 2^64. |
| `EngineRotation.SelectionWithoutLookup` | internal/router/router.go:151-169 | Without a list a request is refused as such and the counter stays; under cache_aware an undecodable request is refused and the counter stays; under any other policy the rotation decides, whatever the body. The index is untouched. |
| `EngineRotation.RotationServesAll` | internal/router/router.go:161-168 | While health and the list are fixed and the rotation decides, n selections over n listings, whatever else happens to requests in between, give each healthy listing exactly 1 + (consecutive unhealthy listings just before it) requests. |
| `EngineRotation.RoundRobinServesAll` | internal/router/router.go:161-168 | So under every policy other than cache_aware, for every sequence of steps without updates and probes. |
| `EngineRotation.ColdSelectionsServeAll` | internal/router/cache_aware.go:36-39 | So under every policy, cache_aware included, for consecutive selections when nothing is remembered and all healthy backends cost the same. |
| `EngineRotation.RequestsGoOn` | internal/router/router.go:106-149 | However a run goes on, a request keeps its object, keeps its prints until it is answered, and never leaves a refusal, a release or an abort. |
| `EngineSnapshots.SnapshotMatchesAnnouncement` | internal/router/router.go:80-93 | In every reachable state the list shows the endpoints last announced, in order, and each ID leads to its last listing. |
| `EngineSnapshots.SnapshotIsBijective` | internal/backend/state.go:58-72 | With distinct IDs, IDs and listed objects correspond one to one. |
| `EngineSnapshots.UpdateKnows` | internal/router/router.go:80-93 | After an update some object is known for an endpoint if and only if the update lists it last under its ID; then an object known before is known still. |
| `EngineSnapshots.DistinctListsLast` | internal/router/router.go:80-93 | With distinct IDs, every endpoint named is listed last under its ID. |
| `EngineSnapshots.IdentityOverChurn` | internal/router/router.go:80-93 | An endpoint that the first list lists last under its ID keeps one and the same object throughout the run, whatever else happens, if and only if every later announcement lists it last under its ID too. |
| `EngineSnapshots.RepeatedUpdateCreates` | internal/router/router.go:84-90 | Announcing again what is shown leaves the objects as they are if endpoints that share an ID are equal; otherwise the number of objects grows. Every added object is a new one, unhealthy, with nothing recorded. |
| `EngineSnapshots.RepeatedUpdateIsNoOp` | internal/router/router.go:80-93 | Announcing again what is shown changes nothing at all if and only if every listing leads, by its ID, to itself, as it does with distinct IDs. |
| `EngineSnapshots.TwoUrls` | internal/router/router.go:80-93 | One ID with two URLs, announced twice: a third object takes the place of the first and is unhealthy. |
| `EngineSnapshots.ListedTwice` | internal/router/router.go:80-93 | One endpoint listed twice, announced twice: no object is created, and the list changes. |
| `EngineAffinity.RunFollowsLog` | internal/router/router.go:123-125 | In every run the index is the replay of the log, which is in time order and holds only prints of request texts. |
| `EngineAffinity.LogHoldsForwards` | internal/router/router.go:119-130 | Beyond what the matcher had seen before, the log holds the successful forwards of the run, all of them, in order. |
| `EngineAffinity.SelectionIsBestByHistory` | internal/router/cache_aware.go:27-66 | End to end, in every run, repeated IDs included: a decodable request goes to a healthy listed backend such that no other has more of 150 times the warmth a scan over all past successes gives it (to the last listing of its ID), less 10 per request in flight, 1.5 per millisecond and 50 times the error rate; it is refused iff no listed backend is healthy and lost to a panic iff the scan leaves the list. |
| `EngineAffinity.WarmthAtMost512` | internal/router/cache_aware.go:15-18 | In every run, no candidate on the router's path is warmer than 512. |
| `EngineAffinity.ReachableDownwardClosure` | internal/router/matcher.go:101-111 | The downward closure holds in every reachable state of the router. |
| `EngineAffinity.FollowUpStaysWarm` | internal/router/cache_aware.go:98-113 | In every run, when an answered conversation comes back with more messages, every tracked length short of the earlier token count, and that count itself if the text was not cut inside a word, still finds the backend with at least the warmth of that length at that age. |
| `EngineAffinity.FollowUpReturns` | internal/router/cache_aware.go:27-66 | Such a follow-up goes to a healthy listing c with 10 times its advantage in load, 1.5 times that in latency and 50 times that in error rate adding up to at least 150 times (the warmth of that length and age, less its own); it goes back to the same backend if no other healthy listing is cheaper by that much. |
| `EngineTrace.AfterIsSound` | internal/router/router.go:80-149 | A step taken in a run that leads to the present state extends that run; only an update changes the snapshot. |
| `Routing.CollectStates` | internal/router/router.go:82-90 | The loop over endpoints reuses and creates state objects exactly as the model's objects; created states share nothing with existing ones. |
| `Routing.Router.constructor` | internal/router/router.go:44-78 | A new router stands at the start of a run over the given endpoints and over whatever the matcher had seen before; a threshold of 0 becomes 3 and any other is kept. |
| `Routing.Router.UpdateBackends` | internal/router/router.go:80-93 | Takes the update step; states created so far are kept, and those added are new. |
| `Routing.Router.CacheAwareSelect` | internal/router/cache_aware.go:27-66 | The text, the prints, the rotation, the fallback, the lookup and the candidate scan, put together, return the state at the position `Choose` gives, or the error, for every counter; a panic comes before the lookup, so the index is left alone. |
| `Routing.Router.SelectBackend` | internal/router/router.go:151-169 | Takes the selection step, for every counter; returns the state the request was given to with its prints, or null with the error or panic. |
| `Routing.Router.Reserve` | internal/router/router.go:141-143 | Takes the reservation step on the state the request was given to. |
| `Routing.Router.Release` | internal/router/router.go:145-148 | Takes the release step after an answer. |
| `Routing.Router.Abort` | internal/router/router.go:111-119 | Takes the abort step: the deferred release runs although the forward never returned normally. |
| `Routing.Account` | internal/router/router.go:121-130 | Totals and both averages of one state after an answer. |
| `Routing.Router.Finish` | internal/router/router.go:119-133 | Takes the answer step: accounts, averages and, on success only, the index. |
| `Routing.Router.SelectAndReserveBackend` | internal/router/router.go:136-149 | One selection and, unless refused, one reservation; nothing else changes. |
| `Routing.Router.Forward` | internal/router/router.go:106-134 | A whole undisturbed request takes exactly the steps select, reserve, then finish and release or abort; a refused one only selects; every load ends as it began. |
| `EngineTrace.LoadsRestored` | internal/router/router.go:106-149 | The steps of one forward leave the load of every object as it was. |
| `Routing.Router.CheckBackend` | internal/router/router.go:190-214 | Takes the probe step on one state. |
| `Routing.Router.CheckBackendsHealth` | internal/router/router.go:187-215 | The loop takes one probe step for each listed state, in list order. |
| `EngineTrace.CheckedMeans` | internal/router/router.go:187-215 | A round of health checks appends to each object's probes exactly the results that concern it, repeated listings included. |
| `EngineTrace.RoundDecidesHealth` | internal/router/router.go:187-215 | When the listed objects are distinct, a round probes each once: one that answers is healthy afterwards, one that fails is healthy only if it was and stays short of the threshold, and the objects not listed are left alone. |
| `Routing.Router.StateInvariants` | internal/router/router.go:106-219 | In every reachable router, on every state object ever created: its in-flight counter, totals and health flag are what the run's reservations, answers and probes say. |
| `Config.ParseBackends` | internal/config/config.go:59-85 | The loop over the split parts computes the specification function `Parsed`, which the rows below determine. |
| `Config.PartsAreIndependent` | internal/config/config.go:59-85 | For non-empty texts a and b, parsing a,b gives the backends of a and then those of b. |
| `Config.BlankPartIsSkipped` | internal/config/config.go:70-73 | A part of white space gives nothing. |
| `Config.BarePart` | internal/config/config.go:74-82 | A trimmed part without '=' is its own ID and, without trailing slashes, its own URL. |
| `Config.PaddingIsDropped` | internal/config/config.go:79-82 | White space around a part, its ID and its URL is dropped, and so are slashes at the end of the URL. |
| `Config.DefaultOnlyIfEmpty` | internal/config/config.go:60-65 | Only an empty setting looks at the default: it gives mock-1 at http://localhost:8081 if that is wanted, and no backend otherwise. |
| `Config.EndpointRoundTrip` | internal/config/config.go:59-85 | An endpoint that parsing can produce survives printing and parsing iff its URL is trimmed and does not end in a slash. |
| `Config.BackendsRoundTrip` | internal/config/config.go:59-85 | A non-empty list of endpoints, printed in the form of scripts/run-mock-backends.sh, is parsed back in order if and only if every ID and URL is trimmed and comma-free, every ID is free of '=' and no URL ends in '/'. |

## Left out

- Routing.Router.Forward: describes a request with nothing else going on; requests that overlap are runs of the engine's separate steps, where optimality is about the state that one selection read.
- Routing.Router.Finish: is one step, although the program's counters, averages and index change one after another.
- Routing.Router.CheckBackendsHealth: one round with no update in between; rounds that overlap an update are runs of single probe steps.
- Routing.Router.constructor: leaves out the registerer, whose absence the program reports as an error.
- PrefixIndex.Matcher.CandidateMatches: atomic; in the program a delete decided on an old time can land after a concurrent refresh.
- PrefixIndex.Matcher.Remember: atomic; in the program two concurrent calls can store their times out of order.
- PrefixHistory.HistoryRefinement: asks for a clock that does not go back; the program reads the wall clock, and an adjusted clock can store an older time over a newer one.
- PrefixIndex.PolicyIsLawful: assumes of the exponential only that it is 1 at 0, positive, non-increasing and halved by each half-life.
- Prefix.SameHash: assumes that SHA-256 has no collisions and does not model its digits.
- Prefix.TokensAreFields: multi-byte white space, which `strings.Fields` recognises and `\s` does not, is not part of this model; neither is a rune cut in two by the byte limit.
- Ewma.ClosedForm: exact reals; rounding, infinities and NaN are left out. `CasLoop.Linearizable` and `CasLoop.ProgressBound` hold for any word and update function, so for the rounded ones too.
- EngineObjects.ReservationConservation: counters are unbounded integers; the wrap-around of 64-bit totals is left out.
- EngineAffinity.FollowUpReturns: supposes that the scan stays inside the list; what happens otherwise is in `EngineAffinity.SelectionIsBestByHistory`.
- The index is keyed by backend ID alone, so a new URL under an old ID keeps its warmth; nothing is claimed about clearing it.
- Scheduler.RoundRobinIsFair: is about counters at most 2^63 - 2n, where no scan of the round can leave the list.
- HTTP serving and proxying, JSON decoding, printing of prompt parts, network health probes, Kubernetes discovery, tickers, logging: a forward is an answer or a panic, a probe a boolean, a discovery result a list, a body a decoded request or none.
- Prometheus metrics: they do not influence routing.
- `Ready`, `MatchLength` and environment lookups: they would only add easy members.
- The mock backend, benchmarks, scripts and manifests.
