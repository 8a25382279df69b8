/**
 The prefix index against the log it summarises.  Every answer of the index, whatever was
 overwritten or evicted before, is the answer of a scan over all past successes.
 */
module PrefixHistory {
  import opened Wrappers
  import opened Prefix
  import opened PrefixIndex

  /** What reaches the index: a success of a backend on some prints, or a lookup. */
  datatype Event =
    | Served(id: BackendId, prints: seq<Fingerprint>, at: int)
    | LookedUp(prints: seq<Fingerprint>, at: int)

  function Apply(policy: Policy, ix: Index, e: Event): Index {
    match e
    case Served(id, prints, at) => RememberAll(ix, id, prints, at)
    case LookedUp(prints, at) => Candidates(policy, ix, prints, at).index
  }

  function Replay(policy: Policy, run: seq<Event>): Index {
    if run == [] then map[]
    else
      var n := |run| - 1;
      Apply(policy, Replay(policy, run[..n]), run[n])
  }

  /** The clock does not go back along the run, nor before `now`. */
  ghost predicate Ordered(run: seq<Event>, now: int) {
    && (forall i, j | 0 <= i < j < |run| :: run[i].at <= run[j].at)
    && (forall i | 0 <= i < |run| :: run[i].at <= now)
  }

  /** Event `i` is a success of backend `b` on prints that include hash `h`. */
  predicate Serves(run: seq<Event>, i: int, b: BackendId, h: Hash) {
    0 <= i < |run| && run[i].Served? && run[i].id == b && Mentions(run[i].prints, h)
  }

  /** ... and it is recent enough to count at time `now`. */
  predicate Recalled(policy: Policy, run: seq<Event>, i: int, b: BackendId, h: Hash, now: int) {
    Serves(run, i, b, h) && !policy.expired(now - run[i].at)
  }

  /******* What a lookup does to the index *******/

  /** A lookup removes exactly the expired entries of the hashes it asks for. */
  lemma {:induction false} CandidatesEvictExpired(policy: Policy, ix: Index, prints: seq<Fingerprint>, now: int, h: Hash, b: BackendId)
    ensures Lookup(Candidates(policy, ix, prints, now).index, h, b)
         == (var entry := Lookup(ix, h, b);
             if entry.Some? && Mentions(prints, h) && policy.expired(now - entry.value) then None else entry)
  {
    if prints == [] {
    } else {
      CandidatesEvictExpired(policy, ix, prints[..|prints| - 1], now, h, b);
      MentionsLast(prints, h);
    }
  }

  function Entries(ix: Index): set<(Hash, BackendId)> {
    set h, b | h in ix && b in ix[h] :: (h, b)
  }

  /** The number of evictions reported is the number of entries that disappeared. */
  lemma {:induction false} EvictionsAreTheDrop(policy: Policy, ix: Index, prints: seq<Fingerprint>, now: int)
    ensures var s := Candidates(policy, ix, prints, now);
            Entries(s.index) <= Entries(ix) && s.evictions == |Entries(ix)| - |Entries(s.index)|
  {
    if prints == [] {
    } else {
      var n := |prints| - 1;
      EvictionsAreTheDrop(policy, ix, prints[..n], now);
      var s := Candidates(policy, ix, prints[..n], now);
      var h := prints[n].hash;
      if h in s.index {
        var seen := s.index[h];
        var gone := Expired(policy, seen, now);
        var after := s.index[h := Alive(policy, seen, now)];
        var pairs := set b | b in gone :: (h, b);
        assert Entries(after) == Entries(s.index) - pairs && pairs <= Entries(s.index);
        PairUp(h, gone);
      }
    }
  }

  lemma {:induction false} PairUp(h: Hash, ids: set<BackendId>)
    ensures |set b | b in ids :: (h, b)| == |ids|
  {
    if ids == {} {
    } else {
      var b :| b in ids;
      PairUp(h, ids - {b});
      assert (set c | c in ids :: (h, c)) == (set c | c in ids - {b} :: (h, c)) + {(h, b)};
    }
  }

  /******* What a lookup answers *******/

  /** An entry that has not expired. */
  function Fresh(policy: Policy, ix: Index, h: Hash, b: BackendId, now: int): Option<int> {
    var entry := Lookup(ix, h, b);
    if entry.Some? && policy.expired(now - entry.value) then None else entry
  }

  /** The best match of one backend, from the unexpired entries alone. */
  function BestMatch(policy: Policy, ix: Index, prints: seq<Fingerprint>, b: BackendId, now: int): Option<CandidateMatch> {
    if prints == [] then None
    else
      var n := |prints| - 1;
      var before := BestMatch(policy, ix, prints[..n], b, now);
      match Fresh(policy, ix, prints[n].hash, b, now)
      case None => before
      case Some(t) =>
        var warmth := policy.warmth(prints[n].length, now - t);
        if warmth > (if before.Some? then before.value.warmth else 0.0)
        then Some(CandidateMatch(warmth, prints[n].length, now - t)) else before
  }

  function MatchOf(matches: Matches, b: BackendId): Option<CandidateMatch> {
    if b in matches then Some(matches[b]) else None
  }

  lemma VisitAnswers(policy: Policy, s: Sweep, fp: Fingerprint, now: int, b: BackendId)
    ensures MatchOf(Visit(policy, s, fp, now).matches, b) ==
            match Fresh(policy, s.index, fp.hash, b, now)
            case None => MatchOf(s.matches, b)
            case Some(t) =>
              var warmth := policy.warmth(fp.length, now - t);
              if warmth > BestWarmth(s.matches, b) then Some(CandidateMatch(warmth, fp.length, now - t))
              else MatchOf(s.matches, b)
  {
  }

  lemma CandidatesKeepFresh(policy: Policy, ix: Index, prints: seq<Fingerprint>, now: int, h: Hash, b: BackendId)
    ensures Fresh(policy, Candidates(policy, ix, prints, now).index, h, b, now) == Fresh(policy, ix, h, b, now)
  {
    CandidatesEvictExpired(policy, ix, prints, now, h, b);
  }

  lemma {:induction false} CandidatesAreBest(policy: Policy, ix: Index, prints: seq<Fingerprint>, b: BackendId, now: int)
    ensures MatchOf(Candidates(policy, ix, prints, now).matches, b) == BestMatch(policy, ix, prints, b, now)
  {
    if prints == [] {
    } else {
      var n := |prints| - 1;
      var s := Candidates(policy, ix, prints[..n], now);
      CandidatesAreBest(policy, ix, prints[..n], b, now);
      CandidatesKeepFresh(policy, ix, prints[..n], now, prints[n].hash, b);
      VisitAnswers(policy, s, prints[n], now, b);
    }
  }

  /** What one print is worth for one backend: 0 without an unexpired entry. */
  function Value(policy: Policy, ix: Index, fp: Fingerprint, b: BackendId, now: int): real {
    match Fresh(policy, ix, fp.hash, b, now)
    case None => 0.0
    case Some(t) => policy.warmth(fp.length, now - t)
  }

  ghost predicate Explains(policy: Policy, ix: Index, fp: Fingerprint, b: BackendId, now: int, m: CandidateMatch) {
    && fp.length == m.matchLength
    && Fresh(policy, ix, fp.hash, b, now) == Some(now - m.age)
    && m.warmth == Value(policy, ix, fp, b, now) > 0.0
  }

  /** Print `i` explains the match, and no earlier one is worth as much. */
  ghost predicate IsFirstBest(policy: Policy, ix: Index, prints: seq<Fingerprint>, b: BackendId, now: int, m: CandidateMatch, i: int)
    requires 0 <= i < |prints|
  {
    && Explains(policy, ix, prints[i], b, now, m)
    && forall j | 0 <= j < i :: Value(policy, ix, prints[j], b, now) < m.warmth
  }

  ghost predicate IsMaximum(policy: Policy, ix: Index, prints: seq<Fingerprint>, b: BackendId, now: int, best: Option<CandidateMatch>) {
    && (best.Some? ==> exists i | 0 <= i < |prints| :: IsFirstBest(policy, ix, prints, b, now, best.value, i))
    && (forall i | 0 <= i < |prints| ::
          Value(policy, ix, prints[i], b, now) <= if best.Some? then best.value.warmth else 0.0)
  }

  function WarmthOf(m: Option<CandidateMatch>): real {
    if m.Some? then m.value.warmth else 0.0
  }

  lemma PrintsBefore(policy: Policy, ix: Index, prints: seq<Fingerprint>, b: BackendId, now: int, n: int, best: Option<CandidateMatch>)
    requires 0 <= n <= |prints| && IsMaximum(policy, ix, prints[..n], b, now, best)
    ensures forall i | 0 <= i < n :: Value(policy, ix, prints[i], b, now) <= WarmthOf(best)
    ensures best.Some? ==> exists i | 0 <= i < n :: IsFirstBest(policy, ix, prints, b, now, best.value, i)
  {
    assert forall i | 0 <= i < n :: prints[..n][i] == prints[i];
    if best.Some? {
      var i :| 0 <= i < n && IsFirstBest(policy, ix, prints[..n], b, now, best.value, i);
      assert IsFirstBest(policy, ix, prints, b, now, best.value, i);
    }
  }

  lemma MaximumStays(policy: Policy, ix: Index, prints: seq<Fingerprint>, b: BackendId, now: int, best: Option<CandidateMatch>)
    requires prints != []
    requires var n := |prints| - 1;
             IsMaximum(policy, ix, prints[..n], b, now, best) && Value(policy, ix, prints[n], b, now) <= WarmthOf(best)
    ensures IsMaximum(policy, ix, prints, b, now, best)
  {
    PrintsBefore(policy, ix, prints, b, now, |prints| - 1, best);
  }

  lemma MaximumMoves(policy: Policy, ix: Index, prints: seq<Fingerprint>, b: BackendId, now: int, best: Option<CandidateMatch>, m: CandidateMatch)
    requires prints != []
    requires var n := |prints| - 1;
             IsMaximum(policy, ix, prints[..n], b, now, best) && Explains(policy, ix, prints[n], b, now, m) && m.warmth > WarmthOf(best)
    ensures IsMaximum(policy, ix, prints, b, now, Some(m))
  {
    var n := |prints| - 1;
    PrintsBefore(policy, ix, prints, b, now, n, best);
    assert IsFirstBest(policy, ix, prints, b, now, m, n);
  }

  lemma {:induction false} BestMatchIsMaximum(policy: Policy, ix: Index, prints: seq<Fingerprint>, b: BackendId, now: int)
    ensures IsMaximum(policy, ix, prints, b, now, BestMatch(policy, ix, prints, b, now))
  {
    if prints == [] {
    } else {
      var n := |prints| - 1;
      var before := BestMatch(policy, ix, prints[..n], b, now);
      var value := Value(policy, ix, prints[n], b, now);
      BestMatchIsMaximum(policy, ix, prints[..n], b, now);
      if value <= WarmthOf(before) {
        MaximumStays(policy, ix, prints, b, now, before);
      } else {
        MaximumMoves(policy, ix, prints, b, now, before, BestMatch(policy, ix, prints, b, now).value);
      }
    }
  }

  /******* The index against the log *******/

  ghost predicate Summarises(policy: Policy, run: seq<Event>, now: int, h: Hash, b: BackendId, entry: Option<int>) {
    match entry
    case Some(t) =>
      && (exists i :: Serves(run, i, b, h) && run[i].at == t)
      && (forall i :: Serves(run, i, b, h) ==> run[i].at <= t)
    case None =>
      forall i :: Serves(run, i, b, h) ==> policy.expired(now - run[i].at)
  }

  /** A stored time is that of the latest success; where nothing is stored, every success
      has expired. */
  lemma {:induction false} IndexSummarisesLog(policy: Policy, run: seq<Event>, now: int, h: Hash, b: BackendId)
    requires policy.ExpiryLasts() && Ordered(run, now)
    ensures Summarises(policy, run, now, h, b, Lookup(Replay(policy, run), h, b))
  {
    if run == [] {
    } else {
      var n := |run| - 1;
      var before, e := run[..n], run[n];
      IndexSummarisesLog(policy, before, e.at, h, b);
      forall i ensures Serves(run, i, b, h) <==> Serves(before, i, b, h) || (i == n && Serves(run, n, b, h)) {
        assert 0 <= i < n ==> before[i] == run[i];
      }
      var ix := Replay(policy, before);
      match e {
        case Served(id, prints, at) =>
          RememberLookup(ix, id, prints, at, h, b);
        case LookedUp(prints, at) =>
          CandidatesEvictExpired(policy, ix, prints, at, h, b);
      }
      var entry, entry' := Lookup(ix, h, b), Lookup(Replay(policy, run), h, b);
      if entry'.Some? {
        if entry' == entry {
          var i :| Serves(before, i, b, h) && before[i].at == entry.value;
          assert Serves(run, i, b, h);
        } else {
          assert Serves(run, n, b, h);
        }
      }
    }
  }

  lemma FreshFromLog(policy: Policy, run: seq<Event>, now: int, h: Hash, b: BackendId)
    requires policy.ExpiryLasts() && Ordered(run, now)
    ensures var f := Fresh(policy, Replay(policy, run), h, b, now);
            && (f.Some? ==> exists i :: Recalled(policy, run, i, b, h, now) && run[i].at == f.value)
            && (forall i :: Recalled(policy, run, i, b, h, now) ==> f.Some? && run[i].at <= f.value)
  {
    IndexSummarisesLog(policy, run, now, h, b);
    var entry := Lookup(Replay(policy, run), h, b);
    if entry.Some? {
      var i :| Serves(run, i, b, h) && run[i].at == entry.value;
      assert !policy.expired(now - run[i].at) ==> Recalled(policy, run, i, b, h, now);
    }
  }

  /** The value a scan over the log attaches to print `i` and event `j`. */
  function ScanValue(policy: Policy, run: seq<Event>, prints: seq<Fingerprint>, i: int, j: int, now: int): real
    requires 0 <= i < |prints| && 0 <= j < |run|
  {
    policy.warmth(prints[i].length, now - run[j].at)
  }

  /** Print `i` shares a hash with event `j`, an unexpired success of `b`. */
  ghost predicate Pair(policy: Policy, run: seq<Event>, prints: seq<Fingerprint>, b: BackendId, now: int, i: int, j: int) {
    0 <= i < |prints| && Recalled(policy, run, j, b, prints[i].hash, now)
  }

  lemma PairIsCovered(policy: Policy, run: seq<Event>, prints: seq<Fingerprint>, b: BackendId, now: int, i: int, j: int)
    requires policy.Lawful() && Ordered(run, now) && Pair(policy, run, prints, b, now, i, j)
    ensures var w := ScanValue(policy, run, prints, i, j, now);
            w > 0.0 ==> w <= Value(policy, Replay(policy, run), prints[i], b, now)
  {
    FreshFromLog(policy, run, now, prints[i].hash, b);
    var t := Fresh(policy, Replay(policy, run), prints[i].hash, b, now).value;
  }

  /** What the scan over the log says backend `b` should be offered with. */
  ghost predicate ScanAnswers(policy: Policy, run: seq<Event>, prints: seq<Fingerprint>, b: BackendId, now: int, m: Option<CandidateMatch>) {
    && (m.Some? ==> m.value.warmth > 0.0 && exists i, j ::
          && Pair(policy, run, prints, b, now, i, j)
          && m.value == CandidateMatch(ScanValue(policy, run, prints, i, j, now), prints[i].length, now - run[j].at))
    && (forall i, j :: Pair(policy, run, prints, b, now, i, j) ==>
          ScanValue(policy, run, prints, i, j, now) <= if m.Some? then m.value.warmth else 0.0)
  }

  lemma BestIsScanned(policy: Policy, run: seq<Event>, prints: seq<Fingerprint>, b: BackendId, now: int, fp: int, m: CandidateMatch)
    requires policy.Lawful() && Ordered(run, now) && 0 <= fp < |prints|
    requires Explains(policy, Replay(policy, run), prints[fp], b, now, m)
    ensures exists j :: Pair(policy, run, prints, b, now, fp, j)
              && m == CandidateMatch(ScanValue(policy, run, prints, fp, j, now), prints[fp].length, now - run[j].at)
  {
    FreshFromLog(policy, run, now, prints[fp].hash, b);
    var j :| Recalled(policy, run, j, b, prints[fp].hash, now) && run[j].at == now - m.age;
    assert Pair(policy, run, prints, b, now, fp, j);
  }

  /** History refinement.  After any run of successes and lookups under a clock that does
      not go back, a lookup offers backend `b` if and only if some unexpired past success
      of `b` shares a hash and is worth more than zero, and then its warmth is the largest
      such value. */
  lemma HistoryRefinement(policy: Policy, run: seq<Event>, prints: seq<Fingerprint>, b: BackendId, now: int)
    requires policy.Lawful() && Ordered(run, now)
    ensures ScanAnswers(policy, run, prints, b, now, MatchOf(Candidates(policy, Replay(policy, run), prints, now).matches, b))
  {
    var ix := Replay(policy, run);
    var m := BestMatch(policy, ix, prints, b, now);
    CandidatesAreBest(policy, ix, prints, b, now);
    BestMatchIsMaximum(policy, ix, prints, b, now);
    forall i, j | Pair(policy, run, prints, b, now, i, j)
      ensures ScanValue(policy, run, prints, i, j, now) <= if m.Some? then m.value.warmth else 0.0
    {
      PairIsCovered(policy, run, prints, b, now, i, j);
    }
    if m.Some? {
      var i :| 0 <= i < |prints| && Explains(policy, ix, prints[i], b, now, m.value);
      BestIsScanned(policy, run, prints, b, now, i, m.value);
    }
  }

  /** No warmth exceeds the longest print asked for. */
  lemma WarmthBound(policy: Policy, run: seq<Event>, prints: seq<Fingerprint>, now: int, top: nat, b: BackendId)
    requires policy.Lawful() && Ordered(run, now)
    requires forall f | f in prints :: 0 <= f.length <= top
    ensures var m := MatchOf(Candidates(policy, Replay(policy, run), prints, now).matches, b);
            m.Some? ==> 0.0 < m.value.warmth <= top as real
  {
    HistoryRefinement(policy, run, prints, b, now);
    var m := MatchOf(Candidates(policy, Replay(policy, run), prints, now).matches, b);
    if m.Some? {
      var i, j :| Pair(policy, run, prints, b, now, i, j)
                  && m.value == CandidateMatch(ScanValue(policy, run, prints, i, j, now), prints[i].length, now - run[j].at);
      assert prints[i] in prints;
    }
  }

  /******* Evictions never show *******/

  function Successes(run: seq<Event>): seq<Event> {
    if run == [] then []
    else
      var n := |run| - 1;
      Successes(run[..n]) + if run[n].Served? then [run[n]] else []
  }

  lemma FreshAfter(policy: Policy, ix: Index, e: Event, now: int, h: Hash, b: BackendId)
    requires policy.ExpiryLasts() && e.at <= now
    ensures Fresh(policy, Apply(policy, ix, e), h, b, now)
         == if e.Served? && e.id == b && Mentions(e.prints, h)
            then (if policy.expired(now - e.at) then None else Some(e.at))
            else Fresh(policy, ix, h, b, now)
  {
    match e
    case Served(id, prints, at) => RememberLookup(ix, id, prints, at, h, b);
    case LookedUp(prints, at) => CandidatesEvictExpired(policy, ix, prints, at, h, b);
  }

  lemma {:induction false} SameFreshEntries(policy: Policy, run: seq<Event>, now: int, h: Hash, b: BackendId)
    requires policy.ExpiryLasts() && Ordered(run, now)
    ensures Fresh(policy, Replay(policy, run), h, b, now) == Fresh(policy, Replay(policy, Successes(run)), h, b, now)
  {
    if run == [] {
    } else {
      var n := |run| - 1;
      SameFreshEntries(policy, run[..n], now, h, b);
      FreshAfter(policy, Replay(policy, run[..n]), run[n], now, h, b);
      if run[n].Served? {
        assert Successes(run)[..|Successes(run)| - 1] == Successes(run[..n]);
        FreshAfter(policy, Replay(policy, Successes(run[..n])), run[n], now, h, b);
      } else {
        assert Successes(run) == Successes(run[..n]);
      }
    }
  }

  lemma {:induction false} SameBestMatch(policy: Policy, ix: Index, iy: Index, prints: seq<Fingerprint>, b: BackendId, now: int)
    requires forall h :: Fresh(policy, ix, h, b, now) == Fresh(policy, iy, h, b, now)
    ensures BestMatch(policy, ix, prints, b, now) == BestMatch(policy, iy, prints, b, now)
  {
    if prints == [] {
    } else {
      SameBestMatch(policy, ix, iy, prints[..|prints| - 1], b, now);
    }
  }

  /** Lookups, and so the evictions they make, never change a later answer. */
  lemma EvictionsNeverShow(policy: Policy, run: seq<Event>, prints: seq<Fingerprint>, now: int)
    requires policy.ExpiryLasts() && Ordered(run, now)
    ensures Candidates(policy, Replay(policy, run), prints, now).matches
         == Candidates(policy, Replay(policy, Successes(run)), prints, now).matches
  {
    var ix, iy := Replay(policy, run), Replay(policy, Successes(run));
    var a, c := Candidates(policy, ix, prints, now).matches, Candidates(policy, iy, prints, now).matches;
    forall b ensures MatchOf(a, b) == MatchOf(c, b) {
      forall h ensures Fresh(policy, ix, h, b, now) == Fresh(policy, iy, h, b, now) {
        SameFreshEntries(policy, run, now, h, b);
      }
      SameBestMatch(policy, ix, iy, prints, b, now);
      CandidatesAreBest(policy, ix, prints, b, now);
      CandidatesAreBest(policy, iy, prints, b, now);
    }
    forall b ensures (b in a <==> b in c) && (b in a ==> a[b] == c[b]) {
      assert MatchOf(a, b) == MatchOf(c, b);
    }
  }

  /******* Downward closure *******/

  /** Every success was recorded with the fingerprints of some text. */
  ghost predicate FromTexts(run: seq<Event>, lengths: seq<int>) {
    forall i | 0 <= i < |run| && run[i].Served? :: IsFingerprinting(run[i].prints, lengths)
  }

  ghost predicate IsFingerprinting(prints: seq<Fingerprint>, lengths: seq<int>) {
    prints == [] || exists text :: prints == FingerprintsOf(text, lengths)
  }

  lemma LeadingTokens(text: string, tokens: seq<string>, n: nat, m: nat)
    requires n <= |Tokens(text)| && m <= |tokens| && AreWords(tokens, IsPatternSpace)
    requires FingerprintOf(Tokens(text), n).hash == FingerprintOf(tokens, m).hash
    ensures n == m && Tokens(text)[..n] == tokens[..m]
  {
    TokensAreFields(text);
    JoinInjective(Tokens(text)[..n], tokens[..m], IsPatternSpace);
  }

  lemma TextMentions(text: string, lengths: seq<int>, tokens: seq<string>, longer: nat, shorter: nat)
    requires AreWords(tokens, IsPatternSpace)
    requires 0 < shorter <= longer <= |tokens| && shorter in lengths
    requires Mentions(FingerprintsOf(text, lengths), FingerprintOf(tokens, longer).hash)
    ensures Mentions(FingerprintsOf(text, lengths), FingerprintOf(tokens, shorter).hash)
  {
    var prints, all := FingerprintsOf(text, lengths), Tokens(text);
    var k :| 0 <= k < |prints| && prints[k].hash == FingerprintOf(tokens, longer).hash;
    FingerprintsMembers(text, lengths, prints[k]);
    LeadingTokens(text, tokens, prints[k].length, longer);
    assert all[..shorter] == all[..longer][..shorter] == tokens[..longer][..shorter] == tokens[..shorter];
    FingerprintsMembers(text, lengths, FingerprintOf(all, shorter));
  }

  lemma FromOneText(run: seq<Event>, i: int, b: BackendId, tokens: seq<string>, longer: nat, shorter: nat, lengths: seq<int>)
    requires FromTexts(run, lengths) && AreWords(tokens, IsPatternSpace)
    requires 0 < shorter <= longer <= |tokens| && shorter in lengths
    requires Serves(run, i, b, FingerprintOf(tokens, longer).hash)
    ensures Serves(run, i, b, FingerprintOf(tokens, shorter).hash)
  {
    assert IsFingerprinting(run[i].prints, lengths);
    var text :| run[i].prints == FingerprintsOf(text, lengths);
    TextMentions(text, lengths, tokens, longer, shorter);
  }

  /** In a reachable index filled from fingerprinted texts, an unexpired entry for the
      first `longer` tokens comes with an entry for every shorter tracked length, seen at
      least as recently. */
  lemma DownwardClosure(policy: Policy, run: seq<Event>, now: int, lengths: seq<int>,
                        tokens: seq<string>, longer: nat, shorter: nat, b: BackendId)
    requires policy.ExpiryLasts() && Ordered(run, now) && FromTexts(run, lengths) && AreWords(tokens, IsPatternSpace)
    requires 0 < shorter <= longer <= |tokens| && shorter in lengths
    ensures var f := Fresh(policy, Replay(policy, run), FingerprintOf(tokens, longer).hash, b, now);
            var g := Fresh(policy, Replay(policy, run), FingerprintOf(tokens, shorter).hash, b, now);
            f.Some? ==> g.Some? && f.value <= g.value
  {
    var h, k := FingerprintOf(tokens, longer).hash, FingerprintOf(tokens, shorter).hash;
    FreshFromLog(policy, run, now, h, b);
    FreshFromLog(policy, run, now, k, b);
    var f := Fresh(policy, Replay(policy, run), h, b, now);
    if f.Some? {
      var i :| Recalled(policy, run, i, b, h, now) && run[i].at == f.value;
      FromOneText(run, i, b, tokens, longer, shorter, lengths);
      assert Recalled(policy, run, i, b, k, now);
    }
  }

  /******* Expiry as configured *******/

  lemma PutBack(ix: Index, h: Hash)
    requires h in ix
    ensures ix[h := ix[h]] == ix
  {
  }

  lemma VisitKeepsAll(policy: Policy, s: Sweep, fp: Fingerprint, now: int)
    requires forall age :: !policy.expired(age)
    ensures Visit(policy, s, fp, now).index == s.index && Visit(policy, s, fp, now).evictions == s.evictions
  {
    if fp.hash in s.index {
      assert Alive(policy, s.index[fp.hash], now) == s.index[fp.hash];
      assert Expired(policy, s.index[fp.hash], now) == {};
      PutBack(s.index, fp.hash);
    }
  }

  lemma {:induction false} CandidatesKeepAll(policy: Policy, ix: Index, prints: seq<Fingerprint>, now: int)
    requires forall age :: !policy.expired(age)
    ensures Candidates(policy, ix, prints, now).index == ix && Candidates(policy, ix, prints, now).evictions == 0
  {
    if prints == [] {
    } else {
      var n := |prints| - 1;
      CandidatesKeepAll(policy, ix, prints[..n], now);
      VisitKeepsAll(policy, Candidates(policy, ix, prints[..n], now), prints[n], now);
    }
  }

  /** Without expiry or without a maximal age, no lookup ever evicts anything. */
  lemma {:induction false} NothingExpires(cfg: ExpiryConfig, ix: Index, prints: seq<Fingerprint>, now: int)
    requires cfg.expiryPolicy == "none" || cfg.prefixMaxAge <= 0
    ensures Candidates(PolicyOf(cfg), ix, prints, now).index == ix
    ensures Candidates(PolicyOf(cfg), ix, prints, now).evictions == 0
  {
    CandidatesKeepAll(PolicyOf(cfg), ix, prints, now);
  }

  lemma OneRemembered(ix: Index, b: BackendId, fp: Fingerprint, t: int)
    ensures Lookup(RememberAll(ix, b, [fp], t), fp.hash, b) == Some(t) && Mentions([fp], fp.hash)
  {
    assert [fp][0].hash == fp.hash;
    RememberLookup(ix, b, [fp], t, fp.hash, b);
  }

  lemma OneMatch(policy: Policy, ix: Index, b: BackendId, fp: Fingerprint, now: int)
    ensures MatchOf(Candidates(policy, ix, [fp], now).matches, b) ==
            match Fresh(policy, ix, fp.hash, b, now)
            case None => None
            case Some(t) =>
              var warmth := policy.warmth(fp.length, now - t);
              if warmth > 0.0 then Some(CandidateMatch(warmth, fp.length, now - t)) else None
  {
    CandidatesAreBest(policy, ix, [fp], b, now);
    assert [fp][..0] == [] && BestMatch(policy, ix, [], b, now) == None;
  }

  lemma RememberedThenLookedUp(policy: Policy, ix: Index, b: BackendId, fp: Fingerprint, t: int, now: int)
    ensures var s := Candidates(policy, RememberAll(ix, b, [fp], t), [fp], now);
            var worth := policy.warmth(fp.length, now - t);
            && Lookup(s.index, fp.hash, b) == (if policy.expired(now - t) then None else Some(t))
            && MatchOf(s.matches, b)
               == if !policy.expired(now - t) && worth > 0.0 then Some(CandidateMatch(worth, fp.length, now - t)) else None
  {
    OneRemembered(ix, b, fp, t);
    CandidatesEvictExpired(policy, RememberAll(ix, b, [fp], t), [fp], now, fp.hash, b);
    OneMatch(policy, RememberAll(ix, b, [fp], t), b, fp, now);
  }

  lemma PolicyFacts(cfg: ExpiryConfig, length: int, age: int)
    ensures PolicyOf(cfg).expired(age) <==> cfg.expiryPolicy != "none" && cfg.prefixMaxAge > 0 && age > cfg.prefixMaxAge
    ensures PolicyOf(cfg).warmth(length, age) == length as real * cfg.Decay(age)
  {
  }

  lemma SurvivesAs(policy: Policy, ix: Index, b: BackendId, fp: Fingerprint, t: int, d: int, survives: bool)
    requires policy.expired(d) == !survives
    ensures Lookup(Candidates(policy, RememberAll(ix, b, [fp], t), [fp], t + d).index, fp.hash, b)
         == if survives then Some(t) else None
  {
    RememberedThenLookedUp(policy, ix, b, fp, t, t + d);
  }

  lemma OfferedAs(policy: Policy, ix: Index, b: BackendId, fp: Fingerprint, t: int, d: int, worth: real)
    requires !policy.expired(d) && policy.warmth(fp.length, d) == worth
    ensures MatchOf(Candidates(policy, RememberAll(ix, b, [fp], t), [fp], t + d).matches, b)
         == if worth > 0.0 then Some(CandidateMatch(worth, fp.length, d)) else None
  {
    RememberedThenLookedUp(policy, ix, b, fp, t, t + d);
  }

  /** An entry remembered at `t` survives a lookup `d` later if and only if nothing expires at
      all or `d` is at most the maximal age. */
  lemma {:induction false} RememberedFor(cfg: ExpiryConfig, ix: Index, b: BackendId, fp: Fingerprint, t: int, d: int)
    ensures Lookup(Candidates(PolicyOf(cfg), RememberAll(ix, b, [fp], t), [fp], t + d).index, fp.hash, b)
         == if cfg.expiryPolicy == "none" || cfg.prefixMaxAge <= 0 || d <= cfg.prefixMaxAge then Some(t) else None
  {
    PolicyFacts(cfg, fp.length, d);
    SurvivesAs(PolicyOf(cfg), ix, b, fp, t, d, cfg.expiryPolicy == "none" || cfg.prefixMaxAge <= 0 || d <= cfg.prefixMaxAge);
  }

  /** If it survives, it is offered at that age for what is left of its length, unless nothing
      is left. */
  lemma {:induction false} OfferedFor(cfg: ExpiryConfig, ix: Index, b: BackendId, fp: Fingerprint, t: int, d: int, worth: real)
    requires cfg.expiryPolicy == "none" || cfg.prefixMaxAge <= 0 || d <= cfg.prefixMaxAge
    requires worth == fp.length as real * cfg.Decay(d)
    ensures MatchOf(Candidates(PolicyOf(cfg), RememberAll(ix, b, [fp], t), [fp], t + d).matches, b)
         == if worth > 0.0 then Some(CandidateMatch(worth, fp.length, d)) else None
  {
    PolicyFacts(cfg, fp.length, d);
    OfferedAs(PolicyOf(cfg), ix, b, fp, t, d, worth);
  }
}
