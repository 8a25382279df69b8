/**
 The prefix index: which backend served which prompt prefix, and when.  Its entries are
 overwritten, decay with age, expire, and are evicted while looking candidates up.
 */
module PrefixIndex {
  import opened Wrappers
  import opened Reals
  import opened Prefix

  const EXPIRY_POLICY_NONE := "none"
  const DECAY_POLICY_LINEAR := "linear"

  type BackendId = string

  /** `halving(age, halfLife)` stands for exp(-ln 2 * age / halfLife). */
  datatype ExpiryConfig = ExpiryConfig(
    expiryPolicy: string,
    decayPolicy: string,
    prefixMaxAge: int,
    halfLife: int,
    halving: (int, int) -> real)
  {
    /** What is used of the exponential: it starts at 1, stays positive, does not grow and
        halves with every half-life. */
    ghost predicate Valid() {
      && (forall h | h > 0 :: halving(0, h) == 1.0)
      && (forall age, h | h > 0 && age >= 0 :: halving(age, h) > 0.0)
      && (forall a, b, h | h > 0 && 0 <= a <= b :: halving(b, h) <= halving(a, h))
      && (forall a, b, h | h > 0 && 0 <= a && b == a + h :: halving(b, h) == halving(a, h) / 2.0)
    }

    predicate IsExpired(age: int) {
      expiryPolicy != EXPIRY_POLICY_NONE && prefixMaxAge > 0 && age > prefixMaxAge
    }

    function Decay(age: int): real {
      if expiryPolicy == EXPIRY_POLICY_NONE then 1.0
      else if halfLife <= 0 then 1.0
      else if decayPolicy == DECAY_POLICY_LINEAR then
        if prefixMaxAge <= 0 then 1.0
        else
          var left := 1.0 - age as real / prefixMaxAge as real;
          if left > 0.0 then left else 0.0
      else halving(age, halfLife)
    }

    function Warmth(length: int, age: int): real {
      length as real * Decay(age)
    }
  }

  lemma DecayRange(cfg: ExpiryConfig, a: int)
    requires cfg.Valid() && 0 <= a
    ensures 0.0 <= cfg.Decay(a) <= 1.0 == cfg.Decay(0)
  {
    if cfg.prefixMaxAge > 0 {
      var d := cfg.prefixMaxAge as real;
      DivideMonotonic(0.0, a as real, d);
      assert 0.0 / d == 0.0;
    }
    if cfg.halfLife > 0 {
      assert cfg.halving(a, cfg.halfLife) <= cfg.halving(0, cfg.halfLife);
    }
  }

  /** Decay starts at 1, lies in [0, 1] and never grows with age. */
  lemma DecayAntitone(cfg: ExpiryConfig, a: int, b: int)
    requires cfg.Valid() && 0 <= a <= b
    ensures 0.0 <= cfg.Decay(b) <= cfg.Decay(a) <= 1.0 == cfg.Decay(0)
  {
    DecayRange(cfg, a);
    DecayRange(cfg, b);
    if cfg.prefixMaxAge > 0 {
      DivideMonotonic(a as real, b as real, cfg.prefixMaxAge as real);
    }
  }

  lemma Quotient(a: real, b: real, d: real)
    requires d > 0.0
    ensures (1.0 - a / d) - (1.0 - b / d) == (b - a) / d
  {
  }

  lemma QuotientBelowOne(a: real, d: real)
    requires d > 0.0
    ensures a / d < 1.0 <==> a < d
  {
    assert (a / d) * d == a;
  }

  /** Under the linear policy equal times lose equal amounts, until nothing is left at
      exactly the maximal age. */
  lemma LinearDecay(cfg: ExpiryConfig, a: int, b: int)
    requires cfg.expiryPolicy != "none" && cfg.decayPolicy == "linear" && cfg.halfLife > 0 && cfg.prefixMaxAge > 0
    requires 0 <= a <= b
    ensures b <= cfg.prefixMaxAge ==> cfg.Decay(a) - cfg.Decay(b) == (b as real - a as real) / cfg.prefixMaxAge as real
    ensures cfg.Decay(0) == 1.0
    ensures cfg.Decay(a) == 0.0 <==> a >= cfg.prefixMaxAge
  {
    var d := cfg.prefixMaxAge as real;
    Quotient(a as real, b as real, d);
    QuotientBelowOne(a as real, d);
    QuotientBelowOne(b as real, d);
    QuotientBelowOne(0.0, d);
    assert 0.0 / d == 0.0;
    if b == cfg.prefixMaxAge {
      assert d / d == 1.0;
    }
    if a == cfg.prefixMaxAge {
      assert d / d == 1.0;
    }
  }

  /** Under every other decay policy, every half-life halves what is left. */
  lemma ExponentialDecay(cfg: ExpiryConfig, a: int)
    requires cfg.Valid() && cfg.expiryPolicy != "none" && cfg.decayPolicy != "linear" && cfg.halfLife > 0 && 0 <= a
    ensures cfg.Decay(a + cfg.halfLife) == cfg.Decay(a) / 2.0
    ensures cfg.Decay(0) == 1.0 && cfg.Decay(a) > 0.0
  {
  }

  /** Without expiry, without a half-life, or under the linear policy without a maximal age,
      nothing decays. */
  lemma NoDecay(cfg: ExpiryConfig, a: int)
    requires cfg.expiryPolicy == "none" || cfg.halfLife <= 0 || (cfg.decayPolicy == "linear" && cfg.prefixMaxAge <= 0)
    ensures cfg.Decay(a) == 1.0
  {
  }

  /** A match is worth its length when new, and its length times what is left later. */
  lemma WarmthScales(cfg: ExpiryConfig, length: int, a: int)
    requires cfg.Valid()
    ensures cfg.Warmth(length, 0) == length as real
    ensures cfg.Warmth(length, a) == length as real * cfg.Decay(a)
  {
    DecayRange(cfg, 0);
  }

  /** 128 tokens are worth 64 after one half-life. */
  lemma HalfLifeExample(cfg: ExpiryConfig)
    requires cfg.Valid() && cfg.expiryPolicy == "decay" && cfg.decayPolicy == "exponential"
    requires cfg.prefixMaxAge == 3600 && cfg.halfLife == 60
    ensures PolicyOf(cfg).warmth(128, 60) == 64.0
  {
    ExponentialDecay(cfg, 0);
  }

  lemma {:induction false} LaterIsWarmer(cfg: ExpiryConfig, length: int, newer: int, older: int)
    requires cfg.Valid() && 0 <= newer <= older
    ensures cfg.Warmth(length, older) > 0.0 ==> cfg.Warmth(length, older) <= cfg.Warmth(length, newer)
    ensures length <= 0 ==> cfg.Warmth(length, newer) <= 0.0
    ensures length >= 0 ==> cfg.Warmth(length, older) <= cfg.Warmth(length, newer) <= length as real
  {
    DecayAntitone(cfg, newer, older);
    var l, n, o := length as real, cfg.Decay(newer), cfg.Decay(older);
    if length >= 0 {
      Product(l, n - o);
      Product(l, 1.0 - n);
    } else {
      Product(-l, n);
      Product(-l, o);
    }
  }

  /******* Policies *******/

  /** All the index needs of its configuration: which ages are too old to count, and what
      a match of some length and age is worth. */
  datatype Policy = Policy(expired: int -> bool, warmth: (int, int) -> real) {

    /** What is too old stays too old. */
    ghost predicate ExpiryLasts() {
      forall a, b | a <= b && expired(a) :: expired(b)
    }

    ghost predicate Lawful() {
      && ExpiryLasts()
      && (forall n, a, b | 0 <= a <= b && warmth(n, b) > 0.0 :: warmth(n, b) <= warmth(n, a))
      && (forall n, a | 0 <= n && 0 <= a :: warmth(n, a) <= n as real)
    }
  }

  function PolicyOf(cfg: ExpiryConfig): Policy {
    Policy(age => cfg.IsExpired(age), (length, age) => cfg.Warmth(length, age))
  }

  /** Every configuration makes older matches worth no more, and a match worth at most its
      length. */
  lemma {:induction false} PolicyIsLawful(cfg: ExpiryConfig)
    requires cfg.Valid()
    ensures PolicyOf(cfg).Lawful()
  {
    forall n, a, b | 0 <= a <= b && cfg.Warmth(n, b) > 0.0
      ensures cfg.Warmth(n, b) <= cfg.Warmth(n, a)
    {
      LaterIsWarmer(cfg, n, a, b);
    }
    forall n, a | 0 <= n && 0 <= a ensures cfg.Warmth(n, a) <= n as real {
      LaterIsWarmer(cfg, n, a, a);
    }
  }

  /******* The index and its operations as functions *******/

  /** Last-seen times by prefix hash and backend. */
  type Index = map<Hash, map<BackendId, int>>

  function Lookup(ix: Index, h: Hash, b: BackendId): Option<int> {
    if h in ix && b in ix[h] then Some(ix[h][b]) else None
  }

  function Put(ix: Index, h: Hash, b: BackendId, now: int): Index {
    ix[h := (if h in ix then ix[h] else map[])[b := now]]
  }

  function RememberAll(ix: Index, b: BackendId, prints: seq<Fingerprint>, now: int): Index {
    if prints == [] then ix
    else
      var n := |prints| - 1;
      Put(RememberAll(ix, b, prints[..n], now), prints[n].hash, b, now)
  }

  predicate Mentions(prints: seq<Fingerprint>, h: Hash) {
    exists i | 0 <= i < |prints| :: prints[i].hash == h
  }

  lemma MentionsLast(prints: seq<Fingerprint>, h: Hash)
    requires prints != []
    ensures var n := |prints| - 1; Mentions(prints, h) <==> Mentions(prints[..n], h) || prints[n].hash == h
  {
    var n := |prints| - 1;
    if Mentions(prints[..n], h) {
      var i :| 0 <= i < n && prints[..n][i].hash == h;
      assert prints[i].hash == h;
    }
    if Mentions(prints, h) {
      var i :| 0 <= i < |prints| && prints[i].hash == h;
      assert i < n ==> prints[..n][i].hash == h;
    }
  }

  lemma {:induction false} RememberLookup(ix: Index, b: BackendId, prints: seq<Fingerprint>, now: int, h: Hash, other: BackendId)
    ensures Lookup(RememberAll(ix, b, prints, now), h, other)
         == if other == b && Mentions(prints, h) then Some(now) else Lookup(ix, h, other)
  {
    if prints == [] {
    } else {
      var n := |prints| - 1;
      RememberLookup(ix, b, prints[..n], now, h, other);
      MentionsLast(prints, h);
    }
  }

  datatype CandidateMatch = CandidateMatch(warmth: real, matchLength: int, age: int)

  type Matches = map<BackendId, CandidateMatch>

  /** A lookup in progress: the index with what has been evicted gone, the best match of
      each backend so far, and the number of evictions. */
  datatype Sweep = Sweep(index: Index, matches: Matches, evictions: nat)

  function Alive(policy: Policy, seen: map<BackendId, int>, now: int): map<BackendId, int> {
    map b | b in seen && !policy.expired(now - seen[b]) :: seen[b]
  }

  function Expired(policy: Policy, seen: map<BackendId, int>, now: int): set<BackendId> {
    set b | b in seen && policy.expired(now - seen[b])
  }

  function BestWarmth(matches: Matches, b: BackendId): real {
    if b in matches then matches[b].warmth else 0.0
  }

  /** The best match of one backend once an entry for `length` tokens is considered. */
  function BestFor(policy: Policy, matches: Matches, length: int, alive: map<BackendId, int>, now: int, b: BackendId): Option<CandidateMatch> {
    if b in alive && policy.warmth(length, now - alive[b]) > BestWarmth(matches, b) then
      Some(CandidateMatch(policy.warmth(length, now - alive[b]), length, now - alive[b]))
    else if b in matches then Some(matches[b])
    else None
  }

  function Merge(policy: Policy, matches: Matches, length: int, alive: map<BackendId, int>, now: int): Matches {
    map b | b in matches.Keys + alive.Keys && BestFor(policy, matches, length, alive, now, b).Some? ::
      BestFor(policy, matches, length, alive, now, b).value
  }

  function Visit(policy: Policy, s: Sweep, fp: Fingerprint, now: int): Sweep {
    if fp.hash !in s.index then s
    else
      var seen := s.index[fp.hash];
      var alive := Alive(policy, seen, now);
      Sweep(s.index[fp.hash := alive],
            Merge(policy, s.matches, fp.length, alive, now),
            s.evictions + |Expired(policy, seen, now)|)
  }

  function Candidates(policy: Policy, ix: Index, prints: seq<Fingerprint>, now: int): Sweep {
    if prints == [] then Sweep(ix, map[], 0)
    else
      var n := |prints| - 1;
      Visit(policy, Candidates(policy, ix, prints[..n], now), prints[n], now)
  }

  /** A sweep over the backends of one hash with `todo` still to visit. */
  function Kept(policy: Policy, seen: map<BackendId, int>, todo: set<BackendId>, now: int): map<BackendId, int> {
    map b | b in seen && b !in todo && !policy.expired(now - seen[b]) :: seen[b]
  }

  function Gone(policy: Policy, seen: map<BackendId, int>, todo: set<BackendId>, now: int): set<BackendId> {
    set b | b in seen && b !in todo && policy.expired(now - seen[b])
  }

  lemma MergeOneMore(policy: Policy, matches: Matches, length: int, kept: map<BackendId, int>, now: int, b: BackendId, t: int)
    requires b !in kept
    ensures Merge(policy, matches, length, kept[b := t], now)
         == (var before, warmth := Merge(policy, matches, length, kept, now), policy.warmth(length, now - t);
             if warmth > BestWarmth(before, b)
             then before[b := CandidateMatch(warmth, length, now - t)] else before)
  {
    var before, after := Merge(policy, matches, length, kept, now), Merge(policy, matches, length, kept[b := t], now);
    forall c | c != b ensures (c in after <==> c in before) && (c in before ==> after[c] == before[c]) {
      assert BestFor(policy, matches, length, kept[b := t], now, c) == BestFor(policy, matches, length, kept, now, c);
    }
    assert b in before <==> b in matches;
  }

  lemma VisitExpired(policy: Policy, seen: map<BackendId, int>, todo: set<BackendId>, now: int, b: BackendId)
    requires b in todo && todo <= seen.Keys && policy.expired(now - seen[b])
    ensures Kept(policy, seen, todo - {b}, now) == Kept(policy, seen, todo, now)
    ensures |Gone(policy, seen, todo - {b}, now)| == |Gone(policy, seen, todo, now)| + 1
    ensures seen - Gone(policy, seen, todo - {b}, now) == seen - Gone(policy, seen, todo, now) - {b}
  {
    assert Gone(policy, seen, todo - {b}, now) == Gone(policy, seen, todo, now) + {b};
  }

  lemma VisitKept(policy: Policy, seen: map<BackendId, int>, todo: set<BackendId>, now: int, b: BackendId)
    requires b in todo && todo <= seen.Keys && !policy.expired(now - seen[b])
    ensures Kept(policy, seen, todo - {b}, now) == Kept(policy, seen, todo, now)[b := seen[b]]
    ensures Gone(policy, seen, todo - {b}, now) == Gone(policy, seen, todo, now)
  {
  }

  /** What is done for one backend of one hash. */
  function VisitOne(policy: Policy, s: Sweep, fp: Fingerprint, now: int, b: BackendId): Sweep
    requires fp.hash in s.index && b in s.index[fp.hash]
  {
    var age := now - s.index[fp.hash][b];
    var warmth := policy.warmth(fp.length, age);
    if policy.expired(age) then
      s.(index := s.index[fp.hash := s.index[fp.hash] - {b}], evictions := s.evictions + 1)
    else if warmth > BestWarmth(s.matches, b) then
      s.(matches := s.matches[b := CandidateMatch(warmth, fp.length, age)])
    else s
  }

  /** The sweep of one hash while the backends in `todo` are still to visit. */
  function Partway(policy: Policy, s: Sweep, fp: Fingerprint, todo: set<BackendId>, now: int): Sweep
    requires fp.hash in s.index
  {
    var seen := s.index[fp.hash];
    Sweep(s.index[fp.hash := seen - Gone(policy, seen, todo, now)],
          Merge(policy, s.matches, fp.length, Kept(policy, seen, todo, now), now),
          s.evictions + |Gone(policy, seen, todo, now)|)
  }

  lemma PartwayStep(policy: Policy, s: Sweep, fp: Fingerprint, todo: set<BackendId>, now: int, b: BackendId)
    requires fp.hash in s.index && b in todo && todo <= s.index[fp.hash].Keys
    ensures b in Partway(policy, s, fp, todo, now).index[fp.hash]
    ensures Partway(policy, s, fp, todo - {b}, now)
         == VisitOne(policy, Partway(policy, s, fp, todo, now), fp, now, b)
  {
    var seen := s.index[fp.hash];
    if policy.expired(now - seen[b]) {
      VisitExpired(policy, seen, todo, now, b);
    } else {
      VisitKept(policy, seen, todo, now, b);
      MergeOneMore(policy, s.matches, fp.length, Kept(policy, seen, todo, now), now, b, seen[b]);
    }
  }

  lemma PartwayEnds(policy: Policy, s: Sweep, fp: Fingerprint, now: int)
    requires fp.hash in s.index
    ensures Partway(policy, s, fp, s.index[fp.hash].Keys, now) == s
    ensures Partway(policy, s, fp, {}, now) == Visit(policy, s, fp, now)
  {
    var seen := s.index[fp.hash];
    assert Gone(policy, seen, seen.Keys, now) == {} && Kept(policy, seen, seen.Keys, now) == map[];
    assert seen - {} == seen && Merge(policy, s.matches, fp.length, map[], now) == s.matches;
    assert Gone(policy, seen, {}, now) == Expired(policy, seen, now);
    assert Kept(policy, seen, {}, now) == Alive(policy, seen, now) == seen - Expired(policy, seen, now);
  }

  /** The same, as a family of stages from `s` to the end of the visit. */
  lemma SweepStages(policy: Policy, s: Sweep, fp: Fingerprint, now: int) returns (stage: set<BackendId> -> Sweep)
    requires fp.hash in s.index
    ensures stage(s.index[fp.hash].Keys) == s && stage({}) == Visit(policy, s, fp, now)
    ensures forall todo, b {:trigger stage(todo - {b})} | b in todo && todo <= s.index[fp.hash].Keys ::
              && fp.hash in stage(todo).index && b in stage(todo).index[fp.hash]
              && stage(todo - {b}) == VisitOne(policy, stage(todo), fp, now, b)
  {
    stage := (todo: set<BackendId>) => Partway(policy, s, fp, todo, now);
    PartwayEnds(policy, s, fp, now);
    forall todo, b | b in todo && todo <= s.index[fp.hash].Keys
      ensures && fp.hash in stage(todo).index && b in stage(todo).index[fp.hash]
              && stage(todo - {b}) == VisitOne(policy, stage(todo), fp, now, b)
    {
      PartwayStep(policy, s, fp, todo, now, b);
    }
  }

  /******* The class *******/

  class Matcher {
    /** `isExpired` and `decay`, which depend on the configuration alone. */
    const policy: Policy
    var prefixToBackends: Index

    constructor (cfg: ExpiryConfig)
      ensures policy == PolicyOf(cfg) && prefixToBackends == map[]
    {
      policy := PolicyOf(cfg);
      prefixToBackends := map[];
    }

    method Remember(backendId: BackendId, prints: seq<Fingerprint>, now: int)
      modifies this
      ensures prefixToBackends == RememberAll(old(prefixToBackends), backendId, prints, now)
    {
      for i := 0 to |prints|
        invariant prefixToBackends == RememberAll(old(prefixToBackends), backendId, prints[..i], now)
      {
        assert prints[..i + 1][..i] == prints[..i];
        var hash := prints[i].hash;
        if hash !in prefixToBackends {
          prefixToBackends := prefixToBackends[hash := map[]];
        }
        prefixToBackends := prefixToBackends[hash := prefixToBackends[hash][backendId := now]];
      }
      assert prints[..|prints|] == prints;
    }

    /** The backends of one hash are visited in an arbitrary order. */
    method CandidateMatches(prints: seq<Fingerprint>, now: int) returns (matches: Matches, evictions: nat)
      modifies this
      ensures Sweep(prefixToBackends, matches, evictions)
           == Candidates(policy, old(prefixToBackends), prints, now)
    {
      matches, evictions := map[], 0;
      for i := 0 to |prints|
        invariant Sweep(prefixToBackends, matches, evictions)
               == Candidates(policy, old(prefixToBackends), prints[..i], now)
      {
        assert prints[..i + 1][..i] == prints[..i];
        if prints[i].hash in prefixToBackends {
          matches, evictions := VisitBackends(prints[i], now, matches, evictions);
        }
      }
      assert prints[..|prints|] == prints;
    }

    method VisitBackends(fp: Fingerprint, now: int, matches: Matches, evictions: nat)
      returns (matches': Matches, evictions': nat)
      requires fp.hash in prefixToBackends
      modifies this
      ensures Sweep(prefixToBackends, matches', evictions')
           == Visit(policy, Sweep(old(prefixToBackends), matches, evictions), fp, now)
    {
      matches', evictions' := matches, evictions;
      var hash := fp.hash;
      ghost var stage := SweepStages(policy, Sweep(prefixToBackends, matches, evictions), fp, now);
      ghost var all := prefixToBackends[hash].Keys;
      var todo := prefixToBackends[hash].Keys;
      while todo != {}
        invariant todo <= all
        invariant Sweep(prefixToBackends, matches', evictions') == stage(todo)
      {
        var b :| b in todo;
        ghost var next := stage(todo - {b});
        assert next == VisitOne(policy, stage(todo), fp, now, b);
        todo := todo - {b};
        var age := now - prefixToBackends[hash][b];
        if policy.expired(age) {
          prefixToBackends := prefixToBackends[hash := prefixToBackends[hash] - {b}];
          evictions' := evictions' + 1;
          continue;
        }
        var warmth := policy.warmth(fp.length, age);
        if warmth > BestWarmth(matches', b) {
          matches' := matches'[b := CandidateMatch(warmth, fp.length, age)];
        }
      }
    }
  }
}
