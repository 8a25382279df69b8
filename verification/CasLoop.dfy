/**
 The retry loop of `Value.Observe`, at the grain of its two atomic operations.

 Each of `K` concurrent calls repeats "load the word, compute the next word from
 it, compare-and-swap" until its swap succeeds.  The word type `B` and the function
 `next` are arbitrary, so nothing below depends on how floating-point rounds, and two
 different histories may well lead to the same word (the ABA situation).
 */
module CasLoop {
  import opened Wrappers

  /** Where one call stands.  `at` is bookkeeping: how many swaps had succeeded when
      the word was loaded.  `rank` is the position of the call's own swap. */
  datatype Call<B> = Ready | Loaded(seen: B, at: nat) | Done(rank: nat)

  /** `order` lists the calls in the order their swaps succeeded.  `charges[i]` has one
      number for each failed swap of call `i`: the position in `order` of the first swap
      that succeeded after the load this failed swap relied on. */
  datatype State<B> = State(word: B, calls: seq<Call<B>>, order: seq<nat>, charges: seq<seq<nat>>)

  datatype Action = Load(call: nat) | Swap(call: nat)

  function Init<B>(word: B, k: nat): State<B> {
    State(word, seq(k, _ => Ready), [], seq(k, _ => []))
  }

  predicate Enabled<B>(s: State<B>, a: Action) {
    && a.call < |s.calls|
    && match a
       case Load(i) => s.calls[i].Ready?
       case Swap(i) => s.calls[i].Loaded?
  }

  function Step<B(==), V>(next: (B, V) -> B, xs: seq<V>, s: State<B>, a: Action): State<B>
    requires Enabled(s, a) && |s.calls| == |xs| == |s.charges|
  {
    match a
    case Load(i) =>
      s.(calls := s.calls[i := Loaded(s.word, |s.order|)])
    case Swap(i) =>
      if s.word == s.calls[i].seen then
        s.(word := next(s.calls[i].seen, xs[i]),
           calls := s.calls[i := Done(|s.order|)],
           order := s.order + [i])
      else
        s.(calls := s.calls[i := Ready],
           charges := s.charges[i := s.charges[i] + [s.calls[i].at]])
  }

  /** The state after a schedule, or None if the schedule takes an impossible step. */
  function Exec<B(==), V>(next: (B, V) -> B, xs: seq<V>, word: B, schedule: seq<Action>): (r: Option<State<B>>)
    ensures r.Some? ==> |r.value.calls| == |xs| == |r.value.charges|
  {
    if schedule == [] then
      Some(Init(word, |xs|))
    else
      var n := |schedule| - 1;
      match Exec(next, xs, word, schedule[..n])
      case None => None
      case Some(s) => if Enabled(s, schedule[n]) then Some(Step(next, xs, s, schedule[n])) else None
  }

  /** What one caller at a time would compute: `next` folded over the values of the
      calls in `order`. */
  function Sequential<B, V>(next: (B, V) -> B, xs: seq<V>, word: B, order: seq<nat>): B
    requires forall k | 0 <= k < |order| :: order[k] < |xs|
  {
    if order == [] then word
    else
      var n := |order| - 1;
      next(Sequential(next, xs, word, order[..n]), xs[order[n]])
  }

  /******* The invariant *******/

  /** How many successful swaps a call can have lost to so far. */
  function Limit<B>(c: Call<B>, successes: nat): nat {
    match c
    case Ready => successes
    case Loaded(_, at) => at
    case Done(rank) => rank
  }

  ghost predicate Increasing(s: seq<nat>, limit: nat) {
    && (forall k | 0 <= k < |s| :: s[k] < limit)
    && (forall j, k | 0 <= j < k < |s| :: s[j] < s[k])
  }

  ghost predicate Ranked<B>(s: State<B>) {
    && (forall k | 0 <= k < |s.order| :: s.order[k] < |s.calls| && s.calls[s.order[k]] == Done(k))
    && (forall i | 0 <= i < |s.calls| && s.calls[i].Done? ::
          s.calls[i].rank < |s.order| && s.order[s.calls[i].rank] == i)
  }

  ghost predicate Inv<B(!new), V>(next: (B, V) -> B, xs: seq<V>, word: B, s: State<B>) {
    && |s.calls| == |xs| == |s.charges|
    && Ranked(s)
    && s.word == Sequential(next, xs, word, s.order)
    && (forall i | 0 <= i < |s.calls| && s.calls[i].Loaded? ::
          s.calls[i].at <= |s.order| && (s.calls[i].at == |s.order| ==> s.calls[i].seen == s.word))
    && (forall i | 0 <= i < |s.calls| :: Increasing(s.charges[i], Limit(s.calls[i], |s.order|)))
  }

  lemma LoadKeepsInv<B(!new), V>(next: (B, V) -> B, xs: seq<V>, word: B, s: State<B>, i: nat)
    requires Inv(next, xs, word, s) && Enabled(s, Load(i))
    ensures Inv(next, xs, word, Step(next, xs, s, Load(i)))
  {
  }

  lemma FailedSwapKeepsInv<B(!new), V>(next: (B, V) -> B, xs: seq<V>, word: B, s: State<B>, i: nat)
    requires Inv(next, xs, word, s) && Enabled(s, Swap(i)) && s.word != s.calls[i].seen
    ensures Inv(next, xs, word, Step(next, xs, s, Swap(i)))
  {
    var t, at := Step(next, xs, s, Swap(i)), s.calls[i].at;
    assert Increasing(s.charges[i], at) && at < |s.order|;
    assert Increasing(t.charges[i], |s.order|);
  }

  lemma SwapKeepsRanks<B>(s: State<B>, i: nat, t: State<B>)
    requires Ranked(s) && i < |s.calls| && s.calls[i].Loaded?
    requires t.calls == s.calls[i := Done(|s.order|)] && t.order == s.order + [i]
    ensures Ranked(t)
  {
  }

  lemma SwapKeepsCharges<B>(charges: seq<seq<nat>>, before: seq<Call<B>>, i: nat, successes: nat)
    requires |charges| == |before| && i < |before| && before[i].Loaded? && before[i].at <= successes
    requires forall j | 0 <= j < |before| :: Increasing(charges[j], Limit(before[j], successes))
    ensures var after := before[i := Done(successes)];
            forall j | 0 <= j < |before| :: Increasing(charges[j], Limit(after[j], successes + 1))
  {
    var after := before[i := Done(successes)];
    forall j | 0 <= j < |before| ensures Increasing(charges[j], Limit(after[j], successes + 1)) {
      assert Limit(before[j], successes) <= Limit(after[j], successes + 1);
    }
  }

  lemma SwapKeepsInv<B(!new), V>(next: (B, V) -> B, xs: seq<V>, word: B, s: State<B>, i: nat)
    requires Inv(next, xs, word, s) && Enabled(s, Swap(i)) && s.word == s.calls[i].seen
    ensures Inv(next, xs, word, Step(next, xs, s, Swap(i)))
  {
    var t := Step(next, xs, s, Swap(i));
    assert t.order[..|s.order|] == s.order;
    SwapKeepsRanks(s, i, t);
    SwapKeepsCharges(s.charges, s.calls, i, |s.order|);
  }

  lemma StepKeepsInv<B(!new), V>(next: (B, V) -> B, xs: seq<V>, word: B, s: State<B>, a: Action)
    requires Inv(next, xs, word, s) && Enabled(s, a)
    ensures Inv(next, xs, word, Step(next, xs, s, a))
  {
    match a
    case Load(i) => LoadKeepsInv(next, xs, word, s, i);
    case Swap(i) =>
      if s.word == s.calls[i].seen {
        SwapKeepsInv(next, xs, word, s, i);
      } else {
        FailedSwapKeepsInv(next, xs, word, s, i);
      }
  }

  lemma {:induction false} ExecKeepsInv<B(!new), V>(next: (B, V) -> B, xs: seq<V>, word: B, schedule: seq<Action>)
    requires Exec(next, xs, word, schedule).Some?
    ensures Inv(next, xs, word, Exec(next, xs, word, schedule).value)
  {
    if schedule == [] {
    } else {
      var n := |schedule| - 1;
      ExecKeepsInv(next, xs, word, schedule[..n]);
      StepKeepsInv(next, xs, word, Exec(next, xs, word, schedule[..n]).value, schedule[n]);
    }
  }

  /******* Linearizability *******/

  /** Whatever the interleaving, the stored word is the fold of `next` over the calls in
      the order their swaps succeeded; that order names each finished call exactly once
      and no other call. */
  lemma {:induction false} Linearizable<B(!new), V>(next: (B, V) -> B, xs: seq<V>, word: B, schedule: seq<Action>)
    requires Exec(next, xs, word, schedule).Some?
    ensures var s := Exec(next, xs, word, schedule).value;
            && (forall i | 0 <= i < |xs| :: s.calls[i].Done? <==> i in s.order)
            && (forall j, k | 0 <= j < k < |s.order| :: s.order[j] != s.order[k])
            && (forall k | 0 <= k < |s.order| :: s.order[k] < |xs|)
            && s.word == Sequential(next, xs, word, s.order)
  {
    ExecKeepsInv(next, xs, word, schedule);
  }

  /** The order only grows, so a call that finished before another one loaded anything
      comes before it: the linearization respects real time. */
  lemma {:induction false} OrderOnlyGrows<B(!new), V>(next: (B, V) -> B, xs: seq<V>, word: B, schedule: seq<Action>, m: nat)
    requires m <= |schedule| && Exec(next, xs, word, schedule).Some?
    ensures Exec(next, xs, word, schedule[..m]).Some?
    ensures Exec(next, xs, word, schedule[..m]).value.order <= Exec(next, xs, word, schedule).value.order
  {
    if m == |schedule| {
      assert schedule[..m] == schedule;
    } else {
      var n := |schedule| - 1;
      OrderOnlyGrows(next, xs, word, schedule[..n], m);
      assert schedule[..n][..m] == schedule[..m];
    }
  }

  /******* Progress *******/

  /** A swap fails only because another call's swap succeeded between this call's load
      and this swap; `charges` names that other swap, and never the same one twice for
      one call. */
  lemma {:induction false} FailureHasCulprit<B(!new), V>(next: (B, V) -> B, xs: seq<V>, word: B, schedule: seq<Action>, i: nat)
    requires Exec(next, xs, word, schedule).Some? && i < |xs|
    ensures var s := Exec(next, xs, word, schedule).value;
            && (s.calls[i].Loaded? && s.calls[i].seen != s.word ==>
                  s.calls[i].at < |s.order| && s.order[s.calls[i].at] != i && s.calls[i].at !in s.charges[i])
            && (forall k | 0 <= k < |s.charges[i]| :: s.charges[i][k] < |s.order| && s.order[s.charges[i][k]] != i)
            && (forall j, k | 0 <= j < k < |s.charges[i]| :: s.charges[i][j] < s.charges[i][k])
  {
    ExecKeepsInv(next, xs, word, schedule);
  }

  function Failures(charges: seq<seq<nat>>, n: nat): nat
    requires n <= |charges|
  {
    if n == 0 then 0 else Failures(charges, n - 1) + |charges[n - 1]|
  }

  function Unfinished<B>(calls: seq<Call<B>>, n: nat): nat
    requires n <= |calls|
  {
    if n == 0 then 0 else Unfinished(calls, n - 1) + if calls[n - 1].Done? then 0 else 1
  }

  function Holding<B>(calls: seq<Call<B>>, n: nat): nat
    requires n <= |calls|
  {
    if n == 0 then 0 else Holding(calls, n - 1) + if calls[n - 1].Loaded? then 1 else 0
  }

  /** The most failures the calls can have had: the rank of each finished call, and the
      number of successes so far for each unfinished one. */
  function Allowance<B>(calls: seq<Call<B>>, successes: nat, n: nat): nat
    requires n <= |calls|
  {
    if n == 0 then 0
    else Allowance(calls, successes, n - 1) + if calls[n - 1].Done? then calls[n - 1].rank else successes
  }

  ghost predicate Counted<B>(s: State<B>, steps: nat)
    requires |s.calls| == |s.charges|
  {
    var k, c := |s.calls|, |s.order|;
    && c <= k
    && Unfinished(s.calls, k) == k - c
    && 2 * Allowance(s.calls, c, k) == Quota(k, c)
    && steps == 2 * (c + Failures(s.charges, k)) + Holding(s.calls, k)
  }

  lemma {:induction false} ChangeOneCall<B>(calls: seq<Call<B>>, i: nat, c: Call<B>, successes: nat, n: nat)
    requires i < |calls| && n <= |calls| && !calls[i].Done?
    ensures var after := calls[i := c];
            && (!c.Done? ==> Unfinished(after, n) == Unfinished(calls, n)
                             && Allowance(after, successes, n) == Allowance(calls, successes, n))
            && (c == Done(successes) ==>
                  && Unfinished(after, n) == Unfinished(calls, n) - (if i < n then 1 else 0)
                  && Allowance(after, successes + 1, n) == Allowance(calls, successes, n) + Unfinished(after, n))
            && Holding(after, n) == Holding(calls, n)
                 + (if i < n && c.Loaded? then 1 else 0) - (if i < n && calls[i].Loaded? then 1 else 0)
  {
    if n == 0 {
    } else {
      ChangeOneCall(calls, i, c, successes, n - 1);
    }
  }

  lemma {:induction false} OneMoreFailure(charges: seq<seq<nat>>, i: nat, at: nat, n: nat)
    requires i < |charges| && n <= |charges|
    ensures Failures(charges[i := charges[i] + [at]], n) == Failures(charges, n) + if i < n then 1 else 0
  {
    if n == 0 {
    } else {
      OneMoreFailure(charges, i, at, n - 1);
    }
  }

  lemma {:induction false} InitCounts<B>(word: B, k: nat, n: nat)
    requires n <= k
    ensures var s := Init(word, k);
            Failures(s.charges, n) == 0 && Holding(s.calls, n) == 0
            && Unfinished(s.calls, n) == n && Allowance(s.calls, 0, n) == 0
  {
    if n == 0 {
    } else {
      InitCounts(word, k, n - 1);
    }
  }

  lemma {:induction false} UnfinishedPositive<B>(calls: seq<Call<B>>, i: nat, n: nat)
    requires i < n <= |calls| && !calls[i].Done?
    ensures Unfinished(calls, n) > 0
  {
    if i < n - 1 {
      UnfinishedPositive(calls, i, n - 1);
    }
  }

  /** The allowance once `c` of `k` calls have finished, doubled. */
  function Quota(k: int, c: int): int {
    c * (c - 1) + 2 * (k - c) * c
  }

  lemma QuotaStep(k: int, c: int)
    ensures Quota(k, c + 1) == Quota(k, c) + 2 * (k - c - 1)
  {
  }

  lemma QuotaBounds(k: int, c: int)
    requires c <= k
    ensures Quota(k, c) <= k * (k - 1)
    ensures 2 * c + Quota(k, c) + (k - c) <= k * (k + 1)
  {
    var d := k - c;
    assert k * (k - 1) - Quota(k, c) == d * d - d;
    assert k * (k + 1) - (2 * c + Quota(k, c) + d) == d * d;
    assert d * d >= d;
  }

  lemma StepCounts<B, V>(next: (B, V) -> B, xs: seq<V>, s: State<B>, a: Action, steps: nat)
    requires Enabled(s, a) && |s.calls| == |xs| == |s.charges| && Counted(s, steps)
    ensures Counted(Step(next, xs, s, a), steps + 1)
  {
    var t := Step(next, xs, s, a);
    ChangeOneCall(s.calls, a.call, t.calls[a.call], |s.order|, |xs|);
    UnfinishedPositive(s.calls, a.call, |xs|);
    QuotaStep(|xs|, |s.order|);
    if a.Swap? && s.word != s.calls[a.call].seen {
      OneMoreFailure(s.charges, a.call, s.calls[a.call].at, |xs|);
    }
  }

  lemma {:induction false} ExecCounts<B, V>(next: (B, V) -> B, xs: seq<V>, word: B, schedule: seq<Action>)
    requires Exec(next, xs, word, schedule).Some?
    ensures Counted(Exec(next, xs, word, schedule).value, |schedule|)
  {
    if schedule == [] {
      InitCounts(word, |xs|, |xs|);
    } else {
      var n := |schedule| - 1;
      ExecCounts(next, xs, word, schedule[..n]);
      StepCounts(next, xs, Exec(next, xs, word, schedule[..n]).value, schedule[n], n);
    }
  }

  lemma {:induction false} IncreasingIsShort(s: seq<nat>, limit: nat)
    requires Increasing(s, limit)
    ensures |s| <= limit
  {
    if s == [] {
    } else {
      var n := |s| - 1;
      IncreasingIsShort(s[..n], s[n]);
    }
  }

  lemma {:induction false} FailuresWithinAllowance<B(!new), V>(next: (B, V) -> B, xs: seq<V>, word: B, s: State<B>, n: nat)
    requires Inv(next, xs, word, s) && n <= |xs|
    ensures Failures(s.charges, n) <= Allowance(s.calls, |s.order|, n)
    ensures Holding(s.calls, n) <= Unfinished(s.calls, n)
  {
    if n == 0 {
    } else {
      FailuresWithinAllowance(next, xs, word, s, n - 1);
      IncreasingIsShort(s.charges[n - 1], Limit(s.calls[n - 1], |s.order|));
    }
  }

  /** `K` concurrent calls suffer at most K(K-1)/2 failed swaps between them, and no
      schedule of theirs is longer than K(K+1) steps. */
  lemma {:induction false} ProgressBound<B(!new), V>(next: (B, V) -> B, xs: seq<V>, word: B, schedule: seq<Action>)
    requires Exec(next, xs, word, schedule).Some?
    ensures var s, k := Exec(next, xs, word, schedule).value, |xs|;
            2 * Failures(s.charges, k) <= k * (k - 1) && |schedule| <= k * (k + 1)
  {
    ExecKeepsInv(next, xs, word, schedule);
    ExecCounts(next, xs, word, schedule);
    var s, k := Exec(next, xs, word, schedule).value, |xs|;
    FailuresWithinAllowance(next, xs, word, s, k);
    QuotaBounds(k, |s.order|);
  }

  /******* The worst case *******/

  function Loads(r: nat, m: nat): seq<Action> {
    if m <= r then [] else Loads(r, m - 1) + [Load(m - 1)]
  }

  function Swaps(r: nat, m: nat): seq<Action> {
    if m <= r then [] else Swaps(r, m - 1) + [Swap(m - 1)]
  }

  /** The calls still unfinished all load; then they all swap, the lowest numbered first. */
  function Round(r: nat, k: nat): seq<Action> {
    Loads(r, k) + [Swap(r)] + Swaps(r + 1, k)
  }

  /** `r` such rounds of `k` calls, one call finishing in each. */
  function Contention(k: nat, r: nat): seq<Action> {
    if r == 0 then [] else Contention(k, r - 1) + Round(r - 1, k)
  }

  lemma {:induction false} LoadsLength(r: nat, m: nat)
    requires r <= m
    ensures |Loads(r, m)| == |Swaps(r, m)| == m - r
  {
    if r < m {
      LoadsLength(r, m - 1);
    }
  }

  lemma RoundLength(k: int, r: int)
    ensures r * (2 * k - r + 1) == (r - 1) * (2 * k - (r - 1) + 1) + 2 * (k - (r - 1))
  {
  }

  lemma {:induction false} ContentionLength(k: nat, r: nat)
    requires r <= k
    ensures |Contention(k, r)| == r * (2 * k - r + 1)
  {
    if r == 0 {
    } else {
      ContentionLength(k, r - 1);
      LoadsLength(r - 1, k);
      LoadsLength(r, k);
      RoundLength(k, r);
    }
  }

  /** The calls below `r` have finished, those from `r` to `m` have loaded the present word
      and the others have yet to load. */
  ghost predicate Loading<B>(s: State<B>, r: nat, m: nat) {
    forall i | 0 <= i < |s.calls| ::
      if i < r then s.calls[i].Done?
      else if i < m then s.calls[i].Loaded? && s.calls[i].seen == s.word
      else s.calls[i].Ready?
  }

  /** The calls below `r` have finished, those from `r` to `m` start again and the others
      hold a word that is no longer there. */
  ghost predicate Losing<B>(s: State<B>, r: nat, m: nat) {
    forall i | 0 <= i < |s.calls| ::
      if i < r then s.calls[i].Done?
      else if i < m then s.calls[i].Ready?
      else s.calls[i].Loaded? && s.calls[i].seen != s.word
  }

  lemma ExecOneMore<B, V>(next: (B, V) -> B, xs: seq<V>, word: B, schedule: seq<Action>, a: Action)
    requires Exec(next, xs, word, schedule).Some? && Enabled(Exec(next, xs, word, schedule).value, a)
    ensures Exec(next, xs, word, schedule + [a]) == Some(Step(next, xs, Exec(next, xs, word, schedule).value, a))
  {
    assert (schedule + [a])[..|schedule|] == schedule;
  }

  lemma LoadNext<B, V>(next: (B, V) -> B, xs: seq<V>, word: B, schedule: seq<Action>, r: nat, m: nat)
    requires r <= m < |xs| && Exec(next, xs, word, schedule).Some? && Loading(Exec(next, xs, word, schedule).value, r, m)
    ensures var s := Exec(next, xs, word, schedule + [Load(m)]);
            s.Some? && Loading(s.value, r, m + 1) && s.value.word == Exec(next, xs, word, schedule).value.word
  {
    ExecOneMore(next, xs, word, schedule, Load(m));
  }

  lemma LoadsOneMore<B, V>(next: (B, V) -> B, xs: seq<V>, word: B, schedule: seq<Action>, r: nat, m: nat)
    requires r <= m < |xs| && Exec(next, xs, word, schedule + Loads(r, m)).Some?
    requires Loading(Exec(next, xs, word, schedule + Loads(r, m)).value, r, m)
    ensures var s, t := Exec(next, xs, word, schedule + Loads(r, m)), Exec(next, xs, word, schedule + Loads(r, m + 1));
            t.Some? && Loading(t.value, r, m + 1) && t.value.word == s.value.word
  {
    LoadNext(next, xs, word, schedule + Loads(r, m), r, m);
    Regroup(schedule, Loads(r, m), [Load(m)]);
  }

  lemma {:induction false} AllLoad<B, V>(next: (B, V) -> B, xs: seq<V>, word: B, schedule: seq<Action>, r: nat, m: nat)
    requires r <= m <= |xs| && Exec(next, xs, word, schedule).Some? && Loading(Exec(next, xs, word, schedule).value, r, r)
    ensures var s := Exec(next, xs, word, schedule + Loads(r, m));
            s.Some? && Loading(s.value, r, m) && s.value.word == Exec(next, xs, word, schedule).value.word
  {
    if r == m {
      assert schedule + Loads(r, m) == schedule;
    } else {
      AllLoad(next, xs, word, schedule, r, m - 1);
      LoadsOneMore(next, xs, word, schedule, r, m - 1);
    }
  }

  lemma SwapNext<B, V>(next: (B, V) -> B, xs: seq<V>, word: B, schedule: seq<Action>, r: nat, m: nat)
    requires r <= m < |xs| && Exec(next, xs, word, schedule).Some? && Losing(Exec(next, xs, word, schedule).value, r, m)
    ensures var s := Exec(next, xs, word, schedule + [Swap(m)]);
            s.Some? && Losing(s.value, r, m + 1) && s.value.word == Exec(next, xs, word, schedule).value.word
  {
    ExecOneMore(next, xs, word, schedule, Swap(m));
  }

  lemma SwapsOneMore<B, V>(next: (B, V) -> B, xs: seq<V>, word: B, schedule: seq<Action>, r: nat, m: nat)
    requires r <= m < |xs| && Exec(next, xs, word, schedule + Swaps(r, m)).Some?
    requires Losing(Exec(next, xs, word, schedule + Swaps(r, m)).value, r, m)
    ensures var s, t := Exec(next, xs, word, schedule + Swaps(r, m)), Exec(next, xs, word, schedule + Swaps(r, m + 1));
            t.Some? && Losing(t.value, r, m + 1) && t.value.word == s.value.word
  {
    SwapNext(next, xs, word, schedule + Swaps(r, m), r, m);
    Regroup(schedule, Swaps(r, m), [Swap(m)]);
  }

  lemma {:induction false} AllLose<B, V>(next: (B, V) -> B, xs: seq<V>, word: B, schedule: seq<Action>, r: nat, m: nat)
    requires r <= m <= |xs| && Exec(next, xs, word, schedule).Some? && Losing(Exec(next, xs, word, schedule).value, r, r)
    ensures var s := Exec(next, xs, word, schedule + Swaps(r, m));
            s.Some? && Losing(s.value, r, m) && s.value.word == Exec(next, xs, word, schedule).value.word
  {
    if r == m {
      assert schedule + Swaps(r, m) == schedule;
    } else {
      AllLose(next, xs, word, schedule, r, m - 1);
      SwapsOneMore(next, xs, word, schedule, r, m - 1);
    }
  }

  /** The word after the first `r` calls, one at a time. */
  function Folded<B, V>(next: (B, V) -> B, xs: seq<V>, word: B, r: nat): B
    requires r <= |xs|
  {
    if r == 0 then word else next(Folded(next, xs, word, r - 1), xs[r - 1])
  }

  /** None of them leaves the word as it was. */
  ghost predicate Moves<B, V>(next: (B, V) -> B, xs: seq<V>, word: B) {
    forall r: nat | r < |xs| :: Folded(next, xs, word, r + 1) != Folded(next, xs, word, r)
  }

  lemma OneWins<B, V>(next: (B, V) -> B, xs: seq<V>, s: State<B>, r: nat)
    requires r < |xs| == |s.calls| == |s.charges| && Loading(s, r, |xs|) && next(s.word, xs[r]) != s.word
    ensures Enabled(s, Swap(r)) && Losing(Step(next, xs, s, Swap(r)), r + 1, r + 1)
  {
  }

  lemma FirstSwap<B, V>(next: (B, V) -> B, xs: seq<V>, word: B, loaded: seq<Action>, r: nat)
    requires r < |xs| && Exec(next, xs, word, loaded).Some?
    requires var s := Exec(next, xs, word, loaded).value; Loading(s, r, |xs|) && next(s.word, xs[r]) != s.word
    ensures var s, t := Exec(next, xs, word, loaded).value, Exec(next, xs, word, loaded + [Swap(r)]);
            t.Some? && Losing(t.value, r + 1, r + 1) && t.value.word == next(s.word, xs[r])
  {
    OneWins(next, xs, Exec(next, xs, word, loaded).value, r);
    ExecOneMore(next, xs, word, loaded, Swap(r));
  }

  lemma {:induction false} LostAll<B>(s: State<B>, r: nat)
    requires Losing(s, r, |s.calls|)
    ensures Loading(s, r, r)
  {
  }

  lemma {:induction false} RoundFinishesOne<B, V>(next: (B, V) -> B, xs: seq<V>, word: B, schedule: seq<Action>, r: nat)
    requires r < |xs| && Exec(next, xs, word, schedule).Some?
    requires var s := Exec(next, xs, word, schedule).value; Loading(s, r, r) && next(s.word, xs[r]) != s.word
    ensures var s, t := Exec(next, xs, word, schedule).value, Exec(next, xs, word, schedule + Round(r, |xs|));
            t.Some? && Loading(t.value, r + 1, r + 1) && t.value.word == next(s.word, xs[r])
  {
    var k := |xs|;
    var loaded := schedule + Loads(r, k);
    var swapped := loaded + [Swap(r)];
    AllLoad(next, xs, word, schedule, r, k);
    FirstSwap(next, xs, word, loaded, r);
    AllLose(next, xs, word, swapped, r + 1, k);
    assert schedule + Round(r, k) == swapped + Swaps(r + 1, k);
    LostAll(Exec(next, xs, word, swapped + Swaps(r + 1, k)).value, r + 1);
  }

  lemma NobodyHasLoaded<B, V>(next: (B, V) -> B, xs: seq<V>, word: B)
    ensures Exec(next, xs, word, []) == Some(Init(word, |xs|)) && Loading(Init(word, |xs|), 0, 0)
  {
  }

  /** `schedule` can be run, and lets the first `r` calls finish in turn. */
  ghost predicate Finishes<B, V>(next: (B, V) -> B, xs: seq<V>, word: B, schedule: seq<Action>, r: nat)
    requires r <= |xs|
  {
    var s := Exec(next, xs, word, schedule);
    s.Some? && Loading(s.value, r, r) && s.value.word == Folded(next, xs, word, r)
  }

  lemma RoundFinishesNext<B, V>(next: (B, V) -> B, xs: seq<V>, word: B, schedule: seq<Action>, r: nat)
    requires Moves(next, xs, word) && r < |xs| && Finishes(next, xs, word, schedule, r)
    ensures Finishes(next, xs, word, schedule + Round(r, |xs|), r + 1)
  {
    assert Folded(next, xs, word, r + 1) != Folded(next, xs, word, r);
    RoundFinishesOne(next, xs, word, schedule, r);
  }

  /** What a round carries from `r` to `r + 1` holds after any number of rounds. */
  lemma {:induction false} ContentionCarries(k: nat, r: nat, holds: (seq<Action>, nat) -> bool)
    requires r <= k && holds([], 0)
    requires forall schedule, q {:trigger schedule + Round(q, k)} | 0 <= q < k && holds(schedule, q) ::
               holds(schedule + Round(q, k), q + 1)
    ensures holds(Contention(k, r), r)
  {
    if r == 0 {
    } else {
      ContentionCarries(k, r - 1, holds);
      assert Contention(k, r) == Contention(k, r - 1) + Round(r - 1, k);
    }
  }

  lemma RoundCarries<B, V>(next: (B, V) -> B, xs: seq<V>, word: B, holds: (seq<Action>, nat) -> bool)
    requires Moves(next, xs, word)
    requires forall schedule, r: nat :: holds(schedule, r) <==> r <= |xs| && Finishes(next, xs, word, schedule, r)
    ensures forall schedule, q {:trigger schedule + Round(q, |xs|)} | 0 <= q < |xs| && holds(schedule, q) ::
              holds(schedule + Round(q, |xs|), q + 1)
  {
    forall schedule, q | 0 <= q < |xs| && holds(schedule, q) ensures holds(schedule + Round(q, |xs|), q + 1) {
      RoundFinishesNext(next, xs, word, schedule, q);
    }
  }

  lemma FinishingCarries<B, V>(next: (B, V) -> B, xs: seq<V>, word: B, schedule: seq<Action>)
    returns (holds: (seq<Action>, nat) -> bool)
    requires Moves(next, xs, word)
    ensures holds([], 0) && (holds(schedule, |xs|) ==> Finishes(next, xs, word, schedule, |xs|))
    ensures forall before, q {:trigger before + Round(q, |xs|)} | 0 <= q < |xs| && holds(before, q) ::
              holds(before + Round(q, |xs|), q + 1)
  {
    holds := (schedule: seq<Action>, r: nat) => r <= |xs| && Finishes(next, xs, word, schedule, r);
    NobodyHasLoaded(next, xs, word);
    RoundCarries(next, xs, word, holds);
  }

  lemma ContentionRuns<B, V>(next: (B, V) -> B, xs: seq<V>, word: B)
    requires Moves(next, xs, word)
    ensures Finishes(next, xs, word, Contention(|xs|, |xs|), |xs|)
  {
    var holds := FinishingCarries(next, xs, word, Contention(|xs|, |xs|));
    ContentionCarries(|xs|, |xs|, holds);
  }

  lemma {:induction false} NobodyHolds<B>(calls: seq<Call<B>>, n: nat)
    requires n <= |calls| && forall i | 0 <= i < n :: calls[i].Done?
    ensures Holding(calls, n) == 0
  {
    if n == 0 {
    } else {
      NobodyHolds(calls, n - 1);
    }
  }

  lemma AllFinished<B>(s: State<B>, k: nat)
    requires |s.calls| == |s.charges| == k && Loading(s, k, k) && Counted(s, k * (k + 1))
    ensures 2 * Failures(s.charges, k) == k * (k - 1)
  {
    AllDone(s.calls, k);
    NobodyHolds(s.calls, k);
  }

  /** Both bounds are attained by one schedule, whatever is computed, as long as none of the
      observations, made in turn, leaves the word as it was. */
  lemma {:induction false} BoundsAreAttained<B, V>(next: (B, V) -> B, xs: seq<V>, word: B)
    requires Moves(next, xs, word)
    ensures var k := |xs|;
            var schedule := Contention(k, k);
            var s := Exec(next, xs, word, schedule);
            s.Some? && 2 * Failures(s.value.charges, k) == k * (k - 1) && |schedule| == k * (k + 1)
  {
    var k := |xs|;
    var schedule := Contention(k, k);
    ContentionLength(k, k);
    ContentionRuns(next, xs, word);
    assert Finishes(next, xs, word, schedule, k);
    ExecCounts(next, xs, word, schedule);
    AllFinished(Exec(next, xs, word, schedule).value, k);
  }

  /** A schedule that cannot be extended has finished every call. */
  lemma StuckMeansFinished<B(!new), V>(next: (B, V) -> B, xs: seq<V>, word: B, schedule: seq<Action>)
    requires Exec(next, xs, word, schedule).Some?
    requires forall a: Action :: !Enabled(Exec(next, xs, word, schedule).value, a)
    ensures var s := Exec(next, xs, word, schedule).value;
            && |s.order| == |xs|
            && (forall i | 0 <= i < |xs| :: i in s.order)
  {
    var s := Exec(next, xs, word, schedule).value;
    ExecKeepsInv(next, xs, word, schedule);
    ExecCounts(next, xs, word, schedule);
    forall i | 0 <= i < |xs| ensures s.calls[i].Done? {
      assert !Enabled(s, Load(i)) && !Enabled(s, Swap(i));
    }
    AllDone(s.calls, |xs|);
    forall i | 0 <= i < |xs| ensures i in s.order {
      assert s.calls[i].Done?;
      assert s.order[s.calls[i].rank] == i;
    }
  }

  lemma {:induction false} AllDone<B>(calls: seq<Call<B>>, n: nat)
    requires n <= |calls| && forall i | 0 <= i < n :: calls[i].Done?
    ensures Unfinished(calls, n) == 0
  {
    if n == 0 {
    } else {
      AllDone(calls, n - 1);
    }
  }
}
