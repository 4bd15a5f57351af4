/** The circuit breaker of classification: its sliding window, its cooldown and the monthly spend cap. */
module Circuit {
  import opened Wrappers

  const CIRCUIT_ERROR_THRESHOLD: nat := 5
  const CIRCUIT_WINDOW_MS: nat := 10 * 60_000
  const CIRCUIT_COOLDOWN_MS: nat := 30 * 60_000

  /** One call in millionths of a US dollar: 2000 tokens at 0.042 US dollars a million. */
  const COST_PER_CALL: nat := 84
  const CENT: nat := 10_000

  // ---- bursts ----

  ghost predicate Ascending(times: seq<int>) {
    forall i, j :: 0 <= i < j < |times| ==> times[i] <= times[j]
  }

  predicate Within(t: int, start: int, window: int) {
    start <= t <= start + window
  }

  /** How many of the times one window holds. */
  function InWindow(times: seq<int>, start: int, window: int): nat {
    if times == [] then 0
    else InWindow(times[..|times| - 1], start, window) + if Within(times[|times| - 1], start, window) then 1 else 0
  }

  /** The largest count any window of this length holds, and one that holds it. */
  ghost predicate IsWidest(times: seq<int>, window: int, widest: nat) {
    && (forall start :: InWindow(times, start, window) <= widest)
    && (if times == [] then widest == 0 else exists start :: InWindow(times, start, window) == widest)
  }

  /** Times counted only between two indices number at most that many. */
  lemma {:induction false} CountAtMost(times: seq<int>, start: int, window: int, first: nat, last: nat)
    requires first <= last <= |times|
    requires forall i :: 0 <= i < |times| && Within(times[i], start, window) ==> first <= i < last
    ensures InWindow(times, start, window) <= last - first
  {
    if times != [] {
      var n := |times| - 1;
      var head := times[..n];
      if last == |times| {
        if first == |times| {
          CountAtMost(head, start, window, n, n);
        } else {
          CountAtMost(head, start, window, first, n);
        }
      } else {
        CountAtMost(head, start, window, first, last);
      }
    }
  }

  /** A stretch of indices that all count is counted whole. */
  lemma {:induction false} CountAtLeast(times: seq<int>, start: int, window: int, first: nat, last: nat)
    requires first <= last <= |times|
    requires forall i :: first <= i < last ==> Within(times[i], start, window)
    ensures InWindow(times, start, window) >= last - first
  {
    if times != [] {
      var n := |times| - 1;
      if last == |times| && first < last {
        CountAtLeast(times[..n], start, window, first, n);
      } else if last <= n {
        CountAtLeast(times[..n], start, window, first, last);
      }
    }
  }

  /** The leftmost time a window ending at `last` reaches back to. */
  predicate IsFirst(times: seq<int>, window: int, first: nat, last: nat) {
    && first <= last < |times| && times[last] - times[first] <= window
    && forall i :: 0 <= i < first ==> times[last] - times[i] > window
  }

  /** Every window ending at one of the first `n` times holds at most `widest`. */
  ghost predicate Covers(times: seq<int>, window: int, widest: nat, n: nat) {
    forall first, last :: 0 <= last < n && IsFirst(times, window, first, last) ==> last - first + 1 <= widest
  }

  lemma HasFirst(times: seq<int>, window: int, last: nat) returns (first: nat)
    requires last < |times| && window >= 0
    ensures IsFirst(times, window, first, last)
  {
    first := 0;
    while times[last] - times[first] > window
      invariant first <= last && forall i :: 0 <= i < first ==> times[last] - times[i] > window
      decreases last - first
    {
      first := first + 1;
    }
  }

  /** The last counted index of a window, when there is one. */
  lemma LastIn(times: seq<int>, start: int, window: int) returns (last: Option<nat>)
    ensures last.Some? ==> last.value < |times| && Within(times[last.value], start, window)
    ensures last.Some? ==> forall i :: last.value < i < |times| ==> !Within(times[i], start, window)
    ensures last.None? ==> forall i :: 0 <= i < |times| ==> !Within(times[i], start, window)
  {
    var n: nat := |times|;
    while n > 0 && !Within(times[n - 1], start, window)
      invariant n <= |times| && forall i :: n <= i < |times| ==> !Within(times[i], start, window)
    {
      n := n - 1;
    }
    last := if n == 0 then None else Some(n - 1);
  }

  /** Covering every window that ends at a time covers every window there is. */
  lemma CoveringIsUpperBound(times: seq<int>, window: int, widest: nat, start: int)
    requires Ascending(times) && window >= 0 && Covers(times, window, widest, |times|)
    ensures InWindow(times, start, window) <= widest
  {
    var last := LastIn(times, start, window);
    if last.None? {
      CountAtMost(times, start, window, 0, 0);
    } else {
      var first := HasFirst(times, window, last.value);
      CountAtMost(times, start, window, first, last.value + 1);
    }
  }

  /** Two pointers over the ascending times: the answer is the maximum over every window, wherever it starts. */
  method WidestBurstSize(times: seq<int>, windowMs: int) returns (widest: nat)
    requires Ascending(times) && windowMs >= 0
    ensures IsWidest(times, windowMs, widest)
  {
    widest := 0;
    var first := 0;
    ghost var best := 0;
    for last := 0 to |times|
      invariant first <= last && (last == 0 ==> first == 0)
      invariant last > 0 ==> IsFirst(times, windowMs, first, last - 1)
      invariant Covers(times, windowMs, widest, last)
      invariant last == 0 ==> widest == 0
      invariant last > 0 ==> best < |times| && InWindow(times, times[best], windowMs) >= widest
    {
      assert forall i :: 0 <= i < first ==> times[last] - times[i] > windowMs;
      while times[last] - times[first] > windowMs
        invariant first <= last
        invariant forall i :: 0 <= i < first ==> times[last] - times[i] > windowMs
        decreases last - first
      {
        first := first + 1;
      }
      if last - first + 1 > widest {
        widest := last - first + 1;
        best := first;
        CountAtLeast(times, times[first], windowMs, first, last + 1);
      }
      assert forall f :: IsFirst(times, windowMs, f, last) ==> f == first;
    }
    forall start ensures InWindow(times, start, windowMs) <= widest {
      CoveringIsUpperBound(times, windowMs, widest, start);
    }
    if times != [] {
      assert InWindow(times, times[best], windowMs) == widest;
    }
  }

  // ---- the breaker ----

  /** The failures the assessment reads: those of the cooldown, in order. */
  function Recent(failures: seq<int>, now: int): seq<int> {
    if failures == [] then []
    else
      var head := Recent(failures[..|failures| - 1], now);
      if failures[|failures| - 1] > now - CIRCUIT_COOLDOWN_MS then head + [failures[|failures| - 1]] else head
  }

  lemma {:induction false} RecentCounts(failures: seq<int>, now: int, start: int, window: int)
    ensures InWindow(Recent(failures, now), start, window) <= InWindow(failures, start, window)
    ensures start > now - CIRCUIT_COOLDOWN_MS ==>
      InWindow(Recent(failures, now), start, window) == InWindow(failures, start, window)
    ensures start + window <= now - CIRCUIT_COOLDOWN_MS ==> InWindow(Recent(failures, now), start, window) == 0
  {
    if failures != [] {
      var n := |failures| - 1;
      RecentCounts(failures[..n], now, start, window);
      var head := Recent(failures[..n], now);
      assert (head + [failures[n]])[..|head|] == head;
    }
  }

  lemma {:induction false} RecentAscends(failures: seq<int>, now: int)
    requires Ascending(failures)
    ensures Ascending(Recent(failures, now))
    ensures forall t :: t in Recent(failures, now) <==> t in failures && t > now - CIRCUIT_COOLDOWN_MS
  {
    if failures != [] {
      var n := |failures| - 1;
      RecentAscends(failures[..n], now);
      assert failures == failures[..n] + [failures[n]];
      var head := Recent(failures[..n], now);
      forall k | 0 <= k < |head| ensures head[k] <= failures[n] {
        assert head[k] in head;
        assert head[k] in failures[..n];
      }
    }
  }

  /** Whether failures alone hold the breaker open: some window inside the cooldown holds five. */
  ghost predicate OpenOnErrors(failures: seq<int>, now: int) {
    exists start :: InWindow(Recent(failures, now), start, CIRCUIT_WINDOW_MS) >= CIRCUIT_ERROR_THRESHOLD
  }

  method AssessErrors(failures: seq<int>, now: int) returns (open: bool, burst: nat)
    requires Ascending(failures)
    ensures open <==> OpenOnErrors(failures, now)
    ensures IsWidest(Recent(failures, now), CIRCUIT_WINDOW_MS, burst)
  {
    RecentAscends(failures, now);
    burst := WidestBurstSize(Recent(failures, now), CIRCUIT_WINDOW_MS);
    open := burst >= CIRCUIT_ERROR_THRESHOLD;
  }

  /** Five failures from index `first` on, within one window. */
  predicate FiveFrom(failures: seq<int>, first: nat) {
    first + 4 < |failures| && failures[first + 4] - failures[first] <= CIRCUIT_WINDOW_MS
  }

  /**
   Any five failures within ten minutes hold the breaker open until thirty minutes after the
   first of them, which is at least twenty minutes after the fifth, whatever failed besides.
   */
  lemma FiveFailuresHoldOpen(failures: seq<int>, first: nat, now: int)
    requires Ascending(failures) && FiveFrom(failures, first)
    requires now < failures[first] + CIRCUIT_COOLDOWN_MS
    ensures OpenOnErrors(failures, now)
    ensures failures[first] + CIRCUIT_COOLDOWN_MS >= failures[first + 4] + 20 * 60_000
  {
    var start := failures[first];
    RecentCounts(failures, now, start, CIRCUIT_WINDOW_MS);
    CountAtLeast(failures, start, CIRCUIT_WINDOW_MS, first, first + 5);
  }

  /** The breaker is open exactly while five failures of one window are all younger than the cooldown. */
  lemma OpenExactly(failures: seq<int>, now: int)
    requires Ascending(failures)
    ensures OpenOnErrors(failures, now) <==>
            exists first: nat :: FiveFrom(failures, first) && now < failures[first] + CIRCUIT_COOLDOWN_MS
  {
    if OpenOnErrors(failures, now) {
      var start :| InWindow(Recent(failures, now), start, CIRCUIT_WINDOW_MS) >= CIRCUIT_ERROR_THRESHOLD;
      var first := FirstOfBurst(failures, now, start);
      assert FiveFrom(failures, first);
    }
    if first: nat :| FiveFrom(failures, first) && now < failures[first] + CIRCUIT_COOLDOWN_MS {
      FiveFailuresHoldOpen(failures, first, now);
    }
  }

  /** The first failure of a window of five recent ones. */
  lemma FirstOfBurst(failures: seq<int>, now: int, start: int) returns (first: nat)
    requires Ascending(failures)
    requires InWindow(Recent(failures, now), start, CIRCUIT_WINDOW_MS) >= CIRCUIT_ERROR_THRESHOLD
    ensures FiveFrom(failures, first) && now < failures[first] + CIRCUIT_COOLDOWN_MS
  {
    var floor := now - CIRCUIT_COOLDOWN_MS + 1;
    var from := if start < floor then floor else start;
    var span := start + CIRCUIT_WINDOW_MS - from;
    RecentInside(failures, now, start, from, span);
    first := 0;
    while first < |failures| && failures[first] < from
      invariant first <= |failures| && forall i :: 0 <= i < first ==> failures[i] < from
    {
      first := first + 1;
    }
    if first + 4 >= |failures| || failures[first + 4] > from + span {
      var end := if first + 4 >= |failures| then |failures| else first + 4;
      CountAtMost(failures, from, span, first, end);
    }
  }

  lemma {:induction false} RecentInside(failures: seq<int>, now: int, start: int, from: int, span: int)
    requires from == (if start < now - CIRCUIT_COOLDOWN_MS + 1 then now - CIRCUIT_COOLDOWN_MS + 1 else start)
    requires span == start + CIRCUIT_WINDOW_MS - from
    ensures InWindow(Recent(failures, now), start, CIRCUIT_WINDOW_MS) == InWindow(failures, from, span)
  {
    if failures != [] {
      var n := |failures| - 1;
      RecentInside(failures[..n], now, start, from, span);
      var head := Recent(failures[..n], now);
      assert (head + [failures[n]])[..|head|] == head;
    }
  }

  /**
   The breaker's own text promises thirty minutes after the newest counted failure. With five
   failures and no other it closes thirty minutes after the oldest, up to ten minutes sooner.
   */
  lemma ClosesAfterTheOldest(failures: seq<int>, now: int)
    requires Ascending(failures) && |failures| == 5 && FiveFrom(failures, 0)
    ensures OpenOnErrors(failures, now) <==> now < failures[0] + CIRCUIT_COOLDOWN_MS
    ensures failures[0] + CIRCUIT_COOLDOWN_MS <= failures[4] + CIRCUIT_COOLDOWN_MS <= failures[0] +
            CIRCUIT_COOLDOWN_MS + CIRCUIT_WINDOW_MS
  {
    OpenExactly(failures, now);
    assert forall first: nat :: FiveFrom(failures, first) ==> first == 0;
  }

  // ---- spend ----

  /** The estimate in whole cents, half a cent rounding up. */
  function RoundCents(spend: nat): nat {
    (spend + CENT / 2) / CENT * CENT
  }

  predicate CapReached(calls: nat, cap: Option<nat>) {
    cap.Some? && calls * COST_PER_CALL >= cap.value
  }

  /** The assessment compares the rounded estimate, so with a cap in whole cents a cycle pauses half a cent early. */
  lemma RoundedCapPausesEarly(calls: nat, cents: nat)
    ensures RoundCents(calls * COST_PER_CALL) >= cents * CENT <==> calls * COST_PER_CALL + CENT / 2 >= cents * CENT
  {
    var x := calls * COST_PER_CALL + CENT / 2;
    assert x / CENT * CENT <= x < x / CENT * CENT + CENT;
  }

  datatype Answer = Manual | Override | Rule | Ask

  datatype Skip = NotSkipped | NotConfigured | Disabled | CircuitOpen | CostCap | NoCandidates

  datatype Summary = Summary(classified: nat, manual: nat, overridden: nat, ruled: nat, asked: nat, skipped: Skip,
                             errors: nat)

  /** Spend that a fixed cap allows: at most the call that reached it. */
  predicate WithinCap(calls: nat, cap: Option<nat>) {
    cap.Some? && cap.value > 0 ==> calls * COST_PER_CALL < cap.value + COST_PER_CALL
  }

  /** The counters of a cycle are what the candidates it got through came to, kind by kind. */
  ghost predicate Counts(s: Summary, candidates: seq<Answer>) {
    s.classified <= |candidates| &&
    var done := multiset(candidates[..s.classified]);
    && s.manual == done[Manual] && s.overridden == done[Override] && s.ruled == done[Rule] && s.asked == done[Ask]
  }

  lemma NothingCounted(candidates: seq<Answer>)
    ensures forall skipped, errors :: Counts(Summary(0, 0, 0, 0, 0, skipped, errors), candidates)
  {
  }

  /** One more candidate, counted as what it is; how the cycle ends does not matter to the counters. */
  lemma CountsNext(s: Summary, candidates: seq<Answer>)
    requires Counts(s, candidates) && s.classified < |candidates|
    ensures forall skipped, errors :: Counts(s.(skipped := skipped, errors := errors), candidates)
    ensures var t := s.(classified := s.classified + 1);
            match candidates[s.classified]
            case Manual => Counts(t.(manual := s.manual + 1), candidates)
            case Override => Counts(t.(overridden := s.overridden + 1), candidates)
            case Rule => Counts(t.(ruled := s.ruled + 1), candidates)
            case Ask => Counts(t.(asked := s.asked + 1), candidates)
  {
    assert candidates[..s.classified + 1] == candidates[..s.classified] + [candidates[s.classified]];
  }

  /** The time of one failure, if there was one. */
  function Once(errors: nat, now: int): seq<int> {
    if errors == 0 then [] else [now]
  }

  /**
   Where a cycle that may run ends: before it begins at the rounded cap or without candidates,
   otherwise at the first question the cap forbids, at the first failed one, or past the last.
   */
  ghost predicate CycleAnswers(s: Summary, candidates: seq<Answer>, cap: Option<nat>, before: nat, after: nat) {
    if cap.Some? && RoundCents(before * COST_PER_CALL) >= cap.value
    then s.skipped.CostCap? && s.classified == 0 && s.errors == 0
    else if candidates == [] then s.skipped.NoCandidates? && s.errors == 0
    else if s.classified == |candidates| then s.skipped.NotSkipped? && s.errors == 0
    else
      && s.classified < |candidates| && candidates[s.classified].Ask?
      && if cap.Some? && after * COST_PER_CALL >= cap.value then s.skipped.CostCap? && s.errors == 0
         else s.skipped.NotSkipped? && s.errors == 1
  }

  class ClassificationService {
    /** Calls recorded this month, and the times of the recorded failures. */
    var monthCalls: nat
    var failures: seq<int>
    const configured: bool

    constructor (configured: bool)
      ensures monthCalls == 0 && failures == [] && this.configured == configured
    {
      this.configured := configured;
      monthCalls, failures := 0, [];
    }

    /** One adapter call: an answer is recorded as spend, a failure at its time. */
    method AskAdapter(now: int) returns (answered: bool)
      requires Ascending(failures) && (failures != [] ==> failures[|failures| - 1] <= now)
      modifies this`monthCalls, this`failures
      ensures Ascending(failures)
      ensures answered ==> monthCalls == old(monthCalls) + 1 && failures == old(failures)
      ensures !answered ==> monthCalls == old(monthCalls) && failures == old(failures) + [now]
    {
      answered := *;
      if answered {
        monthCalls := monthCalls + 1;
      } else {
        failures := failures + [now];
      }
    }

    /**
     One cycle: nothing while disabled, unconfigured, open or capped; otherwise every candidate
     in order, until the first failure or the cap.
     */
    method RunCycle(enabled: bool, cap: Option<nat>, candidates: seq<Answer>, now: int) returns (s: Summary)
      requires Ascending(failures) && (failures != [] ==> failures[|failures| - 1] <= now)
      modifies this`monthCalls, this`failures
      ensures Ascending(failures)
      ensures s.classified == s.manual + s.overridden + s.ruled + s.asked <= |candidates|
      ensures monthCalls == old(monthCalls) + s.asked && |failures| == |old(failures)| + s.errors && s.errors <= 1
      ensures !enabled || !configured || OpenOnErrors(old(failures), now) ==>
                s.classified == 0 && s.errors == 0 && monthCalls == old(monthCalls) && failures == old(failures)
      ensures WithinCap(old(monthCalls), cap) ==> WithinCap(monthCalls, cap)
      ensures CapReached(old(monthCalls), cap) ==> monthCalls == old(monthCalls)
      ensures s.skipped.NotSkipped? && s.errors == 0 ==> s.classified == |candidates|
      ensures s.skipped.Disabled? <==> !enabled
      ensures s.skipped.NotConfigured? <==> enabled && !configured
      ensures s.skipped.CircuitOpen? <==> enabled && configured && OpenOnErrors(old(failures), now)
      ensures enabled && configured && !OpenOnErrors(old(failures), now) ==>
        CycleAnswers(s, candidates, cap, old(monthCalls), monthCalls) && failures == old(failures) + Once(s.errors, now)
      ensures Counts(s, candidates)
    {
      hide OpenOnErrors, RoundCents, IsWidest, Counts;
      NothingCounted(candidates);
      s := Summary(0, 0, 0, 0, 0, NotSkipped, 0);
      if !enabled { return s.(skipped := Disabled); }
      if !configured { return s.(skipped := NotConfigured); }
      var open, _ := AssessErrors(failures, now);
      if open { return s.(skipped := CircuitOpen); }
      if cap.Some? && RoundCents(monthCalls * COST_PER_CALL) >= cap.value { return s.(skipped := CostCap); }
      if candidates == [] { return s.(skipped := NoCandidates); }
      var calls := monthCalls;
      for k := 0 to |candidates|
        invariant Ascending(failures) && failures == old(failures) && calls == monthCalls
        invariant s.classified == s.manual + s.overridden + s.ruled + s.asked == k
        invariant s.skipped.NotSkipped? && s.errors == 0
        invariant monthCalls == old(monthCalls) + s.asked
        invariant WithinCap(old(monthCalls), cap) ==> WithinCap(monthCalls, cap)
        invariant CapReached(old(monthCalls), cap) ==> monthCalls == old(monthCalls)
        invariant Counts(s, candidates)
      {
        CountsNext(s, candidates);
        match candidates[k] {
          case Manual => s := s.(classified := s.classified + 1, manual := s.manual + 1);
          case Override => s := s.(classified := s.classified + 1, overridden := s.overridden + 1);
          case Rule => s := s.(classified := s.classified + 1, ruled := s.ruled + 1);
          case Ask =>
            if CapReached(calls, cap) { return s.(skipped := CostCap); }
            var answered := AskAdapter(now);
            if !answered { return s.(errors := s.errors + 1); }
            calls := calls + 1;
            s := s.(classified := s.classified + 1, asked := s.asked + 1);
        }
      }
    }
  }
}
