// The in-memory rate limiter: a fixed window for each key, and a sweep of expired entries every 256 operations that
// no answer shows.

module RateLimit {
  import opened Options

  type Instant = int

  const SWEEP_EVERY := 256

  datatype Policy = Policy(max: nat, windowMs: nat)

  datatype Entry = Entry(count: nat, expiresAt: Instant)

  type Memory = map<nat, Entry>

  // ---------------------------------------------------------------- one call

  /** The entry of a key after one more request. */
  function Hit(entry: Option<Entry>, now: Instant, policy: Policy): Entry {
    if entry.None? || now >= entry.value.expiresAt then Entry(1, now + policy.windowMs)
    else Entry(entry.value.count + 1, entry.value.expiresAt)
  }

  function EntryOf(memory: Memory, key: nat): Option<Entry> {
    if key in memory then Some(memory[key]) else None
  }

  /** No wait for an admitted request, and otherwise how long the window still lasts. */
  function Wait(entry: Entry, now: Instant, policy: Policy): Option<int> {
    if entry.count > policy.max then Some(entry.expiresAt - now) else None
  }

  function Swept(memory: Memory, now: Instant): Memory {
    map k | k in memory && memory[k].expiresAt > now :: memory[k]
  }

  datatype Call = Call(key: nat, now: Instant, policy: Policy)

  datatype State = State(memory: Memory, operations: nat)

  /** What a call finds in memory: every 256th call sweeps first. */
  function Seen(s: State, c: Call): Memory {
    if s.operations + 1 >= SWEEP_EVERY then Swept(s.memory, c.now) else s.memory
  }

  /** The entry that a call counts on, in the limiter as it is and in one that never sweeps. */
  function Used(s: State, c: Call): Entry {
    Hit(EntryOf(Seen(s, c), c.key), c.now, c.policy)
  }

  function PlainUsed(memory: Memory, c: Call): Entry {
    Hit(EntryOf(memory, c.key), c.now, c.policy)
  }

  function Step(s: State, c: Call): (State, Option<int>) {
    (State(Seen(s, c)[c.key := Used(s, c)], if s.operations + 1 >= SWEEP_EVERY then 0 else s.operations + 1),
     Wait(Used(s, c), c.now, c.policy))
  }

  function PlainStep(memory: Memory, c: Call): (Memory, Option<int>) {
    (memory[c.key := PlainUsed(memory, c)], Wait(PlainUsed(memory, c), c.now, c.policy))
  }

  /** A live window counts on, a missing or finished one begins anew; only a count above the maximum is refused. */
  lemma HitColumns(entry: Option<Entry>, now: Instant, policy: Policy)
    ensures entry.Some? && now < entry.value.expiresAt ==>
      Hit(entry, now, policy) == Entry(entry.value.count + 1, entry.value.expiresAt)
    ensures entry.Some? && now >= entry.value.expiresAt ==> Hit(entry, now, policy) == Entry(1, now + policy.windowMs)
    ensures entry.None? ==> Hit(entry, now, policy) == Entry(1, now + policy.windowMs)
    ensures var e := Hit(entry, now, policy);
      Wait(e, now, policy) == if e.count <= policy.max then None else Some(e.expiresAt - now)
  {
  }

  // ---------------------------------------------------------------- when the sweep shows

  predicate Part(swept: Memory, plain: Memory) {
    forall k | k in swept :: k in plain && plain[k] == swept[k]
  }

  predicate Counted(memory: Memory) {
    forall k | k in memory :: memory[k].count >= 1
  }

  /** The entry is gone, and the clock reads a time at which it still counted. */
  predicate Misses(swept: Memory, plain: Memory, c: Call) {
    c.key !in swept && c.key in plain && c.now < plain[c.key].expiresAt
  }

  /** One call counts on the same entry in both limiters exactly if it misses none. */
  lemma CallSeesTheSame(s: State, plain: Memory, c: Call)
    requires Part(s.memory, plain) && Counted(plain)
    ensures Used(s, c) == PlainUsed(plain, c) <==> !Misses(s.memory, plain, c)
  {
  }

  /** The limiter, and the one that never sweeps, after these calls from the start. */
  function Limiter(calls: seq<Call>): State {
    if calls == [] then State(map[], 0)
    else
      var n := |calls| - 1;
      Step(Limiter(calls[..n]), calls[n]).0
  }

  function PlainMemory(calls: seq<Call>): Memory {
    if calls == [] then map[]
    else
      var n := |calls| - 1;
      PlainStep(PlainMemory(calls[..n]), calls[n]).0
  }

  predicate Untouched(calls: seq<Call>, from: nat, key: nat) {
    forall k | from <= k < |calls| :: calls[k].key != key
  }

  /** Call i swept the entry of `key`, which has had no call since. */
  predicate SweptBy(calls: seq<Call>, i: nat, key: nat) {
    && i < |calls| && i % SWEEP_EVERY == SWEEP_EVERY - 1 && Untouched(calls, i, key)
    && key in PlainMemory(calls[..i]) && PlainMemory(calls[..i])[key].expiresAt <= calls[i].now
  }

  /** Call j reads a clock before the expiry of the entry of its key, which call i has swept. */
  predicate ReadsBack(calls: seq<Call>, i: nat, j: nat) {
    && i < j < |calls| && SweptBy(calls[..j], i, calls[j].key)
    && calls[j].now < PlainMemory(calls[..j][..i])[calls[j].key].expiresAt
  }

  predicate ClockServes(calls: seq<Call>) {
    forall i, j | 0 <= i < j < |calls| :: !ReadsBack(calls, i, j)
  }

  /** The clock does not go back. */
  predicate Monotone(calls: seq<Call>) {
    forall i, j | 0 <= i < j < |calls| :: calls[i].now <= calls[j].now
  }

  ghost predicate SameEntryAt(calls: seq<Call>, k: nat)
    requires k < |calls|
  {
    Used(Limiter(calls[..k]), calls[k]) == PlainUsed(PlainMemory(calls[..k]), calls[k])
  }

  ghost predicate SameAnswerAt(calls: seq<Call>, k: nat)
    requires k < |calls|
  {
    Step(Limiter(calls[..k]), calls[k]).1 == PlainStep(PlainMemory(calls[..k]), calls[k]).1
  }

  /** The swept memory misses exactly what was swept and not called since. */
  ghost predicate InSync(calls: seq<Call>) {
    var s, plain := Limiter(calls), PlainMemory(calls);
    && s.operations == |calls| % SWEEP_EVERY && Part(s.memory, plain) && Counted(plain)
    && (forall k | k in plain && k !in s.memory :: exists i :: SweptBy(calls, i, k))
    && (forall i, k | SweptBy(calls, i, k) :: k !in s.memory)
  }

  lemma {:induction false} UntouchedEntry(calls: seq<Call>, from: nat, key: nat)
    requires from <= |calls| && Untouched(calls, from, key)
    ensures EntryOf(PlainMemory(calls), key) == EntryOf(PlainMemory(calls[..from]), key)
    decreases |calls|
  {
    var n := |calls| - 1;
    if from <= n {
      UntouchedEntry(calls[..n], from, key);
      assert calls[..n][..from] == calls[..from];
    } else {
      assert calls[..from] == calls;
    }
  }

  lemma SweptByGrows(calls: seq<Call>, i: nat, key: nat)
    requires calls != []
    ensures var n := |calls| - 1;
      SweptBy(calls, i, key) <==>
      calls[n].key != key
      && (SweptBy(calls[..n], i, key)
          || (i == n && n % SWEEP_EVERY == SWEEP_EVERY - 1 && key in PlainMemory(calls[..n])
              && PlainMemory(calls[..n])[key].expiresAt <= calls[n].now))
  {
    var n := |calls| - 1;
    if i < n {
      assert calls[..n][..i] == calls[..i];
    }
  }

  lemma MissedWasSwept(calls: seq<Call>, j: nat)
    requires j < |calls| && InSync(calls[..j])
    ensures Misses(Limiter(calls[..j]).memory, PlainMemory(calls[..j]), calls[j]) <==> exists i :: ReadsBack(calls, i, j)
  {
    var h, c := calls[..j], calls[j];
    forall i: nat | SweptBy(h, i, c.key)
      ensures EntryOf(PlainMemory(h), c.key) == EntryOf(PlainMemory(h[..i]), c.key)
    {
      UntouchedEntry(h, i, c.key);
    }
    if Misses(Limiter(h).memory, PlainMemory(h), c) {
      var i: nat :| SweptBy(h, i, c.key);
      assert ReadsBack(calls, i, j);
    }
  }

  lemma PrefixServes(calls: seq<Call>, n: nat)
    requires n <= |calls| && ClockServes(calls)
    ensures ClockServes(calls[..n])
  {
    forall i, j | 0 <= i < j < n ensures !ReadsBack(calls[..n], i, j) {
      assert calls[..n][..j] == calls[..j] && calls[..n][..i] == calls[..i];
      assert !ReadsBack(calls, i, j);
    }
  }

  lemma {:induction false} StaysInSync(calls: seq<Call>)
    requires ClockServes(calls)
    ensures InSync(calls)
    ensures calls != [] ==> SameEntryAt(calls, |calls| - 1)
    decreases |calls|
  {
    if calls != [] {
      var n := |calls| - 1;
      PrefixServes(calls, n);
      StaysInSync(calls[..n]);
      MissedWasSwept(calls, n);
      CallSeesTheSame(Limiter(calls[..n]), PlainMemory(calls[..n]), calls[n]);
      forall i, k ensures SweptBy(calls, i, k) <==>
          calls[n].key != k
          && (SweptBy(calls[..n], i, k)
              || (i == n && n % SWEEP_EVERY == SWEEP_EVERY - 1 && k in PlainMemory(calls[..n])
                  && PlainMemory(calls[..n])[k].expiresAt <= calls[n].now)) {
        SweptByGrows(calls, i, k);
      }
      NextInSync(calls);
    }
  }

  lemma NextInSync(calls: seq<Call>)
    requires calls != [] && InSync(calls[..|calls| - 1]) && SameEntryAt(calls, |calls| - 1)
    ensures InSync(calls)
  {
    var n := |calls| - 1;
    var h := calls[..n];
    var s, plain := Limiter(h), PlainMemory(h);
    forall i, k | SweptBy(calls, i, k) ensures k !in Limiter(calls).memory {
      SweptByGrows(calls, i, k);
    }
    forall k | k in PlainMemory(calls) && k !in Limiter(calls).memory ensures exists i :: SweptBy(calls, i, k) {
      if k !in s.memory {
        var i :| SweptBy(h, i, k);
        SweptByGrows(calls, i, k);
      } else {
        SweptByGrows(calls, n, k);
      }
    }
  }

  /**
   * From the start, every call counts on the same entry as without sweeping exactly if no call reads a clock before
   * the expiry of an entry of its key that was already swept.
   */
  lemma SweepShowsExactly(calls: seq<Call>)
    ensures (forall k | 0 <= k < |calls| :: SameEntryAt(calls, k)) <==> ClockServes(calls)
  {
    if ClockServes(calls) {
      forall k | 0 <= k < |calls| ensures SameEntryAt(calls, k) {
        PrefixServes(calls, k + 1);
        StaysInSync(calls[..k + 1]);
        assert calls[..k + 1][..k] == calls[..k];
      }
    } else {
      var i, j :| 0 <= i < j < |calls| && ReadsBack(calls, i, j);
      var k := FirstMiss(calls, i, j);
      assert !SameEntryAt(calls, k);
    }
  }

  /** The first call that reads back counts on another entry. */
  lemma {:induction false} FirstMiss(calls: seq<Call>, i: nat, j: nat) returns (k: nat)
    requires ReadsBack(calls, i, j)
    ensures k <= j < |calls| && !SameEntryAt(calls, k) && ClockServes(calls[..k])
    decreases j
  {
    if ClockServes(calls[..j]) {
      k := j;
      StaysInSync(calls[..j]);
      MissedWasSwept(calls, j);
      CallSeesTheSame(Limiter(calls[..j]), PlainMemory(calls[..j]), calls[j]);
    } else {
      var a, b :| 0 <= a < b < j && ReadsBack(calls[..j], a, b);
      assert calls[..j][..b] == calls[..b] && calls[..j][..a] == calls[..a];
      k := FirstMiss(calls, a, b);
    }
  }

  /** So while the clock does not go back, sweeping changes no answer. */
  lemma SweepingIsInvisible(calls: seq<Call>)
    requires Monotone(calls)
    ensures ClockServes(calls) && forall k | 0 <= k < |calls| :: SameAnswerAt(calls, k)
  {
    forall i, j | 0 <= i < j < |calls| ensures !ReadsBack(calls, i, j) {
      assert calls[..j][..i] == calls[..i] && calls[..j][i] == calls[i];
    }
    SweepShowsExactly(calls);
    forall k | 0 <= k < |calls| ensures SameAnswerAt(calls, k) {
      assert SameEntryAt(calls, k);
    }
  }

  // ---- a call that reads back can be told from the answers

  function Repeat<T>(x: T, n: nat): (s: seq<T>)
    ensures |s| == n && forall k | 0 <= k < n :: s[k] == x
  {
    seq(n, _ => x)
  }

  lemma OneMoreCall(h: seq<Call>, c: Call)
    ensures Limiter(h + [c]) == Step(Limiter(h), c).0 && PlainMemory(h + [c]) == PlainStep(PlainMemory(h), c).0
  {
    assert (h + [c])[..|h|] == h;
  }

  /** A live entry is found and counted on, whether the call sweeps or not; a missing one is opened. */
  lemma LimiterHit(s: State, c: Call)
    ensures c.key in Step(s, c).0.memory
    ensures c.key !in s.memory ==> Step(s, c).0.memory[c.key] == Entry(1, c.now + c.policy.windowMs)
    ensures c.key in s.memory && c.now < s.memory[c.key].expiresAt ==>
              Step(s, c).0.memory[c.key] == Entry(s.memory[c.key].count + 1, s.memory[c.key].expiresAt)
  {
  }

  lemma PlainHit(memory: Memory, c: Call)
    requires c.key in memory && c.now < memory[c.key].expiresAt
    ensures c.key in PlainStep(memory, c).0
    ensures PlainStep(memory, c).0[c.key] == Entry(memory[c.key].count + 1, memory[c.key].expiresAt)
  {
  }

  lemma {:induction false} RepeatedCall(h: seq<Call>, c: Call, m: nat)
    requires m > 0 && c.policy.windowMs > 0 && c.key !in Limiter(h).memory
    requires c.key in PlainMemory(h) && c.now < PlainMemory(h)[c.key].expiresAt
    ensures EntryOf(Limiter(h + Repeat(c, m)).memory, c.key) == Some(Entry(m, c.now + c.policy.windowMs))
    ensures EntryOf(PlainMemory(h + Repeat(c, m)), c.key)
      == Some(Entry(PlainMemory(h)[c.key].count + m, PlainMemory(h)[c.key].expiresAt))
    decreases m
  {
    hide Limiter, PlainMemory, Step, PlainStep;
    var before := h + Repeat(c, m - 1);
    assert h + Repeat(c, m) == before + [c];
    OneMoreCall(before, c);
    if m > 1 {
      RepeatedCall(h, c, m - 1);
    } else {
      assert before == h;
    }
    LimiterHit(Limiter(before), c);
    PlainHit(PlainMemory(before), c);
  }

  /**
   * When a call reads back, asking `max` times at that instant tells the limiters apart: the one that never sweeps
   * refuses the last of these calls, and the limiter admits it.
   */
  lemma ReadingBackCanBeTold(h: seq<Call>, i: nat, c: Call)
    requires ClockServes(h) && ReadsBack(h + [c], i, |h|) && c.policy.max > 0 && c.policy.windowMs > 0
    ensures var calls := h + Repeat(c, c.policy.max);
      var k := |calls| - 1;
      && Step(Limiter(calls[..k]), c).1 == None
      && PlainStep(PlainMemory(calls[..k]), c).1 == Some(PlainMemory(h[..i])[c.key].expiresAt - c.now)
      && PlainMemory(h[..i])[c.key].expiresAt > c.now
  {
    hide Limiter, PlainMemory, ReadsBack, ClockServes, Step, PlainStep;
    var calls := h + Repeat(c, c.policy.max);
    var k := |calls| - 1;
    SweptEntry(h, i, c);
    RepeatedCall(h, c, c.policy.max);
    assert calls == calls[..k] + [c];
    OneMoreCall(calls[..k], c);
    AnswerShowsEntry(Limiter(calls[..k]), PlainMemory(calls[..k]), c);
  }

  lemma SweptEntry(h: seq<Call>, i: nat, c: Call)
    requires ClockServes(h) && ReadsBack(h + [c], i, |h|)
    ensures c.key !in Limiter(h).memory && c.key in PlainMemory(h) && i < |h| && c.key in PlainMemory(h[..i])
    ensures var e := PlainMemory(h)[c.key]; e == PlainMemory(h[..i])[c.key] && e.count > 0 && c.now < e.expiresAt
  {
    assert (h + [c])[..|h|] == h;
    StaysInSync(h);
    UntouchedEntry(h, i, c.key);
  }

  lemma AnswerShowsEntry(s: State, memory: Memory, c: Call)
    ensures Step(s, c).1 == Wait(Step(s, c).0.memory[c.key], c.now, c.policy)
    ensures PlainStep(memory, c).1 == Wait(PlainStep(memory, c).0[c.key], c.now, c.policy)
  {
  }

  /**
   * For every policy there is such a history from the start: one call, 255 calls for another key at its expiry, of
   * which the last sweeps, and `max` calls a millisecond earlier.
   */
  lemma SweepingShowsWhenTheClockGoesBack(policy: Policy)
    requires policy.max > 0 && policy.windowMs > 0
    ensures var w := policy.windowMs;
      var h := [Call(0, 0, policy)] + Repeat(Call(1, w, policy), 255);
      var calls := h + Repeat(Call(0, w - 1, policy), policy.max);
      && Monotone(h)
      && Step(Limiter(calls[..|calls| - 1]), calls[|calls| - 1]).1 == None
      && PlainStep(PlainMemory(calls[..|calls| - 1]), calls[|calls| - 1]).1 == Some(1)
  {
    var w := policy.windowMs;
    var h, c := [Call(0, 0, policy)] + Repeat(Call(1, w, policy), 255), Call(0, w - 1, policy);
    assert forall k | 0 < k < |h| :: h[k] == Call(1, w, policy);
    SweepingIsInvisible(h);
    var next := h + [c];
    assert next[..256] == h && h[..255][..1] == [h[0]];
    UntouchedEntry(h[..255], 1, 0);
    assert PlainMemory([h[0]])[0] == Entry(1, w) by {
      assert [h[0]][..0] == [];
    }
    assert SweptBy(h, 255, 0);
    assert ReadsBack(next, 255, 256);
    ReadingBackCanBeTold(h, 255, c);
  }

  // ---------------------------------------------------------------- how much is admitted

  /** The entry of one key after requests at these instants. */
  function After(times: seq<Instant>, policy: Policy): Option<Entry> {
    if times == [] then None
    else
      var n := |times| - 1;
      Some(Hit(After(times[..n], policy), times[n], policy))
  }

  predicate Rising(times: seq<Instant>) {
    forall i, j | 0 <= i < j < |times| :: times[i] <= times[j]
  }

  predicate LastAdmitted(times: seq<Instant>, policy: Policy)
    requires times != []
  {
    After(times, policy).value.count <= policy.max
  }

  /** The requests admitted at instants in [from, to). */
  function AdmittedIn(times: seq<Instant>, policy: Policy, from: Instant, to: Instant): nat {
    if times == [] then 0
    else
      var n := |times| - 1;
      AdmittedIn(times[..n], policy, from, to)
      + (if from <= times[n] < to && LastAdmitted(times, policy) then 1 else 0)
  }

  /** The requests admitted in the window that ends at `end`. */
  function AdmittedUntil(times: seq<Instant>, policy: Policy, end: Instant): nat {
    if times == [] then 0
    else
      var n := |times| - 1;
      AdmittedUntil(times[..n], policy, end)
      + (if After(times, policy).value.expiresAt == end && LastAdmitted(times, policy) then 1 else 0)
  }

  function Min(a: nat, b: nat): nat {
    if a < b then a else b
  }

  /** A window admits its first `max` requests: all of them, and no more. */
  lemma {:induction false} WindowAdmits(times: seq<Instant>, policy: Policy, end: Instant)
    requires policy.windowMs > 0
    ensures AdmittedUntil(times, policy, end) <= policy.max
    ensures times != [] ==> var e := After(times, policy).value;
      && (end == e.expiresAt ==> AdmittedUntil(times, policy, end) == Min(e.count, policy.max))
      && (end > e.expiresAt ==> AdmittedUntil(times, policy, end) == 0)
    decreases |times|
  {
    if times != [] {
      WindowAdmits(times[..|times| - 1], policy, end);
    }
  }

  lemma {:induction false} NoneBefore(times: seq<Instant>, policy: Policy, from: Instant, to: Instant)
    requires forall i | 0 <= i < |times| :: times[i] < from
    ensures AdmittedIn(times, policy, from, to) == 0
    decreases |times|
  {
    if times != [] {
      NoneBefore(times[..|times| - 1], policy, from, to);
    }
  }

  function LessOne(n: nat): nat {
    if n == 0 then 0 else n - 1
  }

  /**
   * Inside an interval as long as a window: as long as the current window began before the interval, only that window
   * has admitted anything in it, and its first request came earlier; afterwards at most one window came before.
   */
  lemma {:induction false} AtMostTwoWindows(times: seq<Instant>, policy: Policy, from: Instant)
    requires Rising(times) && policy.windowMs > 0 && times != []
    requires times[|times| - 1] < from + policy.windowMs
    ensures var e := After(times, policy).value;
      var admitted := AdmittedIn(times, policy, from, from + policy.windowMs);
      if e.expiresAt < from + policy.windowMs then admitted <= LessOne(Min(e.count, policy.max))
      else admitted <= LessOne(policy.max) + Min(e.count, policy.max)
    decreases |times|
  {
    var n := |times| - 1;
    if n > 0 {
      AtMostTwoWindows(times[..n], policy, from);
    }
    if times[n] < from {
      NoneBefore(times, policy, from, from + policy.windowMs);
    }
  }

  /** In any interval [from, from + windowMs) fewer than twice the maximum are admitted, or none if the maximum is 0. */
  lemma {:induction false} LessThanTwiceMax(times: seq<Instant>, policy: Policy, from: Instant)
    requires Rising(times) && policy.windowMs > 0
    ensures AdmittedIn(times, policy, from, from + policy.windowMs) <= LessOne(2 * policy.max)
    decreases |times|
  {
    if times != [] {
      if times[|times| - 1] < from + policy.windowMs {
        AtMostTwoWindows(times, policy, from);
      } else {
        LessThanTwiceMax(times[..|times| - 1], policy, from);
      }
    }
  }

  /** A window of a millisecond ends before the next instant, so it cannot meet another one in an interval. */
  lemma {:induction false} OneInstant(times: seq<Instant>, policy: Policy, from: Instant)
    requires Rising(times) && policy.windowMs == 1
    ensures AdmittedIn(times, policy, from, from + 1) <= AdmittedUntil(times, policy, from + 1)
    ensures times != [] ==> After(times, policy).value.expiresAt <= times[|times| - 1] + 1
    decreases |times|
  {
    if times != [] {
      var n := |times| - 1;
      OneInstant(times[..n], policy, from);
      if n > 0 {
        assert times[..n][n - 1] <= times[n];
      }
    }
  }

  /** The most that an interval as long as a window admits. */
  function MostAdmitted(policy: Policy): nat {
    if policy.windowMs == 1 then policy.max else LessOne(2 * policy.max)
  }

  lemma NeverMore(times: seq<Instant>, policy: Policy, from: Instant)
    requires Rising(times) && policy.windowMs > 0
    ensures AdmittedIn(times, policy, from, from + policy.windowMs) <= MostAdmitted(policy)
  {
    if policy.windowMs == 1 {
      OneInstant(times, policy, from);
      WindowAdmits(times, policy, from + 1);
    } else {
      LessThanTwiceMax(times, policy, from);
    }
  }

  /** One request opens a window; its last millisecond takes the rest of that window, and the next one a whole window. */
  function Busiest(policy: Policy): seq<Instant> {
    if policy.max == 0 then []
    else if policy.windowMs == 1 then Repeat<Instant>(0, policy.max)
    else [0] + Repeat<Instant>(policy.windowMs - 1, policy.max - 1) + Repeat<Instant>(policy.windowMs, policy.max)
  }

  /** Requests at one instant of a window are admitted up to its maximum. */
  lemma {:induction false} SameWindow(times: seq<Instant>, policy: Policy, t: Instant, m: nat, from: Instant, to: Instant)
    requires times != [] && t < After(times, policy).value.expiresAt
    requires After(times, policy).value.count + m <= policy.max && from <= t < to
    ensures After(times + Repeat<Instant>(t, m), policy)
      == Some(Entry(After(times, policy).value.count + m, After(times, policy).value.expiresAt))
    ensures AdmittedIn(times + Repeat<Instant>(t, m), policy, from, to) == AdmittedIn(times, policy, from, to) + m
    decreases m
  {
    var all := times + Repeat<Instant>(t, m);
    if m == 0 {
      assert all == times;
    } else {
      assert all[..|all| - 1] == times + Repeat<Instant>(t, m - 1) && all[|all| - 1] == t;
      SameWindow(times, policy, t, m - 1, from, to);
    }
  }

  /** A full window of requests, the first of which opens it. */
  lemma NewWindow(times: seq<Instant>, policy: Policy, t: Instant, from: Instant, to: Instant)
    requires policy.max > 0 && policy.windowMs > 0 && from <= t < to
    requires times != [] ==> After(times, policy).value.expiresAt <= t
    ensures AdmittedIn(times + Repeat<Instant>(t, policy.max), policy, from, to) == AdmittedIn(times, policy, from, to) + policy.max
  {
    var first := times + [t];
    assert first[..|times|] == times && first[|times|] == t;
    assert After(first, policy) == Some(Entry(1, t + policy.windowMs));
    SameWindow(first, policy, t, policy.max - 1, from, to);
    assert first + Repeat<Instant>(t, policy.max - 1) == times + Repeat<Instant>(t, policy.max);
  }

  lemma Opened(policy: Policy)
    requires policy.max > 0 && policy.windowMs > 1
    ensures After([0], policy) == Some(Entry(1, policy.windowMs))
    ensures AdmittedIn([0], policy, policy.windowMs - 1, 2 * policy.windowMs - 1) == 0
  {
    var opening: seq<Instant> := [0];
    assert opening[..0] == [] && After([], policy) == None;
  }

  lemma BusiestOfTwo(policy: Policy)
    requires policy.max > 0 && policy.windowMs > 1
    ensures AdmittedIn(Busiest(policy), policy, policy.windowMs - 1, 2 * policy.windowMs - 1) == 2 * policy.max - 1
  {
    var w := policy.windowMs;
    var rest, full := Repeat<Instant>(w - 1, policy.max - 1), Repeat<Instant>(w, policy.max);
    Opened(policy);
    hide After, AdmittedIn;
    SameWindow([0], policy, w - 1, policy.max - 1, w - 1, 2 * w - 1);
    assert After([0] + rest, policy) == Some(Entry(policy.max, w));
    NewWindow([0] + rest, policy, w, w - 1, 2 * w - 1);
  }

  /** No smaller bound holds for any policy. */
  lemma BoundIsReached(policy: Policy)
    requires policy.windowMs > 0
    ensures Rising(Busiest(policy))
    ensures var from := policy.windowMs - 1;
      AdmittedIn(Busiest(policy), policy, from, from + policy.windowMs) == MostAdmitted(policy)
  {
    if policy.max > 0 {
      if policy.windowMs == 1 {
        NewWindow([], policy, 0, 0, 1);
        assert [] + Repeat<Instant>(0, policy.max) == Busiest(policy);
      } else {
        BusiestOfTwo(policy);
      }
    }
  }

  function TimesOf(calls: seq<Call>, key: nat): seq<Instant> {
    if calls == [] then []
    else
      var n := |calls| - 1;
      TimesOf(calls[..n], key) + (if calls[n].key == key then [calls[n].now] else [])
  }

  /** Each key is limited by its own requests alone, and a request is answered without a wait exactly if it is admitted. */
  lemma {:induction false} KeysAreIndependent(calls: seq<Call>, key: nat, policy: Policy)
    requires forall i | 0 <= i < |calls| && calls[i].key == key :: calls[i].policy == policy
    ensures EntryOf(PlainMemory(calls), key) == After(TimesOf(calls, key), policy)
    ensures calls != [] && calls[|calls| - 1].key == key ==>
      var n := |calls| - 1;
      TimesOf(calls, key) != []
      && (PlainStep(PlainMemory(calls[..n]), calls[n]).1.None? <==> LastAdmitted(TimesOf(calls, key), policy))
    decreases |calls|
  {
    if calls != [] {
      var n := |calls| - 1;
      KeysAreIndependent(calls[..n], key, policy);
      if calls[n].key == key {
        var times := TimesOf(calls, key);
        assert times[..|times| - 1] == TimesOf(calls[..n], key);
      } else {
        assert TimesOf(calls, key) == TimesOf(calls[..n], key);
      }
    }
  }

  // ---------------------------------------------------------------- the service

  /** What the history of the calls says about the next one. */
  lemma Recorded(calls: seq<Call>, c: Call)
    ensures Limiter(calls + [c]) == Step(Limiter(calls), c).0
    ensures ClockServes(calls + [c]) ==> Step(Limiter(calls), c).1 == PlainStep(PlainMemory(calls), c).1
  {
    OneMoreCall(calls, c);
    assert (calls + [c])[..|calls|] == calls;
    if ClockServes(calls + [c]) {
      StaysInSync(calls + [c]);
      assert SameEntryAt(calls + [c], |calls|);
    }
  }

  class RateLimitService {
    var memory: Memory
    var operations: nat
    ghost var calls: seq<Call>

    ghost predicate Valid()
      reads this
    {
      State(memory, operations) == Limiter(calls) && operations < SWEEP_EVERY
    }

    constructor ()
      ensures Valid() && calls == []
    {
      memory, operations, calls := map[], 0, [];
    }

    /**
     * A limiter that never sweeps would answer the same, unless the clock has gone back behind a sweep; a refusal
     * names the rest of the window.
     */
    method MemoryAllow(key: nat, policy: Policy, now: Instant) returns (wait: Option<int>)
      requires Valid()
      modifies this
      ensures Valid() && calls == old(calls) + [Call(key, now, policy)]
      ensures wait == Step(Limiter(old(calls)), Call(key, now, policy)).1
      ensures ClockServes(calls) ==> wait == PlainStep(PlainMemory(old(calls)), Call(key, now, policy)).1
      ensures wait.Some? && policy.windowMs > 0 ==>
        wait.value > 0 && key in memory && wait.value == memory[key].expiresAt - now
    {
      ghost var c := Call(key, now, policy);
      calls := calls + [c];
      hide Limiter, PlainMemory, ClockServes, PlainStep;
      Recorded(old(calls), c);
      SweepExpiredMemoryEntries(now);
      var entry := Entry(0, now + policy.windowMs);
      if key in memory && now < memory[key].expiresAt {
        entry := memory[key];
      }
      entry := entry.(count := entry.count + 1);
      memory := memory[key := entry];
      wait := if entry.count > policy.max then Some(entry.expiresAt - now) else None;
    }

    method SweepExpiredMemoryEntries(now: Instant)
      requires operations < SWEEP_EVERY
      modifies this`memory, this`operations
      ensures memory == if old(operations) + 1 >= SWEEP_EVERY then Swept(old(memory), now) else old(memory)
      ensures operations == if old(operations) + 1 >= SWEEP_EVERY then 0 else old(operations) + 1
      ensures old(operations) < 255 ==> memory == old(memory)
      ensures old(operations) == 255 ==> forall k :: k in memory <==> k in old(memory) && old(memory)[k].expiresAt > now
      ensures forall k | k in memory :: k in old(memory) && memory[k] == old(memory)[k]
    {
      operations := operations + 1;
      if operations < SWEEP_EVERY {
        return;
      }
      operations := 0;
      var left := memory.Keys;
      while left != {}
        invariant left <= old(memory).Keys && operations == 0
        invariant memory.Keys <= old(memory).Keys && forall k | k in memory :: memory[k] == old(memory)[k]
        invariant forall k | k in left :: k in memory
        invariant forall k | k in old(memory) && k !in left :: k in memory <==> old(memory)[k].expiresAt > now
        decreases |left|
      {
        var key :| key in left;
        if memory[key].expiresAt <= now {
          memory := memory - {key};
        }
        left := left - {key};
      }
      assert memory == Swept(old(memory), now);
    }
  }
}
