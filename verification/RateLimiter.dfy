/** InMemoryRateLimiter: admissions per key within a sliding window. */
module RateLimiter {

  /** IndexError: with a limit of zero or less the empty list has no oldest entry. */
  datatype Verdict = Admitted | Limited(retryAfter: int) | IndexError

  /** The timestamps later than `start`. */
  function Recent(ts: seq<real>, start: real): seq<real> {
    if ts == [] then []
    else
      var rest := Recent(ts[..|ts| - 1], start);
      if ts[|ts| - 1] > start then rest + [ts[|ts| - 1]] else rest
  }

  /** Python's int(): towards zero. */
  function Truncate(x: real): int {
    if x >= 0.0 then x.Floor else -((-x).Floor)
  }

  function RetryAfter(window: int, now: real, oldest: real): int {
    var wait := Truncate(window as real - (now - oldest));
    if wait > 1 then wait else 1
  }

  function Decide(kept: seq<real>, maxRequests: int, window: int, now: real): Verdict {
    if |kept| < maxRequests then Admitted
    else if kept == [] then IndexError
    else Limited(RetryAfter(window, now, kept[0]))
  }

  /** One key's list after a call. */
  function Updated(ts: seq<real>, maxRequests: int, window: int, now: real): seq<real> {
    var kept := Recent(ts, now - window as real);
    if |kept| < maxRequests then kept + [now] else kept
  }

  function Lookup(requests: map<string, seq<real>>, key: string): seq<real> {
    if key in requests then requests[key] else []
  }

  class InMemoryRateLimiter {
    var requests: map<string, seq<real>>

    constructor ()
      ensures requests == map[]
    {
      requests := map[];
    }

    /** is_rate_limited: prune the key's list, then refuse or append. Other keys stand. */
    method IsRateLimited(key: string, maxRequests: int, window: int, now: real) returns (verdict: Verdict)
      modifies this
      ensures key in requests
      ensures Slides(Lookup(old(requests), key), requests[key], now - window as real, now, verdict == Admitted)
      ensures Judges(Lookup(old(requests), key), requests[key], maxRequests, now - window as real, verdict)
      ensures requests == old(requests)[key := Updated(Lookup(old(requests), key), maxRequests, window, now)]
      ensures verdict == Decide(Recent(Lookup(old(requests), key), now - window as real), maxRequests, window, now)
    {
      hide Slides, Judges, RetryAfter;
      var stamps, start := Lookup(requests, key), now - window as real;
      var kept, i := [], 0;
      while i < |stamps|
        invariant 0 <= i <= |stamps| && kept == Recent(stamps[..i], start)
      {
        assert stamps[..i + 1][..i] == stamps[..i];
        if stamps[i] > start { kept := kept + [stamps[i]]; }
        i := i + 1;
      }
      assert stamps[..i] == stamps;
      requests := requests[key := kept];
      UpdateSlides(stamps, maxRequests, window, now);
      DecideJudges(stamps, maxRequests, window, now);
      if |kept| >= maxRequests {
        return if kept == [] then IndexError else Limited(RetryAfter(window, now, kept[0]));
      }
      requests := requests[key := kept + [now]];
      return Admitted;
    }
  }

  /** The list after a call: the timestamps inside the window, each as often as it was there, then an admitted call. */
  ghost predicate Slides(ts: seq<real>, after: seq<real>, start: real, now: real, admitted: bool) {
    && (admitted ==> after != [] && after[|after| - 1] == now)
    && forall x :: multiset(after)[x] ==
         (if x > start then multiset(ts)[x] else 0) + if admitted && x == now then 1 else 0
  }

  /**
   A call is admitted exactly if fewer than the limit are inside the window, and else told the
   whole seconds until the first of them leaves it, but at least one.
   */
  ghost predicate Judges(ts: seq<real>, after: seq<real>, maxRequests: int, start: real, verdict: Verdict) {
    var within := |set i | 0 <= i < |ts| && ts[i] > start|;
    && (verdict == Admitted <==> within < maxRequests)
    && (verdict == IndexError <==> maxRequests <= 0 == within)
    && (verdict.Limited? ==> after != [] && IsWait(verdict.retryAfter, after[0] - start))
  }

  predicate IsWait(r: int, left: real) {
    r >= 1 && left < r as real + 1.0 && (r as real <= left || r == 1)
  }

  lemma {:induction false} RecentCounts(ts: seq<real>, start: real)
    ensures |Recent(ts, start)| == |set i | 0 <= i < |ts| && ts[i] > start|
  {
    if ts != [] {
      var n, init := |ts| - 1, ts[..|ts| - 1];
      RecentCounts(init, start);
      var before := set i | 0 <= i < n && init[i] > start;
      var all := set i | 0 <= i < |ts| && ts[i] > start;
      assert n !in before;
      assert all == if ts[n] > start then before + {n} else before;
    }
  }

  lemma WaitIs(window: int, now: real, oldest: real)
    requires oldest > now - window as real
    ensures IsWait(RetryAfter(window, now, oldest), oldest - (now - window as real))
  {
  }

  lemma UpdateSlides(ts: seq<real>, maxRequests: int, window: int, now: real)
    ensures Slides(ts, Updated(ts, maxRequests, window, now), now - window as real, now,
                   |Recent(ts, now - window as real)| < maxRequests)
  {
    hide Recent;
    forall x: real { RecentIsTheWindow(ts, now - window as real, x); }
  }

  lemma DecideJudges(ts: seq<real>, maxRequests: int, window: int, now: real)
    ensures var kept := Recent(ts, now - window as real);
            Judges(ts, Updated(ts, maxRequests, window, now), maxRequests, now - window as real,
                   Decide(kept, maxRequests, window, now))
  {
    hide Recent, RetryAfter, IsWait;
    var start := now - window as real;
    var kept := Recent(ts, start);
    RecentCounts(ts, start);
    if kept != [] {
      RecentIsTheWindow(ts, start, kept[0]);
      assert multiset(kept)[kept[0]] > 0;
      WaitIs(window, now, kept[0]);
    }
  }

  // ---------------------------------------------------------------- one key over time

  ghost predicate Ascending(ts: seq<real>) {
    forall i, j :: 0 <= i < j < |ts| ==> ts[i] <= ts[j]
  }

  /** The key's pruned list after calls at the given times. */
  function Kept(times: seq<real>, maxRequests: int, window: int): seq<real> {
    if times == [] then []
    else Updated(Kept(times[..|times| - 1], maxRequests, window), maxRequests, window, times[|times| - 1])
  }

  /** A full history after a call that is decided by it. */
  function Extended(all: seq<real>, maxRequests: int, window: int, now: real): seq<real> {
    if |Recent(all, now - window as real)| < maxRequests then all + [now] else all
  }

  /** All admissions ever, when every decision looks at the full history. */
  function Admissions(times: seq<real>, maxRequests: int, window: int): seq<real> {
    if times == [] then []
    else Extended(Admissions(times[..|times| - 1], maxRequests, window), maxRequests, window, times[|times| - 1])
  }

  lemma {:induction false} RecentTwice(ts: seq<real>, a: real, b: real)
    requires a <= b
    ensures Recent(Recent(ts, a), b) == Recent(ts, b)
  {
    if ts != [] {
      RecentTwice(ts[..|ts| - 1], a, b);
      var r, x := Recent(ts[..|ts| - 1], a), ts[|ts| - 1];
      assert (r + [x])[..|r|] == r;
    }
  }

  /** Pruning keeps exactly the timestamps inside the window, each as often as it was there. */
  lemma {:induction false} RecentIsTheWindow(ts: seq<real>, start: real, x: real)
    ensures multiset(Recent(ts, start))[x] == if x > start then multiset(ts)[x] else 0
  {
    if ts != [] {
      var init, last := ts[..|ts| - 1], ts[|ts| - 1];
      assert ts == init + [last];
      RecentIsTheWindow(init, start, x);
    }
  }

  lemma RecentAppend(ts: seq<real>, x: real, a: real)
    ensures Recent(ts + [x], a) == if x > a then Recent(ts, a) + [x] else Recent(ts, a)
  {
    assert (ts + [x])[..|ts|] == ts;
  }

  lemma PruneStep(kept: seq<real>, all: seq<real>, maxRequests: int, window: int, now: real, t: real)
    requires now <= t && Recent(kept, now - window as real) == Recent(all, now - window as real)
    requires Recent(kept, t - window as real) == Recent(all, t - window as real)
    ensures Recent(Updated(kept, maxRequests, window, now), t - window as real)
         == Recent(Extended(all, maxRequests, window, now), t - window as real)
  {
    hide Recent;
    var w := window as real;
    RecentTwice(kept, now - w, t - w);
    RecentAppend(Recent(kept, now - w), now, t - w);
    RecentAppend(all, now, t - w);
  }

  /** Pruning never changes a decision: from the last call on, the list shows what the full history would. */
  lemma {:induction false} PruningIsExact(times: seq<real>, maxRequests: int, window: int, t: real)
    requires Ascending(times) && (times != [] ==> times[|times| - 1] <= t)
    ensures Recent(Kept(times, maxRequests, window), t - window as real)
         == Recent(Admissions(times, maxRequests, window), t - window as real)
  {
    hide Recent, Updated, Extended;
    if times != [] {
      var init, now := times[..|times| - 1], times[|times| - 1];
      PruningIsExact(init, maxRequests, window, now);
      PruningIsExact(init, maxRequests, window, t);
      PruneStep(Kept(init, maxRequests, window), Admissions(init, maxRequests, window), maxRequests, window, now, t);
    }
  }

  /** The verdict of the next call is that of the full history, and the history grows by it exactly if admitted. */
  lemma DecidesLikeHistory(times: seq<real>, maxRequests: int, window: int, now: real)
    requires Ascending(times) && (times != [] ==> times[|times| - 1] <= now)
    ensures var history := Recent(Admissions(times, maxRequests, window), now - window as real);
            var kept := Recent(Kept(times, maxRequests, window), now - window as real);
            var verdict := Decide(kept, maxRequests, window, now);
            && verdict == Decide(history, maxRequests, window, now)
            && Admissions(times + [now], maxRequests, window) ==
               Admissions(times, maxRequests, window) + if verdict.Admitted? then [now] else []
  {
    hide Recent;
    assert (times + [now])[..|times|] == times;
    PruningIsExact(times, maxRequests, window, now);
    var all := Admissions(times, maxRequests, window);
    assert all + [] == all;
  }

  // ---------------------------------------------------------------- the window bound

  lemma {:induction false} AdmissionsFromTimes(times: seq<real>, maxRequests: int, window: int)
    requires Ascending(times)
    ensures Ascending(Admissions(times, maxRequests, window))
    ensures forall i :: 0 <= i < |Admissions(times, maxRequests, window)| ==>
              times != [] && Admissions(times, maxRequests, window)[i] <= times[|times| - 1]
  {
    if times != [] { AdmissionsFromTimes(times[..|times| - 1], maxRequests, window); }
  }

  /** If the m-th last of an ascending list is still recent, at least m are. */
  lemma {:induction false} LateSuffix(ts: seq<real>, a: real, m: nat)
    requires Ascending(ts) && m <= |ts| && (m > 0 ==> ts[|ts| - m] > a)
    ensures |Recent(ts, a)| >= m
  {
    if m > 0 { LateSuffix(ts[..|ts| - 1], a, m - 1); }
  }

  /** The admission after the next max ones came at least a window later. */
  ghost predicate Spaced(ts: seq<real>, m: nat, window: int) {
    forall i :: m <= i < |ts| ==> ts[i - m] <= ts[i] - window as real
  }

  lemma ExtendedSpaced(all: seq<real>, m: nat, window: int, now: real)
    requires Ascending(all) && Spaced(all, m, window)
    ensures Spaced(Extended(all, m, window, now), m, window)
  {
    hide Recent;
    if m <= |all| && (m > 0 ==> all[|all| - m] > now - window as real) {
      LateSuffix(all, now - window as real, m);
    }
  }

  lemma {:induction false} AdmissionsSpaced(times: seq<real>, maxRequests: nat, window: int)
    requires Ascending(times)
    ensures Spaced(Admissions(times, maxRequests, window), maxRequests, window)
  {
    hide Extended;
    if times != [] {
      var init := times[..|times| - 1];
      AdmissionsSpaced(init, maxRequests, window);
      AdmissionsFromTimes(init, maxRequests, window);
      ExtendedSpaced(Admissions(init, maxRequests, window), maxRequests, window, times[|times| - 1]);
    }
  }

  /** How many timestamps fall into [a, b). */
  function CountIn(ts: seq<real>, a: real, b: real): nat {
    if ts == [] then 0
    else CountIn(ts[..|ts| - 1], a, b) + if a <= ts[|ts| - 1] < b then 1 else 0
  }

  lemma {:induction false} CountFrom(ts: seq<real>, a: real, b: real, lo: nat)
    requires lo <= |ts| && forall i :: 0 <= i < lo ==> ts[i] < a
    ensures CountIn(ts, a, b) <= |ts| - lo
  {
    if |ts| > lo { CountFrom(ts[..|ts| - 1], a, b, lo); }
    else if ts != [] { CountFrom(ts[..|ts| - 1], a, b, lo - 1); }
  }

  lemma {:induction false} SpacedCount(ts: seq<real>, m: nat, window: int, a: real)
    requires Ascending(ts) && Spaced(ts, m, window)
    ensures CountIn(ts, a, a + window as real) <= m
  {
    if ts != [] {
      var last := |ts| - 1;
      SpacedCount(ts[..last], m, window, a);
      if a <= ts[last] < a + window as real {
        if m <= last {
          assert ts[last - m] <= ts[last] - window as real < a;
          CountFrom(ts, a, a + window as real, last - m + 1);
        } else {
          CountFrom(ts, a, a + window as real, 0);
        }
      }
    }
  }

  lemma {:induction false} NothingAdmitted(times: seq<real>, maxRequests: int, window: int)
    requires maxRequests <= 0
    ensures Admissions(times, maxRequests, window) == []
  {
    if times != [] { NothingAdmitted(times[..|times| - 1], maxRequests, window); }
  }

  /** Any half-open interval one window long holds at most max_requests admissions. */
  lemma WindowBound(times: seq<real>, maxRequests: int, window: int, a: real)
    requires Ascending(times)
    ensures CountIn(Admissions(times, maxRequests, window), a, a + window as real)
         <= if maxRequests < 0 then 0 else maxRequests
  {
    if maxRequests < 0 {
      NothingAdmitted(times, maxRequests, window);
      return;
    }
    AdmissionsSpaced(times, maxRequests, window);
    AdmissionsFromTimes(times, maxRequests, window);
    SpacedCount(Admissions(times, maxRequests, window), maxRequests, window, a);
  }

  // ---------------------------------------------------------------- waiting

  lemma {:induction false} RecentFacts(ts: seq<real>, a: real)
    ensures |Recent(ts, a)| <= |ts|
    ensures forall i :: 0 <= i < |Recent(ts, a)| ==> Recent(ts, a)[i] > a && Recent(ts, a)[i] in ts
    ensures Ascending(ts) ==> Ascending(Recent(ts, a))
  {
    if ts != [] { RecentFacts(ts[..|ts| - 1], a); }
  }

  /** The list never outgrows the limit and stays in order. */
  lemma {:induction false} KeptFacts(times: seq<real>, maxRequests: nat, window: int)
    requires Ascending(times)
    ensures var kept := Kept(times, maxRequests, window);
            && |kept| <= maxRequests && Ascending(kept)
            && (times != [] ==> forall i :: 0 <= i < |kept| ==> kept[i] <= times[|times| - 1])
  {
    hide Recent;
    if times != [] {
      var init, now := times[..|times| - 1], times[|times| - 1];
      KeptFacts(init, maxRequests, window);
      RecentFacts(Kept(init, maxRequests, window), now - window as real);
    }
  }

  lemma {:induction false} AllRecent(ts: seq<real>, a: real)
    requires Ascending(ts)
    ensures |Recent(ts, a)| == |ts| <==> (ts == [] || ts[0] > a)
  {
    if ts != [] {
      RecentFacts(ts[..|ts| - 1], a);
      AllRecent(ts[..|ts| - 1], a);
    }
  }

  lemma {:induction false} NothingKept(times: seq<real>, maxRequests: int, window: int)
    requires maxRequests <= 0
    ensures Kept(times, maxRequests, window) == []
  {
    if times != [] { NothingKept(times[..|times| - 1], maxRequests, window); }
  }

  /** After any calls, the next one raises IndexError exactly if the limit is zero or less. */
  lemma IndexErrorIff(times: seq<real>, maxRequests: int, window: int, now: real)
    ensures Decide(Recent(Kept(times, maxRequests, window), now - window as real), maxRequests, window, now).IndexError?
        <==> maxRequests <= 0
  {
    if maxRequests <= 0 { NothingKept(times, maxRequests, window); }
  }

  /** A full list refuses until its oldest entry leaves the window. */
  lemma FullListRefuses(ts: seq<real>, maxRequests: nat, window: int, now: real, later: real)
    requires Ascending(ts) && |ts| <= maxRequests && now <= later
    requires Decide(Recent(ts, now - window as real), maxRequests, window, now).Limited?
    ensures var kept := Updated(ts, maxRequests, window, now);
            var again := Decide(Recent(kept, later - window as real), maxRequests, window, later);
            && kept == Recent(ts, now - window as real) && kept != [] && kept[0] > now - window as real
            && (again == Admitted <==> kept[0] + window as real <= later)
  {
    hide Recent;
    RecentFacts(ts, now - window as real);
    var kept := Recent(ts, now - window as real);
    AllRecent(kept, later - window as real);
    RecentFacts(kept, later - window as real);
  }

  /** What a caller whose call at `now` is refused sees on trying again at `later`, with no call in between. */
  function SecondTry(times: seq<real>, maxRequests: nat, window: int, now: real, later: real): Verdict {
    var kept := Updated(Kept(times, maxRequests, window), maxRequests, window, now);
    Decide(Recent(kept, later - window as real), maxRequests, window, later)
  }

  /** The seconds until the oldest counted admission leaves the window. */
  function Wait(times: seq<real>, maxRequests: nat, window: int, now: real): real {
    var kept := Recent(Kept(times, maxRequests, window), now - window as real);
    if kept == [] then 0.0 else window as real - (now - kept[0])
  }

  /**
   Waiting retry_after + 1 seconds is always enough; waiting exactly retry_after is enough exactly
   if the remaining time is a whole number of seconds or at most one.
   */
  lemma RetryAfterSuffices(times: seq<real>, maxRequests: nat, window: int, now: real)
    requires Ascending(times)
    requires Decide(Recent(Kept(times, maxRequests, window), now - window as real), maxRequests, window, now).Limited?
    ensures var kept := Recent(Kept(times, maxRequests, window), now - window as real);
            var r := Decide(kept, maxRequests, window, now).retryAfter;
            var x := Wait(times, maxRequests, window, now);
            var exactly := SecondTry(times, maxRequests, window, now, now + r as real);
            && r >= 1 && (r as real <= x || r == 1) && x < r as real + 1.0
            && SecondTry(times, maxRequests, window, now, now + r as real + 1.0) == Admitted
            && (exactly == Admitted <==> (x <= 1.0 || x == x.Floor as real))
  {
    hide Recent, Kept;
    KeptFacts(times, maxRequests, window);
    var ts := Kept(times, maxRequests, window);
    var r := Decide(Recent(ts, now - window as real), maxRequests, window, now).retryAfter;
    FullListRefuses(ts, maxRequests, window, now, now + r as real + 1.0);
    FullListRefuses(ts, maxRequests, window, now, now + r as real);
  }

  // ---------------------------------------------------------------- many keys

  datatype Request = Request(key: string, time: real)

  /** The dictionary after a run of calls, each key with its own fixed limits. */
  function Requests(calls: seq<Request>, maxRequests: string -> int, window: string -> int): map<string, seq<real>> {
    if calls == [] then map[]
    else
      var before, c := Requests(calls[..|calls| - 1], maxRequests, window), calls[|calls| - 1];
      before[c.key := Updated(Lookup(before, c.key), maxRequests(c.key), window(c.key), c.time)]
  }

  function TimesOf(calls: seq<Request>, key: string): seq<real> {
    if calls == [] then []
    else TimesOf(calls[..|calls| - 1], key) + if calls[|calls| - 1].key == key then [calls[|calls| - 1].time] else []
  }

  /** Keys never affect each other: a key's list is what its own calls alone would have left. */
  lemma {:induction false} KeysAreIndependent(calls: seq<Request>, maxRequests: string -> int,
                                              window: string -> int, key: string)
    ensures Lookup(Requests(calls, maxRequests, window), key)
         == Kept(TimesOf(calls, key), maxRequests(key), window(key))
  {
    if calls != [] {
      KeysAreIndependent(calls[..|calls| - 1], maxRequests, window, key);
      var before, c := TimesOf(calls[..|calls| - 1], key), calls[|calls| - 1];
      if c.key == key {
        assert (before + [c.time])[..|before|] == before;
      } else {
        assert before + [] == before;
      }
    }
  }
}
