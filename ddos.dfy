/** The three request-admission leaves of the ddos layer: a process-wide
    fixed-window request counter with an "under attack" flag, a deny-list whose
    entries expire, and a per-client activity detector (failure streaks, path
    diversity, request bursts).

    Every leaf is a class whose fields are the Rust struct's mutex-guarded
    maps, counters and flag; each method is one atomic step. Time is passed in as
    `now`, in milliseconds. Each mutating method is specified by a pure step
    function of the old field values; the properties of the detector are proved
    about those functions. */
module Ddos {
  import opened Net

  /** `Instant::duration_since` in milliseconds: it saturates at zero when
      `since` is later than `now`. */
  function Elapsed(now: nat, since: nat): nat {
    if now >= since then now - since else 0
  }

  // ------------------------------------------------------------------------
  // GlobalRateLimiter

  /** The limiter's mutable fields: requests counted in the current window, the
      window's start, and the attack flag. */
  datatype WindowState = WindowState(count: nat, windowStart: nat, underAttack: bool)

  /** The rollover test "requests per second over the closed window exceed 80% of
      the allowed requests per second", over exact reals. With a zero window the
      f64 threshold is infinite or NaN, and the comparison never holds. */
  predicate RateIndicatesAttack(count: nat, elapsed: nat, maxRequests: nat, window: nat) {
    window > 0 && elapsed > 0 &&
    (count as real) / (elapsed as real / 1000.0) > (maxRequests as real) / (window as real / 1000.0) * 0.8
  }

  /** The rate test needs no division: it is `5 * count * window > 4 * max * elapsed`. */
  lemma RateTestCrossMultiplied(count: nat, elapsed: nat, maxRequests: nat, window: nat)
    requires window > 0 && elapsed > 0
    ensures RateIndicatesAttack(count, elapsed, maxRequests, window)
        <==> 5 * count * window > 4 * maxRequests * elapsed
  {
    var c, e, m, w := count as real, elapsed as real, maxRequests as real, window as real;
    assert c / (e / 1000.0) == 1000.0 * c / e;
    assert m / (w / 1000.0) * 0.8 == 800.0 * m / w;
    assert 1000.0 * c / e > 800.0 * m / w <==> 1000.0 * c * w > 800.0 * m * e by {
      var x, y := 1000.0 * c / e, 800.0 * m / w;
      assert x * e == 1000.0 * c;
      assert y * w == 800.0 * m;
      assert x * e * w == 1000.0 * c * w;
      assert y * w * e == 800.0 * m * e;
      assert x > y <==> x * (e * w) > y * (e * w);
    }
    assert (5 * count * window) as real == 5.0 * c * w;
    assert (4 * maxRequests * elapsed) as real == 4.0 * m * e;
  }

  /** One `track_request` at time `now`: a rollover when a whole window has
      elapsed, otherwise a count within the window with the hard cap. */
  function Track(s: WindowState, now: nat, maxRequests: nat, window: nat): WindowState {
    var elapsed := Elapsed(now, s.windowStart);
    if elapsed >= window then
      WindowState(1, now, RateIndicatesAttack(s.count, elapsed, maxRequests, window))
    else
      WindowState(s.count + 1, s.windowStart, s.underAttack || s.count + 1 > maxRequests)
  }

  /** What successive `track_request` calls at `times` return. */
  function Answers(s: WindowState, times: seq<nat>, maxRequests: nat, window: nat): (r: seq<bool>)
    ensures |r| == |times|
    decreases |times|
  {
    if times == [] then []
    else
      var next := Track(s, times[0], maxRequests, window);
      [next.underAttack] + Answers(next, times[1..], maxRequests, window)
  }

  /** The state after successive `track_request` calls at `times`. */
  function TrackAll(s: WindowState, times: seq<nat>, maxRequests: nat, window: nat): WindowState
    decreases |times|
  {
    if times == [] then s else TrackAll(Track(s, times[0], maxRequests, window), times[1..], maxRequests, window)
  }

  /** Within one window every call adds one to the count and keeps the window's
      start; the flag is the old flag or the hard cap being passed. */
  lemma {:induction false} WithinWindowCounts(s: WindowState, times: seq<nat>, maxRequests: nat, window: nat)
    requires forall i :: 0 <= i < |times| ==> Elapsed(times[i], s.windowStart) < window
    ensures var r := TrackAll(s, times, maxRequests, window);
      r.windowStart == s.windowStart && r.count == s.count + |times|
      && r.underAttack == (s.underAttack || (|times| > 0 && s.count + |times| > maxRequests))
    decreases |times|
  {
    if times != [] {
      var next := Track(s, times[0], maxRequests, window);
      WithinWindowCounts(next, times[1..], maxRequests, window);
    }
  }

  /** Once the flag is set, or the count has reached the cap, every further call
      in the same window answers "under attack": only a rollover clears it. */
  lemma {:induction false} AttackAnsweredUntilRollover(s: WindowState, times: seq<nat>, maxRequests: nat, window: nat)
    requires s.underAttack || s.count >= maxRequests
    requires forall i :: 0 <= i < |times| ==> Elapsed(times[i], s.windowStart) < window
    ensures forall i :: 0 <= i < |times| ==> Answers(s, times, maxRequests, window)[i]
    decreases |times|
  {
    if times != [] {
      var next := Track(s, times[0], maxRequests, window);
      assert next.underAttack && next.windowStart == s.windowStart;
      AttackAnsweredUntilRollover(next, times[1..], maxRequests, window);
      assert Answers(s, times, maxRequests, window) == [true] + Answers(next, times[1..], maxRequests, window);
    }
  }

  /** A rollover starts a fresh window holding this one request, and the flag
      becomes exactly the rate test on the closed window. */
  lemma RolloverResets(s: WindowState, now: nat, maxRequests: nat, window: nat)
    requires Elapsed(now, s.windowStart) >= window
    ensures var r := Track(s, now, maxRequests, window);
      r.count == 1 && r.windowStart == now
      && r.underAttack == RateIndicatesAttack(s.count, Elapsed(now, s.windowStart), maxRequests, window)
  {
  }

  class GlobalRateLimiter {
    var totalRequests: nat
    var lastReset: nat
    var underAttack: bool
    const maxRequests: nat
    /** The window, in milliseconds. */
    const window: nat

    function State(): WindowState
      reads this
    {
      WindowState(totalRequests, lastReset, underAttack)
    }

    /** `GlobalRateLimiter::new(max_requests, window_seconds)`, created at `now`. */
    constructor (maxRequests: nat, windowSeconds: nat, now: nat)
      ensures State() == WindowState(0, now, false)
      ensures this.maxRequests == maxRequests && window == windowSeconds * 1000
    {
      totalRequests := 0;
      lastReset := now;
      underAttack := false;
      this.maxRequests := maxRequests;
      window := windowSeconds * 1000;
    }

    /** Counts one request and answers whether the system is under attack. */
    method TrackRequest(now: nat) returns (attack: bool)
      modifies this
      ensures State() == Track(old(State()), now, maxRequests, window)
      ensures attack == underAttack
    {
      var elapsed := Elapsed(now, lastReset);
      if elapsed >= window {
        var rateAttack := RateIndicatesAttack(totalRequests, elapsed, maxRequests, window);
        totalRequests := 1;
        lastReset := now;
        underAttack := rateAttack;
      } else {
        totalRequests := totalRequests + 1;
        if totalRequests > maxRequests {
          underAttack := true;
          return true;
        }
      }
      return underAttack;
    }

    method IsUnderAttack() returns (attack: bool)
      ensures attack == underAttack
    {
      return underAttack;
    }
  }

  /** Six requests within two seconds against a limit of five per ten seconds:
      the sixth call trips the flag, and the flag reads as set right after. */
  method HardCapScenario() returns (answers: seq<bool>, flagAfter: bool)
    ensures answers == [false, false, false, false, false, true]
    ensures flagAfter
  {
    var limiter := new GlobalRateLimiter(5, 10, 0);
    answers := [];
    var t := 0;
    while t < 6
      invariant 0 <= t <= 6
      invariant limiter.lastReset == 0 && limiter.totalRequests == t && limiter.window == 10000
      invariant limiter.maxRequests == 5 && limiter.underAttack == (t > 5)
      invariant answers == seq(t, i => i >= 5)
    {
      var a := limiter.TrackRequest(400 * t);
      answers := answers + [a];
      t := t + 1;
    }
    flagAfter := limiter.IsUnderAttack();
  }

  // ------------------------------------------------------------------------
  // IpBlacklist

  /** `block_minutes` as milliseconds. */
  function BlockDuration(blockMinutes: nat): nat {
    blockMinutes * 60 * 1000
  }

  /** The entry for `ip` exists and is younger than the block duration. */
  predicate IsBlocked(blocked: map<IpAddr, nat>, ip: IpAddr, now: nat, duration: nat) {
    ip in blocked && Elapsed(now, blocked[ip]) < duration
  }

  /** The deny-list after `is_blacklisted(ip)`: an expired entry for `ip` is
      dropped, everything else stays. */
  function AfterLookup(blocked: map<IpAddr, nat>, ip: IpAddr, now: nat, duration: nat): map<IpAddr, nat> {
    if ip in blocked && !IsBlocked(blocked, ip, now, duration) then blocked - {ip} else blocked
  }

  /** The deny-list after the periodic sweep: the entries younger than the block duration. */
  function Unexpired(blocked: map<IpAddr, nat>, now: nat, duration: nat): map<IpAddr, nat> {
    map ip | ip in blocked && Elapsed(now, blocked[ip]) < duration :: blocked[ip]
  }

  /** The sweep keeps exactly the entries a lookup would still answer "blocked"
      for, unchanged; a lookup and the sweep agree on the looked-up entry and the
      lookup touches no other entry. Sweeping twice at the same time is sweeping once. */
  lemma SweepAgreesWithLookup(blocked: map<IpAddr, nat>, ip: IpAddr, now: nat, duration: nat)
    ensures var swept := Unexpired(blocked, now, duration);
      (forall x :: x in swept <==> IsBlocked(blocked, x, now, duration))
      && (forall x | x in swept :: swept[x] == blocked[x])
      && (ip in AfterLookup(blocked, ip, now, duration) <==> ip in swept)
      && (forall x | x != ip :: (x in AfterLookup(blocked, ip, now, duration)) == (x in blocked))
      && Unexpired(swept, now, duration) == swept
  {
  }

  /** A client blacklisted at `t` is denied at every check in [t, t + duration)
      and admitted again from t + duration on, unless re-blacklisted in between. */
  lemma BlockLastsExactlyDuration(blocked: map<IpAddr, nat>, ip: IpAddr, t: nat, now: nat, duration: nat)
    requires t <= now
    ensures IsBlocked(blocked[ip := t], ip, now, duration) <==> now < t + duration
  {
  }

  class IpBlacklist {
    /** Blocked clients and the time each was (last) blocked. */
    var blockedIps: map<IpAddr, nat>
    /** The block duration, in milliseconds. */
    const blockDuration: nat

    /** `IpBlacklist::new(block_minutes)`. */
    constructor (blockMinutes: nat)
      ensures blockedIps == map[] && blockDuration == BlockDuration(blockMinutes)
    {
      blockedIps := map[];
      blockDuration := BlockDuration(blockMinutes);
    }

    /** True for an unexpired entry; an expired entry is removed on the way. */
    method IsBlacklisted(ip: IpAddr, now: nat) returns (blocked: bool)
      modifies this
      ensures blocked == IsBlocked(old(blockedIps), ip, now, blockDuration)
      ensures blockedIps == AfterLookup(old(blockedIps), ip, now, blockDuration)
    {
      if ip in blockedIps {
        if Elapsed(now, blockedIps[ip]) < blockDuration {
          return true;
        } else {
          blockedIps := blockedIps - {ip};
          return false;
        }
      }
      return false;
    }

    /** Inserts or overwrites the entry: re-blacklisting restarts the clock. */
    method BlacklistIp(ip: IpAddr, now: nat)
      modifies this
      ensures blockedIps == old(blockedIps)[ip := now]
    {
      blockedIps := blockedIps[ip := now];
    }

    method Cleanup(now: nat)
      modifies this
      ensures blockedIps == Unexpired(old(blockedIps), now, blockDuration)
    {
      blockedIps := map ip | ip in blockedIps && Elapsed(now, blockedIps[ip]) < blockDuration :: blockedIps[ip];
    }
  }

  // ------------------------------------------------------------------------
  // ActivityDetector

  /** The result of one detector check: whether it signals a violation, and the
      tracking map afterwards. */
  datatype Verdict<S> = Verdict(violation: bool, state: S)

  /** Every stored failure counter is positive and below the threshold. */
  predicate FailuresBounded(failures: map<IpAddr, nat>, maxFailures: nat) {
    forall ip | ip in failures :: 0 < failures[ip] < maxFailures
  }

  /** Every stored path set is non-empty and no larger than the threshold. */
  predicate PathsBounded(paths: map<IpAddr, set<string>>, maxDiversity: nat) {
    forall ip | ip in paths :: 0 < |paths[ip]| <= maxDiversity
  }

  /** No stored timing list is empty. */
  predicate TimingsNonEmpty(timings: map<IpAddr, seq<nat>>) {
    forall ip | ip in timings :: timings[ip] != []
  }

  /** `track_failure`: add one failure (the first one counts 1); reaching the
      threshold removes the counter and signals a violation. */
  function FailureStep(failures: map<IpAddr, nat>, ip: IpAddr, maxFailures: nat): Verdict<map<IpAddr, nat>> {
    var count := if ip in failures then failures[ip] + 1 else 1;
    if count >= maxFailures then Verdict(true, failures - {ip})
    else Verdict(false, failures[ip := count])
  }

  lemma FailureStepKeepsBound(failures: map<IpAddr, nat>, ip: IpAddr, maxFailures: nat)
    requires FailuresBounded(failures, maxFailures)
    ensures FailuresBounded(FailureStep(failures, ip, maxFailures).state, maxFailures)
    ensures FailureStep(failures, ip, maxFailures).state.Keys <= failures.Keys + {ip}
  {
  }

  /** The counters after `k` failures of `ip` in a row. */
  function FailureStreak(failures: map<IpAddr, nat>, ip: IpAddr, k: nat, maxFailures: nat): map<IpAddr, nat> {
    if k == 0 then failures else FailureStep(FailureStreak(failures, ip, k - 1, maxFailures), ip, maxFailures).state
  }

  /** From a clean record, the first `maxFailures - 1` failures are counted one
      by one without a violation, and the next one is the violation that removes
      the counter. */
  lemma {:induction false} StreakReachesThreshold(failures: map<IpAddr, nat>, ip: IpAddr, k: nat, maxFailures: nat)
    requires ip !in failures && k < maxFailures
    ensures k == 0 ==> ip !in FailureStreak(failures, ip, k, maxFailures)
    ensures k > 0 ==> ip in FailureStreak(failures, ip, k, maxFailures) && FailureStreak(failures, ip, k, maxFailures)[ip] == k
    ensures k > 0 ==> !FailureStep(FailureStreak(failures, ip, k - 1, maxFailures), ip, maxFailures).violation
    ensures k == maxFailures - 1 ==> var last := FailureStep(FailureStreak(failures, ip, k, maxFailures), ip, maxFailures);
      last.violation && ip !in last.state
  {
    if k > 0 {
      StreakReachesThreshold(failures, ip, k - 1, maxFailures);
    }
  }

  /** `track_path`: add the path to the client's set; a set larger than the
      threshold is removed and signals a violation. */
  function PathStep(paths: map<IpAddr, set<string>>, ip: IpAddr, path: string, maxDiversity: nat): Verdict<map<IpAddr, set<string>>> {
    var seen := (if ip in paths then paths[ip] else {}) + {path};
    if |seen| > maxDiversity then Verdict(true, paths - {ip})
    else Verdict(false, paths[ip := seen])
  }

  lemma PathStepKeepsBound(paths: map<IpAddr, set<string>>, ip: IpAddr, path: string, maxDiversity: nat)
    requires PathsBounded(paths, maxDiversity)
    ensures PathsBounded(PathStep(paths, ip, path, maxDiversity).state, maxDiversity)
  {
  }

  /** Requesting a path the client has already requested changes nothing and is
      never a violation: one endpoint hit repeatedly does not grow the signal. */
  lemma SeenPathChangesNothing(paths: map<IpAddr, set<string>>, ip: IpAddr, path: string, maxDiversity: nat)
    requires PathsBounded(paths, maxDiversity)
    requires ip in paths && path in paths[ip]
    ensures PathStep(paths, ip, path, maxDiversity) == Verdict(false, paths)
  {
    assert paths[ip] + {path} == paths[ip];
    assert paths[ip := paths[ip]] == paths;
  }

  /** With a threshold of two, a client requesting "/a", "/b", "/c" in turn is
      flagged on the third request and its path set is gone. */
  lemma ThirdDistinctPathFlagged(paths: map<IpAddr, set<string>>, ip: IpAddr)
    requires ip !in paths
    ensures var first := PathStep(paths, ip, "/a", 2);
      var second := PathStep(first.state, ip, "/b", 2);
      var third := PathStep(second.state, ip, "/c", 2);
      !first.violation && !second.violation && third.violation && ip !in third.state
  {
    var first := PathStep(paths, ip, "/a", 2);
    assert first.state[ip] == {"/a"};
    var second := PathStep(first.state, ip, "/b", 2);
    assert "/a" != "/b";
    assert second.state[ip] == {"/a", "/b"};
    assert "/c" != "/a" && "/c" != "/b";
    assert |{"/a", "/b"} + {"/c"}| == 3;
  }

  /** The paths a client has requested so far, as `track_path` reads them. */
  function SeenPaths(paths: map<IpAddr, set<string>>, ip: IpAddr): set<string> {
    if ip in paths then paths[ip] else {}
  }

  /** What successive `track_path(ip, path)` calls for the paths `ps` report. */
  function PathAnswers(paths: map<IpAddr, set<string>>, ip: IpAddr, ps: seq<string>, maxDiversity: nat): (r: seq<bool>)
    ensures |r| == |ps|
    decreases |ps|
  {
    if ps == [] then []
    else
      var step := PathStep(paths, ip, ps[0], maxDiversity);
      [step.violation] + PathAnswers(step.state, ip, ps[1..], maxDiversity)
  }

  /** The path map after those calls. */
  function PathRun(paths: map<IpAddr, set<string>>, ip: IpAddr, ps: seq<string>, maxDiversity: nat): map<IpAddr, set<string>>
    decreases |ps|
  {
    if ps == [] then paths
    else PathRun(PathStep(paths, ip, ps[0], maxDiversity).state, ip, ps[1..], maxDiversity)
  }

  /** A path the client has not requested before grows its set by one, or, if
      that takes the set past the threshold, is the violation that removes the
      set. */
  lemma NewPathStep(paths: map<IpAddr, set<string>>, ip: IpAddr, path: string, maxDiversity: nat)
    requires path !in SeenPaths(paths, ip)
    ensures var step := PathStep(paths, ip, path, maxDiversity);
      (step.violation <==> |SeenPaths(paths, ip)| + 1 > maxDiversity)
      && (step.violation ==> ip !in step.state)
      && (!step.violation ==> SeenPaths(step.state, ip) == SeenPaths(paths, ip) + {path})
      && |SeenPaths(paths, ip) + {path}| == |SeenPaths(paths, ip)| + 1
  {
  }

  /** Paths that are pairwise distinct and new to the client. */
  predicate FreshDistinct(paths: map<IpAddr, set<string>>, ip: IpAddr, ps: seq<string>) {
    (forall i, j :: 0 <= i < j < |ps| ==> ps[i] != ps[j])
    && (forall i :: 0 <= i < |ps| ==> ps[i] !in SeenPaths(paths, ip))
  }

  /** After one new path that is not a violation, the remaining paths are still
      fresh and distinct. */
  lemma FreshDistinctTail(paths: map<IpAddr, set<string>>, ip: IpAddr, ps: seq<string>, maxDiversity: nat)
    requires ps != [] && FreshDistinct(paths, ip, ps)
    requires !PathStep(paths, ip, ps[0], maxDiversity).violation
    ensures FreshDistinct(PathStep(paths, ip, ps[0], maxDiversity).state, ip, ps[1..])
  {
    NewPathStep(paths, ip, ps[0], maxDiversity);
    var seen' := SeenPaths(paths, ip) + {ps[0]};
    forall i | 0 <= i < |ps[1..]|
      ensures ps[1..][i] !in seen'
    {
      assert ps[1..][i] == ps[i + 1] != ps[0];
    }
  }

  /** A client requesting pairwise distinct paths it has not requested before
      is flagged exactly on the request that takes its set past the threshold:
      the 21st distinct path of a clean client with the default threshold. */
  lemma {:induction false} DistinctPathsFlaggedPastThreshold(paths: map<IpAddr, set<string>>, ip: IpAddr,
                                                            ps: seq<string>, maxDiversity: nat)
    requires FreshDistinct(paths, ip, ps)
    requires |SeenPaths(paths, ip)| + |ps| <= maxDiversity + 1
    ensures forall i :: 0 <= i < |ps| ==>
      (PathAnswers(paths, ip, ps, maxDiversity)[i] <==> |SeenPaths(paths, ip)| + i >= maxDiversity)
    decreases |ps|
  {
    if ps != [] {
      var seen := SeenPaths(paths, ip);
      var step := PathStep(paths, ip, ps[0], maxDiversity);
      NewPathStep(paths, ip, ps[0], maxDiversity);
      var rest := PathAnswers(step.state, ip, ps[1..], maxDiversity);
      var answers := PathAnswers(paths, ip, ps, maxDiversity);
      assert answers == [step.violation] + rest;
      if !step.violation {
        FreshDistinctTail(paths, ip, ps, maxDiversity);
        DistinctPathsFlaggedPastThreshold(step.state, ip, ps[1..], maxDiversity);
        forall i | 0 < i < |ps|
          ensures answers[i] <==> |seen| + i >= maxDiversity
        {
          assert answers[i] == rest[i - 1];
        }
      }
    }
  }

  /** Along such a run the client's set grows by one path per request, and the
      request that takes it past the threshold removes it. */
  lemma {:induction false} DistinctPathsGrowThenReset(paths: map<IpAddr, set<string>>, ip: IpAddr,
                                                     ps: seq<string>, maxDiversity: nat)
    requires FreshDistinct(paths, ip, ps)
    requires |SeenPaths(paths, ip)| + |ps| <= maxDiversity + 1
    ensures |SeenPaths(paths, ip)| + |ps| <= maxDiversity ==>
      |SeenPaths(PathRun(paths, ip, ps, maxDiversity), ip)| == |SeenPaths(paths, ip)| + |ps|
    ensures |ps| > 0 && |SeenPaths(paths, ip)| + |ps| == maxDiversity + 1 ==>
      ip !in PathRun(paths, ip, ps, maxDiversity)
    decreases |ps|
  {
    if ps != [] {
      var step := PathStep(paths, ip, ps[0], maxDiversity);
      NewPathStep(paths, ip, ps[0], maxDiversity);
      assert PathRun(paths, ip, ps, maxDiversity) == PathRun(step.state, ip, ps[1..], maxDiversity);
      if step.violation {
        assert ps[1..] == [];
      } else {
        FreshDistinctTail(paths, ip, ps, maxDiversity);
        DistinctPathsGrowThenReset(step.state, ip, ps[1..], maxDiversity);
      }
    }
  }

  /** A client requesting one path over and over is never flagged, as long as
      the threshold allows one path at all. */
  lemma {:induction false} SamePathNeverFlagged(paths: map<IpAddr, set<string>>, ip: IpAddr, path: string,
                                               ps: seq<string>, maxDiversity: nat)
    requires maxDiversity >= 1 && PathsBounded(paths, maxDiversity)
    requires ip !in paths || path in paths[ip]
    requires forall i :: 0 <= i < |ps| ==> ps[i] == path
    ensures forall i :: 0 <= i < |ps| ==> !PathAnswers(paths, ip, ps, maxDiversity)[i]
    decreases |ps|
  {
    if ps != [] {
      var step := PathStep(paths, ip, path, maxDiversity);
      if ip in paths {
        SeenPathChangesNothing(paths, ip, path, maxDiversity);
      } else {
        assert |{path}| == 1;
      }
      PathStepKeepsBound(paths, ip, path, maxDiversity);
      SamePathNeverFlagged(step.state, ip, path, ps[1..], maxDiversity);
      var answers := PathAnswers(paths, ip, ps, maxDiversity);
      var rest := PathAnswers(step.state, ip, ps[1..], maxDiversity);
      assert answers == [false] + rest;
      forall i | 0 < i < |ps|
        ensures !answers[i]
      {
        assert answers[i] == rest[i - 1];
      }
    }
  }

  /** `retain` on a timing list: the stamps younger than the window, in order. */
  function Prune(stamps: seq<nat>, now: nat, window: nat): (kept: seq<nat>)
    ensures |kept| <= |stamps|
    ensures forall t :: t in kept <==> t in stamps && Elapsed(now, t) < window
    decreases |stamps|
  {
    if stamps == [] then []
    else (if Elapsed(now, stamps[0]) < window then [stamps[0]] else []) + Prune(stamps[1..], now, window)
  }

  /** Pruning keeps the order of the stamps: it distributes over concatenation. */
  lemma {:induction false} PruneAppend(a: seq<nat>, b: seq<nat>, now: nat, window: nat)
    ensures Prune(a + b, now, window) == Prune(a, now, window) + Prune(b, now, window)
    decreases |a|
  {
    if a == [] {
      assert a + b == b;
    } else {
      assert (a + b)[1..] == a[1..] + b;
      PruneAppend(a[1..], b, now, window);
      var head := if Elapsed(now, a[0]) < window then [a[0]] else [];
      assert Prune(a + b, now, window) == head + Prune(a[1..] + b, now, window);
      assert Prune(a, now, window) == head + Prune(a[1..], now, window);
    }
  }

  /** A young stamp at the end of a list stays its newest retained stamp. */
  lemma PruneKeepsNewest(stamps: seq<nat>, t: nat, now: nat, window: nat)
    requires Elapsed(now, t) < window
    ensures Prune(stamps + [t], now, window) == Prune(stamps, now, window) + [t]
  {
    PruneAppend(stamps, [t], now, window);
    assert Prune([t], now, window) == [t];
  }

  lemma {:induction false} PruneIdempotent(stamps: seq<nat>, now: nat, window: nat)
    ensures Prune(Prune(stamps, now, window), now, window) == Prune(stamps, now, window)
    decreases |stamps|
  {
    if stamps != [] {
      PruneIdempotent(stamps[1..], now, window);
      var rest := Prune(stamps[1..], now, window);
      if Elapsed(now, stamps[0]) < window {
        assert Prune(stamps, now, window) == [stamps[0]] + rest;
        assert ([stamps[0]] + rest)[1..] == rest;
      } else {
        assert Prune(stamps, now, window) == rest;
      }
    }
  }

  /** Too fast: more than five stamps retained and the newest is closer than the
      minimum interval. */
  predicate TooFast(kept: seq<nat>, now: nat, minInterval: nat) {
    |kept| > 5 && Elapsed(now, kept[|kept| - 1]) < minInterval
  }

  /** `track_timing`: prune the client's list to the window; a burst is reported
      without recording the request, otherwise `now` is appended. */
  function TimingStep(timings: map<IpAddr, seq<nat>>, ip: IpAddr, now: nat, window: nat, minInterval: nat): (r: Verdict<map<IpAddr, seq<nat>>>)
    ensures r.state.Keys == timings.Keys + {ip} && r.state[ip] != []
    ensures forall x | x in timings && x != ip :: r.state[x] == timings[x]
  {
    var kept := Prune(if ip in timings then timings[ip] else [], now, window);
    if TooFast(kept, now, minInterval) then Verdict(true, timings[ip := kept])
    else Verdict(false, timings[ip := kept + [now]])
  }

  /** What successive `track_timing(ip)` calls at `times` report. */
  function TimingAnswers(timings: map<IpAddr, seq<nat>>, ip: IpAddr, times: seq<nat>, window: nat, minInterval: nat): (r: seq<bool>)
    ensures |r| == |times|
    decreases |times|
  {
    if times == [] then []
    else
      var step := TimingStep(timings, ip, times[0], window, minInterval);
      [step.violation] + TimingAnswers(step.state, ip, times[1..], window, minInterval)
  }

  /** A client with `stored` recorded stamps is not flagged on its next
      `6 - stored` requests, however fast: in particular the first six requests
      of a client without history never are. */
  lemma {:induction false} ColdClientNotFlagged(timings: map<IpAddr, seq<nat>>, ip: IpAddr, times: seq<nat>, window: nat, minInterval: nat)
    requires (if ip in timings then |timings[ip]| else 0) + |times| <= 6
    ensures forall i :: 0 <= i < |times| ==> !TimingAnswers(timings, ip, times, window, minInterval)[i]
    decreases |times|
  {
    if times != [] {
      var step := TimingStep(timings, ip, times[0], window, minInterval);
      assert !step.violation;
      ColdClientNotFlagged(step.state, ip, times[1..], window, minInterval);
      assert TimingAnswers(timings, ip, times, window, minInterval)
          == [false] + TimingAnswers(step.state, ip, times[1..], window, minInterval);
    }
  }

  /** Pruning keeps a list whose stamps are all inside the window. */
  lemma {:induction false} PruneAllYoung(stamps: seq<nat>, now: nat, window: nat)
    requires forall i :: 0 <= i < |stamps| ==> Elapsed(now, stamps[i]) < window
    ensures Prune(stamps, now, window) == stamps
    decreases |stamps|
  {
    if stamps != [] {
      PruneAllYoung(stamps[1..], now, window);
      assert [stamps[0]] + stamps[1..] == stamps;
    }
  }

  /** The stamps 0, 1, ..., k - 1. */
  function Upto(k: nat): (r: seq<nat>)
    ensures |r| == k && forall i :: 0 <= i < k ==> r[i] == i
  {
    seq(k, i => i)
  }

  /** The stamps k, k + 1, ..., 6. */
  function UpToSix(k: nat): (r: seq<nat>)
    requires k <= 7
    ensures |r| == 7 - k && forall i :: 0 <= i < 7 - k ==> r[i] == k + i
  {
    seq(7 - k, i => k + i)
  }

  /** Stamps 0, ..., k - 1 are all inside a 60 s window at k ms. */
  lemma UptoYoung(k: nat)
    requires k < 7
    ensures Prune(Upto(k), k, 60000) == Upto(k)
  {
    forall i | 0 <= i < k
      ensures Elapsed(k, Upto(k)[i]) < 60000
    {
      assert Upto(k)[i] == i;
    }
    PruneAllYoung(Upto(k), k, 60000);
  }

  /** One `track_timing` call at k ms from a client that requested at 0, ..., k - 1 ms. */
  lemma BurstStep(timings: map<IpAddr, seq<nat>>, ip: IpAddr, k: nat)
    requires k < 7
    requires (ip in timings && timings[ip] == Upto(k)) || (k == 0 && ip !in timings)
    ensures TimingStep(timings, ip, k, 60000, 50).violation == (k == 6)
    ensures k < 6 ==> TimingStep(timings, ip, k, 60000, 50).state[ip] == Upto(k + 1)
  {
    var stored := if ip in timings then timings[ip] else [];
    assert stored == Upto(k);
    UptoYoung(k);
    var kept := Prune(stored, k, 60000);
    assert kept == Upto(k);
    if k == 6 {
      assert kept[5] == 5 && Elapsed(6, 5) == 1;
      assert TooFast(kept, k, 50);
    } else {
      assert !TooFast(kept, k, 50);
      assert Upto(k) + [k] == Upto(k + 1);
    }
  }

  /** The stamps after the first of k, ..., 6 are k + 1, ..., 6. */
  lemma UpToSixTail(k: nat)
    requires k < 7
    ensures UpToSix(k)[0] == k && UpToSix(k)[1..] == UpToSix(k + 1)
  {
  }

  /** The first answer of a run of `track_timing` calls, and the rest. */
  lemma TimingAnswersUnfold(timings: map<IpAddr, seq<nat>>, ip: IpAddr, times: seq<nat>, window: nat, minInterval: nat)
    requires times != []
    ensures var step := TimingStep(timings, ip, times[0], window, minInterval);
      TimingAnswers(timings, ip, times, window, minInterval)
        == [step.violation] + TimingAnswers(step.state, ip, times[1..], window, minInterval)
  {
  }

  /** A client that has requested at 0, 1, ..., k - 1 ms and goes on requesting
      every millisecond up to 6 ms is flagged exactly on the request at 6 ms. */
  lemma {:induction false} BurstFlaggedAtSeventh(timings: map<IpAddr, seq<nat>>, ip: IpAddr, k: nat)
    requires k <= 7
    requires (ip in timings && timings[ip] == Upto(k)) || (k == 0 && ip !in timings)
    ensures forall i :: 0 <= i < 7 - k ==> TimingAnswers(timings, ip, UpToSix(k), 60000, 50)[i] == (k + i == 6)
    decreases 7 - k
  {
    if k < 7 {
      var times := UpToSix(k);
      UpToSixTail(k);
      BurstStep(timings, ip, k);
      var step := TimingStep(timings, ip, k, 60000, 50);
      TimingAnswersUnfold(timings, ip, times, 60000, 50);
      var answers := TimingAnswers(timings, ip, times, 60000, 50);
      var rest := TimingAnswers(step.state, ip, UpToSix(k + 1), 60000, 50);
      assert answers == [step.violation] + rest;
      if k < 6 {
        BurstFlaggedAtSeventh(step.state, ip, k + 1);
        forall i | 0 < i < 7 - k
          ensures answers[i] == (k + i == 6)
        {
          assert answers[i] == rest[i - 1];
        }
      }
    }
  }

  /** Seven requests one millisecond apart from a client without history, under
      the default 60 s window and 50 ms interval: only the seventh is flagged. */
  lemma SeventhFastRequestFlagged(timings: map<IpAddr, seq<nat>>, ip: IpAddr, times: seq<nat>)
    requires ip !in timings
    requires times == [0, 1, 2, 3, 4, 5, 6]
    ensures TimingAnswers(timings, ip, times, 60000, 50) == [false, false, false, false, false, false, true]
  {
    assert UpToSix(0) == times;
    BurstFlaggedAtSeventh(timings, ip, 0);
    assert |TimingAnswers(timings, ip, times, 60000, 50)| == 7;
  }

  /** The timing map after the maintenance sweep: every list pruned to the window,
      and clients left with nothing dropped. */
  function Compacted(timings: map<IpAddr, seq<nat>>, now: nat, window: nat): (r: map<IpAddr, seq<nat>>)
    ensures TimingsNonEmpty(r)
  {
    map ip | ip in timings && Prune(timings[ip], now, window) != [] :: Prune(timings[ip], now, window)
  }

  /** A second sweep at the same time removes nothing more. */
  lemma CompactedIdempotent(timings: map<IpAddr, seq<nat>>, now: nat, window: nat)
    ensures Compacted(Compacted(timings, now, window), now, window) == Compacted(timings, now, window)
  {
    var once := Compacted(timings, now, window);
    forall ip | ip in once
      ensures Prune(once[ip], now, window) == once[ip]
    {
      PruneIdempotent(timings[ip], now, window);
    }
  }

  /** Dropping the emptied lists of an entry-by-entry pruned map gives the sweep's result. */
  lemma DropEmptyAfterPrune(timings: map<IpAddr, seq<nat>>, pruned: map<IpAddr, seq<nat>>, now: nat, window: nat)
    requires pruned.Keys == timings.Keys
    requires forall ip | ip in pruned :: pruned[ip] == Prune(timings[ip], now, window)
    ensures (map ip | ip in pruned && pruned[ip] != [] :: pruned[ip]) == Compacted(timings, now, window)
  {
  }

  class ActivityDetector {
    var failures: map<IpAddr, nat>
    var pathDiversity: map<IpAddr, set<string>>
    var requestTiming: map<IpAddr, seq<nat>>
    const maxFailures: nat
    const maxPathDiversity: nat
    /** Milliseconds. */
    const timingWindow: nat
    /** Milliseconds. */
    const minRequestInterval: nat

    predicate Valid()
      reads this
    {
      FailuresBounded(failures, maxFailures)
      && PathsBounded(pathDiversity, maxPathDiversity)
      && TimingsNonEmpty(requestTiming)
    }

    /** `ActivityDetector::new()`: 10 failures, 20 paths, a 60 s timing window and
      a 50 ms minimum interval. */
    constructor ()
      ensures Valid()
      ensures failures == map[] && pathDiversity == map[] && requestTiming == map[]
      ensures maxFailures == 10 && maxPathDiversity == 20
      ensures timingWindow == 60000 && minRequestInterval == 50
    {
      failures := map[];
      pathDiversity := map[];
      requestTiming := map[];
      maxFailures := 10;
      maxPathDiversity := 20;
      timingWindow := 60000;
      minRequestInterval := 50;
    }

    method TrackFailure(ip: IpAddr) returns (violation: bool)
      requires Valid()
      modifies this
      ensures Valid()
      ensures Verdict(violation, failures) == FailureStep(old(failures), ip, maxFailures)
      ensures pathDiversity == old(pathDiversity) && requestTiming == old(requestTiming)
    {
      var count := if ip in failures then failures[ip] + 1 else 1;
      ghost var before := failures;
      failures := failures[ip := count];
      if count >= maxFailures {
        failures := failures - {ip};
        assert failures == before - {ip};
        return true;
      }
      return false;
    }

    /** Forgets the client's failure streak (a no-op when it has none). */
    method ResetFailures(ip: IpAddr)
      requires Valid()
      modifies this
      ensures Valid()
      ensures failures == old(failures) - {ip}
      ensures pathDiversity == old(pathDiversity) && requestTiming == old(requestTiming)
    {
      failures := failures - {ip};
    }

    method TrackPath(ip: IpAddr, path: string) returns (violation: bool)
      requires Valid()
      modifies this
      ensures Valid()
      ensures Verdict(violation, pathDiversity) == PathStep(old(pathDiversity), ip, path, maxPathDiversity)
      ensures failures == old(failures) && requestTiming == old(requestTiming)
    {
      var paths := if ip in pathDiversity then pathDiversity[ip] else {};
      paths := paths + {path};
      ghost var before := pathDiversity;
      pathDiversity := pathDiversity[ip := paths];
      if |paths| > maxPathDiversity {
        pathDiversity := pathDiversity - {ip};
        assert pathDiversity == before - {ip};
        return true;
      }
      return false;
    }

    method TrackTiming(ip: IpAddr, now: nat) returns (violation: bool)
      requires Valid()
      modifies this
      ensures Valid()
      ensures Verdict(violation, requestTiming) == TimingStep(old(requestTiming), ip, now, timingWindow, minRequestInterval)
      ensures failures == old(failures) && pathDiversity == old(pathDiversity)
    {
      var timings := if ip in requestTiming then requestTiming[ip] else [];
      timings := Prune(timings, now, timingWindow);
      ghost var before := requestTiming;
      requestTiming := requestTiming[ip := timings];
      if |timings| > 0 {
        var lastTime := timings[|timings| - 1];
        if Elapsed(now, lastTime) < minRequestInterval && |timings| > 5 {
          return true;
        }
      }
      assert !TooFast(timings, now, minRequestInterval);
      requestTiming := requestTiming[ip := timings + [now]];
      assert requestTiming == before[ip := timings + [now]];
      return false;
    }

    /** The maintenance sweep: all path sets go, every timing list is pruned and
      emptied lists are dropped; failure counters stay. */
    method Cleanup(now: nat)
      requires Valid()
      modifies this
      ensures Valid()
      ensures pathDiversity == map[]
      ensures requestTiming == Compacted(old(requestTiming), now, timingWindow)
      ensures failures == old(failures)
    {
      pathDiversity := map[];
      var timing := requestTiming;
      var pending := timing.Keys;
      while pending != {}
        invariant pending <= timing.Keys && timing.Keys == requestTiming.Keys
        invariant forall ip | ip in timing && ip !in pending :: timing[ip] == Prune(requestTiming[ip], now, timingWindow)
        invariant forall ip | ip in pending :: timing[ip] == requestTiming[ip]
        decreases pending
      {
        var ip :| ip in pending;
        timing := timing[ip := Prune(timing[ip], now, timingWindow)];
        pending := pending - {ip};
      }
      DropEmptyAfterPrune(requestTiming, timing, now, timingWindow);
      requestTiming := map ip | ip in timing && timing[ip] != [] :: timing[ip];
    }
  }
}
