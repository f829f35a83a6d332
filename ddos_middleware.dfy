/** The ddos request pipeline: one request passes, in order, the address
    parse, the deny-list, the path-diversity check, the burst check and the
    global limiter before it reaches the downstream handler; the handler's
    status then feeds the failure-streak accounting, and the forwarded response
    carries the security headers.

    `Protect` is the whole pipeline as a function of the five tracking maps and
    the limiter state (`Guards`); `DdosProtectionState.Handle` runs the same
    steps on the three shared objects and is proved to agree with it. The
    address parser (`IpAddr::from_str`) is a parameter, and so is the status the
    downstream handler answers with. */
module DdosMiddleware {
  import opened Wrappers
  import opened Net
  import opened Ddos

  /** Why the middleware answered by itself instead of calling the handler. */
  datatype Rejection = InvalidIp | Blocked | ScanDetected | BurstDetected | Overloaded

  function RejectionStatus(reason: Rejection): nat {
    match reason
    case InvalidIp => 400
    case Blocked => 403
    case ScanDetected => 403
    case BurstDetected => 403
    case Overloaded => 503
  }

  function RejectionMessage(reason: Rejection): string {
    match reason
    case InvalidIp => "Invalid IP address"
    case Blocked => "IP address blocked due to suspicious activity"
    case ScanDetected => "Too many unique requests - scanning detected"
    case BurstDetected => "Request rate abnormal - automated tools detected"
    case Overloaded => "Server is currently under high load. Please try again later."
  }

  /** A rejection, or the downstream response with the headers the middleware
      inserts into it. */
  datatype Response = Rejected(reason: Rejection) | Forwarded(status: nat, headers: seq<Header>)

  /** `is_client_error() || is_server_error()`. */
  predicate IsErrorStatus(status: nat) {
    400 <= status <= 599
  }

  /** The headers inserted into every forwarded response. */
  function SecurityHeaders(underAttack: bool): (hs: seq<Header>)
    ensures Header("X-Content-Type-Options", "nosniff") in hs
    ensures Header("X-Frame-Options", "DENY") in hs
    ensures Header("X-XSS-Protection", "1; mode=block") in hs
    ensures Header("X-Under-Attack-Mode", "true") in hs <==> underAttack
    ensures forall h | h in hs :: h.name != "X-Under-Attack-Mode" || h.value == "true"
  {
    [Header("X-Content-Type-Options", "nosniff"),
     Header("X-Frame-Options", "DENY"),
     Header("X-XSS-Protection", "1; mode=block")]
    + (if underAttack then [Header("X-Under-Attack-Mode", "true")] else [])
  }

  // ------------------------------------------------------------------------
  // Whitelist

  /** Trusted clients: IPv4 127.0.0.0/8, 10.0.0.0/8 and 172.16.0.0/12; no IPv6 address. */
  predicate IsWhitelisted(ip: IpAddr) {
    match ip
    case V4(a, b, _, _) => a == 127 || a == 10 || (a == 172 && b >= 16 && b <= 31)
    case V6(_) => false
  }

  /** An IPv4 address as the 32-bit number it denotes. */
  function ToU32(a: Octet, b: Octet, c: Octet, d: Octet): nat {
    a * 0x100_0000 + b * 0x1_0000 + c * 0x100 + d
  }

  /** CIDR membership: the IPv4 address lies in the `2^(32 - bits)` addresses
      starting at the network's address. */
  predicate InCidr(ip: IpAddr, net: IpAddr, bits: nat)
    requires bits <= 32
  {
    ip.V4? && net.V4? &&
    var x, base := ToU32(ip.a, ip.b, ip.c, ip.d), ToU32(net.a, net.b, net.c, net.d);
    base <= x < base + Pow2(32 - bits)
  }

  function Pow2(n: nat): (p: nat)
    ensures p >= 1
  {
    if n == 0 then 1 else 2 * Pow2(n - 1)
  }

  /** The octet test is exactly membership in the three private networks. */
  lemma WhitelistIsPrivateNetworks(ip: IpAddr)
    ensures IsWhitelisted(ip) <==>
      InCidr(ip, V4(127, 0, 0, 0), 8) || InCidr(ip, V4(10, 0, 0, 0), 8) || InCidr(ip, V4(172, 16, 0, 0), 12)
  {
    assert Pow2(24) == 0x100_0000 && Pow2(20) == 0x10_0000 by {
      assert Pow2(4) == 16;
      assert Pow2(8) == 256;
      assert Pow2(12) == 4096;
      assert Pow2(16) == 65536;
      assert Pow2(20) == 16 * Pow2(16) by {
        assert Pow2(20) == 2 * Pow2(19) == 4 * Pow2(18) == 8 * Pow2(17) == 16 * Pow2(16);
      }
      assert Pow2(24) == 16 * Pow2(20) by {
        assert Pow2(24) == 2 * Pow2(23) == 4 * Pow2(22) == 8 * Pow2(21) == 16 * Pow2(20);
      }
    }
    if ip.V4? {
      var low := ip.b * 0x1_0000 + ip.c * 0x100 + ip.d;
      assert 0 <= low < 0x100_0000;
      var low20 := ip.c * 0x100 + ip.d;
      assert 0 <= low20 < 0x1_0000;
    }
  }

  // ------------------------------------------------------------------------
  // The pipeline as a function

  /** The fixed parameters of the three leaves (times in milliseconds). */
  datatype Config = Config(
    maxRequests: nat, window: nat, blockDuration: nat,
    maxFailures: nat, maxPathDiversity: nat, timingWindow: nat, minRequestInterval: nat)

  /** `DdosProtectionState::new()`: 1000 requests per 10 s globally, 30-minute
      blocks, and the detector's defaults. */
  const Defaults := Config(1000, 10 * 1000, BlockDuration(30), 10, 20, 60 * 1000, 50)

  /** Everything the pipeline reads and writes. */
  datatype Guards = Guards(
    limiter: WindowState, blocked: map<IpAddr, nat>,
    failures: map<IpAddr, nat>, paths: map<IpAddr, set<string>>, timings: map<IpAddr, seq<nat>>)

  datatype Handled = Handled(response: Response, guards: Guards)

  /** `ddos_protection_middleware` for one request at `now`, whose handler (if
      reached) answers `status`. */
  function Protect(c: Config, g: Guards, xff: Option<HeaderText>, parse: string -> Option<IpAddr>,
                   path: string, now: nat, status: nat): Handled
  {
    match parse(ForwardedClient(xff))
    case None => Handled(Rejected(InvalidIp), g)
    case Some(ip) => Screen(c, g, ip, path, now, status)
  }

  /** From the deny-list on, for a parsed address. */
  function Screen(c: Config, g: Guards, ip: IpAddr, path: string, now: nat, status: nat): Handled {
    if IsBlocked(g.blocked, ip, now, c.blockDuration) then Handled(Rejected(Blocked), g)
    else Inspect(c, g.(blocked := AfterLookup(g.blocked, ip, now, c.blockDuration)), ip, path, now, status)
  }

  /** The path-diversity check, then the burst check; either violation
      blacklists the client from `now`. */
  function Inspect(c: Config, g: Guards, ip: IpAddr, path: string, now: nat, status: nat): Handled {
    var p := PathStep(g.paths, ip, path, c.maxPathDiversity);
    if p.violation then Handled(Rejected(ScanDetected), g.(paths := p.state, blocked := g.blocked[ip := now]))
    else
      var t := TimingStep(g.timings, ip, now, c.timingWindow, c.minRequestInterval);
      if t.violation then
        Handled(Rejected(BurstDetected), g.(paths := p.state, timings := t.state, blocked := g.blocked[ip := now]))
      else Admit(c, g.(paths := p.state, timings := t.state), ip, now, status)
  }

  /** The global limiter and load shedding, then the handler. */
  function Admit(c: Config, g: Guards, ip: IpAddr, now: nat, status: nat): Handled {
    var l := Track(g.limiter, now, c.maxRequests, c.window);
    if l.underAttack && !IsWhitelisted(ip) then Handled(Rejected(Overloaded), g.(limiter := l))
    else Handled(Forwarded(status, SecurityHeaders(l.underAttack)), Account(c, g.(limiter := l), ip, now, status))
  }

  /** The failure accounting on the handler's status. */
  function Account(c: Config, g: Guards, ip: IpAddr, now: nat, status: nat): Guards {
    if IsErrorStatus(status) then
      var f := FailureStep(g.failures, ip, c.maxFailures);
      g.(failures := f.state, blocked := if f.violation then g.blocked[ip := now] else g.blocked)
    else g.(failures := g.failures - {ip})
  }

  /** A request reaches the handler exactly when its address parses, it is not
      blocked, neither detector fires and the limiter is calm or the client is
      trusted; the forwarded response keeps the handler's status and carries the
      security headers, with the attack header exactly in attack mode. */
  lemma ForwardedIffScreened(c: Config, g: Guards, xff: Option<HeaderText>, parse: string -> Option<IpAddr>,
                             path: string, now: nat, status: nat)
    ensures var r := Protect(c, g, xff, parse, path, now, status);
      var p := parse(ForwardedClient(xff));
      (r.response.Forwarded? <==>
        p.Some? && !IsBlocked(g.blocked, p.value, now, c.blockDuration)
        && !PathStep(g.paths, p.value, path, c.maxPathDiversity).violation
        && !TimingStep(g.timings, p.value, now, c.timingWindow, c.minRequestInterval).violation
        && (!Track(g.limiter, now, c.maxRequests, c.window).underAttack || IsWhitelisted(p.value)))
      && (r.response.Forwarded? ==>
        r.response.status == status
        && r.response.headers == SecurityHeaders(r.guards.limiter.underAttack)
        && (Header("X-Under-Attack-Mode", "true") in r.response.headers <==> r.guards.limiter.underAttack))
  {
    match parse(ForwardedClient(xff))
    case None =>
    case Some(ip) =>
      if !IsBlocked(g.blocked, ip, now, c.blockDuration) {
        var g1 := g.(blocked := AfterLookup(g.blocked, ip, now, c.blockDuration));
        var p := PathStep(g1.paths, ip, path, c.maxPathDiversity);
        if !p.violation {
          var t := TimingStep(g1.timings, ip, now, c.timingWindow, c.minRequestInterval);
          if !t.violation {
            AdmitForwards(c, g1.(paths := p.state, timings := t.state), ip, now, status);
          }
        }
      }
  }

  /** The limiter stage forwards exactly when the limiter is calm or the client
      trusted, keeping the limiter it computed and sending the headers that
      match it. */
  lemma AdmitForwards(c: Config, g: Guards, ip: IpAddr, now: nat, status: nat)
    ensures var r := Admit(c, g, ip, now, status);
      var l := Track(g.limiter, now, c.maxRequests, c.window);
      (r.response.Forwarded? <==> !l.underAttack || IsWhitelisted(ip))
      && r.guards.limiter == l
      && (r.response.Forwarded? ==>
        r.response.status == status && r.response.headers == SecurityHeaders(l.underAttack))
  {
  }

  /** The rejections come in pipeline order, each with its status: a bad
      address or a blocked client changes nothing at all; the two detector
      rejections blacklist the client from `now` and leave the limiter alone;
      only the overload rejection has counted the request. Past the deny-list,
      the path check decides before the burst check does. */
  lemma RejectionsInOrder(c: Config, g: Guards, xff: Option<HeaderText>, parse: string -> Option<IpAddr>,
                          path: string, now: nat, status: nat)
    ensures var r := Protect(c, g, xff, parse, path, now, status);
      var p := parse(ForwardedClient(xff));
      (r.response == Rejected(InvalidIp) <==> p.None?)
      && (r.response == Rejected(Blocked) <==> p.Some? && IsBlocked(g.blocked, p.value, now, c.blockDuration))
      && (r.response in {Rejected(InvalidIp), Rejected(Blocked)} ==> r.guards == g)
      && (r.response in {Rejected(ScanDetected), Rejected(BurstDetected)} ==>
            p.Some? && p.value in r.guards.blocked && r.guards.blocked[p.value] == now
            && r.guards.limiter == g.limiter && r.guards.failures == g.failures)
      && (r.response.Rejected? ==> r.guards.failures == g.failures)
      && (r.response == Rejected(Overloaded) ==> p.Some? && !IsWhitelisted(p.value) && r.guards.limiter.underAttack)
      && (p.Some? && !IsBlocked(g.blocked, p.value, now, c.blockDuration) ==>
            var path1 := PathStep(g.paths, p.value, path, c.maxPathDiversity);
            var timing := TimingStep(g.timings, p.value, now, c.timingWindow, c.minRequestInterval);
            (r.response == Rejected(ScanDetected) <==> path1.violation)
            && (r.response == Rejected(BurstDetected) <==> !path1.violation && timing.violation)
            && (r.response == Rejected(ScanDetected) ==> r.guards.timings == g.timings))
  {
    match parse(ForwardedClient(xff))
    case None =>
    case Some(ip) =>
      if !IsBlocked(g.blocked, ip, now, c.blockDuration) {
        InspectRejections(c, g.(blocked := AfterLookup(g.blocked, ip, now, c.blockDuration)), ip, path, now, status);
      }
  }

  /** Past the deny-list, the rejections are the detectors' and the limiter's,
      with the effects `RejectionsInOrder` lists. The path check runs first: a
      scan rejection happens exactly on a path violation and never reaches the
      burst check, so it leaves the timing lists as they were; a burst
      rejection happens exactly when the path check passes and the timing check
      fires. */
  lemma InspectRejections(c: Config, g: Guards, ip: IpAddr, path: string, now: nat, status: nat)
    ensures var r := Inspect(c, g, ip, path, now, status);
      r.response != Rejected(InvalidIp) && r.response != Rejected(Blocked)
      && (r.response in {Rejected(ScanDetected), Rejected(BurstDetected)} ==>
            ip in r.guards.blocked && r.guards.blocked[ip] == now
            && r.guards.limiter == g.limiter && r.guards.failures == g.failures)
      && (r.response.Rejected? ==> r.guards.failures == g.failures)
      && (r.response == Rejected(Overloaded) ==> !IsWhitelisted(ip) && r.guards.limiter.underAttack)
      && (r.response == Rejected(ScanDetected) <==> PathStep(g.paths, ip, path, c.maxPathDiversity).violation)
      && (r.response == Rejected(BurstDetected) <==>
            !PathStep(g.paths, ip, path, c.maxPathDiversity).violation
            && TimingStep(g.timings, ip, now, c.timingWindow, c.minRequestInterval).violation)
      && (r.response == Rejected(ScanDetected) ==> r.guards.timings == g.timings)
  {
    var p := PathStep(g.paths, ip, path, c.maxPathDiversity);
    if !p.violation {
      var t := TimingStep(g.timings, ip, now, c.timingWindow, c.minRequestInterval);
      if !t.violation {
        AdmitForwards(c, g.(paths := p.state, timings := t.state), ip, now, status);
      }
    }
  }

  /** Trusted clients are never shed, even in attack mode. */
  lemma WhitelistedNeverOverloaded(c: Config, g: Guards, xff: Option<HeaderText>, parse: string -> Option<IpAddr>,
                                   path: string, now: nat, status: nat)
    requires var p := parse(ForwardedClient(xff)); p.Some? && IsWhitelisted(p.value)
    ensures Protect(c, g, xff, parse, path, now, status).response != Rejected(Overloaded)
  {
  }

  /** Under attack, only whitelisted clients are forwarded, so only they ever
      see the attack-mode header. */
  lemma AttackModeOnlyForWhitelisted(c: Config, g: Guards, xff: Option<HeaderText>, parse: string -> Option<IpAddr>,
                                     path: string, now: nat, status: nat)
    ensures var r := Protect(c, g, xff, parse, path, now, status);
      var p := parse(ForwardedClient(xff));
      r.response.Forwarded? && Header("X-Under-Attack-Mode", "true") in r.response.headers ==>
        p.Some? && IsWhitelisted(p.value)
  {
    ForwardedIffScreened(c, g, xff, parse, path, now, status);
  }

  /** After a scan or burst rejection, every later request from the same client
      within the block duration is refused at the deny-list, whatever its path. */
  lemma DetectionBlocksFollowUps(c: Config, g: Guards, xff: Option<HeaderText>, parse: string -> Option<IpAddr>,
                                 path: string, now: nat, status: nat,
                                 xff': Option<HeaderText>, path': string, later: nat, status': nat)
    requires Protect(c, g, xff, parse, path, now, status).response in {Rejected(ScanDetected), Rejected(BurstDetected)}
    requires parse(ForwardedClient(xff')) == parse(ForwardedClient(xff))
    requires now <= later < now + c.blockDuration
    ensures var r := Protect(c, g, xff, parse, path, now, status);
      Protect(c, r.guards, xff', parse, path', later, status') == Handled(Rejected(Blocked), r.guards)
  {
    RejectionsInOrder(c, g, xff, parse, path, now, status);
  }

  /** Once the limiter has let a request through, the handler's status decides
      the failure accounting: an error counts towards the streak and the
      threshold-th error blacklists the client from `now`; a success forgets the
      streak. Nothing else in the deny-list changes. */
  lemma AdmitAccounts(c: Config, g: Guards, ip: IpAddr, now: nat, status: nat)
    requires Admit(c, g, ip, now, status).response.Forwarded?
    ensures var r := Admit(c, g, ip, now, status);
      var f := FailureStep(g.failures, ip, c.maxFailures);
      (!IsErrorStatus(status) ==> r.guards.failures == g.failures - {ip} && r.guards.blocked == g.blocked)
      && (IsErrorStatus(status) ==> (
        r.guards.failures == f.state
        && (f.violation ==> r.guards.blocked == g.blocked[ip := now])
        && (!f.violation ==> r.guards.blocked == g.blocked)))
  {
  }

  /** Past the deny-list, a forwarded request is accounted on the failures and
      the deny-list it found: the detectors only touch them on a rejection. */
  lemma InspectAccounts(c: Config, g: Guards, ip: IpAddr, path: string, now: nat, status: nat)
    requires Inspect(c, g, ip, path, now, status).response.Forwarded?
    ensures var r := Inspect(c, g, ip, path, now, status);
      var f := FailureStep(g.failures, ip, c.maxFailures);
      (!IsErrorStatus(status) ==> r.guards.failures == g.failures - {ip} && r.guards.blocked == g.blocked)
      && (IsErrorStatus(status) ==> (
        r.guards.failures == f.state
        && (f.violation ==> r.guards.blocked == g.blocked[ip := now])
        && (!f.violation ==> r.guards.blocked == g.blocked)))
  {
    var p := PathStep(g.paths, ip, path, c.maxPathDiversity);
    var t := TimingStep(g.timings, ip, now, c.timingWindow, c.minRequestInterval);
    assert !p.violation && !t.violation;
    AdmitAccounts(c, g.(paths := p.state, timings := t.state), ip, now, status);
  }

  /** What the handler's status does to the failure accounting: an error
      counts towards the streak and the threshold-th error blacklists the
      client; a success forgets the streak. `ip` names the parsed address,
      which every forwarded request has. */
  lemma ForwardedFailureAccounting(c: Config, g: Guards, xff: Option<HeaderText>, parse: string -> Option<IpAddr>,
                                   path: string, now: nat, status: nat, ip: IpAddr)
    requires parse(ForwardedClient(xff)) == Some(ip)
    requires Protect(c, g, xff, parse, path, now, status).response.Forwarded?
    ensures var r := Protect(c, g, xff, parse, path, now, status);
      var f := FailureStep(g.failures, ip, c.maxFailures);
      (!IsErrorStatus(status) ==>
        r.guards.failures == g.failures - {ip} && r.guards.blocked == AfterLookup(g.blocked, ip, now, c.blockDuration))
      && (IsErrorStatus(status) ==> (
        r.guards.failures == f.state
        && (f.violation ==> ip in r.guards.blocked && r.guards.blocked[ip] == now)
        && (!f.violation ==> r.guards.blocked == AfterLookup(g.blocked, ip, now, c.blockDuration))))
  {
    assert Protect(c, g, xff, parse, path, now, status) == Screen(c, g, ip, path, now, status);
    assert !IsBlocked(g.blocked, ip, now, c.blockDuration);
    InspectAccounts(c, g.(blocked := AfterLookup(g.blocked, ip, now, c.blockDuration)), ip, path, now, status);
  }

  /** The periodic maintenance pass over the tracking state. */
  function Maintained(c: Config, g: Guards, now: nat): Guards {
    g.(blocked := Unexpired(g.blocked, now, c.blockDuration),
       paths := map[],
       timings := Compacted(g.timings, now, c.timingWindow))
  }

  /** Maintenance changes no deny-list answer at the time it runs, leaves the
      limiter and the failure streaks alone, and a second pass at the same time
      changes nothing more. */
  lemma MaintenanceKeepsDecisions(c: Config, g: Guards, now: nat)
    ensures var m := Maintained(c, g, now);
      (forall ip :: IsBlocked(m.blocked, ip, now, c.blockDuration) == IsBlocked(g.blocked, ip, now, c.blockDuration))
      && m.limiter == g.limiter && m.failures == g.failures && m.paths == map[]
      && TimingsNonEmpty(m.timings)
      && Maintained(c, m, now) == m
  {
    forall ip
      ensures IsBlocked(Unexpired(g.blocked, now, c.blockDuration), ip, now, c.blockDuration)
           == IsBlocked(g.blocked, ip, now, c.blockDuration)
    {
      SweepAgreesWithLookup(g.blocked, ip, now, c.blockDuration);
    }
    SweepAgreesWithLookup(g.blocked, V4(0, 0, 0, 0), now, c.blockDuration);
    CompactedIdempotent(g.timings, now, c.timingWindow);
  }

  // ------------------------------------------------------------------------
  // The shared state

  class DdosProtectionState {
    const globalLimiter: GlobalRateLimiter
    const blacklist: IpBlacklist
    const detector: ActivityDetector

    predicate Valid()
      reads this, detector
    {
      detector.Valid()
    }

    /** The parameters the three objects were built with. */
    function Settings(): Config {
      Config(globalLimiter.maxRequests, globalLimiter.window, blacklist.blockDuration,
             detector.maxFailures, detector.maxPathDiversity, detector.timingWindow, detector.minRequestInterval)
    }

    /** The current contents of the three objects. */
    function Snapshot(): Guards
      reads this, globalLimiter, blacklist, detector
    {
      Guards(globalLimiter.State(), blacklist.blockedIps,
             detector.failures, detector.pathDiversity, detector.requestTiming)
    }

    /** `DdosProtectionState::new()`, created at `now`. */
    constructor (now: nat)
      ensures Valid() && Settings() == Defaults
      ensures Snapshot() == Guards(WindowState(0, now, false), map[], map[], map[], map[])
    {
      globalLimiter := new GlobalRateLimiter(1000, 10, now);
      blacklist := new IpBlacklist(30);
      detector := new ActivityDetector();
    }

    /** One request through `ddos_protection_middleware`. */
    method Handle(xff: Option<HeaderText>, parse: string -> Option<IpAddr>, path: string, now: nat, status: nat)
      returns (response: Response)
      requires Valid()
      modifies globalLimiter, blacklist, detector
      ensures Valid()
      ensures var r := Protect(Settings(), old(Snapshot()), xff, parse, path, now, status);
        response == r.response && Snapshot() == r.guards
    {
      match parse(ForwardedClient(xff)) {
        case None =>
          response := Rejected(InvalidIp);
        case Some(ip) =>
          response := ScreenRequest(ip, path, now, status);
      }
    }

    /** The deny-list lookup, then the detectors. */
    method ScreenRequest(ip: IpAddr, path: string, now: nat, status: nat) returns (response: Response)
      requires Valid()
      modifies globalLimiter, blacklist, detector
      ensures Valid()
      ensures var r := Screen(Settings(), old(Snapshot()), ip, path, now, status);
        response == r.response && Snapshot() == r.guards
    {
      var blocked := blacklist.IsBlacklisted(ip, now);
      if blocked {
        return Rejected(Blocked);
      }
      response := InspectRequest(ip, path, now, status);
    }

    /** The path-diversity and burst detectors, then the limiter. */
    method InspectRequest(ip: IpAddr, path: string, now: nat, status: nat) returns (response: Response)
      requires Valid()
      modifies globalLimiter, blacklist, detector
      ensures Valid()
      ensures var r := Inspect(Settings(), old(Snapshot()), ip, path, now, status);
        response == r.response && Snapshot() == r.guards
    {
      var scan := detector.TrackPath(ip, path);
      if scan {
        blacklist.BlacklistIp(ip, now);
        return Rejected(ScanDetected);
      }
      var burst := detector.TrackTiming(ip, now);
      if burst {
        blacklist.BlacklistIp(ip, now);
        return Rejected(BurstDetected);
      }
      response := AdmitRequest(ip, now, status);
    }

    /** The global limiter, then the handler's status is accounted. */
    method AdmitRequest(ip: IpAddr, now: nat, status: nat) returns (response: Response)
      requires Valid()
      modifies globalLimiter, blacklist, detector
      ensures Valid()
      ensures var r := Admit(Settings(), old(Snapshot()), ip, now, status);
        response == r.response && Snapshot() == r.guards
    {
      var underAttack := globalLimiter.TrackRequest(now);
      if underAttack && !IsWhitelisted(ip) {
        return Rejected(Overloaded);
      }
      RecordStatus(ip, now, status);
      return Forwarded(status, SecurityHeaders(underAttack));
    }

    /** The failure accounting on the handler's status. */
    method RecordStatus(ip: IpAddr, now: nat, status: nat)
      requires Valid()
      modifies blacklist, detector
      ensures Valid()
      ensures Snapshot() == Account(Settings(), old(Snapshot()), ip, now, status)
    {
      if IsErrorStatus(status) {
        var tooMany := detector.TrackFailure(ip);
        if tooMany {
          blacklist.BlacklistIp(ip, now);
        }
      } else {
        detector.ResetFailures(ip);
      }
    }

    /** One tick of the background task: sweep the deny-list, sweep the
        detector, then read the attack flag. */
    method MaintenanceTick(now: nat) returns (underAttack: bool)
      requires Valid()
      modifies blacklist, detector
      ensures Valid()
      ensures Snapshot() == Maintained(Settings(), old(Snapshot()), now)
      ensures underAttack == Snapshot().limiter.underAttack
    {
      blacklist.Cleanup(now);
      detector.Cleanup(now);
      underAttack := globalLimiter.IsUnderAttack();
    }
  }
}
