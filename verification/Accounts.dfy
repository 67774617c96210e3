/**
 The accounts of a pool, its settings, and the ordered list of reasons for
 which an account cannot serve a request right now.
 */
module Accounts {
  import opened Options
  import opened Models
  import opened Quotas
  import opened Sessions

  datatype Provider = Anthropic | Codex

  datatype Kind = Oauth | ApiKey

  datatype Status = Active | Throttled | Failed

  /** Who answers at an upstream address, as far as credentials are concerned. */
  datatype Host = AnthropicHost | CodexHost | Loopback | OtherHost

  datatype Upstream = Upstream(url: Text, host: Host)

  /** What the choice of an account depends on. */
  datatype Facts = Facts(
    id: Text,
    name: Text,
    kind: Kind,
    provider: Provider,
    accountUuid: Option<Text>,
    orgUuid: Option<Text>,
    email: Option<Text>,
    priority: int,
    disabled: bool,
    credential: Option<Text>,
    upstream: Option<Upstream>,
    maxUsage: Option<Threshold>,
    quota: Quota,
    status: Status,
    rateLimitedUntil: Option<int>,
    quotaHold: bool,
    entitlementDeniedUntil: Option<int>,
    inFlight: nat,
    open: nat)

  /** What choosing an account writes down about it. */
  datatype Marks = Marks(
    rolloverBaseline: map<Weekly, int>,
    lastProbeAt: Option<int>,
    rampStartedAt: Option<int>,
    probing: bool,
    requalify: bool)

  datatype Account = Account(facts: Facts, marks: Marks)

  /** An entry of a route's account list: a name, an id, or a position in the pool. */
  datatype RouteMember = RouteMember(text: Text, position: Option<nat>)

  datatype Route = Route(name: Text, patterns: seq<string>, members: seq<RouteMember>, bucket: Option<Weekly>)

  datatype ExpiryRouting = ExpiryRouting(enabled: bool, tolerance: real, preempt: bool)

  datatype StormRamp = StormRamp(enabled: bool, startConc: nat, stepConc: nat, stepMs: nat, windowMs: nat)

  /** The settings a pool is (re)loaded with. */
  datatype Settings = Settings(
    threshold: Threshold,
    routes: seq<Route>,
    storm: StormRamp,
    distributeSessions: bool,
    defaultUpstream: Upstream,
    codexUpstream: Text,
    expiry: ExpiryRouting,
    soonestReset: bool,
    familyStaleMs: int)

  /** An account pin: the whole token and, when it has a slash, the two halves. */
  datatype PinToken = PinToken(whole: Text, halves: Option<(Text, Text)>)

  datatype SelectRequest = SelectRequest(
    model: Option<string>,
    advisor: Option<string>,
    session: Option<string>,
    pin: Option<PinToken>,
    exclude: set<Text>,
    allowProbe: bool,
    provider: Option<Provider>)

  const OPEN_REQUEST_HEADROOM: real := 0.01

  // ── Looking accounts up ──────────────────────────────────

  /** The position of the first account with this id. */
  function Find(all: seq<Facts>, id: Text): (i: Option<nat>)
    ensures i.Some? ==> i.value < |all| && all[i.value].id == id
    ensures i.None? ==> forall k :: 0 <= k < |all| ==> all[k].id != id
  {
    FindFrom(all, id, 0)
  }

  function FindFrom(all: seq<Facts>, id: Text, k: nat): (i: Option<nat>)
    requires k <= |all|
    ensures i.Some? ==> k <= i.value < |all| && all[i.value].id == id
    ensures i.None? ==> forall j :: k <= j < |all| ==> all[j].id != id
    decreases |all| - k
  {
    if k == |all| then None
    else if all[k].id == id then Some(k)
    else FindFrom(all, id, k + 1)
  }

  ghost predicate DistinctIds(all: seq<Facts>) {
    forall i, j :: 0 <= i < j < |all| ==> all[i].id != all[j].id
  }

  lemma {:induction false} FindIsPosition(all: seq<Facts>, i: nat)
    requires DistinctIds(all) && i < |all|
    ensures Find(all, all[i].id) == Some(i)
  {
  }

  // ── Routes ───────────────────────────────────────────────

  /** The first route whose globs match the model. */
  function RouteFor(routes: seq<Route>, model: string): (r: Option<Route>)
    ensures r.Some? ==> r.value in routes && AnyGlobMatches(r.value.patterns, model)
    ensures r.None? <==> forall k :: 0 <= k < |routes| ==> !AnyGlobMatches(routes[k].patterns, model)
  {
    if routes == [] then None
    else if AnyGlobMatches(routes[0].patterns, model) then Some(routes[0])
    else RouteFor(routes[1..], model)
  }

  predicate MemberIs(all: seq<Facts>, m: RouteMember, a: Facts) {
    m.text == a.name || m.text == a.id
    || (m.position.Some? && m.position.value < |all| && all[m.position.value].id == a.id)
  }

  predicate RouteAllows(cfg: Settings, all: seq<Facts>, a: Facts, model: Option<string>) {
    model.Some? && RouteFor(cfg.routes, model.value).Some? ==>
      var members := RouteFor(cfg.routes, model.value).value.members;
      members == [] || exists k :: 0 <= k < |members| && MemberIs(all, members[k], a)
  }

  /** The weekly bucket that gates a model, honouring a route's override. */
  function WeeklyKeyFor(cfg: Settings, model: Option<string>): Weekly {
    var routed := if model.Some? then RouteFor(cfg.routes, model.value) else None;
    if routed.Some? && routed.value.bucket.Some? then routed.value.bucket.value
    else WeeklyBucketFor(model)
  }

  // ── Reasons ──────────────────────────────────────────────

  datatype Reason =
    | OtherProvider
    | Disabled
    | NoCredential
    | UpstreamRefused
    | InError
    | RateLimited(secs: int)
    | EntitlementCooldown
    | RouteExcludes
    | RouteExcludesAdvisor
    | Capped(metric: Metric)
    | AdvisorCapped(metric: Metric)
    | NearQuota(metric: Metric)
    | AdvisorNearQuota(metric: Metric)
  {
    /** The one reason a pin bypasses and a revalidation probe may test. */
    predicate Soft() { NearQuota? }

    /** Reasons that a quota or rate-limit window will cure. */
    predicate HeldBack() {
      RateLimited? || Capped? || AdvisorCapped? || NearQuota? || AdvisorNearQuota?
    }
  }

  predicate Reached(u: Option<real>, limit: Option<real>) {
    u.Some? && limit.Some? && u.value >= limit.value
  }

  /** The bucket at which the account has reached its own hard cap. */
  function CappedBucket(cfg: Settings, a: Facts, model: Option<string>): Option<Metric> {
    if a.maxUsage.None? then None
    else
      var caps := a.maxUsage.value;
      var key := WeeklyKeyFor(cfg, model);
      if Reached(a.quota.fiveHour.utilization, caps.CapFor(FiveHours)) then Some(FiveHours)
      else if Reached(a.quota.week.utilization, caps.CapFor(Week)) then Some(Week)
      else if key != Shared && Reached(a.quota.WeeklyBucket(key).utilization, caps.CapFor(MetricOf(key))) then
        Some(MetricOf(key))
      else if Reached(a.quota.TokensUsed(), caps.CapFor(Tokens)) then Some(Tokens)
      else None
  }

  /** Spend the readings do not include yet: every request still open. */
  function Margin(a: Facts): real {
    a.open as real * OPEN_REQUEST_HEADROOM
  }

  predicate Near(u: Option<real>, margin: real, limit: real) {
    u.Some? && u.value + margin >= limit
  }

  /** The bucket at which the account, with its open requests, has reached the switch threshold. */
  function NearBucket(cfg: Settings, a: Facts, model: Option<string>): Option<Metric> {
    var key := WeeklyKeyFor(cfg, model);
    if Near(a.quota.fiveHour.utilization, Margin(a), cfg.threshold.ForBucket(FiveHours)) then Some(FiveHours)
    else if Near(a.quota.GatingWeekly(key), Margin(a), cfg.threshold.ForBucket(MetricOf(key))) then Some(MetricOf(key))
    else if Near(a.quota.TokensUsed(), 0.0, cfg.threshold.ForBucket(Tokens)) then Some(Tokens)
    else if Near(a.quota.RequestsUsed(), 0.0, cfg.threshold.ForBucket(Requests)) then Some(Requests)
    else None
  }

  /** Where the account's requests go; a subscription token only ever to its provider or the local machine. */
  function UpstreamFor(cfg: Settings, a: Facts): Option<Upstream> {
    var u :=
      if a.upstream.Some? then a.upstream.value
      else if a.provider == Codex then Upstream(cfg.codexUpstream, CodexHost)
      else cfg.defaultUpstream;
    var own := if a.provider == Codex then CodexHost else AnthropicHost;
    if a.kind == Oauth && u.host != own && u.host != Loopback then None else Some(u)
  }

  /** Why the account cannot serve now, the first reason in this order; `None` when it can. */
  function Unavailable(cfg: Settings, all: seq<Facts>, a: Facts, model: Option<string>, advisor: Option<string>,
                       provider: Option<Provider>, now: int): Option<Reason>
  {
    if provider.Some? && a.provider != provider.value then Some(OtherProvider)
    else if a.disabled then Some(Disabled)
    else if a.credential.None? then Some(NoCredential)
    else if UpstreamFor(cfg, a).None? then Some(UpstreamRefused)
    else if a.status == Failed then Some(InError)
    else if a.rateLimitedUntil.Some? && a.rateLimitedUntil.value > now then
      Some(RateLimited((a.rateLimitedUntil.value - now) / 1000))
    else if a.entitlementDeniedUntil.Some? && a.entitlementDeniedUntil.value > now then Some(EntitlementCooldown)
    else if !RouteAllows(cfg, all, a, model) then Some(RouteExcludes)
    else if advisor.Some? && !RouteAllows(cfg, all, a, advisor) then Some(RouteExcludesAdvisor)
    else if CappedBucket(cfg, a, model).Some? then Some(Capped(CappedBucket(cfg, a, model).value))
    else if advisor.Some? && CappedBucket(cfg, a, advisor).Some? then
      Some(AdvisorCapped(CappedBucket(cfg, a, advisor).value))
    else if NearBucket(cfg, a, model).Some? then Some(NearQuota(NearBucket(cfg, a, model).value))
    else if advisor.Some? && NearBucket(cfg, a, advisor).Some? then
      Some(AdvisorNearQuota(NearBucket(cfg, a, advisor).value))
    else None
  }

  predicate IsAvailable(cfg: Settings, all: seq<Facts>, a: Facts, req: SelectRequest, now: int) {
    Unavailable(cfg, all, a, req.model, req.advisor, req.provider, now).None?
  }

  // ── The same, without the order of the tests ─────────────

  /** What a metric reads; a weekly metric reads its own bucket only. */
  function ReadingOf(a: Facts, m: Metric): Option<real> {
    match m
    case FiveHours => a.quota.fiveHour.utilization
    case Week => a.quota.week.utilization
    case WeekFable => a.quota.fable.utilization
    case WeekSonnet => a.quota.sonnet.utilization
    case Tokens => a.quota.TokensUsed()
    case Requests => a.quota.RequestsUsed()
  }

  /** Under every cap of its own that a model is held to: the 5h, the shared and the model's week, and the tokens. */
  ghost predicate UnderCaps(cfg: Settings, a: Facts, model: Option<string>) {
    a.maxUsage.Some? ==>
      forall m: Metric :: m in {FiveHours, Week, MetricOf(WeeklyKeyFor(cfg, model)), Tokens} ==>
        !Reached(ReadingOf(a, m), a.maxUsage.value.CapFor(m))
  }

  /** The open requests added to the windows, under every switch threshold; both weeks are held to the model's. */
  ghost predicate UnderThresholds(cfg: Settings, a: Facts, model: Option<string>) {
    var family := MetricOf(WeeklyKeyFor(cfg, model));
    && !Near(ReadingOf(a, FiveHours), Margin(a), cfg.threshold.ForBucket(FiveHours))
    && (forall m: Metric :: m in {Week, family} ==> !Near(ReadingOf(a, m), Margin(a), cfg.threshold.ForBucket(family)))
    && (forall m: Metric :: m in {Tokens, Requests} ==> !Near(ReadingOf(a, m), 0.0, cfg.threshold.ForBucket(m)))
  }

  ghost predicate Healthy(cfg: Settings, a: Facts, provider: Option<Provider>, now: int) {
    && (provider.Some? ==> a.provider == provider.value)
    && !a.disabled && a.credential.Some? && UpstreamFor(cfg, a).Some? && a.status != Failed
    && (a.rateLimitedUntil.Some? ==> a.rateLimitedUntil.value <= now)
    && (a.entitlementDeniedUntil.Some? ==> a.entitlementDeniedUntil.value <= now)
  }

  lemma {:induction false} CappedExactly(cfg: Settings, a: Facts, model: Option<string>)
    ensures CappedBucket(cfg, a, model).None? <==> UnderCaps(cfg, a, model)
  {
    var key := WeeklyKeyFor(cfg, model);
    assert a.quota.WeeklyBucket(key).utilization == ReadingOf(a, MetricOf(key));
    if UnderCaps(cfg, a, model) && a.maxUsage.Some? {
      var caps := a.maxUsage.value;
      assert !Reached(ReadingOf(a, FiveHours), caps.CapFor(FiveHours));
      assert !Reached(ReadingOf(a, Week), caps.CapFor(Week));
      assert !Reached(ReadingOf(a, MetricOf(key)), caps.CapFor(MetricOf(key)));
      assert !Reached(ReadingOf(a, Tokens), caps.CapFor(Tokens));
    }
  }

  lemma {:induction false} NearExactly(cfg: Settings, a: Facts, model: Option<string>)
    ensures NearBucket(cfg, a, model).None? <==> UnderThresholds(cfg, a, model)
  {
    var key := WeeklyKeyFor(cfg, model);
    var limit := cfg.threshold.ForBucket(MetricOf(key));
    assert a.quota.WeeklyBucket(key).utilization == ReadingOf(a, MetricOf(key));
    assert Near(a.quota.GatingWeekly(key), Margin(a), limit)
      <==> Near(ReadingOf(a, Week), Margin(a), limit) || Near(ReadingOf(a, MetricOf(key)), Margin(a), limit);
    if UnderThresholds(cfg, a, model) {
      assert !Near(ReadingOf(a, Week), Margin(a), limit) && !Near(ReadingOf(a, MetricOf(key)), Margin(a), limit);
      assert !Near(ReadingOf(a, Tokens), 0.0, cfg.threshold.ForBucket(Tokens));
      assert !Near(ReadingOf(a, Requests), 0.0, cfg.threshold.ForBucket(Requests));
    }
  }

  /** The models of the request: its own, and the advisor's when it has one. */
  ghost predicate EveryModel(model: Option<string>, advisor: Option<string>, holds: Option<string> -> bool) {
    holds(model) && (advisor.Some? ==> holds(advisor))
  }

  /**
   An account can serve exactly when it is healthy, and its routes, caps and
   thresholds admit both models; the main-model threshold is its reason exactly
   when it is all that is in the way but, perhaps, the advisor's.
   */
  lemma {:induction false} AvailableExactly(
    cfg: Settings, all: seq<Facts>, a: Facts, model: Option<string>, advisor: Option<string>,
    provider: Option<Provider>, now: int)
    ensures var reason := Unavailable(cfg, all, a, model, advisor, provider, now);
            var uncapped := Healthy(cfg, a, provider, now)
                            && EveryModel(model, advisor, m => RouteAllows(cfg, all, a, m))
                            && EveryModel(model, advisor, m => UnderCaps(cfg, a, m));
            && (reason.None? <==> uncapped && EveryModel(model, advisor, m => UnderThresholds(cfg, a, m)))
            && (reason.Some? && reason.value.Soft() <==> uncapped && !UnderThresholds(cfg, a, model))
  {
    CappedExactly(cfg, a, model);
    CappedExactly(cfg, a, advisor);
    NearExactly(cfg, a, model);
    NearExactly(cfg, a, advisor);
  }

  /** A pool request may be sent to this account right now. */
  predicate Eligible(cfg: Settings, all: seq<Facts>, a: Facts, req: SelectRequest, now: int) {
    a.id !in req.exclude && IsAvailable(cfg, all, a, req, now)
  }

  /** Every non-excluded available account, in pool order. */
  function AvailableFrom(cfg: Settings, all: seq<Facts>, k: nat, req: SelectRequest, now: int): (v: seq<Facts>)
    requires k <= |all|
    ensures |v| <= |all| - k
    ensures forall a <- v :: a in all[k..] && Eligible(cfg, all, a, req, now)
    ensures forall j :: k <= j < |all| && Eligible(cfg, all, all[j], req, now) ==> all[j] in v
    decreases |all| - k
  {
    if k == |all| then []
    else
      var rest := AvailableFrom(cfg, all, k + 1, req, now);
      assert forall a <- all[k + 1..] :: a in all[k..];
      if Eligible(cfg, all, all[k], req, now) then [all[k]] + rest else rest
  }

  function Available(cfg: Settings, all: seq<Facts>, req: SelectRequest, now: int): (v: seq<Facts>)
    ensures forall a <- v :: a in all && Eligible(cfg, all, a, req, now)
    ensures forall a <- all :: Eligible(cfg, all, a, req, now) ==> a in v
  {
    AvailableFrom(cfg, all, 0, req, now)
  }

  // ── What the forwarder is given ──────────────────────────

  datatype Selected = Selected(
    id: Text,
    name: Text,
    kind: Kind,
    provider: Provider,
    credential: Text,
    accountUuid: Option<Text>,
    upstream: Upstream)

  function Snapshot(cfg: Settings, a: Facts): Option<Selected> {
    var u := UpstreamFor(cfg, a);
    if u.None? || a.credential.None? then None
    else Some(Selected(a.id, a.name, a.kind, a.provider, a.credential.value, a.accountUuid, u.value))
  }

  /** An account that is available, or held back by the switch threshold alone, can always be handed out. */
  lemma {:induction false} AvailableHasSnapshot(cfg: Settings, all: seq<Facts>, a: Facts, req: SelectRequest, now: int)
    ensures IsAvailable(cfg, all, a, req, now) ==> Snapshot(cfg, a).Some?
    ensures Unavailable(cfg, all, a, req.model, req.advisor, req.provider, now).Some?
            && Unavailable(cfg, all, a, req.model, req.advisor, req.provider, now).value.Soft()
            ==> Snapshot(cfg, a).Some?
  {
  }
}
