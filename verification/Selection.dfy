/**
 Which account a request goes to, as a decision over the state of one pool:
 the reference the fleet's own stages are checked against.
 */
module Selection {
  import opened Options
  import opened Quotas
  import opened Sessions
  import opened Accounts
  import opened Ranking

  const THROTTLE_PROBE_FLOOR_MS: int := 30 * 1000

  datatype State = State(
    cfg: Settings,
    accounts: seq<Account>,
    current: Option<Text>,
    routePins: map<Text, Text>,
    sessions: map<string, Session>)
  {
    function All(): seq<Facts> { FactsOf(accounts) }
  }

  function FactsOf(accounts: seq<Account>): (all: seq<Facts>)
    ensures |all| == |accounts|
    ensures forall i :: 0 <= i < |accounts| ==> all[i] == accounts[i].facts
  {
    seq(|accounts|, i requires 0 <= i < |accounts| => accounts[i].facts)
  }

  datatype Choice =
    | Served(who: Selected)
    | Exhausted(retryAfterSecs: Option<int>, why: seq<(Text, Option<Reason>)>)
    | PinUnavailable(name: Text, reason: Reason)
    | PinUnknown

  datatype Outcome = Outcome(s: State, r: Choice)

  /** Two states that agree on everything a choice depends on; only marks and the cursor may differ. */
  ghost predicate SameFacts(s: State, t: State) {
    && t.cfg == s.cfg && t.routePins == s.routePins && t.sessions == s.sessions
    && t.All() == s.All()
  }

  // ── Bookkeeping ──────────────────────────────────────────

  /** Change the marks of the account at `i`. */
  function WithMarks(s: State, i: nat, m: Marks): (s': State)
    requires i < |s.accounts|
    ensures s'.All() == s.All() && s'.accounts == s.accounts[i := Account(s.accounts[i].facts, m)]
  {
    var s' := s.(accounts := s.accounts[i := s.accounts[i].(marks := m)]);
    assert s'.All() == s.All();
    s'
  }

  function ClearedFacts(cfg: Settings, f: Facts, now: int): Facts {
    var g := f.(quota := ClearExpired(f.quota, cfg.threshold, now, cfg.familyStaleMs));
    if g.rateLimitedUntil.Some? && g.rateLimitedUntil.value <= now
    then g.(rateLimitedUntil := None, quotaHold := false, status := if g.status == Throttled then Active else g.status)
    else g
  }

  /** Drop every window and hold that has run out. */
  function ClearAll(s: State, now: int): (s': State)
    ensures |s'.accounts| == |s.accounts|
    ensures forall i :: 0 <= i < |s.accounts| ==>
              s'.accounts[i] == Account(ClearedFacts(s.cfg, s.accounts[i].facts, now), s.accounts[i].marks)
  {
    s.(accounts := seq(|s.accounts|, i requires 0 <= i < |s.accounts| =>
                         Account(ClearedFacts(s.cfg, s.accounts[i].facts, now), s.accounts[i].marks)))
  }

  predicate ExpiryPreempts(cfg: Settings) {
    cfg.expiry.enabled && cfg.expiry.preempt
  }

  /** The governing weekly window of the account has rolled over since it was last confirmed. */
  predicate RolledOver(cfg: Settings, a: Account, model: Option<string>) {
    var key := WeeklyKeyFor(cfg, model);
    var reset := a.facts.quota.WeeklyBucket(key).resetAt;
    ExpiryPreempts(cfg) && reset.Some? && key in a.marks.rolloverBaseline && reset.value > a.marks.rolloverBaseline[key]
  }

  function Confirmed(cfg: Settings, a: Account, model: Option<string>): Marks {
    var key := WeeklyKeyFor(cfg, model);
    var reset := a.facts.quota.WeeklyBucket(key).resetAt;
    if ExpiryPreempts(cfg) && reset.Some?
    then a.marks.(rolloverBaseline := a.marks.rolloverBaseline[key := reset.value])
    else a.marks
  }

  function NoteBaseline(s: State, id: Text, model: Option<string>): (t: State)
    ensures SameFacts(s, t) && t.current == s.current
    ensures |t.accounts| == |s.accounts|
    ensures forall i :: 0 <= i < |s.accounts| && s.accounts[i].facts.id != id ==> t.accounts[i] == s.accounts[i]
  {
    match Find(s.All(), id)
    case Some(i) => WithMarks(s, i, Confirmed(s.cfg, s.accounts[i], model))
    case None => s
  }

  /** The two states differ in ramps, learning flags and the cursor only. */
  ghost predicate OnlyRampsDiffer(s: State, t: State) {
    && |t.accounts| == |s.accounts|
    && forall i :: 0 <= i < |s.accounts| ==>
         && t.accounts[i].marks.rolloverBaseline == s.accounts[i].marks.rolloverBaseline
         && t.accounts[i].marks.requalify == s.accounts[i].marks.requalify
         && t.accounts[i].marks.lastProbeAt == s.accounts[i].marks.lastProbeAt
  }

  function Started(a: Account, now: int): Marks {
    a.marks.(rampStartedAt := Some(now), probing := a.facts.quota.week.resetAt.None?)
  }

  /** Point the cursor at `id`, or only divert this request to it; either way a switch starts its ramp. */
  function SetCurrent(s: State, id: Text, now: int, scoped: bool): (t: State)
    ensures SameFacts(s, t) && t.current == (if scoped then s.current else Some(id))
    ensures OnlyRampsDiffer(s, t)
  {
    var moved := if scoped then s else s.(current := Some(id));
    if s.current == Some(id) then moved
    else
      match Find(moved.All(), id)
      case Some(i) => WithMarks(moved, i, Started(moved.accounts[i], now))
      case None => moved
  }

  /** Start the ramp of an account that is idle and has none running. */
  ghost function RampIfCold(s: State, id: Text, now: int): (t: State)
    ensures SameFacts(s, t) && t.current == s.current && OnlyRampsDiffer(s, t)
  {
    match Find(s.All(), id)
    case Some(i) =>
      var a := s.accounts[i];
      if a.marks.rampStartedAt.None? && a.facts.inFlight == 0 && ActiveOn(s.sessions, id, now) == 0
      then WithMarks(s, i, a.marks.(rampStartedAt := Some(now))) else s
    case None => s
  }

  // ── Ranking the pool ─────────────────────────────────────

  /** The session load of each account, or none when sessions are not distributed. */
  ghost function Weigh(s: State, v: seq<Facts>, now: int): (cs: seq<Candidate>)
    ensures |cs| == |v| && forall i :: 0 <= i < |v| ==> cs[i].a == v[i]
  {
    seq(|v|, i requires 0 <= i < |v| =>
      if s.cfg.distributeSessions
      then Candidate(v[i], ActiveOn(s.sessions, v[i].id, now), InFlightOn(s.sessions, v[i].id, now) + v[i].inFlight)
      else Candidate(v[i], 0, 0))
  }

  ghost function Pool(s: State, req: SelectRequest, now: int): seq<Candidate> {
    Weigh(s, Available(s.cfg, s.All(), req, now), now)
  }

  ghost function Best(s: State, req: SelectRequest, now: int): Option<Facts> {
    var ranked := Ranked(s.cfg, Pool(s, req, now), req.model, now);
    if ranked == [] then None else Some(ranked[0].a)
  }

  predicate InPool(cs: seq<Candidate>, id: Text) {
    exists k :: 0 <= k < |cs| && cs[k].a.id == id
  }

  /** Soonest-reset routing: `best` sits in an earlier weekly or 5h band than `cur`. */
  ghost predicate Preempts(s: State, best: Facts, cur: Facts, req: SelectRequest, now: int) {
    var pool := Pool(s, req, now);
    && s.cfg.soonestReset && best.id != cur.id
    && InPool(pool, best.id) && InPool(pool, cur.id)
    && PlaceOf(pool, best, req.model, now).Sooner(PlaceOf(pool, cur, req.model, now))
  }

  /** Nothing takes the request away from the account it already sits on. */
  ghost predicate Stays(s: State, i: nat, req: SelectRequest, now: int)
    requires i < |s.accounts|
  {
    var a := s.accounts[i];
    var best := Best(s, req, now);
    && !(best.Some? && (best.value.priority < a.facts.priority || Preempts(s, best.value, a.facts, req, now)))
    && !RolledOver(s.cfg, a, req.model)
  }

  // ── Pins ─────────────────────────────────────────────────

  predicate HalvesMatch(f: Facts, t: PinToken) {
    t.halves.Some? && f.accountUuid == Some(t.halves.value.0) && f.orgUuid == Some(t.halves.value.1)
  }

  predicate WholeMatches(f: Facts, t: PinToken) {
    f.id == t.whole || f.accountUuid == Some(t.whole) || f.orgUuid == Some(t.whole)
    || f.name == t.whole || f.email == Some(t.whole)
  }

  function FirstHalves(all: seq<Facts>, t: PinToken, k: nat): (i: Option<nat>)
    requires k <= |all|
    ensures i.Some? ==> k <= i.value < |all| && HalvesMatch(all[i.value], t)
    decreases |all| - k
  {
    if k == |all| then None else if HalvesMatch(all[k], t) then Some(k) else FirstHalves(all, t, k + 1)
  }

  function FirstWhole(all: seq<Facts>, t: PinToken, k: nat): (i: Option<nat>)
    requires k <= |all|
    ensures i.Some? ==> k <= i.value < |all| && WholeMatches(all[i.value], t)
    decreases |all| - k
  {
    if k == |all| then None else if WholeMatches(all[k], t) then Some(k) else FirstWhole(all, t, k + 1)
  }

  /** A token with a slash names an account and its organization; failing that, any one of an account's names. */
  function ResolvePin(all: seq<Facts>, t: PinToken): (i: Option<nat>)
    ensures i.Some? ==> i.value < |all| && (HalvesMatch(all[i.value], t) || WholeMatches(all[i.value], t))
  {
    FirstHalves(all, t, 0).Or(FirstWhole(all, t, 0))
  }

  // ── The decision ─────────────────────────────────────────

  function Serve(s: State, a: Facts): Choice {
    match Snapshot(s.cfg, a)
    case Some(who) => Served(who)
    case None => PinUnavailable(a.name, NoCredential)
  }

  function ReasonAt(s: State, i: nat, req: SelectRequest, now: int): Option<Reason>
    requires i < |s.accounts|
  {
    Unavailable(s.cfg, s.All(), s.accounts[i].facts, req.model, req.advisor, req.provider, now)
  }

  /** A pin bypasses the switch threshold of the main model and nothing else; it never fails over. */
  function Pinned(s: State, pin: PinToken, req: SelectRequest, now: int): Choice {
    match ResolvePin(s.All(), pin)
    case None => PinUnknown
    case Some(i) =>
      var a := s.accounts[i].facts;
      var reason := ReasonAt(s, i, req, now);
      if reason.Some? && !reason.value.Soft() then PinUnavailable(a.name, reason.value) else Serve(s, a)
  }

  function RouteOf(s: State, req: SelectRequest): Option<Route> {
    if req.model.Some? then RouteFor(s.cfg.routes, req.model.value) else None
  }

  predicate EligibleAt(s: State, i: nat, req: SelectRequest, now: int)
    requires i < |s.accounts|
  {
    Eligible(s.cfg, s.All(), s.accounts[i].facts, req, now)
  }

  /** Where the account `id` stands in the pool, if it can take the request. */
  function Usable(s: State, id: Option<Text>, req: SelectRequest, now: int): (i: Option<nat>)
    ensures i.Some? ==> i.value < |s.accounts| && EligibleAt(s, i.value, req, now)
    ensures i.Some? ==> Some(s.accounts[i.value].facts.id) == id && Find(s.All(), id.value) == i
  {
    if id.None? then None
    else
      var i := Find(s.All(), id.value);
      if i.Some? && EligibleAt(s, i.value, req, now) then i else None
  }

  function RoutePin(s: State, req: SelectRequest): Option<Text> {
    var route := RouteOf(s, req);
    if route.Some? && route.value.name in s.routePins then Some(s.routePins[route.value.name]) else None
  }

  function SessionPin(s: State, req: SelectRequest): Option<Text> {
    if req.session.None? then None
    else
      PinnedAccount(s.sessions, req.session.value, WeeklyKeyFor(s.cfg, req.model)).Or(
        if s.cfg.distributeSessions then AnyPin(s.sessions, req.session.value) else None)
  }

  /** The cursor's account serves requests in general, whatever this one asks for. */
  predicate CursorWorks(s: State, req: SelectRequest, now: int) {
    s.current.Some? &&
    var i := Find(s.All(), s.current.value);
    i.Some? && Unavailable(s.cfg, s.All(), s.accounts[i.value].facts, None, None, req.provider, now).None?
  }

  /** A new session on the least loaded account; the cursor moves only if its account no longer serves. */
  ghost function Distribute(s: State, best: Facts, req: SelectRequest, now: int): (o: Outcome)
    ensures SameFacts(s, o.s)
  {
    Outcome(if CursorWorks(s, req, now) then RampIfCold(s, best.id, now) else SetCurrent(s, best.id, now, false),
            Serve(s, best))
  }

  /** Move the cursor to the best account and confirm it there. */
  function MoveTo(s: State, best: Facts, req: SelectRequest, now: int): (o: Outcome)
    ensures SameFacts(s, o.s) && o.s.current == Some(best.id) && |o.s.accounts| == |s.accounts|
    ensures forall i :: 0 <= i < |s.accounts| && s.accounts[i].facts.id != best.id ==>
              o.s.accounts[i].marks.rolloverBaseline == s.accounts[i].marks.rolloverBaseline
  {
    Outcome(NoteBaseline(SetCurrent(s, best.id, now, false), best.id, req.model), Serve(s, best))
  }

  /** The cursor's account keeps the request while it can serve and nothing preempts it. */
  ghost function Sticky(s: State, best: Facts, req: SelectRequest, now: int): (o: Outcome)
    ensures SameFacts(s, o.s)
  {
    var at := if s.current.Some? then Find(s.All(), s.current.value) else None;
    match at
    case None => MoveTo(s, best, req, now)
    case Some(i) =>
      var a := s.accounts[i];
      if a.marks.requalify then
        MoveTo(WithMarks(s, i, a.marks.(requalify := false)), best, req, now)
      else if EligibleAt(s, i, req, now) then
        if Stays(s, i, req, now) then Outcome(NoteBaseline(s, a.facts.id, req.model), Serve(s, a.facts))
        else MoveTo(s, best, req, now)
      else
        var scoped := a.facts.id !in req.exclude
                      && Unavailable(s.cfg, s.All(), a.facts, None, None, req.provider, now).None?;
        Outcome(SetCurrent(s, best.id, now, scoped), Serve(s, best))
  }

  /** An account only its main-model threshold blocks, not probed a moment ago. */
  predicate Probeable(s: State, i: nat, req: SelectRequest, now: int)
    requires i < |s.accounts|
  {
    var a := s.accounts[i];
    && a.facts.id !in req.exclude
    && ReasonAt(s, i, req, now).Some? && ReasonAt(s, i, req, now).value.Soft()
    && (a.marks.lastProbeAt.Some? ==> now - a.marks.lastProbeAt.value >= THROTTLE_PROBE_FLOOR_MS)
  }

  function ProbeReset(f: Facts, model: Option<string>): int {
    WeeklyResetFor(f, model).Or(f.quota.fiveHour.resetAt).GetOr(I64_MAX)
  }

  /** Whether the account at `i` is taken over the probe picked so far. */
  predicate BetterProbe(s: State, i: nat, p: Option<nat>, req: SelectRequest)
    requires i < |s.accounts| && (p.Some? ==> p.value < |s.accounts|)
  {
    p.None? || ProbeReset(s.accounts[i].facts, req.model) < ProbeReset(s.accounts[p.value].facts, req.model)
  }

  /** Among the first `n` accounts, the probeable one whose quota resets soonest, the first of equals. */
  function ProbePick(s: State, n: nat, req: SelectRequest, now: int): (p: Option<nat>)
    requires n <= |s.accounts|
    ensures p.Some? ==> p.value < n
  {
    if n == 0 then None
    else
      var p := ProbePick(s, n - 1, req, now);
      if Probeable(s, n - 1, req, now) && BetterProbe(s, n - 1, p, req) then Some(n - 1) else p
  }

  /**
   The probe is a probeable account that resets no later than any other and sooner
   than any before it, and there is one if any is probeable.
   */
  lemma {:induction false} ProbeIsSoonest(s: State, n: nat, req: SelectRequest, now: int)
    requires n <= |s.accounts|
    ensures var p := ProbePick(s, n, req, now);
            && (p.Some? ==> Probeable(s, p.value, req, now))
            && forall i {:trigger Probeable(s, i, req, now)} :: 0 <= i < n && Probeable(s, i, req, now) ==>
                 && p.Some?
                 && ProbeReset(s.accounts[p.value].facts, req.model) <= ProbeReset(s.accounts[i].facts, req.model)
                 && (i < p.value ==>
                       ProbeReset(s.accounts[p.value].facts, req.model) < ProbeReset(s.accounts[i].facts, req.model))
  {
    if n > 0 {
      ProbeIsSoonest(s, n - 1, req, now);
    }
  }

  /** What an exhausted pool reports of its first `n` accounts. */
  datatype Report = Report(quotaBound: bool, soonest: Option<int>, why: seq<(Text, Option<Reason>)>)

  function Recovery(f: Facts): Option<int> {
    f.rateLimitedUntil.Or(f.quota.SoonestReset())
  }

  function Reported(s: State, n: nat, req: SelectRequest, now: int): Report
    requires n <= |s.accounts|
  {
    if n == 0 then Report(false, None, [])
    else
      var rep := Reported(s, n - 1, req, now);
      var f := s.accounts[n - 1].facts;
      if req.provider.Some? && f.provider != req.provider.value then rep
      else
        var reason := Unavailable(s.cfg, s.All(), f, req.model, req.advisor, None, now);
        var rep := rep.(why := rep.why + [(f.name, reason)]);
        if reason.None? || !reason.value.HeldBack() then rep
        else
          var r := Recovery(f);
          var sooner := r.Some? && r.value > now && (rep.soonest.None? || r.value < rep.soonest.value);
          rep.(quotaBound := true, soonest := if sooner then r else rep.soonest)
  }

  function RetryAfter(rep: Report, now: int): Option<int> {
    if !rep.quotaBound then None
    else if rep.soonest.None? then Some(60)
    else
      var secs := (rep.soonest.value - now) / 1000;
      Some(if secs < 5 then 5 else if secs > 3600 then 3600 else secs)
  }

  function ExhaustedNow(s: State, req: SelectRequest, now: int): Choice {
    var rep := Reported(s, |s.accounts|, req, now);
    Exhausted(RetryAfter(rep, now), rep.why)
  }

  /** The cursor's account is no longer marked for a second look. */
  function Requalified(s: State): (t: State)
    ensures SameFacts(s, t) && t.current == s.current
    ensures |t.accounts| == |s.accounts|
    ensures forall i :: 0 <= i < |s.accounts| ==> t.accounts[i].marks.lastProbeAt == s.accounts[i].marks.lastProbeAt
  {
    var at := if s.current.Some? then Find(s.All(), s.current.value) else None;
    if at.Some? && s.accounts[at.value].marks.requalify
    then WithMarks(s, at.value, s.accounts[at.value].marks.(requalify := false)) else s
  }

  /** Revalidate one account a stale reading may be holding back, or give up. */
  function Revalidate(t: State, req: SelectRequest, now: int): (o: Outcome)
    ensures SameFacts(t, o.s) && o.s.current == t.current
  {
    var p := if req.allowProbe then ProbePick(t, |t.accounts|, req, now) else None;
    match p
    case Some(i) =>
      Outcome(WithMarks(t, i, t.accounts[i].marks.(lastProbeAt := Some(now))), Serve(t, t.accounts[i].facts))
    case None => Outcome(t, ExhaustedNow(t, req, now))
  }

  /** Nobody is available: the cursor's mark has been looked at, and one account is revalidated or nobody serves. */
  function Nobody(s: State, req: SelectRequest, now: int): (o: Outcome)
    ensures SameFacts(s, o.s) && o.s.current == s.current
  {
    Revalidate(Requalified(s), req, now)
  }

  /** The decision on a state whose expired windows are already cleared. */
  ghost function Decide(s: State, req: SelectRequest, now: int): (o: Outcome)
    ensures SameFacts(s, o.s)
  {
    if req.pin.Some? then Outcome(s, Pinned(s, req.pin.value, req, now))
    else
      var routed := Usable(s, RoutePin(s, req), req, now);
      if routed.Some? then Outcome(s, Serve(s, s.accounts[routed.value].facts))
      else
        var held := Usable(s, SessionPin(s, req), req, now);
        if held.Some? && Stays(s, held.value, req, now) then
          Outcome(NoteBaseline(s, s.accounts[held.value].facts.id, req.model), Serve(s, s.accounts[held.value].facts))
        else
          match Best(s, req, now)
          case None => Nobody(s, req, now)
          case Some(best) =>
            if req.session.Some? && s.cfg.distributeSessions then Distribute(s, best, req, now)
            else Sticky(s, best, req, now)
  }

  ghost function Select(s: State, req: SelectRequest, now: int): Outcome {
    Decide(ClearAll(s, now), req, now)
  }
}
