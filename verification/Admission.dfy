/**
 Storm control and the open-request margin: the counts each account keeps of the
 guards handed out on it, the ramp that paces admissions, and how far a burst of
 checked-but-not-yet-counted requests can overshoot the switch threshold.
 */
module Admission {
  import opened Options
  import opened Quotas
  import opened Sessions
  import opened Accounts

  /** What admission keeps for one account. */
  datatype Gate = Gate(inFlight: nat, open: nat, rampStartedAt: Option<int>)

  const ADMIT_RETRY_MS: nat := 50

  function AtLeastOne(n: nat): nat { if n == 0 then 1 else n }

  /** Concurrency the ramp allows so long after it started. */
  function Cap(storm: StormRamp, elapsed: nat): nat {
    AtLeastOne(storm.startConc) + (elapsed / AtLeastOne(storm.stepMs)) * storm.stepConc
  }

  function Elapsed(started: int, now: int): nat {
    if now < started then 0 else now - started
  }

  function Entered(g: Gate): Gate {
    g.(inFlight := g.inFlight + 1)
  }

  /** Admit now, or wait: outside a running ramp always admit, inside one up to its cap. */
  function TryAdmit(storm: StormRamp, g: Gate, now: int): (Gate, bool) {
    if !storm.enabled || g.rampStartedAt.None? then (Entered(g), true)
    else
      var elapsed := Elapsed(g.rampStartedAt.value, now);
      if elapsed >= storm.windowMs then (Entered(g).(rampStartedAt := None), true)
      else if g.inFlight < Cap(storm, elapsed) then (Entered(g), true)
      else (g, false)
  }

  function Less(n: nat): nat { if n > 0 then n - 1 else 0 }

  // ── Guards and counts over whole runs ────────────────────

  /** The accounts of a pool with the guards alive on each id, whether the pool still has it or not. */
  datatype Pool = Pool(gates: map<Text, Gate>, slots: multiset<Text>, opens: multiset<Text>)

  datatype Event =
    | Admit(id: Text, now: int)
    | DropSlot(id: Text)
    | Open(id: Text)
    | DropOpen(id: Text)
    | StartRamp(id: Text, now: int)
    | Reload(ids: set<Text>)

  /** A guard can only be dropped while it is alive. */
  predicate Enabled(p: Pool, e: Event) {
    match e
    case DropSlot(id) => id in p.slots
    case DropOpen(id) => id in p.opens
    case _ => true
  }

  function Update(p: Pool, id: Text, g: Gate): map<Text, Gate> {
    if id in p.gates then p.gates[id := g] else p.gates
  }

  function GateOf(p: Pool, id: Text): Gate {
    if id in p.gates then p.gates[id] else Gate(0, 0, None)
  }

  /** What an event makes of the gate of the account it is about. */
  function NextGate(storm: StormRamp, g: Gate, e: Event): Gate {
    match e
    case Admit(_, now) => TryAdmit(storm, g, now).0
    case DropSlot(_) => g.(inFlight := Less(g.inFlight))
    case Open(_) => g.(open := g.open + 1)
    case DropOpen(_) => g.(open := Less(g.open))
    case StartRamp(_, now) => g.(rampStartedAt := Some(now))
    case Reload(_) => g
  }

  function NextGates(storm: StormRamp, p: Pool, e: Event): map<Text, Gate> {
    match e
    case Reload(ids) => map id | id in ids :: GateOf(p, id)
    case _ => Update(p, e.id, NextGate(storm, GateOf(p, e.id), e))
  }

  /** The slot guards alive: a request admitted holds one, also on an account the pool does not have. */
  function NextSlots(storm: StormRamp, p: Pool, e: Event): multiset<Text> {
    match e
    case Admit(id, now) =>
      if id !in p.gates || TryAdmit(storm, GateOf(p, id), now).1 then p.slots + multiset{id} else p.slots
    case DropSlot(id) => p.slots - multiset{id}
    case _ => p.slots
  }

  /** The open guards alive. */
  function NextOpens(p: Pool, e: Event): multiset<Text> {
    match e
    case Open(id) => p.opens + multiset{id}
    case DropOpen(id) => p.opens - multiset{id}
    case _ => p.opens
  }

  function Next(storm: StormRamp, p: Pool, e: Event): Pool {
    Pool(NextGates(storm, p, e), NextSlots(storm, p, e), NextOpens(p, e))
  }

  /** Every account's counts are exactly the guards alive on it. */
  ghost predicate CountsAreGuards(p: Pool) {
    forall id <- p.gates :: p.gates[id].inFlight == p.slots[id] && p.gates[id].open == p.opens[id]
  }

  /** The reload brings in no id with guards alive from before it left the pool. */
  predicate BringsNoGuards(p: Pool, e: Event) {
    e.Reload? ==> forall id <- e.ids :: id !in p.gates ==> p.slots[id] == 0 && p.opens[id] == 0
  }

  /** A reload keeps the counts right exactly when no account comes back while its guards are alive. */
  lemma {:induction false} ReloadKeepsCountsExactly(storm: StormRamp, p: Pool, ids: set<Text>)
    requires CountsAreGuards(p)
    ensures CountsAreGuards(Next(storm, p, Reload(ids))) <==> BringsNoGuards(p, Reload(ids))
  {
    var q := Next(storm, p, Reload(ids));
    if CountsAreGuards(q) {
      forall id <- ids | id !in p.gates
        ensures p.slots[id] == 0 && p.opens[id] == 0
      {
        assert id in q.gates;
      }
    }
  }

  function After(storm: StormRamp, p: Pool, run: seq<Event>): Pool
    decreases |run|
  {
    if run == [] then p else Next(storm, After(storm, p, run[..|run| - 1]), run[|run| - 1])
  }

  /** Every event could happen when it did, and no reload brought an account back under live guards. */
  ghost predicate IsRun(storm: StormRamp, p: Pool, run: seq<Event>)
    decreases |run|
  {
    run == [] ||
    (var before := After(storm, p, run[..|run| - 1]);
     var e := run[|run| - 1];
     IsRun(storm, p, run[..|run| - 1]) && Enabled(before, e) && BringsNoGuards(before, e))
  }

  /** In every run whose reloads bring in no guarded id, `in_flight` and `open` are the live guards. */
  lemma {:induction false} GuardsAreCounted(storm: StormRamp, p: Pool, run: seq<Event>)
    requires CountsAreGuards(p) && IsRun(storm, p, run)
    ensures CountsAreGuards(After(storm, p, run))
    decreases |run|
  {
    if run != [] {
      var n := |run| - 1;
      GuardsAreCounted(storm, p, run[..n]);
      CountedStep(storm, After(storm, p, run[..n]), run[n]);
    }
  }

  /** Every event could happen when it did. */
  ghost predicate IsPossible(storm: StormRamp, p: Pool, run: seq<Event>)
    decreases |run|
  {
    run == [] ||
    (IsPossible(storm, p, run[..|run| - 1]) && Enabled(After(storm, p, run[..|run| - 1]), run[|run| - 1]))
  }

  /** The counts are right at the start of the run and after each of its events. */
  ghost predicate AlwaysCounted(storm: StormRamp, p: Pool, run: seq<Event>)
    decreases |run|
  {
    CountsAreGuards(After(storm, p, run)) && (run == [] || AlwaysCounted(storm, p, run[..|run| - 1]))
  }

  /** Among all runs it is exactly these along which the counts are right throughout. */
  lemma {:induction false} CountedExactly(storm: StormRamp, p: Pool, run: seq<Event>)
    requires CountsAreGuards(p) && IsPossible(storm, p, run)
    ensures AlwaysCounted(storm, p, run) <==> IsRun(storm, p, run)
    decreases |run|
  {
    if run != [] {
      var n := |run| - 1;
      var before := After(storm, p, run[..n]);
      CountedExactly(storm, p, run[..n]);
      if AlwaysCounted(storm, p, run[..n]) {
        if run[n].Reload? {
          ReloadKeepsCountsExactly(storm, before, run[n].ids);
        } else {
          CountedStep(storm, before, run[n]);
        }
      }
    }
  }

  /**
   One request admitted, the account taken out of the configuration and put back while
   it is under way: whatever the ramp, the account's count has lost the request.
   */
  lemma {:induction false} ReloadForgetsAGuard(storm: StormRamp, id: Text, ramp: Option<int>, now: int)
    ensures var p := Pool(map[id := Gate(0, 0, ramp)], multiset{}, multiset{});
            var run := [Admit(id, now), Reload({}), Reload({id})];
            && CountsAreGuards(p) && IsPossible(storm, p, run)
            && After(storm, p, run).slots[id] == 1 && After(storm, p, run).gates[id].inFlight == 0
  {
    var p := Pool(map[id := Gate(0, 0, ramp)], multiset{}, multiset{});
    var run := [Admit(id, now), Reload({}), Reload({id})];
    hide IsPossible, After, Next;
    ThreeEvents(storm, p, run[0], run[1], run[2]);
    IdleAdmits(storm, p, id, now);
    OutAndIn(storm, Next(storm, p, run[0]), id);
    return;
  }

  lemma {:induction false} ThreeEvents(storm: StormRamp, p: Pool, a: Event, b: Event, c: Event)
    requires Enabled(p, a) && Enabled(Next(storm, p, a), b) && Enabled(Next(storm, Next(storm, p, a), b), c)
    ensures IsPossible(storm, p, [a, b, c])
    ensures After(storm, p, [a, b, c]) == Next(storm, Next(storm, Next(storm, p, a), b), c)
  {
    hide IsPossible, After, Next, Enabled;
    OneMoreEvent(storm, p, [], a);
    OneMoreEvent(storm, p, [a], b);
    OneMoreEvent(storm, p, [a, b], c);
    assert [] + [a] == [a];
    assert [a] + [b] == [a, b];
    assert [a, b] + [c] == [a, b, c];
    return;
  }

  lemma {:induction false} IdleAdmits(storm: StormRamp, p: Pool, id: Text, now: int)
    requires id in p.gates && p.gates[id].inFlight == 0
    ensures Next(storm, p, Admit(id, now)).slots == p.slots + multiset{id}
  {
  }

  lemma {:induction false} OutAndIn(storm: StormRamp, p: Pool, id: Text)
    ensures var back := Next(storm, Next(storm, p, Reload({})), Reload({id}));
            id in back.gates && back.gates[id].inFlight == 0 && back.slots == p.slots
  {
  }

  lemma {:induction false} OneMoreEvent(storm: StormRamp, p: Pool, run: seq<Event>, e: Event)
    ensures After(storm, p, run + [e]) == Next(storm, After(storm, p, run), e)
    ensures IsPossible(storm, p, run + [e]) <==> IsPossible(storm, p, run) && Enabled(After(storm, p, run), e)
    ensures After(storm, p, []) == p && IsPossible(storm, p, [])
  {
    assert (run + [e])[..|run|] == run;
  }

  /** An event works on the gate of one account, and of those that stay in the pool on no other. */
  lemma {:induction false} EachGateAlone(storm: StormRamp, q: Pool, e: Event, id: Text)
    requires id in q.gates && (e.Reload? ==> id in e.ids)
    ensures var gates := Next(storm, q, e).gates;
            && id in gates
            && gates[id] == if !e.Reload? && e.id == id then NextGate(storm, q.gates[id], e) else q.gates[id]
  {
    hide NextGate, NextSlots, NextOpens;
  }

  lemma {:induction false} AdmittedOnce(storm: StormRamp, g: Gate, now: int)
    ensures var (h, ok) := TryAdmit(storm, g, now);
            h.open == g.open && h.inFlight == g.inFlight + (if ok then 1 else 0)
  {
  }

  // Here and in other modules a proof that hides names ends in `return;`: the contract is then
  // checked where they are hidden, while at the closing brace every name is visible again.

  /** An event changes the slots alive on an account as it changes the requests in flight on it. */
  lemma {:induction false} SlotsCounted(storm: StormRamp, p: Pool, e: Event, id: Text)
    requires Enabled(p, e) && !e.Reload? && id in p.gates && p.gates[id].inFlight == p.slots[id]
    ensures (if e.id == id then NextGate(storm, p.gates[id], e) else p.gates[id]).inFlight == NextSlots(storm, p, e)[id]
  {
    if e.Admit? {
      AdmittedOnce(storm, GateOf(p, e.id), e.now);
    }
    hide TryAdmit;
    return;
  }

  /** And the open guards as it changes the open requests. */
  lemma {:induction false} OpensCounted(storm: StormRamp, p: Pool, e: Event, id: Text)
    requires Enabled(p, e) && !e.Reload? && id in p.gates && p.gates[id].open == p.opens[id]
    ensures (if e.id == id then NextGate(storm, p.gates[id], e) else p.gates[id]).open == NextOpens(p, e)[id]
  {
    if e.Admit? {
      AdmittedOnce(storm, p.gates[id], e.now);
    }
    hide TryAdmit;
    return;
  }

  lemma {:induction false} CountedStep(storm: StormRamp, p: Pool, e: Event)
    requires CountsAreGuards(p) && Enabled(p, e) && BringsNoGuards(p, e)
    ensures CountsAreGuards(Next(storm, p, e))
  {
    if e.Reload? {
      ReloadKeepsCountsExactly(storm, p, e.ids);
    } else {
      hide NextGate, NextSlots, NextOpens;
      var q := Next(storm, p, e);
      forall id <- q.gates
        ensures q.gates[id].inFlight == q.slots[id] && q.gates[id].open == q.opens[id]
      {
        EachGateAlone(storm, p, e, id);
        SlotsCounted(storm, p, e, id);
        OpensCounted(storm, p, e, id);
      }
    }
  }

  // ── The ramp ─────────────────────────────────────────────

  lemma {:induction false} CapGrows(storm: StormRamp, e1: nat, e2: nat)
    requires e1 <= e2
    ensures Cap(storm, e1) <= Cap(storm, e2)
  {
    var step := AtLeastOne(storm.stepMs);
    StepsGrow(e1, e2, step);
    TimesGrow(e1 / step, e2 / step, storm.stepConc);
  }

  lemma {:induction false} StepsGrow(x: nat, y: nat, step: nat)
    requires x <= y && step > 0
    ensures x / step <= y / step
  {
    var q, r := x / step, y / step;
    assert x == q * step + x % step && y == r * step + y % step;
    if q > r {
      TimesGrow(r + 1, q, step);
    }
  }

  lemma {:induction false} TimesGrow(a: nat, b: nat, k: nat)
    requires a <= b
    ensures a * k <= b * k
  {
  }

  function Max(a: nat, b: nat): nat { if a >= b then a else b }

  /** No event of the run starts the account's ramp again, and none drops the account from the pool. */
  ghost predicate NeverRestarts(run: seq<Event>, id: Text)
    decreases |run|
  {
    run == [] ||
    (var e := run[|run| - 1];
     && NeverRestarts(run[..|run| - 1], id)
     && !(e.StartRamp? && e.id == id) && !(e.Reload? && id !in e.ids))
  }

  /** Nobody tries the account's gate after `latest`. */
  ghost predicate NoneLater(run: seq<Event>, id: Text, latest: int)
    decreases |run|
  {
    run == [] ||
    (var e := run[|run| - 1];
     NoneLater(run[..|run| - 1], id, latest) && (e.Admit? && e.id == id ==> e.now <= latest))
  }

  /** One attempt inside a running ramp leaves the account within the cap of its time, or as it was. */
  lemma {:induction false} AdmitsWithinCap(storm: StormRamp, g: Gate, now: int, latest: int)
    requires storm.enabled && g.rampStartedAt.Some? && now <= latest
    requires g.rampStartedAt.value <= latest < g.rampStartedAt.value + storm.windowMs
    ensures var (h, ok) := TryAdmit(storm, g, now);
            && h.rampStartedAt == g.rampStartedAt
            && h.inFlight <= Max(g.inFlight, Cap(storm, latest - g.rampStartedAt.value))
  {
    CapGrows(storm, Elapsed(g.rampStartedAt.value, now), latest - g.rampStartedAt.value);
  }

  /**
   While the ramp started at `t0` runs, admissions never take the account past
   the cap of the latest time anyone tried it, or what it carried before.
   */
  lemma {:induction false} RampBoundsConcurrency(
    storm: StormRamp, p: Pool, run: seq<Event>, id: Text, t0: int, latest: int)
    requires storm.enabled && id in p.gates && p.gates[id].rampStartedAt == Some(t0)
    requires t0 <= latest < t0 + storm.windowMs
    requires NeverRestarts(run, id) && NoneLater(run, id, latest)
    ensures var q := After(storm, p, run);
            && id in q.gates && q.gates[id].rampStartedAt == Some(t0)
            && q.gates[id].inFlight <= Max(p.gates[id].inFlight, Cap(storm, latest - t0))
    decreases |run|
  {
    hide TryAdmit, Cap, Next;
    if run != [] {
      var n := |run| - 1;
      RampBoundsConcurrency(storm, p, run[..n], id, t0, latest);
      var q, e := After(storm, p, run[..n]), run[n];
      if e.Admit? && e.id == id {
        EachGateAlone(storm, q, e, id);
        AdmitsWithinCap(storm, q.gates[id], e.now, latest);
      } else {
        OtherEventsOnlyRelease(storm, q, e, id);
      }
    }
  }

  /** No other event raises the account's count or touches its ramp. */
  lemma {:induction false} OtherEventsOnlyRelease(storm: StormRamp, q: Pool, e: Event, id: Text)
    requires id in q.gates && !(e.Admit? && e.id == id)
    requires !(e.StartRamp? && e.id == id) && !(e.Reload? && id !in e.ids)
    ensures var r := Next(storm, q, e);
            && id in r.gates && r.gates[id].rampStartedAt == q.gates[id].rampStartedAt
            && r.gates[id].inFlight <= q.gates[id].inFlight
  {
    EachGateAlone(storm, q, e, id);
    hide Next;
    return;
  }

  /** The account has no ramp running, or the one that started at `t0`. */
  predicate RampIsFrom(g: Gate, t0: int) {
    g.rampStartedAt.Some? ==> g.rampStartedAt.value == t0
  }

  lemma {:induction false} OldRampOnly(storm: StormRamp, q: Pool, e: Event, id: Text, t0: int)
    requires RampIsFrom(GateOf(q, id), t0) && !(e.StartRamp? && e.id == id)
    ensures RampIsFrom(GateOf(Next(storm, q, e), id), t0)
  {
    if id in q.gates && (e.Reload? ==> id in e.ids) {
      EachGateAlone(storm, q, e, id);
    } else {
      NoGateNoRamp(storm, q, e, id);
    }
    hide Next;
    return;
  }

  /** An account outside the pool has no ramp: an event leaves it there, or a reload brings it in fresh. */
  lemma {:induction false} NoGateNoRamp(storm: StormRamp, q: Pool, e: Event, id: Text)
    requires id !in q.gates || (e.Reload? && id !in e.ids)
    ensures GateOf(Next(storm, q, e), id).rampStartedAt.None?
  {
    hide NextGate, NextSlots, NextOpens;
    return;
  }

  ghost predicate NoStart(run: seq<Event>, id: Text)
    decreases |run|
  {
    run == [] ||
    (var e := run[|run| - 1];
     NoStart(run[..|run| - 1], id) && !(e.StartRamp? && e.id == id))
  }

  /** A ramp no one restarts ends with its window: from then on every admission is granted at once. */
  lemma {:induction false} WindowEndAdmitsAll(storm: StormRamp, p: Pool, run: seq<Event>, id: Text, t0: int, now: int)
    requires RampIsFrom(GateOf(p, id), t0) && NoStart(run, id)
    requires now >= t0 + storm.windowMs
    ensures RampIsFrom(GateOf(After(storm, p, run), id), t0)
    ensures TryAdmit(storm, GateOf(After(storm, p, run), id), now).1
    decreases |run|
  {
    if run != [] {
      var n := |run| - 1;
      WindowEndAdmitsAll(storm, p, run[..n], id, t0, now);
      OldRampOnly(storm, After(storm, p, run[..n]), run[n], id, t0);
    }
  }

  /** Whoever is made to wait is made to wait by a full cap inside a running ramp. */
  lemma {:induction false} WaitsExactlyInAFullRamp(storm: StormRamp, g: Gate, now: int)
    ensures !TryAdmit(storm, g, now).1 <==>
            && storm.enabled && g.rampStartedAt.Some?
            && Elapsed(g.rampStartedAt.value, now) < storm.windowMs
            && g.inFlight >= Cap(storm, Elapsed(g.rampStartedAt.value, now))
    ensures TryAdmit(storm, g, now).0.inFlight == g.inFlight + (if TryAdmit(storm, g, now).1 then 1 else 0)
  {
  }

  // ── Overshooting the threshold ───────────────────────────

  /** Requests of one account between their send-time check and being counted, and those counted. */
  datatype Traffic = Traffic(checked: nat, open: nat)

  /** A send-time check sees the account as it is then; everything else about it may have changed since the last. */
  datatype Move =
    | Check(a: Facts, all: seq<Facts>, model: Option<string>, advisor: Option<string>, now: int)
    | BecomeOpen
    | GiveUp
    | Finish

  /** The check passes only for an account that is available with its open requests on top of its reading. */
  predicate Possible(cfg: Settings, reading: real, t: Traffic, m: Move) {
    match m
    case Check(a, all, model, advisor, now) =>
      && a.quota.fiveHour.utilization == Some(reading) && a.open == t.open
      && Unavailable(cfg, all, a, model, advisor, None, now).None?
    case BecomeOpen => t.checked > 0
    case GiveUp => t.checked > 0
    case Finish => t.open > 0
  }

  function Moved(t: Traffic, m: Move): Traffic {
    match m
    case Check(_, _, _, _, _) => t.(checked := t.checked + 1)
    case BecomeOpen => Traffic(Less(t.checked), t.open + 1)
    case GiveUp => t.(checked := Less(t.checked))
    case Finish => t.(open := Less(t.open))
  }

  function TrafficAfter(moves: seq<Move>): Traffic
    decreases |moves|
  {
    if moves == [] then Traffic(0, 0) else Moved(TrafficAfter(moves[..|moves| - 1]), moves[|moves| - 1])
  }

  /** Every move was possible when made, and at most `parallel` requests were ever past the check and not counted. */
  ghost predicate IsTraffic(cfg: Settings, reading: real, parallel: nat, moves: seq<Move>)
    decreases |moves|
  {
    moves == [] ||
    (var n := |moves| - 1;
     && IsTraffic(cfg, reading, parallel, moves[..n])
     && Possible(cfg, reading, TrafficAfter(moves[..n]), moves[n])
     && TrafficAfter(moves).checked <= parallel)
  }

  lemma {:induction false} PassingMeansUnder(
    cfg: Settings, all: seq<Facts>, a: Facts, model: Option<string>, advisor: Option<string>, now: int,
    reading: real)
    requires Unavailable(cfg, all, a, model, advisor, None, now).None?
    requires a.quota.fiveHour.utilization == Some(reading)
    ensures reading + a.open as real * OPEN_REQUEST_HEADROOM < cfg.threshold.ForBucket(FiveHours)
  {
  }

  /** What the requests past the check add, at the most, to the reading. */
  function Headroom(n: int): real { n as real * OPEN_REQUEST_HEADROOM }

  /**
   On a fixed 5h reading, with at most `parallel` requests ever between the
   check and being counted, the open requests less those few stay under the
   threshold in every reachable state.
   */
  lemma {:induction false} OvershootIsBounded(cfg: Settings, reading: real, parallel: nat, moves: seq<Move>)
    requires IsTraffic(cfg, reading, parallel, moves)
    ensures var t := TrafficAfter(moves);
            t.checked + t.open > 0 ==>
              reading + Headroom(t.checked + t.open - parallel) < cfg.threshold.ForBucket(FiveHours)
    decreases |moves|
  {
    if moves != [] {
      var n := |moves| - 1;
      OvershootIsBounded(cfg, reading, parallel, moves[..n]);
      match moves[n]
      case Check(a, all, model, advisor, now) =>
        PassingMeansUnder(cfg, all, a, model, advisor, now, reading);
      case _ =>
    }
  }

  // The bound is tight: a burst of `parallel` checks at the last open count that passes reaches it.

  lemma {:induction false} OneMove(cfg: Settings, reading: real, parallel: nat, moves: seq<Move>, m: Move)
    requires IsTraffic(cfg, reading, parallel, moves) && Possible(cfg, reading, TrafficAfter(moves), m)
    requires Moved(TrafficAfter(moves), m).checked <= parallel
    ensures IsTraffic(cfg, reading, parallel, moves + [m])
    ensures TrafficAfter(moves + [m]) == Moved(TrafficAfter(moves), m)
  {
    assert (moves + [m])[..|moves|] == moves;
  }

  /** Whether an account is a member of a route is a matter of its names. */
  lemma {:induction false} SameRoutes(cfg: Settings, all: seq<Facts>, a: Facts, b: Facts, model: Option<string>)
    requires a.id == b.id && a.name == b.name
    ensures RouteAllows(cfg, all, a, model) ==> RouteAllows(cfg, all, b, model)
  {
    if model.Some? && RouteFor(cfg.routes, model.value).Some? && RouteAllows(cfg, all, a, model) {
      var members := RouteFor(cfg.routes, model.value).value.members;
      if members != [] {
        var k :| 0 <= k < |members| && MemberIs(all, members[k], a);
        assert MemberIs(all, members[k], b);
      }
    }
  }

  lemma {:induction false} FewerOpenStaysUnder(cfg: Settings, a: Facts, fewer: nat, model: Option<string>)
    requires fewer <= a.open
    ensures UnderThresholds(cfg, a, model) ==> UnderThresholds(cfg, a.(open := fewer), model)
    ensures UnderCaps(cfg, a, model) ==> UnderCaps(cfg, a.(open := fewer), model)
  {
    var b := a.(open := fewer);
    assert Margin(b) <= Margin(a);
    assert forall m: Metric :: ReadingOf(b, m) == ReadingOf(a, m);
  }

  /** Fewer open requests never make an available account unavailable. */
  lemma {:induction false} FewerOpenStaysAvailable(
    cfg: Settings, all: seq<Facts>, a: Facts, fewer: nat, model: Option<string>, advisor: Option<string>,
    provider: Option<Provider>, now: int)
    requires fewer <= a.open && Unavailable(cfg, all, a, model, advisor, provider, now).None?
    ensures Unavailable(cfg, all, a.(open := fewer), model, advisor, provider, now).None?
  {
    var b := a.(open := fewer);
    AvailableExactly(cfg, all, a, model, advisor, provider, now);
    AvailableExactly(cfg, all, b, model, advisor, provider, now);
    assert UpstreamFor(cfg, b) == UpstreamFor(cfg, a);
    hide Unavailable, RouteAllows, UnderCaps, UnderThresholds;
    SameRoutes(cfg, all, a, b, model);
    SameRoutes(cfg, all, a, b, advisor);
    FewerOpenStaysUnder(cfg, a, fewer, model);
    FewerOpenStaysUnder(cfg, a, fewer, advisor);
    return;
  }

  /** What passes at some open count passes at any lower one. */
  lemma {:induction false} CheckAtOpen(
    cfg: Settings, reading: real, all: seq<Facts>, a: Facts, fewer: nat, model: Option<string>,
    advisor: Option<string>, now: int)
    returns (check: Move)
    requires a.quota.fiveHour.utilization == Some(reading) && fewer <= a.open
    requires Unavailable(cfg, all, a, model, advisor, None, now).None?
    ensures check.Check? && Possible(cfg, reading, Traffic(0, fewer), check)
  {
    FewerOpenStaysAvailable(cfg, all, a, fewer, model, advisor, None, now);
    check := Check(a.(open := fewer), all, model, advisor, now);
  }

  lemma {:induction false} CheckThenOpen(
    cfg: Settings, reading: real, parallel: nat, before: seq<Move>, check: Move, n: nat)
    returns (moves: seq<Move>)
    requires parallel > 0 && IsTraffic(cfg, reading, parallel, before) && TrafficAfter(before) == Traffic(0, n)
    requires check.Check? && Possible(cfg, reading, Traffic(0, n), check)
    ensures IsTraffic(cfg, reading, parallel, moves) && TrafficAfter(moves) == Traffic(0, n + 1)
  {
    OneMove(cfg, reading, parallel, before, check);
    OneMove(cfg, reading, parallel, before + [check], BecomeOpen);
    moves := before + [check] + [BecomeOpen];
  }

  lemma {:induction false} OneAtATime(
    cfg: Settings, parallel: nat, all: seq<Facts>, a: Facts, model: Option<string>,
    advisor: Option<string>, now: int, n: nat)
    returns (moves: seq<Move>)
    requires a.quota.fiveHour.utilization.Some? && parallel > 0 && n <= a.open
    requires Unavailable(cfg, all, a, model, advisor, None, now).None?
    ensures IsTraffic(cfg, a.quota.fiveHour.utilization.value, parallel, moves) && TrafficAfter(moves) == Traffic(0, n)
  {
    moves := [];
    if n > 0 {
      moves := OneAtATime(cfg, parallel, all, a, model, advisor, now, n - 1);
      var reading := a.quota.fiveHour.utilization.value;
      var check := CheckAtOpen(cfg, reading, all, a, n - 1, model, advisor, now);
      moves := CheckThenOpen(cfg, reading, parallel, moves, check, n - 1);
    }
  }

  lemma {:induction false} AllCheck(
    cfg: Settings, parallel: nat, all: seq<Facts>, a: Facts, model: Option<string>,
    advisor: Option<string>, now: int, n: nat)
    returns (moves: seq<Move>)
    requires a.quota.fiveHour.utilization.Some? && n <= parallel && parallel > 0
    requires Unavailable(cfg, all, a, model, advisor, None, now).None?
    ensures IsTraffic(cfg, a.quota.fiveHour.utilization.value, parallel, moves)
    ensures TrafficAfter(moves) == Traffic(n, a.open)
  {
    if n == 0 {
      moves := OneAtATime(cfg, parallel, all, a, model, advisor, now, a.open);
    } else {
      moves := AllCheck(cfg, parallel, all, a, model, advisor, now, n - 1);
      OneMove(cfg, a.quota.fiveHour.utilization.value, parallel, moves, Check(a, all, model, advisor, now));
      moves := moves + [Check(a, all, model, advisor, now)];
    }
  }

  /** Whatever open count still passes the check, `parallel` more requests than that can be open at once. */
  lemma {:induction false} OvershootIsReached(
    cfg: Settings, parallel: nat, all: seq<Facts>, a: Facts, model: Option<string>,
    advisor: Option<string>, now: int, n: nat)
    returns (moves: seq<Move>)
    requires a.quota.fiveHour.utilization.Some? && n <= parallel && parallel > 0
    requires Unavailable(cfg, all, a, model, advisor, None, now).None?
    ensures IsTraffic(cfg, a.quota.fiveHour.utilization.value, parallel, moves)
    ensures TrafficAfter(moves) == Traffic(parallel - n, a.open + n)
  {
    if n == 0 {
      moves := AllCheck(cfg, parallel, all, a, model, advisor, now, parallel);
    } else {
      moves := OvershootIsReached(cfg, parallel, all, a, model, advisor, now, n - 1);
      OneMove(cfg, a.quota.fiveHour.utilization.value, parallel, moves, BecomeOpen);
      moves := moves + [BecomeOpen];
    }
  }
}
