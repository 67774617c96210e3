/**
 The loop that serves one client request: select an account, attempt it, and
 retry, fail over, hold or give up. What selection, the upstream and the clock
 answer is arbitrary; the log records what the loop did.
 */
module Forwarding {
  import opened Options

  type Id = nat

  const MAX_ATTEMPTS: nat := 6
  const MAX_SELECTIONS: nat := MAX_ATTEMPTS * 3
  const MAX_SAME_ACCOUNT_RETRIES: nat := 4
  const MAX_RATE_LIMIT_HOPS: nat := 2
  const HEADERLESS_429_PAUSE_SECONDS: nat := 5

  datatype Chosen =
    | Account(id: Id)
    | PinUnknown
    | PinUnavailable
    | Exhausted(retryAfter: Option<nat>)

  datatype Attempt =
    | Done
    | Reject
    | Abort
    | Failover
    | RetrySame(waitSecs: nat)
    | RateLimitedHop(retryAfter: nat)
  {
    /** The client is answered with what the attempt produced, and nothing else is tried. */
    predicate Final() { Done? || Reject? || Abort? }

    predicate LeavesAccount() { Failover? || RateLimitedHop? }
  }

  /** What the client gets: the attempt's own response, or an error the loop makes. */
  datatype Reply =
    | FromAttempt
    | Error(status: nat, retryAfter: Option<nat>)

  datatype Event =
    | Selected(exclude: set<Id>, got: Chosen)
    | Attempted(id: Id, outcome: Attempt)
    | Held(secs: nat)

  /** The answers of everything outside the loop, indexed by how many were asked for before. */
  datatype World = World(
    select: (nat, set<Id>) -> Chosen,
    attempt: (nat, Id) -> Attempt,
    beforeDeadline: nat -> bool)

  /** What selection promises of an unpinned request; of a pinned one it promises nothing here. */
  ghost predicate KeepsExclusion(w: World) {
    forall n, exclude :: w.select(n, exclude).Account? ==> w.select(n, exclude).id !in exclude
  }

  function Clamp(n: nat, lo: nat, hi: nat): nat
    requires lo <= hi
  {
    if n < lo then lo else if n > hi then hi else n
  }

  /** How long a request is held before selection is asked again. */
  function HoldSecs(retryAfter: Option<nat>): (secs: nat)
    ensures 2 <= secs <= 30
  {
    Clamp(retryAfter.GetOr(HEADERLESS_429_PAUSE_SECONDS), 2, 30)
  }

  // ── What a log says ──────────────────────────────────────

  /** What happened to the request, the latest event last. */
  datatype Log = Start | Then(before: Log, e: Event) {
    function Events(): seq<Event> {
      if Start? then [] else before.Events() + [e]
    }
  }

  datatype Asked = Asked(selections: nat, attempts: nat)

  datatype Spent = Spent(retries: nat, hops: nat)

  datatype Paused = Paused(holds: nat, secs: nat)

  /** What a log adds up to. */
  datatype Tally = Tally(asked: Asked, spent: Spent, paused: Paused)

  const NOTHING: Tally := Tally(Asked(0, 0), Spent(0, 0), Paused(0, 0))

  function Chose(t: Tally): Tally {
    t.(asked := Asked(t.asked.selections + 1, t.asked.attempts))
  }

  function Counted(t: Tally, e: Event): Tally {
    match e
    case Selected(_, _) => Chose(t)
    case Held(secs) => t.(paused := Paused(t.paused.holds + 1, t.paused.secs + secs))
    case Attempted(_, outcome) =>
      t.(asked := Asked(t.asked.selections, t.asked.attempts + 1),
         spent := Spent(t.spent.retries + (if outcome.RetrySame? then 1 else 0),
                        t.spent.hops + (if outcome.RateLimitedHop? then 1 else 0)))
  }

  function Sum(log: Log): Tally {
    if log.Start? then NOTHING else Counted(Sum(log.before), log.e)
  }

  /** The accounts failed over since the last hold. */
  function FailedOver(log: Log): set<Id> {
    if log.Start? then {} else Marked(FailedOver(log.before), log.e)
  }

  function Marked(tried: set<Id>, e: Event): set<Id> {
    match e
    case Selected(_, _) => tried
    case Held(_) => {}
    case Attempted(id, outcome) =>
      if outcome.LeavesAccount() then tried + {id} else if outcome.RetrySame? then tried - {id} else tried
  }

  /** The time to retry of the latest exhausted selection. */
  function LastExhausted(log: Log): Option<nat> {
    if log.Start? then None else Noted(LastExhausted(log.before), log.e)
  }

  function Noted(last: Option<nat>, e: Event): Option<nat> {
    if e.Selected? && e.got.Exhausted? then e.got.retryAfter else last
  }

  /** The request goes on to another selection: pinned, only from a hold or a retry; unpinned, also from a fail-over. */
  predicate MaySelect(log: Log, pin: Option<Id>) {
    match log
    case Start => true
    case Then(_, Selected(_, _)) => false
    case Then(_, Held(_)) => true
    case Then(_, Attempted(_, outcome)) => GoesOn(outcome, pin.Some?)
  }

  /** The outcomes another selection may follow: a pin never fails over, and an answer is the end. */
  predicate GoesOn(outcome: Attempt, pinned: bool) {
    outcome.RetrySame? || (!pinned && outcome.LeavesAccount())
  }

  /** What may come next in the life of a request. */
  predicate Allowed(log: Log, e: Event, pin: Option<Id>) {
    match e
    // Selection is told of every account failed over since the last hold.
    case Selected(exclude, _) => MaySelect(log, pin) && exclude == FailedOver(log)
    // Only the account just selected is attempted; unpinned, it was not failed over since the last hold.
    case Attempted(id, _) =>
      log.Then? && log.e.Selected? && log.e.got == Account(id) && (pin.None? ==> id !in FailedOver(log))
    // Only an exhausted selection is held, for as long as it asks within two to thirty seconds.
    case Held(secs) =>
      log.Then? && log.e.Selected? && log.e.got.Exhausted? && secs == HoldSecs(log.e.got.retryAfter)
  }

  /** Every event was allowed by the ones before it. */
  predicate Lawful(log: Log, pin: Option<Id>) {
    log.Start? || (Lawful(log.before, pin) && Allowed(log.before, log.e, pin))
  }

  /** An event is what the world outside answered when it was asked. */
  predicate Answers(w: World, log: Log, e: Event, holdMs: nat) {
    match e
    case Selected(exclude, got) => got == w.select(Sum(log).asked.selections, exclude)
    case Attempted(id, outcome) => outcome == w.attempt(Sum(log).asked.selections, id)
    case Held(_) => MayHold(w, Sum(log).asked.selections, holdMs)
  }

  /** Holding is configured, and the deadline has not passed after `n` selections. */
  predicate MayHold(w: World, n: nat, holdMs: nat) {
    holdMs > 0 && w.beforeDeadline(n)
  }

  predicate Follows(w: World, log: Log, holdMs: nat) {
    log.Start? || (Follows(w, log.before, holdMs) && Answers(w, log.before, log.e, holdMs))
  }

  /** The number of accounts failed over. */
  function HowMany(tried: set<Id>): nat { |tried| }

  // ── Limits ───────────────────────────────────────────────

  /** No limit has been reached. */
  predicate WithinLimits(t: Tally, tried: nat, pinned: bool) {
    && t.spent.retries <= MAX_SAME_ACCOUNT_RETRIES && t.spent.hops < MAX_RATE_LIMIT_HOPS && tried < MAX_ATTEMPTS
    && t.asked.attempts + t.paused.holds == t.asked.selections <= MAX_SELECTIONS
    && (pinned ==> t.spent.hops == 0)
  }

  /** The furthest a request can get. */
  predicate AtLimits(t: Tally, tried: nat) {
    && t.asked.selections <= MAX_SELECTIONS && t.asked.attempts + t.paused.holds <= t.asked.selections
    && t.spent.retries <= MAX_SAME_ACCOUNT_RETRIES + 1 && t.spent.hops <= MAX_RATE_LIMIT_HOPS
    && tried <= MAX_ATTEMPTS
  }

  predicate NoneLeft(t: Tally, reply: Reply) {
    t.asked.selections == MAX_SELECTIONS && reply == Error(502, None)
  }

  /** How a request that is over ended, read off its last event. */
  predicate Ending(last: Event, t: Tally, tried: nat, pinned: bool, exhausted: Option<nat>, reply: Reply) {
    match last
    case Selected(exclude, got) => !got.Account? && reply == Refusal(got, exclude)
    case Held(_) => NoneLeft(t, reply)
    case Attempted(_, RetrySame(waitSecs)) =>
      if t.spent.retries > MAX_SAME_ACCOUNT_RETRIES then reply == Error(429, Some(if waitSecs < 1 then 1 else waitSecs))
      else NoneLeft(t, reply)
    case Attempted(_, RateLimitedHop(retryAfter)) =>
      if pinned || t.spent.hops == MAX_RATE_LIMIT_HOPS then reply == Error(429, Some(retryAfter))
      else if tried == MAX_ATTEMPTS then reply == Error(502, Some(retryAfter))
      else NoneLeft(t, reply)
    case Attempted(_, Failover) =>
      if pinned then reply == Error(502, None)
      else if tried == MAX_ATTEMPTS then reply == Error(502, exhausted)
      else NoneLeft(t, reply)
    case Attempted(_, _) => reply == FromAttempt
  }

  /** The answer when selection hands out nobody. */
  function Refusal(got: Chosen, tried: set<Id>): Reply
    requires !got.Account?
  {
    match got
    case PinUnknown => Error(404, None)
    case PinUnavailable => Error(429, Some(30))
    // Healthy accounts that were all tried are an upstream failure; anything else is a rate limit with a time to retry.
    case Exhausted(retryAfter) =>
      if tried != {} && retryAfter.None? then Error(502, None) else Error(429, Some(retryAfter.GetOr(60)))
  }

  /** The request is still being served, with `tried` accounts failed over since the last hold. */
  predicate Serving(log: Log, tried: nat, pin: Option<Id>) {
    Lawful(log, pin) && WithinLimits(Sum(log), tried, pin.Some?) && MaySelect(log, pin)
  }

  /** The request is over: how it ended, and the limits it ended within. */
  predicate Over(log: Log, tried: nat, pin: Option<Id>, reply: Reply) {
    && Lawful(log, pin) && log.Then?
    && Ending(log.e, Sum(log), tried, pin.Some?, LastExhausted(log), reply)
    && AtLimits(Sum(log), tried)
  }

  // ── One event more ───────────────────────────────────────

  lemma {:induction false} OneMoreEvent(log: Log, e: Event, pin: Option<Id>)
    requires Lawful(log, pin) && Allowed(log, e, pin)
    ensures var after := Then(log, e);
            && Lawful(after, pin) && Sum(after) == Counted(Sum(log), e)
            && FailedOver(after) == Marked(FailedOver(log), e) && LastExhausted(after) == Noted(LastExhausted(log), e)
  {
    hide Allowed, Counted, Marked, Noted;
  }

  lemma {:induction false} OneMoreAnswer(w: World, log: Log, e: Event, holdMs: nat)
    requires Follows(w, log, holdMs) && Answers(w, log, e, holdMs)
    ensures Follows(w, Then(log, e), holdMs)
  {
    hide Answers;
  }

  /** A selection is told of the accounts failed over, and changes nothing else but the count. */
  lemma {:induction false} SelectionIsLawful(log: Log, got: Chosen, pin: Option<Id>) returns (chosen: Log)
    requires Lawful(log, pin) && MaySelect(log, pin)
    ensures chosen == Then(log, Selected(FailedOver(log), got)) && Lawful(chosen, pin)
    ensures Sum(chosen) == Chose(Sum(log))
    ensures FailedOver(chosen) == FailedOver(log) && LastExhausted(chosen) == Noted(LastExhausted(log), chosen.e)
  {
    hide Lawful, MaySelect, Sum, FailedOver, LastExhausted;
    var e := Selected(FailedOver(log), got);
    OneMoreEvent(log, e, pin);
    chosen := Then(log, e);
  }

  /** The account selected is attempted. */
  lemma {:induction false} AttemptIsLawful(chosen: Log, outcome: Attempt, pin: Option<Id>) returns (after: Log)
    requires Lawful(chosen, pin) && chosen.Then? && chosen.e.Selected? && chosen.e.got.Account?
    requires pin.None? ==> chosen.e.got.id !in FailedOver(chosen)
    ensures after == Then(chosen, Attempted(chosen.e.got.id, outcome)) && Lawful(after, pin)
    ensures Sum(after) == Counted(Sum(chosen), after.e) && FailedOver(after) == Marked(FailedOver(chosen), after.e)
    ensures LastExhausted(after) == LastExhausted(chosen)
  {
    hide Lawful, Sum, FailedOver, LastExhausted, Counted, Marked;
    var e := Attempted(chosen.e.got.id, outcome);
    OneMoreEvent(chosen, e, pin);
    after := Then(chosen, e);
  }

  /** An exhausted selection is held, which starts the set of failed-over accounts afresh. */
  lemma {:induction false} HoldIsLawful(chosen: Log, pin: Option<Id>) returns (after: Log)
    requires Lawful(chosen, pin) && chosen.Then? && chosen.e.Selected? && chosen.e.got.Exhausted?
    ensures after == Then(chosen, Held(HoldSecs(chosen.e.got.retryAfter))) && Lawful(after, pin)
    ensures Sum(after) == Counted(Sum(chosen), after.e) && FailedOver(after) == {}
    ensures LastExhausted(after) == LastExhausted(chosen)
  {
    hide Lawful, Sum, FailedOver, LastExhausted, Counted;
    var e := Held(HoldSecs(chosen.e.got.retryAfter));
    OneMoreEvent(chosen, e, pin);
    after := Then(chosen, e);
  }

  /** A hold leaves the request being served, with nobody failed over. */
  lemma {:induction false} HoldLeavesServed(log: Log, chosen: Log, after: Log, pin: Option<Id>)
    requires WithinLimits(Sum(log), 0, pin.Some?) && Sum(log).asked.selections < MAX_SELECTIONS
    requires Sum(chosen) == Chose(Sum(log))
    requires after.Then? && after.e.Held? && 2 <= after.e.secs <= 30 && Lawful(after, pin)
    requires Sum(after) == Counted(Sum(chosen), after.e)
    ensures Serving(after, HowMany({}), pin)
  {
    hide Lawful, Sum;
  }

  /** A selection that hands out nobody ends the request. */
  lemma {:induction false} RefusalIsTheEnd(log: Log, chosen: Log, tried: nat, pin: Option<Id>)
    requires WithinLimits(Sum(log), tried, pin.Some?) && Sum(log).asked.selections < MAX_SELECTIONS
    requires Sum(chosen) == Chose(Sum(log))
    requires chosen.Then? && chosen.e.Selected? && !chosen.e.got.Account? && Lawful(chosen, pin)
    ensures Over(chosen, tried, pin, Refusal(chosen.e.got, chosen.e.exclude))
  {
    hide Lawful, Sum, LastExhausted;
  }

  lemma {:induction false} MarkingAddsOne(tried: set<Id>, e: Event)
    requires e.Attempted?
    ensures HowMany(Marked(tried, e)) <= HowMany(tried) + (if e.outcome.LeavesAccount() then 1 else 0)
  {
    assert tried == (tried - {e.id}) + (tried * {e.id});
  }

  // ── The loop ─────────────────────────────────────────────

  /**
   What to do with an attempt's outcome. `before` is the count before the round,
   within its limits: either the request is still within them, or it ends with the
   reply its last attempt calls for.
   */
  method Judge(
    e: Event, pinned: bool, tried: nat, retries: nat, hops: nat, lastExhausted: Option<nat>, ghost before: Tally,
    ghost triedBefore: nat)
    returns (reply: Option<Reply>)
    requires e.Attempted? && WithinLimits(before, triedBefore, pinned) && before.asked.selections < MAX_SELECTIONS
    requires tried <= triedBefore + (if e.outcome.LeavesAccount() then 1 else 0)
    requires var t := Counted(Chose(before), e);
             retries == t.spent.retries && hops == t.spent.hops
    ensures var t := Counted(Chose(before), e);
            match reply
            case None => WithinLimits(t, tried, pinned) && GoesOn(e.outcome, pinned)
            case Some(r) => AtLimits(t, tried) && Ending(e, t, tried, pinned, lastExhausted, r)
  {
    match e.outcome {
      case Done => return Some(FromAttempt);
      case Reject => return Some(FromAttempt);
      case Abort => return Some(FromAttempt);
      case Failover =>
        if pinned {
          return Some(Error(502, None));
        }
        if tried >= MAX_ATTEMPTS {
          return Some(Error(502, lastExhausted));
        }
      case RateLimitedHop(retryAfter) =>
        if pinned {
          return Some(Error(429, Some(retryAfter)));
        }
        if hops >= MAX_RATE_LIMIT_HOPS {
          return Some(Error(429, Some(retryAfter)));
        }
        if tried >= MAX_ATTEMPTS {
          return Some(Error(502, Some(retryAfter)));
        }
      case RetrySame(waitSecs) =>
        if retries > MAX_SAME_ACCOUNT_RETRIES {
          return Some(Error(429, Some(if waitSecs < 1 then 1 else waitSecs)));
        }
    }
    reply := None;
  }

  /** What the loop keeps between rounds. */
  datatype Round = Round(log: Log, tried: set<Id>, attempts: nat, retries: nat, hops: nat, lastExhausted: Option<nat>) {
    /** The loop's own variables are what the log adds up to. */
    predicate Agrees() {
      && tried == FailedOver(log) && lastExhausted == LastExhausted(log)
      && attempts == Sum(log).asked.selections && retries == Sum(log).spent.retries && hops == Sum(log).spent.hops
    }

    /** The request is still being served, or is over with a reply. */
    predicate Stands(pin: Option<Id>, reply: Option<Reply>) {
      match reply
      case None => Serving(log, HowMany(tried), pin)
      case Some(reply) => Over(log, HowMany(tried), pin, reply)
    }
  }

  /** A round that selected an account: note the attempt and go on, or end the request. */
  method AttemptRound(r: Round, sel: Chosen, outcome: Attempt, pin: Option<Id>)
    returns (next: Round, reply: Option<Reply>)
    requires r.Agrees() && r.Stands(pin, None) && r.attempts < MAX_SELECTIONS
    requires sel.Account? && (pin.None? ==> sel.id !in r.tried)
    ensures next.Agrees() && next.attempts == r.attempts + 1 && next.Stands(pin, reply)
    ensures next.log == Then(Then(r.log, Selected(r.tried, sel)), Attempted(sel.id, outcome))
  {
    var e := Attempted(sel.id, outcome);
    ghost var chosen := SelectionIsLawful(r.log, sel, pin);
    ghost var after := AttemptIsLawful(chosen, outcome, pin);
    MarkingAddsOne(r.tried, e);
    hide HowMany, Lawful, Sum, FailedOver, LastExhausted, Ending, WithinLimits, AtLimits;
    var tried, retries, hops := r.tried, r.retries, r.hops;
    if outcome.LeavesAccount() {
      tried := tried + {sel.id};
    }
    if outcome.RateLimitedHop? {
      hops := hops + 1;
    }
    if outcome.RetrySame? {
      retries := retries + 1;
      tried := tried - {sel.id};
    }
    assert tried == Marked(r.tried, e);
    next := Round(Then(Then(r.log, Selected(r.tried, sel)), e), tried, r.attempts + 1, retries, hops, r.lastExhausted);
    assert next.log == after;
    reply := Judge(e, pin.Some?, HowMany(tried), retries, hops, r.lastExhausted, Sum(r.log), HowMany(r.tried));
    return next, reply;
  }

  /** A round that selected nobody: hold the request if it may still wait, or end it. */
  method EmptyRound(r: Round, sel: Chosen, mayHold: bool, pin: Option<Id>) returns (next: Round, reply: Option<Reply>)
    requires r.Agrees() && r.Stands(pin, None) && r.attempts < MAX_SELECTIONS && !sel.Account?
    ensures next.Agrees() && next.attempts == r.attempts + 1 && next.Stands(pin, reply)
    ensures var chosen := Then(r.log, Selected(r.tried, sel));
            if sel.Exhausted? && mayHold then reply.None? && next.log == Then(chosen, Held(HoldSecs(sel.retryAfter)))
            else reply.Some? && next.log == chosen
  {
    var lastExhausted := r.lastExhausted;
    if sel.Exhausted? {
      lastExhausted := sel.retryAfter;
    }
    ghost var chosen := SelectionIsLawful(r.log, sel, pin);
    hide HowMany, Lawful, Sum, FailedOver, LastExhausted, Serving, Over, Marked, Counted;
    if sel.Exhausted? && mayHold {
      var wait := HoldSecs(sel.retryAfter);
      ghost var after := HoldIsLawful(chosen, pin);
      next := Round(
        Then(Then(r.log, Selected(r.tried, sel)), Held(wait)), {}, r.attempts + 1, r.retries, r.hops, lastExhausted);
      HoldLeavesServed(r.log, chosen, after, pin);
      return next, None;
    } else {
      next := Round(Then(r.log, Selected(r.tried, sel)), r.tried, r.attempts + 1, r.retries, r.hops, lastExhausted);
      RefusalIsTheEnd(r.log, chosen, HowMany(r.tried), pin);
      return next, Some(Refusal(sel, r.tried));
    }
  }

  /** Out of selections, a request still being served is over. */
  lemma {:induction false} OutOfSelections(log: Log, tried: nat, pin: Option<Id>)
    requires Serving(log, tried, pin) && Sum(log).asked.selections == MAX_SELECTIONS
    ensures Over(log, tried, pin, Error(502, None))
  {
  }

  /** Before the first selection the request is being served. */
  lemma {:induction false} StartIsServed(w: World, pin: Option<Id>, holdMs: nat)
    ensures var r := Round(Start, {}, 0, 0, 0, None);
            r.Agrees() && r.Stands(pin, None) && Follows(w, r.log, holdMs)
  {
  }

  /** Ask for an account, telling of those failed over. */
  method Ask(w: World, r: Round, pin: Option<Id>) returns (sel: Chosen)
    requires pin.None? ==> KeepsExclusion(w)
    ensures sel == w.select(r.attempts, r.tried) && (pin.None? && sel.Account? ==> sel.id !in r.tried)
  {
    sel := w.select(r.attempts, r.tried);
  }

  /** The rest of a turn of the loop: attempt what was selected. */
  method OneRound(w: World, r: Round, sel: Chosen, pin: Option<Id>, holdMs: nat)
    returns (next: Round, reply: Option<Reply>)
    requires sel == w.select(r.attempts, r.tried) && (pin.None? && sel.Account? ==> sel.id !in r.tried)
    requires r.Agrees() && r.Stands(pin, None) && r.attempts < MAX_SELECTIONS && Follows(w, r.log, holdMs)
    ensures next.Agrees() && next.attempts == r.attempts + 1 && next.Stands(pin, reply)
    ensures Follows(w, next.log, holdMs) && (reply.Some? ==> GaveUpHolding(w, next.log, holdMs))
  {
    if sel.Account? {
      var outcome := w.attempt(r.attempts + 1, sel.id);
      AttemptFollows(w, r, sel, outcome, holdMs);
      hide *;
      next, reply := AttemptRound(r, sel, outcome, pin);
      return next, reply;
    } else {
      var mayHold := MayHold(w, r.attempts + 1, holdMs);
      EmptyFollows(w, r, sel, holdMs);
      hide *;
      next, reply := EmptyRound(r, sel, mayHold, pin);
      return next, reply;
    }
  }

  lemma {:induction false} AttemptFollows(w: World, r: Round, sel: Chosen, outcome: Attempt, holdMs: nat)
    requires r.Agrees() && Follows(w, r.log, holdMs) && sel == w.select(r.attempts, r.tried) && sel.Account?
    requires outcome == w.attempt(r.attempts + 1, sel.id)
    ensures var after := Then(Then(r.log, Selected(r.tried, sel)), Attempted(sel.id, outcome));
            Follows(w, after, holdMs) && GaveUpHolding(w, after, holdMs)
  {
    var chosen := Then(r.log, Selected(r.tried, sel));
    OneMoreAnswer(w, r.log, chosen.e, holdMs);
    OneMoreAnswer(w, chosen, Attempted(sel.id, outcome), holdMs);
  }

  lemma {:induction false} EmptyFollows(w: World, r: Round, sel: Chosen, holdMs: nat)
    requires r.Agrees() && Follows(w, r.log, holdMs) && sel == w.select(r.attempts, r.tried) && !sel.Account?
    ensures var chosen := Then(r.log, Selected(r.tried, sel));
            if sel.Exhausted? && MayHold(w, r.attempts + 1, holdMs) then
              var after := Then(chosen, Held(HoldSecs(sel.retryAfter)));
              Follows(w, after, holdMs) && GaveUpHolding(w, after, holdMs)
            else Follows(w, chosen, holdMs) && GaveUpHolding(w, chosen, holdMs)
  {
    var chosen := Then(r.log, Selected(r.tried, sel));
    OneMoreAnswer(w, r.log, chosen.e, holdMs);
    if sel.Exhausted? && MayHold(w, r.attempts + 1, holdMs) {
      OneMoreAnswer(w, chosen, Held(HoldSecs(sel.retryAfter)), holdMs);
    }
  }

  /** An exhausted selection ends the request only when it may not be held. */
  predicate GaveUpHolding(w: World, log: Log, holdMs: nat) {
    log.Then? && log.e.Selected? && log.e.got.Exhausted? ==> !MayHold(w, Sum(log).asked.selections, holdMs)
  }

  /** The loop that serves one request. */
  method Forward(w: World, pin: Option<Id>, holdMs: nat) returns (reply: Reply, log: Log)
    requires pin.None? ==> KeepsExclusion(w)
    ensures Over(log, HowMany(FailedOver(log)), pin, reply)
    ensures Follows(w, log, holdMs) && GaveUpHolding(w, log, holdMs)
  {
    var r := Round(Start, {}, 0, 0, 0, None);
    var over: Option<Reply> := None;
    StartIsServed(w, pin, holdMs);
    hide *;
    while r.attempts < MAX_SELECTIONS
      invariant r.Agrees() && r.Stands(pin, None) && Follows(w, r.log, holdMs)
      decreases MAX_SELECTIONS - r.attempts
    {
      var sel := Ask(w, r, pin);
      r, over := OneRound(w, r, sel, pin, holdMs);
      if over.Some? {
        return over.value, r.log;
      }
    }
    OutOfSelections(r.log, HowMany(r.tried), pin);
    return Error(502, None), r.log;
  }

  // ── What lawful logs rule out ────────────────────────────

  /** Each event was allowed where it stands; `p` is the log up to it. */
  lemma {:induction false} LawfulAt(log: Log, pin: Option<Id>, i: nat) returns (p: Log)
    requires Lawful(log, pin) && i < |log.Events()|
    ensures Lawful(p, pin) && p.Events() == log.Events()[..i] && Allowed(p, log.Events()[i], pin)
  {
    if i == |log.Events()| - 1 {
      p := log.before;
    } else {
      p := LawfulAt(log.before, pin, i);
    }
  }

  /** An attempt that answered the client is the end of the request. */
  lemma {:induction false} NothingFollowsAnAnswer(log: Log, pin: Option<Id>, i: nat)
    requires Lawful(log, pin) && i < |log.Events()|
    requires log.Events()[i].Attempted? && log.Events()[i].outcome.Final()
    ensures i == |log.Events()| - 1
  {
    var events := log.Events();
    if i < |events| - 1 {
      var p := LawfulAt(log, pin, i + 1);
    }
  }

  /** A pin never fails over: every attempt of a pinned request but the last event was to be tried again. */
  lemma {:induction false} OnlyARetryGoesOn(log: Log, pin: Option<Id>, i: nat)
    requires Lawful(log, pin) && pin.Some? && i < |log.Events()| && log.Events()[i].Attempted?
    ensures i < |log.Events()| - 1 ==> log.Events()[i].outcome.RetrySame?
  {
    var events := log.Events();
    if i < |events| - 1 {
      var p := LawfulAt(log, pin, i + 1);
      assert p.Events()[i] == events[i];
    }
  }

  /** The last attempt before the one at `j`, which has one before it at `i`. */
  lemma {:induction false} AttemptBefore(events: seq<Event>, i: nat, j: nat) returns (k: nat)
    requires i < j < |events| && events[i].Attempted?
    ensures i <= k < j && events[k].Attempted? && NoAttemptBetween(events, k, j)
    decreases j
  {
    k := j - 1;
    while !events[k].Attempted?
      invariant i <= k < j && NoAttemptBetween(events, k, j)
      decreases k
    {
      k := k - 1;
    }
  }

  ghost predicate NoAttemptBetween(events: seq<Event>, k: nat, m: nat)
    requires m <= |events|
  {
    forall n :: k < n < m ==> !events[n].Attempted?
  }

  /**
   A pinned request reaches a second account only where selection answered the
   pin differently after a retry: somewhere in between, an attempt to be tried
   again on its account is followed, with no other attempt in between, by the
   selection and attempt of another one.
   */
  lemma {:induction false} PinnedMovesOnlyAfterARetry(log: Log, pin: Option<Id>, i: nat, j: nat)
    returns (k: nat, m: nat)
    requires Lawful(log, pin) && pin.Some? && i < j < |log.Events()|
    requires log.Events()[i].Attempted? && log.Events()[j].Attempted? && log.Events()[i].id != log.Events()[j].id
    ensures var events := log.Events();
            && i <= k < m <= j && events[k].Attempted? && events[m].Attempted? && NoAttemptBetween(events, k, m)
            && events[k].outcome.RetrySame?
            && events[m - 1].Selected? && events[m - 1].got == Account(events[m].id) && events[m].id != events[k].id
    decreases j
  {
    var events := log.Events();
    k := AttemptBefore(events, i, j);
    if events[k].id == events[j].id {
      k, m := PinnedMovesOnlyAfterARetry(log, pin, i, k);
    } else {
      m := j;
      OnlyARetryGoesOn(log, pin, k);
      var p := LawfulAt(log, pin, j);
      assert p.Events()[j - 1] == events[j - 1] && p.e == events[j - 1];
    }
  }

  /** A request whose every selection hands out one account, if any, only ever reaches that one. */
  lemma {:induction false} ReachesOnlyTheSelected(log: Log, pin: Option<Id>, home: Id, i: nat)
    requires Lawful(log, pin) && i < |log.Events()| && log.Events()[i].Attempted?
    requires forall n :: 0 <= n < |log.Events()| && log.Events()[n].Selected? && log.Events()[n].got.Account? ==>
               log.Events()[n].got.id == home
    ensures log.Events()[i].id == home
  {
    var events := log.Events();
    var p := LawfulAt(log, pin, i);
    assert p.Events()[i - 1] == events[i - 1] && p.e == events[i - 1];
  }

  /** Every hold lasts between two and thirty seconds, so a request is held for at most thirty seconds a selection. */
  lemma {:induction false} HoldsAreBounded(log: Log, pin: Option<Id>)
    requires Lawful(log, pin)
    ensures 2 * Sum(log).paused.holds <= Sum(log).paused.secs <= 30 * Sum(log).paused.holds
    ensures Sum(log).paused.holds <= Sum(log).asked.selections
    ensures log.Then? && log.e.Selected? ==> Sum(log).paused.holds < Sum(log).asked.selections
  {
    if log.Then? {
      HoldsAreBounded(log.before, pin);
    }
  }

  /** With no hold configured nothing is held. */
  lemma {:induction false} NothingHeldUnconfigured(w: World, log: Log)
    requires Follows(w, log, 0)
    ensures Sum(log).paused.holds == 0 && Sum(log).paused.secs == 0
  {
    if log.Then? {
      NothingHeldUnconfigured(w, log.before);
    }
  }

  /** A pinned request that may go on has failed over nobody. */
  lemma {:induction false} PinnedMarksNobody(log: Log, pin: Option<Id>)
    requires Lawful(log, pin) && pin.Some? && MaySelect(log, pin)
    ensures FailedOver(log) == {}
  {
    if log.Then? && log.e.Attempted? {
      PinnedMarksNobody(log.before.before, pin);
    }
  }

  /**
   An attempt to be tried again is followed by a selection told of the very accounts the
   one before it was told of: pinned or not, the retry changes nothing of what is asked.
   */
  lemma {:induction false} RetryAsksTheSame(log: Log, pin: Option<Id>, i: nat)
    requires Lawful(log, pin) && i < |log.Events()| - 1
    requires log.Events()[i].Attempted? && log.Events()[i].outcome.RetrySame?
    ensures var events := log.Events();
            && 0 < i && events[i - 1].Selected? && events[i - 1].got == Account(events[i].id)
            && events[i + 1].Selected? && events[i + 1].exclude == events[i - 1].exclude
  {
    var events := log.Events();
    var p := LawfulAt(log, pin, i + 1);
    assert p.e == p.Events()[i] == events[i];
    assert p.before.e == p.Events()[i - 1] == events[i - 1];
    var q := p.before.before;
    assert p.before.e.exclude == FailedOver(q) && FailedOver(p) == FailedOver(q) - {p.e.id};
    if pin.Some? {
      PinnedMarksNobody(q, pin);
    }
    assert FailedOver(p) == FailedOver(q);
  }

  /** A retry of an unpinned request goes through selection again, which may answer with another account. */
  lemma {:induction false} RetryMayLandElsewhere() returns (w: World, log: Log)
    ensures KeepsExclusion(w) && Follows(w, log, 0) && Over(log, HowMany(FailedOver(log)), None, FromAttempt)
    ensures log.Events() == [
              Selected({}, Account(1)), Attempted(1, RetrySame(0)), Selected({}, Account(2)), Attempted(2, Done)]
  {
    w := World(
      (n, exclude) => if n == 0 && 1 !in exclude then Account(1) else if 2 !in exclude then Account(2) else PinUnknown,
      (n, id) => if id == 1 then RetrySame(0) else Done,
      n => false);
    log := Then(Start, Selected({}, Account(1)));
    log := Then(log, Attempted(1, RetrySame(0)));
    assert FailedOver(log) == {};
    log := Then(log, Selected({}, Account(2)));
    log := Then(log, Attempted(2, Done));
  }

  ghost predicate HoldBetween(events: seq<Event>, i: nat, j: nat)
    requires j <= |events|
  {
    exists k :: i < k < j && events[k].Held?
  }

  /** Until a hold, a failed-over account stays in the set selection is told to exclude. */
  lemma {:induction false} StillFailedOver(log: Log, i: nat)
    requires Lawful(log, None) && i < |log.Events()|
    requires log.Events()[i].Attempted? && log.Events()[i].outcome.LeavesAccount()
    requires !HoldBetween(log.Events(), i, |log.Events()|)
    ensures log.Events()[i].id in FailedOver(log)
  {
    var events := log.Events();
    if i < |events| - 1 {
      var before := log.before.Events();
      assert forall k :: 0 <= k < |before| ==> before[k] == events[k];
      StillFailedOver(log.before, i);
      assert events[|events| - 1] == log.e;
    }
  }

  /** An account failed over is not attempted again before a hold clears the set. */
  lemma {:induction false} FailedOverIsNotRetried(log: Log, i: nat, j: nat)
    requires Lawful(log, None) && i < j < |log.Events()|
    requires log.Events()[i].Attempted? && log.Events()[i].outcome.LeavesAccount()
    requires log.Events()[j].Attempted? && log.Events()[j].id == log.Events()[i].id
    ensures HoldBetween(log.Events(), i, j)
  {
    var events := log.Events();
    var p := LawfulAt(log, None, j);
    if !HoldBetween(events, i, j) {
      assert forall k :: 0 <= k < j ==> p.Events()[k] == events[k];
      StillFailedOver(p, i);
    }
  }
}
