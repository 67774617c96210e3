/** The accounts of one pool and everything the proxy does to them, in place. */
module FleetState {
  import opened Options
  import opened Quotas
  import opened Sessions
  import opened Accounts
  import opened Ranking
  import opened Selection
  import opened SelectionTheorems
  import opened Admission

  class Fleet {
    var cfg: Settings
    var accounts: seq<Account>
    var current: Option<Text>
    var routePins: map<Text, Text>
    var sessions: map<string, Session>

    function State(): State
      reads this
    {
      Selection.State.State(cfg, accounts, current, routePins, sessions)
    }

    ghost predicate Valid()
      reads this
    {
      DistinctIds(State().All())
    }

    constructor (cfg: Settings, accounts: seq<Account>)
      requires DistinctIds(FactsOf(accounts))
      ensures Valid() && State() == Selection.State.State(cfg, accounts, None, map[], map[])
    {
      this.cfg, this.accounts, current, routePins, sessions := cfg, accounts, None, map[], map[];
    }

    // ── Expired windows ────────────────────────────────────

    method ClearExpiredAll(now: int)
      requires Valid()
      modifies this`accounts
      ensures Valid() && State() == ClearAll(old(State()), now)
    {
      ghost var was := State();
      for i := 0 to |accounts|
        invariant |accounts| == |was.accounts|
        invariant forall k :: 0 <= k < i ==> accounts[k] == ClearAll(was, now).accounts[k]
        invariant forall k :: i <= k < |accounts| ==> accounts[k] == was.accounts[k]
      {
        var f := accounts[i].facts;
        f := f.(quota := ClearExpired(f.quota, cfg.threshold, now, cfg.familyStaleMs));
        if f.rateLimitedUntil.Some? && f.rateLimitedUntil.value <= now {
          f := f.(rateLimitedUntil := None, quotaHold := false);
          if f.status == Throttled {
            f := f.(status := Active);
          }
        }
        accounts := accounts[i := accounts[i].(facts := f)];
      }
      assert accounts == ClearAll(was, now).accounts;
      forall i, j | 0 <= i < j < |accounts|
        ensures State().All()[i].id != State().All()[j].id
      {
        assert was.All()[i].id != was.All()[j].id;
      }
    }

    // ── Ranking ────────────────────────────────────────────

    method WeighAll(v: seq<Facts>, now: int) returns (cs: seq<Candidate>)
      ensures cs == Weigh(State(), v, now)
    {
      if cfg.distributeSessions {
        var st := Stats(sessions, now);
        cs := seq(|v|, i requires 0 <= i < |v| =>
          Candidate(v[i], Count(st.perAccountActive, v[i].id), Count(st.perAccountInFlight, v[i].id) + v[i].inFlight));
      } else {
        cs := seq(|v|, i requires 0 <= i < |v| => Candidate(v[i], 0, 0));
      }
      assert cs == Weigh(State(), v, now);
    }

    /** The best available account. */
    method RankedFirst(req: SelectRequest, now: int) returns (best: Option<Facts>)
      ensures best == Best(State(), req, now)
    {
      var pool := WeighAll(Available(cfg, State().All(), req, now), now);
      var ranked := Ranked(cfg, pool, req.model, now);
      best := if ranked == [] then None else Some(ranked[0].a);
    }

    method SoonestResetPreempts(best: Facts, cur: Facts, req: SelectRequest, now: int) returns (b: bool)
      ensures b == Preempts(State(), best, cur, req, now)
    {
      if !cfg.soonestReset || best.id == cur.id {
        return false;
      }
      var pool := WeighAll(Available(cfg, State().All(), req, now), now);
      b := InPool(pool, best.id) && InPool(pool, cur.id)
           && PlaceOf(pool, best, req.model, now).Sooner(PlaceOf(pool, cur, req.model, now));
    }

    /** Whether nothing takes the request off the account at `i`. */
    method KeepsRequest(i: nat, req: SelectRequest, now: int) returns (b: bool)
      requires i < |accounts|
      ensures b == Stays(State(), i, req, now)
    {
      var a := accounts[i];
      var first := RankedFirst(req, now);
      var better := false;
      if first.Some? {
        better := first.value.priority < a.facts.priority;
        if !better {
          better := SoonestResetPreempts(first.value, a.facts, req, now);
        }
      }
      b := !better && !RolledOver(cfg, a, req.model);
    }

    // ── Bookkeeping ────────────────────────────────────────

    method Mark(i: nat, m: Marks)
      requires i < |accounts|
      modifies this`accounts
      ensures State() == WithMarks(old(State()), i, m)
    {
      accounts := accounts[i := accounts[i].(marks := m)];
    }

    method ConfirmBaseline(id: Text, model: Option<string>)
      modifies this`accounts
      ensures State() == NoteBaseline(old(State()), id, model)
    {
      if cfg.expiry.enabled && cfg.expiry.preempt {
        var key := WeeklyKeyFor(cfg, model);
        var i := Find(State().All(), id);
        if i.Some? {
          var a := accounts[i.value];
          var r := a.facts.quota.WeeklyBucket(key).resetAt;
          if r.Some? {
            Mark(i.value, a.marks.(rolloverBaseline := a.marks.rolloverBaseline[key := r.value]));
          } else {
            assert accounts[i.value := Account(a.facts, a.marks)] == accounts;
          }
        }
      } else {
        var i := Find(State().All(), id);
        assert i.Some? ==> accounts[i.value := Account(accounts[i.value].facts, accounts[i.value].marks)] == accounts;
      }
    }

    method BeginRamp(id: Text, now: int)
      modifies this`accounts
      ensures var i := Find(old(State()).All(), id);
              State() == if i.Some? then
                WithMarks(old(State()), i.value, old(accounts)[i.value].marks.(rampStartedAt := Some(now)))
                         else old(State())
    {
      var i := Find(State().All(), id);
      if i.Some? {
        Mark(i.value, accounts[i.value].marks.(rampStartedAt := Some(now)));
      }
    }

    method StartRampIfCold(id: Text, now: int)
      modifies this`accounts
      ensures State() == RampIfCold(old(State()), id, now)
    {
      var st := Stats(sessions, now);
      var i := Find(State().All(), id);
      if i.Some? {
        var a := accounts[i.value];
        if a.marks.rampStartedAt.None? && a.facts.inFlight == 0 && Count(st.perAccountActive, id) == 0 {
          Mark(i.value, a.marks.(rampStartedAt := Some(now)));
        }
      }
    }

    method PointAt(id: Text, now: int, scoped: bool)
      modifies this`accounts, this`current
      ensures State() == SetCurrent(old(State()), id, now, scoped)
    {
      var switched := current != Some(id);
      if !scoped {
        current := Some(id);
      }
      if switched {
        BeginRamp(id, now);
        var i := Find(State().All(), id);
        if i.Some? {
          Mark(i.value, accounts[i.value].marks.(probing := accounts[i.value].facts.quota.week.resetAt.None?));
        }
      }
    }

    // ── Choosing an account ────────────────────────────────

    /** Session affinity, and the least loaded account for a new session when sessions are distributed. */
    method TrySession(req: SelectRequest, now: int) returns (r: Option<Choice>)
      requires Valid() && req.pin.None?
      modifies this`accounts, this`current
      ensures var s := old(State());
              var held := Usable(s, SessionPin(s, req), req, now);
              if held.Some? && Stays(s, held.value, req, now) then
                && State() == NoteBaseline(s, s.accounts[held.value].facts.id, req.model)
                && r == Some(Serve(s, s.accounts[held.value].facts))
              else if req.session.Some? && s.cfg.distributeSessions && Best(s, req, now).Some? then
                && State() == Distribute(s, Best(s, req, now).value, req, now).s
                && r == Some(Serve(s, Best(s, req, now).value))
              else r.None? && State() == s
    {
      hide NoteBaseline, SetCurrent, RampIfCold, Best, Stays, DistinctIds;
      r := None;
      if req.session.Some? {
        var pinned := SessionPin(State(), req);
        if pinned.Some? {
          var i := Usable(State(), pinned, req, now);
          if i.Some? {
            var stays := KeepsRequest(i.value, req, now);
            if stays {
              var a := accounts[i.value].facts;
              ConfirmBaseline(a.id, req.model);
              return Some(Serve(State(), a));
            }
          }
        }
        if cfg.distributeSessions {
          var best := RankedFirst(req, now);
          if best.Some? {
            var curOk := CursorWorks(State(), req, now);
            if !curOk {
              PointAt(best.value.id, now, false);
            } else {
              StartRampIfCold(best.value.id, now);
            }
            return Some(Serve(State(), best.value));
          }
        }
      }
    }

    /** Point the cursor at the best account and confirm it there. */
    method Settle(best: Facts, req: SelectRequest, now: int) returns (r: Choice)
      modifies this`accounts, this`current
      ensures Outcome(State(), r) == MoveTo(old(State()), best, req, now)
    {
      if current != Some(best.id) {
        PointAt(best.id, now, false);
      }
      ConfirmBaseline(best.id, req.model);
      r := Serve(State(), best);
    }

    /** The cursor's account can serve: it keeps the request unless something better preempts it. */
    method KeepOrMove(i: nat, req: SelectRequest, now: int) returns (r: Choice)
      requires Valid() && i < |accounts| && EligibleAt(State(), i, req, now)
      modifies this`accounts, this`current
      ensures var s := old(State());
              && Best(s, req, now).Some?
              && Outcome(State(), r) == if Stays(s, i, req, now)
                                        then
                                          Outcome(NoteBaseline(s, s.accounts[i].facts.id, req.model),
                                                  Serve(s, s.accounts[i].facts))
                                        else MoveTo(s, Best(s, req, now).value, req, now)
    {
      EligibleExists(State(), Some(i), req, now);
      SomeoneIsBest(State(), req, now);
      var stays := KeepsRequest(i, req, now);
      if stays {
        ConfirmBaseline(accounts[i].facts.id, req.model);
        return Serve(State(), accounts[i].facts);
      }
      var best := RankedFirst(req, now);
      r := Settle(best.value, req, now);
    }

    /**
     The cursor's account cannot serve this request: another does, and the cursor
     follows unless only this request is barred.
     */
    method Divert(i: nat, req: SelectRequest, now: int) returns (r: Option<Choice>)
      requires i < |accounts| && current == Some(accounts[i].facts.id)
      modifies this`accounts, this`current
      ensures var s := old(State());
              var a := s.accounts[i].facts;
              match Best(s, req, now)
              case None => r.None? && State() == s
              case Some(best) =>
                && State() == SetCurrent(s, best.id, now,
                                         a.id !in req.exclude
                                         && Unavailable(s.cfg, s.All(), a, None, None, req.provider, now).None?)
                && r == Some(Serve(s, best))
    {
      r := None;
      var a := accounts[i].facts;
      var scoped := a.id !in req.exclude && Unavailable(cfg, State().All(), a, None, None, req.provider, now).None?;
      var best := RankedFirst(req, now);
      if best.Some? {
        PointAt(best.value.id, now, scoped);
        return Some(Serve(State(), best.value));
      }
    }

    /** The sticky cursor: it keeps the request, hands it to a better account, or lets it be diverted. */
    method TryCursor(req: SelectRequest, now: int) returns (r: Option<Choice>)
      requires Valid()
      modifies this`accounts, this`current
      ensures var s := old(State());
              match Best(s, req, now)
              case None => r.None? && State() == Requalified(s)
              case Some(best) =>
                if s.current.Some? && Find(s.All(), s.current.value).Some? then
                  State() == Sticky(s, best, req, now).s && r == Some(Sticky(s, best, req, now).r)
                else r.None? && State() == s
    {
      r := None;
      ghost var was := State();
      if current.Some? {
        var at := Find(State().All(), current.value);
        if at.Some? {
          if accounts[at.value].marks.requalify {
            Mark(at.value, accounts[at.value].marks.(requalify := false));
            SameRanking(was, State(), req, now);
            var best := RankedFirst(req, now);
            if best.Some? {
              var moved := Settle(best.value, req, now);
              return Some(moved);
            }
            NobodyEligible(State(), at.value, req, now);
          }
          if EligibleAt(State(), at.value, req, now) {
            var kept := KeepOrMove(at.value, req, now);
            r := Some(kept);
          } else {
            r := Divert(at.value, req, now);
          }
        }
      }
    }

    method MayProbe(i: nat, req: SelectRequest, now: int) returns (may: bool)
      requires i < |accounts|
      ensures may == Probeable(State(), i, req, now)
    {
      var a := accounts[i];
      if a.facts.id in req.exclude {
        return false;
      }
      var reason := Unavailable(cfg, State().All(), a.facts, req.model, req.advisor, req.provider, now);
      if reason.None? || !reason.value.Soft() {
        return false;
      }
      may := a.marks.lastProbeAt.None? || now - a.marks.lastProbeAt.value >= THROTTLE_PROBE_FLOOR_MS;
    }

    /** Stage 6: the probeable account whose quota resets soonest, found in one pass. */
    method FindProbe(req: SelectRequest, now: int) returns (probe: Option<nat>)
      ensures probe == ProbePick(State(), |accounts|, req, now)
    {
      probe := None;
      for i := 0 to |accounts|
        invariant probe == ProbePick(State(), i, req, now)
      {
        var may := MayProbe(i, req, now);
        if may && BetterProbe(State(), i, probe, req) {
          probe := Some(i);
        }
      }
    }

    /** Why nothing can serve, and when the soonest held-back account recovers. */
    method ExhaustedInfo(req: SelectRequest, now: int) returns (r: Choice)
      ensures r == ExhaustedNow(State(), req, now)
    {
      var soonest: Option<int>, quotaBound, parts := None, false, [];
      for i := 0 to |accounts|
        invariant Reported(State(), i, req, now) == Report(quotaBound, soonest, parts)
      {
        var f := accounts[i].facts;
        if req.provider.Some? && f.provider != req.provider.value {
          continue;
        }
        var reason := Unavailable(cfg, State().All(), f, req.model, req.advisor, None, now);
        parts := parts + [(f.name, reason)];
        if reason.None? || !reason.value.HeldBack() {
          continue;
        }
        quotaBound := true;
        var rec := Recovery(f);
        if rec.Some? && rec.value > now && (soonest.None? || rec.value < soonest.value) {
          soonest := rec;
        }
      }
      r := Exhausted(RetryAfter(Report(quotaBound, soonest, parts), now), parts);
    }

    /** Stage 6: revalidate one account with a live request, or report the pool exhausted. */
    method RevalidateOne(req: SelectRequest, now: int) returns (r: Choice)
      modifies this`accounts
      ensures Outcome(State(), r) == Revalidate(old(State()), req, now)
    {
      if req.allowProbe {
        var probe := FindProbe(req, now);
        if probe.Some? {
          Mark(probe.value, accounts[probe.value].marks.(lastProbeAt := Some(now)));
          return Serve(State(), accounts[probe.value].facts);
        }
      }
      r := ExhaustedInfo(req, now);
    }

    /** Stage 5: the best account, wherever the cursor was. */
    method TryBest(req: SelectRequest, now: int) returns (r: Option<Choice>)
      requires Valid()
      modifies this`accounts, this`current
      ensures var s := old(State());
              match Best(s, req, now)
              case None => r.None? && State() == s
              case Some(best) => r.Some? && Outcome(State(), r.value) == MoveTo(s, best, req, now)
    {
      var best := RankedFirst(req, now);
      if best.None? {
        return None;
      }
      var moved := Settle(best.value, req, now);
      return Some(moved);
    }

    /** The account this request goes to: pins first, then affinity, the cursor, the best account, a probe. */
    method SelectAccount(req: SelectRequest, now: int) returns (r: Choice)
      requires Valid()
      modifies this`accounts, this`current
      ensures Outcome(State(), r) == Select(old(State()), req, now)
      ensures Valid()
    {
      ClearExpiredAll(now);
      ghost var c := State();
      if req.pin.Some? {
        r := Pinned(State(), req.pin.value, req, now);
        return;
      }
      var routed := Usable(State(), RoutePin(State(), req), req, now);
      if routed.Some? {
        r := Serve(State(), accounts[routed.value].facts);
        return;
      }
      var bySession := TrySession(req, now);
      if bySession.Some? {
        r := bySession.value;
        return;
      }
      var byCursor := TryCursor(req, now);
      if byCursor.Some? {
        r := byCursor.value;
        return;
      }
      SameRanking(c, State(), req, now);
      var byRank := TryBest(req, now);
      if byRank.Some? {
        r := byRank.value;
        return;
      }
      r := RevalidateOne(req, now);
    }

    // ── Admission ──────────────────────────────────────────

    /** Take a ramp slot on `id`, or say how long to wait before trying again. */
    method TryAdmitOn(id: Text, now: int) returns (ok: bool, waitMs: nat)
      requires Valid()
      modifies this`accounts
      ensures var storm := cfg.storm;
              Valid() && GateChange(old(State()), State(), id, (g: Gate) => TryAdmit(storm, g, now).0)
      ensures var i := Find(old(State()).All(), id);
              ok <==> i.Some? ==> TryAdmit(cfg.storm, GateOfAccount(old(accounts)[i.value]), now).1
      ensures waitMs == if ok then 0 else ADMIT_RETRY_MS
    {
      hide Find, DistinctIds;
      var i := Find(State().All(), id);
      if i.None? {
        return true, 0;
      }
      var g := GateOfAccount(accounts[i.value]);
      if !cfg.storm.enabled || g.rampStartedAt.None? {
        SetGate(i.value, g.(inFlight := g.inFlight + 1));
        return true, 0;
      }
      var elapsed := if now - g.rampStartedAt.value > 0 then now - g.rampStartedAt.value else 0;
      if elapsed >= cfg.storm.windowMs {
        SetGate(i.value, g.(rampStartedAt := None, inFlight := g.inFlight + 1));
        return true, 0;
      }
      var cap := AtLeastOne(cfg.storm.startConc) + (elapsed / AtLeastOne(cfg.storm.stepMs)) * cfg.storm.stepConc;
      if g.inFlight < cap {
        SetGate(i.value, g.(inFlight := g.inFlight + 1));
        return true, 0;
      }
      assert accounts[i.value := WithGate(accounts[i.value], g)] == accounts;
      return false, ADMIT_RETRY_MS;
    }

    /** A slot was dropped. */
    method Release(id: Text)
      requires Valid()
      modifies this`accounts
      ensures Valid() && GateChange(old(State()), State(), id, (g: Gate) => g.(inFlight := Less(g.inFlight)))
    {
      var i := Find(State().All(), id);
      if i.Some? {
        var g := GateOfAccount(accounts[i.value]);
        SetGate(i.value, g.(inFlight := if g.inFlight > 0 then g.inFlight - 1 else 0));
      }
    }

    /** A request is sent: it counts as open until its guard is dropped. */
    method OpenOn(id: Text)
      requires Valid()
      modifies this`accounts
      ensures Valid() && GateChange(old(State()), State(), id, (g: Gate) => g.(open := g.open + 1))
    {
      var i := Find(State().All(), id);
      if i.Some? {
        var g := GateOfAccount(accounts[i.value]);
        SetGate(i.value, g.(open := g.open + 1));
      }
    }

    method CloseOn(id: Text)
      requires Valid()
      modifies this`accounts
      ensures Valid() && GateChange(old(State()), State(), id, (g: Gate) => g.(open := Less(g.open)))
    {
      var i := Find(State().All(), id);
      if i.Some? {
        var g := GateOfAccount(accounts[i.value]);
        SetGate(i.value, g.(open := if g.open > 0 then g.open - 1 else 0));
      }
    }

    method SetGate(i: nat, g: Gate)
      requires Valid() && i < |accounts|
      modifies this`accounts
      ensures Valid() && accounts == old(accounts)[i := WithGate(old(accounts)[i], g)]
    {
      ghost var was := State();
      accounts := accounts[i := WithGate(accounts[i], g)];
      SameIdsStayDistinct(was.All(), State().All());
    }

    // ── Quota readings ─────────────────────────────────────

    /** A probe of the usage endpoint: merge its reading, and lift a quota hold it shows to be over. */
    method ApplyProbe(id: Text, u: UsagePayload, now: int) returns (lifted: bool)
      requires Valid()
      modifies this`accounts
      ensures Valid()
      ensures var i := Find(old(State()).All(), id);
              match i
              case None => !lifted && State() == old(State())
              case Some(i) =>
                var (a, l) := Probed(cfg, old(accounts)[i], u, now);
                lifted == l && State() == old(State()).(accounts := old(accounts)[i := a])
    {
      lifted := false;
      var i := Find(State().All(), id);
      if i.Some? {
        ghost var was := State();
        var a := accounts[i.value];
        var f := a.facts.(quota := ApplyUsage(a.facts.quota, u, now));
        var m := a.marks.(lastProbeAt := Some(now));
        var held := f.quotaHold && f.rateLimitedUntil.Some? && f.rateLimitedUntil.value > now;
        if held && NearBucket(cfg, f, None).None? {
          f := f.(rateLimitedUntil := None, quotaHold := false);
          if f.status == Throttled {
            f := f.(status := Active);
          }
          lifted := true;
        }
        accounts := accounts[i.value := Account(f, m)];
        SameIdsStayDistinct(was.All(), State().All());
      }
    }
  }

  // ── Effects on one account ───────────────────────────────

  function GateOfAccount(a: Account): Gate {
    Gate(a.facts.inFlight, a.facts.open, a.marks.rampStartedAt)
  }

  function WithGate(a: Account, g: Gate): Account {
    Account(a.facts.(inFlight := g.inFlight, open := g.open), a.marks.(rampStartedAt := g.rampStartedAt))
  }

  /** Only the gate of the account `id` changed, by `f`; nothing changed if the pool has no such account. */
  ghost predicate GateChange(s: State, t: State, id: Text, f: Gate -> Gate) {
    match Find(s.All(), id)
    case None => t == s
    case Some(i) => t == s.(accounts := s.accounts[i := WithGate(s.accounts[i], f(GateOfAccount(s.accounts[i])))])
  }

  lemma {:induction false} SameIdsStayDistinct(all: seq<Facts>, later: seq<Facts>)
    requires DistinctIds(all) && |later| == |all|
    requires forall i :: 0 <= i < |all| ==> later[i].id == all[i].id
    ensures DistinctIds(later)
  {
    forall i, j | 0 <= i < j < |later|
      ensures later[i].id != later[j].id
    {
      assert all[i].id != all[j].id;
    }
  }

  /** The account after a probe, and whether the probe lifted its quota hold. */
  function Probed(cfg: Settings, a: Account, u: UsagePayload, now: int): (Account, bool) {
    var f := a.facts.(quota := ApplyUsage(a.facts.quota, u, now));
    var m := a.marks.(lastProbeAt := Some(now));
    if f.quotaHold && f.rateLimitedUntil.Some? && f.rateLimitedUntil.value > now && NearBucket(cfg, f, None).None?
    then
      var status := if f.status == Throttled then Active else f.status;
      (Account(f.(rateLimitedUntil := None, quotaHold := false, status := status), m), true)
    else (Account(f, m), false)
  }

  /**
   A probe ends a hold exactly when the hold is a running quota hold and what is
   held after the merge is back under every threshold; a per-minute pause it never touches.
   */
  lemma {:induction false} ProbeLiftsOnlyQuotaHolds(cfg: Settings, a: Account, u: UsagePayload, now: int)
    ensures var (b, lifted) := Probed(cfg, a, u, now);
            && (!a.facts.quotaHold ==>
                  b.facts.rateLimitedUntil == a.facts.rateLimitedUntil && b.facts.status == a.facts.status)
            && (b.facts.rateLimitedUntil != a.facts.rateLimitedUntil <==> lifted)
            && (lifted ==>
                  NearBucket(cfg, b.facts, None).None? && b.facts.rateLimitedUntil.None? && b.facts.status != Throttled)
  {
    var (b, lifted) := Probed(cfg, a, u, now);
    var f := a.facts.(quota := ApplyUsage(a.facts.quota, u, now));
    assert NearBucket(cfg, b.facts, None) == NearBucket(cfg, f, None);
  }
}
