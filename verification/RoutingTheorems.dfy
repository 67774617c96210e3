/** Which account wins: priority over everything else, and soonest-reset moves only for a band. */
module RoutingTheorems {
  import opened Options
  import opened Quotas
  import opened Sessions
  import opened Accounts
  import opened Ranking
  import opened Witnesses
  import opened SoonestReset
  import opened Selection
  import opened SelectionTheorems

  // ── Priority wins ────────────────────────────────────────

  /** The choice serves with an eligible account no eligible account has a better priority than. */
  ghost predicate ServesTopPriority(s: State, req: SelectRequest, now: int) {
    exists i :: 0 <= i < |s.accounts| && ServedBy(s, i, Decide(s, req, now).r) && IsTopPriority(s, i, req, now)
  }

  ghost predicate IsTopPriority(s: State, i: nat, req: SelectRequest, now: int)
    requires i < |s.accounts|
  {
    && EligibleAt(s, i, req, now)
    && forall j :: 0 <= j < |s.accounts| && EligibleAt(s, j, req, now) ==>
         s.accounts[i].facts.priority <= s.accounts[j].facts.priority
  }

  /** The pool will be ordered by priority, or happens to start with its best tier. */
  ghost predicate LeadsByPriority(s: State, req: SelectRequest, now: int) {
    var v := Available(s.cfg, s.All(), req, now);
    v != [] &&
    (!s.cfg.expiry.enabled || s.cfg.soonestReset || TopTierMeasured(s.cfg, v, req.model, now) || LeastPriority(v[0], v))
  }

  predicate LeastPriority(a: Facts, v: seq<Facts>) {
    forall k :: 0 <= k < |v| ==> a.priority <= v[k].priority
  }

  /** Some account of the best available tier has a utilization and a known weekly reset. */
  ghost predicate TopTierMeasured(cfg: Settings, v: seq<Facts>, model: Option<string>, now: int) {
    exists k :: 0 <= k < |v| && LeastPriority(v[k], v) && Measured(cfg, v[k], model, now)
  }

  /**
   What the ranking calls ordering by priority is the caller's condition, whatever
   load the sessions put on the pool.
   */
  lemma {:induction false} OrderingIsMeasuring(s: State, req: SelectRequest, now: int)
    ensures var v := Available(s.cfg, s.All(), req, now);
            OrdersByPriority(s.cfg, Pool(s, req, now), req.model, now)
            <==> !s.cfg.expiry.enabled || s.cfg.soonestReset || TopTierMeasured(s.cfg, v, req.model, now)
  {
    var v, cs := Available(s.cfg, s.All(), req, now), Pool(s, req, now);
    hide Measured, Available, TopTierMeasured;
    if cs == [] {
      assert v == [];
    }
    TopTierIsMeasured(s.cfg, cs, v, req.model, now);
    return;
  }

  /** The peak of the ranking's top tier is there exactly when an account of the best tier is measured. */
  lemma {:induction false} TopTierIsMeasured(
    cfg: Settings, cs: seq<Candidate>, v: seq<Facts>, model: Option<string>, now: int)
    requires |cs| == |v| && forall i :: 0 <= i < |v| ==> cs[i].a == v[i]
    ensures TopTierMeasured(cfg, v, model, now)
            <==> cs != [] && PeakPressure(cfg, cs, TopPriority(cs), model, now).Some?
  {
    hide Measured;
    if cs != [] {
      var top := TopPriority(cs);
      forall k | 0 <= k < |v|
        ensures LeastPriority(v[k], v) <==> v[k].priority == top
      {
        TopIsLeast(cs, v, k);
      }
      if TopTierMeasured(cfg, v, model, now) {
        var k :| 0 <= k < |v| && LeastPriority(v[k], v) && Measured(cfg, v[k], model, now);
        assert cs[k] in cs;
      }
      if PeakPressure(cfg, cs, top, model, now).Some? {
        var c :| c in cs && c.a.priority == top && Measured(cfg, c.a, model, now);
        var k :| 0 <= k < |cs| && cs[k] == c;
        assert LeastPriority(v[k], v);
      }
    }
    return;
  }

  lemma {:induction false} TopIsLeast(cs: seq<Candidate>, v: seq<Facts>, k: nat)
    requires |cs| == |v| && k < |v| && forall i :: 0 <= i < |v| ==> cs[i].a == v[i]
    ensures LeastPriority(v[k], v) <==> v[k].priority == TopPriority(cs)
  {
    var top := TopPriority(cs);
    var c :| c in cs && c.a.priority == top;
    var j :| 0 <= j < |cs| && cs[j] == c;
    forall i | 0 <= i < |v|
      ensures top <= v[i].priority
    {
      assert cs[i] in cs;
    }
    assert v[j].priority == top;
  }

  /** When the pool leads by priority, the best account is of the best tier. */
  lemma {:induction false} BestIsTop(s: State, req: SelectRequest, now: int)
    requires Best(s, req, now).Some?
    ensures LeadsByPriority(s, req, now)
            <==> LeastPriority(Best(s, req, now).value, Available(s.cfg, s.All(), req, now))
  {
    var v, cs := Available(s.cfg, s.All(), req, now), Pool(s, req, now);
    RankedIsSound(s.cfg, cs, req.model, now);
    OrderingIsMeasuring(s, req, now);
    var best := Ranked(s.cfg, cs, req.model, now)[0];
    if OrdersByPriority(s.cfg, cs, req.model, now) {
      assert LeadsWithTop(Ranked(s.cfg, cs, req.model, now), cs);
      assert best in cs;
      var k :| 0 <= k < |cs| && cs[k] == best;
      TopIsLeast(cs, v, k);
    }
  }

  lemma {:induction false} LeastIsTopPriority(s: State, i: nat, req: SelectRequest, now: int)
    requires i < |s.accounts| && EligibleAt(s, i, req, now)
    ensures IsTopPriority(s, i, req, now) <==> LeastPriority(s.accounts[i].facts, Available(s.cfg, s.All(), req, now))
  {
    var v := Available(s.cfg, s.All(), req, now);
    forall j | 0 <= j < |s.accounts| && EligibleAt(s, j, req, now)
      ensures s.accounts[j].facts in v
    {
      assert s.All()[j] in s.All();
    }
    if LeastPriority(s.accounts[i].facts, v) {
      forall j | 0 <= j < |s.accounts| && EligibleAt(s, j, req, now)
        ensures s.accounts[i].facts.priority <= s.accounts[j].facts.priority
      {
        var k :| 0 <= k < |v| && v[k] == s.accounts[j].facts;
      }
    }
    if IsTopPriority(s, i, req, now) {
      forall k | 0 <= k < |v|
        ensures s.accounts[i].facts.priority <= v[k].priority
      {
        assert v[k] in v && v[k] in s.All();
        var j :| 0 <= j < |s.All()| && s.All()[j] == v[k];
        assert EligibleAt(s, j, req, now);
      }
    }
  }

  /** The stages end in one of three ways: on the session's account, on the cursor's, or on the best. */
  lemma {:induction false} WhoServes(s: State, req: SelectRequest, now: int) returns (i: nat)
    requires req.pin.None? && Usable(s, RoutePin(s, req), req, now).None? && Best(s, req, now).Some?
    ensures i < |s.accounts| && EligibleAt(s, i, req, now) && ServedBy(s, i, Decide(s, req, now).r)
    ensures s.accounts[i].facts == Best(s, req, now).value
            || (Stays(s, i, req, now)
                && (Some(s.accounts[i].facts.id) == SessionPin(s, req) || Some(s.accounts[i].facts.id) == s.current))
  {
    var held := Usable(s, SessionPin(s, req), req, now);
    if held.Some? && Stays(s, held.value, req, now) {
      i := held.value;
      EligibleServes(s, i, req, now);
    } else {
      var at := if s.current.Some? then Find(s.All(), s.current.value) else None;
      if !(req.session.Some? && s.cfg.distributeSessions) && at.Some? && !s.accounts[at.value].marks.requalify
         && EligibleAt(s, at.value, req, now) && Stays(s, at.value, req, now) {
        i := at.value;
        EligibleServes(s, i, req, now);
      } else {
        i := BestServes(s, req, now);
      }
    }
  }

  /** While the pool leads by priority, every stage serves with a best-priority account. */
  lemma {:induction false} PriorityWins(s: State, req: SelectRequest, now: int)
    requires req.pin.None? && Usable(s, RoutePin(s, req), req, now).None?
    requires LeadsByPriority(s, req, now)
    ensures ServesTopPriority(s, req, now)
  {
    var v := Available(s.cfg, s.All(), req, now);
    assert v[0] in v && v[0] in s.All();
    BestIsEligible(s, req, now);
    BestIsTop(s, req, now);
    var i := WhoServes(s, req, now);
    LeastIsTopPriority(s, i, req, now);
  }

  /** Priority wins for this cursor and these sessions. */
  ghost predicate WinsFrom(
    s: State, current: Option<Text>, sessions: map<string, Session>, req: SelectRequest, now: int)
  {
    ServesTopPriority(s.(current := current, sessions := sessions), req, now)
  }

  /**
   Priority wins wherever the cursor and the sessions happen to sit exactly when
   expiry routing is off, or soonest-reset is on, or the best tier has a measured
   account, or the first available account in pool order is already of that tier.
   */
  lemma {:induction false} PriorityWinsExactly(s: State, req: SelectRequest, now: int)
    requires req.pin.None? && Usable(s, RoutePin(s, req), req, now).None?
    requires DistinctIds(s.All()) && SomeoneEligible(s, req, now)
    ensures (forall current, sessions :: WinsFrom(s, current, sessions, req, now)) <==> LeadsByPriority(s, req, now)
  {
    hide ServesTopPriority, Best, TopTierMeasured;
    if LeadsByPriority(s, req, now) {
      forall current, sessions
        ensures WinsFrom(s, current, sessions, req, now)
      {
        var t := s.(current := current, sessions := sessions);
        assert t.All() == s.All();
        assert Usable(t, RoutePin(t, req), req, now).None?;
        PriorityWins(t, req, now);
      }
    } else {
      var t := s.(current := None, sessions := map[]);
      assert t.All() == s.All();
      assert Usable(t, RoutePin(t, req), req, now).None?;
      var k :| 0 <= k < |s.accounts| && EligibleAt(s, k, req, now);
      assert EligibleAt(t, k, req, now);
      SomeoneIsBest(t, req, now);
      assert Available(t.cfg, t.All(), req, now) == Available(s.cfg, s.All(), req, now);
      assert s.All()[k] in s.All();
      FreshPoolServesItsFirst(t, req, now);
      assert !WinsFrom(s, None, map[], req, now);
    }
  }

  lemma {:induction false} FreshPoolServesBest(t: State, req: SelectRequest, now: int)
    requires req.pin.None? && Usable(t, RoutePin(t, req), req, now).None?
    requires t.current.None? && t.sessions == map[] && Best(t, req, now).Some?
    ensures Decide(t, req, now).r == Serve(t, Best(t, req, now).value)
  {
  }

  /** With no cursor and no sessions, a pool that does not lead by priority serves with an account that is not best. */
  lemma {:induction false} FreshPoolServesItsFirst(t: State, req: SelectRequest, now: int)
    requires req.pin.None? && Usable(t, RoutePin(t, req), req, now).None?
    requires DistinctIds(t.All()) && t.current.None? && t.sessions == map[]
    requires Best(t, req, now).Some? && !LeadsByPriority(t, req, now)
    ensures !ServesTopPriority(t, req, now)
  {
    BestIsTop(t, req, now);
    FreshPoolServesBest(t, req, now);
    var b := BestServes(t, req, now);
    LeastIsTopPriority(t, b, req, now);
    forall i | 0 <= i < |t.accounts| && ServedBy(t, i, Decide(t, req, now).r)
      ensures !IsTopPriority(t, i, req, now)
    {
      SameServedPriority(t, b, i, req, now);
    }
  }

  /** Two positions served by one choice hold accounts of one id; with distinct ids they are one account. */
  lemma {:induction false} SameServedPriority(t: State, b: nat, i: nat, req: SelectRequest, now: int)
    requires b < |t.accounts| && i < |t.accounts|
    requires t.accounts[b].facts.id == t.accounts[i].facts.id
    requires DistinctIds(t.All())
    ensures b == i
  {
    assert t.All()[b].id == t.All()[i].id;
  }

  /** Two accounts nothing is known of, the one of the worse tier first. */
  function UnmeasuredPool(): State {
    var unmarked := Marks(map[], None, None, false, false);
    State(PlainSettings(true), [Account(PlainFacts(1, 1, EMPTY), unmarked), Account(PlainFacts(2, 0, EMPTY), unmarked)],
          None, map[], map[])
  }

  lemma {:induction false} UnmeasuredPoolIsAvailable(now: int)
    ensures var s := UnmeasuredPool();
            && DistinctIds(s.All()) && SomeoneEligible(s, PLAIN_REQUEST, now)
            && Available(s.cfg, s.All(), PLAIN_REQUEST, now) == [PlainFacts(1, 1, EMPTY), PlainFacts(2, 0, EMPTY)]
            && Usable(s, RoutePin(s, PLAIN_REQUEST), PLAIN_REQUEST, now).None?
  {
    var s := UnmeasuredPool();
    assert s.All() == [PlainFacts(1, 1, EMPTY), PlainFacts(2, 0, EMPTY)];
    PlainIsEligible(true, s.All(), 1, 1, EMPTY, now);
    PlainIsEligible(true, s.All(), 2, 0, EMPTY, now);
    PlainPoolIsAvailable(true, PlainFacts(1, 1, EMPTY), PlainFacts(2, 0, EMPTY), now);
    assert EligibleAt(s, 0, PLAIN_REQUEST, now);
  }

  /**
   A pool priority does not win in: expiry routing on, nothing measured, and the
   account of the worse tier first. It serves.
   */
  lemma {:induction false} UnmeasuredPoolDoesNotLead(now: int)
    ensures var s := UnmeasuredPool();
            !LeadsByPriority(s, PLAIN_REQUEST, now) && !ServesTopPriority(s, PLAIN_REQUEST, now)
  {
    var s := UnmeasuredPool();
    UnmeasuredPoolIsAvailable(now);
    WorseFirstDoesNotLead(s, PlainFacts(1, 1, EMPTY), PlainFacts(2, 0, EMPTY), now);
    SomeoneIsBest(s, PLAIN_REQUEST, now);
    hide LeadsByPriority, ServesTopPriority, Best, SomeoneEligible, Usable, DistinctIds;
    FreshPoolServesItsFirst(s, PLAIN_REQUEST, now);
    return;
  }

  lemma {:induction false} WorseFirstDoesNotLead(s: State, worse: Facts, better: Facts, now: int)
    requires s.cfg == PlainSettings(true) && Available(s.cfg, s.All(), PLAIN_REQUEST, now) == [worse, better]
    requires worse.priority > better.priority
    requires !Measured(s.cfg, worse, None, now) && !Measured(s.cfg, better, None, now)
    ensures !LeadsByPriority(s, PLAIN_REQUEST, now)
  {
    hide Measured;
    assert !LeastPriority(worse, [worse, better]) by {
      assert [worse, better][1] == better;
    }
  }

  // ── Soonest-reset moves are never for noise ──────────────

  lemma {:induction false} PoolHolds(s: State, i: nat, req: SelectRequest, now: int) returns (c: Candidate)
    requires i < |s.accounts| && EligibleAt(s, i, req, now)
    ensures c in Pool(s, req, now) && c.a == s.accounts[i].facts
  {
    var v := Available(s.cfg, s.All(), req, now);
    assert s.All()[i] in s.All();
    var k :| 0 <= k < |v| && v[k] == s.accounts[i].facts;
    c := Pool(s, req, now)[k];
    assert c in Pool(s, req, now);
  }

  lemma {:induction false} OneAccountPerId(s: State, a: Facts, b: Facts)
    requires DistinctIds(s.All()) && a in s.All() && b in s.All() && a.id == b.id
    ensures a == b
  {
    var i :| 0 <= i < |s.All()| && s.All()[i] == a;
    var j :| 0 <= j < |s.All()| && s.All()[j] == b;
  }

  lemma {:induction false} BestInPool(s: State, req: SelectRequest, now: int) returns (c: Candidate)
    requires Best(s, req, now).Some?
    ensures c in Pool(s, req, now) && c.a == Best(s, req, now).value
  {
    RankedIsSound(s.cfg, Pool(s, req, now), req.model, now);
    c := Ranked(s.cfg, Pool(s, req, now), req.model, now)[0];
    assert c in Ranked(s.cfg, Pool(s, req, now), req.model, now);
  }

  /** What takes a request away is a rollover, a better tier, or an earlier band. */
  lemma {:induction false} LeavingMeansLagging(s: State, i: nat, req: SelectRequest, now: int)
    requires DistinctIds(s.All()) && i < |s.accounts| && EligibleAt(s, i, req, now)
    requires s.cfg.soonestReset && Representable(Pool(s, req, now), now)
    requires !Stays(s, i, req, now) && !RolledOver(s.cfg, s.accounts[i], req.model)
    ensures Lags(Pool(s, req, now), s.accounts[i].facts, req.model, now)
  {
    var cur := PoolHolds(s, i, req, now);
    var best := BestInPool(s, req, now);
    if best.a.priority >= cur.a.priority {
      SoonerMeansLagging(Pool(s, req, now), best, cur, req.model, now);
    }
  }

  /** With expiry routing off, the best account sits in an earlier band than one that lags. */
  lemma {:induction false} BestIsSooner(
    s: State, cur: Candidate, req: SelectRequest, now: int) returns (best: Candidate)
    requires s.cfg.soonestReset && !s.cfg.expiry.enabled && Representable(Pool(s, req, now), now)
    requires cur in Pool(s, req, now) && Lags(Pool(s, req, now), cur.a, req.model, now)
    ensures Best(s, req, now) == Some(best.a) && best in Pool(s, req, now)
    ensures PlaceOf(Pool(s, req, now), best.a, req.model, now).Sooner(PlaceOf(Pool(s, req, now), cur.a, req.model, now))
  {
    var pool := Pool(s, req, now);
    LaggingMeansSooner(pool, cur, req.model, now);
    HeadIsSoonest(s.cfg, pool, req.model, now);
    best := BestInPool(s, req, now);
    var c :| c in pool && PlaceOf(pool, c.a, req.model, now).Sooner(PlaceOf(pool, cur.a, req.model, now));
    assert !PlaceOf(pool, c.a, req.model, now).Sooner(PlaceOf(pool, best.a, req.model, now));
  }

  lemma {:induction false} InPoolById(pool: seq<Candidate>, c: Candidate)
    requires c in pool
    ensures InPool(pool, c.a.id)
  {
    var k :| 0 <= k < |pool| && pool[k] == c;
  }

  /** With expiry routing off, an account that lags is left. */
  lemma {:induction false} LaggingMeansLeaving(s: State, i: nat, req: SelectRequest, now: int)
    requires DistinctIds(s.All()) && i < |s.accounts| && EligibleAt(s, i, req, now)
    requires s.cfg.soonestReset && !s.cfg.expiry.enabled && Representable(Pool(s, req, now), now)
    requires Lags(Pool(s, req, now), s.accounts[i].facts, req.model, now)
    ensures !Stays(s, i, req, now) && Best(s, req, now).Some?
    ensures Best(s, req, now).value.id != s.accounts[i].facts.id
  {
    var cur := PoolHolds(s, i, req, now);
    var best := BestIsSooner(s, cur, req, now);
    InPoolById(Pool(s, req, now), best);
    InPoolById(Pool(s, req, now), cur);
    if best.a.id == cur.a.id {
      CandidateIsEligible(s, req, now, best);
      CandidateIsEligible(s, req, now, cur);
      OneAccountPerId(s, best.a, cur.a);
    }
  }

  /** The request sits on account `i`: its session is pinned there, or it has no usable pin and the cursor is there. */
  ghost predicate SitsOn(s: State, i: nat, req: SelectRequest, now: int)
    requires i < |s.accounts|
  {
    var held := Usable(s, SessionPin(s, req), req, now);
    held == Some(i)
    || (held.None? && !(req.session.Some? && s.cfg.distributeSessions)
        && s.current == Some(s.accounts[i].facts.id) && !s.accounts[i].marks.requalify)
  }

  /**
   With soonest-reset routing on, a request leaves an account that can still
   serve it, and whose window has not rolled over, only if that account lags: a
   worse tier, no known week or one a day later, or a 5h deadline a quarter of an
   hour later. With expiry routing off, that is exactly when it leaves.
   */
  lemma {:induction false} MovesOnlyForABand(s: State, i: nat, req: SelectRequest, now: int)
    requires req.pin.None? && Usable(s, RoutePin(s, req), req, now).None?
    requires DistinctIds(s.All()) && s.cfg.soonestReset && Representable(Pool(s, req, now), now)
    requires i < |s.accounts| && EligibleAt(s, i, req, now) && SitsOn(s, i, req, now)
    requires !RolledOver(s.cfg, s.accounts[i], req.model)
    ensures !Lags(Pool(s, req, now), s.accounts[i].facts, req.model, now) ==> ServedBy(s, i, Decide(s, req, now).r)
    ensures !s.cfg.expiry.enabled ==>
              (ServedBy(s, i, Decide(s, req, now).r)
               <==> !Lags(Pool(s, req, now), s.accounts[i].facts, req.model, now))
  {
    var pool := Pool(s, req, now);
    var cur := PoolHolds(s, i, req, now);
    EligibleServes(s, i, req, now);
    FindIsPosition(s.All(), i);
    EligibleExists(s, Some(i), req, now);
    SomeoneIsBest(s, req, now);
    if !Lags(pool, cur.a, req.model, now) {
      if !Stays(s, i, req, now) {
        LeavingMeansLagging(s, i, req, now);
      }
      assert ServedBy(s, i, Decide(s, req, now).r);
    } else if !s.cfg.expiry.enabled {
      LaggingMeansLeaving(s, i, req, now);
      var k := WhoServes(s, req, now);
      if ServedBy(s, i, Decide(s, req, now).r) {
        OneAccountPerChoice(s, s, i, k, Decide(s, req, now).r);
      }
    }
  }
}
