/** Exactly which choices start the storm ramp of which account. */
module RampTheorems {
  import opened Options
  import opened Sessions
  import opened Accounts
  import opened Selection
  import opened SelectionTheorems

  /** The session's own account keeps the request. */
  ghost predicate KeptBySession(s: State, req: SelectRequest, now: int) {
    var held := Usable(s, SessionPin(s, req), req, now);
    held.Some? && Stays(s, held.value, req, now)
  }

  /** The cursor's account keeps the request. */
  ghost predicate KeptByCursor(s: State, req: SelectRequest, now: int) {
    s.current.Some? &&
    var at := Find(s.All(), s.current.value);
    && at.Some? && !s.accounts[at.value].marks.requalify
    && EligibleAt(s, at.value, req, now) && Stays(s, at.value, req, now)
  }

  /** The choice comes down to the best account, which is the one at `i`. */
  ghost predicate ComesToBest(s: State, i: nat, req: SelectRequest, now: int)
    requires i < |s.accounts|
  {
    && req.pin.None? && Usable(s, RoutePin(s, req), req, now).None? && !KeptBySession(s, req, now)
    && Best(s, req, now).Some? && Best(s, req, now).value.id == s.accounts[i].facts.id
  }

  /**
   The choice starts the account's ramp: it is the best one, nothing kept the
   request elsewhere, and either the cursor is not on it, or a new session lands
   on it cold while the cursor stays where it is.
   */
  ghost predicate StartsRamp(s: State, i: nat, req: SelectRequest, now: int)
    requires i < |s.accounts|
  {
    var a := s.accounts[i];
    ComesToBest(s, i, req, now) &&
    if req.session.Some? && s.cfg.distributeSessions && CursorWorks(s, req, now) then
      a.marks.rampStartedAt.None? && a.facts.inFlight == 0 && ActiveOn(s.sessions, a.facts.id, now) == 0
    else
      s.current != Some(a.facts.id) && ((req.session.Some? && s.cfg.distributeSessions) || !KeptByCursor(s, req, now))
  }

  /** Each account's ramp is as it was, but for those of `id`, which start now. */
  ghost predicate StartsOnly(s: State, t: State, starts: bool, id: Text, now: int) {
    && |t.accounts| == |s.accounts|
    && forall i :: 0 <= i < |s.accounts| ==>
         t.accounts[i].marks.rampStartedAt
         == if starts && s.accounts[i].facts.id == id then Some(now) else s.accounts[i].marks.rampStartedAt
  }

  lemma {:induction false} SetCurrentStarts(s: State, id: Text, now: int, scoped: bool)
    requires DistinctIds(s.All())
    ensures StartsOnly(s, SetCurrent(s, id, now, scoped), s.current != Some(id), id, now)
  {
    forall i | 0 <= i < |s.accounts|
      ensures s.accounts[i].facts.id == s.All()[i].id && Find(s.All(), s.All()[i].id) == Some(i)
    {
      FindIsPosition(s.All(), i);
    }
  }

  lemma {:induction false} MoveToStarts(s: State, best: Facts, req: SelectRequest, now: int)
    requires DistinctIds(s.All())
    ensures StartsOnly(s, MoveTo(s, best, req, now).s, s.current != Some(best.id), best.id, now)
  {
    SetCurrentStarts(s, best.id, now, false);
  }

  lemma {:induction false} WarmingStarts(s: State, i: nat, id: Text, now: int)
    requires DistinctIds(s.All()) && i < |s.accounts| && s.accounts[i].facts.id == id
    ensures var a := s.accounts[i];
            var cold := a.marks.rampStartedAt.None? && a.facts.inFlight == 0 && ActiveOn(s.sessions, id, now) == 0;
            StartsOnly(s, RampIfCold(s, id, now), cold, id, now)
  {
    FindIsPosition(s.All(), i);
    forall j | 0 <= j < |s.accounts| && j != i
      ensures s.accounts[j].facts.id != id
    {
      assert s.All()[j].id != s.All()[i].id;
    }
  }

  lemma {:induction false} StickyStarts(s: State, best: Facts, req: SelectRequest, now: int)
    requires DistinctIds(s.All())
    ensures var starts := s.current != Some(best.id) && !KeptByCursor(s, req, now);
            StartsOnly(s, Sticky(s, best, req, now).s, starts, best.id, now)
  {
    hide EligibleAt, Stays, Unavailable, SetCurrent, MoveTo, DistinctIds;
    var at := if s.current.Some? then Find(s.All(), s.current.value) else None;
    if at.Some? && s.accounts[at.value].marks.requalify {
      MoveToStarts(WithMarks(s, at.value, s.accounts[at.value].marks.(requalify := false)), best, req, now);
    } else if at.Some? && !EligibleAt(s, at.value, req, now) {
      var a := s.accounts[at.value].facts;
      SetCurrentStarts(s, best.id, now,
        a.id !in req.exclude && Unavailable(s.cfg, s.All(), a, None, None, req.provider, now).None?);
    } else {
      MoveToStarts(s, best, req, now);
    }
    return;
  }

  lemma {:induction false} NobodyStarts(s: State, req: SelectRequest, now: int, id: Text)
    ensures StartsOnly(s, Nobody(s, req, now).s, false, id, now)
  {
  }

  /** A choice sets the ramp of exactly the accounts it starts one of, to now. */
  lemma {:induction false} RampStartsExactly(s: State, i: nat, req: SelectRequest, now: int)
    requires DistinctIds(s.All()) && i < |s.accounts|
    ensures var t := Decide(s, req, now).s;
            && |t.accounts| == |s.accounts|
            && t.accounts[i].marks.rampStartedAt
               == if StartsRamp(s, i, req, now) then Some(now) else s.accounts[i].marks.rampStartedAt
  {
    if req.pin.Some? || Usable(s, RoutePin(s, req), req, now).Some? || KeptBySession(s, req, now) {
    } else if Best(s, req, now).None? {
      NobodyStarts(s, req, now, s.accounts[i].facts.id);
    } else {
      BestStarts(s, i, req, now);
    }
  }

  lemma {:induction false} BestStarts(s: State, i: nat, req: SelectRequest, now: int)
    requires DistinctIds(s.All()) && i < |s.accounts|
    requires req.pin.None? && Usable(s, RoutePin(s, req), req, now).None? && !KeptBySession(s, req, now)
    requires Best(s, req, now).Some?
    ensures var t := Decide(s, req, now).s;
            && |t.accounts| == |s.accounts|
            && t.accounts[i].marks.rampStartedAt
               == if StartsRamp(s, i, req, now) then Some(now) else s.accounts[i].marks.rampStartedAt
  {
    var best := Best(s, req, now).value;
    if req.session.Some? && s.cfg.distributeSessions {
      if CursorWorks(s, req, now) {
        var b := BestServes(s, req, now);
        WarmingStarts(s, b, best.id, now);
        assert s.accounts[i].facts.id == best.id ==> i == b by {
          assert i != b ==> s.All()[i].id != s.All()[b].id;
        }
      } else {
        SetCurrentStarts(s, best.id, now, false);
      }
    } else {
      StickyStarts(s, best, req, now);
    }
  }

  /**
   A request the cursor's account is barred from, though it serves others, starts
   the ramp of the account it is diverted to, running or not; and the cursor stays,
   so the next such request starts it again.
   */
  lemma {:induction false} DivertAlwaysRestartsTheRamp(s: State, c: nat, b: nat, req: SelectRequest, now: int)
    requires DistinctIds(s.All()) && c < |s.accounts| && b < |s.accounts| && s.current == Some(s.accounts[c].facts.id)
    requires !s.accounts[c].marks.requalify && !EligibleAt(s, c, req, now) && CursorWorks(s, req, now)
    requires s.accounts[c].facts.id !in req.exclude && !(req.session.Some? && s.cfg.distributeSessions)
    requires ComesToBest(s, b, req, now)
    ensures var t := Decide(s, req, now).s;
            && StartsRamp(s, b, req, now) && t.accounts[b].marks.rampStartedAt == Some(now)
            && t.current == s.current && StartsRamp(t, b, req, now)
  {
    FindIsPosition(s.All(), c);
    RampStartsExactly(s, b, req, now);
    var best := Best(s, req, now).value;
    BestIsEligible(s, req, now);
    assert s.accounts[c].facts.id != best.id by {
      if s.accounts[c].facts.id == best.id {
        var k := BestServes(s, req, now);
        FindIsPosition(s.All(), k);
      }
    }
    DivertKeepsComingToBest(s, Decide(s, req, now).s, b, req, now);
  }

  lemma {:induction false} DivertKeepsComingToBest(s: State, t: State, b: nat, req: SelectRequest, now: int)
    requires SameFacts(s, t) && b < |s.accounts| == |t.accounts| && OnlyRampsDiffer(s, t)
    requires ComesToBest(s, b, req, now)
    ensures ComesToBest(t, b, req, now)
  {
    SameRanking(s, t, req, now);
    SameUse(s, t, RoutePin(s, req), req, now);
    SameUse(s, t, SessionPin(s, req), req, now);
    assert t.All()[b] == s.All()[b];
    var held := Usable(s, SessionPin(s, req), req, now);
    if held.Some? {
      SameStay(s, t, held.value, req, now);
    }
  }
}
