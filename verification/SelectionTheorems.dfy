/** What the choice of an account guarantees, over every state, request and time. */
module SelectionTheorems {
  import opened Options
  import opened Models
  import opened Quotas
  import opened Sessions
  import opened Accounts
  import opened Ranking
  import opened Selection
  import opened Witnesses

  // ── Nothing but bookkeeping changes ──────────────────────

  lemma {:induction false} SameRanking(s: State, t: State, req: SelectRequest, now: int)
    requires SameFacts(s, t)
    ensures Pool(t, req, now) == Pool(s, req, now) && Best(t, req, now) == Best(s, req, now)
  {
    var v := Available(s.cfg, s.All(), req, now);
    assert Weigh(s, v, now) == Weigh(t, v, now);
  }

  lemma {:induction false} ClearingIsIdempotent(s: State, now: int)
    ensures ClearAll(ClearAll(s, now), now) == ClearAll(s, now)
  {
    var c := ClearAll(s, now);
    forall i | 0 <= i < |s.accounts|
      ensures ClearedFacts(s.cfg, c.accounts[i].facts, now) == c.accounts[i].facts
    {
      ClearedWindowsAreRunning(s.accounts[i].facts.quota, s.cfg.threshold, now, s.cfg.familyStaleMs);
    }
    assert ClearAll(c, now).accounts == c.accounts;
  }

  lemma {:induction false} CandidateIsEligible(s: State, req: SelectRequest, now: int, c: Candidate)
    requires c in Pool(s, req, now)
    ensures c.a in s.All() && Eligible(s.cfg, s.All(), c.a, req, now)
  {
  }

  /** There is a best account exactly when someone is eligible, and it is one of them. */
  lemma {:induction false} BestIsEligible(s: State, req: SelectRequest, now: int)
    ensures Best(s, req, now).Some? <==> exists a <- s.All() :: Eligible(s.cfg, s.All(), a, req, now)
    ensures Best(s, req, now).Some? ==>
              Best(s, req, now).value in s.All() && Eligible(s.cfg, s.All(), Best(s, req, now).value, req, now)
  {
    var pool := Pool(s, req, now);
    var v := Available(s.cfg, s.All(), req, now);
    RankedIsSound(s.cfg, pool, req.model, now);
    if a :| a in s.All() && Eligible(s.cfg, s.All(), a, req, now) {
      assert a in v;
    }
    var ranked := Ranked(s.cfg, pool, req.model, now);
    if ranked != [] {
      assert ranked[0] in ranked && ranked[0] in pool;
      CandidateIsEligible(s, req, now, ranked[0]);
    }
  }

  // ── Soundness and completeness ───────────────────────────

  /** The choice is to serve with the account at `i`. */
  predicate ServedBy(s: State, i: nat, r: Choice) {
    i < |s.accounts| && Snapshot(s.cfg, s.accounts[i].facts).Some?
    && r == Served(Snapshot(s.cfg, s.accounts[i].facts).value)
  }

  ghost predicate SomeoneEligible(s: State, req: SelectRequest, now: int) {
    exists i :: 0 <= i < |s.accounts| && EligibleAt(s, i, req, now)
  }

  ghost predicate SomeoneProbeable(s: State, req: SelectRequest, now: int) {
    exists i :: 0 <= i < |s.accounts| && Probeable(s, i, req, now)
  }

  lemma {:induction false} EligibleServes(s: State, i: nat, req: SelectRequest, now: int)
    requires i < |s.accounts|
    requires EligibleAt(s, i, req, now) || Probeable(s, i, req, now)
    ensures ServedBy(s, i, Serve(s, s.accounts[i].facts))
  {
    AvailableHasSnapshot(s.cfg, s.All(), s.accounts[i].facts, req, now);
  }

  lemma {:induction false} BestServes(s: State, req: SelectRequest, now: int) returns (i: nat)
    requires Best(s, req, now).Some?
    ensures i < |s.accounts| && s.accounts[i].facts == Best(s, req, now).value && EligibleAt(s, i, req, now)
    ensures ServedBy(s, i, Serve(s, Best(s, req, now).value))
  {
    BestIsEligible(s, req, now);
    i :| 0 <= i < |s.All()| && s.All()[i] == Best(s, req, now).value;
    EligibleServes(s, i, req, now);
  }

  /**
   Without an explicit pin: while anyone is eligible, an eligible account serves;
   otherwise the only account ever handed out is one its main-model threshold
   alone blocks, and only when revalidation is asked for.
   */
  lemma {:induction false} ChoiceIsSoundAndComplete(s: State, req: SelectRequest, now: int)
    requires req.pin.None?
    ensures var c, r := ClearAll(s, now), Select(s, req, now).r;
            if SomeoneEligible(c, req, now) then
              exists i :: 0 <= i < |c.accounts| && EligibleAt(c, i, req, now) && ServedBy(c, i, r)
            else if req.allowProbe && SomeoneProbeable(c, req, now) then
              exists i :: 0 <= i < |c.accounts| && Probeable(c, i, req, now) && ServedBy(c, i, r)
            else
              r.Exhausted?
  {
    var c := ClearAll(s, now);
    BestIsEligible(c, req, now);
    if SomeoneEligible(c, req, now) {
      var k :| 0 <= k < |c.accounts| && EligibleAt(c, k, req, now);
      assert c.All()[k] in c.All();
      var i := BestServes(c, req, now);
      ServedIsEligible(c, req, now);
    } else {
      forall a <- c.All()
        ensures !Eligible(c.cfg, c.All(), a, req, now)
      {
        var i :| 0 <= i < |c.All()| && c.All()[i] == a;
        assert !EligibleAt(c, i, req, now);
      }
      var i := NobodyProbes(c, req, now);
    }
  }

  lemma {:induction false} ServedIsEligible(s: State, req: SelectRequest, now: int)
    requires req.pin.None? && Best(s, req, now).Some?
    ensures exists i :: 0 <= i < |s.accounts| && EligibleAt(s, i, req, now) && ServedBy(s, i, Decide(s, req, now).r)
  {
    hide EligibleAt, Stays, SetCurrent, NoteBaseline, RampIfCold, ServedBy, Best;
    var b := BestServes(s, req, now);
    forall i | 0 <= i < |s.accounts| && EligibleAt(s, i, req, now)
      ensures ServedBy(s, i, Serve(s, s.accounts[i].facts))
    {
      EligibleServes(s, i, req, now);
    }
    return;
  }

  lemma {:induction false} RequalifyingKeepsProbeable(s: State, i: nat, req: SelectRequest, now: int)
    requires i < |s.accounts|
    ensures Probeable(Requalified(s), i, req, now) == Probeable(s, i, req, now)
  {
    var t := Requalified(s);
    assert t.All()[i] == s.All()[i];
  }

  /** With nobody available a probe goes to a probeable account, which is marked, or the pool is exhausted. */
  lemma {:induction false} NobodyProbes(s: State, req: SelectRequest, now: int) returns (i: nat)
    ensures var o := Nobody(s, req, now);
            if req.allowProbe && SomeoneProbeable(s, req, now) then
              && i < |s.accounts| == |o.s.accounts| && Probeable(s, i, req, now) && ServedBy(s, i, o.r)
              && o.s.accounts[i].marks.lastProbeAt == Some(now)
            else o.r.Exhausted?
  {
    var t := Requalified(s);
    forall i | 0 <= i < |s.accounts|
      ensures Probeable(t, i, req, now) == Probeable(s, i, req, now)
    {
      RequalifyingKeepsProbeable(s, i, req, now);
    }
    var p := ProbePick(t, |t.accounts|, req, now);
    ProbeIsSoonest(t, |t.accounts|, req, now);
    if p.Some? {
      EligibleServes(t, p.value, req, now);
      assert t.All()[p.value] == s.All()[p.value];
      assert ServedBy(s, p.value, Serve(t, t.accounts[p.value].facts));
      i := p.value;
    } else {
      i := 0;
    }
  }

  lemma {:induction false} OneAccountPerChoice(s: State, t: State, i: nat, j: nat, r: Choice)
    requires DistinctIds(s.All()) && SameFacts(s, t)
    requires ServedBy(s, i, r) && ServedBy(t, j, r)
    ensures i == j
  {
    assert s.All()[i].id == t.All()[j].id;
  }

  /**
   A pin names one account: it either serves, unless something harder than the
   threshold blocks it, or nobody does.
   */
  lemma {:induction false} PinNeverFailsOver(s: State, req: SelectRequest, now: int)
    requires req.pin.Some?
    ensures var c := ClearAll(s, now);
            var o := Select(s, req, now);
            && o.s == c
            && match ResolvePin(c.All(), req.pin.value)
               case None => o.r == PinUnknown
               case Some(i) =>
                 var reason := ReasonAt(c, i, req, now);
                 if reason.None? || reason.value.NearQuota? then ServedBy(c, i, o.r)
                 else o.r == PinUnavailable(c.accounts[i].facts.name, reason.value)
  {
    var c := ClearAll(s, now);
    var i := ResolvePin(c.All(), req.pin.value);
    if i.Some? {
      AvailableHasSnapshot(c.cfg, c.All(), c.accounts[i.value].facts, req, now);
    }
  }

  /** What the request loop relies on: an unpinned choice is not excluded, and a pinned one is the account pinned. */
  lemma {:induction false} ChosenIsAllowed(s: State, req: SelectRequest, now: int)
    ensures var c, r := ClearAll(s, now), Select(s, req, now).r;
            r.Served? ==>
              match req.pin
              case None => r.who.id !in req.exclude
              case Some(t) => var i := ResolvePin(c.All(), t); i.Some? && r.who.id == c.accounts[i.value].facts.id
  {
    if !Select(s, req, now).r.Served? {
    } else if req.pin.None? {
      var c := ClearAll(s, now);
      ChoiceIsSoundAndComplete(s, req, now);
      var i :| 0 <= i < |c.accounts| && (EligibleAt(c, i, req, now) || Probeable(c, i, req, now))
               && ServedBy(c, i, Select(s, req, now).r);
    } else {
      PinNeverFailsOver(s, req, now);
    }
  }

  lemma {:induction false} SomeoneServes(s: State, req: SelectRequest, now: int) returns (i: nat)
    requires Select(s, req, now).r.Served?
    ensures ServedBy(ClearAll(s, now), i, Select(s, req, now).r)
  {
    var c := ClearAll(s, now);
    if req.pin.None? {
      ChoiceIsSoundAndComplete(s, req, now);
      i :| 0 <= i < |c.accounts| && ServedBy(c, i, Select(s, req, now).r);
    } else {
      PinNeverFailsOver(s, req, now);
      i := ResolvePin(c.All(), req.pin.value).value;
    }
  }

  /** A subscription token is never handed out for any host but its own provider's or the local machine. */
  lemma {:induction false} SubscriptionStaysHome(s: State, req: SelectRequest, now: int)
    ensures var r := Select(s, req, now).r;
            r.Served? && r.who.kind == Oauth ==>
              r.who.upstream.host in {Loopback, if r.who.provider == Codex then CodexHost else AnthropicHost}
  {
    var r := Select(s, req, now).r;
    if r.Served? {
      var i := SomeoneServes(s, req, now);
      var c := ClearAll(s, now);
      assert UpstreamFor(c.cfg, c.accounts[i].facts) == Some(r.who.upstream);
    }
  }

  // ── Affinity ─────────────────────────────────────────────

  /** The state after a session's request for `model` was answered by `account`. */
  function Recorded(s: State, sid: string, account: Text, model: Option<string>, now: int): State
    requires sid in s.sessions
  {
    s.(sessions := s.sessions[sid := Touched(s.sessions[sid], Some(account), Some(WeeklyBucketFor(model)), now)])
  }

  /**
   The account that answered is where the session's next request for the model is
   looked for exactly when the lookup uses the bucket the pin is recorded under,
   or its own bucket names that account already, or is unpinned and the pin that
   will do instead is the account's. A route's override makes the two differ.
   */
  lemma {:induction false} AnswererIsFoundExactly(s: State, req: SelectRequest, account: Text, now: int)
    requires req.session.Some? && req.session.value in s.sessions
    ensures var sid := req.session.value;
            var t := Recorded(s, sid, account, req.model, now);
            var bucket, pins := WeeklyKeyFor(s.cfg, req.model), s.sessions[sid].pins;
            SessionPin(t, req) == Some(account) <==>
              if bucket == WeeklyBucketFor(req.model) then true
              else if bucket in pins then pins[bucket] == account
              else s.cfg.distributeSessions && AnyPin(t.sessions, sid) == Some(account)
  {
    var t := Recorded(s, req.session.value, account, req.model, now);
    assert t.sessions[req.session.value].pins[WeeklyBucketFor(req.model)] == account;
  }

  /** A session's first answer is found again whenever any of its pins will do. */
  lemma {:induction false} OnlyPinIsFound(s: State, sid: string, account: Text, model: Option<string>, now: int)
    requires sid in s.sessions && s.sessions[sid].pins == map[]
    ensures AnyPin(Recorded(s, sid, account, model, now).sessions, sid) == Some(account)
  {
    var session := Recorded(s, sid, account, model, now).sessions[sid];
    assert session.pins.Keys == {WeeklyBucketFor(model)} && WeeklyBucketFor(model) in session.order;
    OnlyPinIsFirst(session.pins, session.order, WeeklyBucketFor(model));
  }

  lemma {:induction false} OnlyPinIsFirst(pins: map<Weekly, Text>, order: seq<Weekly>, only: Weekly)
    requires pins.Keys == {only} && only in order
    ensures FirstPin(pins, order) == Some(pins[only])
  {
    if order[0] != only {
      OnlyPinIsFirst(pins, order[1..], only);
    }
  }

  /**
   The account that gave a session its first answer is found again exactly when no route
   overrides the model's bucket, or sessions are distributed, so that any pin will do.
   */
  lemma {:induction false} FirstAnswerIsFoundExactly(s: State, req: SelectRequest, account: Text, now: int)
    requires req.session.Some? && req.session.value in s.sessions && s.sessions[req.session.value].pins == map[]
    ensures SessionPin(Recorded(s, req.session.value, account, req.model, now), req) == Some(account) <==>
              WeeklyKeyFor(s.cfg, req.model) == WeeklyBucketFor(req.model) || s.cfg.distributeSessions
  {
    AnswererIsFoundExactly(s, req, account, now);
    OnlyPinIsFound(s, req.session.value, account, req.model, now);
  }

  /** A pool that counts every model into the bucket `override`, with one new session. */
  function OverridingPool(override: Weekly, distribute: bool, sid: string, session: Session): State {
    var route := Route(0, ["*"], [], Some(override));
    Selection.State.State(
      PlainSettings(false).(routes := [route], distributeSessions := distribute), [], None, map[], map[sid := session])
  }

  /**
   A route for all models that counts this one elsewhere: the new session is found where it
   was answered while sessions are distributed, and while they are not it is nowhere.
   */
  lemma {:induction false} OverrideLosesASession(
    name: string, override: Weekly, distribute: bool, sid: string, order: IterOrder, account: Text, now: int)
    requires override != WeeklyBucketFor(Some(name))
    ensures var s := OverridingPool(override, distribute, sid, NewSession(now, order));
            var req := PLAIN_REQUEST.(model := Some(name), session := Some(sid));
            SessionPin(Recorded(s, sid, account, Some(name), now), req) == if distribute then Some(account) else None
  {
    var s := OverridingPool(override, distribute, sid, NewSession(now, order));
    var req := PLAIN_REQUEST.(model := Some(name), session := Some(sid));
    assert GlobMatches("*"[1..], name[|name|..]);
    assert GlobMatches(s.cfg.routes[0].patterns[0], name);
    assert WeeklyKeyFor(s.cfg, Some(name)) == override;
    FirstAnswerIsFoundExactly(s, req, account, now);
  }

  // ── Pins name one account ────────────────────────────────

  /** What a pin can name of an account is the same. */
  predicate SameNames(a: Facts, b: Facts) {
    a.id == b.id && a.name == b.name && a.accountUuid == b.accountUuid && a.orgUuid == b.orgUuid && a.email == b.email
  }

  ghost predicate SamePool(all: seq<Facts>, others: seq<Facts>) {
    |all| == |others| && forall i :: 0 <= i < |all| ==> SameNames(all[i], others[i])
  }

  lemma {:induction false} SameFirst(all: seq<Facts>, others: seq<Facts>, t: PinToken, k: nat)
    requires SamePool(all, others) && k <= |all|
    ensures FirstHalves(all, t, k) == FirstHalves(others, t, k) && FirstWhole(all, t, k) == FirstWhole(others, t, k)
    decreases |all| - k
  {
    if k < |all| {
      assert SameNames(all[k], others[k]);
      SameFirst(all, others, t, k + 1);
    }
  }

  /**
   While no account of the pool changes its names, every selection a pin gets an
   account from gives it the same one, whatever else has changed in between.
   */
  lemma {:induction false} PinNamesOneAccount(s: State, t: State, req: SelectRequest, now: int, later: int)
    requires SamePool(s.All(), t.All())
    ensures var first, second := Select(s, req, now).r, Select(t, req, later).r;
            req.pin.Some? && first.Served? && second.Served? ==> first.who.id == second.who.id
  {
    if req.pin.Some? && Select(s, req, now).r.Served? && Select(t, req, later).r.Served? {
      var c, d := ClearAll(s, now), ClearAll(t, later);
      ClearingKeepsNames(s, t, now, later);
      ChosenIsAllowed(s, req, now);
      ChosenIsAllowed(t, req, later);
      hide *;
      SameIdAtPin(c, d, req.pin.value);
    }
  }

  lemma {:induction false} ClearingKeepsNames(s: State, t: State, now: int, later: int)
    requires SamePool(s.All(), t.All())
    ensures SamePool(ClearAll(s, now).All(), ClearAll(t, later).All())
  {
    var c, d := ClearAll(s, now), ClearAll(t, later);
    forall i | 0 <= i < |c.All()|
      ensures SameNames(c.All()[i], d.All()[i])
    {
      assert SameNames(s.All()[i], t.All()[i]);
    }
  }

  lemma {:induction false} SameIdAtPin(c: State, d: State, t: PinToken)
    requires SamePool(c.All(), d.All()) && ResolvePin(c.All(), t).Some?
    ensures ResolvePin(c.All(), t) == ResolvePin(d.All(), t)
    ensures c.accounts[ResolvePin(c.All(), t).value].facts.id == d.accounts[ResolvePin(d.All(), t).value].facts.id
  {
    SameFirst(c.All(), d.All(), t, 0);
    var i := ResolvePin(c.All(), t).value;
    assert SameNames(c.All()[i], d.All()[i]);
  }

  // ── The check before sending ─────────────────────────────

  /**
   On the readings it was chosen by, an account chosen without a pin passes the
   check made just before sending exactly when it was chosen as eligible. So a
   revalidation probe never passes it: it is failed over, and an unpinned request
   on a pool with nobody eligible reaches no upstream.
   */
  lemma {:induction false} SendCheckPassesTheEligibleOnly(s: State, req: SelectRequest, now: int) returns (i: nat)
    ensures var o := Select(s, req, now);
            req.pin.None? && o.r.Served? ==>
              && ServedBy(o.s, i, o.r)
              && (Unavailable(o.s.cfg, o.s.All(), o.s.accounts[i].facts, req.model, req.advisor, None, now).None?
                  <==> SomeoneEligible(ClearAll(s, now), req, now))
  {
    i := 0;
    if req.pin.None? && Select(s, req, now).r.Served? {
      var c := ClearAll(s, now);
      ChoiceIsSoundAndComplete(s, req, now);
      if SomeoneEligible(c, req, now) {
        i :| 0 <= i < |c.accounts| && EligibleAt(c, i, req, now) && ServedBy(c, i, Select(s, req, now).r);
      } else {
        i :| 0 <= i < |c.accounts| && Probeable(c, i, req, now) && ServedBy(c, i, Select(s, req, now).r);
      }
      CheckedAtSending(c, Select(s, req, now).s, i, req, now);
    }
  }

  lemma {:induction false} CheckedAtSending(c: State, t: State, i: nat, req: SelectRequest, now: int)
    requires SameFacts(c, t) && i < |c.accounts|
    ensures |t.accounts| == |c.accounts| && t.accounts[i].facts == c.accounts[i].facts
    ensures var checked := Unavailable(t.cfg, t.All(), t.accounts[i].facts, req.model, req.advisor, None, now);
            && (EligibleAt(c, i, req, now) ==> checked.None?)
            && (Probeable(c, i, req, now) ==> checked.Some?)
  {
    assert |c.All()| == |t.All()| && t.All()[i] == c.All()[i];
  }

  // ── Stability ────────────────────────────────────────────

  /** A state a decision has left is already clear of expired windows. */
  lemma {:induction false} StaysClear(s: State, now: int, t: State)
    requires SameFacts(ClearAll(s, now), t)
    ensures ClearAll(t, now) == t
  {
    var c := ClearAll(s, now);
    ClearingIsIdempotent(s, now);
    forall i | 0 <= i < |t.accounts|
      ensures ClearedFacts(t.cfg, t.accounts[i].facts, now) == t.accounts[i].facts
    {
      assert t.All()[i] == c.All()[i];
      assert ClearAll(c, now).accounts[i] == c.accounts[i];
    }
    assert ClearAll(t, now).accounts == t.accounts;
  }

  lemma {:induction false} SameUse(s: State, t: State, id: Option<Text>, req: SelectRequest, now: int)
    requires SameFacts(s, t)
    ensures Usable(t, id, req, now) == Usable(s, id, req, now)
    ensures forall i :: 0 <= i < |s.accounts| ==> EligibleAt(t, i, req, now) == EligibleAt(s, i, req, now)
  {
    forall i | 0 <= i < |s.accounts|
      ensures t.accounts[i].facts == s.accounts[i].facts
    {
      assert t.All()[i] == s.All()[i];
    }
  }

  /** Whether a request stays where it sits depends on the marks of that account alone. */
  lemma {:induction false} SameStay(s: State, t: State, i: nat, req: SelectRequest, now: int)
    requires SameFacts(s, t) && i < |s.accounts| && |t.accounts| == |s.accounts|
    requires t.accounts[i].marks.rolloverBaseline == s.accounts[i].marks.rolloverBaseline
    ensures Stays(t, i, req, now) == Stays(s, i, req, now)
  {
    SameRanking(s, t, req, now);
    assert t.All()[i] == s.All()[i];
  }

  /** Confirming an account settles it: its window no longer counts as rolled over. */
  lemma {:induction false} ConfirmingSettles(s: State, i: nat, req: SelectRequest, now: int)
    requires DistinctIds(s.All()) && i < |s.accounts| && Stays(s, i, req, now)
    ensures var t := NoteBaseline(s, s.accounts[i].facts.id, req.model);
            |t.accounts| == |s.accounts| && Stays(t, i, req, now)
  {
    var t := NoteBaseline(s, s.accounts[i].facts.id, req.model);
    FindIsPosition(s.All(), i);
    SameRanking(s, t, req, now);
    assert t.All()[i] == s.All()[i];
  }

  /** The request is past every pin and no session holds it where it sits. */
  ghost predicate FallsThrough(s: State, req: SelectRequest, now: int) {
    && req.pin.None?
    && Usable(s, RoutePin(s, req), req, now).None?
    && (Usable(s, SessionPin(s, req), req, now).Some? ==>
          !Stays(s, Usable(s, SessionPin(s, req), req, now).value, req, now))
  }

  /** Once the cursor is on the best account, the same request comes back to it and leaves the cursor alone. */
  lemma {:induction false} BestIsKept(s: State, t: State, best: Facts, req: SelectRequest, now: int)
    requires DistinctIds(s.All()) && SameFacts(s, t) && |t.accounts| == |s.accounts|
    requires FallsThrough(s, req, now) && Best(s, req, now) == Some(best)
    requires !(req.session.Some? && s.cfg.distributeSessions)
    requires t.current == Some(best.id)
    requires forall i :: 0 <= i < |s.accounts| && s.accounts[i].facts.id != best.id ==>
               t.accounts[i].marks.rolloverBaseline == s.accounts[i].marks.rolloverBaseline
    ensures Decide(t, req, now).r == Serve(s, best) && Decide(t, req, now).s.current == t.current
  {
    SameRanking(s, t, req, now);
    SameUse(s, t, RoutePin(s, req), req, now);
    SameUse(s, t, SessionPin(s, req), req, now);
    var b := BestServes(s, req, now);
    FindIsPosition(s.All(), b);
    assert t.All()[b] == s.All()[b];
    var held := Usable(s, SessionPin(s, req), req, now);
    if held.Some? && held.value != b {
      assert s.All()[held.value].id != s.All()[b].id;
      SameStay(s, t, held.value, req, now);
    }
    StickyOnBest(t, b, best, req, now);
    hide Sticky, Best, Stays, EligibleAt, DistinctIds;
    return;
  }

  /** The cursor keeps a request it already points at the best account for. */
  lemma {:induction false} StickyOnBest(t: State, b: nat, best: Facts, req: SelectRequest, now: int)
    requires b < |t.accounts| && t.accounts[b].facts == best && EligibleAt(t, b, req, now)
    requires t.current == Some(best.id) && Find(t.All(), best.id) == Some(b)
    ensures Sticky(t, best, req, now).r == Serve(t, best) && Sticky(t, best, req, now).s.current == t.current
  {
  }

  /** A diverted request is diverted again, to the same account. */
  lemma {:induction false} DivertIsKept(s: State, t: State, i: nat, best: Facts, req: SelectRequest, now: int)
    requires DistinctIds(s.All()) && SameFacts(s, t) && OnlyRampsDiffer(s, t)
    requires FallsThrough(s, req, now) && Best(s, req, now) == Some(best)
    requires !(req.session.Some? && s.cfg.distributeSessions)
    requires t.current == s.current && s.current.Some? && Find(s.All(), s.current.value) == Some(i)
    requires !s.accounts[i].marks.requalify && !EligibleAt(s, i, req, now)
    requires s.accounts[i].facts.id !in req.exclude
             && Unavailable(s.cfg, s.All(), s.accounts[i].facts, None, None, req.provider, now).None?
    ensures Decide(t, req, now).r == Serve(s, best) && Decide(t, req, now).s.current == t.current
  {
    SameRanking(s, t, req, now);
    SameUse(s, t, RoutePin(s, req), req, now);
    SameUse(s, t, SessionPin(s, req), req, now);
    assert t.All()[i] == s.All()[i];
    var held := Usable(s, SessionPin(s, req), req, now);
    if held.Some? {
      SameStay(s, t, held.value, req, now);
    }
  }

  lemma {:induction false} DistributionIsKept(s: State, t: State, best: Facts, req: SelectRequest, now: int)
    requires SameFacts(s, t)
    requires FallsThrough(s, req, now) && Best(s, req, now) == Some(best)
    requires req.session.Some? && s.cfg.distributeSessions && t == Distribute(s, best, req, now).s
    ensures Decide(t, req, now).r == Serve(s, best) && Decide(t, req, now).s.current == t.current
  {
    SameRanking(s, t, req, now);
    SameUse(s, t, RoutePin(s, req), req, now);
    SameUse(s, t, SessionPin(s, req), req, now);
    assert OnlyRampsDiffer(s, t);
    var held := Usable(s, SessionPin(s, req), req, now);
    if held.Some? {
      SameStay(s, t, held.value, req, now);
    }
  }

  lemma {:induction false} StickyIsKept(s: State, best: Facts, req: SelectRequest, now: int)
    requires DistinctIds(s.All()) && FallsThrough(s, req, now) && Best(s, req, now) == Some(best)
    requires !(req.session.Some? && s.cfg.distributeSessions)
    ensures var o := Sticky(s, best, req, now);
            var o' := Decide(o.s, req, now);
            o'.r == o.r && o'.s.current == o.s.current
  {
    var o := Sticky(s, best, req, now);
    var at := if s.current.Some? then Find(s.All(), s.current.value) else None;
    if at.Some? && !s.accounts[at.value].marks.requalify
       && EligibleAt(s, at.value, req, now) && Stays(s, at.value, req, now) {
      ConfirmingSettles(s, at.value, req, now);
      SettledIsKept(s, at.value, best, req, now);
    } else if at.Some? && !s.accounts[at.value].marks.requalify && !EligibleAt(s, at.value, req, now)
              && o.s.current == s.current && s.current != Some(best.id) {
      DivertIsKept(s, o.s, at.value, best, req, now);
    } else if at.Some? && !s.accounts[at.value].marks.requalify && !EligibleAt(s, at.value, req, now) {
      assert OnlyRampsDiffer(s, o.s);
      BestIsKept(s, o.s, best, req, now);
    } else {
      BestIsKept(s, o.s, best, req, now);
    }
  }

  lemma {:induction false} SettledIsKept(s: State, i: nat, best: Facts, req: SelectRequest, now: int)
    requires DistinctIds(s.All()) && FallsThrough(s, req, now) && Best(s, req, now) == Some(best)
    requires !(req.session.Some? && s.cfg.distributeSessions)
    requires i < |s.accounts| && s.current == Some(s.accounts[i].facts.id)
    requires !s.accounts[i].marks.requalify && EligibleAt(s, i, req, now) && Stays(s, i, req, now)
    ensures var t := NoteBaseline(s, s.accounts[i].facts.id, req.model);
            Decide(t, req, now).r == Serve(s, s.accounts[i].facts) && Decide(t, req, now).s.current == s.current
  {
    var t := NoteBaseline(s, s.accounts[i].facts.id, req.model);
    SameRanking(s, t, req, now);
    SameUse(s, t, RoutePin(s, req), req, now);
    SameUse(s, t, SessionPin(s, req), req, now);
    ConfirmingSettles(s, i, req, now);
    FindIsPosition(s.All(), i);
    assert t.All()[i] == s.All()[i];
    var held := Usable(s, SessionPin(s, req), req, now);
    if held.Some? && held.value != i {
      assert s.All()[held.value].id != s.All()[i].id;
      SameStay(s, t, held.value, req, now);
    }
  }

  /** The one case in which a choice uses itself up: a revalidation probe is sent once per floor. */
  ghost predicate ProbeFires(s: State, req: SelectRequest, now: int) {
    req.pin.None? && !SomeoneEligible(s, req, now) && req.allowProbe && SomeoneProbeable(s, req, now)
  }

  /**
   Asking again at the same time, on the state the first answer left, gives the
   same answer and leaves the cursor where it is exactly when the first answer
   was not a revalidation probe.
   */
  lemma {:induction false} ChoiceIsStable(s: State, req: SelectRequest, now: int)
    requires DistinctIds(ClearAll(s, now).All())
    ensures var o := Select(s, req, now);
            var o' := Select(o.s, req, now);
            (o'.r == o.r && o'.s.current == o.s.current) <==> !ProbeFires(ClearAll(s, now), req, now)
  {
    var c := ClearAll(s, now);
    var o := Decide(c, req, now);
    StaysClear(s, now, o.s);
    DecisionIsStable(c, req, now);
  }

  lemma {:induction false} HeldIsKept(s: State, i: nat, req: SelectRequest, now: int)
    requires DistinctIds(s.All()) && req.pin.None? && Usable(s, RoutePin(s, req), req, now).None?
    requires Usable(s, SessionPin(s, req), req, now) == Some(i) && Stays(s, i, req, now)
    ensures var o := Decide(s, req, now);
            var o' := Decide(o.s, req, now);
            o'.r == o.r && o'.s.current == o.s.current
  {
    var o := Decide(s, req, now);
    SameRanking(s, o.s, req, now);
    SameUse(s, o.s, RoutePin(s, req), req, now);
    SameUse(s, o.s, SessionPin(s, req), req, now);
    ConfirmingSettles(s, i, req, now);
    FindIsPosition(s.All(), i);
    assert o.s.All()[i] == s.All()[i];
  }

  lemma {:induction false} DecisionIsStable(s: State, req: SelectRequest, now: int)
    requires DistinctIds(s.All())
    ensures var o := Decide(s, req, now);
            var o' := Decide(o.s, req, now);
            (o'.r == o.r && o'.s.current == o.s.current) <==> !ProbeFires(s, req, now)
  {
    var o := Decide(s, req, now);
    SameRanking(s, o.s, req, now);
    SameUse(s, o.s, RoutePin(s, req), req, now);
    SameUse(s, o.s, SessionPin(s, req), req, now);
    SomeoneIsBest(s, req, now);
    var held := Usable(s, SessionPin(s, req), req, now);
    if req.pin.Some? || Usable(s, RoutePin(s, req), req, now).Some? {
      EligibleExists(s, Usable(s, RoutePin(s, req), req, now), req, now);
    } else if held.Some? && Stays(s, held.value, req, now) {
      EligibleExists(s, held, req, now);
      HeldIsKept(s, held.value, req, now);
    } else if Best(s, req, now).Some? {
      var best := Best(s, req, now).value;
      if req.session.Some? && s.cfg.distributeSessions {
        DistributionIsKept(s, o.s, best, req, now);
      } else {
        StickyIsKept(s, best, req, now);
      }
    } else {
      NobodyAgain(s, req, now);
    }
  }

  lemma {:induction false} EligibleExists(s: State, i: Option<nat>, req: SelectRequest, now: int)
    requires i.Some? ==> i.value < |s.accounts| && EligibleAt(s, i.value, req, now)
    ensures i.Some? ==> SomeoneEligible(s, req, now)
  {
  }

  lemma {:induction false} NobodyEligible(s: State, i: nat, req: SelectRequest, now: int)
    requires i < |s.accounts| && Best(s, req, now).None?
    ensures !EligibleAt(s, i, req, now)
  {
    SomeoneIsBest(s, req, now);
  }

  lemma {:induction false} SomeoneIsBest(s: State, req: SelectRequest, now: int)
    ensures SomeoneEligible(s, req, now) <==> Best(s, req, now).Some?
  {
    BestIsEligible(s, req, now);
    if SomeoneEligible(s, req, now) {
      var i :| 0 <= i < |s.accounts| && EligibleAt(s, i, req, now);
      assert s.All()[i] in s.All();
    }
    if Best(s, req, now).Some? {
      var i := BestServes(s, req, now);
    }
  }

  /** A quota or a rate limit, which time will cure, is why the account cannot serve. */
  ghost predicate HeldBackAt(s: State, i: nat, req: SelectRequest, now: int)
    requires i < |s.accounts|
  {
    var f := s.accounts[i].facts;
    var reason := Unavailable(s.cfg, s.All(), f, req.model, req.advisor, None, now);
    && (req.provider.Some? ==> f.provider == req.provider.value)
    && reason.Some? && reason.value.HeldBack()
  }

  /** The account recovers at `t`, which is still to come. */
  ghost predicate RecoversAt(s: State, i: nat, now: int, t: int)
    requires i < |s.accounts|
  {
    Recovery(s.accounts[i].facts) == Some(t) && t > now
  }

  /** What one more account adds to the report. */
  lemma {:induction false} OneMoreReported(s: State, n: nat, req: SelectRequest, now: int)
    requires 0 < n <= |s.accounts|
    ensures var before, rep := Reported(s, n - 1, req, now), Reported(s, n, req, now);
            if !HeldBackAt(s, n - 1, req, now) then rep.quotaBound == before.quotaBound && rep.soonest == before.soonest
            else
              && rep.quotaBound
              && (var r := Recovery(s.accounts[n - 1].facts);
                  r.Some? && r.value > now ==> rep.soonest.Some? && rep.soonest.value <= r.value)
              && (before.soonest.Some? ==> rep.soonest.Some? && rep.soonest.value <= before.soonest.value)
              && (rep.soonest == before.soonest || (rep.soonest.Some? && RecoversAt(s, n - 1, now, rep.soonest.value)))
  {
  }

  lemma {:induction false} ReportIsSoonest(s: State, n: nat, req: SelectRequest, now: int)
    requires n <= |s.accounts|
    ensures var rep := Reported(s, n, req, now);
            && (rep.quotaBound <==> exists i :: 0 <= i < n && HeldBackAt(s, i, req, now))
            && (rep.soonest.Some? ==>
                  exists i :: 0 <= i < n && HeldBackAt(s, i, req, now) && RecoversAt(s, i, now, rep.soonest.value))
            && (forall i, t :: 0 <= i < n && HeldBackAt(s, i, req, now) && RecoversAt(s, i, now, t) ==>
                  rep.soonest.Some? && rep.soonest.value <= t)
  {
    if n > 0 {
      var before, rep := Reported(s, n - 1, req, now), Reported(s, n, req, now);
      ReportIsSoonest(s, n - 1, req, now);
      OneMoreReported(s, n, req, now);
      if rep.soonest.Some? && rep.soonest == before.soonest {
        var i :| 0 <= i < n - 1 && HeldBackAt(s, i, req, now) && RecoversAt(s, i, now, before.soonest.value);
        assert HeldBackAt(s, i, req, now) && RecoversAt(s, i, now, rep.soonest.value);
      }
      forall i, t | 0 <= i < n && HeldBackAt(s, i, req, now) && RecoversAt(s, i, now, t)
        ensures rep.soonest.Some? && rep.soonest.value <= t
      {
      }
    }
  }

  /** The first of the recoveries still to come, of the accounts a quota or a rate limit holds back. */
  ghost predicate IsSoonestRecovery(s: State, req: SelectRequest, now: int, t: int) {
    && (exists i :: 0 <= i < |s.accounts| && HeldBackAt(s, i, req, now) && RecoversAt(s, i, now, t))
    && (forall i, u :: 0 <= i < |s.accounts| && HeldBackAt(s, i, req, now) && RecoversAt(s, i, now, u) ==> t <= u)
  }

  ghost predicate SomeoneHeldBack(s: State, req: SelectRequest, now: int) {
    exists i :: 0 <= i < |s.accounts| && HeldBackAt(s, i, req, now)
  }

  lemma {:induction false} SoonestIsReported(s: State, req: SelectRequest, now: int, t: int)
    ensures var rep := Reported(s, |s.accounts|, req, now);
            && (rep.quotaBound <==> SomeoneHeldBack(s, req, now))
            && (rep.soonest == Some(t) <==> IsSoonestRecovery(s, req, now, t))
  {
    hide HeldBackAt, RecoversAt, Reported;
    ReportIsSoonest(s, |s.accounts|, req, now);
    var rep := Reported(s, |s.accounts|, req, now);
    if rep.soonest == Some(t) {
      assert IsSoonestRecovery(s, req, now, t);
    }
    if IsSoonestRecovery(s, req, now, t) {
      var i :| 0 <= i < |s.accounts| && HeldBackAt(s, i, req, now) && RecoversAt(s, i, now, t);
    }
    return;
  }

  lemma {:induction false} RecoveryIsOfOneHeldBack(s: State, req: SelectRequest, now: int, t: int)
    requires IsSoonestRecovery(s, req, now, t)
    ensures SomeoneHeldBack(s, req, now)
  {
    hide HeldBackAt, RecoversAt;
    var i :| 0 <= i < |s.accounts| && HeldBackAt(s, i, req, now) && RecoversAt(s, i, now, t);
  }

  lemma {:induction false} RetryAfterSoonest(s: State, req: SelectRequest, now: int, t: int)
    requires IsSoonestRecovery(s, req, now, t)
    ensures ExhaustedNow(s, req, now).retryAfterSecs == Some(Within((t - now) / 1000, 5, 3600))
  {
    hide Reported, IsSoonestRecovery, SomeoneHeldBack;
    SoonestIsReported(s, req, now, t);
    RecoveryIsOfOneHeldBack(s, req, now, t);
    return;
  }

  /** With nothing known of a recovery, the time to retry is a minute, if anybody is held back at all. */
  lemma {:induction false} RetryAfterUnknown(s: State, req: SelectRequest, now: int)
    ensures var secs := ExhaustedNow(s, req, now).retryAfterSecs;
            && (secs.Some? <==> SomeoneHeldBack(s, req, now))
            && (secs.Some? && (forall t :: !IsSoonestRecovery(s, req, now, t)) ==> secs == Some(60))
  {
    hide Reported, IsSoonestRecovery, SomeoneHeldBack;
    SoonestIsReported(s, req, now, Reported(s, |s.accounts|, req, now).soonest.GetOr(0));
    return;
  }

  /**
   An exhausted pool gives a time to retry exactly when a quota or a rate limit
   holds an account back: the whole seconds to the soonest recovery, within five
   seconds and an hour, or a minute when none is known.
   */
  lemma {:induction false} RetryAfterExactly(s: State, req: SelectRequest, now: int)
    ensures var secs := ExhaustedNow(s, req, now).retryAfterSecs;
            && (secs.Some? <==> SomeoneHeldBack(s, req, now))
            && (forall t :: IsSoonestRecovery(s, req, now, t) ==> secs == Some(Within((t - now) / 1000, 5, 3600)))
            && (secs.Some? && (forall t :: !IsSoonestRecovery(s, req, now, t)) ==> secs == Some(60))
  {
    hide Reported, IsSoonestRecovery, SomeoneHeldBack, RetryAfter;
    RetryAfterUnknown(s, req, now);
    forall t | IsSoonestRecovery(s, req, now, t)
      ensures ExhaustedNow(s, req, now).retryAfterSecs == Some(Within((t - now) / 1000, 5, 3600))
    {
      RetryAfterSoonest(s, req, now, t);
    }
    return;
  }

  function Within(n: int, lo: int, hi: int): int
    requires lo <= hi
  {
    if n < lo then lo else if n > hi then hi else n
  }

  /** The report of an exhausted pool depends on the accounts' facts alone. */
  lemma {:induction false} SameReport(s: State, t: State, n: nat, req: SelectRequest, now: int)
    requires SameFacts(s, t) && n <= |s.accounts| && |t.accounts| == |s.accounts|
    ensures Reported(t, n, req, now) == Reported(s, n, req, now)
  {
    if n > 0 {
      SameReport(s, t, n - 1, req, now);
      assert t.All()[n - 1] == s.All()[n - 1];
    }
  }

  /** With nobody available and nobody probed, a second call repeats the report. */
  lemma {:induction false} ReportRepeats(s: State, req: SelectRequest, now: int)
    requires !(req.allowProbe && SomeoneProbeable(s, req, now))
    ensures Nobody(Nobody(s, req, now).s, req, now).r == Nobody(s, req, now).r
  {
    var t := Requalified(s);
    var u := Requalified(t);
    assert |s.All()| == |s.accounts| == |t.accounts| == |u.accounts|;
    forall i | 0 <= i < |s.accounts|
      ensures !(req.allowProbe && Probeable(t, i, req, now)) && !(req.allowProbe && Probeable(u, i, req, now))
    {
      RequalifyingKeepsProbeable(s, i, req, now);
      RequalifyingKeepsProbeable(t, i, req, now);
    }
    ProbeIsSoonest(t, |t.accounts|, req, now);
    ProbeIsSoonest(u, |u.accounts|, req, now);
    SameReport(t, u, |t.accounts|, req, now);
  }

  /** The account a probe was just sent to is not probed again within the floor, so the answer differs. */
  lemma {:induction false} ProbeIsNotRepeated(s: State, req: SelectRequest, now: int)
    requires DistinctIds(s.All())
    requires req.allowProbe && SomeoneProbeable(s, req, now)
    ensures Nobody(Nobody(s, req, now).s, req, now).r != Nobody(s, req, now).r
  {
    var o := Nobody(s, req, now);
    var i := NobodyProbes(s, req, now);
    var j := NobodyProbes(o.s, req, now);
    if Nobody(o.s, req, now).r == o.r {
      OneAccountPerChoice(s, o.s, i, j, o.r);
    }
  }

  /** With nobody available, a second call repeats the report, but never the probe. */
  lemma {:induction false} NobodyAgain(s: State, req: SelectRequest, now: int)
    requires DistinctIds(s.All()) && req.pin.None?
    requires Best(s, req, now).None?
    requires Usable(s, RoutePin(s, req), req, now).None? && Usable(s, SessionPin(s, req), req, now).None?
    ensures var o := Nobody(s, req, now);
            var o' := Decide(o.s, req, now);
            o'.r == o.r <==> !(req.allowProbe && SomeoneProbeable(s, req, now))
    ensures Decide(Nobody(s, req, now).s, req, now).s.current == s.current
  {
    var o := Nobody(s, req, now);
    SameRanking(s, o.s, req, now);
    SameUse(s, o.s, RoutePin(s, req), req, now);
    SameUse(s, o.s, SessionPin(s, req), req, now);
    assert Decide(o.s, req, now) == Nobody(o.s, req, now);
    if req.allowProbe && SomeoneProbeable(s, req, now) {
      ProbeIsNotRepeated(s, req, now);
    } else {
      ReportRepeats(s, req, now);
    }
  }
}
