/**
 Refreshing one account's OAuth token as a protocol between concurrent callers,
 the provider, the config file and reloads. Every step is one critical section
 of the fleet's mutex, one message, or one file write; steps of different
 callers interleave in any order. The provider rotates: a refresh token it has
 redeemed is dead, and the reply carries a new one with a later expiry. Replies
 get lost: a request given up on may still have been redeemed, then or later.
 */
module Refresh {
  import opened Options

  type Token = nat
  type Caller = nat

  const TOKEN_REFRESH_AHEAD_MS: int := 5 * 60 * 1000
  /** How often the client sends one refresh before it gives up. */
  const MAX_SENDS: nat := 3
  const FORCED_REFRESH_FLOOR_MS: int := 30 * 1000

  datatype Cred = Cred(access: Option<Token>, refresh: Option<Token>, expires: Option<int>) {
    function Expiry(): int { expires.GetOr(0) }

    predicate ExpiringSoon(now: int) {
      expires.None? || expires.value - now < TOKEN_REFRESH_AHEAD_MS
    }
  }

  /** What the fleet holds in memory for the account. */
  datatype Mem = Mem(cred: Cred, lastRefresh: Option<int>, dead: Option<Token>, error: bool)

  /**
   Live traffic disables an account whose refresh is rejected; a diagnostic only
   once its access token is dead too.
   */
  datatype OnFail = MarkDead | Keep

  predicate Kills(onFail: OnFail, cred: Cred, now: int) {
    onFail == MarkDead || (cred.expires.Some? && cred.expires.value <= now)
  }

  /** How far a caller has got. */
  datatype Pc =
    | Idle
    | Waiting(force: bool, read: Token)
    | Holding(force: bool, read: Token)
    | Ready(rt: Token)
    | Sent(rt: Token, sends: nat)
    | Dropped(rt: Token, sends: nat)
    | Granted(rt: Token, new_: Cred)
    | Refused(rt: Token)
    | Saving(saved: Cred)
  {
    /** Between taking the account's refresh lock and releasing it. */
    predicate HoldsLock() { !Idle? && !Waiting? }

    /** A refresh of this caller's is on its way, or is about to be sent again. */
    predicate Refreshing() { Sent? || Dropped? }
  }

  datatype State = State(
    mem: Mem,
    disk: Cred,
    history: set<Cred>,
    lock: Option<Caller>,
    callers: map<Caller, Pc>,
    issued: set<Token>,
    redeemed: set<Token>,
    dropped: set<Token>)
  {
    function At(c: Caller): Pc { if c in callers then callers[c] else Idle }

    function Go(c: Caller, pc: Pc): State { this.(callers := callers[c := pc]) }

    function Leave(c: Caller): State { Go(c, Idle).(lock := None) }
  }

  datatype Step =
    | Read(c: Caller, force: bool, onFail: OnFail, now: int)
    | Acquire(c: Caller)
    | Recheck(c: Caller, now: int)
    | Send(c: Caller)
    | Grant(c: Caller, new_: Cred)
    | Refuse(c: Caller)
    | Drop(c: Caller)
    | Resend(c: Caller)
    | Fail(c: Caller)
    | Lose(rt: Token)
    | Update(c: Caller, now: int)
    | Bury(c: Caller, onFail: OnFail, now: int)
    | Save(c: Caller, written: bool)
    | Reload(read: Cred)

  predicate Enabled(s: State, e: Step) {
    match e
    case Read(c, _, _, _) => s.At(c).Idle?
    case Acquire(c) => s.At(c).Waiting? && s.lock.None?
    case Recheck(c, _) => s.At(c).Holding?
    case Send(c) => s.At(c).Ready?
    case Grant(c, n) =>
      // Rotation: an unredeemed token buys a new pair, never issued before, that expires later.
      && s.At(c).Sent? && s.At(c).rt !in s.redeemed
      && n.access.Some? && n.refresh.Some? && n.refresh.value !in s.issued
      && n.expires.Some? && n.Expiry() > s.mem.cred.Expiry()
    case Refuse(c) => s.At(c).Sent?
    // A network error, a timeout, an answer of 5xx, or one that cannot be read.
    case Drop(c) => s.At(c).Sent?
    case Resend(c) => s.At(c).Dropped? && s.At(c).sends < MAX_SENDS
    case Fail(c) => s.At(c).Dropped?
    // The provider redeemed a request given up on: nobody learns what it issued.
    case Lose(rt) => rt in s.dropped && rt !in s.redeemed
    case Update(c, _) => s.At(c).Granted?
    case Bury(c, _, _) => s.At(c).Refused?
    case Save(c, _) => s.At(c).Saving?
    // A reload applies the file as it was at any time it was read.
    case Reload(d) => d in s.history
  }

  /** The fast path: is a refresh needed, as this caller first sees it? */
  function Looked(s: State, c: Caller, force: bool, onFail: OnFail, now: int): State {
    if s.mem.cred.refresh.None? then s
    else
      var rt := s.mem.cred.refresh.value;
      if s.mem.dead == Some(rt) then
        if Kills(onFail, s.mem.cred, now) then s.(mem := s.mem.(error := true)) else s
      else if force && s.mem.lastRefresh.Some? && now - s.mem.lastRefresh.value < FORCED_REFRESH_FLOOR_MS then s
      else if !force && !s.mem.cred.ExpiringSoon(now) then s
      else s.Go(c, Waiting(force, rt))
  }

  /** Under the lock: has a peer refreshed since this caller looked? */
  predicate StillNeeded(m: Mem, force: bool, read: Token, now: int) {
    if force then
      m.cred.refresh == Some(read)
      && (m.lastRefresh.Some? ==> now - m.lastRefresh.value >= FORCED_REFRESH_FLOOR_MS)
    else m.cred.ExpiringSoon(now)
  }

  /** Take the credential on disk when it differs from what is held and is not older. */
  function Reloaded(m: Mem, d: Cred): Mem {
    var changed := d.access.Some? && (d.access != m.cred.access || d.refresh != m.cred.refresh);
    if changed && (m.cred.access.None? || d.Expiry() >= m.cred.Expiry())
    then m.(cred := d, error := false) else m
  }

  function Next(s: State, e: Step): State
    requires Enabled(s, e)
  {
    match e
    case Read(c, force, onFail, now) => Looked(s, c, force, onFail, now)
    case Acquire(c) => s.Go(c, Holding(s.At(c).force, s.At(c).read)).(lock := Some(c))
    case Recheck(c, now) =>
      if StillNeeded(s.mem, s.At(c).force, s.At(c).read, now) && s.mem.cred.refresh.Some?
      then s.Go(c, Ready(s.mem.cred.refresh.value)) else s.Leave(c)
    case Send(c) => s.Go(c, Sent(s.At(c).rt, 1))
    case Grant(c, n) =>
      s.Go(c, Granted(s.At(c).rt, n)).(redeemed := s.redeemed + {s.At(c).rt}, issued := s.issued + {n.refresh.value})
    case Refuse(c) => s.Go(c, Refused(s.At(c).rt))
    case Drop(c) => s.Go(c, Dropped(s.At(c).rt, s.At(c).sends)).(dropped := s.dropped + {s.At(c).rt})
    case Resend(c) => s.Go(c, Sent(s.At(c).rt, s.At(c).sends + 1))
    case Fail(c) => s.Leave(c)
    case Lose(rt) => s.(redeemed := s.redeemed + {rt})
    case Update(c, now) =>
      var n := s.At(c).new_;
      s.Go(c, Saving(n)).(mem := Mem(n, Some(now), None, false))
    case Bury(c, onFail, now) =>
      if Kills(onFail, s.mem.cred, now)
      then s.Leave(c).(mem := s.mem.(error := true, dead := Some(s.At(c).rt))) else s.Leave(c)
    case Save(c, written) =>
      if written then s.Leave(c).(disk := s.At(c).saved, history := s.history + {s.At(c).saved}) else s.Leave(c)
    case Reload(d) => s.(mem := Reloaded(s.mem, d))
  }

  // ── The account's credential, updated in place ───────────

  /** The account as each critical section of the fleet's mutex reads and updates it. */
  class Login {
    var access: Option<Token>
    var refresh: Option<Token>
    var expires: Option<int>
    var lastRefresh: Option<int>
    var dead: Option<Token>
    var error: bool

    function Held(): Mem
      reads this
    {
      Mem(Cred(access, refresh, expires), lastRefresh, dead, error)
    }

    constructor (d: Cred)
      ensures Held() == Mem(d, None, None, false)
    {
      access, refresh, expires := d.access, d.refresh, d.expires;
      lastRefresh, dead, error := None, None, false;
    }

    /** First look: the refresh token to queue up with, or nothing to do. It is the caller's `Read` step. */
    method Look(force: bool, onFail: OnFail, now: int) returns (read: Option<Token>)
      modifies this
      ensures forall s: State, c: Caller :: s.mem == old(Held()) ==>
                Looked(s, c, force, onFail, now)
                == if read.Some? then s.(mem := Held()).Go(c, Waiting(force, read.value)) else s.(mem := Held())
    {
      if refresh.None? {
        return None;
      }
      if dead == refresh {
        if Kills(onFail, Held().cred, now) && !error {
          error := true;
        }
        return None;
      }
      if force {
        if lastRefresh.Some? {
          if now - lastRefresh.value < FORCED_REFRESH_FLOOR_MS {
            return None;
          }
        }
      } else if !Held().cred.ExpiringSoon(now) {
        return None;
      }
      return refresh;
    }

    /** Second look, under the lock: the token to send, or nothing when a peer has refreshed. */
    method LookAgain(force: bool, read: Token, now: int) returns (send: Option<Token>)
      ensures send == if StillNeeded(Held(), force, read, now) then refresh else None
    {
      var stale;
      if force {
        stale := refresh == Some(read) && (lastRefresh.None? || now - lastRefresh.value >= FORCED_REFRESH_FLOOR_MS);
      } else {
        stale := Held().cred.ExpiringSoon(now);
      }
      if !stale {
        return None;
      }
      return refresh;
    }

    /** The provider answered: take the new pair. It is the caller's `Update` step. */
    method Adopt(n: Cred, now: int)
      modifies this
      ensures forall s: State, c: Caller :: s.mem == old(Held()) && s.At(c).Granted? && s.At(c).new_ == n ==>
                Next(s, Update(c, now)).mem == Held()
    {
      access, refresh, expires := n.access, n.refresh, n.expires;
      lastRefresh := Some(now);
      dead := None;
      if error {
        error := false;
      }
    }

    /** The provider refused `rt`: bury it, if that takes the account out. It is the caller's `Bury` step. */
    method BuryToken(rt: Token, onFail: OnFail, now: int)
      modifies this
      ensures forall s: State, c: Caller :: s.mem == old(Held()) && s.At(c).Refused? && s.At(c).rt == rt ==>
                Next(s, Bury(c, onFail, now)).mem == Held()
    {
      if Kills(onFail, Held().cred, now) {
        error := true;
        dead := Some(rt);
      }
    }

    /** A reload read `d`: take it if it differs and is not older. It is the `Reload` step. */
    method Reconcile(d: Cred) returns (recheck: bool)
      modifies this
      ensures Held() == Reloaded(old(Held()), d)
      ensures recheck <==> Held().cred != old(Held()).cred
    {
      var changed := d.access.Some? && (d.access != access || d.refresh != refresh);
      var notOlder := d.expires.GetOr(0) >= expires.GetOr(0);
      recheck := changed && (access.None? || notOlder);
      if recheck {
        access, refresh, expires := d.access, d.refresh, d.expires;
        if error {
          error := false;
        }
      }
    }
  }

  /** A daemon that has just loaded a login the provider still honours. */
  ghost predicate Init(s: State) {
    && s.mem == Mem(s.disk, None, None, false) && s.history == {s.disk}
    && s.disk.access.Some? && s.lock.None? && s.callers == map[]
    && (s.disk.refresh.Some? ==> s.disk.refresh.value in s.issued && s.disk.refresh.value !in s.redeemed)
    && s.redeemed <= s.issued && s.dropped == {}
  }

  // ── The invariant ────────────────────────────────────────

  /** One caller at a time is past the lock, and it is the one the lock names. */
  ghost predicate LockIsHeld(s: State) {
    && (forall c <- s.callers :: s.callers[c].HoldsLock() ==> s.lock == Some(c))
    && (s.lock.Some? ==> s.At(s.lock.value).HoldsLock())
  }

  /** Whatever a reload may read is what memory holds, or older and already redeemed. */
  ghost predicate DiskTrails(s: State) {
    && s.disk in s.history
    && forall d <- s.history ::
         d == s.mem.cred || (d.Expiry() < s.mem.cred.Expiry() && d.refresh.Some? && d.refresh.value in s.redeemed)
  }

  /** Memory's refresh token is spent and nobody has its successor: a reply was lost. */
  ghost predicate Lost(s: State) {
    && s.mem.cred.refresh.Some? && s.mem.cred.refresh.value in s.redeemed
    && !(s.lock.Some? && s.At(s.lock.value).Granted?)
  }

  ghost predicate TokensAreIssued(s: State) {
    && s.mem.cred.access.Some? && s.redeemed <= s.issued
    && (s.mem.cred.refresh.Some? ==> s.mem.cred.refresh.value in s.issued)
    // The only request given up on that may still be redeemed is for the token in memory.
    && (forall rt <- s.dropped :: rt in s.issued && (rt !in s.redeemed ==> s.mem.cred.refresh == Some(rt)))
  }

  /** Past the second look a caller works with memory's token, until the answer replaces it. */
  ghost predicate CallerAgrees(s: State, pc: Pc) {
    match pc
    case Ready(rt) => s.mem.cred.refresh == Some(rt)
    case Sent(rt, _) => s.mem.cred.refresh == Some(rt)
    case Dropped(rt, _) => s.mem.cred.refresh == Some(rt)
    case Granted(rt, n) =>
      && s.mem.cred.refresh == Some(rt) && rt in s.redeemed
      && n.access.Some? && n.refresh.Some? && n.refresh.value in s.issued && n.refresh.value !in s.redeemed
      && n.Expiry() > s.mem.cred.Expiry()
    case Saving(n) => s.mem.cred == n
    case _ => true
  }

  ghost predicate Inv(s: State) {
    && LockIsHeld(s) && DiskTrails(s) && TokensAreIssued(s)
    && (s.lock.Some? ==> CallerAgrees(s, s.At(s.lock.value)))
  }

  lemma {:induction false} InitHolds(s: State)
    requires Init(s)
    ensures Inv(s) && !Lost(s)
  {
  }

  /** A reload never changes the tokens in memory: it cannot undo a refresh. */
  lemma {:induction false} ReloadKeepsTokens(s: State, d: Cred)
    requires DiskTrails(s) && TokensAreIssued(s) && d in s.history
    ensures Reloaded(s.mem, d) == s.mem
  {
  }

  /** Moving the lock's holder on keeps the lock with it. */
  lemma {:induction false} HolderMoves(s: State, c: Caller, pc: Pc)
    requires LockIsHeld(s) && s.At(c).HoldsLock() && pc.HoldsLock()
    ensures LockIsHeld(s.Go(c, pc)) && s.Go(c, pc).lock == Some(c)
  {
  }

  lemma {:induction false} HolderLeaves(s: State, c: Caller)
    requires LockIsHeld(s) && s.At(c).HoldsLock()
    ensures LockIsHeld(s.Leave(c)) && s.lock == Some(c)
  {
  }

  /** The provider's side of it: what comes back, or does not, for a request. */
  lemma {:induction false} ProviderKeepsInv(s: State, e: Step)
    requires Inv(s) && Enabled(s, e) && (e.Grant? || e.Refuse? || e.Drop? || e.Lose?)
    ensures Inv(Next(s, e))
    ensures Lost(Next(s, e)) <==> Lost(s) || e.Lose?
  {
    match e
    case Grant(c, n) => HolderMoves(s, c, Granted(s.At(c).rt, n));
    case Refuse(c) => HolderMoves(s, c, Refused(s.At(c).rt));
    case Drop(c) => HolderMoves(s, c, Dropped(s.At(c).rt, s.At(c).sends));
    case _ =>
  }

  /** What changes memory or the file. */
  lemma {:induction false} StoreKeepsInv(s: State, e: Step)
    requires Inv(s) && Enabled(s, e) && (e.Update? || e.Bury? || e.Save? || e.Reload?)
    ensures Inv(Next(s, e))
    ensures Lost(Next(s, e)) <==> Lost(s)
  {
    match e
    case Update(c, now) => HolderMoves(s, c, Saving(s.At(c).new_));
    case Bury(c, onFail, now) => HolderLeaves(s, c);
    case Save(c, written) => HolderLeaves(s, c);
    case Reload(d) => ReloadKeepsTokens(s, d);
  }

  /** A step keeps the invariant, and only a lost reply, which nothing mends, leaves memory with a spent token. */
  lemma {:induction false} StepKeepsInv(s: State, e: Step)
    requires Inv(s) && Enabled(s, e)
    ensures Inv(Next(s, e))
    ensures Lost(Next(s, e)) <==> Lost(s) || e.Lose?
  {
    match e
    case Read(c, force, onFail, now) =>
      assert s.lock != Some(c);
      assert s.lock.Some? ==> Next(s, e).At(s.lock.value) == s.At(s.lock.value);
    case Acquire(c) =>
    case Recheck(c, now) =>
      HolderLeaves(s, c);
      HolderMoves(s, c, Ready(s.mem.cred.refresh.GetOr(0)));
    case Send(c) => HolderMoves(s, c, Sent(s.At(c).rt, 1));
    case Grant(c, n) => ProviderKeepsInv(s, e);
    case Refuse(c) => ProviderKeepsInv(s, e);
    case Drop(c) => ProviderKeepsInv(s, e);
    case Lose(rt) => ProviderKeepsInv(s, e);
    case Resend(c) => HolderMoves(s, c, Sent(s.At(c).rt, s.At(c).sends + 1));
    case Fail(c) => HolderLeaves(s, c);
    case _ => StoreKeepsInv(s, e);
  }

  // ── Whole runs ───────────────────────────────────────────

  /** The run can be taken from `s`. */
  ghost predicate IsRun(s: State, run: seq<Step>)
    decreases |run|
  {
    run == [] || (Enabled(s, run[0]) && IsRun(Next(s, run[0]), run[1..]))
  }

  ghost function Final(s: State, run: seq<Step>): State
    requires IsRun(s, run)
    decreases |run|
  {
    if run == [] then s else Final(Next(s, run[0]), run[1..])
  }

  predicate Sends(e: Step) { e.Send? || e.Resend? }

  /** No step of the run sends a refresh token the provider has already redeemed. */
  ghost predicate SendsOnlyLive(s: State, run: seq<Step>)
    requires IsRun(s, run)
    decreases |run|
  {
    run == [] ||
    (&& (Sends(run[0]) ==> s.At(run[0].c).rt !in s.redeemed)
     && SendsOnlyLive(Next(s, run[0]), run[1..]))
  }

  /** No refresh is sent after a reply was lost. */
  predicate QuietAfterLoss(run: seq<Step>) {
    forall i, j :: 0 <= i < j < |run| && run[i].Lose? ==> !Sends(run[j])
  }

  predicate LosesAReply(run: seq<Step>) {
    exists i :: 0 <= i < |run| && run[i].Lose?
  }

  /** The invariant holds along a run, which leaves a spent token in memory exactly when it loses a reply. */
  lemma {:induction false} RunKeepsInv(s: State, run: seq<Step>)
    requires Inv(s) && IsRun(s, run)
    ensures Inv(Final(s, run))
    ensures Lost(Final(s, run)) <==> Lost(s) || LosesAReply(run)
    decreases |run|
  {
    if run != [] {
      var rest := run[1..];
      StepKeepsInv(s, run[0]);
      RunKeepsInv(Next(s, run[0]), rest);
      if LosesAReply(rest) {
        var i :| 0 <= i < |rest| && rest[i].Lose?;
        assert run[i + 1].Lose?;
      }
      if LosesAReply(run) {
        var i :| 0 <= i < |run| && run[i].Lose?;
        assert i == 0 || rest[i - 1].Lose?;
      }
    }
  }

  /** What a caller sends is memory's token, so it is a redeemed one exactly when a reply has been lost. */
  lemma {:induction false} SendsTheRedeemedExactlyWhenLost(s: State, e: Step)
    requires Inv(s) && Enabled(s, e) && Sends(e)
    ensures s.At(e.c).rt in s.redeemed <==> Lost(s)
  {
  }

  /** Without a lost reply behind it, a run resends nothing exactly as long as no send follows a loss. */
  lemma {:induction false} ResendsExactly(s: State, run: seq<Step>)
    requires Inv(s) && IsRun(s, run)
    ensures SendsOnlyLive(s, run) <==>
            if Lost(s) then forall j :: 0 <= j < |run| ==> !Sends(run[j]) else QuietAfterLoss(run)
    decreases |run|
  {
    if run != [] {
      var e, rest := run[0], run[1..];
      StepKeepsInv(s, e);
      ResendsExactly(Next(s, e), rest);
      if Sends(e) {
        SendsTheRedeemedExactlyWhenLost(s, e);
      }
      QuietStep(run);
    }
  }

  lemma {:induction false} QuietStep(run: seq<Step>)
    requires run != []
    ensures QuietAfterLoss(run) <==>
            QuietAfterLoss(run[1..]) && (run[0].Lose? ==> forall j :: 0 <= j < |run[1..]| ==> !Sends(run[1..][j]))
    ensures (forall j :: 0 <= j < |run| ==> !Sends(run[j])) <==>
            !Sends(run[0]) && forall j :: 0 <= j < |run[1..]| ==> !Sends(run[1..][j])
    ensures (forall j :: 0 <= j < |run| ==> !Sends(run[j])) ==> QuietAfterLoss(run)
  {
    var rest := run[1..];
    assert forall i :: 0 <= i < |rest| ==> rest[i] == run[i + 1];
    assert forall i :: 0 < i < |run| ==> run[i] == rest[i - 1];
  }

  /**
   In every interleaving from a fresh login, a refresh token the provider has
   redeemed is sent again exactly if a refresh is sent after a reply was lost.
   */
  lemma {:induction false} RedeemedIsResentExactlyAfterALoss(s: State, run: seq<Step>)
    requires Init(s) && IsRun(s, run)
    ensures SendsOnlyLive(s, run) <==> QuietAfterLoss(run)
  {
    InitHolds(s);
    ResendsExactly(s, run);
  }

  /** A caller about to send a token still live loses the reply and sends again. */
  lemma {:induction false} SendLoseResend(s: State, c: Caller) returns (run: seq<Step>)
    requires s.At(c).Ready? && s.At(c).rt !in s.redeemed
    ensures IsRun(s, run) && |run| == 4 && run[2].Lose? && Sends(run[3])
  {
    var s1 := Next(s, Send(c));
    var s2 := Next(s1, Drop(c));
    run := [Resend(c)];
    Prepend(s2, Lose(s.At(c).rt), run);
    run := [Lose(s.At(c).rt)] + run;
    Prepend(s1, Drop(c), run);
    run := [Drop(c)] + run;
    Prepend(s, Send(c), run);
    run := [Send(c)] + run;
  }

  /** Such a run: the reply to the first send is lost, and the client sends the same token again. */
  lemma {:induction false} LostReplyIsResent() returns (s: State, run: seq<Step>)
    ensures Init(s) && IsRun(s, run) && !SendsOnlyLive(s, run)
  {
    var login := Cred(Some(1), Some(7), Some(0));
    s := State(Mem(login, None, None, false), login, {login}, None, map[], {7}, {}, {});
    var look := Read(1, false, MarkDead, 0);
    var s1 := Next(s, look);
    var s2 := Next(s1, Acquire(1));
    run := SendLoseResend(Next(s2, Recheck(1, 0)), 1);
    Prepend(s2, Recheck(1, 0), run);
    run := [Recheck(1, 0)] + run;
    Prepend(s1, Acquire(1), run);
    run := [Acquire(1)] + run;
    Prepend(s, look, run);
    run := [look] + run;
    assert run[5].Lose? && Sends(run[6]);
    RedeemedIsResentExactlyAfterALoss(s, run);
  }

  /** While every reply arrives, no redeemed refresh token is ever sent again. */
  lemma {:induction false} RedeemedIsNeverResent(s: State, run: seq<Step>)
    requires Init(s) && IsRun(s, run) && !LosesAReply(run)
    ensures SendsOnlyLive(s, run)
  {
    RedeemedIsResentExactlyAfterALoss(s, run);
  }

  /** After a lost reply no refresh of the account succeeds again, whoever tries: it takes a new login. */
  lemma {:induction false} LossIsForGood(s: State, run: seq<Step>, c: Caller, n: Cred)
    requires Init(s) && IsRun(s, run) && LosesAReply(run)
    ensures !Enabled(Final(s, run), Grant(c, n))
  {
    InitHolds(s);
    RunKeepsInv(s, run);
  }

  /** In every state a run from a fresh login reaches, at most one caller is refreshing the account. */
  lemma {:induction false} OneRefreshOutstanding(s: State, run: seq<Step>, c: Caller, d: Caller)
    requires Init(s) && IsRun(s, run)
    requires Final(s, run).At(c).Refreshing() && Final(s, run).At(d).Refreshing()
    ensures c == d
  {
    InitHolds(s);
    RunKeepsInv(s, run);
  }

  /**
   Restarting from the file finds a live token exactly when the last refresh was
   written to it and no reply was lost.
   */
  lemma {:induction false} RestartIsSafeExactlyWhenSaved(s: State, run: seq<Step>)
    requires Init(s) && IsRun(s, run)
    requires Final(s, run).lock.None? && Final(s, run).disk.refresh.Some?
    ensures var t := Final(s, run);
            t.disk.refresh.value !in t.redeemed <==> t.disk == t.mem.cred && !LosesAReply(run)
  {
    InitHolds(s);
    RunKeepsInv(s, run);
  }

  /**
   A waiter that gets the lock after a peer's successful refresh sends nothing,
   unless the new token is itself about to expire.
   */
  lemma {:induction false} WaitersCoalesce(s: State, c: Caller, now: int)
    requires Inv(s) && s.At(c).Waiting? && s.lock.None?
    requires s.mem.cred.refresh.Some? && s.mem.cred.refresh != Some(s.At(c).read)
    ensures var t := Next(Next(s, Acquire(c)), Recheck(c, now));
            if s.At(c).force then t.At(c).Idle? else (t.At(c).Idle? <==> !s.mem.cred.ExpiringSoon(now))
  {
  }

  // ── The dead token ───────────────────────────────────────

  /** A caller that starts after a refresh token was buried never sends it. */
  lemma {:induction false} BuriedIsNotReadAgain(s: State, c: Caller, force: bool, onFail: OnFail, now: int)
    requires s.At(c).Idle? && s.mem.dead.Some? && s.mem.dead == s.mem.cred.refresh
    ensures Next(s, Read(c, force, onFail, now)).At(c).Idle?
  {
  }

  /**
   A caller already waiting does send it: the re-check under the lock does not
   look at the buried token. It is sent again exactly when it still looks stale.
   */
  lemma {:induction false} WaiterResendsTheBuried(s: State, c: Caller, now: int)
    requires s.At(c).Waiting? && s.lock.None?
    requires s.mem.dead.Some? && s.mem.dead == s.mem.cred.refresh
    ensures var t := Next(Next(s, Acquire(c)), Recheck(c, now));
            t.At(c) == Ready(s.mem.dead.value) <==> StillNeeded(s.mem, s.At(c).force, s.At(c).read, now)
  {
  }

  /** The refresh token in memory is one that was buried. */
  predicate Buried(s: State) {
    s.mem.dead.Some? && s.mem.dead == s.mem.cred.refresh
  }

  /** Some step of the run sends a token that is buried by then. */
  ghost predicate SendsBuried(s: State, run: seq<Step>)
    requires IsRun(s, run)
    decreases |run|
  {
    run != [] &&
    (|| (Sends(run[0]) && s.mem.dead == Some(s.At(run[0].c).rt))
     || SendsBuried(Next(s, run[0]), run[1..]))
  }

  /** The second look lets a caller on with the buried token, because it still looks stale. */
  predicate PassesBuried(s: State, e: Step)
    requires Enabled(s, e)
  {
    e.Recheck? && Buried(s) && StillNeeded(s.mem, s.At(e.c).force, s.At(e.c).read, e.now)
  }

  /** That happens somewhere in the run, and the caller gets to send. */
  ghost predicate PassesThenSends(s: State, run: seq<Step>)
    requires IsRun(s, run)
    decreases |run|
  {
    run != [] &&
    (|| (PassesBuried(s, run[0]) && Send(run[0].c) in run[1..])
     || PassesThenSends(Next(s, run[0]), run[1..]))
  }

  /** The caller is past the second look with a token that is buried. */
  predicate Carries(s: State, c: Caller) {
    (s.At(c).Ready? || s.At(c).Refreshing()) && s.mem.dead == Some(s.At(c).rt)
  }

  /** The caller carries a buried token until it sends it. */
  ghost predicate CarriesThenSends(s: State, c: Caller, run: seq<Step>)
    requires IsRun(s, run)
    decreases |run|
  {
    Carries(s, c) && run != [] &&
    (|| (Sends(run[0]) && run[0].c == c)
     || CarriesThenSends(Next(s, run[0]), c, run[1..]))
  }

  /** A caller only comes to carry a buried token by passing the second look with it. */
  lemma {:induction false} CarryingStarts(s: State, e: Step, c: Caller)
    requires Inv(s) && Enabled(s, e) && !Carries(s, c)
    ensures Carries(Next(s, e), c) <==> e.Recheck? && e.c == c && PassesBuried(s, e)
    ensures Carries(Next(s, e), c) ==> Next(s, e).At(c).Ready?
  {
    if e.Reload? {
      ReloadKeepsTokens(s, e.read);
    }
  }

  /** One about to send carries its token on until it does. */
  lemma {:induction false} ReadyStays(s: State, e: Step, c: Caller)
    requires Inv(s) && Enabled(s, e) && s.At(c).Ready? && Carries(s, c) && e != Send(c)
    ensures Next(s, e).At(c) == s.At(c) && Carries(Next(s, e), c)
  {
    if e.Reload? {
      ReloadKeepsTokens(s, e.read);
    }
  }

  lemma {:induction false} ReadySends(s: State, c: Caller, run: seq<Step>)
    requires Inv(s) && IsRun(s, run) && s.At(c).Ready? && Carries(s, c)
    ensures CarriesThenSends(s, c, run) <==> Send(c) in run
    decreases |run|
  {
    if run != [] {
      assert run == [run[0]] + run[1..];
      if run[0] != Send(c) {
        StepKeepsInv(s, run[0]);
        ReadyStays(s, run[0], c);
        ReadySends(Next(s, run[0]), c, run[1..]);
      }
    }
  }

  ghost predicate SomeoneSendsIt(s: State, run: seq<Step>)
    requires IsRun(s, run)
  {
    exists c :: CarriesThenSends(s, c, run)
  }

  lemma {:induction false} BuriedGoesOut(s: State, run: seq<Step>)
    requires Inv(s) && IsRun(s, run)
    ensures SendsBuried(s, run) <==> PassesThenSends(s, run) || SomeoneSendsIt(s, run)
    decreases |run|
  {
    if run == [] {
      forall c
        ensures !CarriesThenSends(s, c, run)
      {
      }
    } else {
      var e := run[0];
      StepKeepsInv(s, e);
      BuriedGoesOut(Next(s, e), run[1..]);
      hide Inv, Next, Enabled, Buried, StillNeeded, SomeoneSendsIt;
      if Sends(e) && s.mem.dead == Some(s.At(e.c).rt) {
        FirstStepSendsIt(s, run);
      } else {
        SomeoneCarriesOn(s, run);
      }
      return;
    }
  }

  lemma {:induction false} FirstStepSendsIt(s: State, run: seq<Step>)
    requires IsRun(s, run) && run != [] && Sends(run[0]) && s.mem.dead == Some(s.At(run[0].c).rt)
    ensures SomeoneSendsIt(s, run)
  {
    SenderCarries(s, run[0]);
    assert CarriesThenSends(s, run[0].c, run);
  }

  lemma {:induction false} SomeoneCarriesOn(s: State, run: seq<Step>)
    requires Inv(s) && IsRun(s, run) && run != []
    requires Sends(run[0]) ==> s.mem.dead != Some(s.At(run[0].c).rt)
    ensures SomeoneSendsIt(Next(s, run[0]), run[1..]) <==>
            SomeoneSendsIt(s, run) || (PassesBuried(s, run[0]) && Send(run[0].c) in run[1..])
  {
    hide Inv, Next, Enabled, Carries, Buried, StillNeeded, CarriesThenSends;
    var t := Next(s, run[0]);
    if c :| CarriesThenSends(t, c, run[1..]) {
      CarriedOn(s, c, run);
    }
    if c :| CarriesThenSends(s, c, run) {
      CarriedOn(s, c, run);
      assert CarriesThenSends(t, c, run[1..]);
    }
    if PassesBuried(s, run[0]) && Send(run[0].c) in run[1..] {
      CarriedOn(s, run[0].c, run);
      assert CarriesThenSends(t, run[0].c, run[1..]);
    }
    return;
  }

  lemma {:induction false} SenderCarries(s: State, e: Step)
    requires Enabled(s, e) && Sends(e)
    ensures Carries(s, e.c) <==> s.mem.dead == Some(s.At(e.c).rt)
  {
  }

  /** Unless the first step sends it, a token is carried to its sending from the start or from the second look. */
  lemma {:induction false} CarriedOn(s: State, c: Caller, run: seq<Step>)
    requires Inv(s) && IsRun(s, run) && run != []
    requires Sends(run[0]) ==> s.mem.dead != Some(s.At(run[0].c).rt)
    ensures CarriesThenSends(Next(s, run[0]), c, run[1..]) <==>
            CarriesThenSends(s, c, run) || (PassesBuried(s, run[0]) && run[0].c == c && Send(c) in run[1..])
  {
    var e := run[0];
    StepKeepsInv(s, e);
    if !Carries(s, c) {
      CarryingStarts(s, e, c);
      if Carries(Next(s, e), c) {
        ReadySends(Next(s, e), c, run[1..]);
      }
    }
  }

  /**
   In every interleaving from a fresh login, a buried token is sent again exactly if a
   caller's second look finds it still stale and the caller gets to send.
   */
  lemma {:induction false} BuriedIsResentExactly(s: State, run: seq<Step>)
    requires Init(s) && IsRun(s, run)
    ensures SendsBuried(s, run) <==> PassesThenSends(s, run)
  {
    InitHolds(s);
    BuriedGoesOut(s, run);
  }

  /** The caller looked, and later in the run a token was buried. */
  ghost predicate LooksThenBuries(run: seq<Step>, c: Caller) {
    exists h, b :: 0 <= h < b < |run| && run[h].Read? && run[h].c == c && run[b].Bury?
  }

  predicate InQueue(s: State, c: Caller) {
    s.At(c).Waiting? || s.At(c).Holding?
  }

  /** Such a caller has been waiting since before the burial. */
  lemma {:induction false} WaitedThroughTheBurial(s: State, run: seq<Step>, c: Caller)
    requires Init(s) && IsRun(s, run)
    requires InQueue(Final(s, run), c) && Buried(Final(s, run))
    ensures LooksThenBuries(run, c)
  {
    InitHolds(s);
    QueuedOrLooked(s, run, c);
  }

  lemma {:induction false} QueuedOrLooked(s: State, run: seq<Step>, c: Caller)
    requires Inv(s) && IsRun(s, run)
    requires InQueue(Final(s, run), c) && Buried(Final(s, run))
    ensures LooksThenBuries(run, c)
            || (InQueue(s, c) && (Buried(s) || exists b :: 0 <= b < |run| && run[b].Bury?))
    decreases |run|
  {
    if run != [] {
      var e, rest := run[0], run[1..];
      StepKeepsInv(s, e);
      QueuedOrLooked(Next(s, e), rest, c);
      assert forall i :: 0 <= i < |rest| ==> rest[i] == run[i + 1];
      QueueStep(s, e, c);
    }
  }

  /** Only a burial buries; a caller queues up only from its first look, and not for a buried token. */
  lemma {:induction false} QueueStep(s: State, e: Step, c: Caller)
    requires Inv(s) && Enabled(s, e)
    ensures Buried(Next(s, e)) && !Buried(s) ==> e.Bury?
    ensures InQueue(Next(s, e), c) && !InQueue(s, c) ==> e.Read? && e.c == c && !Buried(s) && !Buried(Next(s, e))
  {
    if e.Reload? {
      ReloadKeepsTokens(s, e.read);
    }
  }

  /** From a buried token and a waiter, three steps send it. */
  lemma {:induction false} WaiterSends(s: State, c: Caller, now: int) returns (run: seq<Step>)
    requires s.At(c).Waiting? && s.lock.None?
    requires s.mem.dead.Some? && s.mem.dead == s.mem.cred.refresh
    requires StillNeeded(s.mem, s.At(c).force, s.At(c).read, now)
    ensures IsRun(s, run) && Final(s, run).At(c) == Sent(s.mem.dead.value, 1)
    ensures Final(s, run).mem == s.mem
  {
    var s1 := Next(s, Acquire(c));
    var s2 := Next(s1, Recheck(c, now));
    run := [];
    Prepend(s2, Send(c), run);
    run := [Send(c)] + run;
    Prepend(s1, Recheck(c, now), run);
    run := [Recheck(c, now)] + run;
    Prepend(s, Acquire(c), run);
    run := [Acquire(c)] + run;
  }

  /** The provider refuses the refresh of the caller that holds the lock, and live traffic buries its token. */
  lemma {:induction false} HolderIsRefused(s: State, c: Caller, rest: seq<Step>, now: int) returns (run: seq<Step>)
    requires s.At(c).Ready?
    requires IsRun(s.Leave(c).(mem := s.mem.(error := true, dead := Some(s.At(c).rt))), rest)
    ensures IsRun(s, run)
    ensures Final(s, run) == Final(s.Leave(c).(mem := s.mem.(error := true, dead := Some(s.At(c).rt))), rest)
  {
    var s1 := Next(s, Send(c));
    var s2 := Next(s1, Refuse(c));
    var s3 := Next(s2, Bury(c, MarkDead, now));
    assert s3.callers == s.Leave(c).callers;
    assert s3 == s.Leave(c).(mem := s.mem.(error := true, dead := Some(s.At(c).rt)));
    Prepend(s2, Bury(c, MarkDead, now), rest);
    run := [Bury(c, MarkDead, now)] + rest;
    Prepend(s1, Refuse(c), run);
    run := [Refuse(c)] + run;
    Prepend(s, Send(c), run);
    run := [Send(c)] + run;
  }

  /** Such a run from a fresh login: two callers look, the first is refused, the second sends the same token. */
  lemma {:induction false} BuriedTokenIsSentTwice() returns (s: State, run: seq<Step>)
    ensures Init(s) && IsRun(s, run)
    ensures var t := Final(s, run);
            t.At(2).Sent? && t.mem.dead == Some(t.At(2).rt)
  {
    var login := Cred(Some(1), Some(7), Some(0));
    s := State(Mem(login, None, None, false), login, {login}, None, map[], {7}, {}, {});
    var look1, look2 := Read(1, false, MarkDead, 0), Read(2, false, MarkDead, 0);
    var s1 := Next(s, look1);
    var s2 := Next(s1, look2);
    var s3 := Next(s2, Acquire(1));
    var s4 := Next(s3, Recheck(1, 0));
    var buried := s4.Leave(1).(mem := s4.mem.(error := true, dead := Some(s4.At(1).rt)));
    run := WaiterSends(buried, 2, 0);
    run := HolderIsRefused(s4, 1, run, 0);
    Prepend(s3, Recheck(1, 0), run);
    run := [Recheck(1, 0)] + run;
    Prepend(s2, Acquire(1), run);
    run := [Acquire(1)] + run;
    Prepend(s1, look2, run);
    run := [look2] + run;
    Prepend(s, look1, run);
    run := [look1] + run;
  }

  lemma {:induction false} Prepend(s: State, e: Step, run: seq<Step>)
    requires Enabled(s, e) && IsRun(Next(s, e), run)
    ensures IsRun(s, [e] + run) && Final(s, [e] + run) == Final(Next(s, e), run)
  {
    assert ([e] + run)[1..] == run;
  }
}
