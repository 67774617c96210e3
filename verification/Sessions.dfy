/**
 Client sessions: which account each one is pinned to per weekly bucket, how
 many of its requests are in flight, and the load this puts on the accounts.
 The map is capped; a session with a request in flight is never dropped.
 */
module Sessions {
  import opened Options
  import opened Models

  /** An account id, name, uuid or other configured string: only ever compared. */
  type Text = nat

  const SESSION_KNOWN_TTL_MS: int := 60 * 60 * 1000
  const SESSION_ACTIVE_TTL_MS: int := 2 * 60 * 1000
  const MAX_SESSIONS: nat := 10000
  const SWEEP_INTERVAL_MS: int := 60 * 1000

  /** The order in which one hash map happens to iterate over the weekly buckets. */
  type IterOrder = o: seq<Weekly> | Shared in o && Fable in o && Sonnet in o
    witness [Shared, Fable, Sonnet]

  datatype Session = Session(
    pins: map<Weekly, Text>,
    order: IterOrder,
    firstSeen: int,
    lastSeen: int,
    count: nat,
    inFlight: nat,
    client: Option<Text>)

  function NewSession(now: int, order: IterOrder): Session {
    Session(map[], order, now, now, 0, 0, None)
  }

  function PinnedAccount(sessions: map<string, Session>, id: string, bucket: Weekly): Option<Text> {
    if id in sessions && bucket in sessions[id].pins then Some(sessions[id].pins[bucket]) else None
  }

  /** The account some bucket of the session is pinned to: the first one its hash map yields. */
  function AnyPin(sessions: map<string, Session>, id: string): Option<Text> {
    if id in sessions then FirstPin(sessions[id].pins, sessions[id].order) else None
  }

  function FirstPin(pins: map<Weekly, Text>, order: seq<Weekly>): Option<Text> {
    if order == [] then None
    else if order[0] in pins then Some(pins[order[0]])
    else FirstPin(pins, order[1..])
  }

  // ── Load ─────────────────────────────────────────────────

  predicate IsKnown(s: Session, now: int) {
    s.inFlight > 0 || now - s.lastSeen < SESSION_KNOWN_TTL_MS
  }

  predicate IsActive(s: Session, now: int) {
    s.inFlight > 0 || now - s.lastSeen < SESSION_ACTIVE_TTL_MS
  }

  ghost function KnownIds(sessions: map<string, Session>, now: int): set<string> {
    set k | k in sessions && IsKnown(sessions[k], now)
  }

  ghost function ActiveIds(sessions: map<string, Session>, now: int): set<string> {
    set k | k in sessions && IsActive(sessions[k], now)
  }

  /** The sessions with at least one pin on `account`. */
  ghost function PinnedTo(sessions: map<string, Session>, account: Text): set<string> {
    set k | k in sessions && account in sessions[k].pins.Values
  }

  ghost function ActiveOn(sessions: map<string, Session>, account: Text, now: int): nat {
    |ActiveIds(sessions, now) * PinnedTo(sessions, account)|
  }

  ghost function InFlightOn(sessions: map<string, Session>, account: Text, now: int): nat {
    TotalInFlight(sessions, KnownIds(sessions, now) * PinnedTo(sessions, account))
  }

  ghost function TotalInFlight(sessions: map<string, Session>, ids: set<string>): nat
    requires ids <= sessions.Keys
  {
    if ids == {} then 0
    else
      var k :| k in ids;
      sessions[k].inFlight + TotalInFlight(sessions, ids - {k})
  }

  lemma {:induction false} TotalWithout(sessions: map<string, Session>, ids: set<string>, id: string)
    requires ids <= sessions.Keys && id in ids
    ensures TotalInFlight(sessions, ids) == sessions[id].inFlight + TotalInFlight(sessions, ids - {id})
    decreases |ids|
  {
    var k :| k in ids && TotalInFlight(sessions, ids) == sessions[k].inFlight + TotalInFlight(sessions, ids - {k});
    if k != id {
      TotalWithout(sessions, ids - {k}, id);
      TotalWithout(sessions, ids - {id}, k);
      assert ids - {k} - {id} == ids - {id} - {k};
    }
  }

  function Count(m: map<Text, nat>, a: Text): nat {
    if a in m then m[a] else 0
  }

  datatype SessionStats = SessionStats(
    active: nat,
    known: nat,
    inFlight: nat,
    perAccountActive: map<Text, nat>,
    perAccountInFlight: map<Text, nat>)

  /** `st` counts the sessions in `ids`, each once per distinct account it is pinned to. */
  ghost predicate CountsExactly(st: SessionStats, sessions: map<string, Session>, ids: set<string>, now: int)
    requires ids <= sessions.Keys
  {
    && st.active == |ids * ActiveIds(sessions, now)|
    && st.known == |ids * KnownIds(sessions, now)|
    && st.inFlight == TotalInFlight(sessions, ids * KnownIds(sessions, now))
    && TalliesActive(st.perAccountActive, sessions, ids, now)
    && TalliesInFlight(st.perAccountInFlight, sessions, ids, now)
  }

  ghost predicate TalliesActive(tally: map<Text, nat>, sessions: map<string, Session>, ids: set<string>, now: int)
    requires ids <= sessions.Keys
  {
    forall a: Text :: Count(tally, a) == |ids * ActiveIds(sessions, now) * PinnedTo(sessions, a)|
  }

  ghost predicate TalliesInFlight(tally: map<Text, nat>, sessions: map<string, Session>, ids: set<string>, now: int)
    requires ids <= sessions.Keys
  {
    forall a: Text :: Count(tally, a) == TotalInFlight(sessions, ids * KnownIds(sessions, now) * PinnedTo(sessions, a))
  }

  ghost function PinsOf(s: Session, buckets: set<Weekly>): set<Text>
    requires buckets <= s.pins.Keys
  {
    set w <- buckets :: s.pins[w]
  }

  function Raised(m: map<Text, nat>, a: Text, amount: nat): (r: map<Text, nat>)
    ensures forall b: Text :: Count(r, b) == Count(m, b) + (if b == a then amount else 0)
  {
    m[a := Count(m, a) + amount]
  }

  /** Add `amount` to the tally of each account `s` is pinned to, once however many buckets pin it. */
  method TallyPins(s: Session, amount: nat, tally: map<Text, nat>) returns (out: map<Text, nat>)
    ensures forall a: Text :: Count(out, a) == Count(tally, a) + (if a in s.pins.Values then amount else 0)
  {
    out := tally;
    var seen: set<Text> := {};
    var rest := s.pins.Keys;
    while rest != {}
      invariant rest <= s.pins.Keys
      invariant seen == PinsOf(s, s.pins.Keys - rest)
      invariant forall a: Text :: Count(out, a) == Count(tally, a) + (if a in seen then amount else 0)
      decreases |rest|
    {
      var w :| w in rest;
      var a := s.pins[w];
      ghost var was := out;
      if a !in seen {
        out := Raised(out, a, amount);
      }
      assert s.pins.Keys - (rest - {w}) == (s.pins.Keys - rest) + {w};
      assert PinsOf(s, (s.pins.Keys - rest) + {w}) == seen + {a};
      seen := seen + {a};
      rest := rest - {w};
    }
    assert s.pins.Keys - {} == s.pins.Keys;
    assert PinsOf(s, s.pins.Keys) == s.pins.Values;
  }

  lemma {:induction false} KeepingOneMore(ids: set<string>, id: string, keep: set<string>)
    requires id !in ids
    ensures id in keep ==> (ids + {id}) * keep == ids * keep + {id} && (ids + {id}) * keep - {id} == ids * keep
    ensures id !in keep ==> (ids + {id}) * keep == ids * keep
    ensures id in keep ==> |(ids + {id}) * keep| == |ids * keep| + 1
  {
  }

  /** One step of the count: the tallies of `ids` and of `id` add up. */
  lemma {:induction false} OneMore(sessions: map<string, Session>, ids: set<string>, id: string, keep: set<string>)
    requires ids <= sessions.Keys && id in sessions && id !in ids
    ensures |(ids + {id}) * keep| == |ids * keep| + (if id in keep then 1 else 0)
    ensures TotalInFlight(sessions, (ids + {id}) * keep)
            == TotalInFlight(sessions, ids * keep) + (if id in keep then sessions[id].inFlight else 0)
  {
    KeepingOneMore(ids, id, keep);
    if id in keep {
      TotalWithout(sessions, (ids + {id}) * keep, id);
    }
  }

  lemma {:induction false} OneMoreOn(
    sessions: map<string, Session>, ids: set<string>, id: string, keep: set<string>, a: Text)
    requires ids <= sessions.Keys && id in sessions && id !in ids
    ensures |(ids + {id}) * keep * PinnedTo(sessions, a)|
            == |ids * keep * PinnedTo(sessions, a)| + (if id in keep && a in sessions[id].pins.Values then 1 else 0)
    ensures TotalInFlight(sessions, (ids + {id}) * keep * PinnedTo(sessions, a))
            == TotalInFlight(sessions, ids * keep * PinnedTo(sessions, a))
               + (if id in keep && a in sessions[id].pins.Values then sessions[id].inFlight else 0)
  {
    OneMore(sessions, ids, id, keep * PinnedTo(sessions, a));
    assert (ids + {id}) * keep * PinnedTo(sessions, a) == (ids + {id}) * (keep * PinnedTo(sessions, a));
    assert ids * keep * PinnedTo(sessions, a) == ids * (keep * PinnedTo(sessions, a));
  }

  lemma {:induction false} ActiveTallyStep(
    tally: map<Text, nat>, more: map<Text, nat>, sessions: map<string, Session>, ids: set<string>, k: string, now: int)
    requires ids <= sessions.Keys && k in sessions && k !in ids && TalliesActive(tally, sessions, ids, now)
    requires forall a: Text ::
               Count(more, a) == Count(tally, a)
                 + (if IsActive(sessions[k], now) && a in sessions[k].pins.Values then 1 else 0)
    ensures TalliesActive(more, sessions, ids + {k}, now)
  {
    forall a: Text
      ensures Count(more, a) == |(ids + {k}) * ActiveIds(sessions, now) * PinnedTo(sessions, a)|
    {
      OneMoreOn(sessions, ids, k, ActiveIds(sessions, now), a);
    }
  }

  lemma {:induction false} InFlightTallyStep(
    tally: map<Text, nat>, more: map<Text, nat>, sessions: map<string, Session>, ids: set<string>, k: string, now: int)
    requires ids <= sessions.Keys && k in sessions && k !in ids && TalliesInFlight(tally, sessions, ids, now)
    requires forall a: Text ::
               Count(more, a) == Count(tally, a)
                 + (if IsKnown(sessions[k], now) && a in sessions[k].pins.Values then sessions[k].inFlight else 0)
    ensures TalliesInFlight(more, sessions, ids + {k}, now)
  {
    forall a: Text
      ensures Count(more, a) == TotalInFlight(sessions, (ids + {k}) * KnownIds(sessions, now) * PinnedTo(sessions, a))
    {
      OneMoreOn(sessions, ids, k, KnownIds(sessions, now), a);
    }
  }

  /** Count one more session. */
  method CountSession(st: SessionStats, sessions: map<string, Session>, ghost done: set<string>, k: string, now: int)
    returns (out: SessionStats)
    requires done <= sessions.Keys && k in sessions && k !in done
    requires CountsExactly(st, sessions, done, now)
    ensures CountsExactly(out, sessions, done + {k}, now)
  {
    var s := sessions[k];
    OneMore(sessions, done, k, KnownIds(sessions, now));
    OneMore(sessions, done, k, ActiveIds(sessions, now));
    if !IsKnown(s, now) {
      ActiveTallyStep(st.perAccountActive, st.perAccountActive, sessions, done, k, now);
      InFlightTallyStep(st.perAccountInFlight, st.perAccountInFlight, sessions, done, k, now);
      return st;
    }
    var perActive := st.perAccountActive;
    if IsActive(s, now) {
      perActive := TallyPins(s, 1, perActive);
    }
    var perInFlight := TallyPins(s, s.inFlight, st.perAccountInFlight);
    ActiveTallyStep(st.perAccountActive, perActive, sessions, done, k, now);
    InFlightTallyStep(st.perAccountInFlight, perInFlight, sessions, done, k, now);
    out := SessionStats(
      st.active + (if IsActive(s, now) then 1 else 0),
      st.known + 1,
      st.inFlight + s.inFlight,
      perActive,
      perInFlight);
  }

  /** Take one key off those left to count. */
  method TakeKey(keys: set<string>, rest: set<string>) returns (k: string, left: set<string>)
    requires rest <= keys && rest != {}
    ensures k in rest && left == rest - {k} && |left| < |rest|
    ensures k !in keys - rest && keys - left == keys - rest + {k}
  {
    k :| k in rest;
    left := rest - {k};
  }

  /** The load report: every active session counted exactly once per distinct pinned account. */
  method Stats(sessions: map<string, Session>, now: int) returns (st: SessionStats)
    ensures forall a: Text :: Count(st.perAccountActive, a) == ActiveOn(sessions, a, now)
    ensures forall a: Text :: Count(st.perAccountInFlight, a) == InFlightOn(sessions, a, now)
    ensures CountsExactly(st, sessions, sessions.Keys, now)
  {
    st := SessionStats(0, 0, 0, map[], map[]);
    var rest := sessions.Keys;
    NothingCounted(sessions, now);
    while rest != {}
      invariant rest <= sessions.Keys && CountsExactly(st, sessions, sessions.Keys - rest, now)
      decreases |rest|
    {
      var k, left := TakeKey(sessions.Keys, rest);
      st := CountSession(st, sessions, sessions.Keys - rest, k, now);
      rest := left;
    }
    AllCounted(st, sessions, rest, now);
  }

  lemma {:induction false} NothingCounted(sessions: map<string, Session>, now: int)
    ensures CountsExactly(SessionStats(0, 0, 0, map[], map[]), sessions, sessions.Keys - sessions.Keys, now)
  {
    assert sessions.Keys - sessions.Keys == {};
    forall keep: set<string>
      ensures {} * keep == {}
    {
    }
  }

  lemma {:induction false} AllCounted(st: SessionStats, sessions: map<string, Session>, rest: set<string>, now: int)
    requires rest == {} && CountsExactly(st, sessions, sessions.Keys - rest, now)
    ensures CountsExactly(st, sessions, sessions.Keys, now)
    ensures forall a: Text :: Count(st.perAccountActive, a) == ActiveOn(sessions, a, now)
    ensures forall a: Text :: Count(st.perAccountInFlight, a) == InFlightOn(sessions, a, now)
  {
    assert sessions.Keys - rest == sessions.Keys;
    assert sessions.Keys * ActiveIds(sessions, now) == ActiveIds(sessions, now);
    assert sessions.Keys * KnownIds(sessions, now) == KnownIds(sessions, now);
  }

  // ── The capped map ───────────────────────────────────────

  predicate IdChar(c: char) {
    'a' <= c <= 'z' || 'A' <= c <= 'Z' || '0' <= c <= '9' || c in "-_.:"
  }

  /** UUID-like ids and short opaque tokens; anything else is ignored. */
  predicate ValidSessionId(id: string) {
    0 < |id| <= 128 && forall i :: 0 <= i < |id| ==> IdChar(id[i])
  }

  datatype Tracker = Tracker(sessions: map<string, Session>, lastSweep: int)

  function Swept(t: Tracker, now: int): Tracker {
    Tracker(map k | k in t.sessions && IsKnown(t.sessions[k], now) :: t.sessions[k], now)
  }

  ghost predicate LongestIdle(sessions: map<string, Session>, k: string) {
    && k in sessions && sessions[k].inFlight == 0
    && forall j <- sessions :: sessions[j].inFlight == 0 ==> sessions[k].lastSeen <= sessions[j].lastSeen
  }

  predicate AllBusy(sessions: map<string, Session>) {
    forall k <- sessions :: sessions[k].inFlight > 0
  }

  /** Making room for `id`: sweep, then evict the longest-idle session, or refuse when all are busy. */
  ghost predicate EnsureStep(before: Tracker, after: Tracker, id: string, now: int, order: IterOrder, ok: bool) {
    if !ValidSessionId(id) then !ok && after == before
    else if id in before.sessions then ok && after == before
    else
      var newcomer := NewSession(now, order);
      if |before.sessions| < MAX_SESSIONS then
        ok && after == before.(sessions := before.sessions[id := newcomer])
      else
        var swept := Swept(before, now);
        if |swept.sessions| < MAX_SESSIONS then
          ok && after == swept.(sessions := swept.sessions[id := newcomer])
        else if AllBusy(swept.sessions) then
          !ok && after == swept
        else
          && ok
          && exists k :: LongestIdle(swept.sessions, k)
                         && after == swept.(sessions := (swept.sessions - {k})[id := newcomer])
  }

  datatype Op =
    | Begin(id: string, client: Option<Text>, order: IterOrder)
    | End(id: string)
    | Touch(id: string, account: Option<Text>, bucket: Option<Weekly>, order: IterOrder)
    | RecordTokens(id: string)
    | Remap(live: set<Text>)
    | Sweep

  function Begun(s: Session, client: Option<Text>, now: int): Session {
    s.(inFlight := s.inFlight + 1, lastSeen := now, client := client.Or(s.client))
  }

  function Ended(s: Session, now: int): Session {
    s.(inFlight := if s.inFlight > 0 then s.inFlight - 1 else 0, lastSeen := now)
  }

  function Touched(s: Session, account: Option<Text>, bucket: Option<Weekly>, now: int): Session {
    s.(lastSeen := now,
       count := s.count + 1,
       pins := if account.Some? && bucket.Some? then s.pins[bucket.value := account.value] else s.pins)
  }

  /** A usage report shows the session alive; the totals it adds to decide nothing and are no part of the model. */
  function SeenAt(s: Session, now: int): Session {
    s.(lastSeen := now)
  }

  function Remapped(sessions: map<string, Session>, live: set<Text>): map<string, Session> {
    map k | k in sessions ::
      sessions[k].(pins := map w | w in sessions[k].pins && sessions[k].pins[w] in live :: sessions[k].pins[w])
  }

  /** What one call does to the tracker. */
  ghost predicate Step(before: Tracker, after: Tracker, op: Op, now: int) {
    match op
    case Begin(id, client, order) =>
      (EnsureStep(before, after, id, now, order, false)
       || exists mid :: EnsureStep(before, mid, id, now, order, true) && id in mid.sessions
                        && after == mid.(sessions := mid.sessions[id := Begun(mid.sessions[id], client, now)]))
    case End(id) =>
      var mid := if id in before.sessions
                 then before.(sessions := before.sessions[id := Ended(before.sessions[id], now)]) else before;
      after == if now - before.lastSweep > SWEEP_INTERVAL_MS then Swept(mid, now) else mid
    case Touch(id, account, bucket, order) =>
      (EnsureStep(before, after, id, now, order, false)
       || exists mid :: EnsureStep(before, mid, id, now, order, true) && id in mid.sessions
                        && after
                           == mid.(sessions := mid.sessions[id := Touched(mid.sessions[id], account, bucket, now)]))
    case RecordTokens(id) =>
      after == if id in before.sessions
               then before.(sessions := before.sessions[id := SeenAt(before.sessions[id], now)]) else before
    case Remap(live) => after == before.(sessions := Remapped(before.sessions, live))
    case Sweep => after == Swept(before, now)
  }

  class SessionTracker {
    var sessions: map<string, Session>
    var lastSweep: int

    ghost function State(): Tracker
      reads this
    {
      Tracker(sessions, lastSweep)
    }

    ghost predicate Valid()
      reads this
    {
      |sessions| <= MAX_SESSIONS
    }

    constructor ()
      ensures Valid() && State() == Tracker(map[], 0)
    {
      sessions, lastSweep := map[], 0;
    }

    method SweepNow(now: int)
      requires Valid()
      modifies this
      ensures Valid() && Step(old(State()), State(), Sweep, now)
    {
      ghost var was := State();
      sessions := map k | k in sessions && IsKnown(sessions[k], now) :: sessions[k];
      lastSweep := now;
      KeepsNoMore(was.sessions, sessions);
    }

    /** The idle session last seen longest ago, if any is idle. */
    method FindLongestIdle() returns (found: Option<string>)
      ensures found.None? <==> AllBusy(sessions)
      ensures found.Some? ==> LongestIdle(sessions, found.value)
    {
      found := None;
      var rest := sessions.Keys;
      while rest != {}
        invariant rest <= sessions.Keys
        invariant found.None? ==> forall k <- sessions.Keys - rest :: sessions[k].inFlight > 0
        invariant found.Some? ==> found.value in sessions && sessions[found.value].inFlight == 0
        invariant found.Some? ==> forall k <- sessions.Keys - rest ::
                      sessions[k].inFlight == 0 ==> sessions[found.value].lastSeen <= sessions[k].lastSeen
        decreases |rest|
      {
        var k :| k in rest;
        if sessions[k].inFlight == 0 && (found.None? || sessions[k].lastSeen < sessions[found.value].lastSeen) {
          found := Some(k);
        }
        rest := rest - {k};
      }
    }

    method Ensure(id: string, now: int, order: IterOrder) returns (ok: bool)
      requires Valid()
      modifies this
      ensures Valid() && EnsureStep(old(State()), State(), id, now, order, ok)
      ensures ok ==> id in sessions
    {
      if !ValidSessionId(id) {
        return false;
      }
      if id !in sessions {
        if |sessions| >= MAX_SESSIONS {
          SweepNow(now);
          if |sessions| >= MAX_SESSIONS {
            var k := FindLongestIdle();
            if k.None? {
              return false;
            }
            OneLess(sessions, k.value);
            sessions := sessions - {k.value};
          }
        }
        AtMostOneMore(sessions, id, NewSession(now, order));
        sessions := sessions[id := NewSession(now, order)];
      }
      return true;
    }

    method BeginRequest(id: string, client: Option<Text>, now: int, order: IterOrder)
      requires Valid()
      modifies this
      ensures Valid() && Step(old(State()), State(), Begin(id, client, order), now)
    {
      var ok := Ensure(id, now, order);
      ghost var mid := State();
      if ok {
        sessions := sessions[id := Begun(sessions[id], client, now)];
        assert sessions.Keys == mid.sessions.Keys;
      }
    }

    method EndRequest(id: string, now: int)
      requires Valid()
      modifies this
      ensures Valid() && Step(old(State()), State(), End(id), now)
    {
      ghost var was := sessions;
      if id in sessions {
        sessions := sessions[id := Ended(sessions[id], now)];
        assert sessions.Keys == was.Keys;
      }
      if now - lastSweep > SWEEP_INTERVAL_MS {
        SweepNow(now);
      }
    }

    method TouchSession(id: string, account: Option<Text>, bucket: Option<Weekly>, now: int, order: IterOrder)
      requires Valid()
      modifies this
      ensures Valid() && Step(old(State()), State(), Touch(id, account, bucket, order), now)
    {
      var ok := Ensure(id, now, order);
      ghost var mid := State();
      if ok {
        sessions := sessions[id := Touched(sessions[id], account, bucket, now)];
        assert sessions.Keys == mid.sessions.Keys;
      }
    }

    method RecordTokens(id: string, now: int)
      requires Valid()
      modifies this
      ensures Valid() && Step(old(State()), State(), Op.RecordTokens(id), now)
    {
      if id in sessions {
        ghost var was := sessions;
        sessions := sessions[id := SeenAt(sessions[id], now)];
        assert sessions.Keys == was.Keys;
      }
    }

    method RemapAccounts(live: set<Text>)
      requires Valid()
      modifies this
      ensures Valid() && forall now :: Step(old(State()), State(), Remap(live), now)
    {
      ghost var was := sessions;
      sessions := Remapped(sessions, live);
      assert sessions.Keys == was.Keys;
    }
  }

  lemma {:induction false} OneLess(sessions: map<string, Session>, k: string)
    requires k in sessions
    ensures |sessions - {k}| == |sessions| - 1
  {
    assert (sessions - {k}).Keys == sessions.Keys - {k};
  }

  lemma {:induction false} AtMostOneMore(sessions: map<string, Session>, id: string, s: Session)
    ensures |sessions[id := s]| <= |sessions| + 1
    ensures id in sessions ==> |sessions[id := s]| == |sessions|
  {
    assert sessions[id := s].Keys == sessions.Keys + {id};
    if id in sessions {
      assert sessions.Keys + {id} == sessions.Keys;
    }
  }

  lemma {:induction false} KeepsNoMore(before: map<string, Session>, after: map<string, Session>)
    requires after.Keys <= before.Keys
    ensures |after| <= |before|
  {
    Smaller(after.Keys, before.Keys);
  }

  lemma {:induction false} Smaller(a: set<string>, b: set<string>)
    requires a <= b
    ensures |a| <= |b|
  {
    assert b == a + (b - a);
  }

  // ── Whole runs ───────────────────────────────────────────

  /** One call of a run: what was called and when. */
  datatype Call = Call(op: Op, now: int)

  /** `states` is a run of the tracker through `calls`. */
  ghost predicate IsRun(states: seq<Tracker>, calls: seq<Call>) {
    && |states| == |calls| + 1
    && forall i :: 0 <= i < |calls| ==> Step(states[i], states[i + 1], calls[i].op, calls[i].now)
  }

  /** In every run from a map within the cap, the map stays within the cap. */
  lemma {:induction false} CapHolds(states: seq<Tracker>, calls: seq<Call>)
    requires IsRun(states, calls) && |states[0].sessions| <= MAX_SESSIONS
    ensures |states[|calls|].sessions| <= MAX_SESSIONS
    decreases |calls|
  {
    if calls != [] {
      var n := |calls| - 1;
      CapHolds(states[..n + 1], calls[..n]);
      CapStep(states[n], states[n + 1], calls[n].op, calls[n].now);
    }
  }

  lemma {:induction false} PuttingKeepsSize(sessions: map<string, Session>, id: string, s: Session)
    requires id in sessions
    ensures |sessions[id := s]| == |sessions|
  {
    assert sessions[id := s].Keys == sessions.Keys;
  }

  lemma {:induction false} CapStep(before: Tracker, after: Tracker, op: Op, now: int)
    requires Step(before, after, op, now) && |before.sessions| <= MAX_SESSIONS
    ensures |after.sessions| <= MAX_SESSIONS
  {
    KeepsNoMore(before.sessions, Swept(before, now).sessions);
    match op
    case Begin(id, client, order) =>
      if mid :| EnsureStep(before, mid, id, now, order, true) && id in mid.sessions
                && after == mid.(sessions := mid.sessions[id := Begun(mid.sessions[id], client, now)]) {
        EnsureCap(before, mid, id, now, order);
        PuttingKeepsSize(mid.sessions, id, after.sessions[id]);
      }
    case Touch(id, account, bucket, order) =>
      if mid :| EnsureStep(before, mid, id, now, order, true) && id in mid.sessions
                && after == mid.(sessions := mid.sessions[id := Touched(mid.sessions[id], account, bucket, now)]) {
        EnsureCap(before, mid, id, now, order);
        PuttingKeepsSize(mid.sessions, id, after.sessions[id]);
      }
    case End(id) =>
      if id in before.sessions {
        var mid := before.(sessions := before.sessions[id := Ended(before.sessions[id], now)]);
        PuttingKeepsSize(before.sessions, id, mid.sessions[id]);
        KeepsNoMore(mid.sessions, Swept(mid, now).sessions);
      }
    case RecordTokens(id) =>
      if id in before.sessions {
        PuttingKeepsSize(before.sessions, id, after.sessions[id]);
      }
    case Remap(live) =>
      assert after.sessions.Keys == before.sessions.Keys;
    case Sweep =>
  }

  lemma {:induction false} EnsureCap(before: Tracker, mid: Tracker, id: string, now: int, order: IterOrder)
    requires EnsureStep(before, mid, id, now, order, true) && |before.sessions| <= MAX_SESSIONS
    ensures |mid.sessions| <= MAX_SESSIONS
  {
    KeepsNoMore(before.sessions, Swept(before, now).sessions);
    hide Swept, AllBusy;
    var newcomer := NewSession(now, order);
    var swept := Swept(before, now).sessions;
    if id !in before.sessions && |before.sessions| >= MAX_SESSIONS && |swept| >= MAX_SESSIONS {
      var k :| LongestIdle(swept, k) && mid.sessions == (swept - {k})[id := newcomer];
      OneLess(swept, k);
      AtMostOneMore(swept - {k}, id, newcomer);
    } else {
      AtMostOneMore(before.sessions, id, newcomer);
      AtMostOneMore(swept, id, newcomer);
    }
  }

  /** Requests of `id` still open after `calls`, when `open` were open before them. */
  function StillOpen(open: nat, calls: seq<Call>, id: string): nat
    decreases |calls|
  {
    if calls == [] then open
    else
      var before := StillOpen(open, calls[..|calls| - 1], id);
      match calls[|calls| - 1].op
      case Begin(i, _, _) => if i == id then before + 1 else before
      case End(i) => if i == id && before > 0 then before - 1 else before
      case _ => before
  }

  ghost predicate AlwaysOpen(open: nat, calls: seq<Call>, id: string) {
    forall n :: 0 <= n <= |calls| ==> StillOpen(open, calls[..n], id) > 0
  }

  /**
   A session with an unfinished request is never forgotten, by sweep or by
   eviction, and its count is exactly the requests begun and not yet ended.
   */
  lemma {:induction false} UnfinishedIsNeverForgotten(states: seq<Tracker>, calls: seq<Call>, id: string)
    requires IsRun(states, calls)
    requires id in states[0].sessions && ValidSessionId(id)
    requires AlwaysOpen(states[0].sessions[id].inFlight, calls, id)
    ensures id in states[|calls|].sessions
    ensures states[|calls|].sessions[id].inFlight == StillOpen(states[0].sessions[id].inFlight, calls, id)
    decreases |calls|
  {
    var open := states[0].sessions[id].inFlight;
    if calls != [] {
      var n := |calls| - 1;
      assert forall m :: 0 <= m <= n ==> calls[..n][..m] == calls[..m];
      UnfinishedIsNeverForgotten(states[..n + 1], calls[..n], id);
      assert StillOpen(open, calls[..n], id) > 0;
      assert calls[..|calls|] == calls;
      BusyStep(states[n], states[n + 1], calls[n].op, calls[n].now, id);
    }
  }

  lemma {:induction false} BusyStep(before: Tracker, after: Tracker, op: Op, now: int, id: string)
    requires Step(before, after, op, now) && ValidSessionId(id)
    requires id in before.sessions && before.sessions[id].inFlight > 0
    requires op.End? && op.id == id ==> before.sessions[id].inFlight > 1
    ensures id in after.sessions
    ensures after.sessions[id].inFlight
            == match op
               case Begin(i, _, _) => before.sessions[id].inFlight + (if i == id then 1 else 0)
               case End(i) => before.sessions[id].inFlight - (if i == id then 1 else 0)
               case _ => before.sessions[id].inFlight
  {
    match op
    case Begin(i, client, order) =>
      if EnsureStep(before, after, i, now, order, false) {
        BusyEnsure(before, after, i, now, order, false, id);
      } else {
        var mid :| EnsureStep(before, mid, i, now, order, true) && i in mid.sessions
                   && after == mid.(sessions := mid.sessions[i := Begun(mid.sessions[i], client, now)]);
        BusyEnsure(before, mid, i, now, order, true, id);
      }
    case Touch(i, account, bucket, order) =>
      if EnsureStep(before, after, i, now, order, false) {
        BusyEnsure(before, after, i, now, order, false, id);
      } else {
        var mid :| EnsureStep(before, mid, i, now, order, true) && i in mid.sessions
                   && after == mid.(sessions := mid.sessions[i := Touched(mid.sessions[i], account, bucket, now)]);
        BusyEnsure(before, mid, i, now, order, true, id);
      }
    case End(i) =>
    case RecordTokens(i) =>
    case Remap(live) =>
    case Sweep =>
  }

  /** Making room for one session leaves every busy session as it was, itself included. */
  lemma {:induction false} BusyEnsure(
    before: Tracker, after: Tracker, i: string, now: int, order: IterOrder, ok: bool, id: string)
    requires EnsureStep(before, after, i, now, order, ok)
    requires id in before.sessions && before.sessions[id].inFlight > 0
    ensures id in after.sessions && after.sessions[id] == before.sessions[id]
    ensures ValidSessionId(id) && i == id ==> ok
  {
  }
}
