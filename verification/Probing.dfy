/**
 The quota prober's booking table: when each account of a pool is next due, how
 a tick claims the overdue ones, and how a rate-limited run pushes a pool back.
 Times are nanoseconds.
 */
module Probing {
  import opened Options

  type Id = nat

  const SECOND: int := 1_000_000_000
  const MIN_INTERVAL: nat := 30
  const MAX_BACKOFF: int := 3600 * SECOND

  /** Whether a pool was on at its last tick, the back-off on it, and each account's next due time. */
  datatype Seen = Seen(on: bool, notBefore: Option<int>, due: map<Id, int>)

  const NEVER_SEEN: Seen := Seen(false, None, map[])

  datatype Claim = Claim(newlyOn: bool, picked: seq<Id>, next: Option<int>)

  function AtLeast(n: nat, floor: nat): nat { if n < floor then floor else n }

  /** A pool's probe interval, never below the floor. */
  function Interval(secs: nat): (d: int)
    ensures d >= 30 * SECOND
  {
    AtLeast(secs, MIN_INTERVAL) * SECOND
  }

  // ── One account's turn ───────────────────────────────────

  /** The booking to make for the `i`-th of `n` accounts, or `None` while its booking lies ahead. */
  function Booking(due: map<Id, int>, id: Id, i: nat, n: nat, newlyOn: bool, interval: int, now: int): Option<int>
    requires i < n
  {
    if id in due then
      if due[id] > now then None
      else if due[id] + interval > now then Some(due[id] + interval)
      else Some(now + interval)
    else if newlyOn then Some(now + interval + interval * i / n)
    else Some(now + interval)
  }

  /** Accounts `i` onwards claim their turns one after the other. */
  function Book(
    due: map<Id, int>, ids: seq<Id>, i: nat, newlyOn: bool, interval: int, now: int): (map<Id, int>, seq<Id>)
    requires i <= |ids|
    decreases |ids| - i
  {
    if i == |ids| then (due, [])
    else
      var b := Booking(due, ids[i], i, |ids|, newlyOn, interval, now);
      if b.None? then Book(due, ids, i + 1, newlyOn, interval, now)
      else
        var (later, picked) := Book(due[ids[i] := b.value], ids, i + 1, newlyOn, interval, now);
        (later, [ids[i]] + picked)
  }

  /** Bookings of accounts still in the pool whose credential no reload replaced. */
  function Retained(due: map<Id, int>, ids: seq<Id>, recheck: seq<Id>): map<Id, int> {
    map id | id in due && id in ids && id !in recheck :: due[id]
  }

  /** What a tick does to the pool's entry, and the accounts it picks; `None` while the pool backs off. */
  function Tick(s: Seen, secs: nat, ids: seq<Id>, recheck: seq<Id>, now: int): Option<(Seen, seq<Id>)> {
    if s.notBefore.Some? && now < s.notBefore.value then None
    else
      var (due, picked) := Book(Retained(s.due, ids, recheck), ids, 0, !s.on, Interval(secs), now);
      Some((Seen(true, s.notBefore, due), picked))
  }

  function Backoff(secs: nat): int {
    var wait := AtLeast(secs, MIN_INTERVAL) * 2 * SECOND;
    if wait < MAX_BACKOFF then wait else MAX_BACKOFF
  }

  ghost predicate IsEarliest(next: Option<int>, due: map<Id, int>) {
    match next
    case None => due == map[]
    case Some(t) => (exists id <- due :: due[id] == t) && forall id <- due :: t <= due[id]
  }

  class Prober {
    var seen: map<nat, Seen>

    constructor ()
      ensures seen == map[]
    {
      seen := map[];
    }

    function Entry(pool: nat): Seen
      reads this
    {
      if pool in seen then seen[pool] else NEVER_SEEN
    }

    /** The accounts of `pool` to probe now, with their next turns booked. */
    method ClaimDue(pool: nat, secs: nat, ids: seq<Id>, recheck: seq<Id>, now: int) returns (claim: Option<Claim>)
      modifies this
      ensures forall p :: p != pool ==> (p in seen <==> p in old(seen)) && (p in seen ==> seen[p] == old(seen)[p])
      ensures secs == 0 ==> claim.None? && pool !in seen
      ensures secs > 0 ==>
                pool in seen &&
                match Tick(old(Entry(pool)), secs, ids, recheck, now)
                case None => claim.None? && Entry(pool) == old(Entry(pool))
                case Some((after, picked)) =>
                  && Entry(pool) == after
                  && (claim.None? <==> picked == [] && old(Entry(pool)).on)
                  && (claim.Some? ==> claim.value.newlyOn == !old(Entry(pool)).on && claim.value.picked == picked
                                      && IsEarliest(claim.value.next, after.due))
    {
      if secs == 0 {
        seen := seen - {pool};
        return None;
      }
      var entry := Entry(pool);
      seen := seen[pool := entry];
      if entry.notBefore.Some? && now < entry.notBefore.value {
        return None;
      }
      var interval := Interval(secs);
      var newlyOn := !entry.on;
      var due := Retained(entry.due, ids, recheck);
      var picked := [];
      ghost var start := due;
      for i := 0 to |ids|
        invariant Book(start, ids, 0, newlyOn, interval, now).0 == Book(due, ids, i, newlyOn, interval, now).0
        invariant Book(start, ids, 0, newlyOn, interval, now).1 == picked + Book(due, ids, i, newlyOn, interval, now).1
      {
        var id := ids[i];
        if id in due && due[id] > now {
          continue;
        }
        var next;
        if id in due && due[id] + interval > now {
          next := due[id] + interval;
        } else if id in due {
          next := now + interval;
        } else if newlyOn {
          next := now + interval + interval * i / |ids|;
        } else {
          next := now + interval;
        }
        assert Booking(due, id, i, |ids|, newlyOn, interval, now) == Some(next);
        ghost var rest := Book(due[id := next], ids, i + 1, newlyOn, interval, now).1;
        assert picked + ([id] + rest) == picked + [id] + rest;
        due := due[id := next];
        picked := picked + [id];
      }
      seen := seen[pool := Seen(true, entry.notBefore, due)];
      if picked == [] && !newlyOn {
        return None;
      }
      var next := Earliest(due);
      return Some(Claim(newlyOn, picked, next));
    }

    /** After a rate-limited run: hold the pool off for twice its interval, an hour at the most. */
    method BackOff(pool: nat, secs: nat, now: int) returns (until: int)
      modifies this
      ensures until == now + Backoff(secs)
      ensures seen == old(seen)[pool := old(Entry(pool)).(notBefore := Some(until))]
    {
      var wait := AtLeast(secs, MIN_INTERVAL) * 2 * SECOND;
      if wait > MAX_BACKOFF {
        wait := MAX_BACKOFF;
      }
      until := now + wait;
      seen := seen[pool := Entry(pool).(notBefore := Some(until))];
    }
  }

  /** The earliest booked time. */
  method Earliest(due: map<Id, int>) returns (next: Option<int>)
    ensures IsEarliest(next, due)
  {
    next := None;
    var rest := due.Keys;
    while rest != {}
      invariant rest <= due.Keys
      invariant next.None? <==> rest == due.Keys
      invariant next.Some? ==> exists id <- due :: due[id] == next.value
      invariant next.Some? ==> forall id <- due.Keys - rest :: next.value <= due[id]
      decreases |rest|
    {
      var id :| id in rest;
      if next.None? || due[id] < next.value {
        next := Some(due[id]);
      }
      rest := rest - {id};
    }
  }

  // ── After a tick ─────────────────────────────────────────

  /** What a booking pass does: everyone listed is booked ahead, only the due were touched, and each once. */
  lemma {:induction false} BookIsExact(due: map<Id, int>, ids: seq<Id>, i: nat, newlyOn: bool, interval: int, now: int)
    requires i <= |ids| && interval > 0
    ensures var (later, picked) := Book(due, ids, i, newlyOn, interval, now);
            && later.Keys == due.Keys + (set id | id in ids[i..])
            && (forall id <- ids[i..] :: later[id] > now)
            && (forall id <- due :: id !in picked ==> later[id] == due[id])
            && (forall id :: id in picked <==> id in ids[i..] && (id in due ==> due[id] <= now))
            && (forall j, k :: 0 <= j < k < |picked| ==> picked[j] != picked[k])
    decreases |ids| - i
  {
    if i < |ids| {
      hide Booking;
      assert ids[i..] == [ids[i]] + ids[i + 1..];
      var b := Booking(due, ids[i], i, |ids|, newlyOn, interval, now);
      BookingIsAhead(due, ids[i], i, |ids|, newlyOn, interval, now);
      if b.None? {
        BookIsExact(due, ids, i + 1, newlyOn, interval, now);
      } else {
        BookIsExact(due[ids[i] := b.value], ids, i + 1, newlyOn, interval, now);
      }
      return;
    }
  }

  /** An account is given a new turn, strictly ahead, exactly when it has none ahead already. */
  lemma {:induction false} BookingIsAhead(
    due: map<Id, int>, id: Id, i: nat, n: nat, newlyOn: bool, interval: int, now: int)
    requires i < n && interval > 0
    ensures var b := Booking(due, id, i, n, newlyOn, interval, now);
            && (b.Some? <==> (id in due ==> due[id] <= now))
            && (b.Some? ==> b.value > now)
  {
    SpreadIsForward(interval, i, n);
  }

  lemma {:induction false} SpreadIsForward(interval: int, i: nat, n: nat)
    requires interval > 0 && i < n
    ensures 0 <= interval * i / n < interval
  {
    assert 0 <= interval * i < interval * n;
    DivideBelow(interval * i, interval, n);
  }

  lemma {:induction false} Times(a: int, b: int, n: nat)
    ensures a <= b ==> a * n <= b * n
  {
  }

  lemma {:induction false} DivideBelow(x: int, y: int, n: nat)
    requires n > 0 && 0 <= x < y * n
    ensures 0 <= x / n < y
  {
    var q := x / n;
    assert x == q * n + x % n;
    Times(y, q, n);
  }

  /**
   After every claim that is not held off, exactly the pool's accounts are booked, all
   strictly ahead; exactly the overdue, unbooked and re-checked ones were picked, once each;
   and nobody else's booking moved.
   */
  lemma {:induction false} ClaimIsExact(s: Seen, secs: nat, ids: seq<Id>, recheck: seq<Id>, now: int)
    requires Tick(s, secs, ids, recheck, now).Some?
    ensures var (t, picked) := Tick(s, secs, ids, recheck, now).value;
            && t.due.Keys == (set id | id in ids)
            && (forall id <- t.due :: t.due[id] > now)
            && (forall id :: id in picked <==> id in ids && (id !in s.due || id in recheck || s.due[id] <= now))
            && (forall j, k :: 0 <= j < k < |picked| ==> picked[j] != picked[k])
            && (forall id <- t.due :: id !in picked ==> t.due[id] == s.due[id])
  {
    var kept := Retained(s.due, ids, recheck);
    BookIsExact(kept, ids, 0, !s.on, Interval(secs), now);
    assert ids[0..] == ids;
  }

  // ── Rate of picks over whole runs ────────────────────────

  /** One thing that happens to a pool that stays on at one interval. */
  datatype Event =
    | Claimed(ids: seq<Id>, recheck: seq<Id>, now: int)
    | RateLimited(now: int)

  function After(s: Seen, secs: nat, run: seq<Event>): Seen
    decreases |run|
  {
    if run == [] then s
    else
      var before := After(s, secs, run[..|run| - 1]);
      match run[|run| - 1]
      case Claimed(ids, recheck, now) =>
        var t := Tick(before, secs, ids, recheck, now);
        if t.Some? then t.value.0 else before
      case RateLimited(now) => before.(notBefore := Some(now + Backoff(secs)))
  }

  /** The times the account was picked, in order. */
  function Picks(s: Seen, secs: nat, run: seq<Event>, id: Id): seq<int>
    decreases |run|
  {
    if run == [] then []
    else
      var earlier := Picks(s, secs, run[..|run| - 1], id);
      match run[|run| - 1]
      case Claimed(ids, recheck, now) =>
        var t := Tick(After(s, secs, run[..|run| - 1]), secs, ids, recheck, now);
        if t.Some? && id in t.value.1 then earlier + [now] else earlier
      case RateLimited(_) => earlier
  }

  /** The account is in the pool at every tick and no reload replaces its credential. */
  ghost predicate Stays(run: seq<Event>, id: Id)
    decreases |run|
  {
    run == [] ||
    (var e := run[|run| - 1];
     Stays(run[..|run| - 1], id) && (e.Claimed? ==> id in e.ids && id !in e.recheck))
  }

  lemma {:induction false} Unfold(s: Seen, secs: nat, ids: seq<Id>, recheck: seq<Id>, now: int, id: Id)
    requires Tick(s, secs, ids, recheck, now).Some? && id in ids && id !in recheck
    ensures var (t, picked) := Tick(s, secs, ids, recheck, now).value;
            && id in t.due
            && (if id in picked then
                  && (id in s.due ==> s.due[id] <= now && t.due[id] >= s.due[id] + Interval(secs))
                  && t.due[id] > now && (id !in s.due ==> t.due[id] >= now + Interval(secs))
                else id in s.due && t.due[id] == s.due[id])
  {
    ClaimIsExact(s, secs, ids, recheck, now);
    BookedLater(Retained(s.due, ids, recheck), ids, 0, !s.on, Interval(secs), now, id);
    assert ids[0..] == ids;
  }

  /** A new booking is at least an interval past the old one, or past now when there was none. */
  lemma {:induction false} BookedLater(
    due: map<Id, int>, ids: seq<Id>, i: nat, newlyOn: bool, interval: int, now: int, id: Id)
    requires i <= |ids| && interval > 0
    ensures var (later, picked) := Book(due, ids, i, newlyOn, interval, now);
            id in picked ==>
              id in later && (if id in due then later[id] >= due[id] + interval else later[id] >= now + interval)
    decreases |ids| - i
  {
    BookIsExact(due, ids, i, newlyOn, interval, now);
    if i < |ids| {
      var b := Booking(due, ids[i], i, |ids|, newlyOn, interval, now);
      if b.None? {
        BookedLater(due, ids, i + 1, newlyOn, interval, now, id);
      } else {
        SpreadIsForward(interval, i, |ids|);
        BookedLater(due[ids[i] := b.value], ids, i + 1, newlyOn, interval, now, id);
        BookIsExact(due[ids[i] := b.value], ids, i + 1, newlyOn, interval, now);
      }
    }
  }

  lemma {:induction false} OneMoreInterval(k: nat, interval: int)
    ensures (k + 1) * interval == k * interval + interval
  {
  }

  /**
   However late the ticks and whatever the back-off, an account's k-th pick (counting
   from 0) comes no earlier than k intervals after its first.
   */
  lemma {:induction false} PickRateIsBounded(s: Seen, secs: nat, run: seq<Event>, id: Id)
    requires id !in s.due && Stays(run, id)
    ensures var picks := Picks(s, secs, run, id);
            && (forall k :: 0 <= k < |picks| ==> picks[k] >= picks[0] + k * Interval(secs))
            && (picks == [] <==> id !in After(s, secs, run).due)
            && (picks != [] ==> After(s, secs, run).due[id] >= picks[0] + |picks| * Interval(secs))
    decreases |run|
  {
    if run != [] {
      var n := |run| - 1;
      PickRateIsBounded(s, secs, run[..n], id);
      var before := After(s, secs, run[..n]);
      var picks := Picks(s, secs, run[..n], id);
      match run[n]
      case RateLimited(_) =>
      case Claimed(ids, recheck, now) =>
        if Tick(before, secs, ids, recheck, now).Some? {
          Unfold(before, secs, ids, recheck, now, id);
          OneMoreInterval(|picks|, Interval(secs));
        }
    }
  }

  // ── Phases over whole runs ───────────────────────────────

  ghost predicate Distinct(ids: seq<Id>) {
    forall i, j :: 0 <= i < j < |ids| ==> ids[i] != ids[j]
  }

  /** The phase of the `i`-th account: its share of the interval after the pool came on. */
  function Phase(t0: int, interval: int, i: nat, n: nat): int
    requires i < n
  {
    t0 + interval * i / n
  }

  /**
   `t` is the account's next turn: the first time after `now` that lies a whole
   number of intervals, at least one, past its phase.
   */
  ghost predicate IsNextTurn(t: int, phase: int, interval: int, now: int) {
    now < t && exists k: nat :: k >= 1 && t == phase + k * interval && (k == 1 || t - interval <= now)
  }

  /** Everyone in the pool, and nobody else, is booked on the next turn of their own phase. */
  ghost predicate InPhase(s: Seen, ids: seq<Id>, t0: int, interval: int, now: int) {
    && s.on && s.notBefore.None? && s.due.Keys == (set id | id in ids)
    && forall i :: 0 <= i < |ids| ==> IsNextTurn(s.due[ids[i]], Phase(t0, interval, i, |ids|), interval, now)
  }

  function Ticks(s: Seen, secs: nat, ids: seq<Id>, times: seq<int>): Seen
    decreases |times|
  {
    if times == [] then s
    else
      var before := Ticks(s, secs, ids, times[..|times| - 1]);
      var t := Tick(before, secs, ids, [], times[|times| - 1]);
      if t.Some? then t.value.0 else before
  }

  /** Ticks move forward by less than an interval. */
  ghost predicate Steady(times: seq<int>, interval: int) {
    forall i :: 0 < i < |times| ==> times[i - 1] <= times[i] < times[i - 1] + interval
  }

  /** With distinct accounts, a booking pass gives each position its own booking and touches no other. */
  lemma {:induction false} EachBooksItself(
    due: map<Id, int>, ids: seq<Id>, i: nat, newlyOn: bool, interval: int, now: int, j: nat)
    requires i <= |ids| && j < |ids| && Distinct(ids) && interval > 0
    ensures var (later, picked) := Book(due, ids, i, newlyOn, interval, now);
            var b := Booking(due, ids[j], j, |ids|, newlyOn, interval, now);
            && (j < i && ids[j] in due ==> ids[j] in later && later[ids[j]] == due[ids[j]])
            && (j >= i ==> ids[j] in later && later[ids[j]] == if b.Some? then b.value else due[ids[j]])
    decreases |ids| - i
  {
    if i < |ids| {
      var b := Booking(due, ids[i], i, |ids|, newlyOn, interval, now);
      if b.None? {
        EachBooksItself(due, ids, i + 1, newlyOn, interval, now, j);
      } else {
        EachBooksItself(due[ids[i] := b.value], ids, i + 1, newlyOn, interval, now, j);
      }
    }
  }

  /** The first tick spreads the second round over the interval. */
  lemma {:induction false} FirstTickSpreads(secs: nat, ids: seq<Id>, t0: int)
    requires Distinct(ids)
    ensures Tick(NEVER_SEEN, secs, ids, [], t0).Some?
    ensures InPhase(Tick(NEVER_SEEN, secs, ids, [], t0).value.0, ids, t0, Interval(secs), t0)
  {
    var interval := Interval(secs);
    var t := Tick(NEVER_SEEN, secs, ids, [], t0).value.0;
    ClaimIsExact(NEVER_SEEN, secs, ids, [], t0);
    forall i | 0 <= i < |ids|
      ensures IsNextTurn(t.due[ids[i]], Phase(t0, interval, i, |ids|), interval, t0)
    {
      EachBooksItself(Retained(map[], ids, []), ids, 0, true, interval, t0, i);
      assert t.due[ids[i]] == Phase(t0, interval, i, |ids|) + 1 * interval;
      assert ids[i] in t.due;
    }
  }

  /** A tick less than an interval after the last keeps every phase. */
  lemma {:induction false} TickKeepsPhase(s: Seen, secs: nat, ids: seq<Id>, t0: int, last: int, now: int)
    requires Distinct(ids) && InPhase(s, ids, t0, Interval(secs), last)
    requires last <= now < last + Interval(secs)
    ensures Tick(s, secs, ids, [], now).Some?
    ensures InPhase(Tick(s, secs, ids, [], now).value.0, ids, t0, Interval(secs), now)
  {
    var interval := Interval(secs);
    var t := Tick(s, secs, ids, [], now).value.0;
    ClaimIsExact(s, secs, ids, [], now);
    forall i | 0 <= i < |ids|
      ensures IsNextTurn(t.due[ids[i]], Phase(t0, interval, i, |ids|), interval, now)
    {
      assert ids[i] in s.due && ids[i] in t.due;
      EachBooksItself(Retained(s.due, ids, []), ids, 0, false, interval, now, i);
      var phase := Phase(t0, interval, i, |ids|);
      var k: nat :| k >= 1 && s.due[ids[i]] == phase + k * interval && (k == 1 || s.due[ids[i]] - interval <= last);
      if s.due[ids[i]] <= now {
        assert t.due[ids[i]] == s.due[ids[i]] + interval == phase + (k + 1) * interval;
      } else {
        assert t.due[ids[i]] == phase + k * interval;
      }
    }
  }

  /**
   A pool with a fixed account list, ticked less than an interval apart, keeps its
   spread for good: the i-th of n accounts is always booked on the first turn to come
   of its own phase, i/n of an interval after the pool came on.
   */
  lemma {:induction false} PhasesAreKept(secs: nat, ids: seq<Id>, times: seq<int>)
    requires Distinct(ids) && times != [] && Steady(times, Interval(secs))
    ensures InPhase(Ticks(NEVER_SEEN, secs, ids, times), ids, times[0], Interval(secs), times[|times| - 1])
    decreases |times|
  {
    if |times| == 1 {
      assert times[..0] == [];
      FirstTickSpreads(secs, ids, times[0]);
    } else {
      var n := |times| - 1;
      PhasesAreKept(secs, ids, times[..n]);
      TickKeepsPhase(Ticks(NEVER_SEEN, secs, ids, times[..n]), secs, ids, times[0], times[n - 1], times[n]);
    }
  }

  /**
   A due account keeps its phase exactly when its booking has not slipped a whole
   interval; otherwise it restarts from now.
   */
  lemma {:induction false} SlippedRestarts(s: Seen, secs: nat, ids: seq<Id>, i: nat, now: int)
    requires Distinct(ids) && i < |ids| && ids[i] in s.due && s.due[ids[i]] <= now
    requires Tick(s, secs, ids, [], now).Some?
    ensures var t := Tick(s, secs, ids, [], now).value.0;
            && ids[i] in t.due
            && (t.due[ids[i]] == s.due[ids[i]] + Interval(secs) <==> now < s.due[ids[i]] + Interval(secs))
            && (now >= s.due[ids[i]] + Interval(secs) ==> t.due[ids[i]] == now + Interval(secs))
  {
    EachBooksItself(Retained(s.due, ids, []), ids, 0, !s.on, Interval(secs), now, i);
  }
}
