/**
 Who comes first in each ranking mode, said without the sort: nobody in the pool
 is preferred to the head, by the preference that mode stands for.
 */
module RankingTheorems {
  import opened Options
  import opened Quotas
  import opened Accounts
  import opened StableSort
  import opened Ranking
  import opened Witnesses

  /** Keys compare at their first place, then at the rest. */
  lemma {:induction false} BeforeFrom(x: Key, y: Key, i: nat)
    requires i < |x| == |y|
    ensures Before(x[i..], y[i..]) <==> x[i] < y[i] || (x[i] == y[i] && Before(x[i + 1..], y[i + 1..]))
  {
    assert x[i..][1..] == x[i + 1..] && y[i..][1..] == y[i + 1..];
  }

  // ── Load ─────────────────────────────────────────────────

  /** A lighter load: fewer active sessions, then fewer unfinished requests. */
  predicate Lighter(c: Candidate, d: Candidate) {
    c.active < d.active || (c.active == d.active && c.inFlight < d.inFlight)
  }

  predicate SameLoad(c: Candidate, d: Candidate) {
    c.active == d.active && c.inFlight == d.inFlight
  }

  /** A better tier, then a lighter load, then a sooner weekly reset. */
  predicate PreferredByDefault(c: Candidate, d: Candidate, model: Option<string>) {
    c.a.priority < d.a.priority
    || (c.a.priority == d.a.priority
        && (Lighter(c, d)
            || (SameLoad(c, d)
                && WeeklyResetFor(c.a, model).GetOr(I64_MAX) < WeeklyResetFor(d.a, model).GetOr(I64_MAX))))
  }

  lemma {:induction false} DefaultKeyPrefers(c: Candidate, d: Candidate, model: Option<string>)
    ensures Before(DefaultKey(c, model), DefaultKey(d, model)) <==> PreferredByDefault(c, d, model)
  {
    var x, y := DefaultKey(c, model), DefaultKey(d, model);
    assert x[0..] == x && y[0..] == y;
    BeforeFrom(x, y, 0);
    BeforeFrom(x, y, 1);
    BeforeFrom(x, y, 2);
    BeforeFrom(x, y, 3);
  }

  /** By default the least loaded account of the best tier comes first, the soonest weekly reset among equals. */
  lemma {:induction false} LeastLoadedLeads(cfg: Settings, cs: seq<Candidate>, model: Option<string>, now: int)
    requires cs != [] && !cfg.expiry.enabled && !cfg.soonestReset
    ensures var r := Ranked(cfg, cs, model, now);
            r != [] && r[0] in cs && forall c <- cs :: !PreferredByDefault(c, r[0], model)
  {
    var es := ByDefault(cs, model);
    var h := SortedHead(cs, es, 4);
    forall c <- cs
      ensures !PreferredByDefault(c, cs[h], model)
    {
      var i :| 0 <= i < |cs| && cs[i] == c;
      assert !Before(es[i].key, es[h].key);
      DefaultKeyPrefers(c, cs[h], model);
    }
  }

  // ── Pressure ─────────────────────────────────────────────

  /** A better tier, then never measured, then more pressure. */
  predicate PreferredByPressure(cfg: Settings, c: Candidate, d: Candidate, model: Option<string>, now: int) {
    var p, q := Pressure(cfg, c.a, model, now).0, Pressure(cfg, d.a, model, now).0;
    c.a.priority < d.a.priority
    || (c.a.priority == d.a.priority && q.Some? && (p.None? || p.value > q.value))
  }

  lemma {:induction false} PressureKeyPrefers(
    cfg: Settings, c: Candidate, d: Candidate, model: Option<string>, now: int)
    ensures Before(PressureKey(cfg, c, model, now), PressureKey(cfg, d, model, now))
            <==> PreferredByPressure(cfg, c, d, model, now)
  {
    var x, y := PressureKey(cfg, c, model, now), PressureKey(cfg, d, model, now);
    assert x[0..] == x && y[0..] == y;
    BeforeFrom(x, y, 0);
    BeforeFrom(x, y, 1);
    BeforeFrom(x, y, 2);
  }

  /**
   With expiry routing on and the best tier measured, what spoils first comes
   first: an account of the tier never read at all, and failing that one with
   the most pressure of the whole tier, left out of the band or not.
   */
  lemma {:induction false} MostPressureLeads(cfg: Settings, cs: seq<Candidate>, model: Option<string>, now: int)
    requires cs != [] && cfg.expiry.enabled && !cfg.soonestReset
    ensures var r := Ranked(cfg, cs, model, now);
            PeakPressure(cfg, cs, TopPriority(cs), model, now).Some? ==>
              r != [] && r[0] in cs && forall c <- cs :: !PreferredByPressure(cfg, c, r[0], model, now)
  {
    if |cs| == 1 {
      assert cs[0] in cs && forall c <- cs :: c == cs[0];
    } else if PeakPressure(cfg, cs, TopPriority(cs), model, now).Some? {
      PressureLeadsBand(cfg, cs, model, now);
    }
  }

  lemma {:induction false} PressureLeadsBand(cfg: Settings, cs: seq<Candidate>, model: Option<string>, now: int)
    requires |cs| > 1 && PeakPressure(cfg, cs, TopPriority(cs), model, now).Some?
    ensures var r := Band(cfg, cs, model, now);
            r != [] && r[0] in cs && forall c <- cs :: !PreferredByPressure(cfg, c, r[0], model, now)
  {
    var tier := TopPriority(cs);
    var peak := PeakPressure(cfg, cs, tier, model, now);
    var ratio := if cfg.expiry.tolerance > 0.0 then cfg.expiry.tolerance else 1.0;
    var floor := if peak.value / ratio < peak.value then peak.value / ratio else peak.value;
    var kept := InBand(cfg, cs, tier, floor, model, now);
    PeakStaysInBand(cfg, cs, floor, model, now);
    var h := PressureLeadsKept(cfg, kept, model, now);
    assert Band(cfg, cs, model, now) == Items(Sort(ByPressure(cfg, kept, model, now)));
    BandLosesOnlyLess(cfg, cs, tier, floor, kept[h], model, now);
  }

  lemma {:induction false} PressureLeadsKept(cfg: Settings, kept: seq<Candidate>, model: Option<string>, now: int)
    returns (h: nat)
    requires kept != []
    ensures h < |kept| && Items(Sort(ByPressure(cfg, kept, model, now)))[0] == kept[h]
    ensures forall c <- kept :: !PreferredByPressure(cfg, c, kept[h], model, now)
  {
    var es := ByPressure(cfg, kept, model, now);
    h := SortedHead(kept, es, 3);
    forall c <- kept
      ensures !PreferredByPressure(cfg, c, kept[h], model, now)
    {
      var i :| 0 <= i < |kept| && kept[i] == c;
      assert !Before(es[i].key, es[h].key);
      PressureKeyPrefers(cfg, c, kept[h], model, now);
    }
  }

  /** Whoever the band drops has less pressure than the head of what it keeps. */
  lemma {:induction false} BandLosesOnlyLess(
    cfg: Settings, cs: seq<Candidate>, tier: int, floor: real, head: Candidate, model: Option<string>, now: int)
    requires cs != [] && tier == TopPriority(cs)
    requires var kept := InBand(cfg, cs, tier, floor, model, now);
             && head in kept && (forall c <- kept :: !PreferredByPressure(cfg, c, head, model, now))
             && KeepsTop(kept, cs)
    ensures forall c <- cs :: !PreferredByPressure(cfg, c, head, model, now)
  {
    var kept := InBand(cfg, cs, tier, floor, model, now);
    var best :| best in kept && best.a.priority == tier;
    assert !PreferredByPressure(cfg, best, head, model, now) && head.a.priority == tier;
  }

  /** The share of the week an account has left to spend in the bucket that governs the model. */
  function Headroom(b: Bucket): real
    requires b.utilization.Some?
  {
    1.0 - Clamp01(b.utilization.value)
  }

  lemma {:induction false} SharesCompare(x: real, s: real, y: real, t: real)
    requires s > 0.0 && t > 0.0
    ensures x / s > y / t <==> x * t > y * s
  {
    var p, q := x / s, y / t;
    assert x * t == p * (s * t) && y * s == q * (s * t);
    ProductsCompare(p, q, s * t);
  }

  lemma {:induction false} ProductsCompare(p: real, q: real, k: real)
    requires k > 0.0
    ensures p > q <==> p * k > q * k
  {
    assert (p - q) * k == p * k - q * k;
  }

  /**
   An account whose reset is unknown is ranked as if it were a week out. It
   outranks a measured one whose reset is still to come exactly when its headroom
   times the seconds the other has left exceeds the other's headroom times the
   seconds of a week.
   */
  lemma {:induction false} UnknownResetWinsExactly(
    cfg: Settings, known: Facts, unknown: Facts, model: Option<string>, now: int)
    requires var b := known.quota.WeeklyBucket(WeeklyKeyFor(cfg, model));
             b.utilization.Some? && b.resetAt.Some? && b.resetAt.value > now
    requires var c := unknown.quota.WeeklyBucket(WeeklyKeyFor(cfg, model));
             c.utilization.Some? && c.resetAt.None?
    ensures var b := known.quota.WeeklyBucket(WeeklyKeyFor(cfg, model));
            var c := unknown.quota.WeeklyBucket(WeeklyKeyFor(cfg, model));
            && Measured(cfg, known, model, now) && !Measured(cfg, unknown, model, now)
            && (Pressure(cfg, unknown, model, now).0.value > Pressure(cfg, known, model, now).0.value
                <==> Headroom(c) * ((b.resetAt.value - now) as real / 1000.0) > Headroom(b) * 604800.0)
  {
    var b := known.quota.WeeklyBucket(WeeklyKeyFor(cfg, model));
    var c := unknown.quota.WeeklyBucket(WeeklyKeyFor(cfg, model));
    SharesCompare(Headroom(c), 604800.0, Headroom(b), (b.resetAt.value - now) as real / 1000.0);
  }

  /**
   Two available accounts of which the one with no known reset leads the ranking:
   nothing spent, against nine tenths spent and a week to go.
   */
  lemma {:induction false} UnknownResetCanWin(now: int) returns (known: Facts, unknown: Facts)
    ensures var cfg, all := PlainSettings(true), [known, unknown];
            && Available(cfg, all, PLAIN_REQUEST, now) == all
            && Measured(cfg, known, None, now) && !Measured(cfg, unknown, None, now)
            && known.priority == unknown.priority
            && (var r := Ranked(cfg, [Candidate(known, 0, 0), Candidate(unknown, 0, 0)], None, now);
                r != [] && r[0].a == unknown)
  {
    var nearlySpent := Bucket(Some(0.9), Some(now + 7 * 24 * 3600 * 1000), Some(now));
    var unspent := Bucket(Some(0.0), None, Some(now));
    known := PlainFacts(1, 0, nearlySpent);
    unknown := PlainFacts(2, 0, unspent);
    var cfg, all := PlainSettings(true), [known, unknown];
    PlainIsEligible(true, all, 1, 0, nearlySpent, now);
    PlainIsEligible(true, all, 2, 0, unspent, now);
    PlainPoolIsAvailable(true, known, unknown, now);
    UnknownLeads(cfg, known, unknown, now);
  }

  lemma {:induction false} UnknownLeads(cfg: Settings, known: Facts, unknown: Facts, now: int)
    requires cfg.expiry.enabled && !cfg.soonestReset && cfg.routes == [] && known.priority == unknown.priority
    requires known.quota.week.utilization == Some(0.9)
    requires known.quota.week.resetAt == Some(now + 7 * 24 * 3600 * 1000)
    requires unknown.quota.week.utilization == Some(0.0) && unknown.quota.week.resetAt.None?
    ensures Measured(cfg, known, None, now) && !Measured(cfg, unknown, None, now)
    ensures var r := Ranked(cfg, [Candidate(known, 0, 0), Candidate(unknown, 0, 0)], None, now);
            r != [] && r[0].a == unknown
  {
    hide Ranked;
    var c, d := Candidate(known, 0, 0), Candidate(unknown, 0, 0);
    UnknownIsPreferred(cfg, c, d, now);
    PairHasPeak(cfg, c, d, now);
    MostPressureLeads(cfg, [c, d], None, now);
    assert d in [c, d];
  }

  lemma {:induction false} UnknownIsPreferred(cfg: Settings, c: Candidate, d: Candidate, now: int)
    requires cfg.routes == [] && c.a.priority == d.a.priority
    requires c.a.quota.week.utilization == Some(0.9)
    requires c.a.quota.week.resetAt == Some(now + 7 * 24 * 3600 * 1000)
    requires d.a.quota.week.utilization == Some(0.0) && d.a.quota.week.resetAt.None?
    ensures Measured(cfg, c.a, None, now) && !Measured(cfg, d.a, None, now)
    ensures PreferredByPressure(cfg, d, c, None, now)
  {
    UnknownResetWinsExactly(cfg, c.a, d.a, None, now);
  }

  lemma {:induction false} PairHasPeak(cfg: Settings, c: Candidate, d: Candidate, now: int)
    requires c.a.priority == d.a.priority && Measured(cfg, c.a, None, now)
    ensures PeakPressure(cfg, [c, d], TopPriority([c, d]), None, now).Some?
  {
    hide Measured;
    var cs := [c, d];
    assert c in cs && forall x <- cs :: x == c || x == d;
  }

  // ── Soonest reset ────────────────────────────────────────

  /** All the soonest-reset order looks at. */
  datatype Standing = Standing(place: Place, active: nat, inFlight: nat, week: int, five: int) {

    /** An earlier place, then a lighter load, then a sooner weekly reset, then a sooner 5h deadline. */
    predicate Over(other: Standing) {
      place.Sooner(other.place) || (place == other.place && OverWithin(other))
    }

    predicate OverWithin(other: Standing) {
      active < other.active
      || (active == other.active
          && (inFlight < other.inFlight
              || (inFlight == other.inFlight
                  && (week < other.week || (week == other.week && five < other.five)))))
    }

    function AsKey(): Key {
      [place.tier as real, place.week as real, place.five as real, active as real, inFlight as real, week as real,
       five as real]
    }
  }

  function StandingOf(v: seq<Candidate>, c: Candidate, model: Option<string>, now: int): Standing {
    Standing(
      PlaceOf(v, c.a, model, now), c.active, c.inFlight, WeeklyResetKey(c.a, model, now), FiveHourDeadline(c.a, now))
  }

  lemma {:induction false} TailPrefers(s: Standing, t: Standing)
    ensures Before(s.AsKey()[3..], t.AsKey()[3..]) <==> s.OverWithin(t)
  {
    var x, y := s.AsKey(), t.AsKey();
    assert x[7..] == [] == y[7..];
    assert !Before(x[7..], y[7..]);
    hide Before;
    BeforeFrom(x, y, 3);
    BeforeFrom(x, y, 4);
    BeforeFrom(x, y, 5);
    BeforeFrom(x, y, 6);
    return;
  }

  lemma {:induction false} KeyPrefers(s: Standing, t: Standing)
    ensures Before(s.AsKey(), t.AsKey()) <==> s.Over(t)
  {
    TailPrefers(s, t);
    hide Before, Standing.OverWithin;
    var x, y := s.AsKey(), t.AsKey();
    assert x[0..] == x && y[0..] == y;
    BeforeFrom(x, y, 0);
    BeforeFrom(x, y, 1);
    BeforeFrom(x, y, 2);
    return;
  }

  /** With soonest-reset routing on, nobody the default order or the band left stands over the head. */
  lemma {:induction false} SoonestLeads(cfg: Settings, cs: seq<Candidate>, model: Option<string>, now: int)
    requires cs != [] && cfg.soonestReset
    ensures var v, r := RankedByDefault(cfg, cs, model, now), Ranked(cfg, cs, model, now);
            r != [] && r[0] in v
            && forall c <- v :: !StandingOf(v, c, model, now).Over(StandingOf(v, r[0], model, now))
  {
    DefaultKeepsTheTop(cfg, cs, model, now);
    SoonestLeadsAmong(RankedByDefault(cfg, cs, model, now), model, now);
  }

  lemma {:induction false} SoonestLeadsAmong(v: seq<Candidate>, model: Option<string>, now: int)
    requires v != []
    ensures var r := Items(Sort(BySoonest(v, model, now)));
            r[0] in v && forall c <- v :: !StandingOf(v, c, model, now).Over(StandingOf(v, r[0], model, now))
  {
    var es := BySoonest(v, model, now);
    var h := SortedHead(v, es, 7);
    forall c <- v
      ensures !StandingOf(v, c, model, now).Over(StandingOf(v, v[h], model, now))
    {
      var i :| 0 <= i < |v| && v[i] == c;
      assert !Before(es[i].key, es[h].key);
      KeyPrefers(StandingOf(v, c, model, now), StandingOf(v, v[h], model, now));
    }
  }
}
