/**
 Soonest-reset routing: the bands resets are grouped into, and exactly when an
 account is far enough behind another to be moved off.
 */
module SoonestReset {
  import opened Options
  import opened Accounts
  import opened StableSort
  import opened Ranking
  import opened RankingTheorems

  /** Every time fits the source's 64-bit milliseconds, on a clock past 1970. */
  ghost predicate Representable(pool: seq<Candidate>, now: int) {
    && 0 <= now < I64_MAX - FIVE_HOUR_WINDOW_MS
    && forall c <- pool ::
         && (c.a.quota.fiveHour.resetAt.Some? ==> c.a.quota.fiveHour.resetAt.value < I64_MAX)
         && (forall model :: WeeklyResetKey(c.a, model, now) <= I64_MAX)
  }

  // ── Bands ────────────────────────────────────────────────

  predicate BandWidth(width: int) {
    width == WEEKLY_BAND_MS || width == FIVE_HOUR_BAND_MS
  }

  lemma {:induction false} DivideKeepsOrder(x: int, y: int, width: int)
    requires BandWidth(width) && 0 <= x <= y
    ensures 0 <= x / width <= y / width && x / width <= x
    ensures x < width <==> x / width == 0
  {
    if width == WEEKLY_BAND_MS {
    } else {
    }
  }

  lemma {:induction false} StepsKeepOrder(t: int, u: int, from: int, width: int)
    requires BandWidth(width) && 0 <= from <= t <= u <= I64_MAX
    ensures 0 <= Steps(t, from, width) <= Steps(u, from, width)
  {
    DivideKeepsOrder(t - from, u - from, width);
  }

  /** Within a tier the weekly bands follow the resets, and the soonest known reset is band 0. */
  lemma {:induction false} WeeklyBandsKeepOrder(
    pool: seq<Candidate>, c: Candidate, d: Candidate, model: Option<string>, now: int)
    requires Representable(pool, now) && c in pool && d in pool && c.a.priority == d.a.priority
    requires WeeklyResetKey(c.a, model, now) <= WeeklyResetKey(d.a, model, now)
    ensures 0 <= WeeklyBand(pool, c.a, model, now) <= WeeklyBand(pool, d.a, model, now)
    ensures WeeklyResetKey(c.a, model, now) == SoonestWeek(pool, c.a.priority, model, now) < I64_MAX
            ==> WeeklyBand(pool, c.a, model, now) == 0
  {
    var m := SoonestWeek(pool, c.a.priority, model, now);
    StepsKeepOrder(WeeklyResetKey(c.a, model, now), WeeklyResetKey(d.a, model, now), m, WEEKLY_BAND_MS);
  }

  /** Within a weekly band the 5h bands follow the deadlines, and the soonest one is band 0. */
  lemma {:induction false} FiveHourBandsKeepOrder(
    pool: seq<Candidate>, c: Candidate, d: Candidate, model: Option<string>, now: int)
    requires Representable(pool, now) && c in pool && d in pool && c.a.priority == d.a.priority
    requires WeeklyBand(pool, c.a, model, now) == WeeklyBand(pool, d.a, model, now)
    requires FiveHourDeadline(c.a, now) <= FiveHourDeadline(d.a, now)
    ensures 0 <= PlaceOf(pool, c.a, model, now).five <= PlaceOf(pool, d.a, model, now).five
    ensures FiveHourDeadline(c.a, now)
            == SoonestFiveHours(pool, pool, c.a.priority, WeeklyBand(pool, c.a, model, now), model, now)
            ==> PlaceOf(pool, c.a, model, now).five == 0
  {
    var m := SoonestFiveHours(pool, pool, c.a.priority, WeeklyBand(pool, c.a, model, now), model, now);
    StepsKeepOrder(FiveHourDeadline(c.a, now), FiveHourDeadline(d.a, now), m, FIVE_HOUR_BAND_MS);
  }

  // ── Lagging ──────────────────────────────────────────────

  /** A day or more behind the soonest week of its tier, or no week known while another's is. */
  ghost predicate WeekLags(pool: seq<Candidate>, a: Facts, model: Option<string>, now: int) {
    var m := SoonestWeek(pool, a.priority, model, now);
    m < I64_MAX && (WeeklyResetKey(a, model, now) == I64_MAX || WeeklyResetKey(a, model, now) >= m + WEEKLY_BAND_MS)
  }

  /** A quarter of an hour or more behind the soonest 5h deadline of its weekly band. */
  ghost predicate FiveHourLags(pool: seq<Candidate>, a: Facts, model: Option<string>, now: int) {
    FiveHourDeadline(a, now)
    >= SoonestFiveHours(pool, pool, a.priority, WeeklyBand(pool, a, model, now), model, now) + FIVE_HOUR_BAND_MS
  }

  ghost predicate Lags(pool: seq<Candidate>, a: Facts, model: Option<string>, now: int)
    requires pool != []
  {
    a.priority > TopPriority(pool) || WeekLags(pool, a, model, now) || FiveHourLags(pool, a, model, now)
  }

  ghost predicate SomeoneSooner(pool: seq<Candidate>, a: Facts, model: Option<string>, now: int) {
    exists c <- pool :: PlaceOf(pool, c.a, model, now).Sooner(PlaceOf(pool, a, model, now))
  }

  lemma {:induction false} LaterWeekLags(
    pool: seq<Candidate>, c: Candidate, cur: Candidate, model: Option<string>, now: int)
    requires Representable(pool, now) && c in pool && cur in pool && c.a.priority == cur.a.priority
    requires WeeklyBand(pool, c.a, model, now) < WeeklyBand(pool, cur.a, model, now)
    ensures WeekLags(pool, cur.a, model, now)
  {
    WeeklyBandsKeepOrder(pool, c, c, model, now);
    var m, mine := SoonestWeek(pool, cur.a.priority, model, now), WeeklyResetKey(cur.a, model, now);
    if m < I64_MAX && mine != I64_MAX {
      DivideKeepsOrder(mine - m, mine - m, WEEKLY_BAND_MS);
    }
  }

  lemma {:induction false} LaterFiveHoursLag(pool: seq<Candidate>, cur: Candidate, model: Option<string>, now: int)
    requires Representable(pool, now) && cur in pool && PlaceOf(pool, cur.a, model, now).five > 0
    ensures FiveHourLags(pool, cur.a, model, now)
  {
    var f := SoonestFiveHours(pool, pool, cur.a.priority, WeeklyBand(pool, cur.a, model, now), model, now);
    DivideKeepsOrder(FiveHourDeadline(cur.a, now) - f, FiveHourDeadline(cur.a, now) - f, FIVE_HOUR_BAND_MS);
  }

  /** Being in an earlier band takes a better tier, a day of the week, or a quarter of an hour. */
  lemma {:induction false} SoonerMeansLagging(
    pool: seq<Candidate>, c: Candidate, cur: Candidate, model: Option<string>, now: int)
    requires Representable(pool, now) && c in pool && cur in pool
    requires PlaceOf(pool, c.a, model, now).Sooner(PlaceOf(pool, cur.a, model, now))
    ensures Lags(pool, cur.a, model, now)
  {
    var p, q := PlaceOf(pool, c.a, model, now), PlaceOf(pool, cur.a, model, now);
    if p.tier == q.tier {
      if p.week < q.week {
        LaterWeekLags(pool, c, cur, model, now);
      } else {
        FiveHourBandsKeepOrder(pool, c, c, model, now);
        LaterFiveHoursLag(pool, cur, model, now);
      }
    }
  }

  lemma {:induction false} LaggingWeekMeansSooner(pool: seq<Candidate>, cur: Candidate, model: Option<string>, now: int)
    requires Representable(pool, now) && cur in pool && WeekLags(pool, cur.a, model, now)
    ensures SomeoneSooner(pool, cur.a, model, now)
  {
    var m := SoonestWeek(pool, cur.a.priority, model, now);
    var c :| c in pool && c.a.priority == cur.a.priority && WeeklyResetKey(c.a, model, now) == m;
    WeeklyBandsKeepOrder(pool, c, cur, model, now);
    var behind := WeeklyResetKey(cur.a, model, now);
    if behind != I64_MAX {
      DivideKeepsOrder(behind - m, behind - m, WEEKLY_BAND_MS);
    }
    assert PlaceOf(pool, c.a, model, now).Sooner(PlaceOf(pool, cur.a, model, now));
  }

  lemma {:induction false} LaggingFiveHoursMeansSooner(
    pool: seq<Candidate>, cur: Candidate, model: Option<string>, now: int)
    requires Representable(pool, now) && cur in pool && FiveHourLags(pool, cur.a, model, now)
    ensures SomeoneSooner(pool, cur.a, model, now)
  {
    var week := WeeklyBand(pool, cur.a, model, now);
    var f := SoonestFiveHours(pool, pool, cur.a.priority, week, model, now);
    var behind := FiveHourDeadline(cur.a, now);
    assert f <= behind < I64_MAX;
    var c :| c in pool && c.a.priority == cur.a.priority && WeeklyBand(pool, c.a, model, now) == week
             && FiveHourDeadline(c.a, now) == f;
    FiveHourBandsKeepOrder(pool, c, cur, model, now);
    DivideKeepsOrder(behind - f, behind - f, FIVE_HOUR_BAND_MS);
    assert PlaceOf(pool, c.a, model, now).Sooner(PlaceOf(pool, cur.a, model, now));
  }

  /** An account that lags has someone in an earlier band. */
  lemma {:induction false} LaggingMeansSooner(pool: seq<Candidate>, cur: Candidate, model: Option<string>, now: int)
    requires Representable(pool, now) && cur in pool && Lags(pool, cur.a, model, now)
    ensures SomeoneSooner(pool, cur.a, model, now)
  {
    if WeekLags(pool, cur.a, model, now) {
      LaggingWeekMeansSooner(pool, cur, model, now);
    } else if FiveHourLags(pool, cur.a, model, now) {
      LaggingFiveHoursMeansSooner(pool, cur, model, now);
    } else {
      var c :| c in pool && c.a.priority == TopPriority(pool);
      assert PlaceOf(pool, c.a, model, now).Sooner(PlaceOf(pool, cur.a, model, now));
    }
  }

  /** Somebody sits in an earlier band exactly when the account lags by a tier, a day or a quarter of an hour. */
  lemma {:induction false} BandsMeasureLag(pool: seq<Candidate>, cur: Candidate, model: Option<string>, now: int)
    requires Representable(pool, now) && cur in pool
    ensures SomeoneSooner(pool, cur.a, model, now) <==> Lags(pool, cur.a, model, now)
  {
    if SomeoneSooner(pool, cur.a, model, now) {
      var c :| c in pool && PlaceOf(pool, c.a, model, now).Sooner(PlaceOf(pool, cur.a, model, now));
      SoonerMeansLagging(pool, c, cur, model, now);
    }
    if Lags(pool, cur.a, model, now) {
      LaggingMeansSooner(pool, cur, model, now);
    }
  }

  // ── The ranking leads with the earliest band ─────────────

  lemma {:induction false} SameWeek(v: seq<Candidate>, cs: seq<Candidate>, tier: int, model: Option<string>, now: int)
    requires forall c :: c in v <==> c in cs
    ensures SoonestWeek(v, tier, model, now) == SoonestWeek(cs, tier, model, now)
  {
  }

  lemma {:induction false} SameFiveHours(
    v: seq<Candidate>, cs: seq<Candidate>, tier: int, band: int, model: Option<string>, now: int)
    requires forall c :: c in v <==> c in cs
    ensures SoonestFiveHours(v, v, tier, band, model, now) == SoonestFiveHours(cs, cs, tier, band, model, now)
  {
    forall c: Candidate
      ensures WeeklyBand(v, c.a, model, now) == WeeklyBand(cs, c.a, model, now)
    {
      SameWeek(v, cs, c.a.priority, model, now);
    }
  }

  /** Where an account stands depends on who is in the pool, not on the order of the pool. */
  lemma {:induction false} SamePlace(v: seq<Candidate>, cs: seq<Candidate>, a: Facts, model: Option<string>, now: int)
    requires forall c :: c in v <==> c in cs
    ensures PlaceOf(v, a, model, now) == PlaceOf(cs, a, model, now)
  {
    SameWeek(v, cs, a.priority, model, now);
    SameFiveHours(v, cs, a.priority, WeeklyBand(cs, a, model, now), model, now);
  }

  /** With soonest-reset routing on and expiry routing off, nobody available sits in an earlier band than the head. */
  lemma {:induction false} HeadIsSoonest(cfg: Settings, cs: seq<Candidate>, model: Option<string>, now: int)
    requires cfg.soonestReset && !cfg.expiry.enabled && cs != []
    ensures Ranked(cfg, cs, model, now) != []
    ensures !SomeoneSooner(cs, Ranked(cfg, cs, model, now)[0].a, model, now)
  {
    var first := SortedHead(cs, ByDefault(cs, model), 4);
    var v := RankedByDefault(cfg, cs, model, now);
    HeadOfSoonest(v, model, now);
    var head := Ranked(cfg, cs, model, now)[0];
    SamePlace(v, cs, head.a, model, now);
    forall c <- cs
      ensures !PlaceOf(cs, c.a, model, now).Sooner(PlaceOf(cs, head.a, model, now))
    {
      SamePlace(v, cs, c.a, model, now);
    }
  }

  lemma {:induction false} HeadOfSoonest(v: seq<Candidate>, model: Option<string>, now: int)
    requires v != []
    ensures !SomeoneSooner(v, Items(Sort(BySoonest(v, model, now)))[0].a, model, now)
  {
    SoonestLeadsAmong(v, model, now);
    var head := Items(Sort(BySoonest(v, model, now)))[0];
    forall c <- v
      ensures !PlaceOf(v, c.a, model, now).Sooner(PlaceOf(v, head.a, model, now))
    {
      assert !StandingOf(v, c, model, now).Over(StandingOf(v, head, model, now));
    }
  }
}
