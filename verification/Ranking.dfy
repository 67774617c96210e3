/**
 The order in which available accounts are preferred: by priority and load, by
 expiry pressure, or by soonest reset.
 */
module Ranking {
  import opened Options
  import opened Models
  import opened Quotas
  import opened Accounts
  import opened StableSort

  const I64_MAX: int := 0x7fff_ffff_ffff_ffff
  const WEEKLY_BAND_MS: int := 24 * 3600 * 1000
  const FIVE_HOUR_BAND_MS: int := 15 * 60 * 1000
  const FIVE_HOUR_WINDOW_MS: int := 5 * 3600 * 1000

  /** An available account with the load sessions put on it; no load counts unless sessions are distributed. */
  datatype Candidate = Candidate(a: Facts, active: nat, inFlight: nat)

  // ── Default order ────────────────────────────────────────

  function WeeklyResetFor(a: Facts, model: Option<string>): Option<int> {
    a.quota.WeeklyBucket(WeeklyBucketFor(model)).resetAt.Or(a.quota.week.resetAt)
  }

  /** Priority, then load, then the governing weekly reset with unknown ones last. */
  function DefaultKey(c: Candidate, model: Option<string>): (k: Key)
    ensures |k| == 4 && k[0] == c.a.priority as real
  {
    [c.a.priority as real, c.active as real, c.inFlight as real, WeeklyResetFor(c.a, model).GetOr(I64_MAX) as real]
  }

  /** `es` are the candidates in order, each under a key that starts with its priority. */
  ghost predicate Keyed(es: seq<Entry<Candidate>>, cs: seq<Candidate>, width: nat) {
    && |es| == |cs|
    && forall i :: 0 <= i < |cs| ==>
         es[i].item == cs[i] && |es[i].key| == width > 0 && es[i].key[0] == cs[i].a.priority as real
  }

  function ByDefault(cs: seq<Candidate>, model: Option<string>): (es: seq<Entry<Candidate>>)
    ensures Keyed(es, cs, 4)
  {
    seq(|cs|, i requires 0 <= i < |cs| => Entry(cs[i], DefaultKey(cs[i], model)))
  }

  // ── Expiry pressure ──────────────────────────────────────

  /** Spendable headroom per second until the governing reset, and whether that reset is known. */
  function Pressure(cfg: Settings, a: Facts, model: Option<string>, now: int): (Option<real>, bool) {
    var b := a.quota.WeeklyBucket(WeeklyKeyFor(cfg, model));
    if b.utilization.None? then (None, false)
    else
      var spendable := 1.0 - Clamp01(b.utilization.value);
      if b.resetAt.None? then (Some(spendable / (7.0 * 24.0 * 3600.0)), false)
      else if b.resetAt.value > now then (Some(spendable / ((b.resetAt.value - now) as real / 1000.0)), true)
      else (Some(0.0), true)
  }

  predicate Measured(cfg: Settings, a: Facts, model: Option<string>, now: int) {
    Pressure(cfg, a, model, now).1
  }

  /** The best priority number present. */
  function TopPriority(cs: seq<Candidate>): (p: int)
    requires cs != []
    ensures forall c <- cs :: p <= c.a.priority
    ensures exists c <- cs :: c.a.priority == p
  {
    if |cs| == 1 then
      assert cs[0] in cs;
      cs[0].a.priority
    else
      var p := TopPriority(cs[1..]);
      assert cs == [cs[0]] + cs[1..];
      assert cs[0] in cs && forall c <- cs[1..] :: c in cs;
      if cs[0].a.priority < p then cs[0].a.priority else p
  }

  /** The highest measured pressure of a priority tier. */
  function PeakPressure(
    cfg: Settings, cs: seq<Candidate>, tier: int, model: Option<string>, now: int): (m: Option<real>)
    ensures m.None? <==> forall c <- cs :: c.a.priority == tier ==> !Measured(cfg, c.a, model, now)
    ensures m.Some? ==> exists c <- cs :: c.a.priority == tier && Measured(cfg, c.a, model, now)
                                          && Pressure(cfg, c.a, model, now).0 == m
  {
    if cs == [] then None
    else
      assert cs == [cs[0]] + cs[1..];
      assert cs[0] in cs && forall c <- cs[1..] :: c in cs;
      var m := PeakPressure(cfg, cs[1..], tier, model, now);
      var (p, measured) := Pressure(cfg, cs[0].a, model, now);
      if cs[0].a.priority != tier || !measured then m
      else if m.Some? && p.value <= m.value then m
      else p
  }

  /** The top tier keeps the accounts within the tolerance of its peak, and those never measured. */
  function InBand(
    cfg: Settings, cs: seq<Candidate>, tier: int, floor: real, model: Option<string>,
    now: int): (r: seq<Candidate>)
    ensures forall c <- r :: c in cs
    ensures forall c <- cs :: c in r <==>
              c.a.priority != tier || Pressure(cfg, c.a, model, now).0.None?
              || Pressure(cfg, c.a, model, now).0.value >= floor
  {
    if cs == [] then []
    else
      assert cs == [cs[0]] + cs[1..];
      assert cs[0] in cs && forall c <- cs[1..] :: c in cs;
      var rest := InBand(cfg, cs[1..], tier, floor, model, now);
      var p := Pressure(cfg, cs[0].a, model, now).0;
      if cs[0].a.priority != tier || p.None? || p.value >= floor then [cs[0]] + rest else rest
  }

  /** Priority, then pressure from high to low with the unmeasured first. */
  function PressureKey(cfg: Settings, c: Candidate, model: Option<string>, now: int): (k: Key)
    ensures |k| == 3 && k[0] == c.a.priority as real
  {
    var p := Pressure(cfg, c.a, model, now).0;
    [c.a.priority as real, if p.None? then 0.0 else 1.0, if p.None? then 0.0 else -p.value]
  }

  function ByPressure(cfg: Settings, cs: seq<Candidate>, model: Option<string>, now: int): (es: seq<Entry<Candidate>>)
    ensures Keyed(es, cs, 3)
  {
    seq(|cs|, i requires 0 <= i < |cs| => Entry(cs[i], PressureKey(cfg, cs[i], model, now)))
  }

  /** With no measured account in the top tier the list is returned as it came, unsorted. */
  function Band(cfg: Settings, cs: seq<Candidate>, model: Option<string>, now: int): seq<Candidate> {
    if |cs| <= 1 then cs
    else
      var tier := TopPriority(cs);
      var peak := PeakPressure(cfg, cs, tier, model, now);
      if peak.None? then cs
      else
        var ratio := if cfg.expiry.tolerance > 0.0 then cfg.expiry.tolerance else 1.0;
        var floor := if peak.value / ratio < peak.value then peak.value / ratio else peak.value;
        var kept := InBand(cfg, cs, tier, floor, model, now);
        Items(Sort(ByPressure(cfg, kept, model, now)))
  }

  function RankedByDefault(cfg: Settings, cs: seq<Candidate>, model: Option<string>, now: int): seq<Candidate> {
    if cfg.expiry.enabled then Band(cfg, cs, model, now)
    else Items(Sort(ByDefault(cs, model)))
  }

  // ── Soonest reset ────────────────────────────────────────

  /** The governing weekly reset, or the largest time when none lies ahead. */
  function WeeklyResetKey(a: Facts, model: Option<string>, now: int): int {
    var r := WeeklyResetFor(a, model);
    if r.Some? && r.value > now then r.value else I64_MAX
  }

  /** When the 5h window ends; an account with none running would start one now. */
  function FiveHourDeadline(a: Facts, now: int): int {
    var r := a.quota.fiveHour.resetAt;
    if r.Some? && r.value > now then r.value else now + FIVE_HOUR_WINDOW_MS
  }

  function Min(x: int, y: int): int { if x <= y then x else y }

  function Steps(t: int, from: int, width: int): int
    requires width > 0
  {
    if t == I64_MAX then I64_MAX else (t - from) / width
  }

  /** The soonest weekly reset of a priority tier. */
  function SoonestWeek(cs: seq<Candidate>, tier: int, model: Option<string>, now: int): (m: int)
    ensures forall c <- cs :: c.a.priority == tier ==> m <= WeeklyResetKey(c.a, model, now)
    ensures m <= I64_MAX
    ensures m == I64_MAX || exists c <- cs :: c.a.priority == tier && WeeklyResetKey(c.a, model, now) == m
  {
    if cs == [] then I64_MAX
    else
      assert cs == [cs[0]] + cs[1..];
      assert cs[0] in cs && forall c <- cs[1..] :: c in cs;
      var m := SoonestWeek(cs[1..], tier, model, now);
      if cs[0].a.priority == tier then Min(m, WeeklyResetKey(cs[0].a, model, now)) else m
  }

  function WeeklyBand(cs: seq<Candidate>, a: Facts, model: Option<string>, now: int): int {
    Steps(WeeklyResetKey(a, model, now), SoonestWeek(cs, a.priority, model, now), WEEKLY_BAND_MS)
  }

  /** The soonest 5h deadline of a weekly band; `pool` is what the weekly bands are measured against. */
  function SoonestFiveHours(
    pool: seq<Candidate>, cs: seq<Candidate>, tier: int, band: int, model: Option<string>, now: int): (m: int)
    ensures forall c <- cs ::
              c.a.priority == tier && WeeklyBand(pool, c.a, model, now) == band ==> m <= FiveHourDeadline(c.a, now)
    ensures m <= I64_MAX
    ensures m == I64_MAX || exists c <- cs :: c.a.priority == tier && WeeklyBand(pool, c.a, model, now) == band
                                              && FiveHourDeadline(c.a, now) == m
  {
    if cs == [] then I64_MAX
    else
      assert cs == [cs[0]] + cs[1..];
      assert cs[0] in cs && forall c <- cs[1..] :: c in cs;
      var m := SoonestFiveHours(pool, cs[1..], tier, band, model, now);
      if cs[0].a.priority == tier && WeeklyBand(pool, cs[0].a, model, now) == band
      then Min(m, FiveHourDeadline(cs[0].a, now)) else m
  }

  /** Where an account stands: its tier, its weekly band in the tier, its 5h band in the weekly band. */
  datatype Place = Place(tier: int, week: int, five: int) {
    predicate Sooner(other: Place) {
      tier < other.tier
      || (tier == other.tier && (week < other.week || (week == other.week && five < other.five)))
    }
  }

  function PlaceOf(pool: seq<Candidate>, a: Facts, model: Option<string>, now: int): (p: Place)
    ensures p.tier == a.priority
  {
    var week := WeeklyBand(pool, a, model, now);
    var soonest := SoonestFiveHours(pool, pool, a.priority, week, model, now);
    Place(a.priority, week, Steps(FiveHourDeadline(a, now), soonest, FIVE_HOUR_BAND_MS))
  }

  function SoonestKey(pool: seq<Candidate>, c: Candidate, model: Option<string>, now: int): (k: Key)
    ensures |k| == 7 && k[0] == c.a.priority as real
  {
    var p := PlaceOf(pool, c.a, model, now);
    [p.tier as real, p.week as real, p.five as real, c.active as real, c.inFlight as real,
     WeeklyResetKey(c.a, model, now) as real, FiveHourDeadline(c.a, now) as real]
  }

  function BySoonest(cs: seq<Candidate>, model: Option<string>, now: int): (es: seq<Entry<Candidate>>)
    ensures Keyed(es, cs, 7)
    ensures forall i :: 0 <= i < |cs| ==> es[i].key == SoonestKey(cs, cs[i], model, now)
  {
    seq(|cs|, i requires 0 <= i < |cs| => Entry(cs[i], SoonestKey(cs, cs[i], model, now)))
  }

  /** The available accounts, best first. */
  function Ranked(cfg: Settings, cs: seq<Candidate>, model: Option<string>, now: int): seq<Candidate> {
    var v := RankedByDefault(cfg, cs, model, now);
    if cfg.soonestReset
    then Items(Sort(BySoonest(v, model, now)))
    else v
  }

  // ── What the ranking guarantees ──────────────────────────

  /** A sort whose keys start with the priority leads with a least priority number. */
  lemma {:induction false} SortLeadsByPriority(v: seq<Candidate>, es: seq<Entry<Candidate>>, width: nat)
    requires v != [] && Keyed(es, v, width)
    ensures forall c :: c in Items(Sort(es)) <==> c in v
    ensures forall c <- v :: Items(Sort(es))[0].a.priority <= c.a.priority
  {
    var h := SortedHead(v, es, width);
    forall c <- v
      ensures Items(Sort(es))[0].a.priority <= c.a.priority
    {
      var i :| 0 <= i < |v| && v[i] == c;
      assert !Before(es[i].key, es[h].key);
    }
  }

  /** `r` is drawn from `cs`, is not empty, and still holds a best-priority account. */
  ghost predicate KeepsTop(r: seq<Candidate>, cs: seq<Candidate>)
    requires cs != []
  {
    && r != []
    && (forall c <- r :: c in cs)
    && (exists c <- r :: c.a.priority == TopPriority(cs))
  }

  ghost predicate LeadsWithTop(r: seq<Candidate>, cs: seq<Candidate>)
    requires cs != []
  {
    r != [] && r[0].a.priority == TopPriority(cs)
  }

  lemma {:induction false} SortKeepsTop(v: seq<Candidate>, es: seq<Entry<Candidate>>, width: nat, cs: seq<Candidate>)
    requires cs != [] && KeepsTop(v, cs) && Keyed(es, v, width)
    ensures KeepsTop(Items(Sort(es)), cs) && LeadsWithTop(Items(Sort(es)), cs)
  {
    SortLeadsByPriority(v, es, width);
    var best :| best in v && best.a.priority == TopPriority(cs);
    assert Items(Sort(es))[0] in Items(Sort(es));
  }

  /** The top tier's peak stays in the band, so the band never drops the tier. */
  lemma {:induction false} PeakStaysInBand(
    cfg: Settings, cs: seq<Candidate>, floor: real, model: Option<string>, now: int)
    requires cs != []
    requires PeakPressure(cfg, cs, TopPriority(cs), model, now).Some?
    requires floor <= PeakPressure(cfg, cs, TopPriority(cs), model, now).value
    ensures KeepsTop(InBand(cfg, cs, TopPriority(cs), floor, model, now), cs)
  {
    var peak := PeakPressure(cfg, cs, TopPriority(cs), model, now);
    var best :| best in cs && best.a.priority == TopPriority(cs) && Measured(cfg, best.a, model, now)
                && Pressure(cfg, best.a, model, now).0 == peak;
    assert best in InBand(cfg, cs, TopPriority(cs), floor, model, now);
  }

  lemma {:induction false} AllKeepTop(cs: seq<Candidate>)
    requires cs != []
    ensures KeepsTop(cs, cs)
  {
    var top := TopPriority(cs);
  }

  /** Expiry routing never empties the list and never drops the whole top tier. */
  lemma {:induction false} BandKeepsTheTop(cfg: Settings, cs: seq<Candidate>, model: Option<string>, now: int)
    requires cs != []
    ensures KeepsTop(Band(cfg, cs, model, now), cs)
    ensures PeakPressure(cfg, cs, TopPriority(cs), model, now).Some? ==> LeadsWithTop(Band(cfg, cs, model, now), cs)
  {
    var tier := TopPriority(cs);
    var peak := PeakPressure(cfg, cs, tier, model, now);
    AllKeepTop(cs);
    if |cs| == 1 {
      assert cs[0] in cs && forall c <- cs :: c == cs[0];
    } else if peak.Some? {
      var ratio := if cfg.expiry.tolerance > 0.0 then cfg.expiry.tolerance else 1.0;
      var floor := if peak.value / ratio < peak.value then peak.value / ratio else peak.value;
      PeakStaysInBand(cfg, cs, floor, model, now);
      var kept := InBand(cfg, cs, tier, floor, model, now);
      SortKeepsTop(kept, ByPressure(cfg, kept, model, now), 3, cs);
    }
  }

  lemma {:induction false} DefaultKeepsTheTop(cfg: Settings, cs: seq<Candidate>, model: Option<string>, now: int)
    requires cs != []
    ensures KeepsTop(RankedByDefault(cfg, cs, model, now), cs)
    ensures !cfg.expiry.enabled || PeakPressure(cfg, cs, TopPriority(cs), model, now).Some?
            ==> LeadsWithTop(RankedByDefault(cfg, cs, model, now), cs)
  {
    if cfg.expiry.enabled {
      BandKeepsTheTop(cfg, cs, model, now);
    } else {
      AllKeepTop(cs);
      SortKeepsTop(cs, ByDefault(cs, model), 4, cs);
    }
  }

  /** The ranking re-orders by priority: every case but expiry routing with nothing measured in the top tier. */
  predicate OrdersByPriority(cfg: Settings, cs: seq<Candidate>, model: Option<string>, now: int) {
    !cfg.expiry.enabled || cfg.soonestReset
    || (cs != [] && PeakPressure(cfg, cs, TopPriority(cs), model, now).Some?)
  }

  /**
   The ranking is empty only when nobody is available, invents nobody, and leads
   with a best-priority account exactly as far as it orders by priority at all;
   otherwise it is the pool order.
   */
  lemma {:induction false} RankedIsSound(cfg: Settings, cs: seq<Candidate>, model: Option<string>, now: int)
    ensures Ranked(cfg, cs, model, now) == [] <==> cs == []
    ensures cs != [] ==> KeepsTop(Ranked(cfg, cs, model, now), cs)
    ensures cs != [] && OrdersByPriority(cfg, cs, model, now) ==> LeadsWithTop(Ranked(cfg, cs, model, now), cs)
    ensures !OrdersByPriority(cfg, cs, model, now) ==> Ranked(cfg, cs, model, now) == cs
  {
    if cs != [] {
      DefaultKeepsTheTop(cfg, cs, model, now);
      var v := RankedByDefault(cfg, cs, model, now);
      if cfg.soonestReset {
        SortKeepsTop(v, BySoonest(v, model, now), 7, cs);
      }
    }
  }
}
