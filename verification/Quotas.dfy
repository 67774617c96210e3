/**
 Quota readings: the buckets of one account, the thresholds they are held
 against, and how a probe of the usage endpoint is merged into what is held.
 Times are milliseconds, utilizations are fractions.
 */
module Quotas {
  import opened Options
  import opened Models

  /** The keys a threshold table can list. */
  datatype Metric = FiveHours | Week | WeekFable | WeekSonnet | Tokens | Requests

  const DEFAULT_SWITCH_THRESHOLD: real := 0.98
  const SAME_WINDOW_SLOP_MS: int := 5 * 60 * 1000

  function MetricOf(key: Weekly): Metric {
    match key
    case Shared => Week
    case Fable => WeekFable
    case Sonnet => WeekSonnet
  }

  function Clamp01(v: real): real {
    if v < 0.0 then 0.0 else if v > 1.0 then 1.0 else v
  }

  /** `t` is the fraction nearest to what was configured. */
  predicate Takes(t: real, v: real) {
    0.0 <= t <= 1.0 && (0.0 <= v <= 1.0 ==> t == v) && (v < 0.0 ==> t == 0.0) && (v > 1.0 ==> t == 1.0)
  }

  /** One number for every bucket, or a table with an optional default entry. */
  datatype Threshold = Single(v: real) | Table(entries: map<Metric, real>, fallback: Option<real>) {

    /** What is configured for a bucket: its own entry before the default one. */
    predicate Configures(m: Metric, v: real) {
      match this
      case Single(w) => v == w
      case Table(entries, fallback) => if m in entries then v == entries[m] else fallback == Some(v)
    }

    /** The switch threshold of a bucket: what is configured for it, or the usual one, and never outside [0, 1]. */
    function ForBucket(m: Metric): (t: real)
      ensures 0.0 <= t <= 1.0
      ensures forall v :: Configures(m, v) ==> Takes(t, v)
      ensures CapFor(m).None? ==> t == DEFAULT_SWITCH_THRESHOLD
    {
      match CapFor(m)
      case Some(t) => t
      case None => DEFAULT_SWITCH_THRESHOLD
    }

    /** The hard cap of a bucket: a table that does not list it leaves it uncapped. */
    function CapFor(m: Metric): (t: Option<real>)
      ensures t.Some? ==> 0.0 <= t.value <= 1.0
      ensures t.None? <==> Table? && m !in entries && fallback.None?
      ensures forall v :: Configures(m, v) ==> t.Some? && Takes(t.value, v)
    {
      match this
      case Single(v) => Some(Clamp01(v))
      case Table(entries, fallback) =>
        if m in entries then Some(Clamp01(entries[m]))
        else if fallback.Some? then Some(Clamp01(fallback.value))
        else None
    }
  }

  // ── Buckets ──────────────────────────────────────────────

  datatype Bucket = Bucket(utilization: Option<real>, resetAt: Option<int>, seenAt: Option<int>) {
    predicate IsReset(now: int) {
      resetAt.Some? && resetAt.value <= now
    }
  }

  const EMPTY: Bucket := Bucket(None, None, None)

  datatype Quota = Quota(
    fiveHour: Bucket,
    week: Bucket,
    fable: Bucket,
    sonnet: Bucket,
    scoped: map<string, Bucket>,
    tokensLimit: Option<int>,
    tokensRemaining: Option<int>,
    requestsLimit: Option<int>,
    requestsRemaining: Option<int>,
    resetsAt: Option<int>)
  {
    function WeeklyBucket(key: Weekly): Bucket {
      match key
      case Shared => week
      case Fable => fable
      case Sonnet => sonnet
    }

    /** The utilization that gates a request: the higher of the family's and the shared one. */
    function GatingWeekly(key: Weekly): Option<real> {
      var shared := week.utilization;
      if key == Shared then shared
      else
        var own := WeeklyBucket(key).utilization;
        if own.Some? && shared.Some? then Some(if own.value > shared.value then own.value else shared.value)
        else own.Or(shared)
    }

    function SoonestReset(): Option<int> {
      if fiveHour.resetAt.Some? && week.resetAt.Some? then
        Some(if fiveHour.resetAt.value <= week.resetAt.value then fiveHour.resetAt.value else week.resetAt.value)
      else fiveHour.resetAt.Or(week.resetAt).Or(resetsAt)
    }

    function TokensUsed(): Option<real> { UsedFraction(tokensLimit, tokensRemaining) }

    function RequestsUsed(): Option<real> { UsedFraction(requestsLimit, requestsRemaining) }
  }

  function UsedFraction(limit: Option<int>, remaining: Option<int>): Option<real> {
    if limit.Some? && remaining.Some? && limit.value > 0
    then Some(1.0 - remaining.value as real / limit.value as real)
    else None
  }

  // ── Rolled-over and stale windows ────────────────────────

  function Unrolled(b: Bucket, now: int): Bucket {
    if b.IsReset(now) then EMPTY else b
  }

  /** A spent family reading is dropped once it is older than `stale`. */
  function Fresh(b: Bucket, threshold: real, now: int, stale: int): Bucket {
    if b.utilization.Some? && b.seenAt.Some? && b.utilization.value >= threshold && now - b.seenAt.value > stale
    then EMPTY else b
  }

  function ClearExpired(q: Quota, th: Threshold, now: int, stale: int): Quota {
    q.(fiveHour := Unrolled(q.fiveHour, now),
       week := Unrolled(q.week, now),
       fable := Fresh(Unrolled(q.fable, now), th.ForBucket(WeekFable), now, stale),
       sonnet := Fresh(Unrolled(q.sonnet, now), th.ForBucket(WeekSonnet), now, stale),
       scoped := map k | k in q.scoped && !q.scoped[k].IsReset(now) :: q.scoped[k])
  }

  /** After clearing, every window still held ends in the future, and clearing again changes nothing. */
  lemma {:induction false} ClearedWindowsAreRunning(q: Quota, th: Threshold, now: int, stale: int)
    ensures var c := ClearExpired(q, th, now, stale);
            && ClearExpired(c, th, now, stale) == c
            && !c.fiveHour.IsReset(now)
            && (forall key: Weekly :: !c.WeeklyBucket(key).IsReset(now))
            && (forall k <- c.scoped :: !c.scoped[k].IsReset(now))
  {
    var c := ClearExpired(q, th, now, stale);
    var d := ClearExpired(c, th, now, stale);
    assert d.scoped == c.scoped;
  }

  // ── Probe readings ───────────────────────────────────────

  /** A normalized payload of the usage endpoint. */
  datatype UsagePayload = UsagePayload(
    fiveHour: Option<Bucket>,
    week: Option<Bucket>,
    sonnet: Option<Bucket>,
    fable: Option<Bucket>,
    scoped: map<string, Bucket>,
    scopedListed: bool)

  predicate SameWindow(a: Option<int>, b: Option<int>) {
    a.Some? && b.Some? && -SAME_WINDOW_SLOP_MS <= a.value - b.value <= SAME_WINDOW_SLOP_MS
  }

  predicate ReadsLower(held: Option<real>, read: Option<real>) {
    held.Some? && read.Some? && read.value < held.value
  }

  function Merge(held: Bucket, read: Option<Bucket>, now: int): Bucket {
    if read.None? then held
    else if SameWindow(held.resetAt, read.value.resetAt) && ReadsLower(held.utilization, read.value.utilization) then
      held
    else
      var b := read.value;
      var spent := if b.utilization.Some? then held.(utilization := b.utilization, seenAt := Some(now)) else held;
      spent.(resetAt := b.resetAt)
  }

  function ApplyUsage(q: Quota, u: UsagePayload, now: int): Quota {
    q.(fiveHour := Merge(q.fiveHour, u.fiveHour, now),
       week := Merge(q.week, u.week, now),
       fable := if u.scopedListed && u.fable.None? then EMPTY else Merge(q.fable, u.fable, now),
       sonnet := if u.scopedListed && u.sonnet.None? then EMPTY else Merge(q.sonnet, u.sonnet, now),
       scoped := if u.scopedListed then map k | k in u.scoped :: u.scoped[k].(seenAt := Some(now)) else q.scoped)
  }

  // ── The account's own copy, updated in place ─────────────

  const FAMILIES: seq<Weekly> := [Fable, Sonnet]
  const WINDOWS: seq<Window> := [FiveHourWindow, WeeklyWindow(Shared), WeeklyWindow(Fable), WeeklyWindow(Sonnet)]

  datatype Window = FiveHourWindow | WeeklyWindow(key: Weekly)

  function BucketOf(q: Quota, w: Window): Bucket {
    match w
    case FiveHourWindow => q.fiveHour
    case WeeklyWindow(key) => q.WeeklyBucket(key)
  }

  function WithBucket(q: Quota, w: Window, b: Bucket): (r: Quota)
    ensures forall v: Window :: BucketOf(r, v) == if v == w then b else BucketOf(q, v)
    ensures r.scoped == q.scoped && SameHeaders(q, r)
  {
    match w
    case FiveHourWindow => q.(fiveHour := b)
    case WeeklyWindow(Shared) => q.(week := b)
    case WeeklyWindow(Fable) => q.(fable := b)
    case WeeklyWindow(Sonnet) => q.(sonnet := b)
  }

  /** What response headers alone set is the same. */
  ghost predicate SameHeaders(q: Quota, r: Quota) {
    && r.tokensLimit == q.tokensLimit && r.tokensRemaining == q.tokensRemaining
    && r.requestsLimit == q.requestsLimit && r.requestsRemaining == q.requestsRemaining
    && r.resetsAt == q.resetsAt
  }

  /** The same quota: the buckets, the scoped buckets and what headers set. */
  lemma {:induction false} SameQuota(q: Quota, r: Quota)
    requires forall w: Window :: BucketOf(q, w) == BucketOf(r, w)
    requires q.scoped == r.scoped && SameHeaders(q, r)
    ensures q == r
  {
    assert BucketOf(q, FiveHourWindow) == BucketOf(r, FiveHourWindow);
    forall key: Weekly
      ensures q.WeeklyBucket(key) == r.WeeklyBucket(key)
    {
      assert BucketOf(q, WeeklyWindow(key)) == BucketOf(r, WeeklyWindow(key));
    }
    assert q.WeeklyBucket(Shared) == r.WeeklyBucket(Shared);
    assert q.WeeklyBucket(Fable) == r.WeeklyBucket(Fable);
    assert q.WeeklyBucket(Sonnet) == r.WeeklyBucket(Sonnet);
  }

  function FreshIn(w: Window, b: Bucket, th: Threshold, now: int, stale: int): Bucket {
    if w.WeeklyWindow? && w.key != Shared then Fresh(b, th.ForBucket(MetricOf(w.key)), now, stale) else b
  }

  lemma {:induction false} ClearsEach(q: Quota, w: Window, th: Threshold, now: int, stale: int)
    ensures BucketOf(ClearExpired(q, th, now, stale), w) == FreshIn(w, Unrolled(BucketOf(q, w), now), th, now, stale)
  {
    match w
    case FiveHourWindow =>
    case WeeklyWindow(key) =>
      match key
      case Shared =>
      case Fable =>
      case Sonnet =>
  }

  lemma {:induction false} AllWindows()
    ensures forall w: Window :: w in WINDOWS[..|WINDOWS|]
  {
    assert WINDOWS[0] == FiveHourWindow && WINDOWS[1] == WeeklyWindow(Shared);
    assert WINDOWS[2] == WeeklyWindow(Fable) && WINDOWS[3] == WeeklyWindow(Sonnet);
    forall w: Window
      ensures w in WINDOWS[..|WINDOWS|]
    {
      match w
      case FiveHourWindow =>
      case WeeklyWindow(key) =>
        match key
        case Shared =>
        case Fable =>
        case Sonnet =>
    }
  }

  /** The quota an account holds, as its owner updates it. */
  class Gauge {
    var q: Quota

    constructor (q: Quota)
      ensures this.q == q
    {
      this.q := q;
    }

    /** Drop the windows that have rolled over; whether any had. */
    method ClearRolledOver(now: int) returns (changed: bool)
      modifies this
      ensures forall w: Window :: BucketOf(q, w) == Unrolled(BucketOf(old(q), w), now)
      ensures q.scoped == old(q).scoped && SameHeaders(old(q), q)
      ensures changed <==> exists w: Window :: BucketOf(old(q), w).IsReset(now)
    {
      ghost var was := q;
      changed := false;
      for i := 0 to |WINDOWS|
        invariant forall w: Window ::
                    BucketOf(q, w) == if w in WINDOWS[..i] then Unrolled(BucketOf(was, w), now) else BucketOf(was, w)
        invariant q.scoped == was.scoped && SameHeaders(was, q)
        invariant changed <==> exists w: Window :: w in WINDOWS[..i] && BucketOf(was, w).IsReset(now)
      {
        var w := WINDOWS[i];
        assert WINDOWS[..i + 1] == WINDOWS[..i] + [w];
        if BucketOf(q, w).IsReset(now) {
          q := WithBucket(q, w, EMPTY);
          changed := true;
        }
      }
      AllWindows();
    }

    /** Drop the spent family readings that have gone stale; whether any had. */
    method ClearStale(th: Threshold, now: int, stale: int) returns (changed: bool)
      modifies this
      ensures forall w: Window :: BucketOf(q, w) == FreshIn(w, BucketOf(old(q), w), th, now, stale)
      ensures q.scoped == old(q).scoped && SameHeaders(old(q), q)
      ensures changed <==> exists w: Window :: BucketOf(q, w) != BucketOf(old(q), w)
    {
      ghost var was := q;
      changed := false;
      for i := 0 to |FAMILIES|
        invariant forall w: Window ::
                    BucketOf(q, w)
                    == if w.WeeklyWindow? && w.key in FAMILIES[..i] then FreshIn(w, BucketOf(was, w), th, now, stale)
                       else BucketOf(was, w)
        invariant q.scoped == was.scoped && SameHeaders(was, q)
        invariant changed <==> exists w: Window :: BucketOf(q, w) != BucketOf(was, w)
      {
        var w := WeeklyWindow(FAMILIES[i]);
        assert FAMILIES[..i + 1] == FAMILIES[..i] + [w.key];
        var b := BucketOf(q, w);
        if b.utilization.Some? && b.seenAt.Some? {
          if b.utilization.value >= th.ForBucket(MetricOf(w.key)) && now - b.seenAt.value > stale {
            q := WithBucket(q, w, EMPTY);
            changed := true;
            assert BucketOf(q, w) != BucketOf(was, w);
          }
        }
      }
      assert FAMILIES[..2] == FAMILIES;
    }

    /** Drop the windows that have rolled over and the stale family readings; whether any bucket was dropped. */
    method ClearExpiredWindows(th: Threshold, now: int, stale: int) returns (changed: bool)
      modifies this
      ensures q == ClearExpired(old(q), th, now, stale)
      ensures changed <==> exists w: Window :: BucketOf(q, w) != BucketOf(old(q), w)
    {
      ghost var was := q;
      var rolled := ClearRolledOver(now);
      ghost var unrolled := q;
      var dropped := ClearStale(th, now, stale);
      q := q.(scoped := map k | k in q.scoped && !q.scoped[k].IsReset(now) :: q.scoped[k]);
      changed := rolled || dropped;
      forall w: Window
        ensures BucketOf(q, w) == BucketOf(ClearExpired(was, th, now, stale), w)
        ensures BucketOf(q, w) != BucketOf(was, w)
                <==> BucketOf(was, w).IsReset(now) || BucketOf(q, w) != BucketOf(unrolled, w)
      {
        assert BucketOf(q, w) == FreshIn(w, Unrolled(BucketOf(was, w), now), th, now, stale);
        ClearsEach(was, w, th, now, stale);
      }
      SameQuota(q, ClearExpired(was, th, now, stale));
    }

    /** Take a probe's reading of one window, unless it is of the window held and reads lower. */
    method Take(w: Window, read: Option<Bucket>, now: int)
      modifies this
      ensures q == WithBucket(old(q), w, Merge(BucketOf(old(q), w), read, now))
    {
      var dst := BucketOf(q, w);
      match read {
        case None =>
          SameQuota(q, WithBucket(q, w, dst));
        case Some(b) =>
          if SameWindow(dst.resetAt, b.resetAt) && ReadsLower(dst.utilization, b.utilization) {
            SameQuota(q, WithBucket(q, w, dst));
            return;
          }
          if b.utilization.Some? {
            dst := dst.(utilization := b.utilization, seenAt := Some(now));
          }
          dst := dst.(resetAt := b.resetAt);
          q := WithBucket(q, w, dst);
      }
    }

    /** A family window: when upstream lists the scoped caps, one it does not list has none. */
    method TakeFamily(family: Weekly, read: Option<Bucket>, listed: bool, now: int)
      modifies this
      ensures q == WithBucket(old(q), WeeklyWindow(family),
                              if listed && read.None? then EMPTY else Merge(old(q).WeeklyBucket(family), read, now))
    {
      if listed && read.None? {
        q := WithBucket(q, WeeklyWindow(family), EMPTY);
      } else {
        Take(WeeklyWindow(family), read, now);
      }
    }

    /** Apply a payload of the usage endpoint. */
    method ApplyPayload(u: UsagePayload, now: int)
      modifies this
      ensures q == ApplyUsage(old(q), u, now)
    {
      Take(FiveHourWindow, u.fiveHour, now);
      Take(WeeklyWindow(Shared), u.week, now);
      TakeFamily(Fable, u.fable, u.scopedListed, now);
      TakeFamily(Sonnet, u.sonnet, u.scopedListed, now);
      if u.scopedListed {
        q := q.(scoped := map k | k in u.scoped :: u.scoped[k].(seenAt := Some(now)));
      }
    }
  }

  // ── Windows keep their peak ──────────────────────────────

  /** One probe of a bucket: what it read and when. */
  datatype Reading = Reading(bucket: Bucket, at: int)

  function MergeAll(held: Bucket, probes: seq<Reading>): Bucket
    decreases |probes|
  {
    if probes == [] then held
    else Merge(MergeAll(held, probes[..|probes| - 1]), Some(probes[|probes| - 1].bucket), probes[|probes| - 1].at)
  }

  /** Everything that has been read of the window: what is held, then every probe. */
  function Readings(held: Bucket, probes: seq<Reading>): (all: seq<Bucket>)
    ensures |all| == |probes| + 1
  {
    [held] + seq(|probes|, i requires 0 <= i < |probes| => probes[i].bucket)
  }

  /** Every reading is of the window that resets around the same time. */
  ghost predicate OneWindow(all: seq<Bucket>) {
    && (forall i :: 0 <= i < |all| ==> all[i].utilization.Some? && all[i].resetAt.Some?)
    && (forall i, j :: 0 <= i < |all| && 0 <= j < |all| ==> SameWindow(all[i].resetAt, all[j].resetAt))
  }

  ghost predicate IsPeak(u: Option<real>, all: seq<Bucket>) {
    && u.Some?
    && (forall i :: 0 <= i < |all| ==> all[i].utilization.Some? ==> all[i].utilization.value <= u.value)
    && (exists i :: 0 <= i < |all| && all[i].utilization == u)
  }

  /** Probes of one window leave the highest utilization anyone read, whatever order they came in. */
  lemma {:induction false} WindowKeepsItsPeak(held: Bucket, probes: seq<Reading>)
    requires OneWindow(Readings(held, probes))
    ensures IsPeak(MergeAll(held, probes).utilization, Readings(held, probes))
    ensures exists i :: 0 <= i <= |probes| && MergeAll(held, probes).resetAt == Readings(held, probes)[i].resetAt
    decreases |probes|
  {
    var all := Readings(held, probes);
    if probes == [] {
      assert all[0].utilization == MergeAll(held, probes).utilization;
    } else {
      var n := |probes| - 1;
      var before := Readings(held, probes[..n]);
      assert before == all[..n + 1];
      WindowKeepsItsPeak(held, probes[..n]);
      var m := MergeAll(held, probes[..n]);
      var k :| 0 <= k <= n && m.resetAt == before[k].resetAt;
      var top :| 0 <= top < |before| && before[top].utilization == m.utilization;
      assert SameWindow(all[k].resetAt, all[n + 1].resetAt);
      assert all[n + 1] == probes[n].bucket;
      assert all[top].utilization == m.utilization && all[k].resetAt == m.resetAt;
    }
  }

  /** Two orders of the same probes hold the same utilization. */
  lemma {:induction false} ProbeOrderDoesNotMatter(held: Bucket, probes: seq<Reading>, shuffled: seq<Reading>)
    requires OneWindow(Readings(held, probes))
    requires multiset(probes) == multiset(shuffled)
    ensures MergeAll(held, shuffled).utilization == MergeAll(held, probes).utilization
  {
    var all, mixed := Readings(held, probes), Readings(held, shuffled);
    forall i, j | 0 <= i < |mixed| && 0 <= j < |mixed|
      ensures mixed[i].utilization.Some? && mixed[i].resetAt.Some? && SameWindow(mixed[i].resetAt, mixed[j].resetAt)
    {
      var i' := ReadAlsoIn(held, shuffled, probes, i);
      var j' := ReadAlsoIn(held, shuffled, probes, j);
      assert SameWindow(all[i'].resetAt, all[j'].resetAt);
    }
    WindowKeepsItsPeak(held, probes);
    WindowKeepsItsPeak(held, shuffled);
    var i :| 0 <= i < |all| && all[i].utilization == MergeAll(held, probes).utilization;
    var j :| 0 <= j < |mixed| && mixed[j].utilization == MergeAll(held, shuffled).utilization;
    var i' := ReadAlsoIn(held, probes, shuffled, i);
    var j' := ReadAlsoIn(held, shuffled, probes, j);
  }

  lemma {:induction false} ReadAlsoIn(held: Bucket, probes: seq<Reading>, others: seq<Reading>, i: nat) returns (j: nat)
    requires multiset(probes) == multiset(others) && i <= |probes|
    ensures j <= |others| && Readings(held, others)[j] == Readings(held, probes)[i]
  {
    if i == 0 {
      j := 0;
    } else {
      assert probes[i - 1] in multiset(probes);
      assert probes[i - 1] in others;
      var k :| 0 <= k < |others| && others[k] == probes[i - 1];
      j := k + 1;
    }
  }

  /** A probe pulls the held utilization down exactly when it probes lower and is not of the window held. */
  lemma {:induction false} OnlyANewWindowReadsLower(held: Bucket, read: Bucket, now: int)
    requires held.utilization.Some?
    ensures (Merge(held, Some(read), now).utilization.Some?
             && Merge(held, Some(read), now).utilization.value < held.utilization.value)
            <==> ReadsLower(held.utilization, read.utilization) && !SameWindow(held.resetAt, read.resetAt)
  {
  }
}
