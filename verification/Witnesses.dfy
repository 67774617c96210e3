/** Plain pools, for the lemmas that show a case by example. */
module Witnesses {
  import opened Options
  import opened Quotas
  import opened Sessions
  import opened Accounts

  const NO_QUOTA: Quota := Quota(EMPTY, EMPTY, EMPTY, EMPTY, map[], None, None, None, None, None)

  /** The default threshold, no routes, no ramps, expiry routing as asked. */
  function PlainSettings(expiry: bool): Settings {
    Settings(
      Single(DEFAULT_SWITCH_THRESHOLD), [], StormRamp(false, 0, 0, 0, 0), false, Upstream(0, AnthropicHost),
      0, ExpiryRouting(expiry, 1.0, false), false, 0)
  }

  /** An API key with this shared week and nothing else known about it. */
  function PlainFacts(id: Text, priority: int, week: Bucket): Facts {
    Facts(
      id, id, ApiKey, Anthropic, None, None, None, priority, false, Some(0), None, None, NO_QUOTA.(week := week),
      Active, None, false, None, 0, 0)
  }

  const PLAIN_REQUEST: SelectRequest := SelectRequest(None, None, None, None, {}, false, None)

  /** Such an account can serve while its week is under the threshold. */
  lemma {:induction false} PlainIsEligible(
    expiry: bool, all: seq<Facts>, id: Text, priority: int, week: Bucket, now: int)
    requires week.utilization.Some? ==> week.utilization.value < DEFAULT_SWITCH_THRESHOLD
    ensures Eligible(PlainSettings(expiry), all, PlainFacts(id, priority, week), PLAIN_REQUEST, now)
  {
  }

  /** Two of them are the available accounts, in pool order. */
  lemma {:induction false} PlainPoolIsAvailable(expiry: bool, a: Facts, b: Facts, now: int)
    requires Eligible(PlainSettings(expiry), [a, b], a, PLAIN_REQUEST, now)
    requires Eligible(PlainSettings(expiry), [a, b], b, PLAIN_REQUEST, now)
    ensures Available(PlainSettings(expiry), [a, b], PLAIN_REQUEST, now) == [a, b]
  {
    var cfg, all := PlainSettings(expiry), [a, b];
    hide Eligible;
    assert AvailableFrom(cfg, all, 2, PLAIN_REQUEST, now) == [];
    assert AvailableFrom(cfg, all, 1, PLAIN_REQUEST, now) == [b];
  }
}
