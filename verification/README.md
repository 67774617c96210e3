# Corrall, verified core

Corrall is a proxy that serves many clients from a fleet of subscription
accounts. This project models the parts of it that decide things: which account
serves a request, when an account may take one more, when a request is retried
or given up, when tokens are refreshed and accounts probed, and how transcripts
and streams are read. Each part is a model of the code as it stands, and the
lemmas say what the parts promise together, over every input and every run.

Times are integers (milliseconds; the prober's unit is arbitrary), utilizations
and pressures are reals, ids and names are strings or naturals, and the clock is
a parameter. Code that changes state in place is a class or a method proved
against a specification function, and the theorems are about that function.

## Layout

| file | what it holds |
|---|---|
| `Options.dfy`, `Sequences.dfy` | optional values; concatenation of sequences |
| `Models.dfy` | globs and model families |
| `Quotas.dfy` | thresholds, quota buckets, expiry of windows, merging of probe readings (class `Gauge`) |
| `Sessions.dfy` | the capped session map (class `SessionTracker`) and its load report |
| `Accounts.dfy` | accounts, and why one cannot serve a request |
| `StableSort.dfy`, `Ranking.dfy` | the stable sorts and the four ranking modes |
| `RankingTheorems.dfy`, `SoonestReset.dfy` | who leads in each mode; what the soonest-reset bands measure |
| `Selection.dfy` | selection as a function on states |
| `Fleet.dfy` | the fleet itself (class `Fleet`): selection, admission and probe readings, in place |
| `SelectionTheorems.dfy`, `RoutingTheorems.dfy` | soundness, completeness, stability; priority and band routing |
| `Admission.dfy` | storm ramps, guard counting, overshoot |
| `RampTheorems.dfy` | which choices start which ramp |
| `Witnesses.dfy` | plain pools for the lemmas that show a case by example |
| `Forwarding.dfy` | the request loop against arbitrary outcomes |
| `Refresh.dfy` | token refresh as a protocol of concurrent callers (class `Login`: the critical sections in place) |
| `Probing.dfy` | the probe schedule (class `Prober`) |
| `ToolRepair.dfy` | repair of tool calls and results in a transcript (class `RequestBody`) |
| `Sse.dfy`, `UsageStream.dfy` | the two incremental stream readers (classes `SseParser`, `UsageAccumulator`) |

Where a proof hides names and ends in `return;`, its contract is checked with those names
hidden; at the closing brace every name would be visible again.

## Main results

- **Selection.** Without an explicit pin, an eligible account serves whenever
  there is one, and otherwise only an account its main-model threshold alone
  blocks (`ChoiceIsSoundAndComplete`). Asking again on the state left behind
  gives the same account exactly when the first answer was not a revalidation
  probe (`ChoiceIsStable`). The in-place `Fleet.SelectAccount` computes exactly
  the function these are about.
- **Routing.** Priority wins exactly when the pool leads by priority
  (`PriorityWinsExactly`); soonest-reset routing moves an account exactly when it
  lags by a tier, a day or a quarter of an hour (`MovesOnlyForABand`).
- **Ranking.** In each mode nobody available is preferred to the account that leads
  (`LeastLoadedLeads`, `MostPressureLeads`, `SoonestLeads`), and an account can serve
  exactly when it is healthy and its routes, caps and thresholds admit the request
  (`AvailableExactly`).
- **Refresh.** In every interleaving from a fresh login, a redeemed refresh token is
  sent again exactly if a refresh is sent after a reply was lost
  (`RedeemedIsResentExactlyAfterALoss`), and at most one caller is refreshing
  (`OneRefreshOutstanding`).
- **Request loop.** Whatever selection, upstream and clock answer, the loop ends within
  its limits and its history is lawful (`Forward`). A pinned request never fails over
  (`OnlyARetryGoesOn`), and reaches a second account only where selection answered the
  pin differently after a retry (`PinnedMovesOnlyAfterARetry`).
- **Admission.** The counters are the live guards (`GuardsAreCounted`), a ramp
  bounds concurrency (`RampBoundsConcurrency`), and overshoot is bounded and the
  bound is reached (`OvershootIsBounded`, `OvershootIsReached`).
- **Probing.** Picks are spaced (`PickRateIsBounded`) and phases kept (`PhasesAreKept`).
- **Transcripts and streams.** The one-pass repair is the local filter, leaves
  everything paired and is idempotent; a cut in either stream never shows exactly when
  it leaves no residue over the limit (`CutIsInvisibleExactly` in both).

## Where the code differs from its comments, or from what one would expect

The model follows the code in each of these.

- Expiry routing returns the list unsorted when no account of the best tier has a
  measured pressure (src/manager.rs:1637-1649). Priority then wins only if the pool
  order happens to start with the best tier; `PriorityWinsExactly` is the exact condition
  and `UnmeasuredPoolDoesNotLead` a pool that fails it.
- A revalidation probe is chosen once per floor (src/manager.rs:1991-2018), so the
  second answer differs: `ChoiceIsStable` holds exactly when no probe fires. On unchanged
  readings the send-time re-check (src/proxy/forward.rs:412-416) fails that choice over,
  so the probe is not sent (`SendCheckPassesTheEligibleOnly`).
- A pin bypasses only the main-model threshold (src/manager.rs:1836-1839): an account
  that only its advisor-model threshold blocks is refused (`PinNeverFailsOver`).
- A caller waiting behind a refused refresh sends the same dead token, because the
  re-check under the lock (src/manager.rs:854-862) does not look at it
  (`WaiterResendsTheBuried`, `BuriedTokenIsSentTwice`). Over whole runs that is the only way
  (`BuriedIsResentExactly`), and only for callers who looked before the burial
  (`WaitedThroughTheBurial`).
- The comment on pressure says an account whose reset is unknown never beats a measured
  one (src/manager.rs:1616-1620). It does exactly when its headroom times the seconds the
  other has left exceeds the other's headroom times those of a week
  (`UnknownResetWinsExactly`); `UnknownResetCanWin` is a pool of two available accounts
  it leads.
- A scoped divert restarts the ramp of the account it goes to every time
  (src/manager.rs:1813-1820, `DivertAlwaysRestartsTheRamp`); `RampStartsExactly` says
  which choices start which ramp.
- The comment on the same-account retry speaks of selecting with a pin
  (src/proxy/forward.rs:301-302); the code selects as before and is told of the same
  excluded accounts (`RetryAsksTheSame`). On the state the first choice left, at the same
  time, that choice comes back unless it was a probe (`ChoiceIsStable`); on changed readings
  the retry of an unpinned request may land elsewhere (`RetryMayLandElsewhere`).
- The refresh client sends a refresh up to three times (src/oauth.rs:96-135) without
  knowing whether the first was redeemed; after a lost reply that resends a redeemed
  token, and no refresh of the account succeeds again (`LostReplyIsResent`,
  `LossIsForGood`).
- A reload that brings back an account while its guards are alive breaks the count
  (`ReloadKeepsCountsExactly`, over whole runs `CountedExactly`); `ReloadForgetsAGuard` is
  such a run.
- Sessions are recorded under the model family's bucket (src/manager.rs:1270-1273) but
  looked up under the route's bucket override (src/manager.rs:1864-1865), so an override
  can lose affinity: `AnswererIsFoundExactly` says when, and `OverrideLosesASession` is a
  session it happens to.
- A data line longer than the line limit is lost or kept depending on where the stream
  is cut (`OverlongLineIsLost`), and one that ends in a carriage return loses it
  (`DataLineExactly`).

## Assumptions

- Account ids in a pool are distinct, as src/config.rs:657-673 makes them.
- Refresh protocol: the provider rotates the refresh token, moves the expiry forward and
  does not answer a refresh it has already redeemed; no caller is cancelled mid-refresh;
  nobody logs in again from outside; the account is not linked to another program's file.
  Replies may be lost.
- The soonest-reset results need every time to fit 64-bit milliseconds on a clock past
  1970 (`Representable`).
- The iteration order of a session's pins is arbitrary but fixed for the session.

## Model

| member | source | states |
|---|---|---|
| Models.GlobDecidesLanguage | src/model.rs:64-77 | a glob matches a text exactly when the text is, up to case, the glob with each star replaced by some string |
| Models.MatchIsFilling | src/model.rs:65-75 | soundness half: from a match the strings that fill the stars can be read off |
| Models.FillingMatches | src/model.rs:65-75 | completeness half: whatever fills the stars, the result is matched |
| Models.GlobSplits | src/model.rs:64-77 | two globs in a row match exactly the texts some cut of which is matched part by part |
| Quotas.Threshold.ForBucket | src/config.rs:96-101 | a switch threshold is what is configured for the bucket, its own entry before the default one and brought into [0, 1], or the usual one |
| Quotas.Threshold.CapFor | src/config.rs:104-109 | a cap is what is configured for the bucket, its own entry before the default one and brought into [0, 1], and there is none exactly when a table has neither |
| Quotas.ClearedWindowsAreRunning | src/quota.rs:107-135 | after clearing every window still held ends in the future, and clearing again changes nothing |
| Quotas.Gauge.ClearRolledOver | src/quota.rs:109-115 | the pass over the four windows drops exactly those that have rolled over, and reports whether any had |
| Quotas.Gauge.ClearStale | src/quota.rs:116-126 | the pass over the family windows drops exactly the spent, stale readings, and reports exactly whether a bucket changed |
| Quotas.Gauge.ClearExpiredWindows | src/quota.rs:107-135 | both passes and the scoped windows together are the function the theorems are about; the report is true exactly when one of the four buckets changed |
| Quotas.Gauge.Take | src/quota.rs:200-213 | one reading is merged into its own window and no other |
| Quotas.Gauge.ApplyPayload | src/quota.rs:199-234 | a payload is merged window by window; a family upstream does not list is emptied |
| Quotas.WindowKeepsItsPeak | src/quota.rs:199-213 | probes of one window leave the highest utilization anyone read, and a reset somebody read |
| Quotas.ProbeOrderDoesNotMatter | src/quota.rs:199-213 | two orders of the same probes of one window hold the same utilization |
| Quotas.OnlyANewWindowReadsLower | src/quota.rs:190-213 | a probe lowers the held utilization exactly when it reads lower and is not of the window held |
| Sessions.TallyPins | src/session.rs:190-198 | an account's tally rises once however many buckets of the session name it |
| Sessions.CountSession | src/session.rs:180-199 | one turn of the count: known, active and per-account tallies all take the session in exactly once |
| Sessions.Stats | src/session.rs:178-201 | the report counts each active session once per distinct pinned account, and the unfinished requests of each known one |
| Sessions.SessionTracker.FindLongestIdle | src/session.rs:93-97 | the session evicted is idle and no idle one was seen earlier; there is none exactly when all are busy |
| Sessions.SessionTracker.Ensure | src/session.rs:87-106 | making room is one step of the relation: keep, insert, sweep and insert, evict and insert, or refuse |
| Sessions.SessionTracker.BeginRequest | src/session.rs:108-116 | beginning a request is one step of the relation |
| Sessions.SessionTracker.EndRequest | src/session.rs:118-126 | ending a request is one step of the relation, with the sweep when it is due |
| Sessions.SessionTracker.TouchSession | src/session.rs:129-137 | recording a pin is one step of the relation |
| Sessions.SessionTracker.RecordTokens | src/session.rs:149-161 | a usage report shows an existing session alive, makes no new one, and is one step of the relation |
| Sessions.SessionTracker.RemapAccounts | src/session.rs:163-167 | exactly the pins of live accounts are kept |
| Sessions.SessionTracker.SweepNow | src/session.rs:169-172 | exactly the busy and the recently seen sessions are kept |
| Sessions.CapHolds | src/session.rs:87-172 | in every run of the tracker's calls, from a map within the cap, the map stays within it |
| Sessions.EnsureCap | src/session.rs:89-104 | making room never leaves more than the cap |
| Sessions.UnfinishedIsNeverForgotten | src/session.rs:87-172 | in every run a session with an unfinished request is never removed, and its count is the requests begun and not ended |
| Sessions.BusyEnsure | src/session.rs:90-97 | neither the sweep nor the eviction touches a busy session |
| Accounts.AvailableExactly | src/manager.rs:1560-1611 | an account can serve exactly when it is healthy and routes, caps and thresholds admit both the model and the advisor; the main-model threshold is its reason exactly when nothing harder is in the way |
| Accounts.CappedExactly | src/manager.rs:1496-1523 | no cap is reported exactly when the 5h, shared-week, own-week and token readings are all under the account's own caps |
| Accounts.NearExactly | src/manager.rs:1525-1552 | no threshold is reported exactly when, open requests added to the windows, 5h, both weeks, tokens and requests are all under theirs; both weeks are held to the model's |
| Accounts.AvailableHasSnapshot | src/manager.rs:1702-1722 | an account that is available, or blocked by the main-model threshold alone, can always be handed out |
| Accounts.FindIsPosition | src/manager.rs:1450-1452 | with distinct ids, looking an account up by id finds its own position |
| StableSort.SortIsStable | src/manager.rs:1764-1791 | the sort is a permutation into key order that keeps ties in the order they came |
| Ranking.BandKeepsTheTop | src/manager.rs:1636-1661 | expiry routing never empties the list or drops the best tier, and leads with it when the tier has a measured account |
| Ranking.PeakStaysInBand | src/manager.rs:1649-1652 | the account with the tier's peak pressure is within the tolerance of itself, so it stays |
| Ranking.RankedIsSound | src/manager.rs:1729-1791 | in all four modes the ranking is empty only for an empty pool, invents nobody, and leads with a best-priority account when it orders by priority; otherwise it is the pool order |
| Ranking.SoonestWeek | src/manager.rs:86-90 | the soonest weekly reset of a tier: below every member's and equal to one, or unknown |
| Ranking.SoonestFiveHours | src/manager.rs:92-96 | the soonest 5h deadline of a weekly band, likewise |
| RankingTheorems.LeastLoadedLeads | src/manager.rs:1764-1791 | by default nobody available beats the head on tier, then load, then weekly reset |
| RankingTheorems.MostPressureLeads | src/manager.rs:1636-1661 | with expiry routing on and the best tier measured, nobody available beats the head on tier, then never having been read, then pressure, though the band drops accounts before it sorts |
| RankingTheorems.SoonestLeads | src/manager.rs:1729-1749 | with soonest-reset routing on nobody left by the default order or the band beats the head on place, then load, then weekly reset, then 5h deadline |
| RankingTheorems.UnknownResetWinsExactly | src/manager.rs:1616-1634 | an account with no known reset outranks a measured one whose reset is to come exactly when its headroom times the seconds the other has left exceeds the other's headroom times the seconds of a week |
| RankingTheorems.UnknownResetCanWin | src/manager.rs:1616-1661 | two available accounts of one tier, the measured one nine tenths spent with a week to go, whose ranking the one with no known reset leads |
| SoonestReset.WeeklyBandsKeepOrder | src/manager.rs:85-91 | within a tier bands follow the resets, and the soonest known reset is band 0 |
| SoonestReset.FiveHourBandsKeepOrder | src/manager.rs:92-101 | within a weekly band the 5h bands follow the deadlines, and the soonest is band 0 |
| SoonestReset.BandsMeasureLag | src/manager.rs:84-103 | somebody sits in an earlier band exactly when the account is in a worse tier, a day behind its tier's week or with none known, or a quarter of an hour behind its weekly band |
| SoonestReset.SamePlace | src/manager.rs:84-103 | an account's place depends on who is in the pool, not on its order |
| SoonestReset.HeadIsSoonest | src/manager.rs:1729-1749 | with soonest-reset routing on and expiry off nobody sits in an earlier band than the head |
| Selection.ProbeIsSoonest | src/manager.rs:1993-2009 | the probe is probeable, resets no later than any other and sooner than any before it; there is one if any is probeable |
| SelectionTheorems.ClearingIsIdempotent | src/manager.rs:1686-1700 | clearing expired windows and holds twice at one time is clearing once |
| SelectionTheorems.BestIsEligible | src/manager.rs:1729-1749 | there is a best account exactly when someone is eligible, and it is one of them |
| SelectionTheorems.ChoiceIsSoundAndComplete | src/manager.rs:1828-2023 | without an explicit pin an eligible account serves if there is one; otherwise a probeable one if revalidation is allowed and there is one; otherwise the pool is exhausted |
| SelectionTheorems.NobodyProbes | src/manager.rs:1989-2023 | with nobody available the probe goes to a probeable account and is stamped on it, or the pool is exhausted |
| SelectionTheorems.PinNeverFailsOver | src/manager.rs:1831-1845 | a pin serves with its own account unless something harder than the main-model threshold blocks it, and never with another |
| SelectionTheorems.ChosenIsAllowed | src/manager.rs:1828-2023 | an unpinned choice is never an excluded account, and a pinned one is the account the pin names |
| SelectionTheorems.SubscriptionStaysHome | src/manager.rs:358-377 | a subscription token is only ever handed out for its own provider's host or the local machine |
| SelectionTheorems.ReportIsSoonest | src/manager.rs:2030-2056 | the exhaustion report finds exactly whether a quota or rate limit holds somebody back, and the soonest recovery still to come |
| SelectionTheorems.RetryAfterExactly | src/manager.rs:2030-2057 | a time to retry is given exactly when a quota or rate limit holds somebody back: the seconds to the soonest recovery within five seconds and an hour, or sixty when none is known |
| SelectionTheorems.AnswererIsFoundExactly | src/manager.rs:1862-1873 | for every session, the account that answered is found for its next request of the model exactly when route and family agree on the bucket, or the route's bucket names it already, or is unpinned and the pin that will do instead is the account's |
| SelectionTheorems.FirstAnswerIsFoundExactly | src/manager.rs:1862-1873 | a session's first account is found for its next request of the model exactly when route and family agree on the bucket or sessions are distributed |
| SelectionTheorems.OverrideLosesASession | src/manager.rs:1862-1873 | a configuration, for any model and any override of its bucket, under which a new session is found where it was answered while sessions are distributed, and nowhere while they are not |
| SelectionTheorems.PinNamesOneAccount | src/manager.rs:1832-1845 | while no account of the pool changes its names, every selection a pin gets an account from gives it the same one |
| SelectionTheorems.SendCheckPassesTheEligibleOnly | src/proxy/forward.rs:412-416 | on the readings it was chosen by, an unpinned choice passes the check before sending exactly when somebody was eligible, so a revalidation probe never does |
| SelectionTheorems.ChoiceIsStable | src/manager.rs:1813-2023 | selecting again on the state left behind gives the same choice and cursor exactly when the first answer was not a probe |
| SelectionTheorems.ProbeIsNotRepeated | src/manager.rs:1991-2018 | an account just probed is not probed again within the floor, so the second answer differs |
| SelectionTheorems.NobodyAgain | src/manager.rs:1989-2023 | with nobody available a second call repeats the answer exactly when it was not a probe, and never moves the cursor |
| SelectionTheorems.BestIsKept | src/manager.rs:1920-1985 | once the cursor is on the best account the same request comes back to it |
| SelectionTheorems.DivertIsKept | src/manager.rs:1965-1976 | a diverted request is diverted again, to the same account, with the cursor still in place |
| SelectionTheorems.ConfirmingSettles | src/manager.rs:1665-1684 | noting an account's window as the baseline makes it count as not rolled over |
| RoutingTheorems.PriorityWins | src/manager.rs:1828-2023 | while the pool leads by priority every stage serves with an account of least priority number among the eligible |
| RoutingTheorems.PriorityWinsExactly | src/manager.rs:1636-1661 | priority wins from every cursor and session map exactly when expiry routing is off, or soonest-reset is on, or the best tier has a measured account, or the first available account is of that tier |
| RoutingTheorems.UnmeasuredPoolDoesNotLead | src/manager.rs:1637-1649 | a pool of two available accounts that fails the condition: the one of the worse tier serves |
| RampTheorems.RampStartsExactly | src/manager.rs:1793-1826 | a choice starts the ramp of exactly the best account it comes down to, when the cursor is not on it, or when a new session lands on it cold; every other ramp is untouched |
| RampTheorems.DivertAlwaysRestartsTheRamp | src/manager.rs:1965-1976 | a request diverted off the cursor's account starts the ramp of the account it goes to, running or not, leaves the cursor, and so does it again the next time |
| RoutingTheorems.WhoServes | src/manager.rs:1862-1987 | past the pins a choice is the session's account, the cursor's, or the best, and the first two only while nothing preempts them |
| RoutingTheorems.LeavingMeansLagging | src/manager.rs:1751-1758 | an account loses its request only to a rollover or because it lags |
| RoutingTheorems.LaggingMeansLeaving | src/manager.rs:1751-1758 | with expiry routing off an account that lags does lose its request, to somebody else |
| RoutingTheorems.MovesOnlyForABand | src/manager.rs:1751-1964 | an available account the request sits on keeps it unless it lags, and with expiry routing off exactly unless it lags |
| FleetState.Fleet.ClearExpiredAll | src/manager.rs:1686-1700 | the in-place pass leaves every account as the clearing function says, and ids distinct |
| FleetState.Fleet.SoonestResetPreempts | src/manager.rs:1751-1758 | computes exactly whether the best account sits in an earlier band than the current one |
| FleetState.Fleet.KeepsRequest | src/manager.rs:1874-1886 | computes exactly whether nothing takes the request off an account |
| FleetState.Fleet.TrySession | src/manager.rs:1862-1918 | the affinity stage: its answer and the state it leaves are those of the decision, or it changes nothing and the request falls through |
| FleetState.Fleet.TryCursor | src/manager.rs:1920-1977 | the cursor stage: its answer and the state it leaves are those of the decision, or it only drops the requalify mark |
| FleetState.Fleet.Divert | src/manager.rs:1965-1976 | the diverting branch: another account serves, and the cursor follows unless only this request is barred |
| FleetState.Fleet.FindProbe | src/manager.rs:1993-2009 | the one pass over the accounts finds the probe the specification picks |
| FleetState.Fleet.ExhaustedInfo | src/manager.rs:2030-2057 | the one pass over the accounts collects every reason and the soonest recovery |
| FleetState.Fleet.SelectAccount | src/manager.rs:1828-2023 | the six stages in place compute the choice and leave the state of the selection function, with ids still distinct |
| FleetState.Fleet.TryAdmitOn | src/manager.rs:2059-2083 | admission in place changes one account's gate as the gate function says; an unknown account is always admitted |
| FleetState.Fleet.Release | src/manager.rs:807-813 | dropping a slot lowers one account's in-flight count, never below zero, and nothing else |
| FleetState.Fleet.OpenOn | src/manager.rs:787-794 | sending a request raises one account's open count and nothing else |
| FleetState.Fleet.CloseOn | src/manager.rs:2330-2338 | ending a body lowers one account's open count, never below zero, and nothing else |
| FleetState.Fleet.ApplyProbe | src/manager.rs:1075-1101 | a probe reading changes that account alone, and reports exactly whether it lifted a hold |
| FleetState.ProbeLiftsOnlyQuotaHolds | src/manager.rs:1075-1101 | a hold that is not a quota hold is untouched, a hold ends exactly when the probe reports lifting it, and only once the merged reading is under every threshold |
| Admission.ReloadKeepsCountsExactly | src/manager.rs:570-664 | a reload keeps the counts right exactly when it brings back no account whose guards are alive |
| Admission.CountedExactly | src/manager.rs:570-813 | of all runs exactly those whose reloads bring back no account with live guards keep the counts right throughout |
| Admission.ReloadForgetsAGuard | src/manager.rs:570-664 | a run from an idle account, whatever the ramp: its admitted request is no longer counted once it has left the configuration and come back |
| Admission.GuardsAreCounted | src/manager.rs:776-813 | in every run without such a reload `in_flight` equals the live slots and `open` the live open guards of each account |
| Admission.AdmitsWithinCap | src/manager.rs:2059-2083 | one attempt inside a running ramp leaves the account within the cap of its time, or as it was |
| Admission.RampBoundsConcurrency | src/manager.rs:2059-2083 | over every run of one ramp the in-flight count stays within the start plus the steps elapsed, or what it carried before |
| Admission.WindowEndAdmitsAll | src/manager.rs:2066-2071 | past the window of a ramp no one restarts every waiter is admitted |
| Admission.WaitsExactlyInAFullRamp | src/manager.rs:2059-2083 | a request waits exactly when a ramp is running and full, and an admission is counted once |
| Admission.OvershootIsBounded | src/manager.rs:1525-1533 | in every reachable state the open requests, less those between the check and the count, stay under the 5h threshold |
| Admission.OvershootIsReached | src/manager.rs:787-800 | the bound is tight: whatever open count still passes, as many more as may be in between can be open at once |
| Admission.FewerOpenStaysAvailable | src/manager.rs:1525-1552 | closing requests never makes an available account unavailable, for any model, advisor and provider |
| Forwarding.Judge | src/proxy/forward.rs:223-304 | after an attempt either the request is within all limits and may go on, a pinned one only to a retry, or a limit is reached and the reply is the one that limit and outcome call for |
| Forwarding.AttemptRound | src/proxy/forward.rs:221-304 | a round that attempts appends its selection and attempt, keeps the loop's variables what the history adds up to, and leaves the request being served, never after a pinned failover, or over |
| Forwarding.EmptyRound | src/proxy/forward.rs:180-218 | a round that selects nobody is held and starts afresh exactly when it is exhausted and may wait, and otherwise ends the request |
| Forwarding.Forward | src/proxy/forward.rs:165-305 | for any answers from selection, upstream and clock the loop ends with a lawful history of just those answers, within the limits on selections, retries, hops and failed-over accounts, with the reply its last event calls for; an exhausted selection ends it only when it may not be held |
| Forwarding.HoldsAreBounded | src/proxy/forward.rs:192-201 | every hold lasts two to thirty seconds and takes a selection of its own, so a request is held thirty seconds a selection at the most |
| Forwarding.NothingHeldUnconfigured | src/proxy/forward.rs:146-201 | with no hold configured nothing is held |
| Forwarding.NothingFollowsAnAnswer | src/proxy/forward.rs:223-286 | an attempt that answered the client is the last event of every lawful history |
| Forwarding.OnlyARetryGoesOn | src/proxy/forward.rs:228-256 | a pin never fails over: of a pinned request's attempts only one to be tried again is followed by anything |
| Forwarding.PinnedMovesOnlyAfterARetry | src/proxy/forward.rs:228-302 | a pinned request reaches a second account only where, after a retry and before any other attempt, selection answered the pin with another one |
| Forwarding.ReachesOnlyTheSelected | src/proxy/forward.rs:170-223 | a request whose selections all hand out one account only ever reaches that one |
| Forwarding.RetryAsksTheSame | src/proxy/forward.rs:170-302 | after an attempt to be tried again, if the request goes on, selection is asked again and told of exactly the excluded accounts it was told of before |
| Forwarding.RetryMayLandElsewhere | src/proxy/forward.rs:287-302 | answers under which an unpinned request retries on one account and is served by another |
| Forwarding.FailedOverIsNotRetried | src/proxy/forward.rs:175-248 | an account failed over is not attempted again before a hold clears the set |
| Refresh.Login.Look | src/manager.rs:824-847 | the first look marks the account and queues the caller exactly as the protocol's first step does |
| Refresh.Login.LookAgain | src/manager.rs:853-866 | the second look sends the token held now exactly when it is still stale, judged by the token read for a forced refresh and by the expiry otherwise |
| Refresh.Login.Adopt | src/manager.rs:874-892 | taking the provider's answer is the protocol's update step |
| Refresh.Login.BuryToken | src/manager.rs:924-933 | a refusal buries the token exactly as the protocol's step does |
| Refresh.Login.Reconcile | src/manager.rs:610-632 | a reload takes the file's credential when it differs and is not older, and asks for a recheck exactly then |
| Refresh.RedeemedIsResentExactlyAfterALoss | src/manager.rs:820-938 | in every interleaving of callers, provider answers, lost replies, retries, persists and reloads from a fresh login, a redeemed refresh token is sent exactly if a refresh is sent after a reply was lost |
| Refresh.RedeemedIsNeverResent | src/manager.rs:820-938 | while every redeemed refresh is answered, no redeemed refresh token is ever sent |
| Refresh.SendsTheRedeemedExactlyWhenLost | src/oauth.rs:96-135 | what is sent, first or again, is memory's token, so it is a redeemed one exactly when a reply was lost |
| Refresh.LostReplyIsResent | src/oauth.rs:96-135 | a run from a fresh login in which the client's own retry sends a redeemed token |
| Refresh.LossIsForGood | src/manager.rs:868-936 | after a lost reply no refresh of the account is ever granted again, whoever tries |
| Refresh.StepKeepsInv | src/manager.rs:820-938 | each step keeps the lock with its holder, the holder on memory's token and the file no newer than memory, and only a lost reply, which nothing mends, leaves memory with a spent token |
| Refresh.OneRefreshOutstanding | src/manager.rs:850-868 | in every reachable state at most one caller awaits a refresh or is about to send it again |
| Refresh.ReloadKeepsTokens | src/manager.rs:618-632 | a reload never changes the tokens in memory, so it cannot undo a refresh |
| Refresh.RestartIsSafeExactlyWhenSaved | src/manager.rs:888-918 | a restart from the file finds a live token exactly when the last refresh was written to it and no reply was lost |
| Refresh.WaitersCoalesce | src/manager.rs:850-864 | a waiter that gets the lock after a peer's refresh sends nothing, unless it is unforced and the new token is about to expire |
| Refresh.BuriedIsNotReadAgain | src/manager.rs:831-837 | a caller that starts after a token was refused does not send it |
| Refresh.WaiterResendsTheBuried | src/manager.rs:851-864 | a caller already waiting goes on to send the refused token exactly when it still looks stale |
| Refresh.BuriedIsResentExactly | src/manager.rs:820-938 | in every interleaving from a fresh login a refused and buried token is sent, first or again, exactly if some caller's second look finds it still stale and that caller gets to send |
| Refresh.WaitedThroughTheBurial | src/manager.rs:824-864 | in every reachable state a caller queued while the token held is a buried one looked before some burial: who looks later is turned away |
| Refresh.BuriedTokenIsSentTwice | src/manager.rs:851-932 | a run from a fresh login in which a refused token is sent a second time |
| Probing.Prober.ClaimDue | src/prober.rs:162-197 | the claim changes one pool's table as the tick says, hands out exactly the picked accounts and the earliest booking, and switching probing off forgets the pool |
| Probing.Prober.BackOff | src/prober.rs:206-212 | backing off sets one pool's not-before time, within its bounds, and nothing else |
| Probing.Earliest | src/prober.rs:196-202 | a booked time no other precedes, or none when nothing is booked |
| Probing.ClaimIsExact | src/prober.rs:162-197 | after a claim exactly the pool's accounts are booked, all strictly ahead; exactly the overdue, unbooked and re-checked were picked, once each; no other booking moved |
| Probing.PickRateIsBounded | src/prober.rs:162-212 | however late the ticks and whatever the back-off an account's k-th pick, counting from 0, comes no earlier than k intervals after its first |
| Probing.FirstTickSpreads | src/prober.rs:184-186 | the first tick books account i of n at its own i/n share of the interval |
| Probing.PhasesAreKept | src/prober.rs:162-197 | over whole runs of timely ticks each account stays booked on the next turn of its own phase |
| Probing.SlippedRestarts | src/prober.rs:180-183 | a due account keeps its phase exactly while its booking has slipped less than an interval, and otherwise restarts from now |
| ToolRepair.RequestBody.SanitizeToolPairs | src/proxy/body.rs:82-158 | the messages become the local filter of what they were, and the result says exactly whether anything changed |
| ToolRepair.OnePass | src/proxy/body.rs:86-156 | looking forward in the input and backward in the output computes the filter that looks at the input on both sides |
| ToolRepair.BackwardLookAgrees | src/proxy/body.rs:118-146 | looking back at the last message kept repairs a message as its input neighbour would |
| ToolRepair.SurvivesExactly | src/proxy/body.rs:82-158 | a call survives exactly if the next input turn answers it, a result exactly if the previous one asked for it, every other block always |
| ToolRepair.ChangedExactly | src/proxy/body.rs:82-158 | the repair changes the transcript exactly when it changes some message |
| ToolRepair.RepairedIsPaired | src/proxy/body.rs:82-158 | afterwards every call and result is paired with its neighbour, whichever turns were deleted in between |
| ToolRepair.RepairLeavesThePaired | src/proxy/body.rs:82-158 | a transcript is left alone exactly when it is paired |
| ToolRepair.RepairIsIdempotent | src/proxy/body.rs:82-158 | repairing a repaired transcript changes nothing |
| Sse.SseParser.FeedBytes | src/attach.rs:294-317 | appending a chunk and draining its lines is the byte-at-a-time reference, with an overlong residue dropped |
| Sse.CutIsInvisibleExactly | src/attach.rs:294-317 | a cut never shows, whatever follows, exactly when the part before it leaves no residue over the limit: neither in the events and the state, nor in the values handed out by any parser that reads numbers as JSON does |
| Sse.OverlongCutShows | src/attach.rs:294-317 | behind any residue over the limit a number is read differently or not at all, by any parser that reads numbers as JSON does |
| Sse.ChunkInvariant | src/attach.rs:294-317 | feeding a then b gives the events and state of feeding them joined, when a leaves no overlong residue |
| Sse.AnyChunking | src/attach.rs:294-317 | so does any number of chunks |
| Sse.ResidueIsBounded | src/attach.rs:297-315 | the residue never holds a newline and never exceeds the limit |
| Sse.DataLineExactly | src/attach.rs:299-310 | a printed data line is read back as it was exactly when it does not end in a carriage return |
| Sse.PrintedIsReadBack | src/attach.rs:294-317 | events printed as data lines and a blank line, with either line ending, are read back text for text with nothing left over |
| Sse.RoundTrip | src/attach.rs:294-317 | printing, cutting into chunks that leave no overlong line, and feeding returns the events |
| Sse.OverlongLineIsLost | src/attach.rs:312-315 | the family the limit cuts off: such a line is lost if a chunk ends just after it and read if none does |
| UsageStream.UsageAccumulator.Event | src/proxy/forward.rs:749-768 | the lines of one event are merged in order |
| UsageStream.UsageAccumulator.Feed | src/proxy/forward.rs:732-741 | appending a chunk and draining at blank lines is the byte-at-a-time reference, with an overlong residue dropped |
| UsageStream.UsageAccumulator.Flush | src/proxy/forward.rs:743-747 | what is left over is merged as the last event |
| UsageStream.AnyChunking | src/proxy/forward.rs:732-741 | any chunking without an overlong residue merges the events of the whole stream and leaves its tail |
| UsageStream.CutIsInvisibleExactly | src/proxy/forward.rs:732-747 | a cut that leaves no residue over the limit never shows in the usage, whatever is read off lines and whatever follows; for every reader that takes different numbers for one key from two lines it never shows exactly then |
| UsageStream.OverlongCutShows | src/proxy/forward.rs:737-747 | behind any residue over the limit a last line is lost that a cut would have saved, for every such reader |
| UsageStream.ResidueHasNoPair | src/proxy/forward.rs:732-741 | the residue never holds a blank line |
| UsageStream.MergedIsLast | src/proxy/forward.rs:749-768 | each key holds the last number the events gave it |
| UsageStream.StreamedUsageIsLast | src/proxy/forward.rs:732-772 | for any such chunking, feeding and flushing yields for each key the last number in the stream |

## Left out

- HTTP, TLS, certificates, WebSocket relay, OAuth login flows, the dashboard and the terminal UI: input and output over libraries.
- Parsing of headers, JSON, URLs and configuration: parsed values are inputs, and JSON parsing is an arbitrary function.
- `src/proxy/server.rs` is not part of this model.
- Response headers feeding quota buckets (`apply_headers`), the unified status and spend fields: easy overwrites.
- Sessions.SessionTracker.RecordTokens: leaves out the token totals of a session, which are only shown.
- Command line, configuration files, file locking, updates, status rendering, log text and usage totals. A reason for unavailability is a datatype that keeps the order of the tests and the distinction the code reads off its text.
- Floating point rounding, infinities and not-a-number; 64-bit overflow; UTF-8 decoding (bytes are characters, lossy decoding is not modelled).
- Linked accounts, cancellation of a refresh, and a provider that answers a refresh it has already redeemed: assumptions of `Refresh.dfy`. The pauses between the refresh client's sends are left out, and a Codex client, which sends once, is one that gives up at the first lost reply.
- Refresh.RedeemedIsResentExactlyAfterALoss: covers one account, whose lock is its own; what a refresh does to other fields of the account, and the fleet's other critical sections between its steps, do not touch the tokens and are left out.
- Forwarding.Forward: selection is any function, which unpinned excludes what it is told to exclude as `SelectionTheorems.ChosenIsAllowed` proves of the fleet's, and an attempt any outcome; what an attempt does to the fleet is not tied to the next selection. Logging, notifications and failure counters are left out.
- Admission.OvershootIsBounded: for unpinned requests on a fixed 5h reading and fixed settings, as the check is skipped for pinned ones.
- Models.GlobDecidesLanguage: on characters, with ASCII case folding; the code works on bytes.
- The fields of an account are grouped into what only reading changes and what selection marks; linked-file, profile and expiry-warning fields are left out.
- The order in which a hash map lists its sessions or accounts is arbitrary in the model wherever the code's result does not depend on it; the eviction takes any of several equally idle sessions.
