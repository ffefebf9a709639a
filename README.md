# Arbitrage scanner core, modelled in Dafny

The scanner serves, one at a time, football-betting arbitrage opportunities.
Each match has Home, Draw and Away odds from several bookmakers. For one
match, the **arbitrage selector** (`find_best_arb`) tries every ordered
triple of three different bookmakers, one for each outcome. A triple is an
arbitrage when its implied probabilities `1/h + 1/d + 1/a` sum below one.
The selector keeps the most profitable arbitrage that earns at least 0.5 %
and whose rounded stakes, out of a 5250 bankroll, are all at most 3000.

Around the selector sits the **daily log** (`DAILY_LOG`). It records
today's date, how many opportunities were handed out, the id of the last
match handed out and the list of those ids. A query (`next_arb_opportunity`)
first rolls the log over to today. It then stops at the daily limit of 12.
Otherwise it hands out the first match, in list order, whose id is above the
last one sent, that was not sent yet and that has an arbitrage, and commits
it to the log. An operator reset (`reset_daily`) empties the log.

Files:
- `arbitrage.dfy` (module `Arbitrage`): matches, quotes, legs and
  opportunities as datatypes. The selector is the method `FindBestArb`, with
  the source's three nested loops. It is proved against the predicate
  `BestArb`, which is defined from `Qualifies`, `IsBest` and `Build`.
  Lemmas cover the shape of the answer, equal payout, the rounded profit
  and uniqueness.
- `quota.dfy` (module `Quota`): the log as the class `DailyLog`, with the
  fields the source mutates and one method per operation. The pure
  transitions `RollOver` and `Commit` act on the snapshot `LogState`.
  `Invariant` is the property that every reachable log satisfies.

Odds and stakes are exact `real`s. `Round2` rounds to two decimals, half up.
The date is an opaque string parameter `today`. The match list is a
parameter of `NextArbOpportunity`.

## Model

| member | source | states |
|---|---|---|
| `Arbitrage.FindBestArb` | app.py:85-131 | The result is None exactly when no triple qualifies. A triple qualifies when it has three different bookmakers, an index below 1, a profit of at least 0.5 % and every rounded stake at most 3000. Otherwise the result is the opportunity built from the qualifying triple of greatest profit; among equal profits, the one visited first in h→d→a order wins. |
| `Arbitrage.Visit` | app.py:95-130 | One pass of the innermost loop body keeps the search invariant. Every earlier qualifying triple has profit at most the maximum so far. The kept triple is strictly better than every qualifying triple before it. A triple over the stake cap is skipped and leaves the maximum unchanged. |
| `Arbitrage.Step` | app.py:105-118 | Both outcomes of visiting a triple preserve the search invariant. Keeping the state is safe when the triple does not qualify or is no better. A strictly better qualifying triple becomes the best. |
| `Arbitrage.SearchDone` | app.py:92-131 | Once every triple has been visited, the search state meets `BestArb`. |
| `Arbitrage.ReturnedLegs` | app.py:92-130 | A returned opportunity carries the match's id, teams, league and time. It has three legs, Home, Draw and Away, at three pairwise different bookmakers. Each leg's odd is the one its bookmaker quotes for that outcome. Every stake is at most 3000 and the profit is positive. |
| `Arbitrage.ReturnedProfitRoundTrip` | app.py:102-124 | Recomputing the implied-probability sum from the returned legs' odds gives a value strictly between 0 and 1. The reported profit is within 0.005 of the profit that value implies. |
| `Arbitrage.EqualPayout` | app.py:110-112 | Before rounding, each leg's stake times its odd equals `STAKE_PER_ARB / index`, so every outcome pays the same. The three stakes sum to `STAKE_PER_ARB`. |
| `Arbitrage.Round2` | app.py:110-112 | Rounding to two decimals moves a value by at most 0.005. |
| `Arbitrage.ProfitPercent` | app.py:105-106 | For a positive index, the profit is positive if and only if the index is below 1. |
| `Arbitrage.Stake` | app.py:110-112 | An unrounded stake is positive. Times its odd, it equals `STAKE_PER_ARB / index`, the payout if that outcome wins. |
| `Arbitrage.BestArbUnique` | app.py:108-118 | At most one answer satisfies `BestArb`. The strict comparison with the maximum so far makes the result a function of the match. |
| `Arbitrage.BeforeTotal` | app.py:92-94 | Any two distinct triples are ordered by the nested-loop visiting order. |
| `Arbitrage.FewerThanThreeBookmakers` | app.py:92-96 | With fewer than three quotes no triple qualifies, so None is the answer. In the source quotes are keyed by bookmaker name, so this is fewer than three bookmakers. |
| `Arbitrage.ArbIndex` | app.py:102 | The implied-probability sum of positive odds is positive. |
| `Arbitrage.Qualifies` | app.py:96-116 | Defines the acceptance condition of one triple. It needs three different bookmakers, an index below 1, a profit of at least 0.5 % and all three rounded stakes at most 3000. Its properties are in `QualifyingPaysMore`, `ReturnedLegs` and `FindBestArb`. |
| `Arbitrage.QualifyingPaysMore` | app.py:105-112 | On a qualifying triple, each unrounded stake times its odd exceeds the 5250 bankroll. Every outcome therefore wins money. |
| `Arbitrage.Build` | app.py:110-130 | Defines the opportunity reported for a triple. It carries the match's fields and the profit rounded to two decimals. Its legs are Home, Draw and Away, each with its bookmaker, odd and rounded stake. Its properties are in `BuildRoundTrip`. |
| `Arbitrage.BuildRoundTrip` | app.py:110-130 | For any triple, the built opportunity carries the match id and three legs with positive odds. The index recomputed from those odds is the triple's own index. The reported profit is within 0.005 of the profit that index gives. |
| `Quota.FreshLog` | app.py:9-14 | Defines the empty log of a day, the record built at start-up, on rollover and on reset. It is dated today and satisfies the log invariant. |
| `Quota.RollOver` | app.py:137-143 | Defines the rollover transition. The result is always dated today and keeps the log invariant. |
| `Quota.RollOverProperties` | app.py:133-143 | Rolling over replaces a log of another day with today's empty log and leaves today's log alone. Doing it twice is the same as doing it once. |
| `Quota.Commit` | app.py:165-167 | Defines the commit transition: the count goes up by one, the last id is set and the id is appended. Committing an id above the last id, below the limit, keeps the log invariant. |
| `Quota.Eligible` | app.py:160 | Defines the eligibility condition: the id is above the last id sent and not among the ids sent. Under the invariant, a match is eligible if and only if its id is above the last id sent, so the `not in sent_matches` condition never excludes anything further. |
| `Quota.SentAtMostLast` | app.py:160-167 | Under the invariant, every recorded id is at most the last id sent. |
| `Quota.CommitKeepsInvariant` | app.py:165-167 | Committing an eligible match below the limit keeps the invariant and adds exactly one to the count. The committed id was not yet sent. Afterwards that id and every lower id are ineligible in the new log. |
| `Quota.NoDuplicates` | app.py:160-167 | Under the invariant, no id appears twice among the ids sent today. |
| `Quota.ReplayKeepsInvariant` | app.py:133-211 | Across any sequence of rollovers, operator resets and commits, the invariant holds. The count equals the number of ids sent and stays within 12, the ids sent are strictly increasing, and the last one is the last id sent. |
| `Quota.SentStaysIneligible` | app.py:160-167 | Once a match is sent, it stays recorded and is never eligible again, as long as the date does not change and nobody resets the log. |
| `Quota.LowerStaysIneligible` | app.py:160-167 | An id at or below the last id sent, whether sent or not, stays at or below it and is never eligible again, as long as the date does not change and nobody resets the log. |
| `Quota.DailyLog.constructor` | app.py:9-14 | The initial log is today's empty log and satisfies the invariant. |
| `Quota.DailyLog.UpdateDailyLog` | app.py:133-143 | The new log is the old one rolled over to today. The invariant is kept. |
| `Quota.DailyLog.ResetDaily` | app.py:201-211 | Whatever was there, the log becomes today's empty log. |
| `Quota.DailyLog.NextArbOpportunity` | app.py:146-191 | The log is first rolled over. At or above the limit, the query answers LimitReached and changes nothing else. If no eligible match has an arbitrage, it answers NoArbitrage and changes nothing else. Otherwise it returns `BestArb` of the first eligible match, in list order, that has one. It then commits that match: the count goes up by one, the last id is set and the id is appended. The invariant holds afterwards. The new log is the replay of a rollover to today, followed by the commit when there is one. |

## Left out

- Floating point: odds, stakes and profits are exact rationals. Python's `round(x, 2)` on binary floats, which rounds half to even on the stored value, is modelled by `Round2`, which rounds half up on exact values. IEEE-754 division is not modelled.
- `generate_massive_odds_data` (app.py:20-83) draws random odds and reads the clock. The list of matches is a parameter of `NextArbOpportunity` instead.
- `datetime.now()` becomes the `today` parameter, an opaque date string.
- The bookmaker dictionary of a match is `Match.quotes`, a sequence in the dictionary's insertion order. Distinct bookmaker names are not required, because the three-different-bookmakers condition compares names as in the source.
- `Arbitrage.FindBestArb`: requires every odd of the match to be positive, while every match the program builds has odds above 1. The requirement also excludes negative odds, which the source would accept: home odd -10 with draw and away odds 2 gives an index of 0.9, an 11.1 % profit and a negative Home stake. A zero odd makes the source fail with a division error only when that bookmaker takes part in a triple of three different bookmakers; the model excludes it everywhere.
- `Quota.DailyLog.NextArbOpportunity`: requires `Valid()`. The log is module state that only the constructor, the rollover, the reset and the commit change, and each of them establishes or keeps `Valid()`. It also requires positive odds for every match in the list (`AllPositiveOdds`), including matches the source never reaches or skips as ineligible; every match the program builds has odds above 1.
- The innermost loop body of `find_best_arb` is the method `Arbitrage.Visit`. Its early `return` plays the part of the source's `continue`.
- Flask routes, `jsonify`, the message and progress strings, and the split of the legs into `automate_leg` and `macrodroid_legs` (app.py:169-185) are presentation. The response keeps only the status, the opportunity and the count. The `/health` and `/` routes and `app.run` are not modelled.
- Concurrency: the source guards `DAILY_LOG` with no lock, and interleaved requests are not modelled. Each method runs atomically.
- App.py serves fixed mock data and runs a keep-alive thread that makes HTTP requests. That is I/O and threading, and App.py is not part of this model.
- The code has no opportunity cache with a time-to-live, no scan scheduler, no profit ceiling and no configurable cap, so none is modelled. Ties in the selector break by the dictionary's insertion order. The cap applies to the rounded stakes. The empty log's last id is 0. A match whose id is at or below the last id sent is skipped even if it was never sent.
