# Login risk analyser — a Dafny model of its decision core

This project models the decision logic of CyberLogAnalyzer, a login risk
analyser. For every login attempt it derives time-of-day and failure flags,
encodes device and location, scores the attempt additively (30 for a failed
login, 20 for a night-time login, 40 for a negative anomaly-model output,
capped at 100), assigns a tier, keeps a per-address count of consecutive
failures, and decides whether to put the source address on a persisted block
list and send an alert. One login request is modelled as a pure state
transition over the attempts map, the block-list store and the log of sent
alerts.

Modules follow the source files:

- `LogParser` (`log_parser.dfy`): timestamps, the hour of day, the night and failure flags, row parsing.
- `FeatureEngineering` (`feature_engineering.dfy`): the device and location tables with their fallback code, and the five-column feature vector.
- `RiskScoring` (`risk_scoring.dfy`): the additive risk score.
- `IpBlocker` (`ip_blocker.dfy`): block records, the store, and the guarded insert-if-absent update.
- `App` (`app.dfy`): tiers, the block-list gate, the attempt counter, the blocking decision, one login step, and runs of steps.
- `Results` (`results.dfy`): the `Ok`/`Err` wrapper used where the source lets an exception escape.

Inputs that stand for the outside world:

- A timestamp is the signed number of seconds since 1970-01-01 00:00:00 in naive local time. The hour is the floor of seconds / 3600, taken modulo 24.
- The anomaly model is a function from feature vectors to reals, passed as a parameter.
- The credential check is a boolean on the login attempt.
- `datetime.now()` for the block time is a parameter.
- How a write of the block file turns out is a parameter: it is written, it is refused with a permission error, or it fails some other way.
- The block file is `Missing`, `Stored(records)` or `Unreadable` (a file that no read can parse).
- Each request says how its two reads of the block file go, the gate's and the update's: each goes through or fails on its own. A failed read sees the file as `Unreadable`.
- Sent alerts are appended to a sequence in the state.

The main result: `calculate_risk` can only produce 0, 20, 30, 40, 50, 60, 70
or 90. So a score above 70 is always 90, which is above 85. The second
blocking rule in `process_login_attempt` ("above 70 with at least one
recorded failure") therefore never decides anything on scores the login
handler computes, and the attempt counter has no influence on blocking
(`App.SecondRuleIsDead`, `App.DecisionIgnoresCounter`). End to end, a login is
blocked exactly when it fails, at night, with a negative anomaly score, and
the block-file update does not raise (`App.LoginStep`).

Facts about the code that the model keeps:

- The gate in `is_blocked` fails open: when its read of the block file fails, it answers "not blocked" (app.py:34-38), so a listed address gets through (`App.GateFailsOpenOnReadError`).
- An unlisted device gets code 0, the same code as "web".
- A read failure of the block file other than a missing file escapes `block_ip_if_needed`. So does a write failure other than a permission error. Either aborts the request after the counter update and before any alert: the step answers `ServerError`.

## Model

| member | source | states |
|---|---|---|
| LogParser.HourOf | utils/log_parser.py:4-5 | the hour of any timestamp, including ones before 1970, lies in [0, 23] |
| LogParser.HourOfClockTime | utils/log_parser.py:5 | a timestamp of the form day·86400 + h·3600 + s, with 0 ≤ s < 3600, has hour exactly h |
| LogParser.NightFlag | utils/log_parser.py:6 | the night flag is 0 or 1, and on real hours it is 1 exactly for the hours 0–5 and 23 |
| LogParser.NightBoundaries | utils/log_parser.py:6 | hours 5 and 23 are night; hours 6 and 22 are not |
| LogParser.FailureFlag | utils/log_parser.py:7 | the failure flag is 0 or 1, and it is 1 exactly when the status equals "failure" |
| LogParser.FailureIsExactMatch | utils/log_parser.py:7 | "Failure", "failure " and "success" all give 0; only "failure" gives 1 |
| LogParser.ParseRow | utils/log_parser.py:3-8 | user, address, status, device, location and timestamp pass through unchanged; the hour is in [0, 23]; both flags are 0/1 with their if-and-only-if meaning |
| LogParser.ParseLogs | utils/log_parser.py:3-8 | parsing a table yields one row per input row, and row i is the parse of input row i |
| LogParser.ParseLogsAppend | utils/log_parser.py:5-7 | parsing two pieces of a table and concatenating equals parsing the whole table |
| FeatureEngineering.Encode | utils/feature_engineering.py:17-20 | a listed key gets its table code, and any other key gets the fallback 0 |
| FeatureEngineering.DeviceEnc | utils/feature_engineering.py:17 | device codes lie in [0, 2]; code 1 means exactly "mobile" and code 2 means exactly "tablet" |
| FeatureEngineering.LocationEnc | utils/feature_engineering.py:20 | location codes lie in [0, 3]; codes 1, 2 and 3 mean exactly "US", "UK" and "CA" |
| FeatureEngineering.EncodingTables | utils/feature_engineering.py:5-6 | the listed devices and locations map to their table codes, and every unlisted value maps to 0 |
| FeatureEngineering.FallbackCollidesWithListedCode | utils/feature_engineering.py:16-20 | an unlisted device gets the same code as "web", and an unlisted location the same code as "unknown" |
| FeatureEngineering.PrepareRow | utils/feature_engineering.py:17-24 | hour and both flags are copied unchanged; the device code is in [0, 2] and the location code in [0, 3] |
| FeatureEngineering.Columns | utils/feature_engineering.py:22-24 | the feature vector has exactly five columns |
| FeatureEngineering.ColumnsRoundTrip | utils/feature_engineering.py:22-24 | the five columns determine the vector, and the vector determines the five columns |
| FeatureEngineering.PrepareFeatures | utils/feature_engineering.py:8-25 | preparing a table yields one vector per row, and vector i depends only on row i |
| FeatureEngineering.PrepareFeaturesAppend | utils/feature_engineering.py:17-24 | preparing two pieces of a table and concatenating equals preparing the whole table |
| RiskScoring.CalculateRisk | utils/risk_scoring.py:1-13 | the score is 30·[failed] + 20·[night] + 40·[anomaly < 0]; it lies in [0, 100] and in {0, 20, 30, 40, 50, 60, 70, 90}; it exceeds 70 exactly when all three signals are set |
| RiskScoring.CapIsInert | utils/risk_scoring.py:13 | the uncapped sum is at most 90, so the cap at 100 never changes the value |
| RiskScoring.ReachableScoresAttained | utils/risk_scoring.py:2-13 | each of the eight values is produced by some input, so the reachable set is exact |
| RiskScoring.HighScoreIsNinety | utils/risk_scoring.py:4-13 | a score above 70 is exactly a score of 90, which is exactly a score above 85 |
| RiskScoring.ZeroAnomalyAddsNothing | utils/risk_scoring.py:10-11 | an anomaly score of exactly 0 scores like any non-negative value and strictly below any negative value |
| RiskScoring.RiskMonotone | utils/risk_scoring.py:4-11 | turning signals on never lowers the score |
| RiskScoring.OnlySignMatters | utils/risk_scoring.py:10 | two anomaly scores with the same sign give the same risk score |
| IpBlocker.InColumn | utils/ip_blocker.py:14 | the column scan answers true exactly when some record carries the address |
| IpBlocker.BlockIpIfNeeded | utils/ip_blocker.py:6-24 | scores ≤ 70 change nothing. An error occurs exactly when the file is unreadable, or the address is absent and the write fails without a permission error. Any change appends exactly the record (address, given time, "High risk login detected"). A written block lists the address. A refused or failed write leaves the store as it was. An already listed address changes nothing |
| IpBlocker.BlockIdempotent | utils/ip_blocker.py:14 | once a first call has written its record, a second call with any time and any write outcome leaves the store as it is |
| IpBlocker.BlockKeepsPrefix | utils/ip_blocker.py:20 | the old list is a prefix of the new one, which is at most one record longer |
| IpBlocker.BlockTouchesOnlyItsIp | utils/ip_blocker.py:14-20 | every other address is listed afterwards exactly when it was listed before |
| IpBlocker.BlockPreservesUniqueIps | utils/ip_blocker.py:14-20 | a list with no duplicate addresses still has none after the update |
| App.TierOf | app.py:91-93 | High exactly above 70, Medium exactly in (40, 70], Normal exactly at or below 40 |
| App.TierBoundaries | app.py:91-93 | 40 is Normal, 41 and 70 are Medium, 71 is High |
| App.TierMonotone | app.py:91-93 | a higher score never gets a lower tier |
| App.TierOfComputedScore | app.py:90-93 | on computed scores, High is exactly 90, Medium is exactly {50, 60, 70} and Normal is exactly {0, 20, 30, 40} |
| App.IsBlocked | app.py:29-38 | true exactly when the readable store lists the address; a missing or unreadable file gives false |
| App.RecordOutcome | app.py:97-101 | a failure makes the count old + 1 and a success makes it 0; the address gets an entry; no other address's entry changes |
| App.ReplayCountsTrailingFailures | app.py:97-101 | after a run of outcomes the count is the number of failures since the last success, added to the earlier count when the run has no success |
| App.FreshAddressCountsFailures | app.py:97-99 | N failures in a row from a fresh address give a count of exactly N |
| App.ProcessLoginAttempt | app.py:40-56 | above 85 it blocks and alerts once whatever the count; in (70, 85] with a count of at least 1 it blocks and alerts once; otherwise nothing changes and nothing is sent. A store error escapes exactly when a rule fires and the update fails. After a block the store is exactly what the block-list update returns, and a written block is caught by the gate. The old list is a prefix of the new one |
| App.DecisionExamples | app.py:45-54 | (90, 0) blocks, (75, 0) does not, (75, 1) blocks, (70, 5) does not |
| App.SecondRuleIsDead | app.py:45-54 | on computed scores the block decision is "score above 85" for every count, and no computed score lies in (70, 85] |
| App.DecisionIgnoresCounter | app.py:40-56 | for a row scored by the risk function, the decision is the same whatever the attempts map holds |
| App.FirstFailureCountsBeforeDecision | app.py:97-129 | the counter is updated before the decision, so a fresh address's first failure counts as 1: a (70, 85] score that would not block on the old map blocks on the updated one |
| App.LoginFeaturesShape | app.py:69-88 | the handler's feature vector is (hour, night flag, failure flag, 0, 0), because device and location are fixed to "web" and "unknown" |
| App.ScoreEvent | app.py:87-93 | the row is the parse of the event, the features are prepared from that row, the anomaly value is the model's output on those features, the score is the risk function of the row's flags and that value, and the tier is that score's tier |
| App.LoginScore | app.py:87-93 | a login attempt scores 90 and is High risk exactly when it fails at night with a negative anomaly value; otherwise it scores at most 70 and is not High risk |
| App.LoginStep | app.py:73-131 | the blocked page is answered exactly when the gate's read lists the address, and then nothing changes. Otherwise the counter records the outcome. The attempt is blocked exactly when it fails, at night, with a negative anomaly value, and the update succeeds; then the block file is the update's result and exactly the alert for this row is added. A failing update gives a server error. Valid credentials reach the dashboard exactly when the gate lets them through; invalid ones without all three signals get the invalid-credentials page. Without a block, the block file and the alert log are unchanged |
| App.BlockVisibleToGate | app.py:29-54 | after a step that blocks with a successful write, the next gate check whose read goes through rejects the address |
| App.GateFailsOpenOnReadError | app.py:29-38 | when the gate's read fails, even a listed address is not rejected, and its attempt is counted |
| App.StepPreservesUniqueIps | utils/ip_blocker.py:14-20 | a login step keeps the block list free of duplicate addresses |
| App.StepKeepsListed | utils/ip_blocker.py:14-22 | an address listed in the block file is still listed after any step |
| App.RunPreservesUniqueIps | utils/ip_blocker.py:14-20 | over any sequence of login requests, the block list never holds two records for one address |
| App.RunKeepsListed | app.py:73-131 | over any sequence of login requests, an address listed in the block file stays listed and the alert log only grows |
| App.ScenarioNightFailureAnomalous | app.py:73-131 | a login step for a failed 02:00 attempt whose features the model scores at −0.1 scores 90 and is blocked whatever the counter held. The one alert carries "High Risk", and the block file then holds the single record for the address |
| App.ScenarioDaytimeFailure | app.py:73-137 | a login step for a failed 14:00 attempt whose features the model scores at 0.2 scores 30 and is Normal. It answers invalid credentials, sends no alert, leaves the block file alone and counts one more failure |

## Left out

- Flask routing, templates, redirects and the `dashboard` view: web I/O. The credential check against the user table is reduced to a boolean input.
- Appending the attempt to the CSV log (app.py:103-126): file I/O, and every error there is caught, so it cannot affect the outcome.
- Parsing timestamp text with `pd.to_datetime`: a timestamp is already a count of seconds. A timestamp that does not parse raises before scoring; this is not modelled.
- The anomaly model: loading, training and `decision_function` are replaced by a function parameter. The crash when no model is loaded is not modelled.
- SMTP delivery in `send_alert`: each call is recorded as an `Alert` in the state. A delivery failure is caught by the source and does not change the decision.
- The block file's path: `ip_blocker.py` uses a relative path and `app.py` uses the configured absolute one. The model assumes both name one store.
- CSV encoding of block records: the store is a sequence of records.
- config.py: it holds only constants, and the thresholds it declares are never read; app.py hard-codes 85 and 70.
- Chart rendering (utils/visualization.py) and model training (ml/train_model.py): presentation and offline work.
- Concurrency: the source takes no locks on the counter or the block file, so there is no atomicity discipline to model. Requests are handled one at a time.
- App.ProcessLoginAttempt: reading `ip_attempts[ip]` on a `defaultdict` inserts a 0 entry for a missing address. The model does not add that entry. Every count reads the same either way, and in the login step the address is always present by then.
