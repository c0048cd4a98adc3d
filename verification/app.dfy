/**
 The request-level logic of app.py: the risk tier, the block-list gate, the
 per-address failure counter, the blocking decision, and one login step that
 strings them together in the order the login handler runs them. The anomaly
 model is a function from feature vectors to reals supplied by the caller;
 credential checking is reduced to a boolean input.
 */
module App {
  import opened Results
  import opened LogParser
  import opened FeatureEngineering
  import opened RiskScoring
  import opened IpBlocker

  /** Above this score a block happens whatever the failure count. */
  const ExtremeRisk: int := 85
  /** Above this score a block happens once the address has a recorded failure. */
  const ElevatedRisk: int := 70

  /** The login handler fills these two columns with fixed values. */
  const LoginDevice: string := "web"
  const LoginLocation: string := "unknown"
  const SuccessStatus: string := "success"

  // ---------------------------------------------------------------- tiers

  datatype Tier = Normal | MediumRisk | HighRisk {
    function Label(): string {
      match this
      case Normal => "Normal"
      case MediumRisk => "Medium Risk"
      case HighRisk => "High Risk"
    }

    function Rank(): nat {
      match this
      case Normal => 0
      case MediumRisk => 1
      case HighRisk => 2
    }
  }

  /** The status column: High above 70, Medium above 40 up to 70, Normal otherwise. */
  function TierOf(score: int): (t: Tier)
    ensures t == HighRisk <==> score > 70
    ensures t == MediumRisk <==> 40 < score <= 70
    ensures t == Normal <==> score <= 40
  {
    if score > 70 then HighRisk else if score > 40 then MediumRisk else Normal
  }

  lemma TierBoundaries()
    ensures TierOf(40) == Normal && TierOf(41) == MediumRisk
    ensures TierOf(70) == MediumRisk && TierOf(71) == HighRisk
  {
  }

  /** A higher score never gets a lower tier. */
  lemma TierMonotone(a: int, b: int)
    requires a <= b
    ensures TierOf(a).Rank() <= TierOf(b).Rank()
  {
  }

  /** On the scores the risk function produces, the tiers are exactly these value sets. */
  lemma TierOfComputedScore(loginFailed: int, isNight: int, anomalyScore: real)
    ensures var s := CalculateRisk(loginFailed, isNight, anomalyScore);
            && (TierOf(s) == HighRisk <==> s == 90)
            && (TierOf(s) == MediumRisk <==> s in {50, 60, 70})
            && (TierOf(s) == Normal <==> s in {0, 20, 30, 40})
  {
  }

  // ---------------------------------------------------------------- gate

  /**
   Whether an address is on the stored block list. A missing file and an
   unreadable one both answer false: the gate fails open.
   */
  function IsBlocked(store: Store, ip: string): (b: bool)
    ensures b <==> store.Stored? && ListsIp(store.records, ip)
    ensures !store.Stored? ==> !b
  {
    match store
    case Stored(rs) => InColumn(rs, ip)
    case Missing => false
    case Unreadable => false
  }

  // ---------------------------------------------------------------- attempt tracker

  /** Consecutive failures per address; an absent address reads as 0. */
  type Attempts = map<string, nat>

  function Count(m: Attempts, ip: string): nat {
    if ip in m then m[ip] else 0
  }

  /**
   Records the outcome of one attempt from ip: a failure adds one to its count,
   a success resets it to 0. No other address's entry changes.
   */
  function RecordOutcome(m: Attempts, ip: string, failed: bool): (m': Attempts)
    ensures m'.Keys == m.Keys + {ip}
    ensures failed ==> Count(m', ip) == Count(m, ip) + 1
    ensures !failed ==> Count(m', ip) == 0
    ensures forall k :: k in m && k != ip ==> m'[k] == m[k]
  {
    if failed then m[ip := Count(m, ip) + 1] else m[ip := 0]
  }

  /** The counter after a run of outcomes from the same address, oldest first. */
  function Replay(m: Attempts, ip: string, outcomes: seq<bool>): Attempts {
    if |outcomes| == 0 then m
    else RecordOutcome(Replay(m, ip, outcomes[..|outcomes| - 1]), ip, outcomes[|outcomes| - 1])
  }

  /** The length of the run of failures at the end of the sequence. */
  function TrailingFailures(outcomes: seq<bool>): nat {
    if |outcomes| == 0 then 0
    else if outcomes[|outcomes| - 1] then TrailingFailures(outcomes[..|outcomes| - 1]) + 1
    else 0
  }

  predicate AllFailures(outcomes: seq<bool>) {
    forall i :: 0 <= i < |outcomes| ==> outcomes[i]
  }

  /**
   The count is the number of failures since the last success; with no success
   in the run it continues from the count held before.
   */
  lemma {:induction false} ReplayCountsTrailingFailures(m: Attempts, ip: string, outcomes: seq<bool>)
    ensures Count(Replay(m, ip, outcomes), ip)
         == TrailingFailures(outcomes) + (if AllFailures(outcomes) then Count(m, ip) else 0)
  {
    if |outcomes| > 0 {
      var init := outcomes[..|outcomes| - 1];
      ReplayCountsTrailingFailures(m, ip, init);
      if outcomes[|outcomes| - 1] {
        assert AllFailures(outcomes) <==> AllFailures(init) by {
          if AllFailures(init) {
            forall i | 0 <= i < |outcomes|
              ensures outcomes[i]
            {
              if i < |init| {
                assert outcomes[i] == init[i];
              }
            }
          }
        }
      } else {
        assert !AllFailures(outcomes);
      }
    }
  }

  /** N failures in a row from a fresh address give a count of exactly N. */
  lemma FreshAddressCountsFailures(ip: string, outcomes: seq<bool>)
    requires AllFailures(outcomes)
    ensures Count(Replay(map[], ip, outcomes), ip) == |outcomes|
  {
    ReplayCountsTrailingFailures(map[], ip, outcomes);
    AllFailuresTrail(outcomes);
  }

  lemma {:induction false} AllFailuresTrail(outcomes: seq<bool>)
    requires AllFailures(outcomes)
    ensures TrailingFailures(outcomes) == |outcomes|
  {
    if |outcomes| > 0 {
      var init := outcomes[..|outcomes| - 1];
      assert forall i :: 0 <= i < |init| ==> init[i] == outcomes[i];
      AllFailuresTrail(init);
    }
  }

  // ---------------------------------------------------------------- decision

  /** One login row after scoring: the parsed row, its features, the model output, score and tier. */
  datatype ScoredRow = ScoredRow(
    row: ParsedRow,
    features: FeatureVector,
    anomalyScore: real,
    riskScore: int,
    status: Tier)

  /** What the alert dispatcher is handed. */
  datatype Alert = Alert(
    userId: string,
    ipAddress: string,
    deviceType: string,
    location: string,
    timestamp: Timestamp,
    riskScore: int,
    status: string)

  function AlertOf(sr: ScoredRow): Alert {
    Alert(sr.row.userId, sr.row.ipAddress, sr.row.deviceType, sr.row.location,
          sr.row.timestamp, sr.riskScore, sr.status.Label())
  }

  /** The two blocking rules, tried in order. */
  function ShouldBlock(riskScore: int, failures: nat): bool {
    riskScore > ExtremeRisk || (riskScore > ElevatedRisk && failures >= 1)
  }

  /** The outcome of the decision: whether it blocked, the store afterwards, and the alerts it sent. */
  datatype Reaction = Reaction(blocked: bool, store: Store, sent: seq<Alert>)

  /**
   The blocking decision for one scored row. When a rule fires, the address is
   put on the block list (if needed) and exactly one alert is sent; otherwise
   nothing happens. A store error escapes before the alert is sent.
   */
  function ProcessLoginAttempt(sr: ScoredRow, attempts: Attempts, store: Store, now: Timestamp, w: WriteOutcome)
    : (r: Result<Reaction, StoreError>)
    ensures sr.riskScore > ExtremeRisk && r.Ok? ==> r.value.blocked && r.value.sent == [AlertOf(sr)]
    ensures (ElevatedRisk < sr.riskScore <= ExtremeRisk && Count(attempts, sr.row.ipAddress) >= 1 && r.Ok?)
            ==> r.value.blocked && r.value.sent == [AlertOf(sr)]
    ensures !ShouldBlock(sr.riskScore, Count(attempts, sr.row.ipAddress)) ==> r == Ok(Reaction(false, store, []))
    ensures r.Ok? ==> (r.value.blocked <==> |r.value.sent| == 1) && |r.value.sent| <= 1
    ensures r.Err? <==> ShouldBlock(sr.riskScore, Count(attempts, sr.row.ipAddress))
                        && BlockIpIfNeeded(store, sr.row.ipAddress, sr.riskScore, now, w).Err?
    ensures r.Ok? && r.value.blocked && w == Written ==> IsBlocked(r.value.store, sr.row.ipAddress)
    ensures r.Ok? ==> Records(store) <= Records(r.value.store)
    ensures r.Ok? && r.value.blocked ==>
              r.value.store == BlockIpIfNeeded(store, sr.row.ipAddress, sr.riskScore, now, w).value
  {
    var ip := sr.row.ipAddress;
    if ShouldBlock(sr.riskScore, Count(attempts, ip)) then
      var store' :- BlockIpIfNeeded(store, ip, sr.riskScore, now, w);
      BlockKeepsPrefix(store, ip, sr.riskScore, now, w);
      Ok(Reaction(true, store', [AlertOf(sr)]))
    else
      Ok(Reaction(false, store, []))
  }

  /** The decision policy's worked cases. */
  lemma DecisionExamples()
    ensures ShouldBlock(90, 0)
    ensures !ShouldBlock(75, 0)
    ensures ShouldBlock(75, 1)
    ensures !ShouldBlock(70, 5)
  {
  }

  /**
   On every score the risk function can produce, the failure count has no say:
   the second rule never decides anything the first has not.
   */
  lemma SecondRuleIsDead(loginFailed: int, isNight: int, anomalyScore: real, failures: nat)
    ensures var s := CalculateRisk(loginFailed, isNight, anomalyScore);
            ShouldBlock(s, failures) <==> s > ExtremeRisk
    ensures var s := CalculateRisk(loginFailed, isNight, anomalyScore);
            !(ElevatedRisk < s <= ExtremeRisk)
  {
  }

  /** Decisions on computed scores do not depend on the attempt counter at all. */
  lemma DecisionIgnoresCounter(sr: ScoredRow, m1: Attempts, m2: Attempts, store: Store, now: Timestamp, w: WriteOutcome)
    requires sr.riskScore == CalculateRisk(sr.row.loginFailed, sr.row.isNight, sr.anomalyScore)
    ensures ProcessLoginAttempt(sr, m1, store, now, w) == ProcessLoginAttempt(sr, m2, store, now, w)
  {
    SecondRuleIsDead(sr.row.loginFailed, sr.row.isNight, sr.anomalyScore, Count(m1, sr.row.ipAddress));
    SecondRuleIsDead(sr.row.loginFailed, sr.row.isNight, sr.anomalyScore, Count(m2, sr.row.ipAddress));
  }

  /**
   Because the counter is updated before the decision, a fresh address's first
   failure is already seen as one failure: a score in (70, 85] blocks on the
   first failed attempt, although the counter held nothing before it.
   */
  lemma FirstFailureCountsBeforeDecision(sr: ScoredRow, m: Attempts, store: Store, now: Timestamp, w: WriteOutcome)
    requires sr.row.ipAddress !in m
    requires ElevatedRisk < sr.riskScore <= ExtremeRisk
    ensures Count(RecordOutcome(m, sr.row.ipAddress, true), sr.row.ipAddress) == 1
    ensures !ProcessLoginAttempt(sr, m, store, now, w).Err?
    ensures !ProcessLoginAttempt(sr, m, store, now, w).value.blocked
    ensures var r := ProcessLoginAttempt(sr, RecordOutcome(m, sr.row.ipAddress, true), store, now, w);
            r.Ok? ==> r.value.blocked
  {
  }

  // ---------------------------------------------------------------- one login step

  datatype State = State(attempts: Attempts, store: Store, alerts: seq<Alert>)

  /** A submitted login form: when, who, from where, and whether the password matched. */
  datatype LoginAttempt = LoginAttempt(
    timestamp: Timestamp,
    username: string,
    ipAddress: string,
    credentialsValid: bool)

  /** The page the handler answers with. */
  datatype Response = IpBlockedPage | SuspiciousActivity | Dashboard | InvalidCredentials | ServerError

  datatype StepResult = StepResult(state: State, response: Response)

  /** The log row the handler builds for an attempt. */
  function EventOf(a: LoginAttempt): LoginEvent {
    LoginEvent(a.timestamp, a.username, a.ipAddress,
               if a.credentialsValid then SuccessStatus else FailureStatus,
               LoginDevice, LoginLocation)
  }

  function LoginFeatures(a: LoginAttempt): FeatureVector {
    PrepareRow(ParseRow(EventOf(a)))
  }

  /** The handler's feature vector: hour and flags, with both categorical codes 0. */
  lemma LoginFeaturesShape(a: LoginAttempt)
    ensures var h := HourOf(a.timestamp);
            LoginFeatures(a) == FeatureVector(h, NightFlag(h), if a.credentialsValid then 0 else 1, 0, 0)
  {
  }

  /** Parses, encodes, asks the model and scores one event. */
  function ScoreEvent(e: LoginEvent, scorer: FeatureVector -> real): (sr: ScoredRow)
    ensures sr.row == ParseRow(e) && sr.features == PrepareRow(sr.row)
    ensures sr.anomalyScore == scorer(sr.features)
    ensures sr.riskScore == CalculateRisk(sr.row.loginFailed, sr.row.isNight, sr.anomalyScore)
    ensures 0 <= sr.riskScore <= 100 && sr.status == TierOf(sr.riskScore)
  {
    var row := ParseRow(e);
    var fv := PrepareRow(row);
    var anomaly := scorer(fv);
    var risk := CalculateRisk(row.loginFailed, row.isNight, anomaly);
    ScoredRow(row, fv, anomaly, risk, TierOf(risk))
  }

  /** The score of a login attempt is 90 exactly when all three signals are set, and at most 70 otherwise. */
  lemma LoginScore(a: LoginAttempt, scorer: FeatureVector -> real)
    ensures var sr := ScoreEvent(EventOf(a), scorer);
            && (AllSignals(a, scorer) ==> sr.riskScore == 90 && sr.status == HighRisk)
            && (!AllSignals(a, scorer) ==> sr.riskScore <= 70 && sr.status != HighRisk)
  {
  }

  /** All three risk signals of an attempt are set. */
  predicate AllSignals(a: LoginAttempt, scorer: FeatureVector -> real) {
    !a.credentialsValid && HourOf(a.timestamp) in NightHours && scorer(LoginFeatures(a)) < 0.0
  }

  /** The gate's answer, given how its read of the block file goes. */
  function Gate(s: State, ip: string, gateRead: ReadOutcome): bool {
    IsBlocked(ReadAs(s.store, gateRead), ip)
  }

  /**
   One POST to the login handler: the gate, then scoring, then the counter
   update, then the decision. The gate and the block-list update each read
   the block file afresh, and either read may fail on its own. A rejected
   address changes nothing. Otherwise the counter records the outcome, and
   the attempt is blocked exactly when it fails at night with a negative
   anomaly score and the update goes through; valid credentials are never
   blocked and always reach the dashboard. Only a block touches the block
   list and the alert log.
   */
  function LoginStep(s: State, a: LoginAttempt, scorer: FeatureVector -> real,
                     gateRead: ReadOutcome, blockRead: ReadOutcome, now: Timestamp, w: WriteOutcome)
    : (r: StepResult)
    ensures Gate(s, a.ipAddress, gateRead) ==> r == StepResult(s, IpBlockedPage)
    ensures r.response == IpBlockedPage <==> Gate(s, a.ipAddress, gateRead)
    ensures !Gate(s, a.ipAddress, gateRead) ==>
              r.state.attempts == RecordOutcome(s.attempts, a.ipAddress, !a.credentialsValid)
    ensures r.response == SuspiciousActivity <==>
              !Gate(s, a.ipAddress, gateRead) && AllSignals(a, scorer)
              && BlockIpIfNeeded(ReadAs(s.store, blockRead), a.ipAddress, 90, now, w).Ok?
    ensures r.response == ServerError <==>
              !Gate(s, a.ipAddress, gateRead) && AllSignals(a, scorer)
              && BlockIpIfNeeded(ReadAs(s.store, blockRead), a.ipAddress, 90, now, w).Err?
    ensures r.response == Dashboard <==> !Gate(s, a.ipAddress, gateRead) && a.credentialsValid
    ensures r.response == InvalidCredentials <==>
              !Gate(s, a.ipAddress, gateRead) && !a.credentialsValid && !AllSignals(a, scorer)
    ensures r.response == SuspiciousActivity ==>
              && r.state.store == BlockIpIfNeeded(ReadAs(s.store, blockRead), a.ipAddress, 90, now, w).value
              && r.state.alerts == s.alerts + [AlertOf(ScoreEvent(EventOf(a), scorer))]
    ensures r.response != SuspiciousActivity ==> r.state.store == s.store && r.state.alerts == s.alerts
    ensures Records(s.store) <= Records(r.state.store)
  {
    if Gate(s, a.ipAddress, gateRead) then StepResult(s, IpBlockedPage)
    else
      var sr := ScoreEvent(EventOf(a), scorer);
      var attempts := RecordOutcome(s.attempts, a.ipAddress, sr.row.loginStatus == FailureStatus);
      SecondRuleIsDead(sr.row.loginFailed, sr.row.isNight, sr.anomalyScore, Count(attempts, a.ipAddress));
      match ProcessLoginAttempt(sr, attempts, ReadAs(s.store, blockRead), now, w)
      case Err(_) => StepResult(State(attempts, s.store, s.alerts), ServerError)
      case Ok(reaction) =>
        if reaction.blocked then
          StepResult(State(attempts, reaction.store, s.alerts + reaction.sent), SuspiciousActivity)
        else if a.credentialsValid then StepResult(State(attempts, s.store, s.alerts), Dashboard)
        else StepResult(State(attempts, s.store, s.alerts), InvalidCredentials)
  }

  /**
   After a step that blocks with a successful write, the file lists the address,
   so the next gate check whose read goes through rejects it.
   */
  lemma BlockVisibleToGate(s: State, a: LoginAttempt, scorer: FeatureVector -> real,
                           gateRead: ReadOutcome, blockRead: ReadOutcome, now: Timestamp)
    requires LoginStep(s, a, scorer, gateRead, blockRead, now, Written).response == SuspiciousActivity
    ensures Gate(LoginStep(s, a, scorer, gateRead, blockRead, now, Written).state, a.ipAddress, ReadOk)
  {
  }

  /**
   The gate fails open: when its read fails, even a listed address gets past
   it and is scored, counted and possibly blocked again.
   */
  lemma GateFailsOpenOnReadError(s: State, a: LoginAttempt, scorer: FeatureVector -> real,
                                 blockRead: ReadOutcome, now: Timestamp, w: WriteOutcome)
    requires IsBlocked(s.store, a.ipAddress)
    ensures LoginStep(s, a, scorer, ReadFails, blockRead, now, w).response != IpBlockedPage
    ensures LoginStep(s, a, scorer, ReadFails, blockRead, now, w).state.attempts
         == RecordOutcome(s.attempts, a.ipAddress, !a.credentialsValid)
  {
  }

  /** A step keeps the block file free of duplicate addresses. */
  lemma StepPreservesUniqueIps(s: State, a: LoginAttempt, scorer: FeatureVector -> real,
                               gateRead: ReadOutcome, blockRead: ReadOutcome, now: Timestamp, w: WriteOutcome)
    requires UniqueIps(Records(s.store))
    ensures UniqueIps(Records(LoginStep(s, a, scorer, gateRead, blockRead, now, w).state.store))
  {
    var r := LoginStep(s, a, scorer, gateRead, blockRead, now, w);
    if r.response == SuspiciousActivity {
      BlockPreservesUniqueIps(ReadAs(s.store, blockRead), a.ipAddress, 90, now, w);
    }
  }

  /** A listed address stays listed in the file: steps only ever add to a stored list. */
  lemma StepKeepsListed(s: State, a: LoginAttempt, scorer: FeatureVector -> real,
                        gateRead: ReadOutcome, blockRead: ReadOutcome, now: Timestamp, w: WriteOutcome, ip: string)
    requires ListsIp(Records(s.store), ip)
    ensures ListsIp(Records(LoginStep(s, a, scorer, gateRead, blockRead, now, w).state.store), ip)
  {
    var s1 := LoginStep(s, a, scorer, gateRead, blockRead, now, w).state.store;
    var k :| 0 <= k < |Records(s.store)| && Records(s.store)[k].ipAddress == ip;
    assert Records(s1)[k] == Records(s.store)[k];
  }

  /**
   A request as the handler meets it: the form, how the gate's and the update's
   reads of the block file go, the clock reading used for a block, and how a
   write would go.
   */
  datatype Request = Request(
    attempt: LoginAttempt,
    gateRead: ReadOutcome,
    blockRead: ReadOutcome,
    now: Timestamp,
    write: WriteOutcome)

  function Handle(s: State, req: Request, scorer: FeatureVector -> real): StepResult {
    LoginStep(s, req.attempt, scorer, req.gateRead, req.blockRead, req.now, req.write)
  }

  /** A sequence of requests handled one after another. */
  function Run(s: State, reqs: seq<Request>, scorer: FeatureVector -> real): State {
    if |reqs| == 0 then s
    else Handle(Run(s, reqs[..|reqs| - 1], scorer), reqs[|reqs| - 1], scorer).state
  }

  /** Over any run, the block file never holds two records for one address. */
  lemma {:induction false} RunPreservesUniqueIps(s: State, reqs: seq<Request>, scorer: FeatureVector -> real)
    requires UniqueIps(Records(s.store))
    ensures UniqueIps(Records(Run(s, reqs, scorer).store))
  {
    if |reqs| > 0 {
      var last := reqs[|reqs| - 1];
      RunPreservesUniqueIps(s, reqs[..|reqs| - 1], scorer);
      StepPreservesUniqueIps(Run(s, reqs[..|reqs| - 1], scorer), last.attempt, scorer,
                             last.gateRead, last.blockRead, last.now, last.write);
    }
  }

  /** Over any run, a listed address stays listed in the file and the alert log only grows. */
  lemma {:induction false} RunKeepsListed(s: State, reqs: seq<Request>, scorer: FeatureVector -> real, ip: string)
    requires ListsIp(Records(s.store), ip)
    ensures ListsIp(Records(Run(s, reqs, scorer).store), ip)
    ensures s.alerts <= Run(s, reqs, scorer).alerts
  {
    if |reqs| > 0 {
      var last := reqs[|reqs| - 1];
      var mid := Run(s, reqs[..|reqs| - 1], scorer);
      RunKeepsListed(s, reqs[..|reqs| - 1], scorer, ip);
      StepKeepsListed(mid, last.attempt, scorer, last.gateRead, last.blockRead, last.now, last.write, ip);
    }
  }

  /** 1970-01-01 at the given hour. */
  function AtHour(h: int): Timestamp {
    Timestamp(h * SecondsPerHour)
  }

  /**
   A failed 02:00 login whose features the model scores at -0.1, from an
   address not on the list, scores 90, is High risk, is blocked with one
   alert whatever the counter held, and afterwards the file lists it.
   */
  lemma ScenarioNightFailureAnomalous(attempts: Attempts, alerts: seq<Alert>, user: string, ip: string)
    ensures var a := LoginAttempt(AtHour(2), user, ip, false);
            var r := LoginStep(State(attempts, Missing, alerts), a, _ => -0.1, ReadOk, ReadOk, AtHour(2), Written);
            && ScoreEvent(EventOf(a), _ => -0.1).riskScore == 90
            && r.response == SuspiciousActivity
            && r.state.alerts == alerts + [Alert(user, ip, LoginDevice, LoginLocation, AtHour(2), 90, "High Risk")]
            && r.state.store == Stored([BlockRecord(ip, AtHour(2), HighRiskReason)])
  {
    HourOfClockTime(0, 2, 0);
  }

  /**
   A failed 14:00 login whose features the model scores at 0.2 scores 30, is
   Normal, is not blocked, sends no alert and leaves the block file alone;
   the counter records one more failure.
   */
  lemma ScenarioDaytimeFailure(attempts: Attempts, store: Store, alerts: seq<Alert>, user: string, ip: string)
    requires !IsBlocked(store, ip)
    ensures var a := LoginAttempt(AtHour(14), user, ip, false);
            var r := LoginStep(State(attempts, store, alerts), a, _ => 0.2, ReadOk, ReadOk, AtHour(14), Written);
            && ScoreEvent(EventOf(a), _ => 0.2).riskScore == 30
            && ScoreEvent(EventOf(a), _ => 0.2).status == Normal
            && r.response == InvalidCredentials
            && r.state == State(RecordOutcome(attempts, ip, true), store, alerts)
  {
    HourOfClockTime(0, 14, 0);
  }
}
