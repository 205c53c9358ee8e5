/**
 * The security chaos suite: an authentication-bypass test (one request per test case,
 * each outcome classified as secure or not), a rate-limiting test (a burst of requests,
 * counting 429 and 200 answers), a fixed data-exposure result, and the combined score.
 *
 * The server is a parameter: `server(authorization)` is the response to a request to the
 * secured endpoint carrying that Authorization header, and `burst(i)` the response to the
 * i-th request of the burst.
 */
module SecurityChaos {
  import opened Outcomes
  import opened Http
  import opened Ratios

  // ---------------------------------------------------------------- authentication bypass

  datatype TestCase = TestCase(name: string, authorization: Option<string>)

  /** The four cases, in the order they are sent. */
  const AuthTestCases: seq<TestCase> := [
    TestCase("No token", None),
    TestCase("Invalid token", Some("Bearer invalid")),
    TestCase("Expired token", Some("Bearer expired")),
    TestCase("Malformed token", Some("Bearer malformed"))
  ]

  /** One authentication result; `statusCode` is absent when the request raised. `secure` is
      optional because the score looks it up with a default. */
  datatype AuthRecord = AuthRecord(test: string, statusCode: Option<int>, secure: Option<bool>)

  /** A rejected request (401 or 403) is secure, and so is one that failed: the system
      failing closed is treated as secure. */
  predicate SecureOutcome(r: Response) {
    match r
    case Answered(code) => code == 401 || code == 403
    case RequestFailed => true
  }

  /** The record for one test case. */
  function AuthResult(c: TestCase, r: Response): AuthRecord {
    AuthRecord(c.name, StatusOf(r), Some(SecureOutcome(r)))
  }

  /** The results of the authentication-bypass test against `server`. */
  function AuthResults(server: Option<string> -> Response): (rs: seq<AuthRecord>)
    ensures |rs| == |AuthTestCases|
    ensures forall i :: 0 <= i < |rs| ==> rs[i] == AuthResult(AuthTestCases[i], server(AuthTestCases[i].authorization))
  {
    seq(|AuthTestCases|, i requires 0 <= i < |AuthTestCases| =>
      AuthResult(AuthTestCases[i], server(AuthTestCases[i].authorization)))
  }

  /** Sends each test case once, in order, and classifies each outcome. */
  method TestAuthenticationBypass(server: Option<string> -> Response) returns (results: seq<AuthRecord>)
    ensures |results| == |AuthTestCases|
    ensures forall i :: 0 <= i < |results| ==>
      && results[i].test == AuthTestCases[i].name
      && results[i].statusCode == StatusOf(server(AuthTestCases[i].authorization))
      && results[i].secure.Some?
    ensures forall i :: 0 <= i < |results| ==>
      (results[i].secure.value <==>
        results[i].statusCode.None? || results[i].statusCode == Some(401) || results[i].statusCode == Some(403))
    ensures results == AuthResults(server)
  {
    results := [];
    for i := 0 to |AuthTestCases|
      invariant |results| == i
      invariant forall j :: 0 <= j < i ==>
        results[j] == AuthResult(AuthTestCases[j], server(AuthTestCases[j].authorization))
    {
      var testCase := AuthTestCases[i];
      var response := server(testCase.authorization);
      match response {
        case Answered(code) =>
          results := results + [AuthRecord(testCase.name, Some(code), Some(code == 401 || code == 403))];
        case RequestFailed =>
          results := results + [AuthRecord(testCase.name, None, Some(true))];
      }
    }
  }

  // ---------------------------------------------------------------- rate limiting

  /** Number of requests in the burst. */
  const BurstSize: nat := 100

  /** One request of the burst; `statusCode` is absent when the request raised. */
  datatype RateRecord = RateRecord(requestId: nat, statusCode: Option<int>)

  datatype RateLimitSummary = RateLimitSummary(
    totalRequests: nat, rateLimited: nat, successful: nat, rateLimitingEffective: bool)

  predicate RateLimited(r: RateRecord) {
    r.statusCode == Some(429)
  }

  predicate Successful(r: RateRecord) {
    r.statusCode == Some(200)
  }

  /** The records of a burst against `burst`. */
  function BurstRecords(burst: nat -> Response): (rs: seq<RateRecord>)
    ensures |rs| == BurstSize
    ensures forall i :: 0 <= i < |rs| ==> rs[i] == RateRecord(i, StatusOf(burst(i)))
  {
    seq(BurstSize, i requires 0 <= i => RateRecord(i, StatusOf(burst(i))))
  }

  /** The analysis of a burst: how many were refused with 429, how many answered 200. */
  function Summarize(rs: seq<RateRecord>): (s: RateLimitSummary)
    ensures s.totalRequests == |rs|
    ensures s.rateLimited == CountIf(rs, RateLimited) && s.successful == CountIf(rs, Successful)
    ensures s.rateLimited + s.successful <= s.totalRequests
    ensures s.rateLimited == 0 <==> forall i :: 0 <= i < |rs| ==> rs[i].statusCode != Some(429)
    ensures s.successful == 0 <==> forall i :: 0 <= i < |rs| ==> rs[i].statusCode != Some(200)
    ensures s.rateLimitingEffective <==> s.rateLimited > 0
  {
    var rateLimited := CountIf(rs, RateLimited);
    var successful := CountIf(rs, Successful);
    CountIfDisjoint(rs, RateLimited, Successful);
    RateLimitSummary(|rs|, rateLimited, successful, rateLimited > 0)
  }

  /** Sends the burst, recording every request (a failed one with no status), and
      summarizes it. */
  method TestRateLimiting(burst: nat -> Response) returns (summary: RateLimitSummary, responses: seq<RateRecord>)
    ensures responses == BurstRecords(burst)
    ensures summary == Summarize(responses)
    ensures summary.totalRequests == BurstSize
    ensures summary.rateLimitingEffective <==> exists i :: 0 <= i < BurstSize && burst(i) == Answered(429)
  {
    responses := [];
    for i := 0 to BurstSize
      invariant |responses| == i
      invariant forall j :: 0 <= j < i ==> responses[j] == RateRecord(j, StatusOf(burst(j)))
    {
      match burst(i) {
        case Answered(code) =>
          responses := responses + [RateRecord(i, Some(code))];
        case RequestFailed =>
          responses := responses + [RateRecord(i, None)];
      }
    }
    var rateLimited := CountIf(responses, RateLimited);
    var successful := CountIf(responses, Successful);
    summary := RateLimitSummary(|responses|, rateLimited, successful, rateLimited > 0);
    if summary.rateLimitingEffective {
      var i :| 0 <= i < |responses| && responses[i].statusCode == Some(429);
      assert burst(i) == Answered(429);
    }
  }

  // ---------------------------------------------------------------- data exposure and the score

  /** One data-exposure result; `dataExposed` is optional because the score looks it up with
      a default. */
  datatype ExposureRecord = ExposureRecord(test: string, dataExposed: Option<bool>)

  /** The data-exposure test is a placeholder with a single fixed result. */
  const ExposureResults: seq<ExposureRecord> := [ExposureRecord("Data exposure test", Some(false))]

  /** An authentication result passes when it says secure; a missing flag counts as insecure. */
  predicate AuthPassed(r: AuthRecord) {
    r.secure.GetOr(false)
  }

  /** An exposure result passes when it says no data was exposed; a missing flag counts as
      exposed. */
  predicate ExposurePassed(r: ExposureRecord) {
    !r.dataExposed.GetOr(true)
  }

  /** Every check of the suite passed. */
  predicate AllPassed(auth: seq<AuthRecord>, rate: RateLimitSummary, exposure: seq<ExposureRecord>) {
    && (forall i :: 0 <= i < |auth| ==> AuthPassed(auth[i]))
    && rate.rateLimitingEffective
    && (forall i :: 0 <= i < |exposure| ==> ExposurePassed(exposure[i]))
  }

  /** No check of the suite passed. */
  predicate NonePassed(auth: seq<AuthRecord>, rate: RateLimitSummary, exposure: seq<ExposureRecord>) {
    && (forall i :: 0 <= i < |auth| ==> !AuthPassed(auth[i]))
    && !rate.rateLimitingEffective
    && (forall i :: 0 <= i < |exposure| ==> !ExposurePassed(exposure[i]))
  }

  /** The number of checks of a suite: one per authentication result, one for rate limiting
      and one per exposure result. */
  function TotalChecks(auth: seq<AuthRecord>, exposure: seq<ExposureRecord>): nat {
    |auth| + 1 + |exposure|
  }

  /** The number of checks that passed. */
  function PassedChecks(auth: seq<AuthRecord>, rate: RateLimitSummary, exposure: seq<ExposureRecord>): nat {
    CountIf(auth, AuthPassed) + (if rate.rateLimitingEffective then 1 else 0) + CountIf(exposure, ExposurePassed)
  }

  /** Passed checks as a percentage of all checks: one per authentication result, one for
      rate limiting and one per exposure result. */
  function SecurityScore(auth: seq<AuthRecord>, rate: RateLimitSummary, exposure: seq<ExposureRecord>): (score: real)
    ensures 0.0 <= score <= 100.0
    ensures score == 100.0 <==> AllPassed(auth, rate, exposure)
    ensures score == 0.0 <==> NonePassed(auth, rate, exposure)
  {
    PassedChecksBounds(auth, rate, exposure);
    Percentage(PassedChecks(auth, rate, exposure), TotalChecks(auth, exposure))
  }

  /** The score is `passed / total * 100`: the passed checks as a percentage of all checks. */
  lemma SecurityScoreValue(auth: seq<AuthRecord>, rate: RateLimitSummary, exposure: seq<ExposureRecord>)
    ensures SecurityScore(auth, rate, exposure)
      == (PassedChecks(auth, rate, exposure) as real) / (TotalChecks(auth, exposure) as real) * 100.0
  {
  }

  /** At most every check passes; all of them pass, or none, exactly when each part says so. */
  lemma PassedChecksBounds(auth: seq<AuthRecord>, rate: RateLimitSummary, exposure: seq<ExposureRecord>)
    ensures PassedChecks(auth, rate, exposure) <= TotalChecks(auth, exposure)
    ensures PassedChecks(auth, rate, exposure) == TotalChecks(auth, exposure) <==> AllPassed(auth, rate, exposure)
    ensures PassedChecks(auth, rate, exposure) == 0 <==> NonePassed(auth, rate, exposure)
  {
    var authScore := CountIf(auth, AuthPassed);
    var exposureScore := CountIf(exposure, ExposurePassed);
    assert authScore <= |auth| && exposureScore <= |exposure|;
  }

  /** A record without its flag fails its check, whatever its other fields. */
  lemma MissingFlagsFail(test: string, statusCode: Option<int>)
    ensures !AuthPassed(AuthRecord(test, statusCode, None))
    ensures !ExposurePassed(ExposureRecord(test, None))
  {
  }

  /** What the suite returns. */
  datatype SuiteResults = SuiteResults(
    timestamp: string,
    authenticationTests: seq<AuthRecord>,
    rateLimitingTests: RateLimitSummary,
    dataExposureTests: seq<ExposureRecord>,
    securityScore: real)

  /** Runs the three tests and scores them; `now` is the time stamp the suite records. */
  method RunSecurityChaosSuite(server: Option<string> -> Response, burst: nat -> Response, now: string)
    returns (suite: SuiteResults)
    ensures suite.timestamp == now
    ensures suite.authenticationTests == AuthResults(server)
    ensures suite.rateLimitingTests == Summarize(BurstRecords(burst))
    ensures suite.dataExposureTests == ExposureResults
    ensures suite.securityScore == SecurityScore(AuthResults(server), Summarize(BurstRecords(burst)), ExposureResults)
  {
    var authResults := TestAuthenticationBypass(server);
    var rateLimitResults, _ := TestRateLimiting(burst);
    var exposureResults := ExposureResults;
    var securityScore := SecurityScore(authResults, rateLimitResults, exposureResults);
    suite := SuiteResults(now, authResults, rateLimitResults, exposureResults, securityScore);
  }

  // ---------------------------------------------------------------- properties of a suite run

  /** The suite scores 100 exactly when every authentication case came back secure and at
      least one request of the burst was refused with 429 (the exposure result always
      passes). */
  lemma FullScoreIff(server: Option<string> -> Response, burst: nat -> Response)
    ensures SecurityScore(AuthResults(server), Summarize(BurstRecords(burst)), ExposureResults) == 100.0 <==>
      && (forall i :: 0 <= i < |AuthTestCases| ==> SecureOutcome(server(AuthTestCases[i].authorization)))
      && (exists i :: 0 <= i < BurstSize && burst(i) == Answered(429))
  {
    var auth := AuthResults(server);
    var rs := BurstRecords(burst);
    assert ExposurePassed(ExposureResults[0]);
    if exists i :: 0 <= i < BurstSize && burst(i) == Answered(429) {
      var i :| 0 <= i < BurstSize && burst(i) == Answered(429);
      assert RateLimited(rs[i]);
    }
    if Summarize(rs).rateLimitingEffective {
      var i :| 0 <= i < |rs| && rs[i].statusCode == Some(429);
      assert burst(i) == Answered(429);
    }
    assert forall i :: 0 <= i < |auth| ==> (AuthPassed(auth[i]) <==> SecureOutcome(server(AuthTestCases[i].authorization)));
  }

  /** The score never reaches 0: the fixed exposure result always passes, so with the six
      checks of a suite the score is at least one sixth of 100. */
  lemma ScoreFloor(server: Option<string> -> Response, burst: nat -> Response)
    ensures SecurityScore(AuthResults(server), Summarize(BurstRecords(burst)), ExposureResults) >= Percentage(1, 6)
  {
    var auth := AuthResults(server);
    var rate := Summarize(BurstRecords(burst));
    assert ExposurePassed(ExposureResults[0]);
    assert TotalChecks(auth, ExposureResults) == 6;
    PercentageMonotone(1, PassedChecks(auth, rate, ExposureResults), 6);
  }

  /** A server that answers every request with 200 (no authentication, no rate limiting)
      passes only the exposure check: its score is 100/6. */
  lemma OpenServerScore(server: Option<string> -> Response, burst: nat -> Response)
    requires forall a :: server(a) == Answered(200)
    requires forall i :: burst(i) == Answered(200)
    ensures SecurityScore(AuthResults(server), Summarize(BurstRecords(burst)), ExposureResults) * 6.0 == 100.0
    ensures Summarize(BurstRecords(burst)).successful == BurstSize
  {
    var auth := AuthResults(server);
    var rs := BurstRecords(burst);
    assert forall i :: 0 <= i < |auth| ==> !AuthPassed(auth[i]);
    assert forall i :: 0 <= i < |rs| ==> !RateLimited(rs[i]) && Successful(rs[i]);
    assert CountIf(ExposureResults, ExposurePassed) == 1;
    assert PassedChecks(auth, Summarize(rs), ExposureResults) == 1;
    assert TotalChecks(auth, ExposureResults) == 6;
    assert Percentage(1, 6) * 6.0 == 100.0;
  }
}
