/** `LoanSimulation_usecase`: `CalculateLoan` and the sequential cache-aside
    batch loop `GetLoanSimulation`. */
module Simulation {
  import opened Results
  import opened Entities
  import opened Cache
  import opened Arithmetic
  import opened RateLookup

  const ConditionsErrorPrefix := "Error getting loan conditions, "
  const CalculationErrorPrefix := "Error calculating loan, "

  /** `CalculateLoan` as written. `conditions` is what `GetLoanConditions`
      answered and `now` is the clock reading. The installment value is
      computed, and `big.Float.Quo` panics when that is zero over zero (the
      one input excluded), but `createInstallments` receives the simulation
      and the running total by value, so the schedule and the total it
      builds are lost: the result carries a zero total and no installments,
      and the value itself (possibly an infinity) is never used. */
  function CalculateLoan(conditions: Result<seq<LoanCondition>>, request: SimulationRequest, now: Time)
    : (r: Result<LoanSimulation>)
    requires conditions.Ok? ==>
      !InstallmentPanics(request.loanAmount, SelectRate(conditions.value, Age(now, request.birthDate)),
                         request.installments)
    ensures r.Err? <==> conditions.Err?
    ensures conditions.Err? ==> r.error == ConditionsErrorPrefix + conditions.error
    ensures r.Ok? ==>
      && r.value.currency == request.currency
      && r.value.email == request.email
      && r.value.simulationDate == now
    ensures r.Ok? ==> r.value.amountTobePaid == r.value.amountFeeTobePaid
    ensures r.Ok? ==> r.value.amountTobePaid == 0.0 && r.value.installments == []
  {
    match conditions
    case Err(e) => Err(ConditionsErrorPrefix + e)
    case Ok(_) =>
      Ok(LoanSimulation(0.0, 0.0, now, request.currency, [], request.email))
  }

  /** `CalculateLoan` as evidently intended: the inclusive tier test, and the
      schedule and its total kept in the result. Every installment clears the
      loan in exactly the requested number of months. A term of no
      installments builds no lines, so its (infinite) installment value is
      never needed. */
  function CalculateLoanIntended(conditions: Result<seq<LoanCondition>>, request: SimulationRequest, now: Time)
    : (r: Result<LoanSimulation>)
    requires conditions.Ok? ==>
      var rate := SelectRateIntended(conditions.value, Age(now, request.birthDate));
      && !InstallmentPanics(request.loanAmount, rate, request.installments)
      && (request.installments >= 1 ==> Growth(rate, request.installments) != 1.0)
    ensures r.Err? <==> conditions.Err?
    ensures conditions.Err? ==> r.error == ConditionsErrorPrefix + conditions.error
    ensures r.Ok? ==>
      && r.value.currency == request.currency
      && r.value.email == request.email
      && r.value.simulationDate == now
    ensures r.Ok? ==> |r.value.installments| == if request.installments <= 0 then 0 else request.installments
    ensures r.Ok? ==>
      && r.value.amountTobePaid == r.value.amountFeeTobePaid
      && r.value.amountTobePaid == TotalAmount(r.value.installments)
    ensures r.Ok? ==> forall i | 0 <= i < |r.value.installments| ::
      && r.value.installments[i].number == i + 1
      && r.value.installments[i].feeAmount == r.value.installments[i].amount
      && r.value.installments[i].currency == request.currency
      && Balance(request.loanAmount,
                 MonthlyRate(SelectRateIntended(conditions.value, Age(now, request.birthDate))),
                 r.value.installments[i].amount, request.installments) == 0.0
  {
    match conditions
    case Err(e) => Err(ConditionsErrorPrefix + e)
    case Ok(tiers) =>
      if request.installments <= 0 then
        Ok(LoanSimulation(0.0, 0.0, now, request.currency, [], request.email))
      else
        var rate := SelectRateIntended(tiers, Age(now, request.birthDate));
        var installmentValue := InstallmentValue(request.loanAmount, rate, request.installments);
        InstallmentClearsLoan(request.loanAmount, rate, request.installments);
        var lines := Schedule(request.installments, installmentValue, request.currency);
        var total := TotalAmount(lines);
        Ok(LoanSimulation(total, total, now, request.currency, lines, request.email))
  }

  /** What the defects cost: wherever both definitions apply, the calculation
      as written fails exactly when the corrected one does, with the same
      error, and otherwise answers the corrected simulation with its
      schedule and totals stripped. */
  lemma CalculateLoanLosesOnlyTheSchedule(conditions: Result<seq<LoanCondition>>, request: SimulationRequest,
                                          now: Time)
    requires conditions.Ok? ==>
      !InstallmentPanics(request.loanAmount, SelectRate(conditions.value, Age(now, request.birthDate)),
                         request.installments)
    requires conditions.Ok? ==>
      var rate := SelectRateIntended(conditions.value, Age(now, request.birthDate));
      && !InstallmentPanics(request.loanAmount, rate, request.installments)
      && (request.installments >= 1 ==> Growth(rate, request.installments) != 1.0)
    ensures CalculateLoan(conditions, request, now).Err? ==>
              CalculateLoan(conditions, request, now) == CalculateLoanIntended(conditions, request, now)
    ensures CalculateLoan(conditions, request, now).Ok? ==>
              && CalculateLoanIntended(conditions, request, now).Ok?
              && CalculateLoan(conditions, request, now).value
                 == CalculateLoanIntended(conditions, request, now).value.(
                      amountTobePaid := 0.0, amountFeeTobePaid := 0.0, installments := [])
  {
  }

  /** The collaborators one pass of the batch loop talks to: the decoder of
      cached payloads (JSON, opaque here), the calculation, and the cache
      driver's answer to a write. */
  datatype Collaborators = Collaborators(
    decode: Payload -> Option<LoanSimulation>,
    calculate: SimulationRequest -> Result<LoanSimulation>,
    setVerdict: (string, Payload) -> Outcome)

  /** A request was answered with `simulation`, leaving the cache as `cache`. */
  datatype Served = Served(simulation: LoanSimulation, cache: Store)

  /** The entry under the request's email is present and decodes. */
  predicate CacheHit(request: SimulationRequest, cache: Store, env: Collaborators)
  {
    request.email in cache && env.decode(cache[request.email]).Some?
  }

  /** One iteration of the loop: a decodable cached simulation is emitted as
      it is; otherwise the loan is calculated, a failure ends the batch, and
      the request (not the result) is written under the result's email,
      whatever the driver answers. */
  function ServeRequest(request: SimulationRequest, cache: Store, env: Collaborators): (r: Result<Served>)
    ensures r.Err? <==> !CacheHit(request, cache, env) && env.calculate(request).Err?
    ensures r.Err? ==> r.error == CalculationErrorPrefix + env.calculate(request).error
    ensures CacheHit(request, cache, env) ==> r.Ok? && r.value.cache == cache
    ensures r.Ok? ==> r.value.cache.Keys <= cache.Keys + {r.value.simulation.email}
    ensures r.Ok? ==> forall key | key in cache && key != r.value.simulation.email ::
      key in r.value.cache && r.value.cache[key] == cache[key]
  {
    if CacheHit(request, cache, env) then
      Ok(Served(env.decode(cache[request.email]).value, cache))
    else
      match env.calculate(request)
      case Err(e) => Err(CalculationErrorPrefix + e)
      case Ok(simulation) =>
        var payload := RequestPayload(request);
        Ok(Served(simulation, Write(cache, simulation.email, payload, env.setVerdict(simulation.email, payload))))
  }

  /** What the loop returns, and the cache it leaves behind. */
  datatype Batch = Batch(result: Result<seq<LoanSimulation>>, cache: Store)

  /** The batch over `requests`, served in input order: the reference the loop
      is proved against. Defined on the last request so that every prefix is
      itself a batch. */
  function RunBatch(requests: seq<SimulationRequest>, cache: Store, env: Collaborators): (b: Batch)
    ensures b.result.Ok? ==> |b.result.value| == |requests|
    decreases |requests|
  {
    if |requests| == 0 then Batch(Ok([]), cache)
    else
      var before := RunBatch(requests[..|requests| - 1], cache, env);
      if before.result.Err? then before
      else
        match ServeRequest(requests[|requests| - 1], before.cache, env)
        case Err(e) => Batch(Err(e), before.cache)
        case Ok(served) => Batch(Ok(before.result.value + [served.simulation]), served.cache)
  }

  /** Once a batch has failed, further requests change nothing: neither the
      error nor the cache. */
  lemma {:induction false} AbortIgnoresLaterRequests(
    requests: seq<SimulationRequest>, later: seq<SimulationRequest>, cache: Store, env: Collaborators)
    requires RunBatch(requests, cache, env).result.Err?
    ensures RunBatch(requests + later, cache, env) == RunBatch(requests, cache, env)
    decreases |later|
  {
    if |later| > 0 {
      var all := requests + later;
      assert all[..|all| - 1] == requests + later[..|later| - 1];
      AbortIgnoresLaterRequests(requests, later[..|later| - 1], cache, env);
    } else {
      assert requests + later == requests;
    }
  }

  /** `GetLoanSimulation`: the loop over the requests with its early return. */
  method GetLoanSimulation(requests: seq<SimulationRequest>, cache: Store, env: Collaborators)
    returns (result: Result<seq<LoanSimulation>>, after: Store)
    ensures Batch(result, after) == RunBatch(requests, cache, env)
    ensures result.Ok? ==> |result.value| == |requests|
    ensures result.Err? ==> exists i :: 0 <= i < |requests| && env.calculate(requests[i]).Err?
  {
    var responses: seq<LoanSimulation> := [];
    after := cache;
    var i := 0;
    while i < |requests|
      invariant 0 <= i <= |requests|
      invariant RunBatch(requests[..i], cache, env) == Batch(Ok(responses), after)
    {
      var request := requests[i];
      assert requests[..i + 1][..i] == requests[..i];
      var cached := Lookup(after, request.email);
      if cached.Some? {
        var decoded := env.decode(cached.value);
        if decoded.Some? {
          responses := responses + [decoded.value];
          i := i + 1;
          continue;
        }
      }
      var response := env.calculate(request);
      if response.Err? {
        result := Err(CalculationErrorPrefix + response.error);
        assert requests[..i + 1] + requests[i + 1..] == requests;
        AbortIgnoresLaterRequests(requests[..i + 1], requests[i + 1..], cache, env);
        return;
      }
      var payload := RequestPayload(request);
      after := Write(after, response.value.email, payload, env.setVerdict(response.value.email, payload));
      responses := responses + [response.value];
      i := i + 1;
    }
    assert requests[..i] == requests;
    result := Ok(responses);
  }

  /** A successful batch succeeded on every prefix, and each prefix's answers
      are the leading answers of the whole batch. */
  lemma {:induction false} SuccessfulPrefix(requests: seq<SimulationRequest>, cache: Store, env: Collaborators, k: nat)
    requires k <= |requests|
    requires RunBatch(requests, cache, env).result.Ok?
    ensures RunBatch(requests[..k], cache, env).result.Ok?
    ensures RunBatch(requests[..k], cache, env).result.value == RunBatch(requests, cache, env).result.value[..k]
    decreases |requests|
  {
    if k == |requests| {
      assert requests[..k] == requests;
    } else {
      var shorter := requests[..|requests| - 1];
      assert shorter[..k] == requests[..k];
      SuccessfulPrefix(shorter, cache, env, k);
    }
  }

  /** In a successful batch, the answer at position `i` is what serving
      request `i` gave against the cache the first `i` requests left, and
      serving it produced the cache the next request sees: one answer per
      request, in input order. */
  lemma BatchAnswersInOrder(requests: seq<SimulationRequest>, cache: Store, env: Collaborators, i: nat)
    requires i < |requests|
    requires RunBatch(requests, cache, env).result.Ok?
    ensures RunBatch(requests[..i], cache, env).result.Ok?
    ensures ServeRequest(requests[i], RunBatch(requests[..i], cache, env).cache, env)
         == Ok(Served(RunBatch(requests, cache, env).result.value[i], RunBatch(requests[..i + 1], cache, env).cache))
  {
    SuccessfulPrefix(requests, cache, env, i);
    SuccessfulPrefix(requests, cache, env, i + 1);
    assert requests[..i + 1][..i] == requests[..i];
  }

  /** Request `k` is where the batch stops: everything before it succeeded
      and serving it failed. */
  ghost predicate FailsAt(requests: seq<SimulationRequest>, cache: Store, env: Collaborators, k: int)
  {
    && 0 <= k < |requests|
    && RunBatch(requests[..k], cache, env).result.Ok?
    && ServeRequest(requests[k], RunBatch(requests[..k], cache, env).cache, env).Err?
  }

  /** A failed batch failed at one request, and its outcome is that request's
      error with the cache as the earlier requests left it. */
  lemma {:induction false} BatchStopsAtFirstFailure(requests: seq<SimulationRequest>, cache: Store, env: Collaborators)
    requires RunBatch(requests, cache, env).result.Err?
    ensures exists k ::
      && FailsAt(requests, cache, env, k)
      && RunBatch(requests, cache, env)
         == Batch(Err(ServeRequest(requests[k], RunBatch(requests[..k], cache, env).cache, env).error),
                  RunBatch(requests[..k], cache, env).cache)
    decreases |requests|
  {
    var shorter := requests[..|requests| - 1];
    if RunBatch(shorter, cache, env).result.Err? {
      BatchStopsAtFirstFailure(shorter, cache, env);
      var k :| FailsAt(shorter, cache, env, k)
             && RunBatch(shorter, cache, env)
                == Batch(Err(ServeRequest(shorter[k], RunBatch(shorter[..k], cache, env).cache, env).error),
                         RunBatch(shorter[..k], cache, env).cache);
      assert shorter[..k] == requests[..k];
      assert FailsAt(requests, cache, env, k);
    } else {
      assert requests[..|requests| - 1] == shorter;
      assert FailsAt(requests, cache, env, |requests| - 1);
    }
  }

  /** Serving fails only when the entry is missing or undecodable and the
      calculation fails; the error carries the calculation's message. */
  lemma ServeFailsOnlyInCalculation(request: SimulationRequest, cache: Store, env: Collaborators)
    ensures ServeRequest(request, cache, env).Err? <==>
            !CacheHit(request, cache, env) && env.calculate(request).Err?
    ensures ServeRequest(request, cache, env).Err? ==>
            ServeRequest(request, cache, env).error == CalculationErrorPrefix + env.calculate(request).error
  {
  }

  /** A decodable cached entry is emitted as decoded, the cache is left as it
      is, and the calculation is never consulted: any other calculation and
      write policy give the same answer. */
  lemma CacheHitSkipsCalculation(request: SimulationRequest, cache: Store, env: Collaborators, other: Collaborators)
    requires CacheHit(request, cache, env)
    requires other.decode == env.decode
    ensures ServeRequest(request, cache, env) == Ok(Served(env.decode(cache[request.email]).value, cache))
    ensures ServeRequest(request, cache, other) == ServeRequest(request, cache, env)
  {
  }

  /** On a miss the calculated simulation is emitted and the request itself
      is offered to the cache under the simulation's email; only an accepted
      write changes the cache, and only under that key. */
  lemma CacheMissWritesRequest(request: SimulationRequest, cache: Store, env: Collaborators)
    requires !CacheHit(request, cache, env)
    requires env.calculate(request).Ok?
    ensures var simulation := env.calculate(request).value;
            var verdict := env.setVerdict(simulation.email, RequestPayload(request));
            && ServeRequest(request, cache, env).Ok?
            && ServeRequest(request, cache, env).value.simulation == simulation
            && (verdict.Pass? ==> ServeRequest(request, cache, env).value.cache
                                  == cache[simulation.email := RequestPayload(request)])
            && (verdict.Fail? ==> ServeRequest(request, cache, env).value.cache == cache)
  {
  }

  /** The driver's answer to the cache write never changes what a request is
      answered with, nor whether serving it succeeds. */
  lemma WriteVerdictIgnored(request: SimulationRequest, cache: Store, env: Collaborators,
                            verdicts: (string, Payload) -> Outcome)
    ensures var other := env.(setVerdict := verdicts);
            && (ServeRequest(request, cache, other).Ok? <==> ServeRequest(request, cache, env).Ok?)
            && (ServeRequest(request, cache, env).Ok? ==>
                  ServeRequest(request, cache, other).value.simulation
                  == ServeRequest(request, cache, env).value.simulation)
  {
  }

  /** With `CalculateLoan` as the calculation, a miss writes under the
      request's own email, since the result copies it: an accepted write
      stores the request there, and no other key changes either way. */
  lemma CalculatedKeyIsRequestEmail(conditions: Result<seq<LoanCondition>>, request: SimulationRequest, now: Time,
                                    cache: Store, env: Collaborators)
    requires conditions.Ok? ==>
      !InstallmentPanics(request.loanAmount, SelectRate(conditions.value, Age(now, request.birthDate)),
                         request.installments)
    requires env.calculate(request) == CalculateLoan(conditions, request, now)
    requires !CacheHit(request, cache, env)
    requires CalculateLoan(conditions, request, now).Ok?
    ensures ServeRequest(request, cache, env).Ok?
    ensures env.setVerdict(request.email, RequestPayload(request)).Pass? ==>
              ServeRequest(request, cache, env).value.cache == cache[request.email := RequestPayload(request)]
    ensures env.setVerdict(request.email, RequestPayload(request)).Fail? ==>
              ServeRequest(request, cache, env).value.cache == cache
    ensures ServeRequest(request, cache, env).value.cache.Keys <= cache.Keys + {request.email}
    ensures forall key | key in cache && key != request.email ::
              key in ServeRequest(request, cache, env).value.cache
              && ServeRequest(request, cache, env).value.cache[key] == cache[key]
  {
    CacheMissWritesRequest(request, cache, env);
  }

  /** A cache that refuses every write comes out of any batch unchanged. */
  lemma {:induction false} RefusedWritesKeepCache(requests: seq<SimulationRequest>, cache: Store, env: Collaborators)
    requires forall key, payload :: env.setVerdict(key, payload).Fail?
    ensures RunBatch(requests, cache, env).cache == cache
    decreases |requests|
  {
    if |requests| > 0 {
      RefusedWritesKeepCache(requests[..|requests| - 1], cache, env);
    }
  }
}
