/** `LoanCondition_usecase`: the cache-aside read of the tier list, the
    field-map update of one tier, and the seeding of the default tiers. */
module Conditions {
  import opened Results
  import opened Entities
  import opened Cache

  /** The one cache key the whole tier list lives under. */
  const AllConditionsKey := "*"

  const RepositoryErrorPrefix := "Error getting loan conditions: "
  const CacheWriteErrorPrefix := "Error setting loan conditions in cache: "

  /** What `GetLoanConditions` returns and the cache it leaves behind. */
  datatype ConditionsRead = ConditionsRead(result: Result<seq<LoanCondition>>, cache: Store)

  /** `GetLoanConditions`. `decode` stands for the JSON decoding of a cached
      payload, `repository` for what reading the whole collection would
      answer, and `setVerdict` for the cache driver's answer to a write. A
      present entry is always a success: an undecodable one yields the empty
      list. On a miss the repository is read; a non-empty list is written
      back and a refused write fails the call; an empty list is returned as
      it is, without a write. */
  function GetLoanConditions(cache: Store, decode: Payload -> Option<seq<LoanCondition>>,
                             repository: Result<seq<LoanCondition>>,
                             setVerdict: (string, Payload) -> Outcome): (r: ConditionsRead)
    ensures AllConditionsKey in cache ==> r.result.Ok? && r.cache == cache
    ensures AllConditionsKey !in cache && repository.Err? ==>
      r == ConditionsRead(Err(RepositoryErrorPrefix + repository.error), cache)
    ensures r.result.Ok? && AllConditionsKey !in cache ==> repository.Ok? && r.result.value == repository.value
    ensures r.cache != cache ==>
      && AllConditionsKey !in cache
      && repository.Ok? && |repository.value| > 0
      && r.cache == cache[AllConditionsKey := ConditionsPayload(repository.value)]
  {
    if AllConditionsKey in cache then
      var conditions := match decode(cache[AllConditionsKey])
        case Some(decoded) => decoded
        case None => [];
      ConditionsRead(Ok(conditions), cache)
    else
      match repository
      case Err(e) => ConditionsRead(Err(RepositoryErrorPrefix + e), cache)
      case Ok(conditions) =>
        if |conditions| > 0 then
          var payload := ConditionsPayload(conditions);
          match setVerdict(AllConditionsKey, payload)
          case Fail(e) => ConditionsRead(Err(CacheWriteErrorPrefix + e), cache)
          case Pass => ConditionsRead(Ok(conditions), Write(cache, AllConditionsKey, payload, Pass))
        else
          ConditionsRead(Ok(conditions), cache)
  }

  /** A present entry answers the call: the repository and the write policy
      are never consulted, and the answer is the decoded list (or the empty
      list when decoding fails) with no error. */
  lemma CacheHitIgnoresRepository(cache: Store, decode: Payload -> Option<seq<LoanCondition>>,
                                  repository: Result<seq<LoanCondition>>, setVerdict: (string, Payload) -> Outcome,
                                  otherRepository: Result<seq<LoanCondition>>, otherVerdict: (string, Payload) -> Outcome)
    requires AllConditionsKey in cache
    ensures GetLoanConditions(cache, decode, repository, setVerdict)
         == GetLoanConditions(cache, decode, otherRepository, otherVerdict)
    ensures var decoded := decode(cache[AllConditionsKey]);
            GetLoanConditions(cache, decode, repository, setVerdict).result
            == Ok(if decoded.Some? then decoded.value else [])
  {
  }

  /** On a miss with a non-empty list the write under "*" decides the call:
      accepted, the list is returned and cached; refused, the call fails with
      the driver's error wrapped and the cache is unchanged. */
  lemma CacheMissWritesNonEmptyList(cache: Store, decode: Payload -> Option<seq<LoanCondition>>,
                                    conditions: seq<LoanCondition>, setVerdict: (string, Payload) -> Outcome)
    requires AllConditionsKey !in cache
    requires |conditions| > 0
    ensures var verdict := setVerdict(AllConditionsKey, ConditionsPayload(conditions));
            var read := GetLoanConditions(cache, decode, Ok(conditions), setVerdict);
            && (verdict.Pass? ==> read == ConditionsRead(Ok(conditions), cache[AllConditionsKey := ConditionsPayload(conditions)]))
            && (verdict.Fail? ==> read == ConditionsRead(Err(CacheWriteErrorPrefix + verdict.error), cache))
  {
  }

  /** On a miss with an empty list nothing is written and the empty list is
      returned with no error, whatever the write policy. */
  lemma CacheMissEmptyListNotCached(cache: Store, decode: Payload -> Option<seq<LoanCondition>>,
                                    setVerdict: (string, Payload) -> Outcome)
    requires AllConditionsKey !in cache
    ensures GetLoanConditions(cache, decode, Ok([]), setVerdict) == ConditionsRead(Ok([]), cache)
  {
  }

  /** Cache-aside round trip: after a miss that cached the list, a second
      read is served from the cache and returns the same list, whatever the
      repository would say then, provided decoding inverts the encoding. */
  lemma {:induction false} SecondReadServedFromCache(cache: Store, decode: Payload -> Option<seq<LoanCondition>>,
                                                     conditions: seq<LoanCondition>,
                                                     setVerdict: (string, Payload) -> Outcome,
                                                     laterRepository: Result<seq<LoanCondition>>)
    requires AllConditionsKey !in cache
    requires |conditions| > 0
    requires setVerdict(AllConditionsKey, ConditionsPayload(conditions)).Pass?
    requires decode(ConditionsPayload(conditions)) == Some(conditions)
    ensures var first := GetLoanConditions(cache, decode, Ok(conditions), setVerdict);
            && first.result == Ok(conditions)
            && GetLoanConditions(first.cache, decode, laterRepository, setVerdict)
               == ConditionsRead(Ok(conditions), first.cache)
  {
    var first := GetLoanConditions(cache, decode, Ok(conditions), setVerdict);
    assert first.cache == cache[AllConditionsKey := ConditionsPayload(conditions)];
    assert first.cache[AllConditionsKey] == ConditionsPayload(conditions);
  }

  /** A value stored in the update's field map. */
  datatype FieldValue = TextField(text: string) | RateField(rate: real) | AgeField(age: int)

  /** The update `SetLoanCondition` hands to the repository: the document key
      and the fields to overwrite. */
  datatype UpdateCall = UpdateCall(key: string, fields: map<string, FieldValue>)

  /** The update for a tier: keyed by its name, overwriting its name, rate
      and both bounds, and leaving the modification date alone. */
  function ConditionUpdate(condition: LoanCondition): (call: UpdateCall)
    ensures call.key == condition.name
    ensures call.fields.Keys == {"name", "InterestRate", "MaxAge", "MinAge"}
    ensures "ModifiedDate" !in call.fields
  {
    UpdateCall(condition.name, map[
      "name" := TextField(condition.name),
      "InterestRate" := RateField(condition.interestRate),
      "MaxAge" := AgeField(condition.maxAge),
      "MinAge" := AgeField(condition.minAge)])
  }

  /** Reads a tier back from an update's fields, taking the modification date
      from elsewhere since the update does not carry it. */
  function ConditionFromFields(fields: map<string, FieldValue>, modifiedDate: Time): (condition: Option<LoanCondition>)
  {
    if && "name" in fields && fields["name"].TextField?
       && "InterestRate" in fields && fields["InterestRate"].RateField?
       && "MaxAge" in fields && fields["MaxAge"].AgeField?
       && "MinAge" in fields && fields["MinAge"].AgeField?
    then Some(LoanCondition(fields["name"].text, fields["InterestRate"].rate,
                            fields["MinAge"].age, fields["MaxAge"].age, modifiedDate))
    else None
  }

  /** The update loses nothing but the modification date: the tier can be
      read back from its fields. */
  lemma ConditionUpdateRoundTrip(condition: LoanCondition)
    ensures ConditionFromFields(ConditionUpdate(condition).fields, condition.modifiedDate) == Some(condition)
  {
  }

  /** `SetLoanCondition`: one update issued to the repository, whose answer is
      passed back unchanged (nil stays nil). The update sent is keyed by the
      tier's name and carries the whole tier but its modification date. */
  function SetLoanCondition(condition: LoanCondition, update: UpdateCall -> Outcome): (answer: Outcome)
    ensures exists call: UpdateCall ::
      && call.key == condition.name
      && ConditionFromFields(call.fields, condition.modifiedDate) == Some(condition)
      && answer == update(call)
  {
    ConditionUpdateRoundTrip(condition);
    update(ConditionUpdate(condition))
  }

  /** The repository's answer to the tier's update is the call's answer,
      error text included. */
  lemma SetLoanConditionPassesAnswerThrough(condition: LoanCondition, update: UpdateCall -> Outcome)
    ensures var call := ConditionUpdate(condition);
            && call.key == condition.name
            && (update(call).Pass? ==> SetLoanCondition(condition, update) == Pass)
            && (update(call).Fail? ==> SetLoanCondition(condition, update) == Fail(update(call).error))
  {
  }

  /** The four tiers seeded at start-up, in the order they are saved. The
      third and fourth reuse the name "tier2". */
  const DefaultTiers: seq<LoanCondition> := [
    LoanCondition("tier1", 5.0, 18, 25, ZeroTime),
    LoanCondition("tier2", 3.0, 26, 40, ZeroTime),
    LoanCondition("tier2", 2.0, 41, 60, ZeroTime),
    LoanCondition("tier2", 4.0, 61, 100, ZeroTime)
  ]

  /** The error text for a failed save of tier `number` (counted from 1). */
  function SeedError(number: nat, cause: string): (message: string)
    requires 1 <= number <= 4
  {
    "Error saving default loan condition for tier " + ["1", "2", "3", "4"][number - 1] + ": " + cause
  }

  /** One seeding run: the tiers handed to `save`, in order, and the result. */
  datatype SeedRun = SeedRun(attempted: seq<LoanCondition>, result: Outcome)

  /** Saving the default tiers from position `from` on, stopping at the first
      refused save. The tiers attempted are a run of the list starting at
      `from`; all but a failing last one were saved. */
  function SeedFrom(from: nat, save: LoanCondition -> Outcome): (run: SeedRun)
    requires from <= |DefaultTiers|
    ensures from + |run.attempted| <= |DefaultTiers|
    ensures run.attempted == DefaultTiers[from..from + |run.attempted|]
    ensures run.result.Pass? ==> from + |run.attempted| == |DefaultTiers|
    ensures forall j | from <= j < from + |run.attempted| && (run.result.Pass? || j < from + |run.attempted| - 1) ::
      save(DefaultTiers[j]).Pass?
    ensures run.result.Fail? ==>
      && |run.attempted| >= 1
      && save(DefaultTiers[from + |run.attempted| - 1]).Fail?
      && run.result == Fail(SeedError(from + |run.attempted|, save(DefaultTiers[from + |run.attempted| - 1]).error))
    decreases |DefaultTiers| - from
  {
    if from == |DefaultTiers| then SeedRun([], Pass)
    else
      var tier := DefaultTiers[from];
      match save(tier)
      case Fail(e) => SeedRun([tier], Fail(SeedError(from + 1, e)))
      case Pass =>
        var rest := SeedFrom(from + 1, save);
        assert [tier] + DefaultTiers[from + 1..from + 1 + |rest.attempted|] == DefaultTiers[from..from + 1 + |rest.attempted|];
        SeedRun([tier] + rest.attempted, rest.result)
  }

  /** `InitLoanEngineConditionsData`: the four tiers saved in order. All four
      saved gives nil; otherwise the first refused save, at position `k`,
      names tier `k + 1`, and no later tier is attempted. */
  function InitLoanEngineConditionsData(save: LoanCondition -> Outcome): (run: SeedRun)
    ensures run.result.Pass? <==> forall i | 0 <= i < |DefaultTiers| :: save(DefaultTiers[i]).Pass?
    ensures run.result.Pass? ==> run.attempted == DefaultTiers
    ensures run.result.Fail? ==>
      var k := |run.attempted| - 1;
      && 0 <= k < |DefaultTiers|
      && (forall j | 0 <= j < k :: save(DefaultTiers[j]).Pass?)
      && save(DefaultTiers[k]).Fail?
      && run.attempted == DefaultTiers[..k + 1]
      && run.result == Fail(SeedError(k + 1, save(DefaultTiers[k]).error))
  {
    SeedFrom(0, save)
  }

  /** The seeded brackets: each in order, contiguous from 18 to 100 without
      overlap. */
  lemma DefaultTiersPartitionAges()
    ensures |DefaultTiers| == 4
    ensures forall i | 0 <= i < |DefaultTiers| :: DefaultTiers[i].minAge <= DefaultTiers[i].maxAge
    ensures DefaultTiers[0].minAge == 18 && DefaultTiers[3].maxAge == 100
    ensures forall i | 0 <= i < |DefaultTiers| - 1 :: DefaultTiers[i + 1].minAge == DefaultTiers[i].maxAge + 1
    ensures DefaultTiers[2].name == "tier2" && DefaultTiers[3].name == "tier2"
  {
  }
}
