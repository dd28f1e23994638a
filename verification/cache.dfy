/** The key/value cache both use cases talk to, reduced to a finite map.
    Entries never expire here: the time-to-live only matters to the driver. */
module Cache {
  import opened Results
  import opened Entities

  /** What can sit under a key. The simulation loop stores the request it was
      given; the condition use case stores the whole tier list; anything else
      written by other clients is raw text. */
  datatype Payload =
    | RequestPayload(request: SimulationRequest)
    | ConditionsPayload(conditions: seq<LoanCondition>)
    | Text(text: string)

  type Store = map<string, Payload>

  /** `Get`: a present key is a hit, an absent one the driver's miss error. */
  function Lookup(store: Store, key: string): (found: Option<Payload>)
    ensures found.Some? <==> key in store
    ensures found.Some? ==> store[key] == found.value
  {
    if key in store then Some(store[key]) else None
  }

  /** The store after a `Set` the driver answered with `verdict`: a refused
      write leaves every entry as it was, an accepted one replaces exactly
      the entry under `key`. */
  function Write(store: Store, key: string, payload: Payload, verdict: Outcome): (after: Store)
    ensures verdict.Fail? ==> after == store
    ensures verdict.Pass? ==> after.Keys == store.Keys + {key} && after[key] == payload
    ensures forall k | k in store && k != key :: k in after && after[k] == store[k]
  {
    if verdict.Pass? then store[key := payload] else store
  }
}
