/** The handler's resource registry as values: the two storage maps
    `ResourceIds` (asset to resource) and `CurrencyIds` (resource to asset),
    together with the events the pallet has deposited, and the two calls that
    change them, `register_resource_id` and `remove_resource_id`. */
module ResourceRegistry {
  import opened Primitives

  datatype Registry = Registry(
    resourceIds: map<AssetId, ResourceId>,
    currencyIds: map<ResourceId, AssetId>,
    events: seq<Event>)

  /** The state of a fresh chain: no mapping, no event. */
  const Empty := Registry(map[], map[], [])

  /** The new registry state and the result of one call. */
  datatype Step = Step(next: Registry, outcome: DispatchResult)

  /** Each map is the inverse of the other. */
  ghost predicate Bijective(s: Registry) {
    && (forall a :: a in s.resourceIds ==>
          s.resourceIds[a] in s.currencyIds && s.currencyIds[s.resourceIds[a]] == a)
    && (forall r :: r in s.currencyIds ==>
          s.currencyIds[r] in s.resourceIds && s.resourceIds[s.currencyIds[r]] == r)
  }

  /** The getter `resource_ids`. In a bijective registry the resource it
      returns maps back to the asset. */
  function ResourceIdOf(s: Registry, a: AssetId): (o: Option<ResourceId>)
    ensures o.Some? <==> a in s.resourceIds
    ensures Bijective(s) && o.Some? ==> o.value in s.currencyIds && s.currencyIds[o.value] == a
  {
    if a in s.resourceIds then Some(s.resourceIds[a]) else None
  }

  /** The getter `currency_ids`. In a bijective registry the asset it
      returns maps back to the resource. */
  function CurrencyIdOf(s: Registry, r: ResourceId): (o: Option<AssetId>)
    ensures o.Some? <==> r in s.currencyIds
    ensures Bijective(s) && o.Some? ==> o.value in s.resourceIds && s.resourceIds[o.value] == r
  {
    if r in s.currencyIds then Some(s.currencyIds[r]) else None
  }

  /** The two lookups agree in both directions. */
  lemma LookupsAgree(s: Registry, a: AssetId, r: ResourceId)
    requires Bijective(s)
    ensures ResourceIdOf(s, a) == Some(r) <==> CurrencyIdOf(s, r) == Some(a)
  {
  }

  /** `register_resource_id`, where `authorized` is the verdict of the
      registrar origin check. */
  function Register(s: Registry, authorized: bool, r: ResourceId, a: AssetId): (step: Step)
    // an unauthorised caller is rejected before anything changes
    ensures !authorized ==> step == Step(s, Err(BadOrigin))
    // registration never overwrites either direction
    ensures authorized && (a in s.resourceIds || r in s.currencyIds) ==>
              step == Step(s, Err(ResourceIdAlreadyRegistered))
    ensures step.outcome.Ok? <==> authorized && a !in s.resourceIds && r !in s.currencyIds
    ensures step.outcome.Err? ==> step.next == s
    // success binds both directions, logs exactly one event, and changes no other entry
    ensures step.outcome.Ok? ==>
              && ResourceIdOf(step.next, a) == Some(r)
              && CurrencyIdOf(step.next, r) == Some(a)
              && step.next.events == s.events + [RegisterResourceId(r, a)]
              && (forall a' :: a' != a ==> ResourceIdOf(step.next, a') == ResourceIdOf(s, a'))
              && (forall r' :: r' != r ==> CurrencyIdOf(step.next, r') == CurrencyIdOf(s, r'))
    ensures Bijective(s) ==> Bijective(step.next)
  {
    if !authorized then Step(s, Err(BadOrigin))
    else if a in s.resourceIds || r in s.currencyIds then Step(s, Err(ResourceIdAlreadyRegistered))
    else
      Step(Registry(s.resourceIds[a := r], s.currencyIds[r := a], s.events + [RegisterResourceId(r, a)]), Ok(()))
  }

  /** `remove_resource_id`, where `authorized` is the verdict of the
      registrar origin check. */
  function Remove(s: Registry, authorized: bool, r: ResourceId): (step: Step)
    // an unauthorised caller is rejected before anything changes
    ensures !authorized ==> step == Step(s, Err(BadOrigin))
    ensures step.outcome.Ok? <==> authorized
    // removing an unmapped resource succeeds, changes nothing and logs nothing
    ensures authorized && r !in s.currencyIds ==> step == Step(s, Ok(()))
    // removing a mapped resource unbinds both directions and logs it
    ensures authorized && r in s.currencyIds ==>
              var a := s.currencyIds[r];
              && ResourceIdOf(step.next, a) == None
              && CurrencyIdOf(step.next, r) == None
              && step.next.events == s.events + [UnregisterResourceId(r, a)]
              && (forall a' :: a' != a ==> ResourceIdOf(step.next, a') == ResourceIdOf(s, a'))
              && (forall r' :: r' != r ==> CurrencyIdOf(step.next, r') == CurrencyIdOf(s, r'))
    ensures Bijective(s) ==> Bijective(step.next)
  {
    if !authorized then Step(s, Err(BadOrigin))
    else if r in s.currencyIds then
      var a := s.currencyIds[r];
      Step(Registry(s.resourceIds - {a}, s.currencyIds - {r}, s.events + [UnregisterResourceId(r, a)]), Ok(()))
    else Step(s, Ok(()))
  }

  /** Removing the same resource twice is the same as removing it once. */
  lemma RemoveIdempotent(s: Registry, authorized: bool, r: ResourceId)
    ensures var once := Remove(s, authorized, r);
            Remove(once.next, authorized, r) == once
  {
  }

  /** A registry call with the verdict of its origin check. */
  datatype Call =
    | RegisterCall(authorized: bool, resourceId: ResourceId, currencyId: AssetId)
    | RemoveCall(authorized: bool, resourceId: ResourceId)

  function Apply(s: Registry, c: Call): Step {
    match c
    case RegisterCall(au, r, a) => Register(s, au, r, a)
    case RemoveCall(au, r) => Remove(s, au, r)
  }

  /** The registry after a sequence of calls, one after the other. */
  function Run(s: Registry, calls: seq<Call>): Registry
    decreases |calls|
  {
    if calls == [] then s else Run(Apply(s, calls[0]).next, calls[1..])
  }

  /** Every sequence of calls keeps the two maps inverse to each other. */
  lemma {:induction false} RunPreservesBijection(s: Registry, calls: seq<Call>)
    requires Bijective(s)
    ensures Bijective(Run(s, calls))
    decreases |calls|
  {
    if calls != [] {
      RunPreservesBijection(Apply(s, calls[0]).next, calls[1..]);
    }
  }

  /** A registry reached from the empty one, by any calls, is bijective. */
  lemma {:induction false} ReachableIsBijective(calls: seq<Call>)
    ensures Bijective(Run(Empty, calls))
  {
    RunPreservesBijection(Empty, calls);
  }

  /** The effect of one event on the registry it was deposited by. */
  function ApplyEvent(s: Registry, e: Event): Registry {
    match e
    case RegisterResourceId(r, a) =>
      Registry(s.resourceIds[a := r], s.currencyIds[r := a], s.events + [e])
    case UnregisterResourceId(r, a) =>
      Registry(s.resourceIds - {a}, s.currencyIds - {r}, s.events + [e])
  }

  /** The registry rebuilt from an event log alone. */
  function Replay(events: seq<Event>): Registry
    decreases |events|
  {
    if events == [] then Empty
    else ApplyEvent(Replay(events[..|events| - 1]), events[|events| - 1])
  }

  /** One call keeps the registry equal to the replay of its own log. */
  lemma StepReplays(s: Registry, c: Call)
    requires Replay(s.events) == s
    ensures Replay(Apply(s, c).next.events) == Apply(s, c).next
  {
  }

  /** The deposited events are a faithful record: replaying the log of any
      registry reached from the empty one by any calls rebuilds both maps. */
  lemma {:induction false} RunReplays(s: Registry, calls: seq<Call>)
    requires Replay(s.events) == s
    ensures Replay(Run(s, calls).events) == Run(s, calls)
    decreases |calls|
  {
    if calls != [] {
      StepReplays(s, calls[0]);
      RunReplays(Apply(s, calls[0]).next, calls[1..]);
    }
  }

  lemma {:induction false} ReachableReplays(calls: seq<Call>)
    ensures Replay(Run(Empty, calls).events) == Run(Empty, calls)
  {
    RunReplays(Empty, calls);
  }
}
