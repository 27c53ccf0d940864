/** The admin interface: a PUT of a definition, and an applied decrease that is recorded. */
module AdminApi {
  import opened Wrappers
  import opened Limits
  import opened Registry
  import opened Decreases
  import LR = LimiterRuns
  import B = MemoryBackend
  import L = Limiter

  /** Capacity and window or timeout are positive, the other one is not set, kind and policy are known. */
  predicate IsValid(def: Definition) {
    && def.key != "" && def.capacity > 0 && !def.overage.OtherPolicy?
    && match def.kind
       case Rolling => def.windowSeconds > 0 && def.timeoutSeconds == 0
       case Concurrency => def.timeoutSeconds > 0 && def.windowSeconds == 0
       case OtherKind => false
  }

  class Handler {
    const registry: Registry
    const backend: B.Backend

    ghost predicate Valid()
      reads backend, backend.rollRepr, backend.concRepr
    {
      backend.Valid() && registry !in backend.rollRepr && registry !in backend.concRepr
    }

    ghost function Model(): Service
      reads registry, backend
    {
      Service(registry.states, backend.Model())
    }

    constructor (registry: Registry, backend: B.Backend)
      requires backend.Valid() && registry !in backend.rollRepr && registry !in backend.concRepr
      ensures Valid() && this.registry == registry && this.backend == backend
    {
      this.registry := registry;
      this.backend := backend;
    }

    /** Refuses what is not valid; else asks the registry, tells the backend and records. */
    method PutLimit(def: Definition) returns (status: Option<Status>)
      requires Valid()
      modifies registry, backend, backend.rollRepr, backend.concRepr
      ensures Valid() && Model() == if status.Some? then AdminPut(old(Model()), def) else old(Model())
      ensures status.Some? <==>
                && def.key != "" && def.capacity > 0 && (def.overage.Deny? || def.overage.Debt?)
                && (|| (def.kind.Rolling? && def.windowSeconds > 0 && def.timeoutSeconds == 0)
                    || (def.kind.Concurrency? && def.timeoutSeconds > 0 && def.windowSeconds == 0))
      ensures status.Some? ==> status.value == NextState(Lookup(old(registry.states), def.key), def).status
    {
      hide L.ApplyDefinition, B.Backend.Valid;
      if !IsValid(def) {
        return None;
      }
      var state := registry.NextStateFor(def);
      backend.ApplyDefinition(def);
      registry.Put(state);
      return Some(state.status);
    }

    /** Tries the pending decrease of a limit and records it if it was applied. */
    method TryApplyDecrease(key: string, clock: int)
      requires Valid()
      modifies registry, backend, backend.rollRepr, backend.concRepr
      ensures Valid() && Model() == Decrease(old(Model()), key, clock)
    {
      hide L.TryApplyDecrease, B.Backend.Valid;
      var applied := backend.TryApplyDecrease(key, clock);
      if applied.Some? {
        registry.Put(applied.value);
      }
    }
  }

  /** Every limit has a valid definition, and every pending decrease is to a capacity it can have. */
  ghost predicate Sound(registry: map<string, LimitState>) {
    forall k :: k in registry ==>
      && registry[k].definition.key == k && IsValid(registry[k].definition)
      && (registry[k].status.Decreasing? ==> 0 < registry[k].pendingDecreaseTo < registry[k].definition.capacity)
  }

  ghost predicate PutsAreValid(steps: seq<LR.Step>) {
    forall i :: 0 <= i < |steps| && steps[i].Defining? ==> IsValid(steps[i].def)
  }

  lemma ServeStaysSound(s: Service, step: LR.Step)
    requires Agree(s) && Sound(s.registry) && (step.Defining? ==> IsValid(step.def))
    ensures Sound(Serve(s, step).registry)
  {
    hide LR.WithinLimits, L.ApplyDefinition, L.TryApplyDecrease;
    match step
    case Decreasing(key, now) => DecreaseTouchesOneState(s.backend, key, now);
    case _ =>
  }

  lemma {:induction false} RunStaysSound(s: Service, steps: seq<LR.Step>)
    requires Agree(s) && Sound(s.registry) && LR.LegalRun(s.backend, steps) && PutsAreValid(steps)
    ensures Sound(ServeAll(s, steps).registry)
    decreases |steps|
  {
    hide Agree, Sound, Serve, LR.Legal, LR.Next;
    if steps != [] {
      ServeStaysSound(s, steps[0]);
      ServeAgrees(s, steps[0]);
      RunStaysSound(Serve(s, steps[0]), steps[1..]);
    }
  }

  /** After any run of valid PUTs, applied decreases and limiter traffic a pending decrease waits for
      usage and for nothing else: it is applied exactly when what the limit still holds fits it.  A state
      loaded from a file need not be sound, and can wait for ever. */
  lemma PendingDecreaseWaitsForUsageOnly(s: Service, steps: seq<LR.Step>, key: string, now: int)
    requires Agree(s) && Sound(s.registry) && LR.LegalRun(s.backend, steps) && PutsAreValid(steps)
    requires L.IsDecreasing(ServeAll(s, steps).registry, key)
    ensures var e := ServeAll(s, steps);
            && key in e.backend.defs
            && (L.TryApplyDecrease(e.backend, key, now).1.Some? <==>
                  LiveUsage(e.backend, key, now) <= e.registry[key].pendingDecreaseTo)
  {
    hide LR.WithinLimits, ServeAll, L.TryApplyDecrease, LiveUsage;
    RunStaysSound(s, steps);
    RegistryAgrees(s, steps);
    var e := ServeAll(s, steps);
    Filed(e.backend);
    DecreaseAppliesExactly(e.backend, key, now);
  }
}
