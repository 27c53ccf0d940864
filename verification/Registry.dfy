/** The registry of limit states the admin interface keeps beside the backend. */
module Registry {
  import opened Wrappers
  import opened Limits
  import opened Decreases
  import L = Limiter
  import LR = LimiterRuns

  /** The state a definition leads to, given the state known for its key. */
  function NextState(prev: Option<LimitState>, def: Definition): LimitState {
    if prev.None? || def.capacity >= prev.value.definition.capacity then LimitState(def, Active, 0)
    else LimitState(prev.value.definition, Status.Decreasing, def.capacity)
  }

  function Lookup(states: map<string, LimitState>, key: string): Option<LimitState> {
    if key in states then Some(states[key]) else None
  }

  class Registry {
    var states: map<string, LimitState>

    constructor ()
      ensures states == map[]
    {
      states := map[];
    }

    method Get(key: string) returns (state: Option<LimitState>)
      ensures state == Lookup(states, key)
    {
      state := if key in states then Some(states[key]) else None;
    }

    method Put(state: LimitState)
      modifies this
      ensures states == old(states)[state.definition.key := state]
    {
      states := states[state.definition.key := state];
    }

    method NextStateFor(def: Definition) returns (state: LimitState)
      ensures state == NextState(Lookup(states, def.key), def)
      ensures state.status.Active? <==> def.key in states ==> states[def.key].definition.capacity <= def.capacity
      ensures state.status.Active? ==> state.definition == def && state.pendingDecreaseTo == 0
      ensures state.status.Decreasing? ==>
                && state.definition == states[def.key].definition
                && state.pendingDecreaseTo == def.capacity < state.definition.capacity
    {
      var prev := Get(def.key);
      state := NextState(prev, def);
    }
  }

  /** The registry's states beside the backend. */
  datatype Service = Service(registry: map<string, LimitState>, backend: L.Backend)

  function Put(registry: map<string, LimitState>, state: LimitState): map<string, LimitState> {
    registry[state.definition.key := state]
  }

  /** An admin PUT as one step: ask the registry, tell the backend, record. */
  ghost function AdminPut(s: Service, def: Definition): Service {
    Service(Put(s.registry, NextState(Lookup(s.registry, def.key), def)), L.ApplyDefinition(s.backend, def))
  }

  /** An applied decrease is recorded in the attached registry. */
  ghost function Decrease(s: Service, key: string, now: int): Service {
    var d := L.TryApplyDecrease(s.backend, key, now);
    Service(if d.1.Some? then Put(s.registry, d.1.value) else s.registry, d.0)
  }

  /** Any step of the backend together with what it does to the registry. */
  ghost function Serve(s: Service, step: LR.Step): Service {
    match step
    case Defining(def) => AdminPut(s, def)
    case Decreasing(key, now) => Decrease(s, key, now)
    case _ => s.(backend := LR.Next(s.backend, step))
  }

  ghost function ServeAll(s: Service, steps: seq<LR.Step>): Service
    decreases |steps|
  {
    if steps == [] then s else ServeAll(Serve(s, steps[0]), steps[1..])
  }

  /** Registry and backend record the same states, and every store has its definition's capacity. */
  ghost predicate Agree(s: Service) {
    s.registry == s.backend.states && LR.WithinLimits(s.backend)
  }

  lemma ServeAgrees(s: Service, step: LR.Step)
    requires Agree(s) && LR.Legal(s.backend, step)
    ensures Agree(Serve(s, step)) && Serve(s, step).backend == LR.Next(s.backend, step)
  {
    hide LR.WithinLimits, L.Reserve, L.Complete, L.ApplyDefinition, L.TryApplyDecrease;
    LR.NextKeeps(s.backend, step);
    Filed(s.backend);
    match step
    case Reserving(req, now) => ReserveKeepsStates(s.backend, req, now);
    case Completing(done) => CompleteKeepsStates(s.backend, done);
    case Defining(def) => DefinitionStates(s.backend, def);
    case Decreasing(key, now) => DecreaseTouchesOneState(s.backend, key, now);
  }

  lemma Filed(b: L.Backend)
    requires LR.WithinLimits(b)
    ensures L.StatesMatch(b.defs, b.states)
  {
  }

  /** After any sequence of atomic PUTs, applied decreases and limiter traffic, registry and backend
      hold identical limit states, and every store's capacity is its definition's. */
  lemma {:induction false} RegistryAgrees(s: Service, steps: seq<LR.Step>)
    requires Agree(s) && LR.LegalRun(s.backend, steps)
    ensures Agree(ServeAll(s, steps)) && ServeAll(s, steps).backend == LR.Run(s.backend, steps)
    decreases |steps|
  {
    hide Agree, Serve, LR.Legal, LR.Next;
    if steps != [] {
      ServeAgrees(s, steps[0]);
      RegistryAgrees(Serve(s, steps[0]), steps[1..]);
    }
  }

  /** What the handler reads is what the backend, if it agrees, will record. */
  lemma NextStateIsTheBackends(registry: map<string, LimitState>, b: L.Backend, def: Definition)
    requires registry == b.states && L.StatesMatch(b.defs, b.states)
    ensures L.ApplyDefinition(b, def).states == Put(registry, NextState(Lookup(registry, def.key), def))
  {
    DefinitionStates(b, def);
  }

  // ---- The handler is not one step ----

  /** Two PUTs of one limit that both read before either is recorded; the backend takes `a` first. The
      first two cases are the order in which they are recorded. */
  lemma InterleavedPutsAgreeExactly(registry: map<string, LimitState>, b: L.Backend, first: Definition,
          second: Definition)
    requires registry == b.states && L.StatesMatch(b.defs, b.states) && first.key == second.key
    ensures var prev := Lookup(registry, first.key);
            var one, two := NextState(prev, first), NextState(prev, second);
            var states := L.ApplyDefinition(L.ApplyDefinition(b, first), second).states;
            && (Put(Put(registry, one), two) == states <==>
                  || second.capacity >= first.capacity
                  || (prev.Some? && first.capacity < prev.value.definition.capacity)
                  || (prev.Some? && first == prev.value.definition && second.capacity < first.capacity))
            && (Put(Put(registry, two), one) == states <==>
                  if prev.Some? && first.capacity < prev.value.definition.capacity then
                    second.capacity == first.capacity
                  else second == first)
  {
    var key, prev := first.key, Lookup(registry, first.key);
    var one, two := NextState(prev, first), NextState(prev, second);
    var c := L.ApplyDefinition(b, first);
    DefinitionStates(b, first);
    DefinitionStates(c, second);
    var states := L.ApplyDefinition(c, second).states;
    hide L.ApplyDefinition, Put;
    SameButOne(registry, states, one, two, key);
    SameButOne(registry, states, two, one, key);
  }

  /** Only the last state recorded for a key counts. */
  lemma SameButOne(registry: map<string, LimitState>, states: map<string, LimitState>, one: LimitState, two: LimitState,
          key: string)
    requires one.definition.key == two.definition.key == key && key in states
    requires states == registry[key := states[key]]
    ensures Put(Put(registry, one), two) == states <==> two == states[key]
  {
    assert Put(Put(registry, one), two) == registry[key := two];
  }

  /** For instance a limit of 10, raised to 20 and to 15: the backend waits to decrease a limit that the
      registry lists as active. */
  lemma InterleavedPutsDisagree(def: Definition, s: Service)
    requires def.kind.Rolling? && def.capacity == 10
    requires s == AdminPut(Service(map[], L.EMPTY), def)
    ensures var raise, other := def.(capacity := 20), def.(capacity := 15);
            var read1, read2 := NextState(Lookup(s.registry, def.key), raise),
                NextState(Lookup(s.registry, def.key), other);
            var b := L.ApplyDefinition(L.ApplyDefinition(s.backend, raise), other);
            var registry := Put(Put(s.registry, read1), read2);
            && registry[def.key] == LimitState(other, Active, 0)
            && b.states[def.key] == LimitState(raise, Status.Decreasing, 15)
  {
    hide L.UpdateCapacity, L.EnsureStores;
    var raise, other := def.(capacity := 20), def.(capacity := 15);
    DefinitionStates(L.EMPTY, def);
    DefinitionStates(s.backend, raise);
    DefinitionStates(L.ApplyDefinition(s.backend, raise), other);
  }

  // ---- Nor is recording an applied decrease ----

  /** The backend releases its lock before it records an applied decrease.  A PUT that read before that
      either is overwritten, and then must be the very definition applied, or overwrites. */
  lemma RecordingAgreesExactly(registry: map<string, LimitState>, b: L.Backend, def: Definition, now: int)
    requires registry == b.states && L.StatesMatch(b.defs, b.states) && L.TryApplyDecrease(b, def.key, now).1.Some?
    ensures var read, d := NextState(Lookup(registry, def.key), def), L.TryApplyDecrease(b, def.key, now);
            var applied, states := d.1.value, L.ApplyDefinition(d.0, def).states;
            && def.key in b.defs
            && (Put(Put(registry, read), applied) == states <==> def == applied.definition)
            && (Put(Put(registry, applied), read) == states <==> def.capacity >= b.defs[def.key].capacity)
  {
    hide L.TryApplyDecrease, L.ApplyDefinition;
    var key, read, d := def.key, NextState(Lookup(registry, def.key), def), L.TryApplyDecrease(b, def.key, now);
    DecreaseTouchesOneState(b, key, now);
    DefinitionStates(d.0, def);
    var states := L.ApplyDefinition(d.0, def).states;
    SameButOne(registry, states, read, d.1.value, key);
    SameButOne(registry, states, d.1.value, read, key);
  }

  /** When the decrease applied is that of the PUT itself, registry and backend agree only if the
      decrease is recorded last. */
  lemma OwnDecreaseRecordedFirst(registry: map<string, LimitState>, b: L.Backend, def: Definition, now: int)
    requires registry == b.states && L.StatesMatch(b.defs, b.states)
    requires L.TryApplyDecrease(L.ApplyDefinition(b, def), def.key, now).1.Some?
    ensures var read, d := NextState(Lookup(registry, def.key), def),
        L.TryApplyDecrease(L.ApplyDefinition(b, def), def.key, now);
            Put(Put(registry, read), d.1.value) == d.0.states && Put(Put(registry, d.1.value), read) != d.0.states
  {
    hide L.TryApplyDecrease, L.ApplyDefinition;
    var key, read, c := def.key, NextState(Lookup(registry, def.key), def), L.ApplyDefinition(b, def);
    var d := L.TryApplyDecrease(c, key, now);
    DefinitionStates(b, def);
    DecreaseTouchesOneState(c, key, now);
    SameButOne(registry, d.0.states, read, d.1.value, key);
    SameButOne(registry, d.0.states, d.1.value, read, key);
  }
}
