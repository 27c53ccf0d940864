/** Building the requirements of an LLM call, and what the limiter may rely on about them. */
module Requirements {
  import opened Limits
  import opened Limiter
  import opened LimiterFacts
  import opened LimiterRuns
  import opened LedgerRefinement
  import R = RollingSpec

  function RpmKey(provider: string, model: string): string {
    "global:llm:" + provider + ":" + model + ":rpm"
  }

  function TpmKey(provider: string, model: string): string {
    "global:llm:" + provider + ":" + model + ":tpm"
  }

  function ConcurrencyKey(provider: string, model: string): string {
    "global:llm:" + provider + ":" + model + ":concurrency"
  }

  function DailyKey(tenant: string): string {
    "tenant:" + tenant + ":llm:daily_tokens"
  }

  /** The estimate is the number of bytes of the prompt, passed in as `promptBytes`. */
  function Build(tenant: string, provider: string, model: string, promptBytes: nat, maxOutputTokens: nat,
          wantDailyBudget: bool): seq<Requirement>
  {
    var upper := promptBytes + maxOutputTokens;
    var reqs := [
      Requirement(RpmKey(provider, model), 1),
      Requirement(TpmKey(provider, model), upper),
      Requirement(ConcurrencyKey(provider, model), 1)];
    if wantDailyBudget then reqs + [Requirement(DailyKey(tenant), upper)] else reqs
  }

  /** The four keys differ, whatever strings the provider, the model and the tenant are. */
  lemma KeysDiffer(provider: string, model: string, tenant: string)
    ensures RpmKey(provider, model) != TpmKey(provider, model)
    ensures RpmKey(provider, model) != ConcurrencyKey(provider, model)
    ensures TpmKey(provider, model) != ConcurrencyKey(provider, model)
    ensures DailyKey(tenant) != RpmKey(provider, model)
    ensures DailyKey(tenant) != TpmKey(provider, model)
    ensures DailyKey(tenant) != ConcurrencyKey(provider, model)
  {
    var r, t, c, d := RpmKey(provider, model), TpmKey(provider, model), ConcurrencyKey(provider, model),
        DailyKey(tenant);
    assert r[|r| - 3] == 'r' && t[|t| - 3] == 't';
    assert r[|r| - 1] == 'm' && t[|t| - 1] == 'm' && c[|c| - 1] == 'y';
    assert r[0] == t[0] == c[0] == 'g' && d[0] == 't';
  }

  /** Every request the scheduler builds names each limit once. */
  lemma BuildIsDistinct(tenant: string, provider: string, model: string, promptBytes: nat, maxOutputTokens: nat,
          wantDailyBudget: bool)
    ensures var reqs := Build(tenant, provider, model, promptBytes, maxOutputTokens, wantDailyBudget);
            DistinctKeys(reqs) && reqs != [] && reqs[2].key == ConcurrencyKey(provider, model)
  {
    hide RpmKey, TpmKey, ConcurrencyKey, DailyKey;
    KeysDiffer(provider, model, tenant);
  }

  /** It asks for one request, one slot, and prompt and answer in tokens; the tokens also of the tenant's day
      if that is wanted; and for nothing else. */
  lemma BuildAsksExactly(tenant: string, provider: string, model: string, promptBytes: nat, maxOutputTokens: nat,
          wantDailyBudget: bool, r: Requirement)
    ensures r in Build(tenant, provider, model, promptBytes, maxOutputTokens, wantDailyBudget) <==>
            || (r.key == RpmKey(provider, model) && r.amount == 1)
            || (r.key == TpmKey(provider, model) && r.amount == promptBytes + maxOutputTokens)
            || (r.key == ConcurrencyKey(provider, model) && r.amount == 1)
            || (r.key == DailyKey(tenant) && r.amount == promptBytes + maxOutputTokens && wantDailyBudget)
  {
    hide RpmKey, TpmKey, ConcurrencyKey, DailyKey;
  }

  // ---- Replay ----

  function Elements(reqs: seq<Requirement>): set<Requirement> {
    set r | r in reqs
  }

  lemma {:induction false} DistinctSize(reqs: seq<Requirement>)
    requires DistinctKeys(reqs)
    ensures |Elements(reqs)| == |reqs|
  {
    if reqs != [] {
      var n := |reqs| - 1;
      DistinctSize(reqs[..n]);
      assert reqs == reqs[..n] + [reqs[n]];
      assert Elements(reqs) == Elements(reqs[..n]) + {reqs[n]};
    }
  }

  lemma {:induction false} ContainedAndAsLarge(a: set<Requirement>, b: set<Requirement>)
    requires a <= b && |a| == |b|
    ensures a == b
  {
    if a != {} {
      var x :| x in a;
      ContainedAndAsLarge(a - {x}, b - {x});
    } else {
      assert |b| == 0;
    }
  }

  /** On duplicate-free lists the replay test is equality as sets: the lookup only shows that every
      requirement of `b` is one of `a`, and as there are as many, they are the same ones. */
  lemma RequirementsEqualIsSetEquality(a: seq<Requirement>, b: seq<Requirement>)
    requires DistinctKeys(a) && DistinctKeys(b)
    ensures RequirementsEqual(a, b) <==> Elements(a) == Elements(b)
  {
    hide IndexByKey;
    DistinctSize(a);
    DistinctSize(b);
    forall i | 0 <= i < |a|
      ensures a[i].key in IndexByKey(a) && IndexByKey(a)[a[i].key] == a[i].amount
    {
      IndexByKeyFinds(a, i);
    }
    KeysOf(a);
    if RequirementsEqual(a, b) {
      forall r | r in b
        ensures r in a
      {
        var j :| 0 <= j < |b| && b[j] == r;
        var i :| 0 <= i < |a| && a[i].key == r.key;
        assert a[i] == r;
      }
      ContainedAndAsLarge(Elements(b), Elements(a));
    }
    if Elements(a) == Elements(b) {
      forall j | 0 <= j < |b|
        ensures b[j].key in IndexByKey(a) && IndexByKey(a)[b[j].key] == b[j].amount
      {
        assert b[j] in Elements(a);
        var i :| 0 <= i < |a| && a[i] == b[j];
      }
    }
  }

  lemma KeysOf(a: seq<Requirement>)
    ensures forall k :: k in IndexByKey(a) <==> exists i :: 0 <= i < |a| && a[i].key == k
  {
  }

  /** Asking again for a lease already granted, in whatever order the requirements are listed, gets the same
      answer and reserves nothing more. */
  lemma ReplayReservesNothing(b: Backend, req: ReserveRequest, now: int, again: ReserveRequest, later: int)
    requires req.leaseID !in b.leases && Reserve(b, req, now).1.allowed
    requires again.leaseID == req.leaseID && Elements(again.requirements) == Elements(req.requirements)
    requires DistinctKeys(again.requirements) && DistinctKeys(req.requirements)
    ensures Reserve(Reserve(b, req, now).0, again, later) == Reserve(b, req, now)
  {
    hide PurgeAll, CommitAll, RequirementsEqual, MaxRetry, FirstDecreasing, FirstUnknown;
    RequirementsEqualIsSetEquality(req.requirements, again.requirements);
    assert req.requirements[0] in Elements(again.requirements);
  }

  // ---- Amounts ----

  const WORD: nat := 0x1_0000_0000_0000_0000

  /** The admission test as 64-bit unsigned arithmetic computes it. */
  predicate AdmitsInWords(used: nat, amount: nat, capacity: nat) {
    (used + amount) % WORD <= capacity
  }

  /** In 64-bit arithmetic the admission test is the true one for every possible usage exactly when
      nothing is asked for or the capacity and the requested amount do not wrap together. */
  lemma WordTestIsExact(amount: nat, capacity: nat)
    requires amount < WORD && capacity < WORD
    ensures (forall used: nat :: used <= capacity ==>
              (AdmitsInWords(used, amount, capacity) <==> used + amount <= capacity))
            <==> amount == 0 || capacity + amount < WORD
  {
    if capacity + amount >= WORD {
      assert AdmitsInWords(capacity, amount, capacity);
    }
  }

  // ---- Duplicates ----

  function TotalFor(reqs: seq<Requirement>, n: nat, key: string): nat
    requires n <= |reqs|
  {
    if n == 0 then 0 else TotalFor(reqs, n - 1, key) + if reqs[n - 1].key == key then reqs[n - 1].amount else 0
  }

  /** The largest amount the first `n` requirements name for a limit. */
  function LargestFor(reqs: seq<Requirement>, n: nat, key: string): nat
    requires n <= |reqs|
  {
    if n == 0 then 0
    else
      var before := LargestFor(reqs, n - 1, key);
      if reqs[n - 1].key == key && reqs[n - 1].amount > before then reqs[n - 1].amount else before
  }

  lemma {:induction false} LargestBounds(reqs: seq<Requirement>, n: nat, key: string)
    requires n <= |reqs|
    ensures forall i :: 0 <= i < n && reqs[i].key == key ==> reqs[i].amount <= LargestFor(reqs, n, key)
    ensures LargestFor(reqs, n, key) <= TotalFor(reqs, n, key)
    ensures LargestFor(reqs, n, key) > 0 ==>
            exists i :: 0 <= i < n && reqs[i].key == key && reqs[i].amount == LargestFor(reqs, n, key)
  {
    if n > 0 {
      LargestBounds(reqs, n - 1, key);
    }
  }

  /** A granted request, duplicate keys or not, adds all it names to a rolling limit. */
  lemma {:induction false} CommitAddsTotal(b: Backend, leaseID: string, reqs: seq<Requirement>, now: int, n: nat,
          key: string)
    requires n <= |reqs| && key in b.roll && key in b.defs && b.defs[key].kind.Rolling? && R.WellFormed(b.roll[key])
    ensures var c := CommitAll(b, leaseID, reqs, now, n);
            && key in c.roll && R.WellFormed(c.roll[key]) && c.roll[key].cap == b.roll[key].cap
            && R.Used(c.roll[key]) == R.Used(b.roll[key]) + TotalFor(reqs, n, key)
  {
    hide CommitOne, R.WellFormed, R.Sum;
    if n > 0 {
      CommitAddsTotal(b, leaseID, reqs, now, n - 1, key);
      var p, r := CommitAll(b, leaseID, reqs, now, n - 1), reqs[n - 1];
      CommitAllOutside(b, leaseID, reqs, now, n - 1);
      CommitOneAt(p, leaseID, r, now);
      R.AddWellFormed(p.roll[key], leaseID, r.amount, now + b.defs[key].windowSeconds * SECOND);
    }
  }

  /** A new lease is granted on a rolling limit of this capacity. */
  ghost predicate Grants(b: Backend, req: ReserveRequest, now: int, key: string, capacity: nat) {
    && WithinLimits(b) && key in b.defs && b.defs[key].kind.Rolling? && b.defs[key].capacity == capacity
    && req.leaseID !in b.leases && Reserve(b, req, now).1.allowed
  }

  ghost predicate Overcommits(b: Backend, req: ReserveRequest, now: int, key: string, capacity: nat) {
    var after := Reserve(b, req, now).0;
    Grants(b, req, now, key, capacity) && key in after.roll && R.Used(after.roll[key]) > capacity
  }

  /** What a grant leaves on the limit: what was not due, with room for the largest amount, and all the
      request names. */
  lemma GrantAddsTotal(b: Backend, req: ReserveRequest, now: int, key: string, capacity: nat) returns (before: nat)
    requires Grants(b, req, now, key, capacity)
    ensures var after, n := Reserve(b, req, now).0, |req.requirements|;
            && key in after.roll && R.Used(after.roll[key]) == before + TotalFor(req.requirements, n, key)
            && before + LargestFor(req.requirements, n, key) <= capacity
  {
    hide PurgeAll, CommitAll, FirstDecreasing, FirstUnknown, IndexByKey, RollFits, ConcFits, R.Used, R.Purge,
        StatesMatch;
    var reqs, n := req.requirements, |req.requirements|;
    var p := PurgeAll(b, reqs, now, n);
    PurgeAllKeeps(b, reqs, now, n);
    PurgeAllOutside(b, reqs, now, n);
    before := Fitting(p, key);
    CommitAddsTotal(p, req.leaseID, reqs, now, n, key);
    LargestBounds(reqs, n, key);
    if LargestFor(reqs, n, key) > 0 {
      var i :| 0 <= i < n && reqs[i].key == key && reqs[i].amount == LargestFor(reqs, n, key);
      assert !Full(p, reqs[i]);
    }
  }

  lemma Fitting(b: Backend, key: string) returns (used: nat)
    requires WithinLimits(b) && key in b.defs && b.defs[key].kind.Rolling?
    ensures key in b.roll && used == R.Used(b.roll[key]) <= b.roll[key].cap == b.defs[key].capacity
    ensures R.WellFormed(b.roll[key])
  {
    assert RollWithin(b, key);
    used := R.Used(b.roll[key]);
  }

  /** No grant of these requirements ever takes a rolling limit of this capacity over it: if and only if
      the amounts they name for it add up to the largest of them, or the largest alone is too much. */
  lemma GrantsFitExactly(reqs: seq<Requirement>, key: string, capacity: nat)
    ensures (forall b: Backend, req: ReserveRequest, now: int :: req.requirements == reqs ==>
              !Overcommits(b, req, now, key, capacity))
            <==> || TotalFor(reqs, |reqs|, key) == LargestFor(reqs, |reqs|, key)
                 || LargestFor(reqs, |reqs|, key) > capacity
  {
    hide Grants, R.Used;
    var total, largest := TotalFor(reqs, |reqs|, key), LargestFor(reqs, |reqs|, key);
    LargestBounds(reqs, |reqs|, key);
    if total == largest || largest > capacity {
      forall b: Backend, req: ReserveRequest, now: int | req.requirements == reqs
        ensures !Overcommits(b, req, now, key, capacity)
      {
        if Grants(b, req, now, key, capacity) {
          var before := GrantAddsTotal(b, req, now, key, capacity);
        }
      }
    } else {
      var b, req := Tight(reqs, key, capacity - largest, capacity), ReserveRequest("lease", "", reqs);
      TightGrants(reqs, key, capacity - largest, capacity);
    }
  }

  // ---- A backend with just enough room ----

  function TightDefinition(reqs: seq<Requirement>, key: string, capacity: nat, k: string): Definition {
    Definition(k, Rolling, if k == key then capacity else LargestFor(reqs, |reqs|, k), 60, 0, "", "", Deny)
  }

  function TightStore(reqs: seq<Requirement>, key: string, used: nat, capacity: nat, k: string): R.Store {
    if k == key then R.Add(R.Empty(capacity), "other", used, 1) else R.Empty(LargestFor(reqs, |reqs|, k))
  }

  /** `used` of `key` is taken until time 1; the other limits are empty and have room for one requirement. */
  function Tight(reqs: seq<Requirement>, key: string, used: nat, capacity: nat): Backend {
    var keys := set r | r in reqs :: r.key;
    Backend(map k | k in keys :: TightDefinition(reqs, key, capacity, k),
            map k | k in keys :: LimitState(TightDefinition(reqs, key, capacity, k), Active, 0),
            map k | k in keys :: TightStore(reqs, key, used, capacity, k), map[], map[], map[])
  }

  lemma TightIsWithin(reqs: seq<Requirement>, key: string, used: nat, capacity: nat)
    requires used <= capacity
    ensures WithinLimits(Tight(reqs, key, used, capacity))
  {
    var b := Tight(reqs, key, used, capacity);
    forall k | k in b.roll
      ensures RollWithin(b, k)
    {
      R.AddWellFormed(R.Empty(capacity), "other", used, 1);
    }
  }

  lemma TightIsUnpurged(reqs: seq<Requirement>, key: string, used: nat, capacity: nat, k: string)
    requires k in Tight(reqs, key, used, capacity).roll
    ensures k in PurgeAll(Tight(reqs, key, used, capacity), reqs, 0, |reqs|).roll
    ensures PurgeAll(Tight(reqs, key, used, capacity), reqs, 0, |reqs|).roll[k] ==
            TightStore(reqs, key, used, capacity, k)
    ensures R.WellFormed(TightStore(reqs, key, used, capacity, k))
    ensures R.Used(TightStore(reqs, key, used, capacity, k)) == if k == key then used else 0
  {
    PurgeAllAtRolling(Tight(reqs, key, used, capacity), reqs, 0, |reqs|, k);
    R.PurgeNothing(TightStore(reqs, key, used, capacity, k), 0);
    R.AddWellFormed(R.Empty(capacity), "other", used, 1);
  }

  lemma TightGrants(reqs: seq<Requirement>, key: string, used: nat, capacity: nat)
    requires used + LargestFor(reqs, |reqs|, key) == capacity < used + TotalFor(reqs, |reqs|, key)
    ensures Overcommits(Tight(reqs, key, used, capacity), ReserveRequest("lease", "", reqs), 0, key, capacity)
  {
    hide PurgeAll, CommitAll, IndexByKey, R.Used, TightStore, WithinLimits;
    var b, req, n := Tight(reqs, key, used, capacity), ReserveRequest("lease", "", reqs), |reqs|;
    var p := PurgeAll(b, reqs, 0, n);
    TightIsWithin(reqs, key, used, capacity);
    PurgeAllOutside(b, reqs, 0, n);
    NamedIfPositive(reqs, n, key);
    assert FirstDecreasing(b.states, reqs, 0) == n && FirstUnknown(b.defs, reqs, 0) == n;
    forall i | 0 <= i < n
      ensures !Full(p, reqs[i])
    {
      LargestBounds(reqs, n, reqs[i].key);
      TightIsUnpurged(reqs, key, used, capacity, reqs[i].key);
      TightCap(reqs, key, used, capacity, reqs[i].key);
    }
    TightIsUnpurged(reqs, key, used, capacity, key);
    CommitAddsTotal(p, "lease", reqs, 0, n, key);
  }

  lemma TightCap(reqs: seq<Requirement>, key: string, used: nat, capacity: nat, k: string)
    ensures TightStore(reqs, key, used, capacity, k).cap == if k == key then capacity else LargestFor(reqs, |reqs|, k)
  {
  }

  lemma {:induction false} NamedIfPositive(reqs: seq<Requirement>, n: nat, key: string)
    requires n <= |reqs| && TotalFor(reqs, n, key) > 0
    ensures exists i :: 0 <= i < n && reqs[i].key == key
  {
    if reqs[n - 1].key != key {
      NamedIfPositive(reqs, n - 1, key);
    }
  }

  /** Naming a limit twice gets past a test that looks at each requirement alone. */
  lemma DuplicateKeysOvercommit(key: string, lease: string)
    requires lease != ""
    ensures var def := Definition(key, Rolling, 1, 60, 0, "", "", Deny);
            var reqs := [Requirement(key, 1), Requirement(key, 1)];
            var b := ApplyDefinition(EMPTY, def);
            var g := Reserve(b, ReserveRequest(lease, "", reqs), 0);
            g.1.allowed && key in g.0.roll && R.Used(g.0.roll[key]) == 2 > g.0.roll[key].cap
  {
    hide PurgeAll, CommitAll, IndexByKey, RetryAfter;
    var def := Definition(key, Rolling, 1, 60, 0, "", "", Deny);
    var reqs := [Requirement(key, 1), Requirement(key, 1)];
    var b := ApplyDefinition(EMPTY, def);
    var p := PurgeAll(b, reqs, 0, 2);
    PurgeAllOutside(b, reqs, 0, 2);
    PurgeAllAtRolling(b, reqs, 0, 2, key);
    assert R.Purge(R.Empty(1), 0) == R.Empty(1);
    assert p.roll[key] == R.Empty(1);
    assert !Full(p, reqs[0]) && !Full(p, reqs[1]);
    assert TotalFor(reqs, 0, key) == 0 && TotalFor(reqs, 1, key) == 1 && TotalFor(reqs, 2, key) == 2;
    CommitAddsTotal(p, lease, reqs, 0, 2, key);
  }
}
