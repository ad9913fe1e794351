/** The two checkout registries as objects.  Each method updates its own dictionaries or rows, and
    is proved to make exactly the atomic step of `CheckoutRecords` and to keep the object valid: no
    two executions share a workspace or a repository branch
    (src/aep/execution_checkout.py:633-1068). */
module CheckoutRegistry {
  import opened Wrappers
  import opened CheckoutRecords
  import CheckoutLeases
  import CheckoutRuns

  class InMemoryCheckoutRegistry {
    var records: map<string, Checkout>
    var paths: map<string, string>
    var branches: map<(string, string), string>
    var cacheClaims: map<string, CacheClaim>
    var cacheFences: map<string, int>

    function State(): Memory
      reads this
    {
      Memory(records, paths, branches, cacheClaims, cacheFences)
    }

    /** The indexes are the exact inverses of the records, and cache claims have the latest fences. */
    ghost predicate Valid()
      reads this
    {
      CheckoutRuns.WellFormed(State())
    }

    lemma NothingIsShared(a: string, b: string)
      requires Valid() && a in records && b in records && a != b
      ensures records[a].binding.workspace != records[b].binding.workspace
      ensures records[a].binding.BranchKey() != records[b].binding.BranchKey()
    {
      hide CheckoutRuns.ClaimsCurrent, CheckoutRuns.OwnIds;
    }

    constructor ()
      ensures Valid()
      ensures State() == Memory(map[], map[], map[], map[], map[])
    {
      records, paths, branches, cacheClaims, cacheFences := map[], map[], map[], map[], map[];
    }

    method Find(id: string) returns (reply: Reply)
      ensures (State(), reply) == MemoryStep(State(), Get(id))
    {
      reply := Found(Lookup(records, id));
    }

    method Acquire(candidate: Checkout, now: Time) returns (reply: Reply)
      modifies this
      ensures (State(), reply) == MemoryStep(old(State()), Claim(candidate, now))
      ensures old(CheckoutLeases.SameCheckout(Lookup(records, candidate.executionId), candidate)) ==>
                (reply == Raised(ClaimInProgress) <==>
                 CheckoutLeases.InProgress(old(records)[candidate.executionId], now))
      ensures reply.Raised? ==> State() == old(State())
      ensures old(Valid()) ==> Valid()
    {
      hide CheckoutRuns.WellFormed;
      if Valid() { CheckoutRuns.StepKeepsWellFormed(State(), Claim(candidate, now)); }
      var id := candidate.executionId;
      var claimed := candidate.(fence := 1);
      if id in records {
        var existing := records[id];
        if existing.binding != candidate.binding { return Raised(IdentityConflict); }
        if existing.state == Ready { return Granted(existing); }
        if existing.state == Provisioning && existing.lease.Some? && now < existing.lease.value {
          return Raised(ClaimInProgress);
        }
        claimed := candidate.(createdAt := existing.createdAt, fence := existing.fence + 1);
      }
      var pathOwner := Lookup(paths, claimed.binding.workspace);
      var branchOwner := Lookup(branches, claimed.binding.BranchKey());
      if pathOwner !in {None, Some(id)} || branchOwner !in {None, Some(id)} { return Raised(CheckoutReuse); }
      records := records[id := claimed];
      paths := paths[claimed.binding.workspace := id];
      branches := branches[claimed.binding.BranchKey() := id];
      reply := Granted(claimed);
    }

    method RenewLease(id: string, owner: string, fence: int, now: Time, lease: Time) returns (reply: Reply)
      modifies this
      ensures (State(), reply) == MemoryStep(old(State()), Renew(id, owner, fence, now, lease))
      ensures old(Valid()) ==> Valid()
    {
      hide CheckoutRuns.WellFormed;
      if Valid() { CheckoutRuns.StepKeepsWellFormed(State(), Renew(id, owner, fence, now, lease)); }
      var current := Lookup(records, id);
      if !Owns(current, owner, fence, now) { return Raised(ClaimInProgress); }
      var renewed := current.value.(lease := Some(lease), updatedAt := now);
      records := records[id := renewed];
      reply := Granted(renewed);
    }

    method StartCleanup(id: string, owner: string, now: Time, lease: Time) returns (reply: Reply)
      modifies this
      ensures (State(), reply) == MemoryStep(old(State()), BeginCleanup(id, owner, now, lease))
      ensures old(Valid()) ==> Valid()
    {
      hide CheckoutRuns.WellFormed;
      if Valid() { CheckoutRuns.StepKeepsWellFormed(State(), BeginCleanup(id, owner, now, lease)); }
      var current := Lookup(records, id);
      if current.None? || current.value.state !in {Ready, CleanupFailed} { return Raised(ClaimInProgress); }
      var claimed := current.value.(state := Provisioning, owner := Some(owner), fence := current.value.fence + 1,
                                    lease := Some(lease), updatedAt := now);
      records := records[id := claimed];
      reply := Granted(claimed);
    }

    method Store(checkout: Checkout, owner: string, fence: int, now: Time) returns (reply: Reply)
      modifies this
      ensures (State(), reply) == MemoryStep(old(State()), Update(checkout, owner, fence, now))
      ensures old(Valid()) ==> (Valid() <==> reply.Raised? || old(CheckoutRuns.StaysPut(State(), checkout)))
    {
      hide CheckoutRuns.WellFormed, CheckoutRuns.StaysPut;
      if Valid() && checkout.executionId in records { CheckoutRuns.StoredIndexes(State(), checkout); }
      if !Owns(Lookup(records, checkout.executionId), owner, fence, now) { return Raised(ClaimInProgress); }
      records := records[checkout.executionId := checkout];
      reply := Done;
    }

    method AcquireCache(repository: string, id: string, owner: string, fence: int, now: Time, lease: Time)
      returns (reply: Reply)
      modifies this
      ensures (State(), reply) == MemoryStep(old(State()), ClaimCache(repository, id, owner, fence, now, lease))
      ensures old(Valid()) ==> Valid()
    {
      hide CheckoutRuns.WellFormed;
      if Valid() { CheckoutRuns.StepKeepsWellFormed(State(), ClaimCache(repository, id, owner, fence, now, lease)); }
      if !Owns(Lookup(records, id), owner, fence, now) { return Raised(ClaimInProgress); }
      var existing := Lookup(cacheClaims, repository);
      if existing.Some? && existing.value.lease > now { return Raised(CacheClaimInProgress); }
      var cacheFence := (if repository in cacheFences then cacheFences[repository] else 0) + 1;
      cacheFences := cacheFences[repository := cacheFence];
      cacheClaims := cacheClaims[repository := CacheClaim(owner, cacheFence, lease, id, fence)];
      reply := CacheGranted(cacheFence);
    }

    method RenewCacheLease(repository: string, id: string, owner: string, fence: int, cacheFence: int, now: Time,
                           lease: Time)
      returns (reply: Reply)
      modifies this
      ensures (State(), reply) == MemoryStep(old(State()),
                                             RenewCache(repository, id, owner, fence, cacheFence, now, lease))
      ensures old(Valid()) ==> Valid()
    {
      hide CheckoutRuns.WellFormed;
      if Valid() {
        CheckoutRuns.StepKeepsWellFormed(State(), RenewCache(repository, id, owner, fence, cacheFence, now, lease));
      }
      var existing := Lookup(cacheClaims, repository);
      if existing.None? || existing.value.owner != owner || existing.value.fence != cacheFence
         || existing.value.lease <= now || existing.value.id != id || existing.value.executionFence != fence
         || !Owns(Lookup(records, id), owner, fence, now)
      {
        return Raised(CacheClaimInProgress);
      }
      cacheClaims := cacheClaims[repository := CacheClaim(owner, cacheFence, lease, id, fence)];
      reply := Done;
    }

    method DropCache(repository: string, owner: string, cacheFence: int) returns (reply: Reply)
      modifies this
      ensures (State(), reply) == MemoryStep(old(State()), ReleaseCache(repository, owner, cacheFence))
      ensures old(Valid()) ==> Valid()
    {
      hide CheckoutRuns.WellFormed;
      if Valid() { CheckoutRuns.StepKeepsWellFormed(State(), ReleaseCache(repository, owner, cacheFence)); }
      var existing := Lookup(cacheClaims, repository);
      if existing.None? { return Done; }
      if (existing.value.owner, existing.value.fence) != (owner, cacheFence) { return Raised(CacheClaimInProgress); }
      cacheClaims := cacheClaims - {repository};
      reply := Done;
    }
  }

  class SqliteCheckoutRegistry {
    var checkouts: map<string, Row>
    var caches: map<string, CacheRow>

    function State(): Tables
      reads this
    {
      Tables(checkouts, caches)
    }

    /** Rows stand for themselves, and the UNIQUE constraints hold. */
    ghost predicate Valid()
      reads this
    {
      CheckoutRuns.OwnRows(checkouts) && CheckoutRuns.Unique(checkouts)
    }

    lemma NothingIsShared(a: string, b: string)
      requires Valid() && a in checkouts && b in checkouts && a != b
      ensures checkouts[a].payload.binding.workspace != checkouts[b].payload.binding.workspace
      ensures checkouts[a].payload.binding.BranchKey() != checkouts[b].payload.binding.BranchKey()
    {
      assert checkouts[a] == RowOf(checkouts[a].payload) && checkouts[b] == RowOf(checkouts[b].payload);
    }

    constructor ()
      ensures Valid()
      ensures State() == Tables(map[], map[])
    {
      checkouts, caches := map[], map[];
    }

    /** `_put`: INSERT .. ON CONFLICT(execution_id) DO UPDATE.  A valid table refuses exactly what
        would break its UNIQUE constraints, and stays valid whatever is put. */
    method Put(checkout: Checkout) returns (violated: bool)
      modifies this`checkouts
      ensures violated == old(Collides(State(), checkout))
      ensures checkouts == if violated then old(checkouts) else old(checkouts)[checkout.executionId := RowOf(checkout)]
      ensures old(Valid()) ==>
                && Valid()
                && (violated <==> !CheckoutRuns.Unique(old(checkouts)[checkout.executionId := RowOf(checkout)]))
    {
      hide Collides, CheckoutRuns.Unique;
      violated := Collides(State(), checkout);
      if Valid() { CheckoutRuns.CollidesExactly(State(), checkout); }
      if !violated { checkouts := checkouts[checkout.executionId := RowOf(checkout)]; }
    }

    method Find(id: string) returns (reply: Reply)
      ensures (State(), reply) == TablesStep(State(), Get(id))
    {
      reply := Found(Payload(State(), id));
    }

    method Acquire(candidate: Checkout, now: Time) returns (reply: Reply)
      modifies this
      ensures (State(), reply) == TablesStep(old(State()), Claim(candidate, now))
      ensures old(CheckoutLeases.SameCheckout(Payload(State(), candidate.executionId), candidate)) ==>
                (reply == Raised(ClaimInProgress) <==>
                 CheckoutLeases.InProgress(old(checkouts)[candidate.executionId].payload, now))
      ensures reply.Raised? ==> State() == old(State())
      ensures old(Valid()) ==> Valid()
    {
      hide Collides, CheckoutRuns.Unique, CheckoutRuns.OwnRows;
      var row := Payload(State(), candidate.executionId);
      var claimed := candidate.(fence := 1);
      if row.Some? {
        var existing := row.value;
        if existing.binding != candidate.binding { return Raised(IdentityConflict); }
        if existing.state == Ready { return Granted(existing); }
        if existing.state == Provisioning && existing.lease.Some? && now < existing.lease.value {
          return Raised(ClaimInProgress);
        }
        claimed := candidate.(createdAt := existing.createdAt, fence := existing.fence + 1);
      }
      var violated := Put(claimed);
      reply := if violated then Raised(CheckoutReuse) else Granted(claimed);
    }

    method RenewLease(id: string, owner: string, fence: int, now: Time, lease: Time) returns (reply: Reply)
      modifies this
      ensures (State(), reply) == TablesStep(old(State()), Renew(id, owner, fence, now, lease))
      ensures old(Valid()) ==> Valid()
    {
      hide Collides, CheckoutRuns.Unique, CheckoutRuns.OwnRows;
      var current := Payload(State(), id);
      if !Owns(current, owner, fence, now) { return Raised(ClaimInProgress); }
      var renewed := current.value.(lease := Some(lease), updatedAt := now);
      var violated := Put(renewed);
      reply := if violated then Raised(IntegrityError) else Granted(renewed);
    }

    method StartCleanup(id: string, owner: string, now: Time, lease: Time) returns (reply: Reply)
      modifies this
      ensures (State(), reply) == TablesStep(old(State()), BeginCleanup(id, owner, now, lease))
      ensures old(Valid()) ==> Valid()
    {
      hide Collides, CheckoutRuns.Unique, CheckoutRuns.OwnRows;
      var current := Payload(State(), id);
      if current.None? || current.value.state !in {Ready, CleanupFailed} { return Raised(ClaimInProgress); }
      var claimed := current.value.(state := Provisioning, owner := Some(owner), fence := current.value.fence + 1,
                                    lease := Some(lease), updatedAt := now);
      var violated := Put(claimed);
      reply := if violated then Raised(IntegrityError) else Granted(claimed);
    }

    method Store(checkout: Checkout, owner: string, fence: int, now: Time) returns (reply: Reply)
      modifies this
      ensures (State(), reply) == TablesStep(old(State()), Update(checkout, owner, fence, now))
      ensures old(Valid()) ==> Valid()
    {
      hide Collides, CheckoutRuns.Unique, CheckoutRuns.OwnRows;
      if !Owns(Payload(State(), checkout.executionId), owner, fence, now) { return Raised(ClaimInProgress); }
      var violated := Put(checkout);
      reply := if violated then Raised(IntegrityError) else Done;
    }

    method AcquireCache(repository: string, id: string, owner: string, fence: int, now: Time, lease: Time)
      returns (reply: Reply)
      modifies this
      ensures (State(), reply) == TablesStep(old(State()), ClaimCache(repository, id, owner, fence, now, lease))
      ensures old(Valid()) ==> Valid()
    {
      if !Owns(Payload(State(), id), owner, fence, now) { return Raised(ClaimInProgress); }
      var row := Lookup(caches, repository);
      if row.Some? && row.value.owner.Some? && row.value.lease.Some? && row.value.lease.value > now {
        return Raised(CacheClaimInProgress);
      }
      var cacheFence := if row.None? then 1 else row.value.fence + 1;
      caches := caches[repository := CacheRow(Some(id), Some(fence), Some(owner), cacheFence, Some(lease))];
      reply := CacheGranted(cacheFence);
    }

    method RenewCacheLease(repository: string, id: string, owner: string, fence: int, cacheFence: int, now: Time,
                           lease: Time)
      returns (reply: Reply)
      modifies this
      ensures (State(), reply) == TablesStep(old(State()),
                                             RenewCache(repository, id, owner, fence, cacheFence, now, lease))
      ensures old(Valid()) ==> Valid()
    {
      var row := Lookup(caches, repository);
      if row.None? || row.value.owner != Some(owner) || row.value.fence != cacheFence || row.value.id != Some(id)
         || row.value.executionFence != Some(fence) || row.value.lease.None? || row.value.lease.value <= now
         || !Owns(Payload(State(), id), owner, fence, now)
      {
        return Raised(CacheClaimInProgress);
      }
      caches := caches[repository := row.value.(lease := Some(lease))];
      reply := Done;
    }

    method DropCache(repository: string, owner: string, cacheFence: int) returns (reply: Reply)
      modifies this
      ensures (State(), reply) == TablesStep(old(State()), ReleaseCache(repository, owner, cacheFence))
      ensures old(Valid()) ==> Valid()
    {
      var row := Lookup(caches, repository);
      if row.None? || row.value.owner != Some(owner) || row.value.fence != cacheFence {
        return Raised(CacheClaimInProgress);
      }
      caches := caches[repository := CacheRow(None, None, None, cacheFence, None)];
      reply := Done;
    }
  }
}
