/** How the registry decides each call, stated on the records before and after it, and that a live
    lease excludes everybody else (src/aep/execution_checkout.py:650-815).  The SQL registry decides
    alike, as CheckoutRuns.TablesRefineMemory shows. */
module CheckoutLeases {
  import opened Wrappers
  import opened CheckoutRecords
  import opened CheckoutRuns

  /** Somebody is provisioning or cleaning up under a lease that is not over. */
  predicate InProgress(c: Checkout, now: Time) {
    c.state == Provisioning && c.lease.Some? && now < c.lease.value
  }

  /** The stored record has the binding of the candidate. */
  predicate SameCheckout(stored: Option<Checkout>, candidate: Checkout) {
    stored.Some? && stored.value.binding == candidate.binding
  }

  /** The caller presents the owner and the fence of a live lease. */
  predicate Holds(m: Memory, id: string, owner: string, fence: int, now: Time) {
    && id in m.records
    && InProgress(m.records[id], now)
    && m.records[id].owner == Some(owner)
    && m.records[id].fence == fence
  }

  /** A claim with the stored binding is refused, and changes nothing, if and only if the record is
      in progress; a ready record is returned as it is; every other record goes to the claimer with
      the next fence.  A claim with another binding changes nothing. */
  lemma ClaimIsDecided(m: Memory, candidate: Checkout, now: Time)
    requires WellFormed(m) && candidate.executionId in m.records
    ensures
      var id := candidate.executionId;
      var c, (after, reply) := m.records[id], MemoryStep(m, Claim(candidate, now));
      if candidate.binding != c.binding then after == m && reply == Raised(IdentityConflict)
      else
        && (reply == Raised(ClaimInProgress) <==> InProgress(c, now))
        && (InProgress(c, now) || c.state == Ready ==> after == m)
        && (c.state == Ready ==> reply == Granted(c))
        && (!InProgress(c, now) && c.state != Ready ==>
              var taken := candidate.(createdAt := c.createdAt, fence := c.fence + 1);
              reply == Granted(taken) && after == m.(records := m.records[id := taken]))
  {
    hide ClaimsCurrent;
    var id := candidate.executionId;
    var c := m.records[id];
    if candidate.binding == c.binding && !InProgress(c, now) && c.state != Ready {
      var taken := candidate.(createdAt := c.createdAt, fence := c.fence + 1);
      assert MemoryStep(m, Claim(candidate, now)) == MemoryPut(m, taken);
      assert m.paths[c.binding.workspace] == id && m.branches[c.binding.BranchKey()] == id;
      assert m.paths[c.binding.workspace := id] == m.paths;
      assert m.branches[c.binding.BranchKey() := id] == m.branches;
    }
  }

  /** The first claim of an execution is refused if and only if another execution has its workspace
      or branch; otherwise the candidate is stored with fence one. */
  lemma FirstClaimIsDecided(m: Memory, candidate: Checkout, now: Time)
    requires WellFormed(m) && candidate.executionId !in m.records
    ensures
      var (after, reply) := MemoryStep(m, Claim(candidate, now));
      if Trespasses(m, candidate) then after == m && reply == Raised(CheckoutReuse)
      else
        && reply == Granted(candidate.(fence := 1))
        && after.records == m.records[candidate.executionId := candidate.(fence := 1)]
        && after.claims == m.claims && after.fences == m.fences
  {
    hide ClaimsCurrent;
    var workspace, branch := candidate.binding.workspace, candidate.binding.BranchKey();
    if Trespasses(m, candidate) {
      var other :| other in m.records && other != candidate.executionId
        && (m.records[other].binding.workspace == workspace || m.records[other].binding.BranchKey() == branch);
      if m.records[other].binding.workspace == workspace {
        assert m.paths[workspace] == other;
      } else {
        assert m.branches[branch] == other;
      }
    }
  }

  /** Only the holder of a live lease renews it, and nothing but lease and update time changes. */
  lemma RenewalIsDecided(m: Memory, id: string, owner: string, fence: int, now: Time, lease: Time)
    ensures
      var (after, reply) := MemoryStep(m, Renew(id, owner, fence, now, lease));
      if !Holds(m, id, owner, fence, now) then after == m && reply == Raised(ClaimInProgress)
      else
        var renewed := m.records[id].(lease := Some(lease), updatedAt := now);
        reply == Granted(renewed) && after == m.(records := m.records[id := renewed])
  {
  }

  /** Cleanup begins if and only if the checkout is ready or its cleanup failed, whatever the clock;
      it becomes a provisioning record of the caller with the next fence. */
  lemma CleanupIsDecided(m: Memory, id: string, owner: string, now: Time, lease: Time)
    ensures
      var (after, reply) := MemoryStep(m, BeginCleanup(id, owner, now, lease));
      if id !in m.records || m.records[id].state !in {Ready, CleanupFailed} then
        after == m && reply == Raised(ClaimInProgress)
      else
        var c := m.records[id];
        var begun := Checkout(c.executionId, c.binding, Provisioning, c.createdAt, now, c.fence + 1, Some(owner), Some(lease));
        reply == Granted(begun) && after == m.(records := m.records[id := begun])
  {
  }

  /** Only the holder of a live lease stores a new record. */
  lemma UpdateIsDecided(m: Memory, c: Checkout, owner: string, fence: int, now: Time)
    ensures
      var (after, reply) := MemoryStep(m, Update(c, owner, fence, now));
      if !Holds(m, c.executionId, owner, fence, now) then after == m && reply == Raised(ClaimInProgress)
      else reply == Done && after == m.(records := m.records[c.executionId := c])
  {
  }

  // ---------------------------------------------------------------- a live lease over runs

  /** A call that cannot be the holder's: it claims before the lease is over, or presents another
      owner or fence.  Cleanups and cache calls may be anybody's. */
  predicate Foreign(op: Op, id: string, c: Checkout)
    requires c.lease.Some?
  {
    match op
    case Claim(candidate, now) => candidate.executionId == id ==> now < c.lease.value
    case Renew(other, owner, fence, _, _) => other == id ==> c.owner != Some(owner) || c.fence != fence
    case Update(checkout, owner, fence, _) => checkout.executionId == id ==> c.owner != Some(owner) || c.fence != fence
    case _ => true
  }

  /** Until it is over, a lease cannot be taken, renewed or ended by anybody else: the record stays
      as it is whatever they call in whatever order. */
  lemma {:induction false} LeaseIsExclusive(m: Memory, ops: seq<Op>, id: string)
    requires id in m.records && m.records[id].state == Provisioning && m.records[id].lease.Some?
    requires forall op | op in ops :: Foreign(op, id, m.records[id])
    ensures id in Run(m, ops).records && Run(m, ops).records[id] == m.records[id]
    decreases |ops|
  {
    hide MemoryStep;
    if ops != [] {
      assert ops[0] in ops;
      ForeignCallIsRefused(m, ops[0], id);
      LeaseIsExclusive(MemoryStep(m, ops[0]).0, ops[1..], id);
    }
  }

  /** The same for the SQL registry. */
  lemma SqlLeaseIsExclusive(m: Memory, t: Tables, ops: seq<Op>, id: string)
    requires Related(m, t) && ManagerRun(m, ops)
    requires id in t.checkouts && t.checkouts[id].payload.state == Provisioning && t.checkouts[id].payload.lease.Some?
    requires forall op | op in ops :: Foreign(op, id, t.checkouts[id].payload)
    ensures id in TablesRun(t, ops).checkouts && TablesRun(t, ops).checkouts[id] == t.checkouts[id]
  {
    hide MemoryStep, TablesStep, Run, TablesRun, WellFormed, CachesMatch;
    RunsRefine(m, t, ops);
    LeaseIsExclusive(m, ops, id);
  }

  lemma ForeignCallIsRefused(m: Memory, op: Op, id: string)
    requires id in m.records && m.records[id].state == Provisioning && m.records[id].lease.Some?
    requires Foreign(op, id, m.records[id])
    ensures id in MemoryStep(m, op).0.records && MemoryStep(m, op).0.records[id] == m.records[id]
  {
    hide HoldsCache;
    if op.Renew? && Owns(Lookup(m.records, op.id), op.owner, op.fence, op.now) { assert op.id != id; }
  }

  /** Every call is foreign, or the holder renews: what happens while the lease is kept alive. */
  predicate KeptAlive(m: Memory, ops: seq<Op>, id: string)
    decreases |ops|
  {
    hide MemoryStep;
    ops == [] ||
      (&& id in m.records && m.records[id].lease.Some?
       && (Foreign(ops[0], id, m.records[id]) || (ops[0].Renew? && ops[0].id == id))
       && KeptAlive(MemoryStep(m, ops[0]).0, ops[1..], id))
  }

  /** As long as its holder renews it before anybody's clock has passed it, owner and fence stay. */
  lemma {:induction false} RenewedLeaseIsExclusive(m: Memory, ops: seq<Op>, id: string)
    requires WellFormed(m) && id in m.records && m.records[id].state == Provisioning
    requires ManagerRun(m, ops) && KeptAlive(m, ops, id)
    ensures
      && id in Run(m, ops).records
      && var c := Run(m, ops).records[id];
      c.state == Provisioning && c.owner == m.records[id].owner && c.fence == m.records[id].fence
    decreases |ops|
  {
    hide MemoryStep, WellFormed, ManagerUpdate;
    if ops != [] {
      var op := ops[0];
      StepKeepsWellFormed(m, op);
      if op.Renew? && op.id == id {
        RenewalIsDecided(m, id, op.owner, op.fence, op.now, op.lease);
      } else {
        ForeignCallIsRefused(m, op, id);
      }
      RenewedLeaseIsExclusive(MemoryStep(m, op).0, ops[1..], id);
    }
  }

  // ---------------------------------------------------------------- caches

  predicate CacheInUse(m: Memory, repository: string, now: Time) {
    repository in m.claims && now < m.claims[repository].lease
  }

  /** A cache is claimed by a holder of an execution if and only if no live claim is on it, and then
      with the next fence of its repository. */
  lemma CacheClaimIsDecided(m: Memory, repository: string, id: string, owner: string, fence: int, now: Time, lease: Time)
    ensures
      var (after, reply) := MemoryStep(m, ClaimCache(repository, id, owner, fence, now, lease));
      if !Holds(m, id, owner, fence, now) then after == m && reply == Raised(ClaimInProgress)
      else if CacheInUse(m, repository, now) then after == m && reply == Raised(CacheClaimInProgress)
      else
        var next := CacheFence(m, repository) + 1;
        && reply == CacheGranted(next)
        && after == m.(fences := m.fences[repository := next],
                       claims := m.claims[repository := CacheClaim(owner, next, lease, id, fence)])
  {
  }

  /** A claim is renewed only by who made it, for the same execution and fence, while both leases are
      live; nothing but its lease changes. */
  lemma CacheRenewalIsDecided(m: Memory, repository: string, id: string, owner: string, fence: int, cacheFence: int,
                              now: Time, lease: Time)
    ensures
      var (after, reply) := MemoryStep(m, RenewCache(repository, id, owner, fence, cacheFence, now, lease));
      if Holds(m, id, owner, fence, now) && CacheInUse(m, repository, now)
         && m.claims[repository] == CacheClaim(owner, cacheFence, m.claims[repository].lease, id, fence)
      then
        && reply == Done
        && after == m.(claims := m.claims[repository := m.claims[repository].(lease := lease)])
      else after == m && reply == Raised(CacheClaimInProgress)
  {
  }

  /** A claim is given up by its owner and fence, whatever the clock, and its fence stays. */
  lemma CacheReleaseIsDecided(m: Memory, repository: string, owner: string, cacheFence: int)
    ensures
      var (after, reply) := MemoryStep(m, ReleaseCache(repository, owner, cacheFence));
      if repository !in m.claims then after == m && reply == Done
      else if m.claims[repository].owner == owner && m.claims[repository].fence == cacheFence then
        reply == Done && after == m.(claims := m.claims - {repository})
      else after == m && reply == Raised(CacheClaimInProgress)
  {
  }

  /** A call that cannot be made by who holds the cache. */
  predicate ForeignToCache(op: Op, repository: string, claim: CacheClaim) {
    match op
    case ClaimCache(r, _, _, _, now, _) => r == repository ==> now < claim.lease
    case RenewCache(r, _, owner, _, cacheFence, _, _) =>
      r == repository ==> owner != claim.owner || cacheFence != claim.fence
    case ReleaseCache(r, owner, cacheFence) => r == repository ==> owner != claim.owner || cacheFence != claim.fence
    case _ => true
  }

  /** Until it is over, a cache claim cannot be taken, renewed or released by anybody else. */
  lemma {:induction false} CacheClaimIsExclusive(m: Memory, ops: seq<Op>, repository: string)
    requires repository in m.claims
    requires forall op | op in ops :: ForeignToCache(op, repository, m.claims[repository])
    ensures repository in Run(m, ops).claims && Run(m, ops).claims[repository] == m.claims[repository]
    decreases |ops|
  {
    hide MemoryStep;
    if ops != [] {
      assert ops[0] in ops;
      ForeignCacheCallIsRefused(m, ops[0], repository);
      CacheClaimIsExclusive(MemoryStep(m, ops[0]).0, ops[1..], repository);
    }
  }

  lemma ForeignCacheCallIsRefused(m: Memory, op: Op, repository: string)
    requires repository in m.claims && ForeignToCache(op, repository, m.claims[repository])
    ensures
      var after := MemoryStep(m, op).0;
      repository in after.claims && after.claims[repository] == m.claims[repository]
  {
    hide Owns;
  }
}
