/** Checkout records and the two registry implementations as values: every operation is one
    atomic step (src/aep/execution_checkout.py:180-260, 633-1068). */
module CheckoutRecords {
  import opened Wrappers

  datatype Lifecycle = Provisioning | Ready | CleanupFailed | Cleaned | Failed

  /** A repository identity and the casefolded form that keys caches and branches. */
  datatype Repository = Repository(identity: string, canonical: string)

  /** The immutable inputs `_same_binding` compares. */
  datatype Binding = Binding(repository: Repository, baseRevision: string, knowledgeRevision: string,
                             branch: string, workspace: string, sourceCache: string)
  {
    function BranchKey(): (string, string) { (repository.canonical, branch) }
  }

  /** Times are points of whatever clock the caller has; nothing relates two callers' clocks. */
  type Time = int

  datatype Checkout = Checkout(executionId: string, binding: Binding, state: Lifecycle, createdAt: Time,
                               updatedAt: Time, fence: int, owner: Option<string>, lease: Option<Time>)

  datatype Error = ClaimInProgress | CacheClaimInProgress | CheckoutReuse | IdentityConflict | IntegrityError

  /** `_owns`. */
  predicate Owns(c: Option<Checkout>, owner: string, fence: int, now: Time) {
    && c.Some?
    && c.value.state == Provisioning
    && c.value.owner == Some(owner)
    && c.value.fence == fence
    && c.value.lease.Some? && now < c.value.lease.value
  }

  function Lookup<K, V>(m: map<K, V>, k: K): Option<V> {
    if k in m then Some(m[k]) else None
  }

  datatype Op =
    | Get(id: string)
    | Claim(candidate: Checkout, now: Time)
    | Renew(id: string, owner: string, fence: int, now: Time, lease: Time)
    | BeginCleanup(id: string, owner: string, now: Time, lease: Time)
    | Update(checkout: Checkout, owner: string, fence: int, now: Time)
    | ClaimCache(repository: string, id: string, owner: string, fence: int, now: Time, lease: Time)
    | RenewCache(repository: string, id: string, owner: string, fence: int, cacheFence: int, now: Time, lease: Time)
    | ReleaseCache(repository: string, owner: string, cacheFence: int)

  datatype Reply =
    | Found(record: Option<Checkout>)
    | Granted(checkout: Checkout)
    | CacheGranted(cacheFence: int)
    | Done
    | Raised(error: Error)

  /** How a claim is decided before anything is stored: raise, return the ready record, or store
      the candidate with its creation time and fence. */
  datatype ClaimPlan = Refuse(error: Error) | Return(existing: Checkout) | Put(candidate: Checkout)

  function PlanClaim(existing: Option<Checkout>, candidate: Checkout, now: Time): ClaimPlan {
    if existing.None? then Put(candidate.(fence := 1))
    else if existing.value.binding != candidate.binding then Refuse(IdentityConflict)
    else if existing.value.state == Ready then Return(existing.value)
    else if existing.value.state == Provisioning && existing.value.lease.Some? && now < existing.value.lease.value then
      Refuse(ClaimInProgress)
    else Put(candidate.(createdAt := existing.value.createdAt, fence := existing.value.fence + 1))
  }

  function Renewed(c: Checkout, now: Time, lease: Time): Checkout {
    c.(lease := Some(lease), updatedAt := now)
  }

  /** Whether cleanup may begin, and the record it then stores. */
  function PlanCleanup(existing: Option<Checkout>, owner: string, now: Time, lease: Time): Option<Checkout> {
    if existing.None? || (existing.value.state != Ready && existing.value.state != CleanupFailed) then None
    else
      Some(existing.value.(state := Provisioning, owner := Some(owner), fence := existing.value.fence + 1,
                           lease := Some(lease), updatedAt := now))
  }

  // ---------------------------------------------------------------- dictionaries

  datatype CacheClaim = CacheClaim(owner: string, fence: int, lease: Time, id: string, executionFence: int)

  /** `InMemoryCheckoutRegistry`: its five dictionaries. */
  datatype Memory = Memory(records: map<string, Checkout>, paths: map<string, string>,
                           branches: map<(string, string), string>, claims: map<string, CacheClaim>,
                           fences: map<string, int>)

  predicate Taken<K>(owners: map<K, string>, key: K, id: string) {
    key in owners && owners[key] != id
  }

  function MemoryPut(m: Memory, c: Checkout): (Memory, Reply) {
    if Taken(m.paths, c.binding.workspace, c.executionId)
       || Taken(m.branches, c.binding.BranchKey(), c.executionId) then (m, Raised(CheckoutReuse))
    else
      (m.(records := m.records[c.executionId := c], paths := m.paths[c.binding.workspace := c.executionId],
          branches := m.branches[c.binding.BranchKey() := c.executionId]), Granted(c))
  }

  function MemoryStep(m: Memory, op: Op): (Memory, Reply) {
    match op
    case Get(id) => (m, Found(Lookup(m.records, id)))
    case Claim(candidate, now) =>
      (match PlanClaim(Lookup(m.records, candidate.executionId), candidate, now)
       case Refuse(e) => (m, Raised(e))
       case Return(existing) => (m, Granted(existing))
       case Put(c) => MemoryPut(m, c))
    case Renew(id, owner, fence, now, lease) =>
      if !Owns(Lookup(m.records, id), owner, fence, now) then (m, Raised(ClaimInProgress))
      else
        var c := Renewed(m.records[id], now, lease);
        (m.(records := m.records[id := c]), Granted(c))
    case BeginCleanup(id, owner, now, lease) =>
      var plan := PlanCleanup(Lookup(m.records, id), owner, now, lease);
      if plan.None? then (m, Raised(ClaimInProgress))
      else (m.(records := m.records[id := plan.value]), Granted(plan.value))
    case Update(c, owner, fence, now) =>
      if !Owns(Lookup(m.records, c.executionId), owner, fence, now) then (m, Raised(ClaimInProgress))
      else (m.(records := m.records[c.executionId := c]), Done)
    case ClaimCache(repository, id, owner, fence, now, lease) =>
      if !Owns(Lookup(m.records, id), owner, fence, now) then (m, Raised(ClaimInProgress))
      else if repository in m.claims && now < m.claims[repository].lease then (m, Raised(CacheClaimInProgress))
      else
        var next := (if repository in m.fences then m.fences[repository] else 0) + 1;
        (m.(fences := m.fences[repository := next],
            claims := m.claims[repository := CacheClaim(owner, next, lease, id, fence)]), CacheGranted(next))
    case RenewCache(repository, id, owner, fence, cacheFence, now, lease) =>
      if HoldsCache(m, repository, id, owner, fence, cacheFence, now) then
        (m.(claims := m.claims[repository := CacheClaim(owner, cacheFence, lease, id, fence)]), Done)
      else (m, Raised(CacheClaimInProgress))
    case ReleaseCache(repository, owner, cacheFence) =>
      if repository !in m.claims then (m, Done)
      else if m.claims[repository].owner != owner || m.claims[repository].fence != cacheFence then
        (m, Raised(CacheClaimInProgress))
      else (m.(claims := m.claims - {repository}), Done)
  }

  predicate HoldsCache(m: Memory, repository: string, id: string, owner: string, fence: int, cacheFence: int, now: Time)
  {
    && repository in m.claims
    && m.claims[repository].owner == owner
    && m.claims[repository].fence == cacheFence
    && now < m.claims[repository].lease
    && m.claims[repository].id == id
    && m.claims[repository].executionFence == fence
    && Owns(Lookup(m.records, id), owner, fence, now)
  }

  // ---------------------------------------------------------------- SQL rows

  /** A row of `execution_checkouts`: the unique columns and the JSON payload. */
  datatype Row = Row(repository: string, branch: string, workspace: string, payload: Checkout)

  /** A row of `repository_cache_claims`; a released claim keeps its fence and nothing else. */
  datatype CacheRow = CacheRow(id: Option<string>, executionFence: Option<int>, owner: Option<string>,
                               fence: int, lease: Option<Time>)

  datatype Tables = Tables(checkouts: map<string, Row>, caches: map<string, CacheRow>)

  function RowOf(c: Checkout): Row {
    Row(c.binding.repository.canonical, c.binding.branch, c.binding.workspace, c)
  }

  /** A UNIQUE constraint fails: another row has this workspace or this repository and branch. */
  predicate Collides(t: Tables, c: Checkout) {
    exists id | id in t.checkouts && id != c.executionId ::
      || t.checkouts[id].workspace == c.binding.workspace
      || (t.checkouts[id].repository, t.checkouts[id].branch) == c.binding.BranchKey()
  }

  function Payload(t: Tables, id: string): Option<Checkout> {
    if id in t.checkouts then Some(t.checkouts[id].payload) else None
  }

  /** `_put`, inside the transaction of the caller; `onCollision` is what the caller raises. */
  function TablesPut(t: Tables, c: Checkout, onCollision: Error, reply: Reply): (Tables, Reply) {
    if Collides(t, c) then (t, Raised(onCollision))
    else (t.(checkouts := t.checkouts[c.executionId := RowOf(c)]), reply)
  }

  function TablesStep(t: Tables, op: Op): (Tables, Reply) {
    match op
    case Get(id) => (t, Found(Payload(t, id)))
    case Claim(candidate, now) =>
      (match PlanClaim(Payload(t, candidate.executionId), candidate, now)
       case Refuse(e) => (t, Raised(e))
       case Return(existing) => (t, Granted(existing))
       case Put(c) => TablesPut(t, c, CheckoutReuse, Granted(c)))
    case Renew(id, owner, fence, now, lease) =>
      if !Owns(Payload(t, id), owner, fence, now) then (t, Raised(ClaimInProgress))
      else
        var c := Renewed(t.checkouts[id].payload, now, lease);
        TablesPut(t, c, IntegrityError, Granted(c))
    case BeginCleanup(id, owner, now, lease) =>
      var plan := PlanCleanup(Payload(t, id), owner, now, lease);
      if plan.None? then (t, Raised(ClaimInProgress))
      else TablesPut(t, plan.value, IntegrityError, Granted(plan.value))
    case Update(c, owner, fence, now) =>
      if !Owns(Payload(t, c.executionId), owner, fence, now) then (t, Raised(ClaimInProgress))
      else TablesPut(t, c, IntegrityError, Done)
    case ClaimCache(repository, id, owner, fence, now, lease) =>
      if !Owns(Payload(t, id), owner, fence, now) then (t, Raised(ClaimInProgress))
      else if repository in t.caches && t.caches[repository].owner.Some?
              && t.caches[repository].lease.Some? && now < t.caches[repository].lease.value then
        (t, Raised(CacheClaimInProgress))
      else
        var next := if repository in t.caches then t.caches[repository].fence + 1 else 1;
        (t.(caches := t.caches[repository := CacheRow(Some(id), Some(fence), Some(owner), next, Some(lease))]),
         CacheGranted(next))
    case RenewCache(repository, id, owner, fence, cacheFence, now, lease) =>
      if && repository in t.caches
         && t.caches[repository].owner == Some(owner)
         && t.caches[repository].fence == cacheFence
         && t.caches[repository].id == Some(id)
         && t.caches[repository].executionFence == Some(fence)
         && t.caches[repository].lease.Some? && now < t.caches[repository].lease.value
         && Owns(Payload(t, id), owner, fence, now)
      then (t.(caches := t.caches[repository := t.caches[repository].(lease := Some(lease))]), Done)
      else (t, Raised(CacheClaimInProgress))
    case ReleaseCache(repository, owner, cacheFence) =>
      if repository in t.caches && t.caches[repository].owner == Some(owner) && t.caches[repository].fence == cacheFence
      then (t.(caches := t.caches[repository := CacheRow(None, None, None, cacheFence, None)]), Done)
      else (t, Raised(CacheClaimInProgress))
  }
}
