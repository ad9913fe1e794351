/** What every registry operation keeps, over every run, and that the SQL registry refines the
    dictionary registry (src/aep/execution_checkout.py:633-1068). */
module CheckoutRuns {
  import opened Wrappers
  import opened CheckoutRecords

  ghost predicate OwnIds(records: map<string, Checkout>) {
    forall id | id in records :: records[id].executionId == id
  }

  /** `_paths` is the exact inverse of the records' workspaces. */
  ghost predicate PathsInvert(records: map<string, Checkout>, paths: map<string, string>) {
    && (forall id | id in records ::
        records[id].binding.workspace in paths && paths[records[id].binding.workspace] == id)
    && (forall p | p in paths :: paths[p] in records && records[paths[p]].binding.workspace == p)
  }

  /** `_branches` is the exact inverse of the records' repository branches. */
  ghost predicate BranchesInvert(records: map<string, Checkout>, branches: map<(string, string), string>) {
    && (forall id | id in records ::
        records[id].binding.BranchKey() in branches && branches[records[id].binding.BranchKey()] == id)
    && (forall b | b in branches :: branches[b] in records && records[branches[b]].binding.BranchKey() == b)
  }

  /** A cache claim always carries the latest fence of its repository. */
  ghost predicate ClaimsCurrent(m: Memory) {
    forall r | r in m.claims :: r in m.fences && m.claims[r].fence == m.fences[r]
  }

  ghost predicate WellFormed(m: Memory) {
    && OwnIds(m.records) && PathsInvert(m.records, m.paths) && BranchesInvert(m.records, m.branches)
    && ClaimsCurrent(m)
  }

  const EMPTY := Memory(map[], map[], map[], map[], map[])

  /** The updates the manager makes: an accepted update keeps the binding, creation time and
      fence of the record, and gives up its ownership
      (src/aep/execution_checkout.py:1249-1264, 1402-1418). */
  ghost predicate ManagerUpdate(m: Memory, op: Op) {
    op.Update? && Owns(Lookup(m.records, op.checkout.executionId), op.owner, op.fence, op.now) ==>
      var current := m.records[op.checkout.executionId];
      && op.checkout.binding == current.binding
      && op.checkout.createdAt == current.createdAt
      && op.checkout.fence == current.fence
      && op.checkout.owner.None?
  }

  function Run(m: Memory, ops: seq<Op>): Memory
    decreases |ops|
  {
    hide MemoryStep;
    if ops == [] then m else Run(MemoryStep(m, ops[0]).0, ops[1..])
  }

  ghost predicate ManagerRun(m: Memory, ops: seq<Op>)
    decreases |ops|
  {
    hide MemoryStep;
    ops == [] || (ManagerUpdate(m, ops[0]) && ManagerRun(MemoryStep(m, ops[0]).0, ops[1..]))
  }

  // ---------------------------------------------------------------- executions

  /** How the record of one execution may change in one step. */
  ghost predicate Advances(before: Memory, after: Memory, id: string) {
    id in before.records ==>
      && id in after.records
      && after.records[id].binding == before.records[id].binding
      && after.records[id].createdAt == before.records[id].createdAt
      && before.records[id].fence <= after.records[id].fence
  }

  /** An execution gets a new owner only with a strictly larger fence. */
  ghost predicate NewOwnerNewFence(before: Memory, after: Memory, id: string) {
    id in before.records && id in after.records && after.records[id].owner.Some?
    && after.records[id].owner != before.records[id].owner ==>
      before.records[id].fence < after.records[id].fence
  }

  predicate SameBinding(records: map<string, Checkout>, c: Checkout) {
    c.executionId in records && records[c.executionId].binding == c.binding
  }

  /** Storing a record with an unchanged binding keeps every index. */
  lemma StoreKeepsIndexes(m: Memory, c: Checkout)
    requires WellFormed(m) && SameBinding(m.records, c)
    ensures WellFormed(m.(records := m.records[c.executionId := c]))
  {
    var after := m.records[c.executionId := c];
    assert OwnIds(after);
    assert PathsInvert(after, m.paths);
    assert BranchesInvert(after, m.branches);
  }

  lemma PutKeepsPaths(records: map<string, Checkout>, paths: map<string, string>, c: Checkout)
    requires OwnIds(records) && PathsInvert(records, paths)
    requires c.executionId in records ==> SameBinding(records, c)
    requires !Taken(paths, c.binding.workspace, c.executionId)
    ensures PathsInvert(records[c.executionId := c], paths[c.binding.workspace := c.executionId])
  {
  }

  lemma PutKeepsBranches(records: map<string, Checkout>, branches: map<(string, string), string>, c: Checkout)
    requires OwnIds(records) && BranchesInvert(records, branches)
    requires c.executionId in records ==> SameBinding(records, c)
    requires !Taken(branches, c.binding.BranchKey(), c.executionId)
    ensures BranchesInvert(records[c.executionId := c], branches[c.binding.BranchKey() := c.executionId])
  {
    var key := c.binding.BranchKey();
    var after := branches[key := c.executionId];
    forall b | b in after
      ensures after[b] in records[c.executionId := c]
      ensures records[c.executionId := c][after[b]].binding.BranchKey() == b
    {
      if b != key { assert b in branches; }
    }
  }

  lemma PutKeepsIndexes(m: Memory, c: Checkout)
    requires WellFormed(m) && (c.executionId in m.records ==> SameBinding(m.records, c))
    ensures WellFormed(MemoryPut(m, c).0)
  {
    hide PathsInvert, BranchesInvert;
    if MemoryPut(m, c).1.Granted? {
      PutKeepsPaths(m.records, m.paths, c);
      PutKeepsBranches(m.records, m.branches, c);
      assert OwnIds(m.records[c.executionId := c]);
    }
  }

  lemma OwnIdOf(m: Memory, id: string)
    requires WellFormed(m) && id in m.records
    ensures m.records[id].executionId == id
  {
  }

  lemma StepKeepsWellFormed(m: Memory, op: Op)
    requires WellFormed(m) && ManagerUpdate(m, op)
    ensures WellFormed(MemoryStep(m, op).0)
  {
    hide WellFormed, MemoryPut;
    match op
    case Get(id) =>
    case Claim(candidate, now) =>
      var plan := PlanClaim(Lookup(m.records, candidate.executionId), candidate, now);
      if plan.Put? { PutKeepsIndexes(m, plan.candidate); }
    case Renew(id, owner, fence, now, lease) =>
      if Owns(Lookup(m.records, id), owner, fence, now) {
        OwnIdOf(m, id);
        StoreKeepsIndexes(m, Renewed(m.records[id], now, lease));
      }
    case BeginCleanup(id, owner, now, lease) =>
      var plan := PlanCleanup(Lookup(m.records, id), owner, now, lease);
      if plan.Some? {
        OwnIdOf(m, id);
        StoreKeepsIndexes(m, plan.value);
      }
    case Update(c, owner, fence, now) =>
      if Owns(Lookup(m.records, c.executionId), owner, fence, now) { StoreKeepsIndexes(m, c); }
    case ClaimCache(repository, id, owner, fence, now, lease) => CacheStepKeepsWellFormed(m, op);
    case RenewCache(repository, id, owner, fence, cacheFence, now, lease) => CacheStepKeepsWellFormed(m, op);
    case ReleaseCache(repository, owner, cacheFence) => CacheStepKeepsWellFormed(m, op);
  }

  lemma CacheStepKeepsWellFormed(m: Memory, op: Op)
    requires WellFormed(m) && (op.ClaimCache? || op.RenewCache? || op.ReleaseCache?)
    ensures WellFormed(MemoryStep(m, op).0)
  {
    hide OwnIds, PathsInvert, BranchesInvert;
  }

  lemma StepAdvances(m: Memory, op: Op, id: string)
    requires WellFormed(m) && ManagerUpdate(m, op)
    ensures Advances(m, MemoryStep(m, op).0, id) && NewOwnerNewFence(m, MemoryStep(m, op).0, id)
  {
    hide WellFormed, HoldsCache;
    if op.Renew? && op.id in m.records { OwnIdOf(m, op.id); }
    if op.BeginCleanup? && op.id in m.records { OwnIdOf(m, op.id); }
  }

  /** Over every run the registry stays well formed, no execution's binding or creation time ever
      changes, no execution fence ever decreases, and it has increased if the owner is a new one. */
  lemma {:induction false} RunsAdvance(m: Memory, ops: seq<Op>)
    requires WellFormed(m) && ManagerRun(m, ops)
    ensures WellFormed(Run(m, ops))
    ensures forall id :: Advances(m, Run(m, ops), id) && NewOwnerNewFence(m, Run(m, ops), id)
    decreases |ops|
  {
    hide MemoryStep, WellFormed, ManagerUpdate;
    if ops != [] {
      var next := MemoryStep(m, ops[0]).0;
      StepKeepsWellFormed(m, ops[0]);
      RunsAdvance(next, ops[1..]);
      forall id ensures Advances(m, Run(m, ops), id) && NewOwnerNewFence(m, Run(m, ops), id) {
        StepAdvances(m, ops[0], id);
        assert Advances(next, Run(next, ops[1..]), id) && NewOwnerNewFence(next, Run(next, ops[1..]), id);
      }
    }
  }

  /** Once a later fence has been granted, an (owner, fence) pair never owns again. */
  lemma LostOwnershipNeverReturns(m: Memory, ops: seq<Op>, id: string, owner: string, fence: int, now: Time)
    requires WellFormed(m) && ManagerRun(m, ops)
    requires id in m.records && fence < m.records[id].fence
    ensures !Owns(Lookup(Run(m, ops).records, id), owner, fence, now)
  {
    hide MemoryStep, WellFormed, ManagerRun, Run;
    RunsAdvance(m, ops);
    assert Advances(m, Run(m, ops), id);
  }

  /** In every reachable registry no two executions share a workspace, or a repository branch. */
  lemma NoSharedCheckout(ops: seq<Op>, a: string, b: string)
    requires ManagerRun(EMPTY, ops) && a != b
    requires a in Run(EMPTY, ops).records && b in Run(EMPTY, ops).records
    ensures Run(EMPTY, ops).records[a].binding.workspace != Run(EMPTY, ops).records[b].binding.workspace
    ensures Run(EMPTY, ops).records[a].binding.BranchKey() != Run(EMPTY, ops).records[b].binding.BranchKey()
  {
    hide Run;
    RunsAdvance(EMPTY, ops);
  }

  // ---------------------------------------------------------------- caches

  function CacheFence(m: Memory, repository: string): int {
    if repository in m.fences then m.fences[repository] else 0
  }

  /** Cache fences survive every step, and a granted cache claim is the only thing that moves
      one: to a value never granted before. */
  lemma StepMovesCacheFence(m: Memory, op: Op, repository: string)
    requires WellFormed(m)
    ensures
      var (after, reply) := MemoryStep(m, op);
      CacheFence(after, repository) ==
        if reply.CacheGranted? && op.repository == repository then CacheFence(m, repository) + 1
        else CacheFence(m, repository)
    ensures
      var (after, reply) := MemoryStep(m, op);
      reply.CacheGranted? <==> (op.ClaimCache? && reply == CacheGranted(CacheFence(m, op.repository) + 1))
  {
  }

  // ---------------------------------------------------------------- refinement

  function CacheRowOf(m: Memory, repository: string): CacheRow
    requires repository in m.fences
  {
    if repository in m.claims then
      var c := m.claims[repository];
      CacheRow(Some(c.id), Some(c.executionFence), Some(c.owner), m.fences[repository], Some(c.lease))
    else CacheRow(None, None, None, m.fences[repository], None)
  }

  ghost predicate RowsMatch(records: map<string, Checkout>, checkouts: map<string, Row>) {
    && checkouts.Keys == records.Keys
    && (forall id | id in records :: checkouts[id] == RowOf(records[id]))
  }

  ghost predicate CachesMatch(m: Memory, caches: map<string, CacheRow>) {
    && caches.Keys == m.fences.Keys
    && (forall r | r in m.fences :: caches[r] == CacheRowOf(m, r))
  }

  /** The tables hold exactly what the dictionaries hold. */
  ghost predicate Related(m: Memory, t: Tables) {
    WellFormed(m) && RowsMatch(m.records, t.checkouts) && CachesMatch(m, t.caches)
  }

  /** The database constraint fails exactly when the dictionaries report a reused checkout. */
  lemma ConstraintsAgree(m: Memory, t: Tables, c: Checkout)
    requires Related(m, t)
    ensures Collides(t, c) <==>
              Taken(m.paths, c.binding.workspace, c.executionId)
              || Taken(m.branches, c.binding.BranchKey(), c.executionId)
  {
    hide CachesMatch, ClaimsCurrent;
    var workspace, branch := c.binding.workspace, c.binding.BranchKey();
    if Taken(m.paths, workspace, c.executionId) {
      var id := m.paths[workspace];
      assert id in t.checkouts && t.checkouts[id].workspace == workspace;
    }
    if Taken(m.branches, branch, c.executionId) {
      var id := m.branches[branch];
      assert id in t.checkouts && (t.checkouts[id].repository, t.checkouts[id].branch) == branch;
    }
    if Collides(t, c) {
      var id :| id in t.checkouts && id != c.executionId
             && (t.checkouts[id].workspace == workspace
                 || (t.checkouts[id].repository, t.checkouts[id].branch) == branch);
      assert t.checkouts[id] == RowOf(m.records[id]);
    }
  }

  /** Every row stands under its own execution, and its columns are those of its payload. */
  ghost predicate OwnRows(rows: map<string, Row>) {
    forall id | id in rows :: rows[id] == RowOf(rows[id].payload) && rows[id].payload.executionId == id
  }

  /** The UNIQUE constraints of the table. */
  ghost predicate Unique(rows: map<string, Row>) {
    forall a, b | a in rows && b in rows && a != b ::
      && rows[a].workspace != rows[b].workspace
      && (rows[a].repository, rows[a].branch) != (rows[b].repository, rows[b].branch)
  }

  /** A row may be put into a table exactly if the constraints hold afterwards. */
  lemma CollidesExactly(t: Tables, c: Checkout)
    requires Unique(t.checkouts)
    ensures Collides(t, c) <==> !Unique(t.checkouts[c.executionId := RowOf(c)])
  {
    var rows := t.checkouts[c.executionId := RowOf(c)];
    if Collides(t, c) {
      var id :| id in t.checkouts && id != c.executionId
             && (t.checkouts[id].workspace == c.binding.workspace
                 || (t.checkouts[id].repository, t.checkouts[id].branch) == c.binding.BranchKey());
      assert rows[id] == t.checkouts[id] && rows[c.executionId] == RowOf(c);
    }
  }

  lemma LookupsAgree(m: Memory, t: Tables, id: string)
    requires Related(m, t)
    ensures Payload(t, id) == Lookup(m.records, id)
    ensures id in m.records ==> m.records[id].executionId == id
  {
  }

  lemma RowStored(records: map<string, Checkout>, checkouts: map<string, Row>, c: Checkout)
    requires RowsMatch(records, checkouts)
    ensures RowsMatch(records[c.executionId := c], checkouts[c.executionId := RowOf(c)])
  {
  }

  /** A record with the binding of the stored one is stored by both registries. */
  lemma StoreOnBoth(m: Memory, t: Tables, c: Checkout)
    requires Related(m, t) && SameBinding(m.records, c)
    ensures !Collides(t, c)
    ensures Related(m.(records := m.records[c.executionId := c]),
                    t.(checkouts := t.checkouts[c.executionId := RowOf(c)]))
  {
    ConstraintsAgree(m, t, c);
    StoreKeepsIndexes(m, c);
    RowStored(m.records, t.checkouts, c);
    SameCaches(m, m.(records := m.records[c.executionId := c]), t.caches);
  }

  lemma SameCaches(m: Memory, n: Memory, caches: map<string, CacheRow>)
    requires CachesMatch(m, caches) && m.claims == n.claims && m.fences == n.fences
    ensures CachesMatch(n, caches)
  {
    forall r | r in n.fences ensures caches[r] == CacheRowOf(n, r) { assert caches[r] == CacheRowOf(m, r); }
  }

  lemma PutOnBoth(m: Memory, t: Tables, c: Checkout)
    requires Related(m, t) && (c.executionId in m.records ==> SameBinding(m.records, c))
    ensures MemoryPut(m, c).1 == TablesPut(t, c, CheckoutReuse, Granted(c)).1
    ensures Related(MemoryPut(m, c).0, TablesPut(t, c, CheckoutReuse, Granted(c)).0)
  {
    hide Collides, Taken, WellFormed, RowsMatch, CachesMatch;
    ConstraintsAgree(m, t, c);
    PutKeepsIndexes(m, c);
    RowStored(m.records, t.checkouts, c);
    SameCaches(m, MemoryPut(m, c).0, t.caches);
  }

  /** Every operation on related registries gives the same reply and related registries again,
      except that releasing an absent claim is silent in memory and an error in SQL. */
  lemma TablesRefineMemory(m: Memory, t: Tables, op: Op)
    requires Related(m, t) && ManagerUpdate(m, op)
    ensures Related(MemoryStep(m, op).0, TablesStep(t, op).0)
    ensures MemoryStep(m, op).1 == TablesStep(t, op).1 <==> !(op.ReleaseCache? && op.repository !in m.claims)
    ensures op.ReleaseCache? && op.repository !in m.claims ==>
              MemoryStep(m, op).1 == Done && TablesStep(t, op).1 == Raised(CacheClaimInProgress)
  {
    hide Related, Collides, MemoryPut;
    match op
    case Get(id) => LookupsAgree(m, t, id);
    case Claim(candidate, now) =>
      LookupsAgree(m, t, candidate.executionId);
      var plan := PlanClaim(Lookup(m.records, candidate.executionId), candidate, now);
      if plan.Put? { PutOnBoth(m, t, plan.candidate); }
    case Renew(id, owner, fence, now, lease) =>
      LookupsAgree(m, t, id);
      if Owns(Lookup(m.records, id), owner, fence, now) {
        StoreOnBoth(m, t, Renewed(m.records[id], now, lease));
      }
    case BeginCleanup(id, owner, now, lease) =>
      LookupsAgree(m, t, id);
      var plan := PlanCleanup(Lookup(m.records, id), owner, now, lease);
      if plan.Some? { StoreOnBoth(m, t, plan.value); }
    case Update(c, owner, fence, now) =>
      LookupsAgree(m, t, c.executionId);
      if Owns(Lookup(m.records, c.executionId), owner, fence, now) { StoreOnBoth(m, t, c); }
    case ClaimCache(repository, id, owner, fence, now, lease) =>
      LookupsAgree(m, t, id);
      CachesRefine(m, t, op);
    case RenewCache(repository, id, owner, fence, cacheFence, now, lease) =>
      LookupsAgree(m, t, id);
      CachesRefine(m, t, op);
    case ReleaseCache(repository, owner, cacheFence) =>
      CachesRefine(m, t, op);
  }

  lemma CachesRefine(m: Memory, t: Tables, op: Op)
    requires Related(m, t) && (op.ClaimCache? || op.RenewCache? || op.ReleaseCache?)
    ensures Related(MemoryStep(m, op).0, TablesStep(t, op).0)
    ensures MemoryStep(m, op).1 == TablesStep(t, op).1 <==> !(op.ReleaseCache? && op.repository !in m.claims)
    ensures op.ReleaseCache? && op.repository !in m.claims ==>
              MemoryStep(m, op).1 == Done && TablesStep(t, op).1 == Raised(CacheClaimInProgress)
  {
    hide Owns, OwnIds, PathsInvert, BranchesInvert, RowsMatch, CachesMatch;
    CacheStepKeepsWellFormed(m, op);
    CacheAt(m, t, op.repository);
    if !op.ReleaseCache? { LookupsAgree(m, t, op.id); }
    match op
    case ClaimCache(repository, id, owner, fence, now, lease) =>
      var reply := MemoryStep(m, op).1;
      if reply.CacheGranted? {
        CacheStored(m, t, repository, CacheClaim(owner, reply.cacheFence, lease, id, fence));
      }
    case RenewCache(repository, id, owner, fence, cacheFence, now, lease) =>
      if HoldsCache(m, repository, id, owner, fence, cacheFence, now) {
        CacheStored(m, t, repository, CacheClaim(owner, cacheFence, lease, id, fence));
        assert m.fences == m.fences[repository := cacheFence];
      }
    case ReleaseCache(repository, owner, cacheFence) =>
      CacheReleased(m, t, repository);
  }

  /** One cache seen through the relation. */
  lemma CacheAt(m: Memory, t: Tables, repository: string)
    requires Related(m, t)
    ensures repository in t.caches <==> repository in m.fences
    ensures repository in m.fences ==> t.caches[repository] == CacheRowOf(m, repository)
    ensures repository in m.claims ==> repository in m.fences && m.claims[repository].fence == m.fences[repository]
  {
  }

  lemma CacheStored(m: Memory, t: Tables, repository: string, claim: CacheClaim)
    requires Related(m, t)
    ensures
      var row := CacheRow(Some(claim.id), Some(claim.executionFence), Some(claim.owner), claim.fence,
                          Some(claim.lease));
      CachesMatch(m.(fences := m.fences[repository := claim.fence], claims := m.claims[repository := claim]),
                  t.caches[repository := row])
  {
    hide WellFormed, RowsMatch;
    var after := m.(fences := m.fences[repository := claim.fence], claims := m.claims[repository := claim]);
    var row := CacheRow(Some(claim.id), Some(claim.executionFence), Some(claim.owner), claim.fence, Some(claim.lease));
    OtherCachesMatch(m, after, t.caches, t.caches[repository := row], repository);
  }

  lemma CacheReleased(m: Memory, t: Tables, repository: string)
    requires Related(m, t)
    ensures repository in m.claims ==>
              CachesMatch(m.(claims := m.claims - {repository}),
                          t.caches[repository := CacheRow(None, None, None, m.claims[repository].fence, None)])
  {
    hide OwnIds, PathsInvert, BranchesInvert, RowsMatch;
    if repository in m.claims {
      var row := CacheRow(None, None, None, m.claims[repository].fence, None);
      OtherCachesMatch(m, m.(claims := m.claims - {repository}), t.caches, t.caches[repository := row], repository);
    }
  }

  lemma OtherCachesMatch(m: Memory, after: Memory, caches: map<string, CacheRow>, stored: map<string, CacheRow>,
                         repository: string)
    requires CachesMatch(m, caches)
    requires forall r | r != repository ::
               && (r in after.fences <==> r in m.fences) && (r in stored <==> r in caches)
               && (r in m.fences ==> after.fences[r] == m.fences[r] && stored[r] == caches[r])
               && (r in after.claims <==> r in m.claims) && (r in m.claims ==> after.claims[r] == m.claims[r])
    requires repository in after.fences <==> repository in stored
    requires repository in after.fences ==> stored[repository] == CacheRowOf(after, repository)
    ensures CachesMatch(after, stored)
  {
    forall r | r in after.fences ensures stored[r] == CacheRowOf(after, r) {
      if r != repository { assert caches[r] == CacheRowOf(m, r); }
    }
    forall r ensures r in stored <==> r in after.fences {
      if r != repository { assert r in caches <==> r in m.fences; }
    }
  }

  function TablesRun(t: Tables, ops: seq<Op>): Tables
    decreases |ops|
  {
    hide TablesStep;
    if ops == [] then t else TablesRun(TablesStep(t, ops[0]).0, ops[1..])
  }

  /** So the two registries stay related over every run of manager calls. */
  lemma {:induction false} RunsRefine(m: Memory, t: Tables, ops: seq<Op>)
    requires Related(m, t) && ManagerRun(m, ops)
    ensures Related(Run(m, ops), TablesRun(t, ops))
    decreases |ops|
  {
    hide MemoryStep, TablesStep, Related, ManagerUpdate;
    if ops != [] {
      TablesRefineMemory(m, t, ops[0]);
      RunsRefine(MemoryStep(m, ops[0]).0, TablesStep(t, ops[0]).0, ops[1..]);
    }
  }

  // ---------------------------------------------------------------- updates of any kind

  /** The record belongs at the workspace and the repository branch of another execution. */
  predicate Trespasses(m: Memory, c: Checkout) {
    exists id | id in m.records && id != c.executionId ::
      || m.records[id].binding.workspace == c.binding.workspace
      || m.records[id].binding.BranchKey() == c.binding.BranchKey()
  }

  /** The record stays at its workspace and repository branch. */
  predicate StaysPut(m: Memory, c: Checkout) {
    c.executionId in m.records ==>
      && c.binding.workspace == m.records[c.executionId].binding.workspace
      && c.binding.BranchKey() == m.records[c.executionId].binding.BranchKey()
  }

  /** For every update, kept to the manager's discipline or not: the registries reply alike exactly
      if the caller does not own the record or the update takes no other execution's workspace or
      branch, and they stay related exactly if the caller does not own the record or it stays put. */
  lemma UpdatesAgreeExactly(m: Memory, t: Tables, c: Checkout, owner: string, fence: int, now: Time)
    requires Related(m, t)
    ensures
      var op := Update(c, owner, fence, now);
      var owned := Owns(Lookup(m.records, c.executionId), owner, fence, now);
      && (MemoryStep(m, op).1 == TablesStep(t, op).1 <==> !owned || !Trespasses(m, c))
      && (Related(MemoryStep(m, op).0, TablesStep(t, op).0) <==> !owned || StaysPut(m, c))
  {
    LookupsAgree(m, t, c.executionId);
    if Owns(Lookup(m.records, c.executionId), owner, fence, now) {
      OwnedUpdate(m, t, c);
    }
  }

  /** A stored record keeps the indexes exact exactly if it stays put. */
  lemma StoredIndexes(m: Memory, c: Checkout)
    requires WellFormed(m) && c.executionId in m.records
    ensures WellFormed(m.(records := m.records[c.executionId := c])) <==> StaysPut(m, c)
  {
    var after, was := m.records[c.executionId := c], m.records[c.executionId];
    if StaysPut(m, c) {
      assert OwnIds(after);
      assert PathsInvert(after, m.paths);
      assert BranchesInvert(after, m.branches);
    } else if c.binding.workspace != was.binding.workspace {
      assert m.paths[was.binding.workspace] == c.executionId;
      assert !PathsInvert(after, m.paths);
    } else {
      assert m.branches[was.binding.BranchKey()] == c.executionId;
      assert !BranchesInvert(after, m.branches);
    }
  }

  lemma PutStaysFree(m: Memory, c: Checkout)
    requires WellFormed(m) && c.executionId in m.records
    ensures StaysPut(m, c) ==> !Trespasses(m, c)
  {
    hide OwnIds, ClaimsCurrent;
    var was := m.records[c.executionId];
    assert m.paths[was.binding.workspace] == c.executionId;
    assert m.branches[was.binding.BranchKey()] == c.executionId;
  }

  lemma OwnedUpdate(m: Memory, t: Tables, c: Checkout)
    requires Related(m, t) && c.executionId in m.records
    ensures Collides(t, c) <==> Trespasses(m, c)
    ensures
      var after := m.(records := m.records[c.executionId := c]);
      Related(after, TablesPut(t, c, IntegrityError, Done).0) <==> StaysPut(m, c)
  {
    StoredIndexes(m, c);
    var after := m.(records := m.records[c.executionId := c]);
    if StaysPut(m, c) {
      PutStaysFree(m, c);
      hide WellFormed, Collides, Trespasses, StaysPut;
      RowStored(m.records, t.checkouts, c);
      SameCaches(m, after, t.caches);
    }
  }

  /** An owner that moves its record onto the workspace or branch of another execution is refused by
      the database but stored by the dictionaries, which then give it to two executions. */
  lemma RebindingUpdateDiverges(m: Memory, t: Tables, mine: Checkout, owner: string, now: Time)
    requires Related(m, t) && Owns(Lookup(m.records, mine.executionId), owner, mine.fence, now)
    requires Trespasses(m, mine)
    ensures
      var op := Update(mine, owner, mine.fence, now);
      && TablesStep(t, op) == (t, Raised(IntegrityError))
      && MemoryStep(m, op).1 == Done
      && Trespasses(MemoryStep(m, op).0, MemoryStep(m, op).0.records[mine.executionId])
      && !Related(MemoryStep(m, op).0, t)
  {
    hide Related, Collides, Trespasses, StaysPut;
    LookupsAgree(m, t, mine.executionId);
    RelatedIsWellFormed(m, t);
    OwnedUpdate(m, t, mine);
    UpdatesAgreeExactly(m, t, mine, owner, mine.fence, now);
    PutStaysFree(m, mine);
    StillTrespasses(m, mine);
  }

  lemma RelatedIsWellFormed(m: Memory, t: Tables)
    requires Related(m, t)
    ensures WellFormed(m)
  {
  }

  lemma StillTrespasses(m: Memory, c: Checkout)
    requires Trespasses(m, c)
    ensures Trespasses(m.(records := m.records[c.executionId := c]), c)
  {
    var other :| other in m.records && other != c.executionId
      && (m.records[other].binding.workspace == c.binding.workspace
          || m.records[other].binding.BranchKey() == c.binding.BranchKey());
    assert m.records[c.executionId := c][other] == m.records[other];
  }

  const NO_TABLES := Tables(map[], map[])

  function Site(workspace: string, branch: string): Binding {
    Binding(Repository("r", "r"), "base", "knowledge", branch, workspace, "/cache")
  }

  function Fresh(id: string, binding: Binding): Checkout {
    Checkout(id, binding, Provisioning, 0, 0, 0, Some("owner"), Some(1))
  }

  /** A pair of registries, reached by two claims, and the update on which they part. */
  lemma RebindingExample()
    ensures
      var claims := [Claim(Fresh("a", Site("/a", "x")), 0), Claim(Fresh("b", Site("/b", "y")), 0)];
      var m, t := Run(EMPTY, claims), TablesRun(NO_TABLES, claims);
      var moved := Fresh("a", Site("/b", "x")).(fence := 1);
      var op := Update(moved, "owner", 1, 0);
      && ManagerRun(EMPTY, claims) && Related(m, t)
      && MemoryStep(m, op).1 == Done && TablesStep(t, op) == (t, Raised(IntegrityError))
      && !Related(MemoryStep(m, op).0, t)
  {
    hide *;
    var claims := [Claim(Fresh("a", Site("/a", "x")), 0), Claim(Fresh("b", Site("/b", "y")), 0)];
    TwoClaims(claims[0], claims[1]);
    RunsRefine(EMPTY, NO_TABLES, claims);
    ExampleRecords();
    var m, moved := Run(EMPTY, claims), Fresh("a", Site("/b", "x")).(fence := 1);
    ExampleUpdate(m);
    RebindingUpdateDiverges(m, TablesRun(NO_TABLES, claims), moved, "owner", 0);
  }

  lemma ExampleRecords()
    ensures
      var one := MemoryStep(EMPTY, Claim(Fresh("a", Site("/a", "x")), 0)).0;
      var two := MemoryStep(one, Claim(Fresh("b", Site("/b", "y")), 0)).0;
      two.records == map["a" := Fresh("a", Site("/a", "x")).(fence := 1),
                         "b" := Fresh("b", Site("/b", "y")).(fence := 1)]
  {
    var one := MemoryStep(EMPTY, Claim(Fresh("a", Site("/a", "x")), 0)).0;
    assert one.paths == map["/a" := "a"] && one.branches == map[("r", "x") := "a"];
  }

  lemma ExampleUpdate(m: Memory)
    requires m.records == map["a" := Fresh("a", Site("/a", "x")).(fence := 1),
                              "b" := Fresh("b", Site("/b", "y")).(fence := 1)]
    ensures
      var moved := Fresh("a", Site("/b", "x")).(fence := 1);
      && moved.executionId == "a" && moved.fence == 1 && Trespasses(m, moved)
      && Owns(Lookup(m.records, "a"), "owner", 1, 0)
  {
    assert "b" in m.records && m.records["b"].binding.workspace == "/b";
  }

  lemma TwoClaims(first: Op, second: Op)
    requires first.Claim? && second.Claim?
    ensures ManagerRun(EMPTY, [first, second]) && Related(EMPTY, NO_TABLES)
    ensures Run(EMPTY, [first, second]) == MemoryStep(MemoryStep(EMPTY, first).0, second).0
  {
    hide MemoryStep;
    var one := MemoryStep(EMPTY, first).0;
    assert [first, second][1..] == [second] && [second][1..] == [];
    assert Run(EMPTY, [first, second]) == Run(one, [second]);
    assert Run(one, [second]) == Run(MemoryStep(one, second).0, []);
    assert ManagerRun(one, [second]);
  }
}
