/** The atomic operations of the runtime object store that the invocation and suite protocols rest
    on (src/aep/runtime_store.py:23, 239-355, 490-538). */
module RuntimeStore {
  import opened Wrappers

  datatype Status = Pending | Running | Succeeded | Failed | Cancelled

  predicate Terminal(s: Status) { s == Succeeded || s == Failed || s == Cancelled }

  /** A stored object: its status and everything else about it. */
  datatype Stored<T> = Stored(status: Status, value: T)

  datatype Lease = Lease(owner: string, expires: int)

  datatype Error = NotFound | AlreadyExists | StatusConflict | Immutable

  // ---------------------------------------------------------------- one object

  /** `create` under a deterministic key: the first object stays. */
  function CreateOrReturn<T>(cell: Option<Stored<T>>, candidate: Stored<T>): Stored<T> {
    if cell.Some? then cell.value else candidate
  }

  /** `update_status` with an expected status. */
  function UpdateStatus<T>(cell: Option<Stored<T>>, expected: Status, status: Status, value: T)
    : Result<Stored<T>, Error>
  {
    if cell.None? then Err(NotFound)
    else if cell.value.status != expected then Err(StatusConflict)
    else if Terminal(cell.value.status) then
      if cell.value.status == status then Ok(cell.value) else Err(Immutable)
    else Ok(Stored(status, value))
  }

  /** `claim`: the first value stays, and every caller is told it. */
  function ClaimOnce<T>(claim: Option<T>, value: T): T {
    if claim.Some? then claim.value else value
  }

  // ---------------------------------------------------------------- one lease

  /** `acquire_lease`: no lease if another owner has one that is not over. */
  function Acquire(lease: Option<Lease>, owner: string, now: int, expires: int): Option<Lease> {
    if lease.Some? && lease.value.owner != owner && lease.value.expires > now then None else Some(Lease(owner, expires))
  }

  predicate Holds(lease: Option<Lease>, owner: string, now: int) {
    lease.Some? && lease.value.owner == owner && lease.value.expires > now
  }

  /** The lease after a renewal and after a release, granted or not. */
  function Renewed(lease: Option<Lease>, owner: string, now: int, expires: int): Option<Lease> {
    if Holds(lease, owner, now) then Some(Lease(owner, expires)) else lease
  }

  predicate Owns(lease: Option<Lease>, owner: string) {
    lease.Some? && lease.value.owner == owner
  }

  function Released(lease: Option<Lease>, owner: string): Option<Lease> {
    if Owns(lease, owner) then None else lease
  }

  /** `update_status_with_lease`. */
  function UpdateHeld<T>(cell: Option<Stored<T>>, lease: Option<Lease>, owner: string, now: int,
                         expected: Status, status: Status, value: T): Result<Stored<T>, Error>
  {
    if !Holds(lease, owner, now) then Err(StatusConflict) else UpdateStatus(cell, expected, status, value)
  }

  datatype LeaseCall =
    | Acquiring(owner: string, now: int, expires: int)
    | Renewing(owner: string, now: int, expires: int)
    | Releasing(owner: string)

  function AfterCall(lease: Option<Lease>, call: LeaseCall): Option<Lease> {
    match call
    case Acquiring(owner, now, expires) =>
      var acquired := Acquire(lease, owner, now, expires);
      if acquired.Some? then acquired else lease
    case Renewing(owner, now, expires) => Renewed(lease, owner, now, expires)
    case Releasing(owner) => Released(lease, owner)
  }

  function AfterCalls(lease: Option<Lease>, calls: seq<LeaseCall>): Option<Lease>
    decreases |calls|
  {
    if calls == [] then lease else AfterCalls(AfterCall(lease, calls[0]), calls[1..])
  }

  /** Until it is over, a lease cannot be taken, renewed or released by anybody else, whatever they
      call in whatever order. */
  lemma {:induction false} LeaseIsExclusive(lease: Lease, calls: seq<LeaseCall>)
    requires forall c | c in calls :: c.owner != lease.owner && (!c.Releasing? ==> c.now < lease.expires)
    ensures AfterCalls(Some(lease), calls) == Some(lease)
    decreases |calls|
  {
    if calls != [] {
      assert calls[0] in calls;
      LeaseIsExclusive(lease, calls[1..]);
    }
  }

  /** A lease is granted exactly if nobody else has one that is not over, and renewed exactly by an
      owner whose lease is not over; a refused call leaves it as it is. */
  lemma LeaseIsDecided(lease: Option<Lease>, owner: string, now: int, expires: int)
    ensures
      var granted := lease.None? || lease.value.owner == owner || lease.value.expires <= now;
      && (Acquire(lease, owner, now, expires).Some? <==> granted)
      && AfterCall(lease, Acquiring(owner, now, expires)) == if granted then Some(Lease(owner, expires)) else lease
    ensures
      var renewed := lease.Some? && lease.value.owner == owner && now < lease.value.expires;
      AfterCall(lease, Renewing(owner, now, expires)) == if renewed then Some(Lease(owner, expires)) else lease
    ensures AfterCall(lease, Releasing(owner)) == if lease.Some? && lease.value.owner == owner then None else lease
  {
  }

  /** An update is a compare-and-swap on the status: it succeeds exactly on the expected status, unless
      that is terminal and another one is asked for. */
  lemma UpdateIsDecided<T>(cell: Option<Stored<T>>, expected: Status, status: Status, value: T)
    ensures
      var r := UpdateStatus(cell, expected, status, value);
      && (r.Ok? <==> cell.Some? && cell.value.status == expected && (Terminal(expected) ==> status == expected))
      && (r.Ok? ==> r.value.status == status)
      && (r.Ok? && !Terminal(expected) ==> r.value.value == value)
      && (r.Ok? && Terminal(expected) ==> Some(r.value) == cell)
      && (r == Err(NotFound) <==> cell.None?)
      && (r == Err(StatusConflict) <==> cell.Some? && cell.value.status != expected)
  {
  }

  datatype Write<T> = Write(held: bool, owner: string, now: int, expected: Status, status: Status, value: T)

  /** A cell after some updates, with or without a lease, whoever makes them. */
  function AfterWrites<T>(cell: Option<Stored<T>>, lease: Option<Lease>, writes: seq<Write<T>>): Option<Stored<T>>
    decreases |writes|
  {
    if writes == [] then cell
    else
      var w := writes[0];
      var r :=
        if w.held then UpdateHeld(cell, lease, w.owner, w.now, w.expected, w.status, w.value)
        else UpdateStatus(cell, w.expected, w.status, w.value);
      AfterWrites(if r.Ok? then Some(r.value) else cell, lease, writes[1..])
  }

  /** Whatever is updated, an object that is terminal stays exactly as it is, and none appears. */
  lemma {:induction false} TerminalIsFinal<T>(cell: Option<Stored<T>>, lease: Option<Lease>, writes: seq<Write<T>>)
    requires cell.None? || Terminal(cell.value.status)
    ensures AfterWrites(cell, lease, writes) == cell
    decreases |writes|
  {
    if writes != [] { TerminalIsFinal(cell, lease, writes[1..]); }
  }

  /** Without the lease no update with a lease changes anything. */
  lemma {:induction false} UnheldChangesNothing<T>(cell: Option<Stored<T>>, lease: Option<Lease>, writes: seq<Write<T>>)
    requires forall w | w in writes ::
               w.held && (lease.None? || lease.value.owner != w.owner || lease.value.expires <= w.now)
    ensures AfterWrites(cell, lease, writes) == cell
    decreases |writes|
  {
    if writes != [] {
      assert writes[0] in writes && forall w | w in writes[1..] :: w in writes;
      UnheldChangesNothing(cell, lease, writes[1..]);
    }
  }

  // ---------------------------------------------------------------- the store

  class InMemoryRuntimeObjectStore<T(==)> {
    var objects: map<string, Stored<T>>
    var keys: map<string, string>
    var claims: map<string, T>
    var leases: map<string, Lease>

    ghost predicate Valid()
      reads this
    {
      forall key | key in keys :: keys[key] in objects
    }

    function Cell(id: string): Option<Stored<T>>
      reads this
    {
      if id in objects then Some(objects[id]) else None
    }

    function ClaimOf(key: string): Option<T>
      reads this
    {
      if key in claims then Some(claims[key]) else None
    }

    function LeaseOf(key: string): Option<Lease>
      reads this
    {
      if key in leases then Some(leases[key]) else None
    }

    constructor ()
      ensures Valid() && objects == map[] && keys == map[] && claims == map[] && leases == map[]
    {
      objects, keys, claims, leases := map[], map[], map[], map[];
    }

    /** The first object of a key is returned to every later caller; an identifier stored under
        another key is refused. */
    method Create(id: string, candidate: Stored<T>, key: string) returns (result: Result<Stored<T>, Error>)
      requires Valid()
      modifies this`objects, this`keys
      ensures Valid()
      ensures key in old(keys) ==> objects == old(objects) && keys == old(keys) && result == Ok(objects[keys[key]])
      ensures key !in old(keys) && id in old(objects) ==>
                objects == old(objects) && keys == old(keys) && result == Err(AlreadyExists)
      ensures key !in old(keys) && id !in old(objects) ==>
                objects == old(objects)[id := candidate] && keys == old(keys)[key := id] && result == Ok(candidate)
      ensures result.Ok? ==>
                && key in keys && Cell(keys[key]) == Some(result.value)
                && result.value == CreateOrReturn(if key in old(keys) then old(Cell(keys[key])) else None, candidate)
    {
      if key in keys { return Ok(objects[keys[key]]); }
      if id in objects { return Err(AlreadyExists); }
      objects, keys := objects[id := candidate], keys[key := id];
      result := Ok(candidate);
    }

    /** A claim succeeds once per key; every caller is told the value that won. */
    method Claim(key: string, value: T) returns (claimed: bool, winner: T)
      modifies this`claims
      ensures claimed <==> old(ClaimOf(key)).None?
      ensures winner == ClaimOnce(old(ClaimOf(key)), value) && ClaimOf(key) == Some(winner)
      ensures forall other | other != key :: ClaimOf(other) == old(ClaimOf(other))
    {
      if key in claims { return false, claims[key]; }
      claims := claims[key := value];
      return true, value;
    }

    method Update(id: string, status: Status, expected: Status, value: T) returns (result: Result<Stored<T>, Error>)
      requires Valid()
      modifies this`objects
      ensures Valid()
      ensures result == UpdateStatus(old(Cell(id)), expected, status, value)
      ensures Cell(id) == if result.Ok? then Some(result.value) else old(Cell(id))
      ensures forall other | other != id :: Cell(other) == old(Cell(other))
    {
      if id !in objects { return Err(NotFound); }
      var current := objects[id].status;
      if current != expected { return Err(StatusConflict); }
      if Terminal(current) {
        if current == status { return Ok(objects[id]); }
        return Err(Immutable);
      }
      objects := objects[id := Stored(status, value)];
      result := Ok(objects[id]);
    }

    method UpdateWithLease(id: string, status: Status, leaseKey: string, owner: string, now: int, expected: Status,
                           value: T)
      returns (result: Result<Stored<T>, Error>)
      requires Valid()
      modifies this`objects
      ensures Valid()
      ensures result == UpdateHeld(old(Cell(id)), LeaseOf(leaseKey), owner, now, expected, status, value)
      ensures Cell(id) == if result.Ok? then Some(result.value) else old(Cell(id))
      ensures forall other | other != id :: Cell(other) == old(Cell(other))
    {
      if leaseKey !in leases || leases[leaseKey].owner != owner || leases[leaseKey].expires <= now {
        return Err(StatusConflict);
      }
      result := Update(id, status, expected, value);
    }

    method AcquireLease(key: string, owner: string, now: int, expires: int) returns (acquired: bool)
      modifies this`leases
      ensures acquired <==> Acquire(old(LeaseOf(key)), owner, now, expires).Some?
      ensures LeaseOf(key) == AfterCall(old(LeaseOf(key)), Acquiring(owner, now, expires))
      ensures forall other | other != key :: LeaseOf(other) == old(LeaseOf(other))
    {
      if key in leases && leases[key].owner != owner && leases[key].expires > now { return false; }
      leases := leases[key := Lease(owner, expires)];
      acquired := true;
    }

    method RenewLease(key: string, owner: string, now: int, expires: int) returns (renewed: bool)
      modifies this`leases
      ensures renewed <==> old(Holds(LeaseOf(key), owner, now))
      ensures LeaseOf(key) == AfterCall(old(LeaseOf(key)), Renewing(owner, now, expires))
      ensures forall other | other != key :: LeaseOf(other) == old(LeaseOf(other))
    {
      if key !in leases || leases[key].owner != owner || leases[key].expires <= now { return false; }
      leases := leases[key := Lease(owner, expires)];
      renewed := true;
    }

    method ReleaseLease(key: string, owner: string) returns (released: bool)
      modifies this`leases
      ensures released <==> old(Owns(LeaseOf(key), owner))
      ensures LeaseOf(key) == AfterCall(old(LeaseOf(key)), Releasing(owner))
      ensures forall other | other != key :: LeaseOf(other) == old(LeaseOf(other))
    {
      if key !in leases || leases[key].owner != owner { return false; }
      leases := leases - {key};
      released := true;
    }
  }
}
