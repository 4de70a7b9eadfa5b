/** The bounded connection pool. Each method is one stretch of code run under the pool's mutex;
    `Run` interleaves them in any order. Callback answers, clock readings and wait results are
    arbitrary. Tickets and tokens are assumed not to wrap at 2^64. */
module ConnectionPool {
  import opened Options
  import opened Counting
  import opened PoolState
  import opened PoolQueue

  const UINT64_MAX: nat := 0xffff_ffff_ffff_ffff

  datatype Status = Ok | CreateFailed | ResetFailed | Busy | Interrupted | Closed | StaleLease | PlatformError

  /** A lease is a plain value: it can be copied and presented more than once. */
  datatype Lease = Lease(connection: nat, token: nat, slotIndex: nat)

  datatype Acquired = Granted(lease: Lease) | Waiting(ticket: nat, waiterIndex: nat) | Refused(status: Status)

  datatype CreateAnswer = Created | NotCreated | NotCreatedWithHandle

  /** What the optional callbacks and the clock answer on their n-th call; any answers at all. */
  datatype Callbacks = Callbacks(
    validates: bool, validate: nat -> bool, resets: bool, reset: nat -> bool, clock: nat -> Option<nat>)

  class Pool {
    const maximumSize: nat
    const maximumWaiters: nat
    const idleValidation: nat
    const callbacks: Callbacks
    const slots: array<Slot>
    const waiters: array<Waiter>
    var nextTicket: nat
    var nextToken: nat
    var total: nat
    var active: nat
    var waiting: nat
    var closed: bool
    /** How many handles the create callback has returned; the next one is a fresh number. */
    var created: nat
    /** How often each callback has been asked. */
    var validateCalls: nat
    var resetCalls: nat
    var clockCalls: nat
    ghost var destroyed: seq<nat>
    ghost var released: set<nat>
    ghost var history: seq<Event>

    ghost function S(): State
      reads this, slots, waiters
    {
      State(slots[..], waiters[..], nextTicket, nextToken, total, active, waiting, closed,
            created, destroyed, released, history)
    }

    constructor (maximumSize: nat, maximumWaiters: nat, idleValidation: nat, callbacks: Callbacks)
      requires 0 < maximumSize && 0 < maximumWaiters
      ensures fresh(slots) && fresh(waiters) && Valid(S()) && !closed && total == 0 && history == []
      ensures slots.Length == maximumSize == this.maximumSize && waiters.Length == maximumWaiters == this.maximumWaiters
      ensures nextTicket == 0 && nextToken == 0 && created == 0 && released == {}
      ensures forall w :: 0 <= w < waiters.Length ==> !waiters[w].active
    {
      this.maximumSize, this.maximumWaiters := maximumSize, maximumWaiters;
      this.idleValidation, this.callbacks := idleValidation, callbacks;
      validateCalls, resetCalls, clockCalls := 0, 0, 0;
      slots := new Slot[maximumSize](_ => EMPTY_SLOT);
      waiters := new Waiter[maximumWaiters](_ => EMPTY_WAITER);
      nextTicket, nextToken, total, active, waiting, closed := 0, 0, 0, 0, 0, false;
      created, destroyed, released, history := 0, [], {}, [];
      new;
      InitialValid(S());
    }

    // ----- helpers run under the mutex

    method DestroyAt(index: nat)
      requires index < slots.Length && Consistent(S()) && !slots[index].inUse
      modifies `total, `destroyed, slots
      ensures Consistent(S())
      ensures S() == if old(slots[index].connection.Some?) then DestroySlot(old(S()), index) else old(S())
    {
      if slots[index].connection.Some? {
        DestroySlotKeeps(S(), index);
        ghost var before := slots[..];
        destroyed := destroyed + [slots[index].connection.value];
        slots[index] := EMPTY_SLOT;
        total := total - 1;
        assert slots[..] == before[index := EMPTY_SLOT];
      }
    }

    method FindEmptySlot() returns (index: nat)
      ensures index <= slots.Length && (index < slots.Length ==> slots[index].connection.None?)
      ensures forall i :: 0 <= i < index ==> slots[i].connection.Some?
    {
      index := 0;
      while index < slots.Length && slots[index].connection.Some?
        invariant index <= slots.Length
        invariant forall i :: 0 <= i < index ==> slots[i].connection.Some?
      {
        index := index + 1;
      }
    }

    method FillAt(index: nat)
      requires Consistent(S()) && index < slots.Length && slots[index].connection.None?
      modifies `total, `created, slots
      ensures Consistent(S()) && S() == FillSlot(old(S()), index) && Idle(S(), index)
    {
      FillSlotKeeps(S(), index);
      ghost var before := slots[..];
      slots[index] := slots[index].(connection := Some(created), lastUsed := 0);
      total := total + 1;
      created := created + 1;
      assert slots[..] == before[index := slots[index]];
    }

    method CreateSlot() returns (status: Status, index: nat)
      requires Consistent(S())
      modifies `total, `created, `destroyed, slots
      ensures Consistent(S())
      ensures status.Ok? || status.CreateFailed? || status.Busy?
      ensures status.Ok? ==> index < slots.Length && S() == FillSlot(old(S()), index) && Idle(S(), index)
      ensures status.CreateFailed? ==> S() == old(S()) || S() == Discard(old(S()))
      ensures status.Busy? ==> S() == old(S()) && forall i :: 0 <= i < slots.Length ==> slots[i].connection.Some?
    {
      index := FindEmptySlot();
      if index == slots.Length { return Busy, 0; }
      var answer: CreateAnswer := *;
      if answer.Created? {
        FillAt(index);
        return Ok, index;
      }
      if answer.NotCreatedWithHandle? {
        DiscardKeeps(S());
        destroyed := destroyed + [created];
        created := created + 1;
      }
      return CreateFailed, 0;
    }

    /** An idle connection has to be validated before use. The subtraction wraps in 64 bits, so a
        clock that went back forces a validation. */
    predicate Due(slot: Slot, now: nat) {
      callbacks.validates
      && (idleValidation == 0 || slot.lastUsed == 0 || (now - slot.lastUsed) % (UINT64_MAX + 1) >= idleValidation)
    }

    /** The first idle connection that needs no validation or passes it; those that fail are
        destroyed. */
    method FindIdle(now: nat) returns (found: bool, index: nat)
      requires Consistent(S())
      modifies `total, `destroyed, `validateCalls, slots
      ensures Consistent(S())
      ensures forall i :: 0 <= i < slots.Length ==> slots[i] == old(slots[i]) || DroppedFor(old(slots[i]), slots[i], now)
      ensures found ==> index < slots.Length && Idle(S(), index) && slots[index] == old(slots[index])
      ensures found && Due(slots[index], now) ==> validateCalls > 0 && callbacks.validate(validateCalls - 1)
      ensures !found ==> NoIdle(S())
      ensures forall i :: 0 <= i < (if found then index else slots.Length) && IsIdle(old(slots[i])) ==> Due(old(slots[i]), now)
    {
      for at := 0 to slots.Length
        invariant Consistent(S())
        invariant forall i :: 0 <= i < at ==> !IsIdle(slots[i])
        invariant forall i :: 0 <= i < at ==> slots[i] == old(slots[i]) || DroppedFor(old(slots[i]), slots[i], now)
        invariant forall i :: at <= i < slots.Length ==> slots[i] == old(slots[i])
      {
        var usable := TryIdle(at, now);
        if usable { return true, at; }
      }
      return false, 0;
    }

    /** Whether the slot holds a usable idle connection; one that fails its validation goes. */
    method TryIdle(at: nat, now: nat) returns (usable: bool)
      requires Consistent(S()) && at < slots.Length
      modifies `total, `destroyed, `validateCalls, slots
      ensures Consistent(S())
      ensures forall i :: 0 <= i < slots.Length && i != at ==> slots[i] == old(slots[i])
      ensures usable ==> IsIdle(slots[at]) && slots[at] == old(slots[at])
      ensures usable && Due(slots[at], now) ==> validateCalls > 0 && callbacks.validate(validateCalls - 1)
      ensures !usable ==> !IsIdle(slots[at]) && (slots[at] == old(slots[at]) || DroppedFor(old(slots[at]), slots[at], now))
    {
      if !IsIdle(slots[at]) { return false; }
      usable := Healthy(slots[at], now);
      if !usable { DropIdle(at); }
    }

    /** An idle connection that was due and is gone. */
    ghost predicate DroppedFor(before: Slot, after: Slot, now: nat) {
      IsIdle(before) && Due(before, now) && after == EMPTY_SLOT
    }

    method DropIdle(index: nat)
      requires Consistent(S()) && index < slots.Length && IsIdle(slots[index])
      modifies `total, `destroyed, slots
      ensures Consistent(S()) && slots[index] == EMPTY_SLOT
      ensures forall i :: 0 <= i < slots.Length && i != index ==> slots[i] == old(slots[i])
    {
      DestroyAt(index);
    }

    method Healthy(slot: Slot, now: nat) returns (healthy: bool)
      modifies `validateCalls
      ensures validateCalls == old(validateCalls) + if Due(slot, now) then 1 else 0
      ensures healthy <==> !Due(slot, now) || callbacks.validate(old(validateCalls))
    {
      healthy := true;
      if Due(slot, now) {
        healthy := callbacks.validate(validateCalls);
        validateCalls := validateCalls + 1;
      }
    }

    /** A usable idle connection, or else a new one if there is room. */
    method TakeAvailable(now: nat) returns (status: Status, index: nat)
      requires Consistent(S()) && slots.Length == maximumSize
      modifies `total, `created, `destroyed, `validateCalls, slots
      ensures Consistent(S()) && LeasesKept(old(S()), S())
      ensures status.Ok? || status.CreateFailed? || status.Busy?
      ensures status.Ok? ==> Idle(S(), index)
      ensures status.Ok? && created == old(created) ==>
        slots[index] == old(slots[index])
        && (Due(slots[index], now) ==> validateCalls > 0 && callbacks.validate(validateCalls - 1))
      ensures (exists i :: 0 <= i < slots.Length && IsIdle(old(slots[i])) && !Due(old(slots[i]), now)) ==>
        status.Ok? && created == old(created)
      ensures status.Busy? ==> forall i :: 0 <= i < slots.Length ==> slots[i].inUse
    {
      var found;
      found, index := FindIdle(now);
      if found { return Ok, index; }
      if total < maximumSize {
        status, index := CreateSlot();
      } else {
        CountAll(slots[..], Occupied);
        status, index := Busy, 0;
      }
    }

    method FillLease(index: nat) returns (lease: Lease)
      requires Idle(S(), index)
      modifies `nextToken, `active, slots
      ensures S() == GrantSlot(old(S()), index)
      ensures lease == Lease(slots[index].connection.value, slots[index].leaseToken, index)
    {
      ghost var before := slots[..];
      nextToken := nextToken + 1;
      slots[index] := slots[index].(inUse := true, leaseToken := nextToken);
      active := active + 1;
      assert slots[..] == before[index := slots[index]];
      lease := Lease(slots[index].connection.value, slots[index].leaseToken, index);
    }

    method FirstTicket() returns (first: nat)
      requires forall w :: 0 <= w < waiters.Length && waiters[w].active ==> waiters[w].ticket <= UINT64_MAX
      ensures forall w :: 0 <= w < waiters.Length && waiters[w].active ==> first <= waiters[w].ticket
      ensures first == UINT64_MAX || exists w :: 0 <= w < waiters.Length && waiters[w] == Waiter(first, true)
    {
      first := UINT64_MAX;
      for w := 0 to waiters.Length
        invariant forall v :: 0 <= v < w && waiters[v].active ==> first <= waiters[v].ticket
        invariant first == UINT64_MAX || exists v :: 0 <= v < w && waiters[v] == Waiter(first, true)
      {
        if waiters[w].active && waiters[w].ticket < first { first := waiters[w].ticket; }
      }
    }

    method FindFreeWaiter() returns (index: nat)
      ensures index <= waiters.Length && (index < waiters.Length ==> !waiters[index].active)
      ensures forall w :: 0 <= w < index ==> waiters[w].active
    {
      index := 0;
      while index < waiters.Length && waiters[index].active
        invariant index <= waiters.Length
        invariant forall w :: 0 <= w < index ==> waiters[w].active
      {
        index := index + 1;
      }
    }

    method WaiterAdd(index: nat)
      requires index < waiters.Length && !waiters[index].active
      modifies `nextTicket, `waiting, `history, waiters
      ensures S() == Register(old(S()), index)
    {
      ghost var before := waiters[..];
      nextTicket := nextTicket + 1;
      waiters[index] := Waiter(nextTicket, true);
      waiting := waiting + 1;
      history := history + [Enqueued(nextTicket)];
      assert waiters[..] == before[index := waiters[index]];
    }

    /** An index that names no waiting caller changes nothing. */
    method WaiterRemove(index: nat, ghost event: Event)
      requires index < waiters.Length && waiters[index].active ==> waiting > 0
      modifies `waiting, `history, waiters
      ensures old(index < waiters.Length && waiters[index].active) ==> S() == Depart(old(S()), index, event)
      ensures !old(index < waiters.Length && waiters[index].active) ==> S() == old(S())
    {
      if index >= waiters.Length || !waiters[index].active { return; }
      ghost var before := waiters[..];
      waiters[index] := EMPTY_WAITER;
      waiting := waiting - 1;
      history := history + [event];
      assert waiters[..] == before[index := EMPTY_WAITER];
    }

    // ----- creation

    /** Opens `minimum` connections up front; if one cannot be opened, all are destroyed again. */
    method FillMinimum(minimum: nat) returns (status: Status)
      requires Valid(S()) && !closed && total == 0 && minimum <= slots.Length
      modifies `total, `created, `destroyed, slots
      ensures Valid(S())
      ensures status.Ok? ==> total == minimum && destroyed == old(destroyed)
      ensures !status.Ok? ==> status.CreateFailed? && total == 0 && AllDestroyed(S())
    {
      Bounds(S());
      for filled := 0 to minimum
        invariant Consistent(S()) && total == filled && active == 0 && destroyed == old(destroyed)
      {
        var index;
        status, index := CreateSlot();
        if !status.Ok? {
          CountAll(slots[..], Occupied);
          DestroyAll();
          return;
        }
      }
      status := Ok;
    }

    method DestroyAll()
      requires Consistent(S()) && active == 0
      modifies `total, `destroyed, slots
      ensures Consistent(S()) && total == 0 && AllDestroyed(S())
    {
      DestroyIdle();
      TotalWhenNoIdle(S());
      EmptyPoolDestroyedAll(S());
    }

    /** Destroys every connection that is not under a lease. */
    method DestroyIdle()
      requires Consistent(S())
      modifies `total, `destroyed, slots
      ensures Consistent(S()) && NoIdle(S())
      ensures forall i :: 0 <= i < slots.Length ==> slots[i].inUse == old(slots[i].inUse)
      ensures forall i :: 0 <= i < slots.Length && slots[i].inUse ==> slots[i] == old(slots[i])
    {
      for at := 0 to slots.Length
        invariant Consistent(S())
        invariant forall i :: 0 <= i < at ==> slots[i].connection.Some? ==> slots[i].inUse
        invariant forall i :: 0 <= i < slots.Length ==> slots[i].inUse == old(slots[i].inUse)
        invariant forall i :: 0 <= i < slots.Length && slots[i].inUse ==> slots[i] == old(slots[i])
      {
        if !slots[at].inUse { DestroyAt(at); }
      }
    }

    // ----- acquire

    /** The turn test: a newcomer is served only while nobody waits, a waiter only while it is first. */
    method MayTake(ticket: nat, ghost waiterIndex: nat) returns (turn: bool)
      requires Consistent(S()) && nextTicket < UINT64_MAX
      requires ticket != 0 ==> waiterIndex < waiters.Length && waiters[waiterIndex] == Waiter(ticket, true)
      ensures turn == Turn(S(), ticket)
    {
      if ticket == 0 { return waiting == 0; }
      assert forall w :: 0 <= w < waiters.Length && waiters[w].active ==> waiters[w].ticket in Queue(history);
      var first := FirstTicket();
      turn := ticket == first;
      var w :| 0 <= w < waiters.Length && waiters[w] == Waiter(first, true);
      FirstIsHead(S(), w);
    }

    /** One pass of the acquire loop, from holding the mutex to giving it up. `ticket` is zero on
        the first pass; later passes carry the registration of the earlier ones. */
    method AcquirePass(ticket: nat, waiterIndex: nat) returns (r: Acquired)
      requires Valid(S()) && slots.Length == maximumSize && nextTicket + 1 < UINT64_MAX
      requires ticket != 0 ==> waiterIndex < waiters.Length && waiters[waiterIndex] == Waiter(ticket, true)
      modifies `nextTicket, `nextToken, `total, `active, `waiting, `created, `destroyed, `validateCalls, `history, slots, waiters
      ensures Valid(S()) && PassOutcome(old(S()), S(), ticket, waiterIndex, r)
    {
      var stop: bool, stopStatus: Status := *, *;  // the interrupt probe and the clock
      if closed || stop {
        Withdraw(ticket, waiterIndex);
        r := Refused(if closed then Closed else if stopStatus.Interrupted? then Interrupted else PlatformError);
        Outcome(old(S()), old(S()), S(), ticket, waiterIndex, r);
        return;
      }
      var turn := MayTake(ticket, waiterIndex);
      if turn {
        r := TakeTurn(ticket, waiterIndex);
      } else {
        r := StartWaiting(ticket, waiterIndex);
        Outcome(old(S()), old(S()), S(), ticket, waiterIndex, r);
      }
    }

    /** The part of a pass run by a caller whose turn it is. */
    method TakeTurn(ticket: nat, waiterIndex: nat) returns (r: Acquired)
      requires Consistent(S()) && !closed && slots.Length == maximumSize && Turn(S(), ticket)
      requires ticket != 0 ==> waiterIndex < waiters.Length && waiters[waiterIndex] == Waiter(ticket, true)
      modifies `nextTicket, `nextToken, `total, `active, `waiting, `created, `destroyed, `validateCalls, `history, slots, waiters
      ensures Consistent(S()) && PassOutcome(old(S()), S(), ticket, waiterIndex, r)
    {
      var now: nat := *;
      var status, index := TakeAvailable(now);
      if status.Ok? {
        r := GrantTurn(ticket, waiterIndex, index, old(S()));
      } else if status.Busy? {
        r := WaitTurn(ticket, waiterIndex, old(S()));
      } else {
        r := FailTurn(ticket, waiterIndex, status, old(S()));
      }
    }

    method WaitTurn(ticket: nat, waiterIndex: nat, ghost start: State) returns (r: Acquired)
      requires Consistent(S())
      requires ticket != 0 ==> waiterIndex < waiters.Length && waiters[waiterIndex] == Waiter(ticket, true)
      requires !start.closed && Turn(start, ticket) && QueueKept(start, S()) && LeasesKept(start, S())
      requires forall i :: 0 <= i < slots.Length ==> slots[i].inUse
      modifies `nextTicket, `waiting, `history, waiters
      ensures Consistent(S()) && PassOutcome(start, S(), ticket, waiterIndex, r)
    {
      ghost var ready := S();
      r := StartWaiting(ticket, waiterIndex);
      Outcome(start, ready, S(), ticket, waiterIndex, r);
    }

    method GrantTurn(ticket: nat, waiterIndex: nat, index: nat, ghost start: State) returns (r: Acquired)
      requires Consistent(S()) && Idle(S(), index) && Turn(S(), ticket)
      requires ticket != 0 ==> waiterIndex < waiters.Length && waiters[waiterIndex] == Waiter(ticket, true)
      requires !start.closed && Turn(start, ticket) && QueueKept(start, S()) && LeasesKept(start, S())
      modifies `nextToken, `active, `waiting, `history, slots, waiters
      ensures Consistent(S()) && PassOutcome(start, S(), ticket, waiterIndex, r)
    {
      ghost var ready := S();
      GrantedKeeps(ready, ticket, waiterIndex, index);
      var lease := Grant(ticket, waiterIndex, index);
      r := Granted(lease);
      Outcome(start, ready, S(), ticket, waiterIndex, r);
    }

    method FailTurn(ticket: nat, waiterIndex: nat, status: Status, ghost start: State) returns (r: Acquired)
      requires Consistent(S())
      requires ticket != 0 ==> waiterIndex < waiters.Length && waiters[waiterIndex] == Waiter(ticket, true)
      requires !start.closed && QueueKept(start, S()) && LeasesKept(start, S())
      modifies `waiting, `history, waiters
      ensures Consistent(S()) && PassOutcome(start, S(), ticket, waiterIndex, r)
    {
      ghost var ready := S();
      Withdraw(ticket, waiterIndex);
      r := Refused(status);
      Outcome(start, ready, S(), ticket, waiterIndex, r);
    }

    /** The successful end of a pass: the registration goes, the lease is filled. */
    method Grant(ticket: nat, waiterIndex: nat, index: nat) returns (lease: Lease)
      requires Idle(S(), index)
      requires ticket != 0 ==> waiterIndex < waiters.Length && waiters[waiterIndex] == Waiter(ticket, true) && waiting > 0
      modifies `nextToken, `active, `waiting, `history, slots, waiters
      ensures S() == GrantedState(old(S()), ticket, waiterIndex, index)
      ensures lease == Lease(slots[index].connection.value, slots[index].leaseToken, index)
    {
      if ticket == 0 {
        history := history + [GrantedDirect];
      } else {
        WaiterRemove(waiterIndex, GrantedWaiter(ticket));
      }
      lease := FillLease(index);
    }

    /** An unsuccessful end of a pass: a registered caller leaves the queue. */
    method Withdraw(ticket: nat, waiterIndex: nat)
      requires Consistent(S())
      requires ticket != 0 ==> waiterIndex < waiters.Length && waiters[waiterIndex] == Waiter(ticket, true)
      modifies `waiting, `history, waiters
      ensures Consistent(S())
      ensures S() == if ticket == 0 then old(S()) else Depart(old(S()), waiterIndex, Left(ticket))
    {
      if ticket != 0 {
        DepartKeeps(S(), waiterIndex, Left(ticket));
        WaiterRemove(waiterIndex, Left(ticket));
      }
    }

    /** The rest of a pass that got no connection: register once, then wait until the deadline. */
    method StartWaiting(ticket: nat, waiterIndex: nat) returns (r: Acquired)
      requires Consistent(S())
      requires ticket != 0 ==> waiterIndex < waiters.Length && waiters[waiterIndex] == Waiter(ticket, true)
      modifies `nextTicket, `waiting, `history, waiters
      ensures Consistent(S())
      ensures r.Refused? ==> LeftQueue(old(S()), S(), ticket, waiterIndex)
      ensures r.Waiting? && ticket == 0 ==> Queued(old(S()), S(), r)
      ensures r.Waiting? && ticket != 0 ==> S() == old(S()) && r == Waiting(ticket, waiterIndex)
      ensures !r.Granted?
    {
      var mine, at := ticket, waiterIndex;
      if ticket == 0 {
        at := FindFreeWaiter();
        if at == waiters.Length { return Refused(Busy); }
        RegisterKeeps(S(), at);
        WaiterAdd(at);
        mine := nextTicket;
      }
      var deadline: Status := *;
      if !deadline.Ok? {
        Withdraw(mine, at);
        return Refused(if deadline.Busy? then Busy else PlatformError);
      }
      r := Waiting(mine, at);
    }

    /** The condition wait failed: the waiter leaves with an error. */
    method AbandonWait(ticket: nat, waiterIndex: nat) returns (r: Acquired)
      requires Valid(S()) && ticket != 0
      requires waiterIndex < waiters.Length && waiters[waiterIndex] == Waiter(ticket, true)
      modifies `waiting, `history, waiters
      ensures Valid(S()) && r == Refused(PlatformError)
      ensures S() == Depart(old(S()), waiterIndex, Left(ticket))
    {
      Withdraw(ticket, waiterIndex);
      r := Refused(PlatformError);
    }

    // ----- release, close, destroy

    /** Gives a connection back. Any copy of a lease may be presented, any number of times. */
    method Release(lease: Option<Lease>, dirty: bool) returns (status: Status)
      requires Valid(S()) && slots.Length == maximumSize
      modifies `total, `active, `destroyed, `released, `resetCalls, `clockCalls, slots
      ensures Valid(S())
      ensures status.StaleLease? <==> !(lease.Some? && Live(old(S()), lease.value))
      ensures status.StaleLease? ==> S() == old(S())
      ensures !status.StaleLease? ==>
        lease.value.token !in old(released) && released == old(released) + {lease.value.token}
      ensures !status.StaleLease? ==> !slots[lease.value.slotIndex].inUse
      ensures !status.StaleLease? ==> forall i :: 0 <= i < slots.Length && i != lease.value.slotIndex ==>
        slots[i] == old(slots[i])
      ensures !status.StaleLease? ==> status == ReturnStatus(dirty, old(resetCalls), old(clockCalls))
      ensures !status.StaleLease? && (dirty || closed || !status.Ok?) ==>
        destroyed == old(destroyed) + [lease.value.connection]
      ensures status.Ok? && !dirty && !closed ==>
        destroyed == old(destroyed) && slots[lease.value.slotIndex].connection == Some(lease.value.connection)
    {
      if lease.None? || lease.value.slotIndex >= maximumSize { return StaleLease; }
      var index := lease.value.slotIndex;
      if !slots[index].inUse || slots[index].connection != Some(lease.value.connection)
         || slots[index].leaseToken != lease.value.token {
        return StaleLease;
      }
      status := GiveBack(index, dirty);
    }

    /** Ends the lease of a slot. */
    method GiveBack(index: nat, dirty: bool) returns (status: Status)
      requires Valid(S()) && index < slots.Length && slots[index].inUse
      modifies `total, `active, `destroyed, `released, `resetCalls, `clockCalls, slots
      ensures Valid(S()) && !slots[index].inUse && status == ReturnStatus(dirty, old(resetCalls), old(clockCalls))
      ensures old(slots[index].connection.Some?) && old(slots[index].leaseToken !in released)
      ensures released == old(released) + {old(slots[index].leaseToken)}
      ensures forall i :: 0 <= i < slots.Length && i != index ==> slots[i] == old(slots[i])
      ensures dirty || closed || !status.Ok? ==> destroyed == old(destroyed) + [old(slots[index].connection.value)]
      ensures status.Ok? && !dirty && !closed ==>
        destroyed == old(destroyed) && slots[index].connection == old(slots[index].connection)
    {
      assert SlotOk(S(), index);
      ReturnAt(index);
      status := Settle(index, dirty);
    }

    method ReturnAt(index: nat)
      requires Consistent(S()) && index < slots.Length && slots[index].inUse
      modifies `active, `released, slots
      ensures Consistent(S()) && S() == ReturnSlot(old(S()), index) && Idle(S(), index)
    {
      ReturnSlotKeeps(S(), index);
      ghost var before := slots[..];
      released := released + {slots[index].leaseToken};
      slots[index] := slots[index].(inUse := false, leaseToken := 0);
      active := active - 1;
      assert slots[..] == before[index := slots[index]];
    }

    /** How giving a connection back ends: a clean one of an open pool must pass its reset and get
        a clock reading. */
    predicate Resettable(resetCall: nat) { !callbacks.resets || callbacks.reset(resetCall) }

    function ReturnStatus(dirty: bool, resetCall: nat, clockCall: nat): Status
      reads `closed
    {
      if closed || dirty then Ok
      else if !Resettable(resetCall) then ResetFailed
      else if callbacks.clock(clockCall).None? then PlatformError
      else Ok
    }

    /** Asks the callbacks whether a returned connection may be kept, and from when it is idle. */
    method Examine(dirty: bool) returns (status: Status, now: Option<nat>)
      modifies `resetCalls, `clockCalls
      ensures status == ReturnStatus(dirty, old(resetCalls), old(clockCalls))
      ensures now.Some? <==> status.Ok? && !dirty && !closed
    {
      if closed || dirty { return Ok, None; }
      if callbacks.resets {
        resetCalls := resetCalls + 1;
        if !callbacks.reset(resetCalls - 1) { return ResetFailed, None; }
      }
      now := callbacks.clock(clockCalls);
      clockCalls := clockCalls + 1;
      status := if now.Some? then Ok else PlatformError;
    }

    /** A returned connection is destroyed, or reset and kept. */
    method Settle(index: nat, dirty: bool) returns (status: Status)
      requires Consistent(S()) && Idle(S(), index)
      modifies `total, `destroyed, `resetCalls, `clockCalls, slots
      ensures Consistent(S()) && status == ReturnStatus(dirty, old(resetCalls), old(clockCalls))
      ensures dirty || closed || !status.Ok? ==> S() == DestroySlot(old(S()), index)
      ensures status.Ok? && !dirty && !closed ==> Kept(old(S()), S(), index)
    {
      var now;
      status, now := Examine(dirty);
      if now.Some? {
        TouchAt(index, now.value);
      } else {
        DestroyAt(index);
      }
    }

    method TouchAt(index: nat, now: nat)
      requires Consistent(S()) && index < slots.Length
      modifies slots
      ensures Consistent(S()) && S() == TouchSlot(old(S()), index, now)
    {
      TouchSlotKeeps(S(), index, now);
      ghost var before := slots[..];
      slots[index] := slots[index].(lastUsed := now);
      assert slots[..] == before[index := slots[index]];
    }

    method Close()
      requires Valid(S())
      modifies `closed, `total, `destroyed, slots
      ensures Valid(S()) && closed && LeasesKept(old(S()), S())
    {
      closed := true;
      SlotsSame(old(S()), S());
      QueueSame(old(S()), S());
      DestroyIdle();
    }

    /** The part of destroy that runs after Close, possibly much later. */
    method TryDestroy() returns (status: Status)
      requires Valid(S()) && closed
      ensures status.Ok? || status.Busy?
      ensures status.Ok? <==> active == 0 && waiting == 0
      ensures status.Ok? ==> total == 0 && AllDestroyed(S())
    {
      status := if active != 0 || waiting != 0 then Busy else Ok;
      if status.Ok? {
        TotalWhenNoIdle(S());
        EmptyPoolDestroyedAll(S());
      }
    }
  }

  lemma InitialValid(s: State)
    requires s.nextTicket == s.nextToken == s.total == s.active == s.waiting == s.created == 0
    requires s.destroyed == [] && s.released == {} && s.history == [] && !s.closed
    requires forall i :: 0 <= i < |s.slots| ==> s.slots[i] == EMPTY_SLOT
    requires forall w :: 0 <= w < |s.waiters| ==> s.waiters[w] == EMPTY_WAITER
    ensures Valid(s)
  {
    CountAll(s.slots, Occupied);
    CountAll(s.slots, InUse);
    CountAll(s.waiters, Active);
  }

  // ----- what the contracts speak of

  /** The lease is the one its slot is out under. */
  ghost predicate Live(s: State, lease: Lease) {
    && lease.slotIndex < |s.slots|
    && s.slots[lease.slotIndex].inUse
    && s.slots[lease.slotIndex].connection == Some(lease.connection)
    && s.slots[lease.slotIndex].leaseToken == lease.token
  }

  /** Only the time of last use changed. */
  ghost predicate Kept(s: State, s': State, index: nat)
    requires index < |s.slots|
  {
    exists now: nat :: s' == TouchSlot(s, index, now)
  }

  predicate IsIdle(slot: Slot) { slot.connection.Some? && !slot.inUse }

  /** Connections out under a lease were not touched, and no other went out. */
  ghost predicate LeasesKept(s: State, s': State) {
    && |s.slots| == |s'.slots|
    && (forall i :: 0 <= i < |s.slots| ==> s'.slots[i].inUse == s.slots[i].inUse)
    && (forall i :: 0 <= i < |s.slots| && s.slots[i].inUse ==> s'.slots[i] == s.slots[i])
  }

  /** One more connection went out, under a token never used before. */
  ghost predicate ServedBy(s: State, s': State, lease: Lease) {
    && |s.slots| == |s'.slots|
    && Live(s', lease) && !s.slots[lease.slotIndex].inUse
    && lease.token == s'.nextToken == s.nextToken + 1
    && (forall i :: 0 <= i < |s.slots| && i != lease.slotIndex ==> s'.slots[i].inUse == s.slots[i].inUse)
    && (forall i :: 0 <= i < |s.slots| && s.slots[i].inUse ==> s'.slots[i] == s.slots[i])
  }

  /** The caller now waits in a place that was free, under a new ticket. */
  ghost predicate Queued(s: State, s': State, r: Acquired) {
    && r.Waiting? && r.ticket == s.nextTicket + 1
    && r.waiterIndex < |s.waiters| && !s.waiters[r.waiterIndex].active
    && s' == Register(s, r.waiterIndex)
  }

  /** A caller that gives up is in the queue no more; a newcomer may have registered for a moment. */
  ghost predicate LeftQueue(s: State, s': State, ticket: nat, w: nat) {
    if ticket == 0 then s' == s || PassedThrough(s, s')
    else w < |s.waiters| && s' == Depart(s, w, Left(ticket))
  }

  /** The caller registered and left within one pass. */
  ghost predicate PassedThrough(s: State, s': State) {
    exists w :: 0 <= w < |s.waiters| && !s.waiters[w].active
                && s' == Depart(Register(s, w), w, Left(s.nextTicket + 1))
  }

  /** Only connections without a lease, and the queue, may differ. */
  ghost predicate QueueKept(s: State, s': State) {
    s'.waiters == s.waiters && s'.waiting == s.waiting && s'.history == s.history && s'.nextTicket == s.nextTicket
    && s'.nextToken == s.nextToken && s'.closed == s.closed && s'.released == s.released
  }

  ghost predicate Turn(s: State, ticket: nat) {
    if ticket == 0 then s.waiting == 0 else |Queue(s.history)| > 0 && Queue(s.history)[0] == ticket
  }

  /** What one pass of acquire may do to the pool. */
  ghost predicate PassOutcome(s: State, s': State, ticket: nat, w: nat, r: Acquired) {
    && s'.closed == s.closed && s'.released == s.released
    && (s.closed ==> r == Refused(Closed))
    && (r.Granted? ==> Turn(s, ticket) && ServedBy(s, s', r.lease))
    && (!r.Granted? ==> LeasesKept(s, s') && s'.nextToken == s.nextToken)
    && (r.Waiting? && Turn(s, ticket) ==> forall i :: 0 <= i < |s'.slots| ==> s'.slots[i].inUse)
    && QueueOutcome(s, s', ticket, w, r)
  }

  ghost predicate QueueOutcome(s: State, s': State, ticket: nat, w: nat, r: Acquired) {
    exists q :: QueueKept(s, q) && QueueChange(q, s', ticket, w, r)
  }

  ghost predicate QueueChange(q: State, s': State, ticket: nat, w: nat, r: Acquired) {
    && (r.Refused? ==> LeftQueue(q, s', ticket, w))
    && (r.Waiting? ==> if ticket == 0 then Queued(q, s', r) else s' == q && r == Waiting(ticket, w))
    && (r.Granted? ==> r.lease.slotIndex < |q.slots| && s' == GrantedState(q, ticket, w, r.lease.slotIndex))
  }

  lemma Outcome(s: State, q: State, s': State, ticket: nat, w: nat, r: Acquired)
    requires QueueKept(s, q) && LeasesKept(s, q) && QueueChange(q, s', ticket, w, r)
    requires s.closed ==> r == Refused(Closed)
    requires r.Granted? ==> Turn(s, ticket) && Idle(q, r.lease.slotIndex) && (ticket == 0 || w < |q.waiters|)
    requires r.Granted? ==> Live(s', r.lease)
    requires r.Waiting? && Turn(s, ticket) ==> forall i :: 0 <= i < |q.slots| ==> q.slots[i].inUse
    ensures PassOutcome(s, s', ticket, w, r)
  {
  }

  ghost function GrantedState(s: State, ticket: nat, w: nat, index: nat): State {
    if index >= |s.slots| || (ticket != 0 && w >= |s.waiters|) then s
    else GrantSlot(if ticket == 0 then Direct(s) else Depart(s, w, GrantedWaiter(ticket)), index)
  }

  lemma GrantedKeeps(s: State, ticket: nat, w: nat, index: nat)
    requires Consistent(s) && Turn(s, ticket) && Idle(s, index)
    requires ticket != 0 ==> w < |s.waiters| && s.waiters[w] == Waiter(ticket, true)
    ensures ticket != 0 ==> s.waiting > 0
    ensures Consistent(GrantedState(s, ticket, w, index))
  {
    if ticket == 0 {
      DirectKeeps(s);
      GrantSlotKeeps(Direct(s), index);
    } else {
      DepartKeeps(s, w, GrantedWaiter(ticket));
      GrantSlotKeeps(Depart(s, w, GrantedWaiter(ticket)), index);
    }
  }

  ghost predicate AllDestroyed(s: State) {
    && DestroyedOnce(s)
    && (forall h: nat :: h < s.created ==> h in s.destroyed)
  }

  lemma TotalWhenNoIdle(s: State)
    requires Consistent(s) && NoIdle(s) && s.active == 0
    ensures s.total == 0
  {
    CountAll(s.slots, InUse);
    CountAll(s.slots, Occupied);
  }

  lemma EmptyPoolDestroyedAll(s: State)
    requires Consistent(s) && s.total == 0
    ensures AllDestroyed(s)
  {
    CountAll(s.slots, Occupied);
    forall h: nat | h < s.created ensures h in s.destroyed {
      assert forall i :: 0 <= i < |s.slots| ==> !Occupied(s.slots[i]);
    }
  }
}
