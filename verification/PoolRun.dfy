/** Whole runs of the pool: any number of callers, any interleaving of their critical sections. */
module PoolRun {
  import opened Options
  import opened PoolState
  import opened ConnectionPool

  /** Calls of acquire now blocked in the condition wait: ticket to waiter index. */
  type Calls = map<nat, nat>

  ghost predicate Waits(s: State, calls: Calls) {
    && (forall t :: t in calls ==> t != 0 && calls[t] < |s.waiters| && s.waiters[calls[t]] == Waiter(t, true))
    && (forall w :: 0 <= w < |s.waiters| && s.waiters[w].active ==>
          s.waiters[w].ticket in calls && calls[s.waiters[w].ticket] == w)
  }

  function NextCalls(calls: Calls, ticket: nat, r: Acquired): Calls {
    if r.Waiting? then calls[r.ticket := r.waiterIndex] else calls - {ticket}
  }

  lemma PassKeepsWaits(s: State, s': State, calls: Calls, ticket: nat, w: nat, r: Acquired)
    requires Valid(s) && Waits(s, calls) && PassOutcome(s, s', ticket, w, r)
    requires ticket != 0 ==> ticket in calls && calls[ticket] == w
    ensures Waits(s', NextCalls(calls, ticket, r))
  {
    TicketsInUse(s, calls);
    OutcomeKeepsWaits(s, s', calls, ticket, w, r);
  }

  lemma OutcomeKeepsWaits(s: State, s': State, calls: Calls, ticket: nat, w: nat, r: Acquired)
    requires Waits(s, calls) && QueueOutcome(s, s', ticket, w, r) && s.nextTicket + 1 !in calls
    requires ticket != 0 ==> ticket in calls && calls[ticket] == w
    ensures Waits(s', NextCalls(calls, ticket, r))
  {
    assert 0 !in calls;
    var q :| QueueKept(s, q) && QueueChange(q, s', ticket, w, r);
    if r.Waiting? && ticket == 0 {
      NewcomerKeepsWaits(s, s', calls, r.ticket, r.waiterIndex);
    } else if r.Waiting? {
      assert calls[ticket := w] == calls;
    } else if ticket != 0 {
      LeaverKeepsWaits(s, s', calls, ticket);
    } else {
      assert calls - {0} == calls;
    }
  }

  lemma NewcomerKeepsWaits(s: State, s': State, calls: Calls, ticket: nat, w: nat)
    requires Waits(s, calls) && ticket !in calls && ticket != 0 && w < |s.waiters| && !s.waiters[w].active
    requires s'.waiters == s.waiters[w := Waiter(ticket, true)]
    ensures Waits(s', calls[ticket := w])
  {
  }

  lemma TicketsInUse(s: State, calls: Calls)
    requires Valid(s) && Waits(s, calls)
    ensures s.nextTicket + 1 !in calls
  {
    assert forall t :: t in calls ==> s.waiters[calls[t]].ticket in Queue(s.history);
  }

  lemma LeaverKeepsWaits(s: State, s': State, calls: Calls, ticket: nat)
    requires Waits(s, calls) && ticket in calls && s'.waiters == s.waiters[calls[ticket] := EMPTY_WAITER]
    ensures Waits(s', calls - {ticket})
  {
  }

  // ----- the log of grants

  /** Every lease ever granted is still the live one of its slot, or was released. */
  ghost predicate Logged(s: State, grants: seq<Lease>) {
    && (forall i :: 0 <= i < |grants| ==> 0 < grants[i].token <= s.nextToken)
    && (forall i :: 0 <= i < |grants| ==> grants[i].token in s.released || Live(s, grants[i]))
    && (forall i, j :: 0 <= i < j < |grants| ==> grants[i].token < grants[j].token)
    && (forall t :: t in s.released ==> t <= s.nextToken)
  }

  lemma PassKeepsLogged(s: State, s': State, grants: seq<Lease>, ticket: nat, w: nat, r: Acquired)
    requires Logged(s, grants) && PassOutcome(s, s', ticket, w, r)
    ensures Logged(s', if r.Granted? then grants + [r.lease] else grants)
  {
  }

  /** What Release did, as its contract says. */
  ghost predicate Returned(s: State, s': State, lease: Lease) {
    && Live(s, lease) && |s'.slots| == |s.slots| && s'.nextToken == s.nextToken
    && s'.released == s.released + {lease.token}
    && (forall i :: 0 <= i < |s.slots| && i != lease.slotIndex ==> s'.slots[i] == s.slots[i])
  }

  lemma ReleaseKeepsLogged(s: State, s': State, grants: seq<Lease>, lease: Lease)
    requires Valid(s) && Logged(s, grants) && Returned(s, s', lease)
    ensures Logged(s', grants)
  {
    assert SlotOk(s, lease.slotIndex);
    forall i | 0 <= i < |grants| ensures grants[i].token in s'.released || Live(s', grants[i]) {
      if grants[i].token !in s.released && grants[i].slotIndex == lease.slotIndex {
        assert Live(s, grants[i]);
      }
    }
  }

  /** No connection is under two leases at once. */
  lemma LiveLeasesDiffer(s: State, a: Lease, b: Lease)
    requires Valid(s) && Live(s, a) && Live(s, b) && a != b
    ensures a.connection != b.connection && a.token != b.token && a.slotIndex != b.slotIndex
  {
    if a.slotIndex < b.slotIndex {
      assert s.slots[a.slotIndex].connection != s.slots[b.slotIndex].connection;
    } else if b.slotIndex < a.slotIndex {
      assert s.slots[b.slotIndex].connection != s.slots[a.slotIndex].connection;
    }
  }

  ghost predicate Distinct(s: seq<nat>) {
    forall i, j :: 0 <= i < j < |s| ==> s[i] != s[j]
  }

  // ----- runs

  ghost predicate Running(s: State, calls: Calls, grants: seq<Lease>, returned: seq<nat>) {
    && Valid(s) && Waits(s, calls) && Logged(s, grants) && Distinct(returned)
    && (forall i :: 0 <= i < |returned| ==> returned[i] in s.released)
  }

  method StepAbandon(pool: Pool, calls: Calls, ticket: nat, ghost grants: seq<Lease>, ghost returned: seq<nat>)
    returns (calls': Calls)
    requires Running(pool.S(), calls, grants, returned) && pool.slots.Length == pool.maximumSize
    requires ticket != 0 && ticket in calls
    requires pool.nextTicket + 1 < UINT64_MAX
    modifies pool, pool.slots, pool.waiters
    ensures Running(pool.S(), calls', grants, returned)
  {
    var _ := pool.AbandonWait(ticket, calls[ticket]);
    LeaverKeepsWaits(old(pool.S()), pool.S(), calls, ticket);
    calls' := calls - {ticket};
  }

  method StepAcquire(pool: Pool, calls: Calls, ticket: nat, grants: seq<Lease>, ghost returned: seq<nat>)
    returns (calls': Calls, grants': seq<Lease>)
    requires Running(pool.S(), calls, grants, returned) && pool.slots.Length == pool.maximumSize
    requires ticket == 0 || ticket in calls
    requires pool.nextTicket + 1 < UINT64_MAX
    modifies pool, pool.slots, pool.waiters
    ensures Running(pool.S(), calls', grants', returned)
  {
    var waitFailed: bool := *;
    if ticket != 0 && waitFailed {
      calls' := StepAbandon(pool, calls, ticket, grants, returned);
      return calls', grants;
    }
    var w := if ticket == 0 then 0 else calls[ticket];
    var r := pool.AcquirePass(ticket, w);
    PassKeepsWaits(old(pool.S()), pool.S(), calls, ticket, w, r);
    PassKeepsLogged(old(pool.S()), pool.S(), grants, ticket, w, r);
    calls' := NextCalls(calls, ticket, r);
    grants' := if r.Granted? then grants + [r.lease] else grants;
  }

  method StepRelease(pool: Pool, lease: Option<Lease>, dirty: bool, ghost calls: Calls, ghost grants: seq<Lease>, returned: seq<nat>)
    returns (returned': seq<nat>)
    requires Running(pool.S(), calls, grants, returned) && pool.slots.Length == pool.maximumSize
    modifies pool, pool.slots
    ensures Running(pool.S(), calls, grants, returned')
  {
    returned' := returned;
    var status := pool.Release(lease, dirty);
    if !status.StaleLease? {
      ReleaseKeepsLogged(old(pool.S()), pool.S(), grants, lease.value);
      returned' := returned + [lease.value.token];
    }
  }

  datatype Action = Acquire | Resume(ticket: nat) | GiveBack(lease: Option<Lease>, dirty: bool) | Shut

  method Step(pool: Pool, action: Action, calls: Calls, grants: seq<Lease>, returned: seq<nat>)
    returns (calls': Calls, grants': seq<Lease>, returned': seq<nat>)
    requires Running(pool.S(), calls, grants, returned) && pool.slots.Length == pool.maximumSize
    requires pool.nextTicket + 1 < UINT64_MAX
    modifies pool, pool.slots, pool.waiters
    ensures Running(pool.S(), calls', grants', returned')
  {
    calls', grants', returned' := calls, grants, returned;
    if action.GiveBack? {
      returned' := StepRelease(pool, action.lease, action.dirty, calls, grants, returned);
    } else if action.Shut? {
      pool.Close();
    } else {
      calls', grants' := StepCall(pool, if action.Acquire? then 0 else action.ticket, calls, grants, returned);
    }
  }

  /** A new call, or one more pass of a waiting one. */
  method StepCall(pool: Pool, ticket: nat, calls: Calls, grants: seq<Lease>, ghost returned: seq<nat>)
    returns (calls': Calls, grants': seq<Lease>)
    requires Running(pool.S(), calls, grants, returned) && pool.slots.Length == pool.maximumSize
    requires pool.nextTicket + 1 < UINT64_MAX
    modifies pool, pool.slots, pool.waiters
    ensures Running(pool.S(), calls', grants', returned)
  {
    if ticket != 0 && ticket !in calls { return calls, grants; }
    calls', grants' := StepAcquire(pool, calls, ticket, grants, returned);
  }

  method Open(maximumSize: nat, maximumWaiters: nat, minimum: nat, idleValidation: nat, callbacks: Callbacks)
    returns (pool: Pool, status: Status)
    requires minimum <= maximumSize && 0 < maximumSize && 0 < maximumWaiters
    ensures fresh(pool) && fresh(pool.slots) && fresh(pool.waiters)
    ensures pool.slots.Length == pool.maximumSize == maximumSize && pool.waiters.Length == maximumWaiters
    ensures Running(pool.S(), map[], [], [])
    ensures status.Ok? ==> pool.total == minimum
    ensures !status.Ok? ==> pool.total == 0 && AllDestroyed(pool.S())
  {
    pool := new Pool(maximumSize, maximumWaiters, idleValidation, callbacks);
    status := pool.FillMinimum(minimum);
  }

  /** Any run from a new pool. `actions` says whose critical section comes next; a lease given
      back may be any value at all, forged, stale or copied. A run stops before tickets wrap. */
  method Run(maximumSize: nat, maximumWaiters: nat, minimum: nat, idleValidation: nat, callbacks: Callbacks, actions: seq<Action>)
    returns (pool: Pool, calls: Calls, grants: seq<Lease>, returned: seq<nat>, destroyed: bool)
    requires minimum <= maximumSize && 0 < maximumSize && 0 < maximumWaiters
    ensures Running(pool.S(), calls, grants, returned)
    ensures pool.active <= pool.total <= maximumSize && pool.waiting <= maximumWaiters
    ensures destroyed ==> pool.total == 0 && AllDestroyed(pool.S())
  {
    calls, grants, returned, destroyed := map[], [], [], false;
    var status;
    pool, status := Open(maximumSize, maximumWaiters, minimum, idleValidation, callbacks);
    if status.Ok? {
      for n := 0 to |actions|
        invariant Running(pool.S(), calls, grants, returned)
        invariant fresh(pool) && fresh(pool.slots) && fresh(pool.waiters)
        invariant pool.slots.Length == pool.maximumSize == maximumSize && pool.waiters.Length == maximumWaiters
      {
        if pool.nextTicket + 1 >= UINT64_MAX { break; }
        calls, grants, returned := Step(pool, actions[n], calls, grants, returned);
      }
      if pool.closed {
        status := pool.TryDestroy();
        destroyed := status.Ok?;
      }
    }
    Bounds(pool.S());
  }
}
