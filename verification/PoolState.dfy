/** The pool's fields as one value, its bookkeeping invariant, and the small changes every
    pool operation is made of. Handles are numbered in the order `create` returned them. */
module PoolState {
  import opened Options
  import opened Counting

  datatype Slot = Slot(connection: Option<nat>, leaseToken: nat, lastUsed: nat, inUse: bool)
  datatype Waiter = Waiter(ticket: nat, active: bool)

  const EMPTY_SLOT := Slot(None, 0, 0, false)
  const EMPTY_WAITER := Waiter(0, false)

  /** What the queue of waiters went through. */
  datatype Event = Enqueued(ticket: nat) | GrantedWaiter(ticket: nat) | GrantedDirect | Left(ticket: nat)

  datatype State = State(
    slots: seq<Slot>, waiters: seq<Waiter>, nextTicket: nat, nextToken: nat,
    total: nat, active: nat, waiting: nat, closed: bool,
    created: nat, destroyed: seq<nat>, released: set<nat>, history: seq<Event>)

  // ----- what is counted

  predicate Occupied(s: Slot) { s.connection.Some? }
  predicate InUse(s: Slot) { s.inUse }
  predicate Active(w: Waiter) { w.active }

  // ----- the queue, replayed from history

  function Without(q: seq<nat>, t: nat): (r: seq<nat>)
    ensures forall x :: x in r ==> x in q && x != t
    ensures forall x :: x in q && x != t ==> x in r
  {
    if q == [] then [] else if q[0] == t then Without(q[1..], t) else [q[0]] + Without(q[1..], t)
  }

  function Queue(h: seq<Event>): seq<nat> {
    if h == [] then []
    else Advance(Queue(h[..|h| - 1]), h[|h| - 1])
  }

  function Advance(q: seq<nat>, e: Event): seq<nat> {
    if e.Enqueued? then q + [e.ticket] else if e.GrantedDirect? then q else Without(q, e.ticket)
  }

  /** Every grant served the longest waiting caller, or nobody was waiting. */
  ghost predicate Fifo(h: seq<Event>) {
    forall i :: 0 <= i < |h| ==> ServesInOrder(Queue(h[..i]), h[i])
  }

  ghost predicate ServesInOrder(queue: seq<nat>, e: Event) {
    && (e.GrantedDirect? ==> queue == [])
    && (e.GrantedWaiter? ==> queue != [] && queue[0] == e.ticket)
    && (e.Enqueued? ==> forall x :: x in queue ==> x < e.ticket)
    && (e.Left? ==> e.ticket in queue)
  }

  ghost predicate Increasing(q: seq<nat>) {
    forall i, j :: 0 <= i < j < |q| ==> q[i] < q[j]
  }

  // ----- the invariant

  ghost predicate Counted(s: State) {
    && s.total == Count(s.slots, Occupied)
    && s.active == Count(s.slots, InUse)
    && s.created == s.total + |s.destroyed|
  }

  ghost predicate SlotOk(s: State, i: nat)
    requires i < |s.slots|
  {
    var slot := s.slots[i];
    && (slot.inUse ==> slot.connection.Some? && 0 < slot.leaseToken <= s.nextToken && slot.leaseToken !in s.released)
    && (!slot.inUse ==> slot.leaseToken == 0)
    && (slot.connection.Some? ==> slot.connection.value < s.created && slot.connection.value !in s.destroyed)
  }

  ghost predicate Exclusive(s: State) {
    forall i, j :: 0 <= i < j < |s.slots| ==>
      && (s.slots[i].connection.Some? ==> s.slots[i].connection != s.slots[j].connection)
      && (s.slots[i].inUse ==> s.slots[i].leaseToken != s.slots[j].leaseToken)
  }

  ghost predicate DestroyedOnce(s: State) {
    && (forall i, j :: 0 <= i < j < |s.destroyed| ==> s.destroyed[i] != s.destroyed[j])
    && (forall i :: 0 <= i < |s.destroyed| ==> s.destroyed[i] < s.created)
  }

  /** No handle is lost: each one ever created sits in a slot or was destroyed. */
  ghost predicate Holds(s: State, h: nat) {
    exists i :: 0 <= i < |s.slots| && s.slots[i].connection == Some(h)
  }

  ghost predicate NoneLost(s: State) {
    forall h: nat :: h < s.created ==> h in s.destroyed || Holds(s, h)
  }

  ghost predicate Registered(s: State, t: nat) {
    exists w :: 0 <= w < |s.waiters| && s.waiters[w] == Waiter(t, true)
  }

  ghost predicate QueueOk(s: State) {
    && s.waiting == Count(s.waiters, Active)
    && Fifo(s.history) && Increasing(Queue(s.history))
    && (forall t :: t in Queue(s.history) ==> 0 < t <= s.nextTicket && Registered(s, t))
    && (forall w :: 0 <= w < |s.waiters| && s.waiters[w].active ==> s.waiters[w].ticket in Queue(s.history))
    && (forall v, w :: 0 <= v < w < |s.waiters| && s.waiters[v].active && s.waiters[w].active ==>
          s.waiters[v].ticket != s.waiters[w].ticket)
  }

  ghost predicate SlotsOk(s: State) {
    && Counted(s) && (forall i :: 0 <= i < |s.slots| ==> SlotOk(s, i)) && Exclusive(s)
    && DestroyedOnce(s) && NoneLost(s)
    && (forall t :: t in s.released ==> t <= s.nextToken)
  }

  ghost predicate Consistent(s: State) {
    SlotsOk(s) && QueueOk(s)
  }

  /** The slot half of the invariant does not look at the queue. */
  lemma SlotsSame(s: State, s': State)
    requires SlotsOk(s) && s'.slots == s.slots && s'.total == s.total && s'.active == s.active
    requires s'.created == s.created && s'.destroyed == s.destroyed && s'.released == s.released
    requires s'.nextToken == s.nextToken
    ensures SlotsOk(s')
  {
    forall k | 0 <= k < |s'.slots| ensures SlotOk(s', k) {
      assert SlotOk(s, k);
    }
    SameHandles(s, s');
  }

  /** The queue half does not look at the slots. */
  lemma QueueSame(s: State, s': State)
    requires QueueOk(s) && s'.waiters == s.waiters && s'.waiting == s.waiting && s'.history == s.history
    requires s'.nextTicket == s.nextTicket
    ensures QueueOk(s')
  {
    assert forall t :: Registered(s, t) ==> Registered(s', t);
  }

  ghost predicate NoIdle(s: State) {
    forall i :: 0 <= i < |s.slots| ==> s.slots[i].connection.Some? ==> s.slots[i].inUse
  }

  /** What holds whenever the mutex is free. */
  ghost predicate Valid(s: State) {
    Consistent(s) && (s.closed ==> NoIdle(s))
  }

  lemma Bounds(s: State)
    requires Consistent(s)
    ensures s.active <= s.total <= |s.slots| && s.waiting <= |s.waiters|
  {
    forall i | 0 <= i < |s.slots| && InUse(s.slots[i]) ensures Occupied(s.slots[i]) { assert SlotOk(s, i); }
    CountWithin(s.slots, InUse, Occupied);
  }

  // ----- the changes

  ghost predicate Idle(s: State, i: nat) {
    i < |s.slots| && s.slots[i].connection.Some? && !s.slots[i].inUse
  }

  function Less(n: nat): nat {
    if n == 0 then 0 else n - 1
  }

  ghost function DestroySlot(s: State, i: nat): State
    requires i < |s.slots| && s.slots[i].connection.Some?
  {
    s.(slots := s.slots[i := EMPTY_SLOT], total := Less(s.total), destroyed := s.destroyed + [s.slots[i].connection.value])
  }

  lemma DestroySlotKeeps(s: State, i: nat)
    requires Consistent(s) && Idle(s, i)
    ensures s.total > 0 && Consistent(DestroySlot(s, i))
  {
    CountUpdate(s.slots, Occupied, i, EMPTY_SLOT);
    CountUpdate(s.slots, InUse, i, EMPTY_SLOT);
    var s', gone := DestroySlot(s, i), s.slots[i].connection.value;
    assert SlotOk(s, i);
    forall k | 0 <= k < |s'.slots| ensures SlotOk(s', k) {
      assert SlotOk(s, k);
    }
    forall h: nat | h < s'.created ensures h in s'.destroyed || Holds(s', h) {
      if h !in s.destroyed && h != gone {
        assert Holds(s, h);
        var k :| 0 <= k < |s.slots| && s.slots[k].connection == Some(h);
        assert s'.slots[k].connection == Some(h);
      }
    }
  }

  /** `create` returned a fresh handle and it was put into an empty slot. */
  ghost function FillSlot(s: State, i: nat): State
    requires i < |s.slots|
  {
    s.(slots := s.slots[i := s.slots[i].(connection := Some(s.created), lastUsed := 0)],
       total := s.total + 1, created := s.created + 1)
  }

  lemma FillSlotKeeps(s: State, i: nat)
    requires Consistent(s) && i < |s.slots| && s.slots[i].connection.None?
    ensures Consistent(FillSlot(s, i)) && Idle(FillSlot(s, i), i)
  {
    var s' := FillSlot(s, i);
    assert SlotOk(s, i);
    CountUpdate(s.slots, Occupied, i, s'.slots[i]);
    CountUpdate(s.slots, InUse, i, s'.slots[i]);
    forall k | 0 <= k < |s'.slots| ensures SlotOk(s', k) {
      assert SlotOk(s, k);
    }
    forall a, b | 0 <= a < b < |s'.slots| && s'.slots[a].connection.Some?
      ensures s'.slots[a].connection != s'.slots[b].connection
    {
      assert SlotOk(s, a) && SlotOk(s, b);
    }
    forall h: nat | h < s'.created ensures h in s'.destroyed || Holds(s', h) {
      if h == s.created {
        assert s'.slots[i].connection == Some(h);
      } else if h !in s.destroyed {
        var k :| 0 <= k < |s.slots| && s.slots[k].connection == Some(h);
        assert s'.slots[k].connection == Some(h);
      }
    }
  }

  /** `create` failed but published a handle, which is destroyed at once. */
  ghost function Discard(s: State): State {
    s.(created := s.created + 1, destroyed := s.destroyed + [s.created])
  }

  lemma DiscardKeeps(s: State)
    requires Consistent(s)
    ensures Consistent(Discard(s))
  {
    var s' := Discard(s);
    forall k | 0 <= k < |s'.slots| ensures SlotOk(s', k) {
      assert SlotOk(s, k);
    }
    forall h: nat | h < s'.created ensures h in s'.destroyed || Holds(s', h) {
      if h < s.created && h !in s.destroyed {
        var k :| 0 <= k < |s.slots| && s.slots[k].connection == Some(h);
        assert s'.slots[k].connection == Some(h);
      }
    }
  }

  ghost function GrantSlot(s: State, i: nat): State
    requires i < |s.slots|
  {
    s.(slots := s.slots[i := s.slots[i].(inUse := true, leaseToken := s.nextToken + 1)],
       nextToken := s.nextToken + 1, active := s.active + 1)
  }

  lemma GrantSlotKeeps(s: State, i: nat)
    requires Consistent(s) && Idle(s, i)
    ensures Consistent(GrantSlot(s, i))
  {
    var s' := GrantSlot(s, i);
    CountUpdate(s.slots, Occupied, i, s'.slots[i]);
    CountUpdate(s.slots, InUse, i, s'.slots[i]);
    forall k | 0 <= k < |s'.slots| ensures SlotOk(s', k) {
      assert SlotOk(s, k);
    }
    forall a, b | 0 <= a < b < |s'.slots| && s'.slots[a].inUse
      ensures s'.slots[a].leaseToken != s'.slots[b].leaseToken
    {
      assert SlotOk(s, a) && SlotOk(s, b);
    }
    SameHandles(s, s');
  }

  /** Slots that keep their handles lose none. */
  lemma SameHandles(s: State, s': State)
    requires NoneLost(s) && s'.created == s.created && s'.destroyed == s.destroyed && |s'.slots| == |s.slots|
    requires forall k :: 0 <= k < |s.slots| ==> s'.slots[k].connection == s.slots[k].connection
    ensures NoneLost(s')
  {
    forall h: nat | h < s'.created && h !in s'.destroyed ensures Holds(s', h) {
      var k :| 0 <= k < |s.slots| && s.slots[k].connection == Some(h);
      assert s'.slots[k].connection == Some(h);
    }
  }

  ghost function ReturnSlot(s: State, i: nat): State
    requires i < |s.slots|
  {
    s.(slots := s.slots[i := s.slots[i].(inUse := false, leaseToken := 0)],
       active := Less(s.active), released := s.released + {s.slots[i].leaseToken})
  }

  lemma ReturnSlotKeeps(s: State, i: nat)
    requires Consistent(s) && i < |s.slots| && s.slots[i].inUse
    ensures s.active > 0 && Consistent(ReturnSlot(s, i)) && Idle(ReturnSlot(s, i), i)
  {
    assert SlotOk(s, i);
    var slot := s.slots[i].(inUse := false, leaseToken := 0);
    CountUpdate(s.slots, Occupied, i, slot);
    CountUpdate(s.slots, InUse, i, slot);
    var s' := ReturnSlot(s, i);
    forall k | 0 <= k < |s'.slots| ensures SlotOk(s', k) {
      assert SlotOk(s, k);
    }
    forall a, b | 0 <= a < b < |s'.slots| && s'.slots[a].inUse
      ensures s'.slots[a].leaseToken != s'.slots[b].leaseToken
    {
      assert SlotOk(s, a) && SlotOk(s, b);
    }
    SameHandles(s, s');
  }

  ghost function TouchSlot(s: State, i: nat, now: nat): State
    requires i < |s.slots|
  {
    s.(slots := s.slots[i := s.slots[i].(lastUsed := now)])
  }

  lemma TouchSlotKeeps(s: State, i: nat, now: nat)
    requires Consistent(s) && i < |s.slots|
    ensures Consistent(TouchSlot(s, i, now))
  {
    var s' := TouchSlot(s, i, now);
    CountUpdate(s.slots, Occupied, i, s'.slots[i]);
    CountUpdate(s.slots, InUse, i, s'.slots[i]);
    forall k | 0 <= k < |s'.slots| ensures SlotOk(s', k) {
      assert SlotOk(s, k);
    }
    SameHandles(s, s');
  }
}
