/** The queue side of the pool: registration, service and departure of waiters, and what a
    first-in-first-out history means for callers. */
module PoolQueue {
  import opened Counting
  import opened PoolState

  lemma FifoStep(h: seq<Event>, e: Event)
    requires Fifo(h) && ServesInOrder(Queue(h), e)
    ensures Fifo(h + [e])
  {
    forall i | 0 <= i < |h| + 1 ensures ServesInOrder(Queue((h + [e])[..i]), (h + [e])[i]) {
      assert (h + [e])[..i] == h[..i];
      assert h[..|h|] == h;
    }
  }

  lemma QueueStep(h: seq<Event>, e: Event)
    ensures Queue(h + [e]) == Advance(Queue(h), e)
  {
    assert (h + [e])[..|h|] == h;
  }

  lemma {:induction false} WithoutIncreasing(q: seq<nat>, t: nat)
    requires Increasing(q)
    ensures Increasing(Without(q, t))
  {
    if q != [] {
      WithoutIncreasing(q[1..], t);
      forall x | x in q[1..] ensures q[0] < x {
        var i :| 0 <= i < |q[1..]| && q[1..][i] == x;
        assert q[i + 1] == x;
      }
      if q[0] != t {
        var rest := Without(q[1..], t);
        forall j | 0 <= j < |rest| ensures q[0] < rest[j] { assert rest[j] in q[1..]; }
      }
    }
  }

  // ----- registration

  ghost function Register(s: State, w: nat): State
    requires w < |s.waiters|
  {
    var t := s.nextTicket + 1;
    s.(waiters := s.waiters[w := Waiter(t, true)], nextTicket := t, waiting := s.waiting + 1,
       history := s.history + [Enqueued(t)])
  }

  lemma RegisterKeeps(s: State, w: nat)
    requires Consistent(s) && w < |s.waiters| && !s.waiters[w].active
    ensures Consistent(Register(s, w))
  {
    SlotsSame(s, Register(s, w));
    RegisterQueueKeeps(s, w);
  }

  lemma RegisterQueueKeeps(s: State, w: nat)
    requires QueueOk(s) && w < |s.waiters| && !s.waiters[w].active
    ensures QueueOk(Register(s, w))
  {
    RegisterCount(s, w);
    RegisterLog(s, w);
    QueueBelow(s);
    RegisterHistory(s.history, Queue(s.history), s.nextTicket);
    RegisterQueue(s, w, Register(s, w));
  }

  lemma RegisterCount(s: State, w: nat)
    requires s.waiting == Count(s.waiters, Active) && w < |s.waiters| && !s.waiters[w].active
    ensures Register(s, w).waiting == Count(Register(s, w).waiters, Active)
  {
    CountUpdate(s.waiters, Active, w, Waiter(s.nextTicket + 1, true));
  }

  lemma RegisterLog(s: State, w: nat)
    requires w < |s.waiters|
    ensures Register(s, w).history == s.history + [Enqueued(s.nextTicket + 1)]
  {
  }

  lemma QueueBelow(s: State)
    requires QueueOk(s)
    ensures Fifo(s.history) && s.waiting == Count(s.waiters, Active)
    ensures forall x :: x in Queue(s.history) ==> x <= s.nextTicket
  {
  }

  lemma RegisterHistory(h: seq<Event>, q: seq<nat>, last: nat)
    requires Fifo(h) && q == Queue(h) && forall x :: x in q ==> x <= last
    ensures Fifo(h + [Enqueued(last + 1)]) && Queue(h + [Enqueued(last + 1)]) == q + [last + 1]
  {
    FifoStep(h, Enqueued(last + 1));
    QueueStep(h, Enqueued(last + 1));
  }

  lemma RegisterQueue(s: State, w: nat, s': State)
    requires QueueOk(s) && w < |s.waiters| && !s.waiters[w].active && s' == Register(s, w)
    requires Fifo(s'.history) && Queue(s'.history) == Queue(s.history) + [s.nextTicket + 1]
    requires s'.waiting == Count(s'.waiters, Active)
    ensures QueueOk(s')
  {
    var q, q', t := Queue(s.history), Queue(s'.history), s.nextTicket + 1;
    forall x | x in q' ensures 0 < x <= s'.nextTicket && Registered(s', x) {
      if x in q {
        var v :| 0 <= v < |s.waiters| && s.waiters[v] == Waiter(x, true);
        assert s'.waiters[v] == Waiter(x, true);
      } else {
        assert x == t && s'.waiters[w] == Waiter(t, true);
      }
    }
    forall v | 0 <= v < |s'.waiters| && s'.waiters[v].active ensures s'.waiters[v].ticket in q' {
      if v != w { assert s.waiters[v].ticket in q; }
    }
    forall i, j | 0 <= i < j < |q'| ensures q'[i] < q'[j] {
      if j == |q| { assert q[i] in q; }
    }
    forall u, v | 0 <= u < v < |s'.waiters| && s'.waiters[u].active && s'.waiters[v].active
      ensures s'.waiters[u].ticket != s'.waiters[v].ticket
    {
      if u == w { assert s.waiters[v].ticket in q; } else if v == w { assert s.waiters[u].ticket in q; }
    }
  }

  // ----- departure, with or without a grant

  ghost function Depart(s: State, w: nat, e: Event): State
    requires w < |s.waiters|
  {
    s.(waiters := s.waiters[w := EMPTY_WAITER], waiting := Less(s.waiting), history := s.history + [e])
  }

  lemma DepartKeeps(s: State, w: nat, e: Event)
    requires Consistent(s) && w < |s.waiters| && s.waiters[w].active
    requires e == Left(s.waiters[w].ticket)
             || (e == GrantedWaiter(s.waiters[w].ticket) && Queue(s.history)[..1] == [s.waiters[w].ticket])
    ensures s.waiting > 0 && Consistent(Depart(s, w, e))
  {
    CountUpdate(s.waiters, Active, w, EMPTY_WAITER);
    var s' := Depart(s, w, e);
    assert s.waiters[w].ticket in Queue(s.history);
    FifoStep(s.history, e);
    QueueStep(s.history, e);
    SlotsSame(s, s');
    DepartQueue(s, w, s');
  }

  lemma DepartQueue(s: State, w: nat, s': State)
    requires QueueOk(s) && w < |s.waiters| && s.waiters[w].active
    requires s'.waiters == s.waiters[w := EMPTY_WAITER] && s'.nextTicket == s.nextTicket
    requires Fifo(s'.history) && Queue(s'.history) == Without(Queue(s.history), s.waiters[w].ticket)
    requires s'.waiting == Count(s'.waiters, Active)
    ensures QueueOk(s')
  {
    var q, q', t := Queue(s.history), Queue(s'.history), s.waiters[w].ticket;
    WithoutIncreasing(q, t);
    forall x | x in q' ensures 0 < x <= s'.nextTicket && Registered(s', x) {
      var v :| 0 <= v < |s.waiters| && s.waiters[v] == Waiter(x, true);
      assert s'.waiters[v] == Waiter(x, true);
    }
    forall v | 0 <= v < |s'.waiters| && s'.waiters[v].active ensures s'.waiters[v].ticket in q' {
      assert s.waiters[v].ticket in q && s.waiters[v].ticket != t;
    }
  }

  ghost function Direct(s: State): State {
    s.(history := s.history + [GrantedDirect])
  }

  lemma DirectKeeps(s: State)
    requires Consistent(s) && s.waiting == 0
    ensures Consistent(Direct(s))
  {
    var q := Queue(s.history);
    assert q == [] || q[0] in q;
    CountAll(s.waiters, Active);
    FifoStep(s.history, GrantedDirect);
    QueueStep(s.history, GrantedDirect);
    var s' := Direct(s);
    SlotsSame(s, s');
    assert forall t :: Registered(s, t) ==> Registered(s', t);
  }

  /** The smallest active ticket is the head of the queue. */
  lemma FirstIsHead(s: State, w: nat)
    requires Consistent(s) && w < |s.waiters| && s.waiters[w].active
    requires forall v :: 0 <= v < |s.waiters| && s.waiters[v].active ==> s.waiters[w].ticket <= s.waiters[v].ticket
    ensures Queue(s.history)[..1] == [s.waiters[w].ticket]
  {
    var q, t := Queue(s.history), s.waiters[w].ticket;
    assert t in q;
    assert q[0] in q;
    var v :| 0 <= v < |s.waiters| && s.waiters[v] == Waiter(q[0], true);
    var i :| 0 <= i < |q| && q[i] == t;
  }

  // ----- what a first-in-first-out history gives callers

  ghost predicate Served(h: seq<Event>, t: nat, from: nat, to: nat)
    requires to <= |h|
  {
    exists k :: from <= k < to && (h[k] == GrantedWaiter(t) || h[k] == Left(t))
  }

  lemma {:induction false} StaysQueued(h: seq<Event>, t: nat, i: nat, j: nat)
    requires i < j <= |h| && h[i] == Enqueued(t) && !Served(h, t, i, j)
    ensures t in Queue(h[..j])
  {
    assert h[..j] == h[..j - 1] + [h[j - 1]];
    QueueStep(h[..j - 1], h[j - 1]);
    if j - 1 > i {
      assert !Served(h, t, i, j - 1);
      StaysQueued(h, t, i, j - 1);
    }
  }

  /** Nobody who was not queued gets a connection past a caller who is still queued. */
  lemma NoOvertakingByNewcomers(h: seq<Event>, t: nat, i: nat, j: nat)
    requires Fifo(h) && i < j < |h| && h[i] == Enqueued(t) && h[j] == GrantedDirect
    ensures Served(h, t, i, j)
  {
    assert ServesInOrder(Queue(h[..j]), h[j]);
    if !Served(h, t, i, j) { StaysQueued(h, t, i, j); }
  }

  /** Tickets still queued are smaller than any ticket enqueued later. */
  lemma {:induction false} QueueIncreasing(h: seq<Event>, n: nat)
    requires Fifo(h) && n <= |h|
    ensures Increasing(Queue(h[..n]))
  {
    if n > 0 {
      QueueIncreasing(h, n - 1);
      assert h[..n] == h[..n - 1] + [h[n - 1]];
      QueueStep(h[..n - 1], h[n - 1]);
      assert ServesInOrder(Queue(h[..n - 1]), h[n - 1]);
      var q, e := Queue(h[..n - 1]), h[n - 1];
      if e.Enqueued? {
        forall a | 0 <= a < |q| ensures q[a] < e.ticket { assert q[a] in q; }
      } else if !e.GrantedDirect? {
        WithoutIncreasing(q, e.ticket);
      }
    }
  }

  /** Among queued callers, grants follow arrival: an earlier arrival is served, or has left,
      before a later one is granted. */
  lemma GrantsFollowArrival(h: seq<Event>, t: nat, u: nat, i: nat, j: nat, k: nat)
    requires Fifo(h) && i < j < k < |h|
    requires h[i] == Enqueued(t) && h[j] == Enqueued(u) && h[k] == GrantedWaiter(u)
    ensures Served(h, t, i, k)
  {
    assert ServesInOrder(Queue(h[..j]), h[j]) && ServesInOrder(Queue(h[..k]), h[k]);
    QueueIncreasing(h, k);
    if !Served(h, t, i, k) {
      assert !Served(h, t, i, j);
      StaysQueued(h, t, i, j);
      StaysQueued(h, t, i, k);
      HeadIsSmallest(Queue(h[..k]), t);
    }
  }

  lemma HeadIsSmallest(q: seq<nat>, t: nat)
    requires Increasing(q) && t in q
    ensures q[0] <= t
  {
    var a :| 0 <= a < |q| && q[a] == t;
  }
}
