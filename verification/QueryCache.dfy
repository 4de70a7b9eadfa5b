/** The single-flight snapshot cache. Each method is one stretch of code under the cache's mutex;
    the build itself runs between Begin and Finish, with the mutex free. Locking is assumed to
    succeed. A lease is a plain value: its holder may copy it and give it back again. */
module QueryCache {
  import opened Options
  import opened Counting

  datatype CacheState = Empty | Building | Ready | Closing
  datatype Status = Ok | InvalidArgument | Busy | BuildFailed

  datatype Lease = Lease(database: nat, generation: nat)

  datatype Begun = Granted(lease: Lease) | Build | Wait | Refused

  class Cache {
    var state: CacheState
    var published: Option<nat>
    var generation: nat
    var buildAttempts: nat
    var leases: nat
    /** Databases are numbered as they are opened. */
    var openCount: nat
    ghost var closed: set<nat>
    /** Builds now running, and everything ever published. */
    ghost var builders: nat
    ghost var publications: seq<Lease>

    ghost predicate Valid()
      reads this
    {
      && (builders == if state.Building? then 1 else 0)
      && (state.Ready? <==> published.Some?)
      && (state.Ready? ==> publications == [Lease(published.value, generation)])
      && (state.Empty? || state.Building? ==> publications == [] && leases == 0)
      && (state.Closing? ==> leases == 0)
      && |publications| <= 1 && generation == |publications|
      && (forall i :: 0 <= i < |publications| ==> publications[i].database < openCount)
      && (published.Some? ==> published.value < openCount && published.value !in closed)
      && (forall d :: d in closed ==> d < openCount)
    }

    /** No database is lost: each one opened is closed, published, or in the hands of the builder. */
    ghost predicate Accounted(building: Option<nat>)
      reads this
    {
      && (forall d: nat :: d < openCount ==> d in closed || published == Some(d) || building == Some(d))
      && (building.Some? ==> state.Building? && building.value < openCount && building.value !in closed)
    }

    constructor ()
      ensures Valid() && Accounted(None) && state.Empty? && publications == []
    {
      state, published, generation, buildAttempts, leases, openCount := Empty, None, 0, 0, 0, 0;
      closed, builders, publications := {}, 0, [];
    }

    /** The first half of acquire. */
    method Begin() returns (r: Begun)
      requires Valid()
      modifies `state, `buildAttempts, `leases, `builders
      ensures Valid() && publications == old(publications)
      ensures r.Wait? <==> old(state).Building?
      ensures r.Build? <==> old(state).Empty?
      ensures r.Granted? <==> old(state).Ready?
      ensures r.Granted? ==> publications == [r.lease] && leases == old(leases) + 1
      ensures !r.Granted? ==> leases == old(leases)
      ensures r.Build? ==> state.Building? && old(builders) == 0
      ensures !r.Build? ==> state == old(state)
    {
      if state.Building? { return Wait; }
      if state.Ready? {
        leases := leases + 1;
        return Granted(Lease(published.value, generation));
      }
      if !state.Empty? { return Refused; }
      state := Building;
      buildAttempts := buildAttempts + 1;
      builders := builders + 1;
      r := Build;
    }

    /** The builder opens its candidate, outside the mutex. */
    method OpenCandidate(opens: bool) returns (candidate: Option<nat>)
      requires Valid() && state.Building? && Accounted(None)
      modifies `openCount
      ensures Valid() && Accounted(candidate) && (candidate.Some? <==> opens)
    {
      if !opens { return None; }
      candidate := Some(openCount);
      openCount := openCount + 1;
    }

    /** The second half of acquire: publish what was built and sealed, or drop it. */
    method Finish(candidate: Option<nat>, built: bool) returns (lease: Option<Lease>)
      requires Valid() && state.Building? && Accounted(candidate)
      modifies this
      ensures Valid() && Accounted(None) && old(publications) == []
      ensures lease.Some? <==> candidate.Some? && built
      ensures lease.Some? ==> state.Ready? && publications == [lease.value] && leases == 1
      ensures lease.None? ==> state.Empty? && publications == [] && leases == 0
      ensures candidate.Some? && !built ==> candidate.value in closed
    {
      builders := builders - 1;
      if candidate.Some? && built {
        published := candidate;
        generation := generation + 1;
        state := Ready;
        leases := leases + 1;
        lease := Some(Lease(candidate.value, generation));
        publications := publications + [lease.value];
      } else {
        state := Empty;
        lease := None;
        if candidate.Some? { closed := closed + {candidate.value}; }
      }
    }

    method Release(lease: Lease) returns (status: Status)
      requires Valid()
      modifies `leases
      ensures Valid()
      ensures status.Ok? <==> old(leases) > 0 && published == Some(lease.database)
      ensures leases == old(leases) - (if status.Ok? then 1 else 0)
      ensures !status.Ok? ==> status.InvalidArgument?
    {
      if leases == 0 || published != Some(lease.database) { return InvalidArgument; }
      leases := leases - 1;
      status := Ok;
    }

    method Destroy(ghost building: Option<nat>) returns (status: Status)
      requires Valid() && Accounted(building)
      modifies `state, `published, `closed
      ensures Valid() && Accounted(building)
      ensures status.Busy? <==> old(state).Building? || old(leases) != 0
      ensures status.Busy? ==> state == old(state) && closed == old(closed) && published == old(published)
      ensures !status.Busy? ==> status.Ok? && state.Closing? && forall d: nat :: d < openCount ==> d in closed
    {
      if state.Building? || leases != 0 { return Busy; }
      state := Closing;
      if published.Some? { closed := closed + {published.value}; }
      published := None;
      status := Ok;
    }
  }

  // ----- whole runs

  datatype Action = CallAcquire | CandidateOpens(opens: bool) | BuilderReturns(built: bool) | GiveBack(index: nat) | CallDestroy

  /** Somebody who was granted a lease, and whether it was given back. */
  datatype Holder = Holder(lease: Lease, returned: bool)

  predicate Out(h: Holder) { !h.returned }

  /** `doubled` counts the releases that succeeded for a holder who had already given back. */
  datatype Progress = Progress(holders: seq<Holder>, doubled: nat, inside: bool, candidate: Option<nat>)

  /** Every lease ever granted, given back or not, is of the one snapshot ever published. */
  ghost predicate OneSnapshot(cache: Cache, holders: seq<Holder>)
    reads cache
  {
    && (holders != [] ==> cache.publications != [])
    && (forall i :: 0 <= i < |holders| ==> cache.publications == [holders[i].lease])
  }

  /** Each doubled release took away the place of a lease that is still out. */
  ghost predicate Running(cache: Cache, p: Progress)
    reads cache
  {
    && cache.Valid() && OneSnapshot(cache, p.holders)
    && cache.leases + p.doubled == Count(p.holders, Out)
    && (p.inside <==> cache.state.Building?)
    && cache.Accounted(p.candidate)
  }

  /** Some lease still out is of a database that is closed. */
  ghost predicate ClosedUnderLease(cache: Cache, p: Progress)
    reads cache
  {
    exists i :: 0 <= i < |p.holders| && Out(p.holders[i]) && p.holders[i].lease.database in cache.closed
  }

  function Granted(p: Progress, lease: Lease): (r: Progress)
    ensures Count(r.holders, Out) == Count(p.holders, Out) + 1
  {
    CountNext(p.holders, Out, Holder(lease, false));
    p.(holders := p.holders + [Holder(lease, false)])
  }

  /** A release that succeeded: the holder has given back, or has done so once too often. */
  function Released(p: Progress, index: nat): Progress
    requires index < |p.holders|
  {
    if p.holders[index].returned then p.(doubled := p.doubled + 1)
    else p.(holders := p.holders[index := p.holders[index].(returned := true)])
  }

  method StepRelease(cache: Cache, index: nat, p: Progress) returns (p': Progress)
    requires Running(cache, p) && index < |p.holders|
    modifies cache`leases
    ensures Running(cache, p')
    ensures if old(cache.leases) > 0 && cache.published == Some(p.holders[index].lease.database)
      then p' == Released(p, index) && cache.leases == old(cache.leases) - 1
      else p' == p && cache.leases == old(cache.leases)
  {
    var h := p.holders[index];
    var status := cache.Release(h.lease);
    if !status.Ok? { return p; }
    CountUpdate(p.holders, Out, index, h.(returned := true));
    p' := Released(p, index);
  }

  method Step(cache: Cache, action: Action, p: Progress) returns (p': Progress)
    requires Running(cache, p)
    modifies cache
    ensures Running(cache, p')
  {
    p' := p;
    match action
    case CallAcquire =>
      var r := cache.Begin();
      if r.Granted? {
        p' := Granted(p, r.lease);
      } else if r.Build? {
        p' := p.(inside := true);
      }
    case CandidateOpens(opens) =>
      if p.inside && p.candidate.None? {
        var candidate := cache.OpenCandidate(opens);
        p' := p.(candidate := candidate);
      }
    case BuilderReturns(built) =>
      if p.inside { p' := StepFinish(cache, built, p); }
    case GiveBack(index) =>
      if index < |p.holders| { p' := StepRelease(cache, index, p); }
    case CallDestroy =>
      var _ := cache.Destroy(p.candidate);
  }

  method StepFinish(cache: Cache, built: bool, p: Progress) returns (p': Progress)
    requires Running(cache, p) && p.inside
    modifies cache
    ensures Running(cache, p')
  {
    NobodyYet(cache, p);
    var lease := cache.Finish(p.candidate, built);
    p' := p.(inside := false, candidate := None);
    if lease.Some? { p' := Granted(p', lease.value); }
  }

  /** Before the first publication nothing was granted. */
  lemma NobodyYet(cache: Cache, p: Progress)
    requires Running(cache, p) && cache.publications == []
    ensures p.holders == [] && p.doubled == 0
  {
  }

  /** What any interleaving of any releases leads to: a database is closed under a lease exactly
      when the cache was destroyed after some holder gave a lease back twice. */
  lemma ClosedIffDoubled(cache: Cache, p: Progress)
    requires Running(cache, p)
    ensures ClosedUnderLease(cache, p) <==> cache.state.Closing? && p.doubled > 0
  {
    CountAll(p.holders, Out);
    if cache.state.Closing? && p.doubled > 0 {
      var i :| 0 <= i < |p.holders| && Out(p.holders[i]);
      assert cache.publications == [p.holders[i].lease];
      PublishedOnce(cache, p);
    } else if cache.state.Ready? {
      forall i | 0 <= i < |p.holders| ensures p.holders[i].lease.database !in cache.closed {
        assert cache.publications == [p.holders[i].lease];
      }
    } else if !cache.state.Closing? {
      NobodyYet(cache, p);
    }
  }

  /** After destroy the published database is closed. */
  lemma PublishedOnce(cache: Cache, p: Progress)
    requires Running(cache, p) && cache.state.Closing? && cache.publications != []
    ensures cache.publications[0].database in cache.closed
  {
  }

  /** Any interleaving, with any lease given back any number of times. At most one builder runs,
      at most one build is ever published, all leases ever granted are of it, and it is closed
      under a lease if and only if the cache was destroyed and a lease had been given back twice. */
  method Run(actions: seq<Action>) returns (cache: Cache, p: Progress)
    ensures Running(cache, p)
    ensures cache.builders <= 1 && |cache.publications| <= 1
    ensures forall i, j :: 0 <= i < j < |p.holders| ==> p.holders[i].lease == p.holders[j].lease
    ensures ClosedUnderLease(cache, p) <==> cache.state.Closing? && p.doubled > 0
    ensures cache.state.Closing? ==> forall d: nat :: d < cache.openCount ==> d in cache.closed
  {
    cache := new Cache();
    p := Progress([], 0, false, None);
    for n := 0 to |actions|
      invariant Running(cache, p) && fresh(cache)
    {
      p := Step(cache, actions[n], p);
    }
    assert forall i :: 0 <= i < |p.holders| ==> cache.publications == [p.holders[i].lease];
    ClosedIffDoubled(cache, p);
  }

  /** Such a run: a copied lease given back twice lets destroy close the database under the
      lease that is still out. */
  method CopiedLeaseBreaks() returns (cache: Cache, p: Progress)
    ensures Running(cache, p) && p.doubled == 1 && ClosedUnderLease(cache, p)
  {
    cache, p := TwoLeases();
    p := StepRelease(cache, 0, p);
    p := StepRelease(cache, 0, p);
    var status := cache.Destroy(None);
    ClosedIffDoubled(cache, p);
  }

  method TwoLeases() returns (cache: Cache, p: Progress)
    ensures fresh(cache) && Running(cache, p) && cache.state.Ready? && cache.leases == 2
    ensures |p.holders| == 2 && !p.holders[0].returned && p.doubled == 0 && p.candidate.None?
  {
    cache := new Cache();
    var begun := cache.Begin();
    var candidate := cache.OpenCandidate(true);
    var first := cache.Finish(candidate, true);
    p := Granted(Progress([], 0, false, None), first.value);
    var second := cache.Begin();
    p := Granted(p, second.lease);
  }
}
