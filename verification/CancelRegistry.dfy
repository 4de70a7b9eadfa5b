/** The registry of cancel tokens, an intrusive singly linked list. */
module CancelRegistry {

  const UINT64_MAX: nat := 0xffff_ffff_ffff_ffff
  const SIZE_MAX: nat := 0xffff_ffff_ffff_ffff

  datatype Status = Ok | InvalidArgument | InvalidState
  datatype Probe = Continue | Requested | ProbeError

  class CancelToken {
    var registry: Registry?
    var next: CancelToken?
    var cursorId: nat
    var requestGeneration: nat
    var registered: bool
    var requested: bool
    /** The registry's generation when this token was last registered. */
    ghost var since: nat

    constructor ()
      ensures !registered && registry == null && next == null
    {
      registry, next, cursorId, requestGeneration, registered, requested := null, null, 0, 0, false, false;
      since := 0;
    }

    method Clear()
      modifies this
      ensures !registered && !requested && registry == null && next == null && cursorId == 0 && requestGeneration == 0
    {
      registry, next, cursorId, requestGeneration, registered, requested := null, null, 0, 0, false, false;
    }
  }

  class Registry {
    var head: CancelToken?
    var tokenCount: nat
    var generation: nat
    var closing: bool
    ghost var list: seq<CancelToken>

    /** The chain from `head` is `list`, without repetition, and its tokens know this registry. */
    ghost predicate Valid()
      reads this, list
    {
      && head == (if list == [] then null else list[0])
      && tokenCount == |list|
      && (forall i, j :: 0 <= i < j < |list| ==> list[i] != list[j])
      && (forall i :: 0 <= i < |list| ==> Linked(i))
    }

    ghost predicate Linked(i: int)
      reads this, list
      requires 0 <= i < |list|
    {
      var t := list[i];
      && t.next == (if i + 1 < |list| then list[i + 1] else null)
      && t.registered && t.registry == this
      && (t.requested <==> t.since < generation) && t.since <= generation
      && (t.requested ==> t.requestGeneration == generation)
    }

    constructor ()
      ensures Valid() && list == [] && !closing && generation == 0
    {
      head, tokenCount, generation, closing := null, 0, 0, false;
      list := [];
    }

    lemma Members()
      requires Valid()
      ensures forall t :: t in list ==> t.registered && t.registry == this
      ensures forall i :: 0 <= i < |list| ==> list[i].registered && list[i].registry == this
    {
      forall i | 0 <= i < |list| ensures list[i].registered && list[i].registry == this { assert Linked(i); }
    }

    method Register(token: CancelToken, cursorId: nat) returns (status: Status)
      requires Valid() && (!token.registered ==> token !in list)
      modifies `head, `tokenCount, `list, token
      ensures Valid()
      ensures status.InvalidArgument? <==> cursorId == 0 || old(token.registered)
      ensures status.InvalidState? <==> !status.InvalidArgument? && (closing || old(tokenCount) >= SIZE_MAX)
      ensures status.Ok? ==> list == [token] + old(list) && token.since == generation && !token.requested
      ensures !status.Ok? ==> list == old(list) && unchanged(token)
    {
      if cursorId == 0 || token.registered { return InvalidArgument; }
      if closing || tokenCount >= SIZE_MAX { return InvalidState; }
      token.registry, token.next, token.cursorId := this, head, cursorId;
      token.requestGeneration, token.requested, token.registered := 0, false, true;
      token.since := generation;
      head := token;
      tokenCount := tokenCount + 1;
      list := [token] + list;
      forall i | 0 <= i < |list| ensures Linked(i) {
        if i > 0 { assert old(Linked(i - 1)); }
      }
      status := Ok;
    }

    /** Walks the links to `token` and cuts it out. */
    method Remove(token: CancelToken) returns (status: Status)
      requires Valid()
      modifies `head, `tokenCount, `list, list, token
      ensures Valid()
      ensures status.Ok? <==> token in old(list)
      ensures !status.Ok? ==> status.InvalidState? && list == old(list)
      ensures status.Ok? ==> !token.registered && token !in list
      ensures status.Ok? ==> exists k :: 0 <= k < |old(list)| && old(list)[k] == token
                                         && list == old(list)[..k] + old(list)[k + 1..]
      ensures forall t :: t in list ==> t.since == old(t.since) && t.requested == old(t.requested)
    {
      var previous;
      ghost var k;
      status, previous, k := Find(token);
      if status.Ok? { Unlink(token, previous, k); }
    }

    /** Cuts the k-th token out. */
    method Unlink(token: CancelToken, previous: CancelToken?, ghost k: nat)
      requires Valid() && k < |list| && list[k] == token && previous == if k > 0 then list[k - 1] else null
      modifies `head, `tokenCount, `list, list
      ensures Valid() && list == old(list)[..k] + old(list)[k + 1..]
      ensures !token.registered && token !in list
      ensures forall t :: t in list ==> t.since == old(t.since) && t.requested == old(t.requested)
    {
      ghost var before := list;
      assert Linked(k);
      if k > 0 { assert Linked(k - 1); }
      if previous == null { head := token.next; } else { previous.next := token.next; }
      tokenCount := tokenCount - 1;
      list := before[..k] + before[k + 1..];
      token.Clear();
      forall i | 0 <= i < |list| ensures Linked(i) {
        assert list[i] == before[if i < k then i else i + 1];
        assert old(Linked(if i < k then i else i + 1));
      }
    }

    /** The walk: where `token` is, and the token in front of it. */
    method Find(token: CancelToken) returns (status: Status, previous: CancelToken?, ghost k: nat)
      requires Valid()
      ensures status == if token in list then Ok else InvalidState
      ensures status.Ok? ==> k < |list| && list[k] == token && previous == if k > 0 then list[k - 1] else null
    {
      var at: CancelToken? := head;
      previous, k := null, 0;
      while at != null && at != token
        invariant 0 <= k <= |list|
        invariant at == (if k < |list| then list[k] else null)
        invariant previous == (if k > 0 then list[k - 1] else null)
        invariant forall i :: 0 <= i < k ==> list[i] != token
        decreases |list| - k
      {
        assert Linked(k);
        previous, at := at, at.next;
        k := k + 1;
      }
      status := if at == null then InvalidState else Ok;
    }

    /** Marks every registered token; each sees the request until it is registered anew. */
    method RequestAll() returns (status: Status, count: nat)
      requires Valid()
      modifies `generation, list
      ensures Valid() && list == old(list)
      ensures status.Ok? <==> !closing && old(generation) < UINT64_MAX
      ensures status.Ok? ==> count == |list| && generation == old(generation) + 1
      ensures status.Ok? ==> forall i :: 0 <= i < |list| ==> list[i].requested
      ensures !status.Ok? ==> status.InvalidState? && generation == old(generation)
      ensures !status.Ok? ==> forall t :: t in list ==> t.requested == old(t.requested)
      ensures forall t :: t in list ==> t.since == old(t.since)
    {
      count := 0;
      if closing || generation >= UINT64_MAX { return InvalidState, 0; }
      Members();
      generation := generation + 1;
      var token := head;
      while token != null
        invariant generation == old(generation) + 1
        invariant 0 <= count <= |list| && token == (if count < |list| then list[count] else null)
        invariant forall i :: 0 <= i < |list| ==> list[i].next == old(list[i].next) && list[i].since == old(list[i].since)
        invariant forall i :: 0 <= i < |list| ==> list[i].registered && list[i].registry == this
        invariant forall i :: 0 <= i < count ==> list[i].requested && list[i].requestGeneration == generation
        decreases |list| - count
      {
        assert old(Linked(count));
        token.requested, token.requestGeneration := true, generation;
        token := token.next;
        count := count + 1;
      }
      forall i | 0 <= i < |list| ensures Linked(i) { assert old(Linked(i)); }
      status := Ok;
    }

    /** Forgets all tokens. */
    method Cleanup()
      requires Valid()
      modifies this, list
      ensures Valid() && list == [] && closing
      ensures forall t :: t in old(list) ==> !t.registered && !t.requested && t.registry == null
    {
      closing := true;
      ghost var before := list;
      ghost var k := 0;
      var token := head;
      while token != null
        invariant 0 <= k <= |before| && token == (if k < |before| then before[k] else null)
        invariant list == before && closing
        invariant forall i :: k <= i < |before| ==> before[i].next == old(before[i].next)
        invariant forall i :: 0 <= i < k ==> !before[i].registered && !before[i].requested && before[i].registry == null
        decreases |before| - k
      {
        assert old(Linked(k));
        var next := token.next;
        token.Clear();
        token := next;
        k := k + 1;
      }
      head, tokenCount, list := null, 0, [];
    }
  }

  /** A token takes itself out of the registry it knows. */
  method Unregister(token: CancelToken) returns (status: Status)
    requires token.registered && token.registry != null ==> token.registry.Valid()
    modifies token, token.registry, if token.registry == null then {} else set t | t in token.registry.list
    ensures !old(token.registered) ==> status.Ok?
    ensures old(token.registered) && old(token.registry) == null ==> status.InvalidState?
    ensures old(token.registered) && old(token.registry) != null ==>
      old(token.registry).Valid() && (status.Ok? <==> token in old(token.registry.list))
    ensures status.Ok? ==> !token.registered
  {
    if !token.registered { return Ok; }
    if token.registry == null { return InvalidState; }
    status := token.registry.Remove(token);
  }

  /** The interrupt probe of one token. */
  method ProbeToken(token: CancelToken) returns (probe: Probe)
    requires token.registered && token.registry != null ==> token.registry.Valid() && token in token.registry.list
    ensures probe.ProbeError? <==> !token.registered || token.registry == null
    ensures probe.Requested? <==> token.registered && token.registry != null && token.since < token.registry.generation
    ensures token.registered && token.registry != null ==> (probe.Requested? <==> token.requested)
  {
    if !token.registered || token.registry == null { return ProbeError; }
    assert exists i :: 0 <= i < |token.registry.list| && token.registry.list[i] == token && token.registry.Linked(i);
    probe := if token.requested then Requested else Continue;
  }

  // ----- whole runs

  datatype Call = CallRegister(token: nat, cursorId: nat) | CallUnregister(token: nat) | CallRequest | CallProbe(token: nat)

  /** What happened: registrations, removals and requests that succeeded, and probes with their answers. */
  datatype Event = Entered(token: nat) | Gone(token: nat) | Asked | Probed(token: nat, probe: Probe)

  /** Whether a token is registered, and whether a request came since. */
  datatype Standing = Out | In(asked: bool)

  function Next(s: Standing, e: Event, token: nat): Standing {
    match e
    case Entered(t) => if t == token then In(false) else s
    case Gone(t) => if t == token then Out else s
    case Asked => if s.In? then In(true) else s
    case Probed(_, _) => s
  }

  function StandingOf(log: seq<Event>, token: nat): Standing {
    if log == [] then Out else Next(StandingOf(log[..|log| - 1], token), log[|log| - 1], token)
  }

  function ProbeFor(s: Standing): Probe {
    if s.Out? then ProbeError else if s.asked then Requested else Continue
  }

  /** Every probe answered what the events before it say. */
  ghost predicate Truthful(log: seq<Event>) {
    forall n :: 0 <= n < |log| && log[n].Probed? ==> log[n].probe == ProbeFor(StandingOf(log[..n], log[n].token))
  }

  lemma LogNext(log: seq<Event>, e: Event)
    requires Truthful(log) && (e.Probed? ==> e.probe == ProbeFor(StandingOf(log, e.token)))
    ensures Truthful(log + [e])
    ensures forall i: nat :: StandingOf(log + [e], i) == Next(StandingOf(log, i), e, i)
  {
    var log' := log + [e];
    assert log'[..|log|] == log;
    forall n | 0 <= n < |log'| && log'[n].Probed? ensures log'[n].probe == ProbeFor(StandingOf(log'[..n], log'[n].token)) {
      assert log'[..n] == log[..n];
    }
  }

  /** The list holds exactly the registered tokens. */
  ghost predicate Exactly(registry: Registry, tokens: seq<CancelToken>)
    reads registry, tokens
  {
    && (forall t :: t in registry.list ==> t in tokens)
    && (forall t :: t in tokens ==> (t.registered <==> t in registry.list))
    && (forall t :: t in tokens && t.registered ==> t.registry == registry)
  }

  /** Every token stands as the log says. */
  ghost predicate Recorded(tokens: seq<CancelToken>, log: seq<Event>)
    reads tokens
  {
    forall i :: 0 <= i < |tokens| ==> Stands(tokens[i], StandingOf(log, i))
  }

  ghost predicate Stands(token: CancelToken, s: Standing)
    reads token
  {
    (token.registered <==> s.In?) && (s.In? ==> (token.requested <==> s.asked))
  }

  ghost predicate Distinct(tokens: seq<CancelToken>) {
    forall i, j :: 0 <= i < j < |tokens| ==> tokens[i] != tokens[j]
  }

  ghost predicate Running(registry: Registry, tokens: seq<CancelToken>, log: seq<Event>)
    reads registry, registry.list, tokens
  {
    && registry.Valid() && Exactly(registry, tokens) && Distinct(tokens)
    && Recorded(tokens, log) && Truthful(log)
  }

  method Enter(registry: Registry, tokens: seq<CancelToken>, i: nat, cursorId: nat, log: seq<Event>) returns (log': seq<Event>)
    requires Running(registry, tokens, log) && i < |tokens|
    modifies registry, tokens
    ensures Running(registry, tokens, log')
  {
    var status := Put(registry, tokens, tokens[i], cursorId);
    registry.Members();
    if !status.Ok? { return log; }
    LogNext(log, Entered(i));
    log' := log + [Entered(i)];
  }

  method Put(registry: Registry, ghost tokens: seq<CancelToken>, token: CancelToken, cursorId: nat) returns (status: Status)
    requires registry.Valid() && token in tokens && (!token.registered ==> token !in registry.list)
    modifies registry, tokens
    ensures registry.Valid()
    ensures status.Ok? ==> token.registered && !token.requested
    ensures forall t :: t in registry.list <==> t in old(registry.list) || (status.Ok? && t == token)
    ensures forall t :: t in tokens && (t != token || !status.Ok?) ==> unchanged(t)
  {
    ghost var k :| 0 <= k < |tokens| && tokens[k] == token;
    status := registry.Register(token, cursorId);
    registry.Members();
  }

  method Leave(registry: Registry, tokens: seq<CancelToken>, i: nat, log: seq<Event>) returns (log': seq<Event>)
    requires Running(registry, tokens, log) && i < |tokens|
    modifies registry, tokens
    ensures Running(registry, tokens, log')
  {
    if !tokens[i].registered { return log; }
    Take(registry, tokens, tokens[i]);
    registry.Members();
    LogNext(log, Gone(i));
    log' := log + [Gone(i)];
  }

  method Take(registry: Registry, ghost tokens: seq<CancelToken>, token: CancelToken)
    requires registry.Valid() && token in registry.list && forall t :: t in registry.list ==> t in tokens
    modifies registry, tokens
    ensures registry.Valid() && !token.registered && token !in registry.list
    ensures forall t :: t in registry.list <==> t in old(registry.list) && t != token
    ensures forall t :: t in registry.list ==> t.since == old(t.since) && t.requested == old(t.requested)
    ensures forall t :: t in tokens && t !in old(registry.list) ==> unchanged(t)
    ensures registry.generation == old(registry.generation)
  {
    assert forall i :: 0 <= i < |registry.list| ==> registry.list[i] in tokens;
    ghost var k :| 0 <= k < |tokens| && tokens[k] == token;
    var _ := registry.Remove(token);
  }

  method RequestEach(registry: Registry, tokens: seq<CancelToken>, log: seq<Event>) returns (log': seq<Event>)
    requires Running(registry, tokens, log)
    modifies registry, tokens
    ensures Running(registry, tokens, log')
  {
    assert forall t :: t in registry.list ==> t in tokens;
    registry.Members();
    var status, _ := registry.RequestAll();
    registry.Members();
    if !status.Ok? { return log; }
    LogNext(log, Asked);
    log' := log + [Asked];
  }

  method Ask(registry: Registry, tokens: seq<CancelToken>, i: nat, log: seq<Event>) returns (log': seq<Event>)
    requires Running(registry, tokens, log) && i < |tokens|
    ensures Running(registry, tokens, log') && |log'| == |log| + 1
  {
    registry.Members();
    var probe := ProbeToken(tokens[i]);
    LogNext(log, Probed(i, probe));
    log' := log + [Probed(i, probe)];
  }

  method Step(registry: Registry, tokens: seq<CancelToken>, call: Call, log: seq<Event>) returns (log': seq<Event>)
    requires Running(registry, tokens, log)
    modifies registry, tokens
    ensures Running(registry, tokens, log')
  {
    log' := log;
    match call
    case CallRegister(i, cursorId) => if i < |tokens| { log' := Enter(registry, tokens, i, cursorId, log); }
    case CallUnregister(i) => if i < |tokens| { log' := Leave(registry, tokens, i, log); }
    case CallRequest => log' := RequestEach(registry, tokens, log);
    case CallProbe(i) => if i < |tokens| { log' := Ask(registry, tokens, i, log); }
  }

  /** Any run of calls on any number of tokens: the list is always exactly the registered tokens,
      and every probe answered whether a request succeeded since the token was last registered. */
  method Run(count: nat, calls: seq<Call>) returns (registry: Registry, tokens: seq<CancelToken>, log: seq<Event>)
    ensures registry.Valid() && Exactly(registry, tokens) && registry.tokenCount == |registry.list|
    ensures Truthful(log) && Recorded(tokens, log)
  {
    registry := new Registry();
    tokens := [];
    for n := 0 to count
      invariant fresh(registry) && (forall i :: 0 <= i < |tokens| ==> fresh(tokens[i]) && !tokens[i].registered)
      invariant registry.Valid() && registry.list == [] && registry.generation == 0 && Distinct(tokens)
    {
      var token := new CancelToken();
      tokens := tokens + [token];
    }
    log := [];
    for n := 0 to |calls|
      invariant fresh(registry) && (forall i :: 0 <= i < |tokens| ==> fresh(tokens[i]))
      invariant Running(registry, tokens, log)
    {
      log := Step(registry, tokens, calls[n], log);
    }
  }
}
