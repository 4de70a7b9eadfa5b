/** The libpq connection behind the client port: connecting without blocking, the readiness
    checks, and the health script that ends every operation. */
module LibpqConnection {
  import opened Options
  import opened ConnectionHealth

  const MAX_ACTIVE_POLLS := 16

  datatype ConnectAnswer = ConnectFailed | Reading | Writing | Active | ConnectOk

  /** Operations a connection runs once it is ready. */
  predicate OnReady(operation: Operation) {
    operation.Reset? || operation.Ping? || operation.Begin? || operation.Commit? || operation.Rollback?
  }

  class Link {
    const health: Connection
    var handle: Option<nat>
    var statements: nat
    // how often libpq handed out a connection, and took one back
    var created: nat
    ghost var finished: nat

    ghost predicate Valid()
      reads this, health
    {
      && health.Valid()
      && created == finished + (if handle.Some? then 1 else 0)
      && (health.phase.Created? ==> created == 0)
      && (health.phase.Created? || health.phase.Connecting? ==> health.active.NoOperation?)
    }

    constructor (mode: ResetMode, settings: seq<Setting>, matches: Matching, waitSlice: nat)
      ensures Valid() && fresh(health) && health.phase.Created? && statements == 0 && handle.None?
      ensures health.mode == mode && health.settings == settings && health.matches == matches && health.waitSlice == waitSlice
    {
      health := new Connection(mode, settings, matches, waitSlice);
      handle, statements, created, finished := None, 0, 0, 0;
    }

    /** Error paths that only mark the connection. */
    method Fail() returns (status: Status)
      requires Valid()
      modifies health`phase
      ensures Valid() && health.phase.Failed? && IsError(status)
    {
      health.phase := Failed;
      status := ErrorStatus();
    }

    method ConnectStart() returns (status: Status)
      requires Valid() && health.phase.Created?
      modifies health`phase, `handle, `created
      ensures Valid()
      ensures if status.Ok? then health.phase.Connecting? && handle.Some? else health.phase.Failed? && IsError(status)
    {
      var keywordsFit: bool, clockOk: bool, got: bool, nonblocking: bool := *, *, *, *;
      if !keywordsFit || !clockOk { status := Fail(); return; }
      if got {
        handle := Some(created);
        created := created + 1;
      }
      if !got || !nonblocking {
        health.phase := Failed;
        status := ErrorStatus();
        return;
      }
      health.phase := Connecting;
      status := Ok;
    }

    /** Connecting starts once; everything else needs a ready connection. */
    predicate Startable(operation: Operation)
      reads health
    {
      (OnReady(operation) && health.phase.Ready?) || (operation.Connect? && health.phase.Created?)
    }

    method Start(operation: Operation, observed: Observed) returns (status: Status)
      requires Valid() && observed.statements == statements
      modifies health, `handle, `created
      ensures Valid()
      ensures status.InvalidState? <==> !old(Startable(operation))
      ensures status.InvalidState? ==> health.phase == old(health.phase) && health.active == old(health.active)
      ensures !status.Ok? && !status.InvalidState? ==> health.phase.Failed?
      ensures status.Ok? && operation.Connect? ==> health.phase.Connecting? && handle.Some?
      ensures status.Ok? && !operation.Connect? ==>
        health.phase.Health? && health.active == operation && Preflight(operation, observed)
    {
      if OnReady(operation) && health.phase.Ready? {
        var clockOk: bool := *;
        if !clockOk { status := Fail(); return; }
        status := health.BeginOperation(operation, observed);
        return;
      }
      if !operation.Connect? || !health.phase.Created? { return InvalidState; }
      status := ConnectStart();
    }

    method CheckDeadline() returns (status: Status)
      requires Valid()
      modifies health`phase
      ensures Valid()
      ensures status.Ok? ==> health.phase == old(health.phase)
      ensures !status.Ok? ==> health.phase.Failed? && IsError(status)
    {
      var clockOk: bool, expired: bool := *, *;
      if !clockOk || expired { status := Fail(); return; }
      status := Ok;
    }

    /** After libpq has connected: what must hold before the health script starts. A bad
        connection status is reported without marking the connection as failed. */
    method Readiness() returns (status: Status)
      requires Valid() && health.phase.Connecting?
      modifies health
      ensures Valid()
      ensures if status.Ok? then health.phase.Health? && health.active.Connect? else !health.phase.Ready? && IsError(status)
      ensures status.Ok? ==> health.past == [] && health.now == []
    {
      var statusOk: bool, tlsOk: bool, identityOk: bool, observed: Observed := *, *, *, *;
      if !statusOk { status := ErrorStatus(); return; }
      status := CheckDeadline();
      if !status.Ok? { return; }
      if !tlsOk || !identityOk { status := Fail(); return; }
      status := CheckDeadline();
      if !status.Ok? { return; }
      status := health.BeginOperation(Connect, observed);
    }

    method ConnectWait(answer: ConnectAnswer) returns (status: Status, outcome: Outcome)
      requires Valid() && health.phase.Connecting?
      modifies health`phase, health`waitInterest
      ensures Valid()
      ensures status.Ok? ==> health.phase.Connecting? && outcome == health.Awaited()
      ensures !status.Ok? ==> health.phase.Failed? && IsError(status)
    {
      outcome := Nothing;
      var socketOk: bool := *;
      if !socketOk { status := Fail(); return; }
      health.waitInterest := if answer.Reading? then Read else if answer.Writing? then Write else ReadWrite;
      return Ok, Wait(health.waitInterest, WaitConnect, health.waitSlice);
    }

    /** What every successful poll says, for the operation that is running. */
    ghost predicate Reports(outcome: Outcome, operation: Operation)
      reads this, health
    {
      || (outcome.Complete? && health.phase.Ready?
          && Conforms(health.matches, health.past, Script(operation, health.mode, health.settings)))
      || (outcome == health.Awaited() && outcome.phase == OperationWaitPhase(operation)
          && ((health.phase.Connecting? && operation.Connect?) || (health.phase.Health? && health.active == operation)))
    }

    method HealthPoll(ghost operation: Operation) returns (status: Status, outcome: Outcome)
      requires Valid() && health.phase.Health? && health.active == operation
      modifies health
      ensures Valid()
      ensures status.Ok? ==> Reports(outcome, operation)
      ensures !status.Ok? ==> health.phase.Failed? && !status.InvalidState?
    {
      status, outcome := health.Poll();
    }

    /** libpq connects step by step; at most sixteen steps in one call are taken without a wait. */
    method ConnectPoll() returns (status: Status, outcome: Outcome)
      requires Valid() && health.phase.Connecting?
      modifies health
      ensures Valid()
      ensures status.Ok? ==> Reports(outcome, Connect)
      ensures !status.Ok? ==> !health.phase.Ready? && !status.InvalidState?
    {
      outcome := Nothing;
      var activeCount := 0;
      while true
        invariant Valid() && health.phase.Connecting? && 0 <= activeCount <= MAX_ACTIVE_POLLS
        decreases MAX_ACTIVE_POLLS - activeCount
      {
        var answer: ConnectAnswer := *;
        if answer.ConnectOk? {
          status := Readiness();
          if status.Ok? { status, outcome := HealthPoll(Connect); }
          return;
        }
        if answer.ConnectFailed? { status := Fail(); return; }
        if !answer.Active? || activeCount == MAX_ACTIVE_POLLS {
          status, outcome := ConnectWait(answer);
          return;
        }
        activeCount := activeCount + 1;
        status := CheckDeadline();
        if !status.Ok? { return; }
      }
    }

    /** The operation the port believes to be running. */
    ghost predicate Busy(operation: Operation)
      reads health
    {
      (health.phase.Connecting? && operation.Connect?) || (health.phase.Health? && health.active == operation)
    }

    method Poll(ghost operation: Operation) returns (status: Status, outcome: Outcome)
      requires Valid()
      modifies health
      ensures Valid()
      ensures status.InvalidState? <==> !old(health.phase.Connecting? || health.phase.Health?)
      ensures status.InvalidState? ==> health.phase == old(health.phase)
      ensures old(Busy(operation)) && status.Ok? ==> Reports(outcome, operation)
      ensures !status.Ok? && !status.InvalidState? ==> !health.phase.Ready?
    {
      outcome := Nothing;
      if !health.phase.Connecting? && !health.phase.Health? { return InvalidState, outcome; }
      status := CheckDeadline();
      if !status.Ok? { return; }
      if health.phase.Health? {
        status, outcome := HealthPoll(health.active);
      } else {
        status, outcome := ConnectPoll();
      }
    }

    /** Lets through exactly the request the last poll made. */
    method WaitOn(request: Outcome) returns (status: Status)
      requires Valid() && request.Wait?
      modifies health`phase
      ensures Valid()
      ensures status.InvalidState? <==>
        || !old(health.phase.Connecting? || health.phase.Health?)
        || request.phase != OperationWaitPhase(health.active) || request.interest != health.waitInterest
      ensures status.Ok? || status.InvalidState? ==> health.phase == old(health.phase)
      ensures !status.Ok? && !status.InvalidState? ==> health.phase.Failed?
    {
      var due := if health.phase.Connecting? then WaitConnect else OperationWaitPhase(health.active);
      if (!health.phase.Connecting? && !health.phase.Health?) || request.phase != due || request.interest != health.waitInterest {
        return InvalidState;
      }
      var ready: bool := *;
      if ready { return Ok; }
      status := Fail();
    }

    method Destroy()
      requires Valid()
      modifies `handle, `finished
      ensures handle.None? && created == finished
    {
      if handle.Some? {
        handle := None;
        finished := finished + 1;
      }
    }
  }
}
