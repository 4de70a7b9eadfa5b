/** The client port's connection, driving the libpq connection behind it, and its statements
    running over that same connection. The port's state and the libpq phase stay related through
    every run, and what was completed obeys the port's own transition table. */
module ClientConnection {
  import opened Options
  import opened ConnectionHealth
  import opened LibpqConnection
  import LibpqStatement
  import ClientStatement

  const MAX_SLICE := 1000

  datatype State =
    | New | ConnectingState | ReadyState | TransactionStarting | TransactionActive | TransactionEnding
    | ResettingState | PingingState | CancellingState | FailedState

  predicate StartAllowed(state: State, active: Operation, operation: Operation) {
    if !active.NoOperation? then
      operation.Cancel? && state.ConnectingState?
    else
      || (operation.Connect? && state.New?)
      || ((operation.Begin? || operation.Reset? || operation.Ping?) && state.ReadyState?)
      || (operation.Commit? && state.TransactionActive?)
      || (operation.Rollback? && (state.TransactionActive? || state.FailedState?))
  }

  function RunningState(operation: Operation): State {
    match operation
    case Connect => ConnectingState
    case Begin => TransactionStarting
    case Commit => TransactionEnding
    case Rollback => TransactionEnding
    case Reset => ResettingState
    case Ping => PingingState
    case Cancel => CancellingState
    case _ => FailedState
  }

  function TerminalState(operation: Operation): State {
    match operation
    case Connect => ReadyState
    case Commit => ReadyState
    case Rollback => ReadyState
    case Reset => ReadyState
    case Ping => ReadyState
    case Begin => TransactionActive
    case _ => FailedState
  }

  function PortWaitPhase(operation: Operation): WaitPhase {
    match operation
    case Reset => WaitReset
    case Ping => WaitPing
    case Cancel => WaitCancel
    case StatementOperation => WaitStatement
    case Begin => WaitTransaction
    case Commit => WaitTransaction
    case Rollback => WaitTransaction
    case _ => WaitConnect
  }

  predicate WaitValid(wait: Outcome, operation: Operation) {
    wait.Wait? && wait.phase == PortWaitPhase(operation) && 0 < wait.slice <= MAX_SLICE
  }

  // ----- what may have been completed, one after another

  /** A session: connect, then resets, pings and transactions, each transaction ended once. */
  function SessionAfter(state: Option<State>, operation: Operation): Option<State> {
    if state == Some(New) && operation.Connect? then Some(ReadyState)
    else if state == Some(ReadyState) && (operation.Reset? || operation.Ping?) then state
    else if state == Some(ReadyState) && operation.Begin? then Some(TransactionActive)
    else if state == Some(TransactionActive) && (operation.Commit? || operation.Rollback?) then Some(ReadyState)
    else None
  }

  function Session(completed: seq<Operation>): Option<State> {
    if completed == [] then Some(New)
    else SessionAfter(Session(completed[..|completed| - 1]), completed[|completed| - 1])
  }

  lemma SessionMore(completed: seq<Operation>, operation: Operation)
    ensures Session(completed + [operation]) == SessionAfter(Session(completed), operation)
  {
    assert (completed + [operation])[..|completed|] == completed;
  }

  /** The simulation relation: port state and active operation against the libpq connection. */
  ghost predicate Related(state: State, active: Operation, phase: Phase, running: Operation) {
    || (state.New? && active.NoOperation? && phase.Created?)
    || (state.ConnectingState? && active.Connect? && (phase.Connecting? || (phase.Health? && running.Connect?)))
    || (OnReady(active) && state == RunningState(active) && phase.Health? && running == active)
    || ((state.ReadyState? || state.TransactionActive?) && active.NoOperation? && (phase.Ready? || phase.Failed?))
    || (state.FailedState? && active.NoOperation? && !phase.Ready?)
  }

  /** The completed operations lead to the state the port is in, or was in when it started the
      operation now active. */
  ghost predicate Explained(state: State, active: Operation, completed: seq<Operation>) {
    && Session(completed).Some?
    && (active.NoOperation? && !state.FailedState? ==> Session(completed) == Some(state))
    && (!active.NoOperation? ==>
          SessionAfter(Session(completed), active) == Some(TerminalState(active)))
  }

  /** Finishing the active operation explains the port's terminal state. */
  lemma CompletesTo(state: State, active: Operation, completed: seq<Operation>)
    requires Explained(state, active, completed) && !active.NoOperation?
    ensures Explained(TerminalState(active), NoOperation, completed + [active])
    ensures Explained(FailedState, NoOperation, completed)
  {
    SessionMore(completed, active);
  }

  /** As much of a statement's specification as the two machines look at. */
  datatype Spec = Spec(wellFormed: bool, prepare: bool, singleRow: bool, fieldCount: nat)

  predicate SpecValid(spec: Spec) {
    spec.wellFormed && spec.fieldCount <= ClientStatement.MAX_RESULT_FIELDS
  }

  class ConnectionPort {
    const backend: Link
    const capabilities: set<Operation>
    const statementCapabilities: set<LibpqStatement.Operation>
    var state: State
    var active: Operation
    var statements: nat
    var statement: ClientStatement.Port?
    ghost var completed: seq<Operation>
    /** Answers of the backend that the port refused although their status was OK. */
    ghost var refused: nat
    /** How often a statement brought a failed connection back to an active transaction. */
    ghost var recovered: nat
    /** Results and cancel handles that closed statements took from libpq and gave back. */
    ghost var taken: nat
    ghost var given: nat

    /** The open statement's objects. */
    ghost function Owned(): set<object>
      reads this
    {
      if statement == null then {} else {statement, statement.backend}
    }

    ghost predicate StatementOk()
      reads this, Owned()
    {
      && statements == (if statement == null then 0 else 1)
      && (statement != null ==> statement.Valid() && (state.ReadyState? || state.TransactionActive?))
    }

    /** All but the open statement. */
    ghost predicate LinkOk()
      reads this, backend, backend.health
    {
      && backend.Valid() && 0 < backend.health.waitSlice <= MAX_SLICE
      && Related(state, active, backend.health.phase, backend.health.active)
      && Explained(state, active, completed)
      && refused == 0 && recovered == 0 && taken == given
    }

    ghost predicate Valid()
      reads this, backend, backend.health, Owned()
    {
      LinkOk() && statements == backend.statements && StatementOk()
    }

    constructor (mode: ResetMode, settings: seq<Setting>, matches: Matching, waitSlice: nat, capabilities: set<Operation>,
                 statementCapabilities: set<LibpqStatement.Operation>)
      requires 0 < waitSlice <= MAX_SLICE
      ensures Valid() && fresh(backend) && fresh(backend.health) && completed == []
      ensures state.New? && active.NoOperation? && statement == null && this.capabilities == capabilities
      ensures backend.health.mode == mode && backend.health.settings == settings && backend.health.matches == matches
    {
      backend := new Link(mode, settings, matches, waitSlice);
      this.capabilities, this.statementCapabilities := capabilities, statementCapabilities;
      state, active, statements, statement, completed := New, NoOperation, 0, null, [];
      refused, recovered, taken, given := 0, 0, 0, 0;
    }

    /** A failed connection stays failed, and connecting cannot be cancelled: the port's table
        allows a rollback and a cancel there, but the connection behind it takes neither. */
    method Start(operation: Operation, observed: Observed) returns (status: Status)
      requires Valid() && observed.statements == statements
      modifies `state, `active, backend, backend.health
      ensures Valid()
      ensures status.Ok? ==> StartAllowed(old(state), old(active), operation) && old(statements) == 0
      ensures status.Ok? ==> active == operation && state == RunningState(operation)
      ensures old(state).FailedState? || operation.Cancel? ==> !status.Ok?
      ensures old(state).FailedState? ==> state.FailedState?
      ensures !operation.NoOperation? && operation in capabilities
              && (old(statements) != 0 || !StartAllowed(old(state), old(active), operation)) ==>
        status.InvalidState? && state == old(state) && active == old(active)
      // of the starts the table allows, these are the ones the connection has no answer for
      ensures operation in capabilities && old(statements) == 0 && StartAllowed(old(state), old(active), operation) ==>
        && (status.InvalidState? <==> old(state).FailedState? || operation.Cancel? || old(backend.health.phase).Failed?)
        && (!status.Ok? ==> state.FailedState? && active.NoOperation?)
    {
      if operation.NoOperation? { return InvalidArgument; }
      if operation !in capabilities { return Unsupported; }
      if statements != 0 || !StartAllowed(state, active, operation) { return InvalidState; }
      status := backend.Start(operation, observed);
      if !status.Ok? {
        state, active := FailedState, NoOperation;
        return;
      }
      active := operation;
      state := RunningState(operation);
    }

    method Poll() returns (status: Status, outcome: Outcome)
      requires Valid()
      modifies `state, `active, `completed, `refused, backend.health
      ensures Valid()
      ensures old(active).NoOperation? ==> status.InvalidState? && state == old(state) && completed == old(completed)
      ensures status.Ok? && outcome.Wait? ==> WaitValid(outcome, active) && outcome == backend.health.Awaited()
      ensures status.Ok? && outcome.Wait? ==> active == old(active) && state == old(state) && completed == old(completed)
      ensures status.Ok? && outcome.Complete? ==> state == TerminalState(old(active)) && completed == old(completed) + [old(active)]
      ensures status.Ok? && outcome.Complete? ==> Conforms(backend.health.matches, backend.health.past,
        Script(old(active), backend.health.mode, backend.health.settings))
      ensures status.Ok? ==> outcome.Wait? || outcome.Complete?
      ensures !status.Ok? && !old(active).NoOperation? ==> state.FailedState? && completed == old(completed)
    {
      outcome := Nothing;
      var operation := active;
      if operation.NoOperation? { return InvalidState, outcome; }
      var observed;
      CompletesTo(state, operation, completed);
      status, observed := backend.Poll(operation);
      status, outcome := Settle(operation, status, observed);
    }

    /** What the port makes of the backend's answer. */
    method Settle(operation: Operation, answered: Status, observed: Outcome) returns (status: Status, outcome: Outcome)
      modifies `state, `active, `completed, `refused
      ensures refused == old(refused) + if answered.Ok? && !status.Ok? then 1 else 0
      ensures status.Ok? <==> answered.Ok? && (observed.Complete? || WaitValid(observed, operation))
      ensures status.Ok? ==> outcome == observed
      ensures if status.Ok? && observed.Wait? then state == old(state) && active == old(active) else active.NoOperation?
      ensures !status.Ok? ==> state.FailedState?
      ensures status.Ok? && observed.Complete? ==> state == TerminalState(operation)
      ensures completed == if status.Ok? && observed.Complete? then old(completed) + [operation] else old(completed)
    {
      status, outcome := answered, Nothing;
      if !status.Ok? || observed.Nothing? || (observed.Wait? && !WaitValid(observed, operation)) {
        refused := refused + if status.Ok? then 1 else 0;
        state, active := FailedState, NoOperation;
        return if status.Ok? then BackendError else status, outcome;
      }
      outcome := observed;
      if outcome.Wait? { return; }
      completed := completed + [operation];
      active := NoOperation;
      state := TerminalState(operation);
    }

    method Wait(request: Outcome) returns (status: Status)
      requires Valid()
      modifies `state, `active, backend.health
      ensures Valid()
      ensures status.Ok? || old(active).NoOperation? ==> state == old(state) && active == old(active)
      // waiting on the request that the last poll returned is never refused
      ensures !old(active).NoOperation? && request == old(backend.health.Awaited()) ==> !status.InvalidState?
    {
      if active.NoOperation? || !WaitValid(request, active) { return InvalidState; }
      status := backend.WaitOn(request);
      if !status.Ok? { state, active := FailedState, NoOperation; }
    }

    // ----- statements over the same libpq connection

    /** A statement opens only on a connection that is ready on both layers. Running out of memory
        before anything is built leaves the connection as it was; a failed build loses it. */
    method OpenStatement(spec: Spec) returns (status: Status)
      requires Valid()
      modifies this, backend, backend.health`phase
      ensures Valid() && state == old(state) && active == old(active) && completed == old(completed)
      ensures fresh(Owned() - old(Owned()))
      ensures status.InvalidArgument? <==> !SpecValid(spec)
      ensures status.Ok? ==> old(backend.health.phase).Ready? && old(statement) == null && statement != null
      ensures status.Ok? ==> statement.state.New? && backend.health.phase.Ready?
      ensures !status.Ok? ==> statement == old(statement)
      ensures state.FailedState? ==> !status.Ok?
      ensures status.InvalidState? || status.InvalidArgument? ==> backend.health.phase == old(backend.health.phase)
      ensures backend.health.phase != old(backend.health.phase) ==> backend.health.phase.Failed? && !status.Ok?
    {
      if !SpecValid(spec) { return InvalidArgument; }
      if !(state.ReadyState? || state.TransactionActive? || state.FailedState?) || !active.NoOperation? || statements != 0 {
        return InvalidState;
      }
      var portMemory: bool, statementMemory: bool, built: bool, large: bool := *, *, *, *;
      if !portMemory { return OutOfMemory; }
      if !backend.health.phase.Ready? || backend.statements != 0 { return InvalidState; }
      if !statementMemory { return OutOfMemory; }
      if !built {
        status := backend.Fail();
        if large { status := LimitExceeded; }
        return;
      }
      statement := new ClientStatement.Port(spec.prepare, spec.singleRow, spec.fieldCount, backend.health.waitSlice, statementCapabilities);
      backend.statements, statements := 1, 1;
      status := Ok;
    }

    /** The statement sees whether the libpq connection is ready. */
    method Lend()
      requires Valid() && statement != null
      modifies statement.backend`connectionReady
      ensures Valid() && statement.backend.connectionReady == backend.health.phase.Ready?
    {
      statement.backend.connectionReady := backend.health.phase.Ready?;
    }

    /** A call on the open statement. When an operation of it completes on a failed port, the port
        goes back to an active transaction; that is never reached. */
    method StatementCall(call: ClientStatement.Call) returns (complete: bool)
      requires Valid() && statement != null && !call.ConnectionChanges?
      modifies `state, `recovered, statement, statement.backend, backend.health`phase
      ensures Valid() && state == old(state)
      ensures complete ==> old(backend.health.phase).Ready?
      ensures backend.health.phase == old(backend.health.phase) || backend.health.phase.Failed?
    {
      Lend();
      complete := PerformCall(call);
      Recover(complete);
    }

    method Recover(complete: bool)
      modifies `state, `recovered
      ensures state == if complete && old(state).FailedState? then TransactionActive else old(state)
      ensures recovered == old(recovered) + if complete && old(state).FailedState? then 1 else 0
    {
      if complete && state.FailedState? {
        state := TransactionActive;
        recovered := recovered + 1;
      }
    }

    /** The call itself; afterwards the libpq connection is ready only if the statement left it so. */
    method PerformCall(call: ClientStatement.Call) returns (complete: bool)
      requires Valid() && statement != null && !call.ConnectionChanges?
      requires statement.backend.connectionReady == backend.health.phase.Ready?
      modifies statement, statement.backend, backend.health`phase
      ensures Valid() && (complete ==> old(backend.health.phase).Ready?)
      ensures backend.health.phase == old(backend.health.phase) || backend.health.phase.Failed?
      ensures statement.backend.connectionReady == backend.health.phase.Ready?
    {
      var shown;
      shown, complete := ClientStatement.Perform(statement, call);
      if !statement.backend.connectionReady { Lost(); }
    }

    /** A statement that left the connection unusable has marked it as failed. */
    method Lost()
      requires LinkOk() && (state.ReadyState? || state.TransactionActive?)
      modifies backend.health`phase
      ensures LinkOk() && backend.health.phase == if old(backend.health.phase).Ready? then Failed else old(backend.health.phase)
    {
      if backend.health.phase.Ready? { backend.health.phase := Failed; }
    }

    /** What the statement took from libpq was given back, once each. */
    method CloseStatement()
      requires Valid() && statement != null
      modifies this, statement, statement.backend, backend, backend.health`phase
      ensures Valid() && statement == null && state == old(state) && completed == old(completed)
    {
      Lend();
      statement.Close();
      if !statement.backend.connectionReady { Lost(); }
      Forget();
    }

    method Forget()
      requires LinkOk() && statement != null
      requires statement.backend.obtained == statement.backend.cleared
      requires statement.backend.cancelsCreated == statement.backend.cancelsFinished
      modifies `taken, `given, `statement, `statements, backend`statements
      ensures Valid() && statement == null
    {
      taken := taken + statement.backend.obtained + statement.backend.cancelsCreated;
      given := given + statement.backend.cleared + statement.backend.cancelsFinished;
      statement := null;
      backend.statements, statements := 0, 0;
    }

    method Close() returns (status: Status)
      requires Valid()
      modifies backend
      ensures status.Ok? <==> statements == 0
      ensures status.Ok? ==> backend.handle.None? && backend.created == backend.finished
      ensures !status.Ok? ==> status.InvalidState? && Valid()
    {
      if statements != 0 { return InvalidState; }
      backend.Destroy();
      status := Ok;
    }
  }

  // ----- whole runs

  datatype Call =
    | CallStart(operation: Operation, observed: Observed) | CallPoll | CallWait(request: Outcome)
    | CallOpen(spec: Spec) | CallStatement(call: ClientStatement.Call) | CallStatementClose

  /** Finished operations with all that was exchanged for each. */
  datatype Entry = Entry(operation: Operation, rounds: seq<seq<Exchange>>)

  ghost predicate AllConform(history: seq<Entry>, matches: Matching, mode: ResetMode, settings: seq<Setting>) {
    forall i :: 0 <= i < |history| ==> Conforms(matches, history[i].rounds, Script(history[i].operation, mode, settings))
  }

  function Operations(history: seq<Entry>): seq<Operation> {
    seq(|history|, i requires 0 <= i < |history| => history[i].operation)
  }

  method StepStatement(port: ConnectionPort, call: Call)
    requires port.Valid() && (call.CallOpen? || call.CallStatement? || call.CallStatementClose?)
    modifies port, port.backend, port.backend.health, port.Owned()
    ensures port.Valid() && port.completed == old(port.completed) && port.state == old(port.state)
    ensures fresh(port.Owned() - old(port.Owned()))
  {
    if call.CallOpen? {
      var _ := port.OpenStatement(call.spec);
    } else if port.statement == null {
      return;
    } else if call.CallStatementClose? {
      port.CloseStatement();
    } else if !call.call.ConnectionChanges? {
      var _ := port.StatementCall(call.call);
    }
  }

  method StepPoll(port: ConnectionPort, history: seq<Entry>) returns (history': seq<Entry>)
    requires port.Valid() && port.completed == Operations(history)
    requires AllConform(history, port.backend.health.matches, port.backend.health.mode, port.backend.health.settings)
    modifies port, port.backend.health
    ensures port.Valid() && port.completed == Operations(history') && port.Owned() == old(port.Owned())
    ensures AllConform(history', port.backend.health.matches, port.backend.health.mode, port.backend.health.settings)
    ensures old(port.state).FailedState? ==> port.state.FailedState? && history' == history
  {
    var operation := port.active;
    var status, outcome := port.Poll();
    history' := history;
    if status.Ok? && outcome.Complete? { history' := history + [Entry(operation, port.backend.health.past)]; }
  }

  method Step(port: ConnectionPort, call: Call, history: seq<Entry>) returns (history': seq<Entry>)
    requires port.Valid() && port.completed == Operations(history)
    requires AllConform(history, port.backend.health.matches, port.backend.health.mode, port.backend.health.settings)
    modifies port, port.backend, port.backend.health, port.Owned()
    ensures port.Valid() && port.completed == Operations(history')
    ensures fresh(port.Owned() - old(port.Owned()))
    ensures AllConform(history', port.backend.health.matches, port.backend.health.mode, port.backend.health.settings)
    ensures old(port.state).FailedState? ==> port.state.FailedState? && history' == history
  {
    history' := history;
    var status;
    match call
    case CallStart(operation, observed) =>
      status := port.Start(operation, observed.(statements := port.statements));
    case CallPoll => history' := StepPoll(port, history);
    case CallWait(request) => status := port.Wait(request);
    case _ => StepStatement(port, call);
  }

  /** Any sequence of calls on the connection and on its statements, in any order and with any
      arguments. What was completed is a session, each operation of it exchanged exactly its
      script, no good answer was refused, a failed connection never came back, and closing gives
      back what libpq handed out. */
  method Run(mode: ResetMode, settings: seq<Setting>, matches: Matching, waitSlice: nat, capabilities: set<Operation>,
             statementCapabilities: set<LibpqStatement.Operation>, calls: seq<Call>)
    returns (port: ConnectionPort, history: seq<Entry>, closed: Status)
    requires 0 < waitSlice <= MAX_SLICE
    ensures AllConform(history, matches, mode, settings) && Session(Operations(history)).Some?
    ensures port.active.NoOperation? && !port.state.FailedState? ==> Session(Operations(history)) == Some(port.state)
    ensures port.refused == 0 && port.recovered == 0 && port.taken == port.given
    ensures closed.Ok? <==> port.statement == null
    ensures closed.Ok? ==> port.backend.handle.None? && port.backend.created == port.backend.finished
  {
    port := new ConnectionPort(mode, settings, matches, waitSlice, capabilities, statementCapabilities);
    history := [];
    for n := 0 to |calls|
      invariant port.Valid() && fresh(port) && fresh(port.backend) && fresh(port.backend.health) && fresh(port.Owned())
      invariant port.backend.health.mode == mode && port.backend.health.settings == settings
      invariant port.backend.health.matches == matches
      invariant port.completed == Operations(history) && AllConform(history, matches, mode, settings)
    {
      history := Step(port, calls[n], history);
    }
    closed := port.Close();
  }

  /** Whatever libpq answers, cancelling a connect fails the port, and the rollback its table
      then allows is refused. */
  method RollbackRefused(mode: ResetMode, settings: seq<Setting>, matches: Matching, waitSlice: nat, observed: Observed)
    returns (port: ConnectionPort, status: Status)
    requires 0 < waitSlice <= MAX_SLICE && observed.statements == 0
    ensures port.Valid() && port.state.FailedState? && StartAllowed(port.state, port.active, Rollback) && status.InvalidState?
  {
    port := new ConnectionPort(mode, settings, matches, waitSlice, {Connect, Cancel, Rollback}, {});
    status := port.Start(Connect, observed);
    if status.Ok? { status := port.Start(Cancel, observed); }
    status := port.Start(Rollback, observed);
  }
}
