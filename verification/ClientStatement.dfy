/** The client port's statement, driving the libpq statement behind it. The port's own state and
    the libpq phase stay related through every run, whatever libpq answers. */
module ClientStatement {
  import opened Options
  import opened LibpqStatement

  datatype State =
    | New | PreparingState | PreparedState | ExecutingState | FetchingState | RowReadyState
    | CompleteState | CancellingState | FailedState

  /** A row view is a value; callers may keep it as long as they like. */
  datatype View = View(generation: nat, columnCount: nat)

  const MAX_RESULT_FIELDS := 4096

  predicate StartAllowed(state: State, active: Operation, operation: Operation) {
    if operation.Cancel? then
      state.PreparingState? || state.ExecutingState? || state.FetchingState? || state.RowReadyState?
    else
      && active.NoOperation?
      && ((operation.Prepare? && state.New?)
          || (operation.Execute? && (state.New? || state.PreparedState?))
          || (operation.Fetch? && state.FetchingState?))
  }

  function RunningState(operation: Operation): State {
    match operation
    case Prepare => PreparingState
    case Execute => ExecutingState
    case Fetch => FetchingState
    case Cancel => CancellingState
    case _ => FailedState
  }

  function TerminalState(operation: Operation): State {
    match operation
    case Prepare => PreparedState
    case Execute => FetchingState
    case Fetch => CompleteState
    case Cancel => CompleteState
    case _ => FailedState
  }

  function OperationWaitPhase(operation: Operation): WaitPhase {
    match operation
    case Prepare => WaitPrepare
    case Execute => WaitExecute
    case Fetch => WaitFetch
    case Cancel => WaitCancel
    case _ => WaitOther
  }

  predicate WaitValid(wait: WaitRequest, operation: Operation) {
    wait.phase == OperationWaitPhase(operation) && 0 < wait.maxSlice <= MAX_SLICE
  }

  predicate Pollable(operation: Operation) {
    operation.Prepare? || operation.Execute? || operation.Fetch? || operation.Cancel?
  }

  /** The simulation relation: port state and active operation against the libpq phase. */
  ghost predicate Related(state: State, active: Operation, singleRow: bool, p: Phase) {
    || (state.New? && active.NoOperation? && p.Created?)
    || (state.PreparingState? && active.Prepare? && StageOf(p).Preparation?)
    || (state.PreparedState? && active.NoOperation? && p.Prepared?)
    || (state.ExecutingState? && active.Execute? && StageOf(p).Execution?)
    || (state.FetchingState? && (active.NoOperation? || active.Fetch?) && p == if singleRow then FetchWait else Complete)
    || (state.RowReadyState? && active.NoOperation? && p.RowReady?)
    || (state.CompleteState? && active.NoOperation? && p.Complete?)
    || (state.CancellingState? && active.Cancel? && StageOf(p).Cancellation?)
    || (state.FailedState? && active.NoOperation?)
  }

  /** The answers of the backend that the port lets through. */
  predicate Accepted(operation: Operation, r: PollResult) {
    && !r.NoResult?
    && (r.Wait? ==> WaitValid(r.wait, operation))
    && (r.PollRow? ==> operation.Fetch?)
  }

  /** What a poll reports passes the port's check, and moves both layers together. */
  lemma PollRelates(state: State, active: Operation, singleRow: bool, p: Phase, p': Phase, r: PollResult)
    requires Related(state, active, singleRow, p) && Pollable(active) && Reported(singleRow, StageOf(p), p', r)
    ensures Accepted(active, r) && !r.PollFailed?
    ensures r.Wait? ==> Related(state, active, singleRow, p')
    ensures r.PollRow? ==> p'.RowReady? && Related(RowReadyState, NoOperation, singleRow, p')
    ensures r.PollComplete? ==> Related(TerminalState(active), NoOperation, singleRow, p')
    ensures r.PollComplete? && active.Fetch? ==> p'.Complete?
  {
  }

  class Port {
    const backend: Statement
    const capabilities: set<Operation>
    var state: State
    var active: Operation
    var rowGeneration: nat
    /** Answers of the backend that the port refused although their status was OK. */
    ghost var refused: nat
    /** Row callbacks made while the backend held no row. */
    ghost var misplaced: nat

    ghost predicate Valid()
      reads this, backend
    {
      && backend.Valid() && backend.fieldCount <= MAX_RESULT_FIELDS
      && Related(state, active, backend.singleRow, backend.phase)
      && refused == 0 && misplaced == 0
      && rowGeneration <= UINT64_MAX
    }

    constructor (prepare: bool, singleRow: bool, fieldCount: nat, waitSlice: nat, capabilities: set<Operation>)
      requires 0 < waitSlice <= MAX_SLICE && fieldCount <= MAX_RESULT_FIELDS
      ensures fresh(backend) && Valid() && state.New? && rowGeneration == 0
      ensures backend.obtained == 0 && backend.cancelsCreated == 0
    {
      backend := new Statement(prepare, singleRow, fieldCount, waitSlice);
      this.capabilities := capabilities;
      state, active, rowGeneration, refused, misplaced := New, NoOperation, 0, 0, 0;
    }

    method Start(operation: Operation) returns (status: Status)
      requires Valid()
      modifies `state, `active, backend
      ensures Valid()
      ensures !operation.NoOperation? && operation in capabilities && !StartAllowed(old(state), old(active), operation) ==>
        status.InvalidState? && state == old(state) && active == old(active)
      ensures status.Ok? ==> StartAllowed(old(state), old(active), operation)
      ensures status.Ok? ==> active == operation && state == RunningState(operation)
      ensures backend.connectionReady ==> old(backend.connectionReady)
    {
      if operation.NoOperation? { return InvalidArgument; }
      if operation !in capabilities { return Unsupported; }
      if !StartAllowed(state, active, operation) { return InvalidState; }
      status := backend.Start(operation);
      if !status.Ok? {
        state, active := FailedState, NoOperation;
        return;
      }
      active := operation;
      state := RunningState(operation);
    }

    /** The backend reported a row: ask for it and give it a new generation. */
    method PublishRow() returns (status: Status, view: View)
      requires rowGeneration <= UINT64_MAX
      modifies this
      ensures old(rowGeneration) <= rowGeneration <= UINT64_MAX && refused == old(refused)
      ensures misplaced == old(misplaced) + if backend.RowHeld() then 0 else 1
      ensures active.NoOperation? && state == if status.Ok? then RowReadyState else FailedState
      ensures status.Ok? ==> backend.RowHeld()
      ensures status.Ok? ==> rowGeneration == old(rowGeneration) + 1 && view == View(rowGeneration, backend.fieldCount)
    {
      view := View(0, 0);
      misplaced := misplaced + if backend.RowHeld() then 0 else 1;
      var columns;
      status, columns := backend.Row();
      if !status.Ok? || columns > MAX_RESULT_FIELDS {
        state, active := FailedState, NoOperation;
        return if status.Ok? then BackendError else status, view;
      }
      if rowGeneration == UINT64_MAX {
        state, active := FailedState, NoOperation;
        return LimitExceeded, view;
      }
      rowGeneration := rowGeneration + 1;
      active, state := NoOperation, RowReadyState;
      view := View(rowGeneration, columns);
    }

    method Poll() returns (status: Status, r: PollResult, view: View)
      requires Valid()
      modifies this, backend
      ensures Valid() && old(rowGeneration) <= rowGeneration
      ensures !Pollable(old(active)) ==> status.InvalidState? && state == old(state) && backend.phase == old(backend.phase)
      ensures status.Ok? && r.Wait? ==> WaitValid(r.wait, active) && active == old(active) && state == old(state)
      ensures status.Ok? && r.Wait? ==> backend.waitInterest == r.wait.interest && backend.waitPhase == r.wait.phase
      ensures status.Ok? && r.PollRow? ==> state.RowReadyState? && backend.RowHeld()
      ensures status.Ok? && r.PollRow? ==> view.generation == rowGeneration > old(rowGeneration)
      ensures status.Ok? && r.PollComplete? ==> state == TerminalState(old(active))
      // an uncancelled fetch is complete only after all its rows, a final good result and the end
      ensures status.Ok? && r.PollComplete? && old(active).Fetch? && backend.cancelledAt.None? ==>
        LogFits(Complete, backend.prepare, backend.singleRow, backend.publishedRows, backend.log)
      ensures status.Ok? ==> r.Wait? || r.PollRow? || r.PollComplete?
      ensures Pollable(old(active)) && !status.Ok? ==> state.FailedState?
      ensures status.Ok? || backend.connectionReady ==> old(backend.connectionReady)
    {
      r, view := NoResult, View(0, 0);
      var operation := active;
      if !Pollable(operation) { return InvalidState, r, view; }
      var observed;
      ghost var p := backend.phase;
      status, observed := backend.Poll();
      if status.Ok? { PollRelates(state, active, backend.singleRow, p, backend.phase, observed); }
      status, r, view := Settle(operation, status, observed);
    }

    /** What the port makes of the backend's answer. */
    method Settle(operation: Operation, answered: Status, observed: PollResult)
      returns (status: Status, r: PollResult, view: View)
      requires rowGeneration <= UINT64_MAX
      modifies this
      ensures old(rowGeneration) <= rowGeneration <= UINT64_MAX
      ensures refused == old(refused) + if answered.Ok? && !Accepted(operation, observed) then 1 else 0
      ensures misplaced == old(misplaced)
              + if answered.Ok? && Accepted(operation, observed) && observed.PollRow? && !backend.RowHeld() then 1 else 0
      ensures status.Ok? ==> answered.Ok? && Accepted(operation, observed) && r == observed && !r.PollFailed?
      ensures !status.Ok? ==> state.FailedState? && active.NoOperation?
      ensures status.Ok? && r.Wait? ==> state == old(state) && active == old(active)
      ensures status.Ok? && r.PollRow? ==> state.RowReadyState? && active.NoOperation? && backend.RowHeld()
      ensures status.Ok? && r.PollRow? ==> view.generation == rowGeneration > old(rowGeneration)
      ensures status.Ok? && r.PollComplete? ==> state == TerminalState(operation) && active.NoOperation?
    {
      status, r, view := answered, NoResult, View(0, 0);
      refused := refused + if status.Ok? && !Accepted(operation, observed) then 1 else 0;
      if status.Ok? && Accepted(operation, observed) { r := observed; }
      if !status.Ok? || !Accepted(operation, observed) || observed.PollFailed? {
        state, active := FailedState, NoOperation;
        return if status.Ok? then BackendError else status, r, view;
      }
      if r.Wait? { return; }
      if r.PollRow? {
        status, view := PublishRow();
        return;
      }
      active := NoOperation;
      state := TerminalState(operation);
    }

    method Wait(request: WaitRequest) returns (status: Status)
      requires Valid()
      modifies `state, `active, backend
      ensures Valid()
      ensures status.Ok? || status.ControlSignal? ==> state == old(state) && active == old(active)
      // waiting on the request that the last poll returned is never refused
      ensures old(Pollable(active)) && WaitValid(request, old(active)) && old(backend.connectionReady)
              && request.interest == old(backend.waitInterest) && request.phase == old(backend.waitPhase) ==>
        !status.InvalidState?
      ensures backend.connectionReady ==> old(backend.connectionReady)
    {
      if !Pollable(active) || !WaitValid(request, active) { return InvalidState; }
      status := backend.WaitOn(request);
      if !status.Ok? && !status.ControlSignal? {
        state, active := FailedState, NoOperation;
      }
    }

    predicate Current(view: View)
      reads this
    {
      state.RowReadyState? && view.generation != 0 && rowGeneration == view.generation
    }

    /** Reads one column of a view; `answer` is what the backend says of a row it holds. */
    method Column(view: View, index: nat, answer: Status) returns (status: Status)
      requires Valid()
      modifies `misplaced
      ensures Valid()
      ensures index < view.columnCount && !Current(view) ==> status.InvalidState?
      ensures index < view.columnCount && Current(view) && index < backend.fieldCount ==> status == answer && backend.RowHeld()
    {
      if index >= view.columnCount { return InvalidArgument; }
      if !Current(view) { return InvalidState; }
      misplaced := misplaced + if backend.RowHeld() then 0 else 1;
      status := if !backend.RowHeld() || index >= backend.fieldCount then InvalidArgument else answer;
    }

    method RowConsumed() returns (status: Status)
      requires Valid()
      modifies this, backend
      ensures Valid()
      ensures status.InvalidState? <==> !old(state).RowReadyState?
      ensures status.Ok? ==> rowGeneration == old(rowGeneration) + 1 && state.FetchingState? && backend.phase.FetchWait?
      ensures !status.Ok? ==> rowGeneration == old(rowGeneration)
      ensures backend.connectionReady == old(backend.connectionReady)
    {
      if !state.RowReadyState? || !active.NoOperation? { return InvalidState; }
      if rowGeneration == UINT64_MAX {
        state := FailedState;
        return LimitExceeded;
      }
      misplaced := misplaced + if backend.RowHeld() then 0 else 1;
      backend.RowRelease();
      rowGeneration := rowGeneration + 1;
      state := FetchingState;
      status := Ok;
    }

    /** After close, every result and every cancel handle has been given back exactly once. */
    method Close()
      requires Valid()
      modifies this, backend
      ensures refused == 0 && misplaced == 0
      ensures backend.live == {} && backend.obtained == backend.cleared
      ensures backend.cancelsLive == {} && backend.cancelsCreated == backend.cancelsFinished
      ensures backend.connectionReady ==> old(backend.connectionReady)
    {
      if state.RowReadyState? {
        misplaced := misplaced + if backend.RowHeld() then 0 else 1;
        backend.RowRelease();
      }
      backend.Destroy();
    }
  }

  // ----- whole runs

  datatype Call =
    | CallStart(operation: Operation) | CallPoll | CallWait(request: WaitRequest) | CallConsume
    | CallColumn(view: View, index: nat, answer: Status) | ConnectionChanges(ready: bool)

  /** Views no longer current stay so: a current view is the newest one. */
  ghost predicate OnlyLastCurrent(views: seq<View>, generation: nat) {
    && (forall i :: 0 <= i < |views| ==> 0 < views[i].generation <= generation)
    && (forall i, j :: 0 <= i < j < |views| ==> views[i].generation < views[j].generation)
  }

  /** One call. It can lose the connection but not bring it back, and completes only on a ready one. */
  method Perform(port: Port, call: Call) returns (shown: Option<View>, complete: bool)
    requires port.Valid()
    modifies port, port.backend
    ensures port.Valid() && old(port.rowGeneration) <= port.rowGeneration
    ensures shown.Some? ==> shown.value.generation == port.rowGeneration > old(port.rowGeneration)
    ensures complete || (port.backend.connectionReady && !call.ConnectionChanges?) ==> old(port.backend.connectionReady)
  {
    shown, complete := None, false;
    var status;
    match call
    case CallStart(operation) => status := port.Start(operation);
    case CallPoll =>
      var r, view;
      status, r, view := port.Poll();
      complete := status.Ok? && r.PollComplete?;
      if status.Ok? && r.PollRow? { shown := Some(view); }
    case CallWait(request) => status := port.Wait(request);
    case CallConsume => status := port.RowConsumed();
    case CallColumn(view, index, answer) => status := port.Column(view, index, answer);
    case ConnectionChanges(ready) => port.backend.connectionReady := ready;
  }

  method Step(port: Port, call: Call, given: seq<View>) returns (views: seq<View>)
    requires port.Valid() && OnlyLastCurrent(given, port.rowGeneration)
    modifies port, port.backend
    ensures port.Valid() && OnlyLastCurrent(views, port.rowGeneration)
  {
    var shown, _ := Perform(port, call);
    views := if shown.Some? then given + [shown.value] else given;
  }

  /** Any sequence of calls, in any order and with any arguments, then close. */
  method Run(prepare: bool, singleRow: bool, fieldCount: nat, waitSlice: nat, capabilities: set<Operation>, calls: seq<Call>)
    returns (port: Port, views: seq<View>)
    requires 0 < waitSlice <= MAX_SLICE && fieldCount <= MAX_RESULT_FIELDS
    ensures port.refused == 0 && port.misplaced == 0
    ensures port.backend.live == {} && port.backend.obtained == port.backend.cleared
    ensures port.backend.cancelsLive == {} && port.backend.cancelsCreated == port.backend.cancelsFinished
    ensures forall i, j :: 0 <= i < j < |views| ==> views[i].generation < views[j].generation
  {
    port := new Port(prepare, singleRow, fieldCount, waitSlice, capabilities);
    views := [];
    for n := 0 to |calls|
      invariant port.Valid() && fresh(port) && fresh(port.backend)
      invariant OnlyLastCurrent(views, port.rowGeneration)
    {
      views := Step(port, calls[n], views);
    }
    port.Close();
  }
}
