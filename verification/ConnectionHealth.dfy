/** The script a connection runs after connecting, to reset, to ping and at transaction
    boundaries. The fields `past` and `now` record every exchange with the server. */
module ConnectionHealth {
  import opened Options
  import opened Concatenation

  const VALUE_LIMIT := 4096

  datatype Operation = NoOperation | Connect | Reset | Ping | Begin | Commit | Rollback | Cancel | StatementOperation
  datatype ResetMode = DiscardMode | Strict
  datatype Phase = Created | Connecting | Health | Ready | Failed
  datatype Step = Idle | Send | Flush | Receive
  datatype Status = Ok | InvalidArgument | InvalidState | Unsupported | OutOfMemory | LimitExceeded | BackendError
  datatype WaitPhase = WaitConnect | WaitReset | WaitPing | WaitTransaction | WaitCancel | WaitStatement
  datatype Interest = Read | Write | ReadWrite
  datatype Outcome = Nothing | Complete | Wait(interest: Interest, phase: WaitPhase, slice: nat)

  /** A setting whose value the session plan cannot produce has none. */
  datatype Setting = Setting(name: string, value: Option<string>)

  datatype Command = BeginCommand | CommitCommand | RollbackCommand | DiscardAll | Select1 | SetConfig(setting: Setting)

  datatype ResultStatus = CommandOk | TuplesOk | OtherStatus
  datatype Reply = Reply(status: ResultStatus, rows: int, fields: int, isNull: bool, value: Option<string>)

  datatype Exchange = Sent(command: Command) | Received(reply: Reply) | Ended

  // ----- what has to be said, and what counts as an answer

  function SettingCommands(settings: seq<Setting>): (r: seq<Command>)
    ensures |r| == |settings| && forall i :: 0 <= i < |r| ==> r[i] == SetConfig(settings[i])
  {
    if settings == [] then [] else SettingCommands(settings[..|settings| - 1]) + [SetConfig(settings[|settings| - 1])]
  }

  function Script(operation: Operation, mode: ResetMode, settings: seq<Setting>): seq<Command> {
    match operation
    case Begin => [BeginCommand]
    case Commit => [CommitCommand]
    case Rollback => [RollbackCommand]
    case Ping => [Select1]
    case Reset => (if mode.DiscardMode? then [DiscardAll] else []) + SettingCommands(settings)
    case _ => SettingCommands(settings)
  }

  /** Which value of a setting is as good as the one asked for. */
  type Matching = iset<(Setting, string)>

  predicate Answers(matches: Matching, command: Command, reply: Reply) {
    if command.Select1? || command.SetConfig? then
      && reply.status.TuplesOk? && reply.rows == 1 && reply.fields == 1 && !reply.isNull
      && (command.SetConfig? ==> reply.value.Some? && (command.setting, reply.value.value) in matches)
    else
      reply.status.CommandOk?
  }

  ghost predicate Asked(trace: seq<Exchange>, command: Command, seen: bool, matches: Matching) {
    && |trace| == (if seen then 2 else 1) && trace[0] == Sent(command)
    && (seen ==> trace[1].Received? && Answers(matches, command, trace[1].reply))
  }

  /** One command with one valid result and the end of results. */
  ghost predicate Exchanged(trace: seq<Exchange>, command: Command, matches: Matching) {
    |trace| == 3 && Asked(trace[..2], command, true, matches) && trace[2] == Ended
  }

  /** The first `n` commands were sent in order, each answered by one valid result, then the end. */
  ghost predicate Answered(matches: Matching, rounds: seq<seq<Exchange>>, script: seq<Command>, n: nat) {
    && |rounds| == n <= |script|
    && (n > 0 ==> Answered(matches, rounds[..n - 1], script, n - 1) && Exchanged(rounds[n - 1], script[n - 1], matches))
  }

  lemma AnsweredMore(matches: Matching, rounds: seq<seq<Exchange>>, round: seq<Exchange>, script: seq<Command>, n: nat)
    requires Answered(matches, rounds, script, n) && n < |script| && Exchanged(round, script[n], matches)
    ensures Answered(matches, rounds + [round], script, n + 1)
  {
    assert (rounds + [round])[..n] == rounds;
  }

  /** The same, said of each command. */
  lemma {:induction false} AnsweredEach(matches: Matching, rounds: seq<seq<Exchange>>, script: seq<Command>, n: nat)
    ensures Answered(matches, rounds, script, n) <==>
      |rounds| == n <= |script| && forall i :: 0 <= i < n ==> Exchanged(rounds[i], script[i], matches)
  {
    if 0 < n == |rounds| <= |script| {
      AnsweredEach(matches, rounds[..n - 1], script, n - 1);
    }
  }

  /** The whole script and nothing else. */
  ghost predicate Conforms(matches: Matching, rounds: seq<seq<Exchange>>, script: seq<Command>) {
    Answered(matches, rounds, script, |script|)
  }

  function CommandIn(e: Exchange): seq<Command> { if e.Sent? then [e.command] else [] }
  function RoundOf(round: seq<Exchange>): seq<Exchange> { round }

  /** The commands that went out. */
  function Commands(trace: seq<Exchange>): seq<Command> {
    Concat(CommandIn, trace)
  }

  /** The whole exchange, round after round. */
  function Trace(rounds: seq<seq<Exchange>>): seq<Exchange> {
    Concat(RoundOf, rounds)
  }

  /** A finished operation sent exactly its script. */
  lemma {:induction false} AnsweredSends(matches: Matching, rounds: seq<seq<Exchange>>, script: seq<Command>, n: nat)
    requires Answered(matches, rounds, script, n)
    ensures Commands(Trace(rounds)) == script[..n]
  {
    if n > 0 {
      var before, last := rounds[..n - 1], rounds[n - 1];
      AnsweredSends(matches, before, script, n - 1);
      assert rounds == before + [last];
      ConcatNext(RoundOf, before, last);
      ConcatAppend(CommandIn, Trace(before), last);
      assert last == [last[0], last[1], last[2]];
      LastCommand(last[0], last[1], last[2]);
      assert script[..n] == script[..n - 1] + [script[n - 1]];
    }
  }

  lemma LastCommand(a: Exchange, b: Exchange, c: Exchange)
    requires a.Sent? && b.Received? && c.Ended?
    ensures Commands([a, b, c]) == [a.command]
  {
    ConcatOne(CommandIn, a);
    ConcatNext(CommandIn, [a], b);
    ConcatNext(CommandIn, [a, b], c);
    assert [a] + [b] == [a, b] && [a, b] + [c] == [a, b, c];
  }

  // ----- may the operation start

  datatype Transaction = InNone | InActive | InError | InOther

  datatype Observed = Observed(connectionOk: bool, pipelineOff: bool, statements: nat, busy: bool, transaction: Transaction, pending: bool)

  predicate Preflight(operation: Operation, o: Observed) {
    && o.connectionOk && o.pipelineOff && o.statements == 0 && !o.busy
    && (operation.Begin? || operation.Reset? || operation.Ping? ==> o.transaction.InNone?)
    && (operation.Commit? || operation.Rollback? ==> o.transaction.InActive? || o.transaction.InError?)
    && !o.pending
  }

  predicate Runs(operation: Operation) {
    !operation.NoOperation? && !operation.Cancel? && !operation.StatementOperation?
  }

  function DoneCount(index: nat, discarded: bool): nat { index + if discarded then 1 else 0 }

  /** The commands before the current one are done. */
  ghost predicate Underway(mode: ResetMode, settings: seq<Setting>, matches: Matching,
                           active: Operation, index: nat, discarded: bool, script: seq<Command>, past: seq<seq<Exchange>>)
  {
    && script == Script(active, mode, settings)
    && (discarded ==> active.Reset? && mode.DiscardMode?)
    && (active.Reset? && mode.DiscardMode? && !discarded ==> index == 0)
    && Answered(matches, past, script, DoneCount(index, discarded))
    && (Single(active) ==> DoneCount(index, discarded) == 0)
  }

  predicate Single(operation: Operation) {
    operation.Begin? || operation.Commit? || operation.Rollback? || operation.Ping?
  }

  predicate IsError(status: Status) { status.BackendError? || status.OutOfMemory? }

  /** Recording the error may itself run out of memory. */
  method ErrorStatus() returns (status: Status)
    ensures IsError(status)
  {
    var recorded: bool := *;
    status := if recorded then BackendError else OutOfMemory;
  }

  function OperationWaitPhase(operation: Operation): WaitPhase {
    if operation.Reset? then WaitReset
    else if operation.Ping? then WaitPing
    else if operation.Begin? || operation.Commit? || operation.Rollback? then WaitTransaction
    else WaitConnect
  }

  class Connection {
    const mode: ResetMode
    const settings: seq<Setting>
    const matches: Matching
    const waitSlice: nat
    var phase: Phase
    var step: Step
    var active: Operation
    var sessionIndex: nat
    var resultSeen: bool
    var discardComplete: bool
    /** The script of the operation last begun, and what has been exchanged for it. */
    ghost var script: seq<Command>
    var past: seq<seq<Exchange>>
    /** The exchange of the current command; only SendQuery and GetResult add to it. */
    var now: seq<Exchange>
    var waitInterest: Interest

    /** Commands finished so far. */
    ghost function Done(): nat
      reads this
    {
      DoneCount(sessionIndex, discardComplete)
    }

    ghost predicate InScript()
      reads this
    {
      Runs(active) && Underway(mode, settings, matches, active, sessionIndex, discardComplete, script, past)
    }

    ghost predicate Valid()
      reads this
    {
      phase.Health? ==>
        && InScript() && !step.Idle?
        && (step.Send? ==> now == [])
        && (!step.Send? ==> Done() < |script| && Asked(now, script[Done()], resultSeen, matches))
        && (step.Flush? ==> !resultSeen)
    }

    constructor (mode: ResetMode, settings: seq<Setting>, matches: Matching, waitSlice: nat)
      ensures Valid() && phase.Created? && active.NoOperation?
      ensures this.mode == mode && this.settings == settings && this.matches == matches && this.waitSlice == waitSlice
    {
      this.mode, this.settings, this.matches, this.waitSlice := mode, settings, matches, waitSlice;
      phase, step, active, sessionIndex, resultSeen, discardComplete := Created, Idle, NoOperation, 0, false, false;
      script, past, now, waitInterest := [], [], [], Read;
    }

    method Fail() returns (status: Status)
      modifies `phase, `step
      ensures phase.Failed? && IsError(status)
    {
      phase, step := Failed, Idle;
      status := ErrorStatus();
    }

    method BeginOperation(operation: Operation, observed: Observed) returns (status: Status)
      requires Valid()
      modifies this
      ensures Valid()
      ensures status.InvalidArgument? <==> !Runs(operation)
      ensures status.Ok? <==> Runs(operation) && (operation.Connect? || Preflight(operation, observed))
      ensures status.Ok? ==> phase.Health? && active == operation && past == [] && now == []
      ensures status.Ok? ==> script == Script(operation, mode, settings)
      ensures status.InvalidArgument? ==> phase == old(phase) && active == old(active)
      ensures !status.Ok? && !status.InvalidArgument? ==> phase.Failed? && IsError(status)
    {
      if !Runs(operation) { return InvalidArgument; }
      if !operation.Connect? && !Preflight(operation, observed) { status := Fail(); return; }
      active, sessionIndex, resultSeen, discardComplete := operation, 0, false, false;
      step, phase := Send, Health;
      script, past, now := Script(operation, mode, settings), [], [];
      status := Ok;
    }

    // ----- the two calls that talk to the server

    method SendQuery(command: Command) returns (sent: bool)
      modifies `now
      ensures now == if sent then old(now) + [Sent(command)] else old(now)
    {
      sent := *;
      if sent { now := now + [Sent(command)]; }
    }

    /** A result, or none: the end of results. */
    method GetResult() returns (reply: Option<Reply>)
      modifies `now
      ensures now == old(now) + [if reply.Some? then Received(reply.value) else Ended]
    {
      reply := *;
      now := now + [if reply.Some? then Received(reply.value) else Ended];
    }

    /** Sends the next command of the script, or ends the operation when none is left. */
    method SendNext() returns (status: Status)
      requires Valid() && phase.Health? && step.Send?
      modifies `phase, `step, `active, `resultSeen, `now
      ensures Valid() && (phase.Health? ==> active == old(active))
      ensures if status.Ok? then phase.Ready? || phase.Health? else phase.Failed? && IsError(status)
      ensures status.Ok? && phase.Ready? ==> Conforms(matches, past, script) && now == []
      ensures status.Ok? && phase.Health? ==> step.Flush?
    {
      var command;
      if active.Begin? {
        command := BeginCommand;
      } else if active.Commit? {
        command := CommitCommand;
      } else if active.Rollback? {
        command := RollbackCommand;
      } else if active.Reset? && mode.DiscardMode? && !discardComplete {
        command := DiscardAll;
      } else if active.Ping? {
        command := Select1;
      } else {
        if sessionIndex >= |settings| {
          phase, step, active := Ready, Idle, NoOperation;
          return Ok;
        }
        var setting := settings[sessionIndex];
        if setting.value.None? || |setting.value.value| > VALUE_LIMIT { status := Fail(); return; }
        command := SetConfig(setting);
      }
      var sent := SendQuery(command);
      if !sent { status := Fail(); return; }
      resultSeen := false;
      step := Flush;
      status := Ok;
    }

    /** The check of a result, made against the operation and the position in the settings. */
    method ResultValid(reply: Reply) returns (valid: bool)
      requires InScript() && Done() < |script|
      ensures valid <==> Answers(matches, script[Done()], reply)
    {
      if active.Begin? || active.Commit? || active.Rollback? { return reply.status.CommandOk?; }
      if active.Reset? && mode.DiscardMode? && !discardComplete { return reply.status.CommandOk?; }
      if !reply.status.TuplesOk? || reply.rows != 1 || reply.fields != 1 || reply.isNull { return false; }
      if active.Ping? { return true; }
      return sessionIndex < |settings| && reply.value.Some? && (settings[sessionIndex], reply.value.value) in matches;
    }

    method CommandComplete()
      requires phase.Health? && InScript() && Done() < |script| && Exchanged(now, script[Done()], matches)
      modifies `phase, `step, `active, `sessionIndex, `discardComplete, `past, `now
      ensures Valid() && now == [] && (phase.Health? ==> active == old(active))
      ensures phase.Ready? || (phase.Health? && step.Send? && Done() == old(Done()) + 1)
      ensures phase.Ready? ==> Conforms(matches, past, script)
    {
      AnsweredMore(matches, past, now, script, Done());
      past, now := past + [now], [];
      if Single(active) {
        phase, step, active := Ready, Idle, NoOperation;
        return;
      }
      if active.Reset? && mode.DiscardMode? && !discardComplete {
        discardComplete := true;
      } else {
        sessionIndex := sessionIndex + 1;
      }
      step := Send;
    }

    /** Takes one result, or the end of results. `more` says the loop goes on. */
    method ReceiveNext() returns (more: bool, status: Status)
      requires Valid() && phase.Health? && step.Receive?
      modifies `phase, `step, `active, `sessionIndex, `discardComplete, `resultSeen, `past, `now
      ensures Valid()
      ensures more ==> phase.Health? && status.Ok? && active == old(active)
      ensures more && old(resultSeen) ==> step.Send? && Done() == old(Done()) + 1
      ensures more && !old(resultSeen) ==> step.Receive? && resultSeen && Done() == old(Done())
      ensures !more && status.Ok? ==> phase.Ready? && now == [] && Conforms(matches, past, script)
      ensures !status.Ok? ==> phase.Failed? && IsError(status)
    {
      more := false;
      var reply := GetResult();
      if reply.None? {
        if !resultSeen { status := Fail(); return; }
        CommandComplete();
        more, status := phase.Health?, Ok;
        return;
      }
      var valid := ResultValid(reply.value);
      if resultSeen || !valid { status := Fail(); return; }
      resultSeen := true;
      more, status := true, Ok;
    }

    /** The one request that a wait will be let through for. */
    ghost function Awaited(): Outcome
      reads this
    {
      Wait(waitInterest, OperationWaitPhase(active), waitSlice)
    }

    method WaitForSocket(interest: Interest) returns (status: Status, outcome: Outcome)
      requires Valid() && phase.Health?
      modifies `phase, `step, `waitInterest
      ensures Valid()
      ensures status.Ok? ==> phase == old(phase) && step == old(step) && outcome == Awaited()
      ensures !status.Ok? ==> phase.Failed? && IsError(status)
    {
      outcome := Nothing;
      waitInterest := interest;
      var socketOk: bool := *;
      if !socketOk { status := Fail(); return; }
      return Ok, Wait(waitInterest, OperationWaitPhase(active), waitSlice);
    }

    /** Brings the current command to the point where its results can be read. */
    method SendAndFlush() returns (more: bool, status: Status, outcome: Outcome)
      requires Valid() && phase.Health?
      modifies `phase, `step, `active, `resultSeen, `now, `waitInterest
      ensures Valid()
      ensures more ==> phase.Health? && step.Receive? && active == old(active)
      ensures more && old(step).Receive? ==> resultSeen == old(resultSeen)
      ensures !more && status.Ok? && outcome.Complete? ==> phase.Ready? && now == [] && Conforms(matches, past, script)
      ensures !more && status.Ok? && !outcome.Complete? ==>
        phase.Health? && active == old(active) && outcome == Awaited()
      ensures !more && !status.Ok? ==> phase.Failed? && IsError(status)
    {
      more, status, outcome := false, Ok, Nothing;
      if step.Send? {
        status := SendNext();
        if !status.Ok? { return; }
        if phase.Ready? { outcome := Complete; return; }
      }
      if step.Flush? {
        var flushed: int := *;
        if flushed < 0 { status := Fail(); return; }
        if flushed == 1 { status, outcome := WaitForSocket(Write); return; }
        step := Receive;
      }
      more := true;
    }

    /** How many results and ends of results the script can still take. */
    ghost function Remaining(): int
      reads this
    {
      2 * (|script| - Done()) - if resultSeen && step.Receive? then 1 else 0
    }

    /** One pass of the poll loop. */
    method Pass() returns (more: bool, status: Status, outcome: Outcome)
      requires Valid() && phase.Health?
      modifies `phase, `step, `active, `sessionIndex, `discardComplete, `resultSeen, `past, `now, `waitInterest
      ensures Valid()
      ensures more ==> phase.Health? && active == old(active) && 0 <= Remaining() < old(Remaining())
      ensures !more && status.Ok? && outcome.Complete? ==> phase.Ready? && now == [] && Conforms(matches, past, script)
      ensures !more && status.Ok? && !outcome.Complete? ==>
        phase.Health? && active == old(active) && outcome == Awaited()
      ensures !more && !status.Ok? ==> phase.Failed? && IsError(status)
    {
      more, status, outcome := SendAndFlush();
      if !more { return; }
      var consumed: bool, busy: bool := *, *;
      more := false;
      if !consumed { status := Fail(); return; }
      if busy { status, outcome := WaitForSocket(Read); return; }
      more, status := ReceiveNext();
      outcome := if status.Ok? then Complete else Nothing;
    }

    /** Runs the script as far as libpq lets it go without waiting; ends for any answers. */
    method Poll() returns (status: Status, outcome: Outcome)
      requires Valid()
      modifies `phase, `step, `active, `sessionIndex, `discardComplete, `resultSeen, `past, `now, `waitInterest
      ensures Valid()
      ensures status.InvalidState? <==> !old(phase).Health?
      ensures status.InvalidState? ==> phase == old(phase)
      ensures status.Ok? ==> (outcome.Complete? && phase.Ready?) || (outcome.Wait? && phase.Health?)
      ensures status.Ok? && outcome.Complete? ==> now == [] && Conforms(matches, past, script)
      ensures status.Ok? && outcome.Wait? ==> active == old(active) && outcome == Awaited()
      ensures old(phase).Health? && !status.Ok? ==> phase.Failed?
    {
      outcome := Nothing;
      if !phase.Health? { return InvalidState, outcome; }
      var more := true;
      status := Ok;
      while more
        invariant Valid()
        invariant more ==> phase.Health? && active == old(active)
        invariant !more && status.Ok? && outcome.Complete? ==> phase.Ready? && now == [] && Conforms(matches, past, script)
        invariant !more && status.Ok? && !outcome.Complete? ==>
          phase.Health? && active == old(active) && outcome == Awaited()
        invariant !more && !status.Ok? ==> phase.Failed? && IsError(status)
        decreases more, if more then Remaining() else 0
      {
        more, status, outcome := Pass();
      }
    }
  }

  // ----- whole runs

  datatype Call = CallBegin(operation: Operation, observed: Observed) | CallPoll | WaitFails

  /** Any sequence of calls: whenever a poll reports completion, exactly the script of the
      operation last begun was sent in order and answered. */
  method Run(mode: ResetMode, settings: seq<Setting>, matches: Matching, waitSlice: nat, calls: seq<Call>)
    returns (finished: seq<(Operation, seq<seq<Exchange>>)>)
    ensures forall i :: 0 <= i < |finished| ==>
      && Conforms(matches, finished[i].1, Script(finished[i].0, mode, settings))
      && Commands(Trace(finished[i].1)) == Script(finished[i].0, mode, settings)
  {
    var connection := new Connection(mode, settings, matches, waitSlice);
    var operation := NoOperation;
    finished := [];
    for n := 0 to |calls|
      invariant connection.Valid() && fresh(connection)
      invariant connection.mode == mode && connection.settings == settings && connection.matches == matches
      invariant connection.phase.Health? ==> connection.active == operation
      invariant forall i :: 0 <= i < |finished| ==>
        && Conforms(matches, finished[i].1, Script(finished[i].0, mode, settings))
        && Commands(Trace(finished[i].1)) == Script(finished[i].0, mode, settings)
    {
      var status;
      match calls[n]
      case CallBegin(next, observed) =>
        status := connection.BeginOperation(next, observed);
        if status.Ok? { operation := next; }
      case CallPoll =>
        var outcome;
        status, outcome := connection.Poll();
        if status.Ok? && outcome.Complete? {
          var script := Script(operation, mode, settings);
          AnsweredSends(matches, connection.past, script, |script|);
          assert script[..|script|] == script;
          finished := finished + [(operation, connection.past)];
        }
      case WaitFails => connection.phase := Failed;
    }
  }
}
